# Pinakes: delivery, lifecycle and migration

A model of the Pinakes agent bus and of its namespace migration tool, with proofs. Three parts:

* **The delivery protocol.** `Durable` has the SQLite tables and the statements that write them,
  `Batch` one durable poll, `Protocol` the whole bus as a state machine: the tables, the process that
  holds the volatile maps and the push jobs, and nineteen kinds of step, with a crash possible between
  any two of them, also between the commit of an acceptance and its publication. `Safety` and
  `Invariant` prove one invariant of every step; `Runs` and `Guarantees` draw the whole-run guarantees
  from it (no loss, finality, at most once per window, fresh ids, recovery, cursors, leases, shutdown);
  `Paging` proves that bounded paging drains exactly; `Limits` states what the code does not keep and
  exactly when, and `Witnesses` has the runs that show it. `Outcomes` says in terms of the rows what
  each operation does, and `Retries` when a failed push is tried again over a whole run. `BusStore` is
  the store as an object, whose methods carry out the steps.
* **Times as texts.** The statements compare times as texts, and so does the model: `Texts` has byte
  order and the printed fractions, `Stamps` the order of times that results, and `TimeText` proves
  that it is the order of the printed times and how far it is from the order of the times themselves.
* **The in-memory structures and older state.** `Eviction`, `Inbox` and `Observe` prove the capped
  inbox and the observe ring against an unbounded log; `Lifecycle` is the in-memory store with its
  rate-limited sweep, `Calls` says what its calls do to a message and what becomes of a request over
  a run, `Records` proves what every process that opens a database starts it from; `Legacy` and
  `Backfill` bring older state into the tables, and `Refills` says which of it.
* **The namespace migration.** `Manifest` and `ManifestTool` are the rows, the parser and the
  inversion, `Rows` says which lists of records are manifests; `Rename` the identity cells and their
  simultaneous substitution; `Plan` what the preflight must decide and what re-running and undoing do;
  `Inspector` and `Migrate` the run itself, statement by statement; `Preflights` and `Reports` say how
  a run ends, what it leaves and what it reports, in terms of the columns.

Times are integer nanoseconds, and each step reads the clock once, never backwards. A table is a map
from key to row and a transaction either replaces the tables or leaves them. What the source updates
in place is a class whose methods are proved against functions of the old state
(`BusStore.SQLiteStore`, `Lifecycle.MemoryStore`, `Inbox.AgentInbox`, `Observe.Ring`,
`Migrate.Migration`); the theorems are about those functions.

Some things hold less widely than one might expect. Each has a lemma with a concrete case and an
exact condition:

* A row can be marked received that was never offered: when it expired before a poll passed it, or
  when a client asks past every cursor it was given. Over any run, an earlier poll offered a row that
  is now marked received if and only if one passed it before its deadline, and a client that follows
  its cursors always had one that passed it (`Limits.ReceivedImpliesOffered`,
  `Limits.ReceivedButNeverOffered`, `Limits.SkippedAheadNeverOffered`).
* After its window a key whose receipt is not yet pruned makes a send abort (`Limits.SendOutcome`,
  `Witnesses.SpentKeyAborts`).
* The window is exact while one process lives. Across a restart it can be short by less than a
  second, because receipts are pruned by their texts (`Guarantees.OncePerWindow`,
  `Guarantees.OncePerWindowInProcess`, `Witnesses.WindowLosesAFraction`).
* Between the recovery of leases and the end of a shutdown a send can still commit; the rows left
  attempting are exactly the live ones of such push sends, and the next start recovers them
  (`Guarantees.LeasesAtClose`, `Witnesses.CloseLeavesAttempting`).
* A message can be terminal without a terminal time: exactly when it was so at the start of its
  process, from a database older than that column (`Lifecycle.UntimedSinceStart`,
  `Lifecycle.OldTerminalStaysUntimed`).
* A request can be waiting or executing in memory without a delivery time. It becomes so exactly when
  an offer without a time reaches it while it is pending, and that happens when its recipient reports
  progress between a push claim and the claim's projection (`Lifecycle.CallKeepsTimes`,
  `Lifecycle.UndatedSince`, `Witnesses.ProgressUndatesAClaim`).
* When retention has removed an agent's in-memory inbox, a client that returns with an older cursor
  misses exactly the retained events below its first clamped cursor (`Inbox.ResetMisses`,
  `Inbox.ReturningClientMisses`).
* A manifest may hold a row and its own reverse; then a second run is not a no-op
  (`Plan.RerunIsNoOp`, `Plan.ReverseRerunRewrites`). An undo restores the database exactly when no row was already applied without
  its reverse in the manifest and no conversation mixed the private scopes to begin with
  (`Plan.UndoRestores`, `Plan.MixedUndoIsRefused`).

## Model

| member | source | states |
|---|---|---|
| Invariant.Step | pkg/bus/sqlite_delivery.go:197-326 | Every step, crash and restart included, keeps the invariant: unique slots below next_seq, no live row below the acknowledged cursor, leases, receipts agreeing with the in-memory index, counters, shutdown stages |
| Invariant.Initial | pkg/bus/sqlite.go:155-223 | An empty database satisfies the invariant |
| Invariant.RestartStep | pkg/bus/sqlite.go:223-240 | Startup recovery, pruning and loading re-establish the whole invariant from the tables alone |
| Invariant.ShutdownStep | pkg/bus/store.go:681-830 | Each step keeps the wait group equal to queued, running and detached jobs, and a closed queue without jobs |
| Invariant.ProjectionStep | pkg/bus/store.go:1442-1481 | The in-memory counter and message rows follow the tables through every step |
| Invariant.ReceiptsStep | pkg/bus/sqlite_delivery.go:742-766 | After every step the in-memory duplicate index and the idempotency table agree on every key with a second of its window left, and inside the window they never disagree on a key that both have |
| Safety.TablesStep | pkg/bus/sqlite_delivery.go:225-256 | Every statement keeps unique slots, cursors in range and no live row below the acknowledged cursor |
| Safety.EvolvesStep | pkg/bus/sqlite_delivery.go:602-615 | Every statement leaves each row in its slot with its deadline, and received and failed stay |
| Safety.LeaseStep | pkg/bus/sqlite_delivery.go:367-471 | Every step keeps at most one push job per message, none for a pending row, and one for each attempting row until shutdown |
| Runs.StepNoLoss | pkg/bus/sqlite.go:273-320 | A live row stays live with its slot and deadline in any step but one that proves receipt or fails it when due |
| Runs.NoLoss | pkg/bus/sqlite_delivery.go:197-326 | Over any run with crashes a live row stays live until a successful push, a recipient's report or a passed cursor settles it, or it fails at or after its deadline |
| Runs.StepFinal | pkg/bus/sqlite_delivery.go:293-326 | A settled row never becomes live again and keeps its status while it exists |
| Runs.Final | pkg/bus/sqlite_delivery.go:293-326 | The same over any run, through restarts and pruning |
| Runs.AcceptedIsDelivered | pkg/bus/store.go:1432-1481 | Every accepted addressed message has a live row due at its TTL or grace end, and is later live or settled once and for good |
| Runs.CounterStep | pkg/bus/sqlite_delivery.go:271-280 | The durable id counter moves only with an acceptance, to the accepted id |
| Guarantees.StepKeepsReceipt | pkg/bus/sqlite.go:284 | No step removes or changes a receipt with a second of its window left |
| Guarantees.ReceiptKept | pkg/bus/sqlite_delivery.go:257-270 | A receipt survives any run, crashes and message pruning for its whole window less one second |
| Guarantees.OncePerWindow | pkg/bus/store.go:1336-1349 | Two acceptances under one key lie more than the window less one second apart, in any run |
| Guarantees.OncePerWindowInProcess | pkg/bus/store.go:1336-1349 | While one process lives they lie more than the whole window apart |
| Guarantees.RetryReturnsOriginal | pkg/bus/store.go:1336-1349 | A retry by a registered pair with a second of the window left is answered with the original id, whatever happened between |
| Guarantees.FreshIds | pkg/bus/sqlite.go:484-504 | Accepted message ids strictly increase over any run, restarts included |
| Guarantees.StepKeepsMessage | pkg/bus/sqlite.go:286-303 | A message row stays with its envelope in every step except exactly when a prune finds it past retention and without a live delivery that is not yet due |
| Guarantees.MessageKept | pkg/bus/sqlite.go:286-303 | Over any run a message row is there with its envelope until such a prune |
| Guarantees.AcceptedIsKept | pkg/bus/sqlite_delivery.go:197-280 | Every accepted message, addressed or broadcast, delivered or not, is there in every later state until a prune retires it |
| Guarantees.ContentKept | pkg/bus/sqlite.go:286-294 | While a delivery is live its message row exists with the accepted envelope |
| Guarantees.RestartRecovers | pkg/bus/sqlite.go:462-504 | After a committed acceptance any later restart has the counter past the id, loads the message with its content unless a prune up to then retired it, and always if its delivery is live, and indexes its receipt while a second of the window is left |
| Guarantees.AgreeAlways | pkg/bus/sqlite_delivery.go:742-766 | In every reachable state the index and the table agree on every key with a second of its window left, but for one acceptance being published |
| Guarantees.CursorMonotone | pkg/bus/sqlite_delivery.go:584-615 | acknowledged_cursor and next_seq never decrease over any run |
| Guarantees.AcknowledgedStaysAcknowledged | pkg/bus/sqlite_delivery.go:584-640 | No later poll of any run offers a slot below a cursor that was once acknowledged |
| Guarantees.LeaseAlways | pkg/bus/store.go:681-727 | In every reachable state: at most one job per message, exactly one for an attempting row until shutdown begins, wait group exact, closed queue empty and refusing |
| Guarantees.NoLeaseAcrossProcesses | pkg/bus/sqlite.go:223-227 | The recovery at shutdown and every restart leave no row attempting |
| Guarantees.LeasesAfterRecovery | pkg/bus/sqlite.go:439-460 | From that recovery to the end of its process, a row is attempting if and only if it is live and a send in between accepted it with a push |
| Guarantees.LeasesAtClose | pkg/bus/sqlite.go:439-460 | The rows a clean close leaves attempting are exactly those; without such a send there are none |
| Guarantees.LateSendStaysAttempting | pkg/bus/sqlite.go:445-457 | Such a send, committed before the database closes, is left attempting |
| Witnesses.CloseLeavesAttempting | pkg/bus/sqlite.go:439-460 | A run from the empty database that ends with a clean close and leaves a row attempting |
| Paging.OrderedExactly | pkg/bus/sqlite_delivery.go:621-631 | The listing a poll reads holds exactly the unexpired live rows of the range, in strictly increasing slot order |
| Paging.FitIsMaximal | pkg/bus/sqlite_delivery.go:617-655 | The batch is the longest prefix within the event limit and the byte limit, one event alone being exempt from bytes |
| Paging.PollOffersPrefix | pkg/bus/sqlite_delivery.go:566-706 | A poll offers a prefix of the outstanding rows past the clamped cursor, non-empty if any, as long as both limits allow, and its returned cursor continues exactly after it; the limits in numbers are in Outcomes.PollLimits |
| Paging.BatchInRange | pkg/bus/sqlite_delivery.go:617-706 | What a poll offers lies between its committed and its returned cursor and has not expired |
| Paging.DrainIsExact | pkg/bus/sqlite_delivery.go:541-706 | For every configured cap, following the returned cursors at one clock reading terminates and yields all outstanding rows once each, in order |
| Limits.OfferedExactlyWhenUnexpired | pkg/bus/sqlite_delivery.go:602-631 | A live row behind the returned cursor of a poll was offered by it if and only if it had not expired; a next poll at that cursor marks it received either way |
| Limits.WasLive | pkg/bus/sqlite_delivery.go:225-256 | Over any run, a live row in a slot that existed earlier was live earlier, in that slot and with that deadline |
| Limits.OfferedBefore | pkg/bus/sqlite_delivery.go:602-631 | Over any run with any steps in between, an earlier poll of its agent offered a still live row if and only if it returned a cursor past the row before the row's deadline |
| Limits.ReceivedImpliesOffered | pkg/bus/sqlite_delivery.go:595-631 | A row that a poll marks received was offered earlier if and only if some earlier poll of the agent passed it before its deadline; and if the client asked at most for the acknowledged cursor or one that was returned to it, some earlier poll had passed it |
| Limits.ReceivedButNeverOffered | pkg/bus/sqlite_delivery.go:602-631 | A concrete inbox where an expired row becomes received that no poll ever offered |
| Limits.SkippedAheadNeverOffered | pkg/bus/sqlite_delivery.go:595-615 | A concrete inbox whose unexpired row is marked received by a first poll that asks past it and offers nothing |
| Limits.SendOutcome | pkg/bus/sqlite_delivery.go:257-270 | A send is a duplicate exactly while the index remembers its key, aborts exactly while the key has a receipt that is not remembered, and commits otherwise; with a second of the window left the receipt alone makes it the original, and once the window is over the receipt alone makes it abort |
| Witnesses.SpentKeyAborts | pkg/bus/sqlite_delivery.go:257-270 | A run from the empty database after which the same send, repeated just past the window without a prune, aborts |
| Witnesses.WindowLosesAFraction | pkg/bus/sqlite.go:284 | A run from the empty database that accepts one key twice within its window, by less than a second, across a restart |
| Limits.PagesAreDisjoint | pkg/bus/sqlite_delivery.go:566-706 | Over any run, when a poll asks for at least the cursor that an earlier poll of its agent returned, their batches share no message |
| Outcomes.PollLimits | pkg/bus/sqlite_delivery.go:541-551 | A poll with a positive limit offers at most so many events; it offers at most the configured number, or 10000 without one, and two or more events have together at most the configured bytes, or 33554432 when that is off or larger; and if it leaves a row that it could have offered, it has reached one of these numbers |
| Outcomes.PollOffers | pkg/bus/sqlite_delivery.go:617-658 | A poll offers a row if and only if it is of the agent, pending or attempting, sorts after the clock by its deadline, and lies from the requested to before the returned cursor |
| Outcomes.PollCommits | pkg/bus/sqlite_delivery.go:584-604 | The committed cursor is the requested one when that lies between the acknowledged cursor and next_seq, and else the nearer of the two; no other cursor and no next_seq moves |
| Outcomes.PollWrites | pkg/bus/sqlite_delivery.go:605-684 | A poll marks exactly the pending and attempting rows of the agent below the committed cursor received, and hands out exactly the messages it offers: off the queue, a pending request waiting, an earlier delivery time kept |
| Outcomes.BytesAreSizes | pkg/bus/sqlite_delivery.go:645-653 | The bytes of a batch are the sizes of its messages added up |
| Outcomes.SendDecides | pkg/bus/store.go:1330-1419 | A send is a duplicate exactly for an indexed key within its window, refused exactly for an unknown target or one lapsed beyond grace, and what it commits is, by kind and target: a request to an active agent waiting and delivered now; a request or injection to a lapsed one pending, queued and undelivered; anything else completed now; with TTL and grace, a key unless injected, and a push to active push agents only |
| Outcomes.SendWrites | pkg/bus/sqlite_delivery.go:197-291 | A committed send writes the message, the counter, a delivery in the next slot due at the earlier of TTL and grace and leased at once if it is to be pushed, the moved cursor, and a receipt for one window; a broadcast has no delivery, an injection no receipt |
| Outcomes.ClaimTakes | pkg/bus/sqlite_delivery.go:377-388 | One claim takes only rows that are pending, whose retry time has come, whose deadline has not and whose target can be pushed to; at most 32; and of these a given one if fewer than 32 others may be tried before it, and only if fewer than 32 must be, by retry time and then slot, no time first |
| Outcomes.ClaimWrites | pkg/bus/sqlite_delivery.go:372-419 | A claim fails the live rows at their deadline, leases the chosen ones, hands out their messages and leaves all else |
| Outcomes.FailureWrites | pkg/bus/sqlite_delivery.go:304-326 | A failed push adds its attempts to a leased row, which is pending again with a retry time of now plus the base delay doubled per attempt after the first and at most thirty seconds, or failed at its deadline; no other row changes |
| Outcomes.CycleWrites | pkg/bus/sqlite_delivery.go:293-326 | Success receives the leased row and clears its retry time; giving up writes the failure with the attempts made, a job that found no room or no message with none; a report of the recipient receives a live row |
| Outcomes.PruneKeeps | pkg/bus/sqlite.go:286-303 | A prune keeps a message if and only if its delivery is live before its deadline, or it is younger than the maximal age and not terminal for longer than retention, by its terminal time or else its creation |
| Outcomes.PruneWrites | pkg/bus/sqlite.go:273-303 | A prune fails live rows at their deadline, removes exactly the deliveries of removed messages and the receipts whose end sorts before now, and at a start returns leases first |
| Outcomes.RecoveryWrites | pkg/bus/sqlite.go:439-504 | A start loads exactly the messages, the counter and the receipts left in the tables, with no jobs; the recovery at shutdown makes leases pending, to be tried at once if they had no time |
| Outcomes.PublishShows | pkg/bus/store.go:1442-1509 | Publication shows the message and its key; the push job joins the end of the queue, or is written off in the background when the queue is full, or is dropped once shutdown has begun |
| Outcomes.TidyForgets | pkg/bus/store.go:912-916 | A tidying step forgets exactly the keys whose window is over |
| Outcomes.MayHappen | pkg/bus/store.go:681-830 | When each kind of step is possible: a crash in every state of a running process, also while an acceptance is held; then nothing else that needs the store lock; a start whenever no process runs |
| Outcomes.JobsMove | pkg/bus/sqlite_delivery.go:421-471 | A claimed job goes to the end of the queue if there is room, the head of the queue to a worker, a finished one away, and the wait group counts along |
| Outcomes.StagesAre | pkg/bus/store.go:799-830 | Each stage of a shutdown sets its own flag, the last ends the process, and only the recovery touches the tables |
| Outcomes.ProjectionWrites | pkg/bus/sqlite_delivery.go:688-700 | In memory the messages handed out leave the queue, wait if they were pending requests, and take over the stored delivery time unless they had one; no other message changes |
| Retries.NeverEarly | pkg/bus/sqlite_delivery.go:304-350 | Over any run: after a push of a message fails at some time with some attempts, the next claim that leases its row sorts no earlier than that time plus the capped doubled delay, and no later claim comes as much as a second earlier, whatever polls, crashes and restarts follow |
| Retries.DueAgain | pkg/bus/sqlite_delivery.go:377-386 | And from that time on, in every later state before such a claim, the row awaits a claim exactly while it is pending, its deadline is ahead and its target can be pushed to |
| Protocol.BackoffIsCappedDoubling | pkg/bus/sqlite_delivery.go:338-350 | That delay is the base doubled per attempt after the first, cut off at thirty seconds; the first is the base itself |
| BusStore.FirstDue | pkg/bus/sqlite_delivery.go:377-386 | The row that is first by retry time and slot |
| BusStore.SelectDue | pkg/bus/sqlite_delivery.go:377-400 | A claim selects the first rows in claim order, up to 32, of those that are pending, whose retry time has come, whose deadline has not and whose target can be pushed to |
| BusStore.PushCycleBackoff | pkg/bus/sqlite_delivery.go:338-350 | The loop, with its early return, computes the delay of a push cycle |
| BusStore.ScanInbox | pkg/bus/sqlite_delivery.go:617-658 | The read loop computes exactly the chosen batch, within the limit of the client and the configured number of events |
| BusStore.MarkOffered | pkg/bus/sqlite_delivery.go:659-680 | The update loop offers exactly the rows of the batch |
| BusStore.MarkAttempting | pkg/bus/sqlite_delivery.go:401-419 | The update loop takes exactly the claimed pending rows |
| BusStore.PruneTables | pkg/bus/sqlite.go:273-303 | Pruning removes exactly the messages past retention without a live delivery, and the spent receipts |
| BusStore.LoadIdempotency | pkg/bus/sqlite_delivery.go:742-766 | Loading fills the index with exactly the receipts not yet past their end |
| BusStore.SQLiteStore.PersistAcceptance | pkg/bus/sqlite_delivery.go:197-291 | The acceptance transaction commits exactly when no key conflicts and the database does not fail; otherwise the tables are as before |
| BusStore.SQLiteStore.CommitSend | pkg/bus/store.go:1277-1441 | A send up to its commit is the commit step, with the message that kind and target call for: nothing is visible in memory yet, and a refused, duplicate or aborted send changes nothing |
| BusStore.SQLiteStore.EnqueuePushJob | pkg/bus/store.go:681-711 | A job is queued and counted, or refused when the queue is full or closed |
| BusStore.SQLiteStore.PublishAcceptance | pkg/bus/store.go:1442-1509 | Publication is the publish step and keeps the invariant |
| BusStore.SQLiteStore.ReadDurableInbox | pkg/bus/sqlite_delivery.go:566-706 | A poll is the poll step on tables and memory, stays within the limit of the client and the configured number of events, and keeps the invariant |
| BusStore.SQLiteStore.PersistAck | pkg/bus/sqlite_delivery.go:711-740 | An ack or event is the report step: lifecycle and receipt together |
| BusStore.SQLiteStore.ClaimDuePushes | pkg/bus/sqlite_delivery.go:367-419 | A claim is the claim step, at most 32 rows that were pending with their retry time come and their deadline ahead: due rows first fail, then the first of these are leased |
| BusStore.SQLiteStore.EnqueueClaimedPush | pkg/bus/sqlite_delivery.go:421-471 | A claimed push is queued, or its lease is returned with a failure write |
| BusStore.SQLiteStore.WriteFailureRow | pkg/bus/sqlite_delivery.go:304-326 | The failure write of one row |
| BusStore.SQLiteStore.StartJob | pkg/bus/store.go:353-362 | A worker takes the oldest queued job |
| BusStore.SQLiteStore.RecordPushSuccess | pkg/bus/sqlite_delivery.go:293-302 | Success ends the job and marks an attempting row received |
| BusStore.SQLiteStore.RecordPushFailure | pkg/bus/sqlite_delivery.go:304-326 | Failure ends the job and returns the row with its retry time, or fails it when due |
| BusStore.SQLiteStore.FinishDetached | pkg/bus/store.go:713-727 | The detached failure write ends its job |
| BusStore.SQLiteStore.PruneDb | pkg/bus/sqlite.go:273-320 | Pruning is the prune step and keeps the invariant |
| BusStore.SQLiteStore.Open | pkg/bus/sqlite.go:155-252 | Opening recovers leases, prunes, then loads: the restart step |
| BusStore.SQLiteStore.RecoverAtShutdown | pkg/bus/sqlite.go:445-449 | The recovery at shutdown returns every remaining lease and keeps the invariant |
| BusStore.SQLiteStore.FinishShutdown | pkg/bus/sqlite.go:457-460 | Closing the database ends the process |
| Eviction.FindDrop | pkg/bus/store.go:567-584 | The scan finds the least prefix whose removal meets both caps, never the newest event |
| Eviction.LeastDropKeepsNewest | pkg/bus/store.go:573-583 | That prefix is unique and leaves the newest event |
| Inbox.AgentInbox.DropPrefix | pkg/bus/store.go:591-601 | Dropping moves the base and the byte count together |
| Inbox.AgentInbox.Append | pkg/bus/store.go:562-587 | Append extends the log by the event and evicts exactly the least prefix |
| Inbox.AgentInbox.Poll | pkg/bus/store.go:1555-1599 | A poll returns the log from the clamped cursor, up to the limit, and acknowledges below it; a failed barrier changes nothing |
| Inbox.AnswerIs | pkg/bus/store.go:1555-1599 | An answer spans from the cursor asked for, or the nearer end of the retained log, to the end of the log or the limit if that comes first |
| Inbox.AppendKeeps | pkg/bus/store.go:562-587 | After an append both caps hold, the newest event alone exempt from bytes, and keeping one more event would break one |
| Inbox.AgentInbox.Recreate | pkg/bus/store.go:1065-1075 | An inbox removed with its agent and registered again is empty and counts from zero |
| Inbox.ClientSeesTheLog | pkg/bus/store.go:1555-1588 | As long as the inbox is not removed, over any run a client in step with it that follows its cursors is given the log in order, without repeats, and misses nothing but what was evicted before it asked |
| Inbox.ResetMisses | pkg/bus/store.go:1562-1581 | After the inbox was removed and made anew, besides evicted events the client misses exactly the retained positions below its first clamped cursor, so none if and only if that cursor was at most the base or the inbox was empty |
| Inbox.ReturningClientMisses | pkg/bus/store.go:1562-1581 | A concrete case: the first event of the new inbox is dropped by an older cursor without having been given or evicted |
| Inbox.SeesAllIff | pkg/bus/store.go:567-586 | The client is given the whole log up to its cursor, with nothing unread evicted, if and only if at every append the unread events, the new one included, were within both caps |
| Observe.Ring.Publish | pkg/bus/store.go:832-847 | Publishing appends the next id and leaves the ring the contiguous end of the log, with an exact byte count within the caps |
| Observe.Ring.Trim | pkg/bus/store.go:644-668 | Trimming evicts exactly the least prefix |
| Observe.Ring.Search | pkg/bus/store.go:2082-2084 | The binary search finds the first retained event past the id |
| Observe.Ring.ObserveSince | pkg/bus/store.go:2082-2093 | The result is the linear filter of all retained events, with the cursor of its last event |
| Observe.FilteredIs | pkg/bus/store.go:2051-2064 | The filter picks exactly the matching events past the cursor, in increasing id order |
| Observe.ShownIs | pkg/bus/store.go:2051-2064 | An observer is shown exactly the retained events past its cursor, in the conversation and with the agent that it asked for if it did, none of whose agents it may not see |
| Observe.ResumeSeesEachOnce | pkg/bus/store.go:2066-2113 | Resuming at the returned cursor over any run gives each matching event at most once, in order, and after each call every matching retained event has been given |
| Lifecycle.SweepIsNeverEarly | pkg/bus/store.go:930-1010 | The sweep ends a live request if and only if its TTL has passed, or its ack deadline when it waits with a delivery time, or its grace when it is queued and its target is not active |
| Lifecycle.CallProgresses | pkg/bus/store.go:1400-1419 | Every call keeps: a terminal time only on terminal messages, waiting and executing only on requests, queued live requests pending, pending requests undelivered; and moves states only forward |
| Lifecycle.LifecycleIsMonotone | pkg/bus/store.go:1642-1764 | Over any run of one process, from any store that satisfies these facts, the state rank never decreases, a terminal state and time never change, and pruned messages stay away |
| Records.StepKeepsRecords | pkg/bus/sqlite_delivery.go:197-740 | Every step of the protocol keeps these facts of every record in the tables and in memory |
| Records.RecordsAlwaysOk | pkg/bus/sqlite_delivery.go:197-740 | So they hold in every state of every run from tables that satisfy them |
| Records.StartedStoreIsOk | pkg/bus/sqlite.go:462-587 | A process that opens the database starts from a store that satisfies what the lifecycle and sweep theorems ask, whatever runs have gone before |
| Records.BackfilledRecords | pkg/bus/sqlite_delivery.go:92-140 | The backfill keeps these facts |
| Lifecycle.CallKeepsTimes | pkg/bus/store.go:930-1012 | A message is terminal without its time after a call if and only if it was so before, and becomes waiting or executing without a delivery time if and only if an offer without a time reaches it while it is a pending request |
| Lifecycle.UntimedSinceStart | pkg/bus/sqlite.go:431-432 | Over any run of one process a message is terminal without a time if and only if it was so at the start |
| Lifecycle.OldTerminalStaysUntimed | pkg/bus/store.go:1028-1033 | A concrete case: a terminal row of an older database keeps its missing time through a call that sweeps |
| Lifecycle.UndatedSince | pkg/bus/sqlite_delivery.go:445-455 | Over any run a message waiting or executing without a delivery time was so at the start, or an offer without a time made it so |
| Witnesses.ProgressUndatesAClaim | pkg/bus/sqlite_delivery.go:421-455 | A run from the empty database that reaches such a request: progress reported between a claim and its projection |
| Lifecycle.SweepIsTidy | pkg/bus/store.go:930-1012 | A sweep is a tidying step that the delivery protocol allows |
| Lifecycle.CallIsReport | pkg/bus/store.go:1642-1764 | What an ack or an event writes is a report that the delivery protocol allows |
| Lifecycle.OfferIsProjection | pkg/bus/sqlite_delivery.go:688-700 | An offer is the projection of a durable row |
| Lifecycle.CallUpToDate | pkg/bus/store.go:899-909 | After each call nothing is due before the last sweep, and that sweep is less than the interval ago |
| Lifecycle.SweepIsPunctual | pkg/bus/store.go:899-1012 | After any sweeping call of any run no agent, request TTL or ack deadline is overdue by the sweep interval or more |
| Lifecycle.MemoryStore.SweepAgents | pkg/bus/store.go:917-928 | The loop expires exactly the overdue active agents |
| Lifecycle.MemoryStore.SweepOne | pkg/bus/store.go:931-1009 | One message is timed out, delivered or given up in the order of the checks |
| Lifecycle.MemoryStore.SweepMessages | pkg/bus/store.go:930-1010 | The loop treats every message by its own state alone |
| Lifecycle.MemoryStore.Prune | pkg/bus/store.go:1022-1075 | The loops delete exactly the messages and agents past retention |
| Lifecycle.MemoryStore.Sweep | pkg/bus/store.go:899-1015 | A sweep inside the interval does nothing; any other is the full walk |
| Lifecycle.MemoryStore.RegisterAgent | pkg/bus/store.go:1111-1160 | Registration sweeps, then makes the agent active until its TTL |
| Lifecycle.MemoryStore.Send | pkg/bus/store.go:1319-1447 | A send sweeps, then stores the planned message under the next id, or stores nothing; a request waits and is delivered now if its target is active, and is pending and queued if it has lapsed |
| Lifecycle.MemoryStore.NoteOffer | pkg/bus/sqlite_delivery.go:446-455 | An offer takes a message off the queue, makes a pending request wait and keeps an earlier delivery time |
| Lifecycle.MemoryStore.AckMessage | pkg/bus/store.go:1616-1664 | An ack that proceeds by the owner of a live request leaves it executing, or rejected with this time; any other changes nothing but the sweep |
| Lifecycle.MemoryStore.Post | pkg/bus/store.go:1699-1770 | Progress takes up a waiting request within the rate limit; final completes and error ends a live one, with this time |
| Calls.SweepDoes | pkg/bus/store.go:899-1075 | Inside the interval a sweep changes nothing; any other expires overdue agents, forgets long expired ones, ends live requests past TTL or ack timeout, delivers queued ones to active agents or ends them with their grace, and removes exactly the messages past the maximal age or terminal for longer than retention |
| Calls.AckDoes | pkg/bus/store.go:1624-1664 | An ack that proceeds by the owner of a live request leaves it off the queue and delivered: executing without a terminal time if accepted, rejected and terminal now if not; any other ack does no more than the sweep, and every other message is as the sweep left it |
| Calls.EventDoes | pkg/bus/store.go:1721-1775 | A final event completes a live request of its owner now and an error event ends it in error now; progress takes up only a waiting one and is refused within the interval of the last; every other message is as the sweep left it |
| Calls.SendDoes | pkg/bus/store.go:1319-1447 | A send in memory stores the next message exactly when its target is known and not lapsed beyond grace, with the state that kind and target give it |
| Calls.OtherCallsDo | pkg/bus/store.go:1111-1160 | A registration makes its agent active until its TTL; an offer unqueues its message, makes a pending request wait and dates an undated one |
| Calls.RejectedForGood | pkg/bus/store.go:1640-1657 | A rejected request keeps that state, with the time of the rejecting call, over any later part of a run that holds it |
| Calls.AcceptedUntilEnded | pkg/bus/store.go:1640-1764 | An accepted request is executing over any later part of a run that holds it until its TTL, a final or error event of its owner, or a later rejection by its owner ends it; from then on it keeps that end and its time |
| Calls.UnansweredTimesOut | pkg/bus/store.go:930-978 | A request sent to an active agent waits from that moment, and if no ack or event names it, then after any full sweep later than the ack timeout it is in error as long as it is held |
| TimeText.SecondsOrdered | pkg/bus/sqlite.go:644-649 | Calendar order of whole seconds is time order, leap years included |
| TimeText.TextOrder | pkg/bus/sqlite.go:644-649 | Earlier times have smaller texts except exactly when the earlier is not the zero time, both lie in one second and its printed fraction is cut short inside the later one; then the order is inverted |
| TimeText.CutoffError | pkg/bus/sqlite.go:270-272 | A cutoff compared as text misjudges only times of the same whole second, less than one second off; texts are equal only for equal times |
| TimeText.LeapDayText | pkg/bus/sqlite.go:644-649 | A concrete time in the layout of the stored texts, with a fraction and without |
| TimeText.StampsAreTexts | pkg/bus/sqlite.go:644-649 | The order of times by which the statements of the model compare is the byte order of the printed texts |
| Stamps.DueMeans | pkg/bus/sqlite_delivery.go:310-322 | A deadline compared as text is due once its whole second has passed, never a whole second early, and exactly on time when the seconds differ |
| Stamps.SoonerTransitive | pkg/bus/sqlite_delivery.go:386-388 | The order of times as texts is transitive |
| Stamps.SoonerTotal | pkg/bus/sqlite_delivery.go:386-388 | Of two different times exactly one sorts before the other, so ORDER BY on times is well defined |
| Legacy.SelectDeliverable | pkg/bus/migrate.go:192-205 | The loop keeps the known messages whose request is not taken up or finished |
| Legacy.ImportInbox | pkg/bus/migrate.go:206-233 | Rows are inserted in order, and a message that already has a row fails the import |
| Legacy.Import | pkg/bus/migrate.go:190-268 | The import succeeds exactly when no message is deliverable twice, and then gives each agent exactly its wanted inbox, numbered contiguously from its base, with its cursors and receipts |
| Legacy.ImportEstablishes | pkg/bus/migrate.go:190-268 | The imported tables satisfy the protocol invariant |
| Backfill.FillNumbers | pkg/bus/sqlite_delivery.go:92-140 | The backfill numbers exactly the unexpired undelivered messages of each target contiguously in created order after next_seq, leaving the acknowledged cursor |
| Backfill.FillKeeps | pkg/bus/sqlite_delivery.go:92-140 | It keeps the table invariant |
| Backfill.EarliestIsNoted | pkg/bus/sqlite_delivery.go:142-182 | Every key in the window gets a receipt, of its earliest message unless it already had one |
| Backfill.NotesKeep | pkg/bus/sqlite_delivery.go:142-182 | Adding receipts keeps the table invariant |
| Backfill.Select | pkg/bus/sqlite_delivery.go:62-70 | The selected messages, each once, by created time and then id, both in the order of their texts |
| Backfill.MillionthSortsFirst | pkg/bus/sqlite_delivery.go:62-70 | A concrete case where that order of ids is not their numeric order |
| Backfill.BackfillEstablishes | pkg/bus/sqlite_delivery.go:35-195 | From tables of no running process that satisfy the protocol invariant, with nothing dated in the future, the backfilled tables satisfy it, so every run may start from them |
| Backfill.BackfillOnce | pkg/bus/sqlite_delivery.go:35-195 | A marked database is left alone; otherwise all undelivered and recent messages are filled and noted; the table invariant and the protocol invariant are kept |
| Refills.RefilledMessage | pkg/bus/sqlite_delivery.go:62-140 | After the backfill a message without a row has one if and only if it is addressed, not yet due, and a response, an inform, or a request that is pending or waiting; that row is pending, due at the earlier of TTL, or its default, and grace; existing rows and all other fields stay |
| Refills.RefilledInOrder | pkg/bus/sqlite_delivery.go:62-140 | The new rows of a target are numbered by created time and then id, both as texts |
| Refills.RefilledReceipt | pkg/bus/sqlite_delivery.go:142-182 | A key without a receipt gets one if and only if a message of the last window has it, for one window from the first such message; others stay |
| Refills.ImportedMessage | pkg/bus/migrate.go:190-233 | The import gives a message a row if and only if some legacy inbox holds it and it is known and no request taken up or finished: pending, for the agent of that inbox, due at its deadline |
| Manifest.PrefixedScope | internal/nsmigrate/manifest.go:372-397 | A prefixed id has exactly the scope of the authority |
| Manifest.EncodeInvertsParse | internal/nsmigrate/manifest.go:155-282 | A parsed row writes back to its own record |
| Manifest.SwapParses | internal/nsmigrate/manifest.go:220-330 | The reverse of a valid row is a valid row that parses to itself |
| Manifest.InverseParses | internal/nsmigrate/manifest.go:179-191 | The written inverse of any manifest parses, to the swapped rows with their lines |
| Manifest.InverseTwice | internal/nsmigrate/manifest.go:179-191 | Inverting twice gives the same rows, lines included |
| Manifest.OnlyReverseChains | internal/nsmigrate/manifest.go:284-330 | If a row's target is another row's source under one authority, that row is its reverse |
| ManifestTool.ParseManifest | internal/nsmigrate/manifest.go:82-149 | The parser returns the rows of a valid manifest or blames the first thing wrong, by code and line |
| ManifestTool.BlamedIsNoManifest | internal/nsmigrate/manifest.go:82-149 | Whatever the parser blames is no manifest, so it succeeds exactly on manifests |
| ManifestTool.UnpairedSplit | internal/nsmigrate/manifest.go:333-370 | The pair check passes exactly when every split identity has both halves, and otherwise names a line lacking one |
| ManifestTool.WriteManifest | internal/nsmigrate/manifest.go:155-176 | Writing keeps row order |
| ManifestTool.InvertManifest | internal/nsmigrate/manifest.go:179-191 | Inversion never fails on a manifest and returns exactly the swapped rows |
| Rename.CellsRenamed | internal/nsmigrate/migrate.go:380-445 | One substitution of the database is that substitution in every cell of all eight surfaces |
| Rename.SubInjective | internal/nsmigrate/migrate.go:380-416 | Cells at any two stages of a safe renaming are equal only if they were equal |
| Rename.StagesKeepKeys | internal/nsmigrate/migrate.go:393-416 | Every stage of the renaming keeps every primary key unique |
| Rename.NoClash | internal/nsmigrate/migrate.go:393-401 | No row updated by any statement of the plan meets another row with its new key |
| Plan.SelectionIsSound | internal/nsmigrate/migrate.go:150-161 | The rows of one authority rename injectively both ways, and chain only with their reverse |
| Plan.ActiveIsSafe | internal/nsmigrate/migrate.go:311-343 | Without an occupied target the active rows are an injective renaming of present identities to absent ones |
| Plan.RerunIsNoOp | internal/nsmigrate/migrate.go:45-121 | A second run is a no-op if and only if the manifest holds no reverse of a row the first run rewrote |
| Plan.ReverseRerunRewrites | internal/nsmigrate/migrate.go:45-121 | A concrete manifest and database where the second run rewrites back |
| Plan.UndoIs | internal/nsmigrate/migrate.go:295-378 | The inverse run after an accepted run meets no unknown identity and no occupied target; the two substitutions together are exactly the one that takes back the rows already applied at first and not reversed; and the inverse run is refused exactly when that one would mix private scopes |
| Plan.UndoRestores | internal/nsmigrate/migrate.go:45-121 | The inverse run is accepted and restores the whole database if and only if no row was already applied without its reverse in the manifest and no conversation mixed the private scopes to begin with |
| Plan.MixedUndoIsRefused | internal/nsmigrate/migrate.go:350-378 | A concrete manifest and database: an accepted run, nothing already applied, and the undo refused for mixed scopes |
| Plan.ForwardRunAndUndo | internal/nsmigrate/migrate.go:295-378 | For all-forward rows a re-run is always a no-op, and the inverse is accepted and restores everything if and only if no target was present at first |
| Plan.ManifestUndo | internal/nsmigrate/manifest.go:179-191 | The same for a parsed manifest and its parsed inverse |
| Inspector.Inspect | internal/nsmigrate/migrate.go:212-293 | The counts are the occurrences of every identity on every surface, and the present set exactly the identities that occur |
| Inspector.ChangedGrows | internal/nsmigrate/migrate.go:332-339 | Each active row adds to the cells changed exactly the occurrences of its source |
| Inspector.AddRewrites | internal/nsmigrate/migrate.go:334-338 | The report adds the occurrences of one source on each surface and to the total |
| Migrate.PlanParticipants | internal/nsmigrate/migrate.go:357-375 | One participant list is substituted in place, flagged when touched, and found mixed exactly when it would hold both private scopes |
| Migrate.PlanConversations | internal/nsmigrate/migrate.go:350-378 | Planning substitutes every list, or refuses exactly when some conversation would be mixed |
| Migrate.UpdateRows | internal/nsmigrate/migrate.go:398-405 | One statement succeeds exactly when no updated row meets a taken key, rewrites exactly the matching rows and counts them |
| Migrate.CountSurvives | internal/nsmigrate/migrate.go:406-414 | The number of matching rows is the same at every stage of the plan |
| Migrate.StatementAdvances | internal/nsmigrate/migrate.go:397-415 | At any stage, a statement fails on no key, affects the planned count, and takes its one column to the next stage |
| Migrate.ApplyMapping | internal/nsmigrate/migrate.go:393-416 | The seven statements of one mapping rename its source on every column |
| Migrate.ApplyConversations | internal/nsmigrate/migrate.go:417-443 | Each changed conversation is updated once, giving the substituted lists |
| Migrate.ApplyPlan | internal/nsmigrate/migrate.go:380-445 | Mapping by mapping and surface by surface the plan equals one simultaneous substitution, and never fails |
| Migrate.Migration.SelectMappings | internal/nsmigrate/migrate.go:150-161 | The selection is exactly the rows of the authority, in order, none flagged |
| Migrate.Migration.Preflight | internal/nsmigrate/migrate.go:295-348 | The preflight gives exactly the refusal it must: an unknown identity if and only if one in the database is no source or target of the selection, then the first occupied target, then mixed scopes; or it sets the flags, the plan, and a total equal to the cells that change |
| Migrate.Migration.Run | internal/nsmigrate/migrate.go:45-121 | A run ends as its database and manifest determine, never in a failed apply, and for an unknown identity exactly when the rows of the authority do not mention one that is there; it changes the database only when it applies, to the simultaneous substitution with keys unique; its total counts the changed cells |
| Rows.ScopeIs | internal/nsmigrate/manifest.go:372-397 | The scope of an id is the one of the three namespaces that it begins with, dot included |
| Rows.AcceptedMapping | internal/nsmigrate/manifest.go:284-330 | A mapping is accepted if and only if it adds or takes away the prefix of its authority on an unscoped id, outside the control plane and not called unchanged; or is called unchanged and leaves alone a scoped id, or a control-plane id without a dot |
| Rows.MappingFault | internal/nsmigrate/manifest.go:284-330 | A refused mapping is a foreign mutation exactly when it changes an id of the other private namespace outside the control plane, and a schema fault otherwise |
| Rows.AcceptedRecord | internal/nsmigrate/manifest.go:220-282 | A record of seven fields is accepted if and only if none is empty or padded, the ids have no control characters, authority, disposition and flag are known words and the mapping is accepted; and then as the row that it reads as |
| Rows.RecordFault | internal/nsmigrate/manifest.go:220-282 | Any other is blamed on its line, for its disposition, its mapping or as a schema fault, in that order of checks |
| Rows.ManifestIs | internal/nsmigrate/manifest.go:82-149 | A list of records is a manifest if and only if it is the seven column names and one or more acceptable records, no source or target twice under one authority, and both authorities for each split id |
| Rows.BlameIs | internal/nsmigrate/manifest.go:193-218 | Too many columns are outside the surface, any other header is a schema fault, and the first bad record is blamed for its fields, else for repeating a source, else a target |
| Preflights.InDbIs | internal/nsmigrate/migrate.go:212-293 | The identities the inspection finds are exactly those in the seven identity columns and the participant lists |
| Preflights.UnknownWhen | internal/nsmigrate/migrate.go:295-310 | A run is refused for an unknown identity if and only if its selection is not empty and some identity of the database is neither source nor target of any row of the authority, whatever its disposition or flag |
| Preflights.OccupiedWhen | internal/nsmigrate/migrate.go:311-343 | Past that, for an occupied target if and only if some renaming row has both ids in the database; and an unrefused run has nothing to do if and only if no renaming row has its source there |
| Preflights.MixedWhen | internal/nsmigrate/migrate.go:350-378 | Past that, for mixed scopes if and only if some conversation, touched or not, would have a participant of each private namespace |
| Preflights.AppliedIs | internal/nsmigrate/migrate.go:380-445 | An applied run turns every identity in every table and participant list into the target of the row that has it as its source, if there is one, and changes no other field |
| Preflights.KeysAre | internal/nsmigrate/migrate.go:393-416 | The keys a run keeps unique: message and conversation ids, and in every other table all identities with the rest of the key |
| Preflights.ControlPlaneIsKnown | internal/nsmigrate/migrate.go:295-310 | A concrete run with a control-plane identity that is left alone: it is known, and the run is applied |
| Reports.ReportIs | internal/nsmigrate/migrate.go:332-343 | The report counts per surface and in total the cells in which the database left differs from the one found, and the rows whose target alone was present |

## Left out

- Conversations, conversation links and their positions in the delivery protocol; the migration has their participant lists.
- CreateConversation: it snapshots counters outside the write lock, so id freshness is about runs without it.
- Text of ids, but for their order in the backfill, and of errors and log lines; message bodies are opaque with a size.
- Authorization, scopes and secrets on the bus: a call that they stop is one that does not proceed.
- HTTP, the client, metrics, allowlists, long-poll waiting and wall-clock timers.
- Database write failures other than an aborted acceptance, so the lease results assume that receipt writes succeed.
- Changing the configuration between processes: windows and limits are fixed for a run.
- The store lock is modelled by atomic steps: a durable poll writes its tables and its in-memory projection in one step, a push claim in two. `Lifecycle` lets every projection arrive later.
- Printed times are those of the UTC years 1 to 9999.
- Sweep-made terminal states are not durable, so the monotonicity of states is about one process.
- The registration of agents in the database: which agents a push claim may address is a parameter of the claim.
- A sweep's deletions from the duplicate index are part of the protocol's tidy step, not of `Lifecycle`.
- A restart of the process begins a new observe log and new in-memory inboxes, so `Observe` and `Inbox` are about one process.
- Observer events published by the sweep and by calls: the ring is modelled by itself, as is the memory-only inbox.
- Rows whose message has neither TTL nor grace, which only older versions could leave; import and backfill give them a deadline.
- Lifecycle.SweepIsPunctual: assumes that an offer reaches memory within the ack timeout of the time it wrote, because that time is read before the store lock is taken again.
- CSV and JSON text: a manifest is a list of records and participants a list of strings, so their syntax errors and the refusal of malformed participants are not modelled.
- The checks of a migration run that precede its transaction: copy acknowledgment, database path, busy database and agreement with the configured control-plane agents.
- Per-disposition counters of the migration report.
