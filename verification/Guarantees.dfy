/** Duplicate suppression, identity, cursor, lease and recovery guarantees over whole runs. */
module Guarantees {
  import opened Model
  import opened Durable
  import opened Texts
  import opened Stamps
  import opened Batch
  import opened Paging
  import opened Protocol
  import opened Safety
  import opened Invariant
  import opened Runs

  // ---- duplicate suppression ----

  predicate HasReceipt(s: State, k: Key, id: nat, at: int) {
    k in s.db.receipts && s.db.receipts[k].id == id && s.db.receipts[k].acceptedAt == at
  }

  /** Only pruning removes a receipt, and never while a second of its window is left. */
  lemma StepKeepsReceipt(cfg: Config, s: State, l: Label, now: int, k: Key, id: nat, at: int)
    requires Inv(cfg, s) && Enabled(cfg, s, l, now) && HasReceipt(s, k, id, at) && Secure(cfg, at, now)
    ensures HasReceipt(Apply(cfg, s, l, now), k, id, at)
  {
    hide LeaseOk, ShutdownOk, ReceiptsAgree, ProjectionOk, RowOk, SlotsUnique, NextTables, NextProcess, Ready;
    if l.Commit? { CommitKeepsReceipt(cfg, s, l, now, k, id, at); }
    else if l.Prune? || l.Restart? { PruneKeepsReceipt(cfg, s, l, now, k, id, at); }
    else { TableUntouched(cfg, s, l, now); }
  }

  lemma CommitKeepsReceipt(cfg: Config, s: State, l: Label, now: int, k: Key, id: nat, at: int)
    requires Enabled(cfg, s, l, now) && HasReceipt(s, k, id, at) && l.Commit?
    ensures HasReceipt(Apply(cfg, s, l, now), k, id, at)
  {
    hide Plan, NewDelivery, NextProcess, SlotTaken;
  }

  lemma PruneKeepsReceipt(cfg: Config, s: State, l: Label, now: int, k: Key, id: nat, at: int)
    requires Enabled(cfg, s, l, now) && HasReceipt(s, k, id, at) && Secure(cfg, at, now) && (l.Prune? || l.Restart?)
    requires s.db.receipts[k].expiresAt == at + cfg.window
    ensures HasReceipt(Apply(cfg, s, l, now), k, id, at)
  {
    hide NextProcess, Sooner, PastRetention, ExpireDue, Recover;
    SoonerMeans(at + cfg.window, now);
  }

  lemma {:induction false} ClockMonotone(cfg: Config, r: Run, i: nat, j: nat)
    requires IsRun(cfg, r) && i <= j < |r.states|
    ensures r.states[i].clock <= r.states[j].clock
    decreases j
  {
    if i < j {
      ClockMonotone(cfg, r, i, j - 1);
      assert StepAt(cfg, r, j - 1);
    }
  }

  lemma {:induction false} ReceiptKept(cfg: Config, r: Run, i: nat, j: nat, k: Key, id: nat, at: int)
    requires IsRun(cfg, r) && i <= j < |r.states|
    requires HasReceipt(r.states[i], k, id, at) && Secure(cfg, at, r.states[j].clock)
    ensures HasReceipt(r.states[j], k, id, at)
    decreases j
  {
    hide Inv, Apply, HasReceipt, Enabled;
    if i < j {
      ClockMonotone(cfg, r, j - 1, j);
      ReceiptKept(cfg, r, i, j - 1, k, id, at);
      Always(cfg, r, j - 1);
      assert StepAt(cfg, r, j - 1);
      StepKeepsReceipt(cfg, r.states[j - 1], r.labels[j - 1], r.states[j].clock, k, id, at);
    }
  }

  lemma AcceptedHasReceipt(cfg: Config, r: Run, i: nat, a: Acceptance)
    requires IsRun(cfg, r) && i < |r.labels| && AcceptsAt(cfg, r, i, a) && a.key.Some?
    ensures HasReceipt(r.states[i + 1], a.key.value, a.id, r.states[i + 1].clock)
  {
  }

  lemma AcceptedKeyIsFree(cfg: Config, r: Run, j: nat, b: Acceptance)
    requires IsRun(cfg, r) && j < |r.labels| && AcceptsAt(cfg, r, j, b) && b.key.Some?
    ensures b.key.value !in r.states[j].db.receipts
  {
  }

  /** Within the window, less one second, at most one message is accepted per key, across crashes,
      restarts and the pruning of the message itself. */
  lemma OncePerWindow(cfg: Config, r: Run, i: nat, j: nat, a: Acceptance, b: Acceptance)
    requires IsRun(cfg, r) && i < j < |r.labels| && AcceptsAt(cfg, r, i, a) && AcceptsAt(cfg, r, j, b)
    requires a.key.Some? && a.key == b.key
    ensures r.states[j + 1].clock - r.states[i + 1].clock > cfg.window - BILLION
  {
    AcceptedHasReceipt(cfg, r, i, a);
    AcceptedKeyIsFree(cfg, r, j, b);
    ClockMonotone(cfg, r, j, j + 1);
    if Secure(cfg, r.states[i + 1].clock, r.states[j + 1].clock) {
      ReceiptKept(cfg, r, i + 1, j, a.key.value, a.id, r.states[i + 1].clock);
    }
  }

  predicate EndsProcess(l: Label) {
    l.FinishClose? || l.Crash? || l.Restart?
  }

  /** The duplicate index, or the acceptance being published, answers for this key. */
  predicate HasEntry(s: State, k: Key, id: nat, at: int) {
    s.process.Some?
    && var p := s.process.value;
       if p.held.Some? && p.held.value.key == Some(k) then p.held.value.id == id && p.held.value.message.createdAt == at
       else k in p.entries && p.entries[k] == Entry(id, at)
  }

  lemma StepKeepsEntry(cfg: Config, s: State, l: Label, now: int, k: Key, id: nat, at: int)
    requires Enabled(cfg, s, l, now) && HasEntry(s, k, id, at) && InWindow(cfg, at, now) && !EndsProcess(l)
    ensures HasEntry(Apply(cfg, s, l, now), k, id, at)
  {
    hide NextTables;
    if !l.Commit? && !l.Publish? && !l.Tidy? {
      IndexUntouched(cfg, s, l, now);
    } else if l.Publish? {
      hide Published;
      PublishedFields(cfg, s.process.value, s.process.value.held.value);
    } else {
      EntryKept(cfg, s, l, now, k, id, at);
    }
  }

  lemma EntryKept(cfg: Config, s: State, l: Label, now: int, k: Key, id: nat, at: int)
    requires Enabled(cfg, s, l, now) && HasEntry(s, k, id, at) && InWindow(cfg, at, now) && (l.Commit? || l.Tidy?)
    ensures HasEntry(Apply(cfg, s, l, now), k, id, at)
  {
    hide NextTables, Plan, Conflicts;
  }

  lemma {:induction false} EntryKeptOver(cfg: Config, r: Run, i: nat, j: nat, k: Key, id: nat, at: int)
    requires IsRun(cfg, r) && i <= j < |r.states| && HasEntry(r.states[i], k, id, at)
    requires InWindow(cfg, at, r.states[j].clock) && forall m :: i <= m < j ==> !EndsProcess(r.labels[m])
    ensures HasEntry(r.states[j], k, id, at)
    decreases j
  {
    hide Inv, Apply, HasEntry;
    if i < j {
      ClockMonotone(cfg, r, j - 1, j);
      EntryKeptOver(cfg, r, i, j - 1, k, id, at);
      assert StepAt(cfg, r, j - 1);
      StepKeepsEntry(cfg, r.states[j - 1], r.labels[j - 1], r.states[j].clock, k, id, at);
    }
  }

  lemma AcceptedHasEntry(cfg: Config, r: Run, i: nat, a: Acceptance)
    requires IsRun(cfg, r) && i < |r.labels| && AcceptsAt(cfg, r, i, a) && a.key.Some?
    ensures HasEntry(r.states[i + 1], a.key.value, a.id, r.states[i + 1].clock)
  {
    hide NextTables, Conflicts;
  }

  lemma AcceptedIsForgotten(cfg: Config, r: Run, j: nat, b: Acceptance, id: nat, at: int)
    requires IsRun(cfg, r) && j < |r.labels| && AcceptsAt(cfg, r, j, b) && b.key.Some?
    requires InWindow(cfg, at, r.states[j + 1].clock)
    ensures !HasEntry(r.states[j], b.key.value, id, at)
  {
    hide NextTables, Conflicts;
  }

  /** While one process lives the window is exact: two acceptances of one key lie more than the
      whole window apart. */
  lemma OncePerWindowInProcess(cfg: Config, r: Run, i: nat, j: nat, a: Acceptance, b: Acceptance)
    requires IsRun(cfg, r) && i < j < |r.labels| && AcceptsAt(cfg, r, i, a) && AcceptsAt(cfg, r, j, b)
    requires a.key.Some? && a.key == b.key && forall m :: i < m < j ==> !EndsProcess(r.labels[m])
    ensures r.states[j + 1].clock - r.states[i + 1].clock > cfg.window
  {
    hide Inv, HasEntry;
    ClockMonotone(cfg, r, j, j + 1);
    if InWindow(cfg, r.states[i + 1].clock, r.states[j + 1].clock) {
      AcceptedHasEntry(cfg, r, i, a);
      EntryKeptOver(cfg, r, i + 1, j, a.key.value, a.id, r.states[i + 1].clock);
      AcceptedIsForgotten(cfg, r, j, b, a.id, r.states[i + 1].clock);
    }
  }

  /** A retry with a second of the window left that passes the target check returns the original id. */
  lemma RetryReturnsOriginal(cfg: Config, r: Run, i: nat, j: nat, a: Acceptance)
    requires IsRun(cfg, r) && i < j < |r.labels| && AcceptsAt(cfg, r, i, a) && a.key.Some?
    requires var l := r.labels[j];
             l.Commit? && SendKey(l.send) == a.key && !l.send.target.Unregistered?
    requires Secure(cfg, r.states[i + 1].clock, r.states[j + 1].clock)
    ensures StepAt(cfg, r, j)
    ensures Decide(cfg, r.states[j].db, r.states[j].process.value, r.labels[j].send, r.labels[j].dbFails,
                   r.states[j + 1].clock)
         == Duplicate(a.id)
  {
    AcceptedHasReceipt(cfg, r, i, a);
    ClockMonotone(cfg, r, j, j + 1);
    ReceiptKept(cfg, r, i + 1, j, a.key.value, a.id, r.states[i + 1].clock);
    Always(cfg, r, j);
    assert StepAt(cfg, r, j);
  }

  // ---- identity ----

  lemma {:induction false} CounterMonotone(cfg: Config, r: Run, i: nat, j: nat)
    requires IsRun(cfg, r) && i <= j < |r.states|
    ensures r.states[i].db.nextMessage <= r.states[j].db.nextMessage
    decreases j
  {
    if i < j {
      hide Inv, NextTables, Commits;
      CounterMonotone(cfg, r, i, j - 1);
      Always(cfg, r, j - 1);
      assert StepAt(cfg, r, j - 1);
      CounterStep(cfg, r.states[j - 1], r.labels[j - 1], r.states[j].clock);
    }
  }

  lemma AcceptedId(cfg: Config, r: Run, i: nat, a: Acceptance)
    requires IsRun(cfg, r) && i < |r.labels| && AcceptsAt(cfg, r, i, a)
    ensures a.id == r.states[i + 1].db.nextMessage == r.states[i].db.nextMessage + 1
  {
    Always(cfg, r, i);
    CounterStep(cfg, r.states[i], r.labels[i], r.states[i + 1].clock);
  }

  /** No message id is ever accepted twice, and ids grow in acceptance order. */
  lemma FreshIds(cfg: Config, r: Run, i: nat, j: nat, a: Acceptance, b: Acceptance)
    requires IsRun(cfg, r) && i < j < |r.labels| && AcceptsAt(cfg, r, i, a) && AcceptsAt(cfg, r, j, b)
    ensures a.id < b.id
  {
    AcceptedId(cfg, r, i, a);
    CounterMonotone(cfg, r, i + 1, j);
    AcceptedId(cfg, r, j, b);
  }

  // ---- content and recovery ----

  /** The message row is there, with the envelope of the accepted message. */
  predicate HasMessage(s: State, id: nat, m: Message) {
    id in s.db.messages && SameEnvelope(s.db.messages[id], m)
  }

  /** A prune, also the one at startup, finds the message past retention and without a delivery
      that is live and not yet due. */
  predicate Retires(cfg: Config, s: State, l: Label, now: int, id: nat) {
    && (l.Prune? || l.Restart?)
    && id in s.db.messages && PastRetention(cfg, s.db.messages[id], now)
    && !(LiveIn(s, id) && !Due(s.db.deliveries[id].expiresAt, now))
  }

  lemma MessageByReport(cfg: Config, s: State, l: Label, now: int, id: nat, m: Message)
    requires Enabled(cfg, s, l, now) && HasMessage(s, id, m) && l.Report?
    requires s.process.Some? && ProjectionOk(s.db, s.process.value)
    ensures HasMessage(Apply(cfg, s, l, now), id, m)
  {
    hide ReceiveRow;
  }

  lemma MessageByOffer(cfg: Config, s: State, l: Label, now: int, id: nat, m: Message)
    requires Enabled(cfg, s, l, now) && HasMessage(s, id, m) && (l.PollInbox? || l.Claim?)
    ensures HasMessage(Apply(cfg, s, l, now), id, m)
  {
    hide Chosen, FirstBatch, ExpireDue, ClaimRows, AckPrefix;
  }

  lemma PruneRetires(cfg: Config, db: Tables, now: int, id: nat)
    requires id in db.messages
    ensures id in Pruned(cfg, db, now).messages <==>
              !PastRetention(cfg, db.messages[id], now)
              || (id in db.deliveries && Live(db.deliveries[id]) && !Due(db.deliveries[id].expiresAt, now))
    ensures id in Pruned(cfg, db, now).messages ==> Pruned(cfg, db, now).messages[id] == db.messages[id]
  {
    hide PastRetention;
  }

  lemma MessageByPrune(cfg: Config, s: State, l: Label, now: int, id: nat, m: Message)
    requires Enabled(cfg, s, l, now) && HasMessage(s, id, m) && (l.Prune? || l.Restart?)
    ensures HasMessage(Apply(cfg, s, l, now), id, m) <==> !Retires(cfg, s, l, now, id)
    ensures id in Apply(cfg, s, l, now).db.messages ==> HasMessage(Apply(cfg, s, l, now), id, m)
  {
    hide PastRetention, Pruned;
    var d := if l.Prune? then s.db.deliveries else Recover(s.db.deliveries);
    PruneRetires(cfg, s.db.(deliveries := d), now, id);
    assert s.db.(deliveries := s.db.deliveries) == s.db;
  }

  lemma MessageByOther(cfg: Config, s: State, l: Label, now: int, id: nat, m: Message)
    requires Enabled(cfg, s, l, now) && HasMessage(s, id, m) && id <= s.db.nextMessage
    requires l.Commit? ==> s.process.value.nextMessage == s.db.nextMessage
    requires !l.Report? && !l.PollInbox? && !l.Claim? && !l.Prune? && !l.Restart?
    ensures HasMessage(Apply(cfg, s, l, now), id, m)
  {
    hide Plan, SameEnvelope;
  }

  lemma MessageIsKnown(cfg: Config, s: State, id: nat)
    requires Inv(cfg, s) && id in s.db.messages
    ensures id <= s.db.nextMessage
    ensures s.process.Some? ==> ProjectionOk(s.db, s.process.value)
  {
  }

  /** A message row stays with its envelope in every step, except exactly when it retires. */
  lemma StepKeepsMessage(cfg: Config, s: State, l: Label, now: int, id: nat, m: Message)
    requires Inv(cfg, s) && Enabled(cfg, s, l, now) && HasMessage(s, id, m)
    ensures HasMessage(Apply(cfg, s, l, now), id, m) <==> !Retires(cfg, s, l, now, id)
    ensures id in Apply(cfg, s, l, now).db.messages ==> HasMessage(Apply(cfg, s, l, now), id, m)
  {
    hide Inv, Apply, ProjectionOk;
    MessageIsKnown(cfg, s, id);
    if l.Commit? { CommitCounter(cfg, s, l, now); }
    if l.Report? { MessageByReport(cfg, s, l, now, id, m); }
    else if l.PollInbox? || l.Claim? { MessageByOffer(cfg, s, l, now, id, m); }
    else if l.Prune? || l.Restart? { MessageByPrune(cfg, s, l, now, id, m); }
    else { MessageByOther(cfg, s, l, now, id, m); }
  }

  /** Step k retires the message. */
  ghost predicate RetiresAt(cfg: Config, r: Run, k: nat, id: nat)
    requires IsRun(cfg, r)
  {
    k < |r.labels| && Retires(cfg, r.states[k], r.labels[k], r.states[k + 1].clock, id)
  }

  /** Over any run a message row is there with its envelope until a prune retires it. */
  lemma {:induction false} MessageKept(cfg: Config, r: Run, i: nat, j: nat, id: nat, m: Message)
    requires IsRun(cfg, r) && i <= j < |r.states| && HasMessage(r.states[i], id, m)
    ensures HasMessage(r.states[j], id, m) || exists k :: i <= k < j && RetiresAt(cfg, r, k, id)
    decreases j
  {
    hide Inv, HasMessage, Retires;
    if i < j {
      MessageKept(cfg, r, i, j - 1, id, m);
      if HasMessage(r.states[j - 1], id, m) {
        Always(cfg, r, j - 1);
        assert StepAt(cfg, r, j - 1);
        StepKeepsMessage(cfg, r.states[j - 1], r.labels[j - 1], r.states[j].clock, id, m);
        assert RetiresAt(cfg, r, j - 1, id) || HasMessage(r.states[j], id, m);
      }
    }
  }

  /** Every accepted message, addressed or not, delivered or not, is there in every later state
      until a prune in between retires it. */
  lemma AcceptedIsKept(cfg: Config, r: Run, i: nat, j: nat, a: Acceptance)
    requires IsRun(cfg, r) && i < j < |r.states| && AcceptsAt(cfg, r, i, a)
    ensures HasMessage(r.states[j], a.id, a.message) || exists k :: i < k < j && RetiresAt(cfg, r, k, a.id)
  {
    hide Inv;
    AcceptedContent(cfg, r, i, a);
    MessageKept(cfg, r, i + 1, j, a.id, a.message);
  }

  lemma LiveBefore(cfg: Config, r: Run, i: nat, j: nat, a: Acceptance)
    requires IsRun(cfg, r) && i + 1 < j < |r.states| && AcceptsAt(cfg, r, i, a) && LiveIn(r.states[j], a.id)
    ensures LiveIn(r.states[j - 1], a.id)
  {
    AcceptedId(cfg, r, i, a);
    CounterMonotone(cfg, r, i + 1, j - 1);
    if !LiveIn(r.states[j - 1], a.id) { Final(cfg, r, j - 1, j, a.id); }
  }

  /** While a delivery is live its message row is there, with the accepted content. */
  lemma {:induction false} ContentKept(cfg: Config, r: Run, i: nat, j: nat, a: Acceptance)
    requires IsRun(cfg, r) && i < j < |r.states| && AcceptsAt(cfg, r, i, a)
    requires LiveIn(r.states[j], a.id)
    ensures HasMessage(r.states[j], a.id, a.message)
    decreases j
  {
    hide Inv, LiveIn;
    if i + 1 < j {
      LiveBefore(cfg, r, i, j, a);
      ContentKept(cfg, r, i, j - 1, a);
      Always(cfg, r, j - 1);
      Always(cfg, r, j);
      LiveIsKnown(cfg, r.states[j], a.id);
      assert StepAt(cfg, r, j - 1);
      StepKeepsMessage(cfg, r.states[j - 1], r.labels[j - 1], r.states[j].clock, a.id, a.message);
    } else {
      AcceptedContent(cfg, r, i, a);
    }
  }

  lemma AcceptedContent(cfg: Config, r: Run, i: nat, a: Acceptance)
    requires IsRun(cfg, r) && i < |r.labels| && AcceptsAt(cfg, r, i, a)
    ensures a.id in r.states[i + 1].db.messages && r.states[i + 1].db.messages[a.id] == a.message
  {
  }

  /** A restart after a committed acceptance, with a crash anywhere in between: the counter has
      moved past the id; the message is loaded with its content, addressed or not and delivered
      or not, unless a prune since, at the latest the one of this restart, has retired it; and
      with a second of the window left its receipt is in the duplicate index. */
  lemma RestartRecovers(cfg: Config, r: Run, i: nat, j: nat, a: Acceptance)
    requires IsRun(cfg, r) && i < j < |r.labels| && AcceptsAt(cfg, r, i, a) && r.labels[j].Restart?
    ensures r.states[j + 1].process.Some?
    ensures a.id <= r.states[j + 1].process.value.nextMessage
    ensures || Loads(r.states[j + 1].process.value, a.id, a.message)
            || exists k :: i < k <= j && RetiresAt(cfg, r, k, a.id)
    ensures LiveIn(r.states[j + 1], a.id) ==> Loads(r.states[j + 1].process.value, a.id, a.message)
    ensures a.key.Some? && Secure(cfg, r.states[i + 1].clock, r.states[j + 1].clock) ==>
              Indexes(r.states[j + 1].process.value, a.key.value, Entry(a.id, r.states[i + 1].clock))
  {
    hide Inv, ReceiptsAgree, Pruned, Plan, Retires, LiveIn;
    assert StepAt(cfg, r, j);
    AcceptedId(cfg, r, i, a);
    CounterMonotone(cfg, r, i + 1, j + 1);
    AcceptedIsKept(cfg, r, i, j + 1, a);
    if LiveIn(r.states[j + 1], a.id) { ContentKept(cfg, r, i, j + 1, a); }
    if a.key.Some? && Secure(cfg, r.states[i + 1].clock, r.states[j + 1].clock) {
      AcceptedHasReceipt(cfg, r, i, a);
      ReceiptKept(cfg, r, i + 1, j + 1, a.key.value, a.id, r.states[i + 1].clock);
      AgreeAlways(cfg, r, j + 1);
      IndexedAfterLoad(cfg, r.states[j + 1], a.key.value, a.id, r.states[i + 1].clock);
    }
  }

  lemma IndexedAfterLoad(cfg: Config, s: State, k: Key, id: nat, at: int)
    requires s.process.Some? && s.process.value.held.None? && ReceiptsAgree(cfg, s.db, s.process.value, s.clock)
    requires HasReceipt(s, k, id, at) && Secure(cfg, at, s.clock)
    ensures Indexes(s.process.value, k, Entry(id, at))
  {
  }

  predicate Loads(p: Memory, id: nat, m: Message) {
    id in p.messages && SameEnvelope(p.messages[id], m)
  }

  predicate Indexes(p: Memory, k: Key, e: Entry) {
    k in p.entries && p.entries[k] == e
  }

  /** In every state with a process, the duplicate index and its table agree on every key with a
      second of its window left, but for an acceptance that is committed and not yet published. */
  lemma AgreeAlways(cfg: Config, r: Run, i: nat)
    requires IsRun(cfg, r) && i < |r.states| && r.states[i].process.Some?
    ensures ReceiptsAgree(cfg, r.states[i].db, r.states[i].process.value, r.states[i].clock)
  {
    Always(cfg, r, i);
  }

  // ---- cursors ----

  predicate CursorAtLeast(a: Cursor, b: Cursor) {
    a.acked <= b.acked && a.next <= b.next
  }

  lemma PollMovesCursor(cfg: Config, db: Tables, agent: string, requested: int, limit: int, now: int, other: string)
    requires CursorOf(db, agent).acked <= CursorOf(db, agent).next
    ensures CursorAtLeast(CursorOf(db, other), CursorOf(PollOnce(cfg, db, agent, requested, limit, now).db, other))
  {
  }

  lemma CursorUntouched(cfg: Config, s: State, l: Label, now: int)
    requires Enabled(cfg, s, l, now) && !l.Commit? && !l.PollInbox?
    ensures NextTables(cfg, s, l, now).cursors == s.db.cursors
  {
  }

  lemma StepCursor(cfg: Config, s: State, l: Label, now: int, agent: string)
    requires Inv(cfg, s) && Enabled(cfg, s, l, now)
    ensures CursorAtLeast(CursorOf(s.db, agent), CursorOf(Apply(cfg, s, l, now).db, agent))
  {
    hide LeaseOk, ShutdownOk, ReceiptsAgree, PollOnce, RowOk, SlotsUnique, NextProcess, NextTables, Ready;
    if l.PollInbox? {
      PollMovesCursor(cfg, s.db, l.agent, l.requested, l.limit, now, agent);
      PolledCursors(cfg, s, l, now);
    } else if l.Commit? {
      CommitMovesCursor(cfg, s, l, now, agent);
    } else {
      CursorUntouched(cfg, s, l, now);
    }
  }

  lemma PolledCursors(cfg: Config, s: State, l: Label, now: int)
    requires Enabled(cfg, s, l, now) && l.PollInbox?
    ensures NextTables(cfg, s, l, now) == PollOnce(cfg, s.db, l.agent, l.requested, l.limit, now).db
  {
    hide PollOnce;
  }

  lemma CommitMovesCursor(cfg: Config, s: State, l: Label, now: int, agent: string)
    requires Enabled(cfg, s, l, now) && l.Commit?
    ensures CursorAtLeast(CursorOf(s.db, agent), CursorOf(NextTables(cfg, s, l, now), agent))
  {
    hide Plan, Conflicts;
  }

  /** Neither counter of a target ever goes back. */
  lemma {:induction false} CursorMonotone(cfg: Config, r: Run, i: nat, j: nat, agent: string)
    requires IsRun(cfg, r) && i <= j < |r.states|
    ensures CursorAtLeast(CursorOf(r.states[i].db, agent), CursorOf(r.states[j].db, agent))
    decreases j
  {
    if i < j {
      CursorMonotone(cfg, r, i, j - 1, agent);
      Always(cfg, r, j - 1);
      assert StepAt(cfg, r, j - 1);
      StepCursor(cfg, r.states[j - 1], r.labels[j - 1], r.states[j].clock, agent);
    }
  }

  /** An acknowledged prefix is never offered again: once a cursor is committed, every later
      poll by that agent, after any crashes and restarts, offers only slots at or past it. */
  lemma AcknowledgedStaysAcknowledged(cfg: Config, r: Run, i: nat, j: nat, id: nat)
    requires IsRun(cfg, r) && i <= j < |r.labels| && r.labels[j].PollInbox?
    requires var l := r.labels[j];
             id in PollOnce(cfg, r.states[j].db, l.agent, l.requested, l.limit, r.states[j + 1].clock).batch
    ensures id in r.states[j].db.deliveries
    ensures r.states[j].db.deliveries[id].slot >= CursorOf(r.states[i].db, r.labels[j].agent).acked
  {
    var l, db, now := r.labels[j], r.states[j].db, r.states[j + 1].clock;
    Always(cfg, r, j);
    CursorMonotone(cfg, r, i, j, l.agent);
    var c := Clamp(CursorOf(db, l.agent), l.requested);
    PollOffersPrefix(cfg, db, l.agent, l.requested, l.limit, now);
    OrderedExactly(db.deliveries, l.agent, c, CursorOf(db, l.agent).next, now);
    assert id in Outstanding(db, l.agent, c, now);
    assert InRange(db.deliveries, l.agent, c, CursorOf(db, l.agent).next, now, id);
  }

  // ---- push lease and shutdown ----

  /** In every state with a process: no message has two push jobs, no job's row is pending,
      and until shutdown begins a row is attempting only while it has exactly one job; the
      wait group is the number of queued, running and detached jobs; and a closed queue is
      empty with no job left that could be sent to it. */
  lemma LeaseAlways(cfg: Config, r: Run, i: nat, id: nat)
    requires IsRun(cfg, r) && i < |r.states| && r.states[i].process.Some?
    ensures var p := r.states[i].process.value;
            var d := r.states[i].db.deliveries;
            && Jobs(p)[id] <= 1
            && (id in Jobs(p) && id in d ==> !d[id].status.Pending?)
            && (!p.closed && id in d && d[id].status.Attempting? ==> Jobs(p)[id] == 1)
            && p.wg == |p.queue| + |p.running| + |p.detached|
            && (p.queueClosed ==> p.queue == [] && p.running == multiset{} && p.detached == multiset{}
                                  && p.claimed == multiset{} && !QueueOpen(cfg, p))
  {
    Always(cfg, r, i);
  }

  predicate AttemptingIn(s: State, id: nat) {
    id in s.db.deliveries && s.db.deliveries[id].status.Attempting?
  }

  /** The recovery at shutdown and every restart leave no row attempting. */
  lemma NoLeaseAcrossProcesses(cfg: Config, r: Run, i: nat, id: nat)
    requires IsRun(cfg, r) && i < |r.labels| && (r.labels[i].RecoverLeases? || r.labels[i].Restart?)
    ensures !AttemptingIn(r.states[i + 1], id)
  {
    assert StepAt(cfg, r, i);
    if r.labels[i].Restart? && id in r.states[i + 1].db.deliveries {
      NoneAttempting(cfg, r.states[i].db, r.states[i + 1].clock, id);
    }
  }

  // ---- between the recovery and the end of a shutdown ----

  /** The step accepts this message with a push. */
  ghost predicate AcceptsPush(cfg: Config, s: State, l: Label, now: int, id: nat)
    requires Enabled(cfg, s, l, now)
  {
    && l.Commit?
    && var o := Decide(cfg, s.db, s.process.value, l.send, l.dbFails, now);
       o.Committed? && o.a.id == id && o.a.push && o.a.message.to != ""
  }

  predicate Recovered(s: State) {
    s.process.Some? && s.process.value.recovered
  }

  /** Once leases are recovered only sends, polls and reports are left, so the attempting rows
      are the live ones that a send accepted since. */
  lemma LateStep(cfg: Config, s: State, l: Label, now: int, id: nat)
    requires Inv(cfg, s) && Enabled(cfg, s, l, now) && Recovered(s) && !EndsProcess(l)
    ensures Recovered(Apply(cfg, s, l, now))
    ensures AttemptingIn(Apply(cfg, s, l, now), id) <==>
              LiveIn(Apply(cfg, s, l, now), id) && (AttemptingIn(s, id) || AcceptsPush(cfg, s, l, now, id))
  {
    LateLabel(s.process.value);
    FreshDelivery(cfg, s);
    if l.Commit? { LateCommit(cfg, s, l, now, id); }
    else if l.PollInbox? { LatePoll(cfg, s, l, now, id); }
    else if l.Report? { LateReport(cfg, s, l, now, id); }
  }

  lemma LateLabel(p: Memory)
    requires ShutdownOk(p) && p.recovered
    ensures p.closed && p.stopped && p.queueClosed
    ensures p.claimed == multiset{} && p.queue == [] && p.running == multiset{} && p.detached == multiset{}
  {
  }

  lemma FreshDelivery(cfg: Config, s: State)
    requires Inv(cfg, s)
    ensures forall i :: i in s.db.deliveries ==> i <= s.db.nextMessage
    ensures s.process.Some? && s.process.value.held.None? ==> s.process.value.nextMessage == s.db.nextMessage
  {
    forall i | i in s.db.deliveries ensures i <= s.db.nextMessage { assert RowOk(s.db, i); }
  }

  lemma LateCommit(cfg: Config, s: State, l: Label, now: int, id: nat)
    requires Enabled(cfg, s, l, now) && Recovered(s) && l.Commit?
    requires s.process.value.nextMessage == s.db.nextMessage
    requires forall i :: i in s.db.deliveries ==> i <= s.db.nextMessage
    ensures Recovered(Apply(cfg, s, l, now))
    ensures AttemptingIn(Apply(cfg, s, l, now), id) <==>
              LiveIn(Apply(cfg, s, l, now), id) && (AttemptingIn(s, id) || AcceptsPush(cfg, s, l, now, id))
  {
    hide Plan, Conflicts;
  }

  lemma LatePoll(cfg: Config, s: State, l: Label, now: int, id: nat)
    requires Enabled(cfg, s, l, now) && Recovered(s) && l.PollInbox?
    ensures Recovered(Apply(cfg, s, l, now))
    ensures AttemptingIn(Apply(cfg, s, l, now), id) <==> LiveIn(Apply(cfg, s, l, now), id) && AttemptingIn(s, id)
  {
    hide Chosen, ProjectAll, OfferAll;
  }

  lemma LateReport(cfg: Config, s: State, l: Label, now: int, id: nat)
    requires Enabled(cfg, s, l, now) && Recovered(s) && l.Report?
    ensures Recovered(Apply(cfg, s, l, now))
    ensures AttemptingIn(Apply(cfg, s, l, now), id) <==> LiveIn(Apply(cfg, s, l, now), id) && AttemptingIn(s, id)
  {
  }

  ghost predicate AcceptsPushAt(cfg: Config, r: Run, k: nat, id: nat)
    requires IsRun(cfg, r)
  {
    k < |r.labels| && StepAt(cfg, r, k) && AcceptsPush(cfg, r.states[k], r.labels[k], r.states[k + 1].clock, id)
  }

  /** From the recovery of a shutdown to the end of its process, the attempting rows are exactly
      the live ones whose message a send accepted with a push in between. */
  lemma {:induction false} LeasesAfterRecovery(cfg: Config, r: Run, j: nat, i: nat, id: nat)
    requires IsRun(cfg, r) && j < i < |r.states| && r.labels[j].RecoverLeases?
    requires forall m :: j < m < i ==> !EndsProcess(r.labels[m])
    ensures Recovered(r.states[i])
    ensures AttemptingIn(r.states[i], id) <==>
              LiveIn(r.states[i], id) && exists k :: j < k < i && AcceptsPushAt(cfg, r, k, id)
    decreases i
  {
    hide Inv, AcceptsPush, LiveIn, AttemptingIn;
    assert StepAt(cfg, r, i - 1);
    if j + 1 == i {
      NoLeaseAcrossProcesses(cfg, r, j, id);
    } else {
      LeasesAfterRecovery(cfg, r, j, i - 1, id);
      Always(cfg, r, i - 1);
      LateStep(cfg, r.states[i - 1], r.labels[i - 1], r.states[i].clock, id);
      if LiveIn(r.states[i], id) {
        if k :| j < k < i - 1 && AcceptsPushAt(cfg, r, k, id) { PushStaysLive(cfg, r, k, i, id); }
        assert AcceptsPush(cfg, r.states[i - 1], r.labels[i - 1], r.states[i].clock, id) ==>
                 AcceptsPushAt(cfg, r, i - 1, id);
      }
    }
  }

  lemma PushStaysLive(cfg: Config, r: Run, k: nat, i: nat, id: nat)
    requires IsRun(cfg, r) && k + 1 < i < |r.states| && AcceptsPushAt(cfg, r, k, id) && LiveIn(r.states[i], id)
    ensures LiveIn(r.states[i - 1], id)
  {
    var o := Decide(cfg, r.states[k].db, r.states[k].process.value, r.labels[k].send, r.labels[k].dbFails,
                    r.states[k + 1].clock);
    LiveBefore(cfg, r, k, i, o.a);
  }

  /** When a process ends by a clean close, the rows left attempting are exactly those; without
      such a send there are none. */
  lemma LeasesAtClose(cfg: Config, r: Run, j: nat, i: nat, id: nat)
    requires IsRun(cfg, r) && j < i < |r.labels| && r.labels[j].RecoverLeases? && r.labels[i].FinishClose?
    requires forall m :: j < m < i ==> !EndsProcess(r.labels[m])
    ensures AttemptingIn(r.states[i + 1], id) <==>
              LiveIn(r.states[i], id) && exists k :: j < k < i && AcceptsPushAt(cfg, r, k, id)
  {
    hide Inv, AcceptsPush, LiveIn;
    LeasesAfterRecovery(cfg, r, j, i, id);
    assert StepAt(cfg, r, i);
  }

  /** It happens: a push send that commits after the recovery is left attempting by the close. */
  lemma LateSendStaysAttempting(cfg: Config, s: State, send: Send, now: int)
    requires Inv(cfg, s) && Recovered(s) && Enabled(cfg, s, Commit(send, false), now)
    requires send.target == Active(true) && Decide(cfg, s.db, s.process.value, send, false, now).Committed?
    ensures var t := Apply(cfg, s, Commit(send, false), now);
            && Enabled(cfg, t, FinishClose, now)
            && AttemptingIn(Apply(cfg, t, FinishClose, now), s.db.nextMessage + 1)
  {
    FreshDelivery(cfg, s);
  }
}
