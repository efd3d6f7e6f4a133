/** Every step keeps the whole invariant: the process half, and the two halves together. */
module Invariant {
  import opened Model
  import opened Durable
  import opened Batch
  import opened Protocol
  import opened Safety

  // ---- shutdown ----

  lemma ShutdownPush(cfg: Config, s: State, l: Label, now: int)
    requires Enabled(cfg, s, l, now) && s.process.Some? && ShutdownOk(s.process.value)
    requires l.Publish? || l.Enqueue? || l.Claim?
    ensures ShutdownOk(NextProcess(cfg, s, l, now).value)
  {
    hide Decide, Accepted, PollOnce, Pruned, FailureWritten, SuccessWritten, Claimed, Reopened, ClosedTables;
    hide Reported, ProjectAll;
  }

  lemma ShutdownWork(cfg: Config, s: State, l: Label, now: int)
    requires Enabled(cfg, s, l, now) && s.process.Some? && ShutdownOk(s.process.value)
    requires l.Start? || l.Succeed? || l.GiveUp? || l.WriteFailure?
    ensures ShutdownOk(NextProcess(cfg, s, l, now).value)
  {
  }

  lemma ShutdownCommit(cfg: Config, s: State, l: Label, now: int)
    requires Enabled(cfg, s, l, now) && s.process.Some? && ShutdownOk(s.process.value)
    requires l.Commit?
    ensures ShutdownOk(NextProcess(cfg, s, l, now).value)
  {
    hide Decide;
  }

  lemma ShutdownStages(cfg: Config, s: State, l: Label, now: int)
    requires Enabled(cfg, s, l, now) && s.process.Some? && ShutdownOk(s.process.value)
    requires l.StopLoops? || l.BeginClose? || l.CloseQueue? || l.RecoverLeases?
    ensures ShutdownOk(NextProcess(cfg, s, l, now).value)
  {
  }

  lemma ShutdownCalls(cfg: Config, s: State, l: Label, now: int)
    requires Enabled(cfg, s, l, now) && s.process.Some? && ShutdownOk(s.process.value)
    requires l.PollInbox? || l.Report? || l.Prune? || l.Tidy?
    ensures ShutdownOk(NextProcess(cfg, s, l, now).value)
  {
    hide PollOnce, ProjectAll, LiveEntries;
  }

  lemma ShutdownStep(cfg: Config, s: State, l: Label, now: int)
    requires Enabled(cfg, s, l, now) && s.process.Some? && ShutdownOk(s.process.value)
    ensures NextProcess(cfg, s, l, now).Some? ==> ShutdownOk(NextProcess(cfg, s, l, now).value)
  {
    if l.Publish? || l.Enqueue? || l.Claim? { ShutdownPush(cfg, s, l, now); }
    else if l.Commit? { ShutdownCommit(cfg, s, l, now); }
    else if l.PollInbox? || l.Report? || l.Prune? || l.Tidy? { ShutdownCalls(cfg, s, l, now); }
    else if l.StopLoops? || l.BeginClose? || l.CloseQueue? || l.RecoverLeases? { ShutdownStages(cfg, s, l, now); }
    else if l.Start? || l.Succeed? || l.GiveUp? || l.WriteFailure? { ShutdownWork(cfg, s, l, now); }
  }

  // ---- projection ----

  ghost predicate ProjectionBefore(cfg: Config, s: State, l: Label, now: int) {
    && Enabled(cfg, s, l, now) && s.process.Some? && ProjectionOk(s.db, s.process.value)
    && (forall id :: id in s.db.messages ==> id <= s.db.nextMessage)
  }

  ghost predicate ProjectionAfter(cfg: Config, s: State, l: Label, now: int)
    requires Enabled(cfg, s, l, now)
  {
    var next := NextProcess(cfg, s, l, now);
    next.Some? ==> ProjectionOk(NextTables(cfg, s, l, now), next.value)
  }

  lemma ProjectionCommit(cfg: Config, s: State, l: Label, now: int)
    requires ProjectionBefore(cfg, s, l, now) && l.Commit?
    ensures ProjectionAfter(cfg, s, l, now)
  {
  }

  /** Publication touches the projection alike, whatever becomes of the push job. */
  lemma PublishedFields(cfg: Config, p: Memory, a: Acceptance)
    ensures var q := Published(cfg, p, a);
            && q.messages == p.messages[a.id := a.message] && q.nextMessage == a.id && q.held == None
            && q.entries == (if a.key.None? then p.entries
                             else p.entries[a.key.value := Entry(a.id, a.message.createdAt)])
  {
    PublishedIsVisible(cfg, p, a);
  }

  lemma PublishedIsVisible(cfg: Config, p: Memory, a: Acceptance)
    ensures var q, v := Published(cfg, p, a), Visible(p, a);
            q.messages == v.messages && q.nextMessage == v.nextMessage && q.held == v.held && q.entries == v.entries
  {
    hide Visible;
  }

  lemma ProjectionPublish(cfg: Config, s: State, l: Label, now: int)
    requires ProjectionBefore(cfg, s, l, now) && l.Publish?
    ensures ProjectionAfter(cfg, s, l, now)
  {
    hide Published, TablesOk;
    PublishedFields(cfg, s.process.value, s.process.value.held.value);
    assert NextTables(cfg, s, l, now) == s.db;
  }

  lemma ProjectionTidy(cfg: Config, s: State, l: Label, now: int)
    requires ProjectionBefore(cfg, s, l, now) && l.Tidy?
    ensures ProjectionAfter(cfg, s, l, now)
  {
    hide Published, LiveEntries;
    assert NextTables(cfg, s, l, now) == s.db;
  }

  lemma ProjectionReport(cfg: Config, s: State, l: Label, now: int)
    requires ProjectionBefore(cfg, s, l, now) && l.Report?
    ensures ProjectionAfter(cfg, s, l, now)
  {
  }

  lemma ProjectionPoll(cfg: Config, s: State, l: Label, now: int)
    requires ProjectionBefore(cfg, s, l, now) && l.PollInbox?
    ensures ProjectionAfter(cfg, s, l, now)
  {
    hide ProjectAll, PollOnce, NextTables, SameEnvelope;
    var r := PollOnce(cfg, s.db, l.agent, l.requested, l.limit, now);
    PolledFields(cfg, s, l, now);
    ProjectedFields(s.process.value.messages, r.db.messages, Elements(r.batch));
    var mem := ProjectAll(s.process.value.messages, r.db.messages, Elements(r.batch));
    forall id | id in mem && id in r.db.messages ensures SameEnvelope(mem[id], r.db.messages[id]) {
      assert SameEnvelope(s.process.value.messages[id], s.db.messages[id]);
      EnvelopeTwice(s.process.value.messages[id], s.db.messages[id], r.db.messages[id]);
    }
    if s.process.value.held.Some? && s.process.value.held.value.id in r.db.messages {
      var a := s.process.value.held.value;
      EnvelopeTwice(a.message, s.db.messages[a.id], r.db.messages[a.id]);
    }
  }

  /** A poll keeps the content and the ids of the durable messages. */
  lemma PolledFields(cfg: Config, s: State, l: Label, now: int)
    requires Enabled(cfg, s, l, now) && l.PollInbox?
    ensures var r := PollOnce(cfg, s.db, l.agent, l.requested, l.limit, now);
            && NextTables(cfg, s, l, now) == r.db && NextProcess(cfg, s, l, now) == Some(Polled(s.process.value, r))
            && r.db.nextMessage == s.db.nextMessage && r.db.messages.Keys == s.db.messages.Keys
            && forall id :: id in s.db.messages ==> SameEnvelope(s.db.messages[id], r.db.messages[id])
  {
    hide Chosen, AckPrefix;
  }

  lemma EnvelopeTwice(a: Message, b: Message, c: Message)
    requires SameEnvelope(a, b) && SameEnvelope(b, c)
    ensures SameEnvelope(a, c)
  {
  }

  lemma ProjectionClaim(cfg: Config, s: State, l: Label, now: int)
    requires ProjectionBefore(cfg, s, l, now) && (l.Claim? || l.Prune?)
    ensures ProjectionAfter(cfg, s, l, now)
  {
  }

  lemma ProjectionEnqueue(cfg: Config, s: State, l: Label, now: int)
    requires ProjectionBefore(cfg, s, l, now) && l.Enqueue?
    ensures ProjectionAfter(cfg, s, l, now)
  {
    hide Scheduled, FailureWritten, NextTables, SameEnvelope;
    ScheduledFields(cfg, s.db, s.process.value, l.job);
    EnqueueTables(cfg, s, l, now);
  }

  /** Handing over a claimed message projects at most that message, and keeps every content. */
  lemma ScheduledFields(cfg: Config, db: Tables, p: Memory, id: nat)
    ensures var q := Scheduled(cfg, db, p, id);
            && q.messages.Keys == p.messages.Keys && q.nextMessage == p.nextMessage && q.held == p.held
            && q.entries == p.entries
            && forall i, m :: i in p.messages && SameEnvelope(p.messages[i], m) ==> SameEnvelope(q.messages[i], m)
  {
    ProjectedFields(p.messages, db.messages, {id});
    hide ProjectAll;
  }

  lemma ProjectedFields(mem: map<nat, Message>, durable: map<nat, Message>, ids: set<nat>)
    ensures ProjectAll(mem, durable, ids).Keys == mem.Keys
    ensures forall i, m :: i in mem && SameEnvelope(mem[i], m) ==> SameEnvelope(ProjectAll(mem, durable, ids)[i], m)
  {
  }

  lemma EnqueueTables(cfg: Config, s: State, l: Label, now: int)
    requires Enabled(cfg, s, l, now) && l.Enqueue?
    ensures NextTables(cfg, s, l, now).messages == s.db.messages
    ensures NextTables(cfg, s, l, now).nextMessage == s.db.nextMessage
  {
    hide PushFailed, Ready;
  }

  lemma ProjectionRest(cfg: Config, s: State, l: Label, now: int)
    requires ProjectionBefore(cfg, s, l, now)
    requires || l.Start? || l.Succeed? || l.GiveUp? || l.WriteFailure?
             || l.StopLoops? || l.BeginClose? || l.CloseQueue? || l.RecoverLeases?
    ensures ProjectionAfter(cfg, s, l, now)
  {
  }

  lemma ProjectionGone(cfg: Config, s: State, l: Label, now: int)
    requires ProjectionBefore(cfg, s, l, now) && (l.FinishClose? || l.Crash? || l.Restart?)
    ensures ProjectionAfter(cfg, s, l, now)
  {
  }

  lemma ProjectionStep(cfg: Config, s: State, l: Label, now: int)
    requires ProjectionBefore(cfg, s, l, now)
    ensures ProjectionAfter(cfg, s, l, now)
  {
    hide ProjectionBefore, ProjectionAfter;
    if l.Commit? { ProjectionCommit(cfg, s, l, now); }
    else if l.Publish? { ProjectionPublish(cfg, s, l, now); }
    else if l.Tidy? { ProjectionTidy(cfg, s, l, now); }
    else if l.Report? { ProjectionReport(cfg, s, l, now); }
    else if l.PollInbox? { ProjectionPoll(cfg, s, l, now); }
    else if l.Claim? || l.Prune? { ProjectionClaim(cfg, s, l, now); }
    else if l.Enqueue? { ProjectionEnqueue(cfg, s, l, now); }
    else if l.FinishClose? || l.Crash? || l.Restart? { ProjectionGone(cfg, s, l, now); }
    else { ProjectionRest(cfg, s, l, now); }
  }

  // ---- duplicate receipts ----

  ghost predicate ReceiptsBefore(cfg: Config, s: State, l: Label, now: int) {
    && Enabled(cfg, s, l, now) && s.process.Some?
    && ReceiptsAgree(cfg, s.db, s.process.value, s.clock)
    && (forall k :: k in s.db.receipts ==>
          s.db.receipts[k].acceptedAt <= s.clock
          && s.db.receipts[k].expiresAt == s.db.receipts[k].acceptedAt + cfg.window)
  }

  ghost predicate ReceiptsAfter(cfg: Config, s: State, l: Label, now: int)
    requires Enabled(cfg, s, l, now)
  {
    var next, db := NextProcess(cfg, s, l, now), NextTables(cfg, s, l, now);
    && (next.Some? ==> ReceiptsAgree(cfg, db, next.value, now))
    && (forall k :: k in db.receipts ==> db.receipts[k].acceptedAt <= now)
  }

  lemma ReceiptsCommit(cfg: Config, s: State, l: Label, now: int)
    requires ReceiptsBefore(cfg, s, l, now) && l.Commit?
    ensures ReceiptsAfter(cfg, s, l, now)
  {
    hide NextTables, NextProcess, Ready;
    CommitIndex(cfg, s, l, now);
    var o := Decide(cfg, s.db, s.process.value, l.send, l.dbFails, now);
    if o.Committed? {
      CommittedKey(cfg, s, l, now);
      ReceiptsHeld(cfg, s.db, s.process.value, s.clock, o.a, now);
    }
  }

  /** What a commit does to the table and the index. */
  lemma CommitIndex(cfg: Config, s: State, l: Label, now: int)
    requires Enabled(cfg, s, l, now) && l.Commit?
    ensures var o := Decide(cfg, s.db, s.process.value, l.send, l.dbFails, now);
            && NextTables(cfg, s, l, now) == (if o.Committed? then Accepted(cfg, s.db, o.a) else s.db)
            && NextProcess(cfg, s, l, now) == Some(Holding(s.process.value, o))
  {
    hide Decide, Accepted;
  }

  lemma CommittedKey(cfg: Config, s: State, l: Label, now: int)
    requires Enabled(cfg, s, l, now) && l.Commit?
    requires Decide(cfg, s.db, s.process.value, l.send, l.dbFails, now).Committed?
    ensures var a := Decide(cfg, s.db, s.process.value, l.send, l.dbFails, now).a;
            && s.process.value.held.None? && a.message.createdAt == now
            && (a.key.Some? ==> a.key.value !in s.db.receipts
                                && (a.key.value in s.process.value.entries ==>
                                      !InWindow(cfg, s.process.value.entries[a.key.value].createdAt, now)))
  {
    hide Plan, NewDelivery, SlotTaken;
    PlannedNow(cfg, l.send, now);
  }

  lemma ReceiptsHeld(cfg: Config, db: Tables, p: Memory, clock: int, a: Acceptance, now: int)
    requires ReceiptsAgree(cfg, db, p, clock) && clock <= now && p.held.None? && a.message.createdAt == now
    requires a.key.Some? ==> a.key.value !in db.receipts
                             && (a.key.value in p.entries ==> !InWindow(cfg, p.entries[a.key.value].createdAt, now))
    ensures ReceiptsAgree(cfg, Accepted(cfg, db, a), p.(held := Some(a)), now)
  {
    hide NewDelivery, CursorOf;
  }

  lemma PlannedNow(cfg: Config, send: Send, now: int)
    ensures Plan(cfg, send, now).Some? ==> Plan(cfg, send, now).value.createdAt == now
  {
  }

  lemma ReceiptsPublish(cfg: Config, s: State, l: Label, now: int)
    requires ReceiptsBefore(cfg, s, l, now) && l.Publish?
    ensures ReceiptsAfter(cfg, s, l, now)
  {
    hide Published;
    PublishedFields(cfg, s.process.value, s.process.value.held.value);
    assert NextTables(cfg, s, l, now) == s.db;
  }

  lemma ReceiptsTidy(cfg: Config, s: State, l: Label, now: int)
    requires ReceiptsBefore(cfg, s, l, now) && l.Tidy?
    ensures ReceiptsAfter(cfg, s, l, now)
  {
    assert NextTables(cfg, s, l, now) == s.db;
  }

  lemma ReceiptsPrune(cfg: Config, s: State, l: Label, now: int)
    requires ReceiptsBefore(cfg, s, l, now) && l.Prune?
    ensures ReceiptsAfter(cfg, s, l, now)
  {
  }

  /** Every other step leaves both the index and the table alone. */
  lemma TableUntouched(cfg: Config, s: State, l: Label, now: int)
    requires Enabled(cfg, s, l, now)
    requires !l.Commit? && !l.Prune? && !l.Restart?
    ensures NextTables(cfg, s, l, now).receipts == s.db.receipts
  {
  }

  ghost predicate SameIndex(cfg: Config, s: State, l: Label, now: int)
    requires Enabled(cfg, s, l, now) && s.process.Some?
  {
    var next := NextProcess(cfg, s, l, now);
    next.Some? ==> next.value.entries == s.process.value.entries && next.value.held == s.process.value.held
  }

  lemma IndexDeliveries(cfg: Config, s: State, l: Label, now: int)
    requires Enabled(cfg, s, l, now) && s.process.Some?
    requires l.PollInbox? || l.Report?
    ensures SameIndex(cfg, s, l, now)
  {
    hide PollOnce, ProjectAll;
  }

  lemma IndexClaim(cfg: Config, s: State, l: Label, now: int)
    requires Enabled(cfg, s, l, now) && s.process.Some? && l.Claim?
    ensures SameIndex(cfg, s, l, now)
  {
    hide FirstBatch, ProjectAll;
  }

  lemma IndexEnqueue(cfg: Config, s: State, l: Label, now: int)
    requires Enabled(cfg, s, l, now) && s.process.Some? && l.Enqueue?
    ensures SameIndex(cfg, s, l, now)
  {
    hide Scheduled, NextTables;
    ScheduledFields(cfg, s.db, s.process.value, l.job);
  }

  lemma IndexShutdown(cfg: Config, s: State, l: Label, now: int)
    requires Enabled(cfg, s, l, now) && s.process.Some?
    requires l.StopLoops? || l.BeginClose? || l.CloseQueue? || l.RecoverLeases?
    ensures SameIndex(cfg, s, l, now)
  {
    hide NextTables;
  }

  lemma IndexEnds(cfg: Config, s: State, l: Label, now: int)
    requires Enabled(cfg, s, l, now) && s.process.Some?
    requires l.Prune? || l.FinishClose? || l.Crash?
    ensures SameIndex(cfg, s, l, now)
  {
    hide NextTables;
  }

  lemma IndexWorkers(cfg: Config, s: State, l: Label, now: int)
    requires Enabled(cfg, s, l, now) && s.process.Some?
    requires l.Start? || l.Succeed? || l.GiveUp? || l.WriteFailure?
    ensures SameIndex(cfg, s, l, now)
  {
  }

  lemma IndexUntouched(cfg: Config, s: State, l: Label, now: int)
    requires Enabled(cfg, s, l, now) && s.process.Some?
    requires !l.Commit? && !l.Publish? && !l.Tidy?
    ensures SameIndex(cfg, s, l, now)
  {
    hide SameIndex;
    if l.PollInbox? || l.Report? { IndexDeliveries(cfg, s, l, now); }
    else if l.Claim? { IndexClaim(cfg, s, l, now); }
    else if l.Enqueue? { IndexEnqueue(cfg, s, l, now); }
    else if l.Start? || l.Succeed? || l.GiveUp? || l.WriteFailure? { IndexWorkers(cfg, s, l, now); }
    else if l.Prune? || l.FinishClose? || l.Crash? { IndexEnds(cfg, s, l, now); }
    else { IndexShutdown(cfg, s, l, now); }
  }

  lemma ReceiptsStep(cfg: Config, s: State, l: Label, now: int)
    requires ReceiptsBefore(cfg, s, l, now)
    ensures ReceiptsAfter(cfg, s, l, now)
  {
    hide ReceiptsBefore, ReceiptsAfter;
    if l.Commit? { ReceiptsCommit(cfg, s, l, now); }
    else if l.Publish? { ReceiptsPublish(cfg, s, l, now); }
    else if l.Tidy? { ReceiptsTidy(cfg, s, l, now); }
    else if l.Prune? { ReceiptsPrune(cfg, s, l, now); }
    else { ReceiptsOther(cfg, s, l, now); }
  }

  lemma ReceiptsOther(cfg: Config, s: State, l: Label, now: int)
    requires ReceiptsBefore(cfg, s, l, now) && !l.Commit? && !l.Publish? && !l.Tidy? && !l.Prune?
    ensures ReceiptsAfter(cfg, s, l, now)
  {
    hide NextTables, NextProcess, Ready;
    NotRestarting(cfg, s, l, now);
    TableUntouched(cfg, s, l, now);
    IndexUntouched(cfg, s, l, now);
  }

  lemma NotRestarting(cfg: Config, s: State, l: Label, now: int)
    requires Enabled(cfg, s, l, now) && s.process.Some?
    ensures !l.Restart?
  {
  }

  /** The invariant holds initially, and after every step of every kind. */
  lemma Initial(cfg: Config, clock: int)
    ensures Inv(cfg, State(clock, EMPTY_TABLES, None))
  {
  }

  lemma LoadedOk(cfg: Config, db: Tables, now: int)
    requires TablesOk(cfg, db)
    requires forall id :: id in db.deliveries ==> !db.deliveries[id].status.Attempting?
    ensures var p := Loaded(db, now);
            LeaseOk(db, p) && ShutdownOk(p) && ProjectionOk(db, p) && ReceiptsAgree(cfg, db, p, now)
  {
    assert Jobs(Loaded(db, now)) == multiset{};
  }

  lemma NoneAttempting(cfg: Config, db: Tables, now: int, id: nat)
    requires id in Reopened(cfg, db, now).deliveries
    ensures !Reopened(cfg, db, now).deliveries[id].status.Attempting?
  {
    PrunedRows(cfg, db.(deliveries := Recover(db.deliveries)), now);
  }

  lemma ReopenedStamps(cfg: Config, db: Tables, now: int, clock: int)
    requires clock <= now && forall k :: k in db.receipts ==> db.receipts[k].acceptedAt <= clock
    ensures forall k :: k in Reopened(cfg, db, now).receipts ==> Reopened(cfg, db, now).receipts[k].acceptedAt <= now
  {
  }

  lemma RestartStep(cfg: Config, s: State, now: int)
    requires Inv(cfg, s) && Enabled(cfg, s, Restart, now)
    ensures Inv(cfg, Apply(cfg, s, Restart, now))
  {
    hide TablesOk, Reopened, Loaded;
    var db := Reopened(cfg, s.db, now);
    RestartTables(cfg, s.db, now);
    ReopenedStamps(cfg, s.db, now, s.clock);
    forall id | id in db.deliveries ensures !db.deliveries[id].status.Attempting? {
      NoneAttempting(cfg, s.db, now, id);
    }
    LoadedOk(cfg, db, now);
  }

  lemma BeforeStep(cfg: Config, s: State, l: Label, now: int)
    requires Inv(cfg, s) && Enabled(cfg, s, l, now) && s.process.Some?
    ensures LeaseBefore(cfg, s, l, now) && ProjectionBefore(cfg, s, l, now) && ReceiptsBefore(cfg, s, l, now)
    ensures ShutdownOk(s.process.value)
  {
    hide Ready, LeaseOk, ShutdownOk, ProjectionOk, ReceiptsAgree, RowOk, SlotsUnique;
  }

  lemma AfterStep(cfg: Config, s: State, l: Label, now: int)
    requires Enabled(cfg, s, l, now) && TablesOk(cfg, NextTables(cfg, s, l, now))
    requires LeaseAfter(cfg, s, l, now) && ProjectionAfter(cfg, s, l, now) && ReceiptsAfter(cfg, s, l, now)
    requires NextProcess(cfg, s, l, now).Some? ==> ShutdownOk(NextProcess(cfg, s, l, now).value)
    ensures Inv(cfg, Apply(cfg, s, l, now))
  {
    hide Ready, LeaseOk, ShutdownOk, ProjectionOk, ReceiptsAgree, TablesOk, NextTables, NextProcess;
  }

  lemma RunningBefore(cfg: Config, s: State, l: Label, now: int)
    requires Enabled(cfg, s, l, now) && !l.Restart?
    ensures s.process.Some?
  {
  }

  lemma Step(cfg: Config, s: State, l: Label, now: int)
    requires Inv(cfg, s) && Enabled(cfg, s, l, now)
    ensures Inv(cfg, Apply(cfg, s, l, now))
  {
    hide Inv, Enabled, Apply, NextTables, NextProcess, TablesOk, ShutdownOk;
    hide LeaseBefore, LeaseAfter, ProjectionBefore, ProjectionAfter, ReceiptsBefore, ReceiptsAfter;
    if l.Restart? {
      RestartStep(cfg, s, now);
    } else {
      RunningBefore(cfg, s, l, now);
      BeforeStep(cfg, s, l, now);
      TablesStep(cfg, s, l, now);
      LeaseStep(cfg, s, l, now);
      ShutdownStep(cfg, s, l, now);
      ProjectionStep(cfg, s, l, now);
      ReceiptsStep(cfg, s, l, now);
      AfterStep(cfg, s, l, now);
    }
  }
}
