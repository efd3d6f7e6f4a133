/** The lifecycle facts of every message record, in the tables and in memory, over whole runs of
    the delivery protocol: what a process that opens the database starts its lifecycle from. */
module Records {
  import opened Model
  import opened Durable
  import opened Batch
  import opened Protocol
  import opened Safety
  import opened Runs
  import L = Lifecycle
  import B = Backfill

  ghost predicate RecordsOk(messages: map<nat, Message>) {
    forall id :: id in messages ==> MessageOk(messages[id])
  }

  /** Every message of the tables, of memory and of an acceptance not yet published. */
  ghost predicate StateOk(s: State) {
    && RecordsOk(s.db.messages)
    && (s.process.Some? ==>
          && RecordsOk(s.process.value.messages)
          && (s.process.value.held.Some? ==> MessageOk(s.process.value.held.value.message)))
  }

  lemma OfferedRecords(messages: map<nat, Message>, durable: map<nat, Message>, ids: set<nat>, now: int)
    requires RecordsOk(messages)
    ensures RecordsOk(OfferAll(messages, ids, now)) && RecordsOk(ProjectAll(messages, durable, ids))
  {
    hide MessageOk;
    forall id | id in messages
      ensures MessageOk(Offered(messages[id], now))
      ensures id in durable ==> MessageOk(Projected(messages[id], durable[id]))
    {
      L.OfferedOk(messages[id], Some(now));
      if id in durable { L.OfferedOk(messages[id], durable[id].deliveredAt); }
    }
  }

  lemma OneRecord(messages: map<nat, Message>, id: nat, m: Message)
    requires RecordsOk(messages) && MessageOk(m)
    ensures RecordsOk(messages[id := m])
  {
  }

  /** What the kinds of step do to the records of the tables. */
  lemma TablesKeepRecords(cfg: Config, s: State, l: Label, now: int)
    requires StateOk(s) && Enabled(cfg, s, l, now)
    ensures RecordsOk(NextTables(cfg, s, l, now).messages)
  {
    hide MessageOk, Decide, Plan, FirstBatch;
    if l.Commit? { CommitRecords(cfg, s, l, now); }
    else if l.PollInbox? { PolledRecords(cfg, s.db, l.agent, l.requested, l.limit, now); }
    else if l.Claim? { OfferedRecords(s.db.messages, map[], l.chosen, now); }
    else if l.Report? { OneRecord(s.db.messages, l.id, l.next); }
    else if l.Prune? || l.Restart? { PrunedRecords(cfg, s, l, now); }
    else { SameRecords(cfg, s, l, now); }
  }

  lemma CommitRecords(cfg: Config, s: State, l: Label, now: int)
    requires StateOk(s) && Enabled(cfg, s, l, now) && l.Commit?
    ensures RecordsOk(NextTables(cfg, s, l, now).messages)
    ensures var o := Decide(cfg, s.db, s.process.value, l.send, l.dbFails, now);
            o.Committed? ==> MessageOk(o.a.message)
  {
    hide MessageOk, Plan, Conflicts;
    if Plan(cfg, l.send, now).Some? { L.PlannedOk(cfg, l.send, now); }
  }

  lemma PolledRecords(cfg: Config, db: Tables, agent: string, requested: int, limit: int, now: int)
    requires RecordsOk(db.messages)
    ensures RecordsOk(PollOnce(cfg, db, agent, requested, limit, now).db.messages)
  {
    hide RecordsOk, Chosen;
    var c := Clamp(CursorOf(db, agent), requested);
    var db1 := Advanced(db, agent, c, now);
    OfferedRecords(db.messages, map[], Elements(Chosen(cfg, db1, agent, c, limit, now)), now);
  }

  lemma PrunedRecords(cfg: Config, s: State, l: Label, now: int)
    requires StateOk(s) && Enabled(cfg, s, l, now) && (l.Prune? || l.Restart?)
    ensures RecordsOk(NextTables(cfg, s, l, now).messages)
  {
    hide MessageOk, PastRetention, ExpireDue, Recover;
  }

  lemma SameRecords(cfg: Config, s: State, l: Label, now: int)
    requires Enabled(cfg, s, l, now)
    requires !l.Commit? && !l.PollInbox? && !l.Claim? && !l.Report? && !l.Prune? && !l.Restart?
    ensures NextTables(cfg, s, l, now).messages == s.db.messages
  {
  }

  ghost predicate MemoryOk(p: Memory) {
    RecordsOk(p.messages) && (p.held.Some? ==> MessageOk(p.held.value.message))
  }

  /** What they do to those of memory. */
  lemma ProcessKeepsRecords(cfg: Config, s: State, l: Label, now: int)
    requires StateOk(s) && Enabled(cfg, s, l, now) && NextProcess(cfg, s, l, now).Some?
    ensures MemoryOk(NextProcess(cfg, s, l, now).value)
  {
    hide MessageOk, NextTables;
    if l.Restart? { LoadedRecords(cfg, s, now); }
    else if l.Commit? { HeldRecords(cfg, s, l, now); }
    else if l.Publish? { PublishedRecords(cfg, s.process.value); }
    else if l.PollInbox? || l.Enqueue? { ProjectedRecords(cfg, s, l, now); }
    else if l.Report? { OneRecord(s.process.value.messages, l.id, l.next); }
    else if !l.Tidy? { SameMemory(cfg, s, l, now); }
  }

  lemma LoadedRecords(cfg: Config, s: State, now: int)
    requires StateOk(s) && Enabled(cfg, s, Restart, now)
    ensures MemoryOk(NextProcess(cfg, s, Restart, now).value)
    ensures NextProcess(cfg, s, Restart, now).value.messages == NextTables(cfg, s, Restart, now).messages
  {
    hide MessageOk, Pruned;
    PrunedRecords(cfg, s, Restart, now);
  }

  lemma HeldRecords(cfg: Config, s: State, l: Label, now: int)
    requires StateOk(s) && Enabled(cfg, s, l, now) && l.Commit?
    ensures MemoryOk(NextProcess(cfg, s, l, now).value)
  {
    hide MessageOk, Decide, NextTables;
    CommitRecords(cfg, s, l, now);
  }

  lemma PublishedRecords(cfg: Config, p: Memory)
    requires MemoryOk(p) && p.held.Some?
    ensures MemoryOk(Published(cfg, p, p.held.value))
  {
    hide MessageOk;
    OneRecord(p.messages, p.held.value.id, p.held.value.message);
  }

  lemma ProjectedRecords(cfg: Config, s: State, l: Label, now: int)
    requires StateOk(s) && Enabled(cfg, s, l, now) && (l.PollInbox? || l.Enqueue?)
    ensures MemoryOk(NextProcess(cfg, s, l, now).value)
  {
    hide RecordsOk, MessageOk, PollOnce, NextTables, ProjectAll, Decide;
    var p := s.process.value;
    if l.PollInbox? {
      var poll := PollOnce(cfg, s.db, l.agent, l.requested, l.limit, now);
      OfferedRecords(p.messages, poll.db.messages, Elements(poll.batch), now);
    } else {
      OfferedRecords(p.messages, s.db.messages, {l.job}, now);
    }
  }

  lemma SameMemory(cfg: Config, s: State, l: Label, now: int)
    requires Enabled(cfg, s, l, now) && s.process.Some? && NextProcess(cfg, s, l, now).Some?
    requires !l.Restart? && !l.Commit? && !l.Publish? && !l.PollInbox? && !l.Enqueue? && !l.Report? && !l.Tidy?
    ensures NextProcess(cfg, s, l, now).value.messages == s.process.value.messages
    ensures NextProcess(cfg, s, l, now).value.held == s.process.value.held
  {
    if l.Claim? || l.Start? || l.Succeed? || l.GiveUp? || l.WriteFailure? { SameMemoryAtWork(cfg, s, l, now); }
    else { SameMemoryAtStop(cfg, s, l, now); }
  }

  lemma SameMemoryAtWork(cfg: Config, s: State, l: Label, now: int)
    requires Enabled(cfg, s, l, now) && s.process.Some? && NextProcess(cfg, s, l, now).Some?
    requires l.Claim? || l.Start? || l.Succeed? || l.GiveUp? || l.WriteFailure?
    ensures NextProcess(cfg, s, l, now).value.messages == s.process.value.messages
    ensures NextProcess(cfg, s, l, now).value.held == s.process.value.held
  {
    hide NextTables, FirstBatch;
  }

  lemma SameMemoryAtStop(cfg: Config, s: State, l: Label, now: int)
    requires Enabled(cfg, s, l, now) && s.process.Some? && NextProcess(cfg, s, l, now).Some?
    requires || l.Prune? || l.StopLoops? || l.BeginClose? || l.CloseQueue? || l.RecoverLeases?
             || l.FinishClose? || l.Crash?
    ensures NextProcess(cfg, s, l, now).value.messages == s.process.value.messages
    ensures NextProcess(cfg, s, l, now).value.held == s.process.value.held
  {
    hide NextTables;
  }

  /** Every step keeps the lifecycle facts of every record. */
  lemma StepKeepsRecords(cfg: Config, s: State, l: Label, now: int)
    requires StateOk(s) && Enabled(cfg, s, l, now)
    ensures StateOk(Apply(cfg, s, l, now))
  {
    hide RecordsOk, NextTables, NextProcess, Enabled;
    TablesKeepRecords(cfg, s, l, now);
    if NextProcess(cfg, s, l, now).Some? { ProcessKeepsRecords(cfg, s, l, now); }
  }

  lemma {:induction false} RecordsAlwaysOk(cfg: Config, r: Run, i: nat)
    requires IsRun(cfg, r) && StateOk(r.states[0]) && i < |r.states|
    ensures StateOk(r.states[i])
  {
    hide Inv, StateOk, Apply;
    if i > 0 {
      RecordsAlwaysOk(cfg, r, i - 1);
      assert StepAt(cfg, r, i - 1);
      StepKeepsRecords(cfg, r.states[i - 1], r.labels[i - 1], r.states[i].clock);
    }
  }

  /** A process that opens the database starts its in-memory store from exactly what the
      lifecycle and punctuality theorems ask of a first store, whatever runs have gone before. */
  lemma StartedStoreIsOk(cfg: Config, limits: L.Limits, r: Run, i: nat, agents: map<string, L.Agent>)
    requires IsRun(cfg, r) && StateOk(r.states[0]) && i < |r.labels| && r.labels[i].Restart?
    ensures r.states[i + 1].process.Some?
    ensures var p := r.states[i + 1].process.value;
            var start := L.Store(agents, p.messages, None, p.nextMessage);
            L.StoreOk(start) && L.UpToDate(limits, start)
  {
    hide RecordsOk, MessageOk, LeaseOk, ReceiptsAgree, TablesOk;
    assert StepAt(cfg, r, i);
    Always(cfg, r, i + 1);
    RecordsAlwaysOk(cfg, r, i + 1);
    KnownRecords(cfg, r.states[i + 1]);
  }

  lemma KnownRecords(cfg: Config, s: State)
    requires Inv(cfg, s) && s.process.Some? && RecordsOk(s.process.value.messages)
    ensures forall id :: id in s.process.value.messages ==>
              id <= s.process.value.nextMessage && MessageOk(s.process.value.messages[id])
  {
    hide TablesOk, LeaseOk, ReceiptsAgree, MessageOk;
  }

  /** An empty database has no bad record. */
  lemma EmptyRecords(clock: int)
    ensures StateOk(State(clock, EMPTY_TABLES, None))
  {
  }

  /** The backfill dates messages and changes nothing else of them. */
  lemma {:induction false} BackfilledRecords(db: Tables, ids: seq<nat>, ttl: nat, now: int)
    requires RecordsOk(db.messages) && forall i :: 0 <= i < |ids| ==> ids[i] in db.messages
    ensures RecordsOk(B.Fill(db, ids, ttl, now).messages)
  {
    hide MessageOk, B.StillDue, B.WithTtl;
    if ids != [] {
      var k := |ids| - 1;
      BackfilledRecords(db, ids[..k], ttl, now);
      DatedOk(B.Fill(db, ids[..k], ttl, now).messages[ids[k]], ttl);
    }
  }

  lemma DatedOk(m: Message, ttl: nat)
    requires MessageOk(m)
    ensures MessageOk(B.WithTtl(m, ttl))
  {
  }
}
