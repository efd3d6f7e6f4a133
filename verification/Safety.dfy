/** The protocol invariant and its preservation by every step. */
module Safety {
  import opened Model
  import opened Durable
  import opened Batch
  import opened Protocol

  // ---- the invariant ----

  /** Every outstanding push job, by message. Once shutdown has begun an acceptance that is
      published brings no job any more. */
  function Jobs(p: Memory): multiset<nat> {
    HeldJob(p) + p.claimed + multiset(p.queue) + p.running + p.detached
  }

  function HeldJob(p: Memory): multiset<nat> {
    if p.held.Some? && p.held.value.push && !p.closed then multiset{p.held.value.id} else multiset{}
  }

  /** The push lease: no message has two jobs, no job's row is pending, and until shutdown
      begins every attempting row has its job. */
  ghost predicate Leased(d: map<nat, Delivery>, top: nat, jobs: multiset<nat>, closed: bool) {
    && (forall id :: jobs[id] <= 1)
    && (forall id :: id in jobs ==> id <= top)
    && (forall id :: id in d && d[id].status.Pending? ==> id !in jobs)
    && (!closed ==> forall id :: id in d && d[id].status.Attempting? ==> id in jobs)
  }

  ghost predicate LeaseOk(db: Tables, p: Memory) {
    Leased(db.deliveries, db.nextMessage, Jobs(p), p.closed)
  }

  /** The wait group counts the jobs handed to the workers, and the stages of shutdown. */
  predicate ShutdownOk(p: Memory) {
    && p.wg == |p.queue| + |p.running| + |p.detached|
    && (p.stopped ==> p.claimed == multiset{})
    && (p.closed ==> p.stopped)
    && (p.queueClosed ==> p.closed && p.wg == 0)
    && (p.recovered ==> p.queueClosed)
  }

  /** The duplicate index and its table agree on every key with a second of its window left; a
      committed acceptance that is not yet published is in the table alone. Inside the window they
      never disagree on a key that both have. */
  ghost predicate ReceiptsAgree(cfg: Config, db: Tables, p: Memory, now: int) {
    && (forall k :: k in p.entries && Secure(cfg, p.entries[k].createdAt, now) ==>
          k in db.receipts && db.receipts[k].id == p.entries[k].id
          && db.receipts[k].acceptedAt == p.entries[k].createdAt)
    && (forall k :: k in p.entries && k in db.receipts && InWindow(cfg, p.entries[k].createdAt, now) ==>
          p.entries[k] == Entry(db.receipts[k].id, db.receipts[k].acceptedAt))
    && (forall k :: k in db.receipts && Secure(cfg, db.receipts[k].acceptedAt, now) ==>
          || (k in p.entries && p.entries[k] == Entry(db.receipts[k].id, db.receipts[k].acceptedAt))
          || (p.held.Some? && p.held.value.key == Some(k)))
    && (p.held.Some? && p.held.value.key.Some? ==>
          var a := p.held.value;
          var k := a.key.value;
          && (Secure(cfg, a.message.createdAt, now) ==> k in db.receipts)
          && (k in db.receipts ==> db.receipts[k].id == a.id && db.receipts[k].acceptedAt == a.message.createdAt))
  }

  /** Counters and message rows of the projection follow the tables. */
  ghost predicate ProjectionOk(db: Tables, p: Memory) {
    && (p.held.None? ==> p.nextMessage == db.nextMessage)
    && (p.held.Some? ==> p.nextMessage + 1 == db.nextMessage == p.held.value.id)
    && (forall id :: id in p.messages ==> id <= p.nextMessage)
    && (forall id :: id in p.messages && id in db.messages ==> SameEnvelope(p.messages[id], db.messages[id]))
    && (p.held.Some? && p.held.value.id in db.messages ==>
          SameEnvelope(p.held.value.message, db.messages[p.held.value.id]))
  }

  ghost predicate Inv(cfg: Config, s: State) {
    && TablesOk(cfg, s.db)
    && (forall k :: k in s.db.receipts ==> s.db.receipts[k].acceptedAt <= s.clock)
    && (s.process.Some? ==>
          var p := s.process.value;
          && LeaseOk(s.db, p) && ShutdownOk(p) && ProjectionOk(s.db, p)
          && ReceiptsAgree(cfg, s.db, p, s.clock))
  }

  // ---- rows only evolve ----

  /** What any statement may do to an existing row: it stays in its slot, and received or
      failed is final. */
  predicate RowEvolves(a: Delivery, b: Delivery) {
    && b.target == a.target && b.slot == a.slot && b.expiresAt == a.expiresAt
    && (!Live(a) ==> b.status == a.status && b.receivedAt == a.receivedAt)
    && (Live(a) && a.receivedAt.None? ==> (b.status.Received? <==> b.receivedAt.Some?))
  }

  ghost predicate Evolves(d: map<nat, Delivery>, e: map<nat, Delivery>) {
    forall id :: id in e ==> id in d && RowEvolves(d[id], e[id])
  }

  lemma EvolvesTables(cfg: Config, db: Tables, e: map<nat, Delivery>, messages: map<nat, Message>)
    requires TablesOk(cfg, db)
    requires Evolves(db.deliveries, e)
    requires forall id :: id in e ==> id in messages && messages[id].to == db.messages[id].to
    requires forall id :: id in messages ==> id <= db.nextMessage
    ensures TablesOk(cfg, db.(deliveries := e, messages := messages))
  {
    var db' := db.(deliveries := e, messages := messages);
    forall id | id in e ensures RowOk(db', id) {
      assert RowOk(db, id) && RowEvolves(db.deliveries[id], e[id]);
    }
  }

  lemma PrunedRows(cfg: Config, db: Tables, now: int)
    ensures forall id :: id in Pruned(cfg, db, now).deliveries ==>
              id in db.deliveries && Pruned(cfg, db, now).deliveries[id] == ExpireDue(db.deliveries, now)[id]
              && id in Pruned(cfg, db, now).messages
    ensures forall id :: id in Pruned(cfg, db, now).messages ==>
              id in db.messages && Pruned(cfg, db, now).messages[id] == db.messages[id]
    ensures Evolves(db.deliveries, ExpireDue(db.deliveries, now))
    ensures Evolves(db.deliveries, Pruned(cfg, db, now).deliveries)
  {
  }

  lemma PrunedEvolves(cfg: Config, db: Tables, now: int)
    requires TablesOk(cfg, db)
    ensures Evolves(db.deliveries, Pruned(cfg, db, now).deliveries)
    ensures TablesOk(cfg, Pruned(cfg, db, now))
  {
    var p := Pruned(cfg, db, now);
    PrunedRows(cfg, db, now);
    forall id | id in p.deliveries ensures RowOk(p, id) {
      assert RowOk(db, id);
    }
  }

  // ---- tables ----

  lemma AcceptedTables(cfg: Config, db: Tables, a: Acceptance)
    requires TablesOk(cfg, db) && !Conflicts(db, a) && a.id == db.nextMessage + 1
    ensures TablesOk(cfg, Accepted(cfg, db, a))
  {
    hide DeliveryExpiry;
    var db' := Accepted(cfg, db, a);
    forall id | id in db'.deliveries ensures RowOk(db', id) {
      if id != a.id { assert RowOk(db, id); }
    }
    AcceptedSlots(cfg, db, a);
  }

  lemma AcceptedSlots(cfg: Config, db: Tables, a: Acceptance)
    requires SlotsUnique(db.deliveries) && !Conflicts(db, a)
    ensures SlotsUnique(Accepted(cfg, db, a).deliveries)
  {
    hide DeliveryExpiry;
    if a.message.to != "" {
      assert !SlotTaken(db.deliveries, a.message.to, CursorOf(db, a.message.to).next);
    }
  }

  lemma AdvancedRow(cfg: Config, db: Tables, agent: string, cursor: nat, now: int, id: nat)
    requires TablesOk(cfg, db) && id in db.deliveries
    requires CursorOf(db, agent).acked <= cursor <= CursorOf(db, agent).next
    ensures RowOk(Advanced(db, agent, cursor, now), id)
    ensures RowEvolves(db.deliveries[id], Advanced(db, agent, cursor, now).deliveries[id])
  {
    assert RowOk(db, id);
  }

  lemma AdvancedTables(cfg: Config, db: Tables, agent: string, cursor: nat, now: int)
    requires TablesOk(cfg, db)
    requires CursorOf(db, agent).acked <= cursor <= CursorOf(db, agent).next
    ensures TablesOk(cfg, Advanced(db, agent, cursor, now))
    ensures Evolves(db.deliveries, Advanced(db, agent, cursor, now).deliveries)
  {
    hide RowOk, RowEvolves;
    var db' := Advanced(db, agent, cursor, now);
    assert db'.deliveries.Keys == db.deliveries.Keys;
    forall id | id in db'.deliveries ensures RowOk(db', id) && RowEvolves(db.deliveries[id], db'.deliveries[id]) {
      AdvancedRow(cfg, db, agent, cursor, now, id);
    }
    SlotsKept(db.deliveries, db'.deliveries);
  }

  lemma SlotsKept(d: map<nat, Delivery>, e: map<nat, Delivery>)
    requires SlotsUnique(d) && Evolves(d, e)
    ensures SlotsUnique(e)
  {
  }

  lemma OfferedTables(cfg: Config, db: Tables, ids: set<nat>, now: int)
    requires TablesOk(cfg, db)
    ensures TablesOk(cfg, db.(messages := OfferAll(db.messages, ids, now)))
  {
    forall id | id in db.deliveries ensures RowEvolves(db.deliveries[id], db.deliveries[id]) && RowOk(db, id) {}
    EvolvesTables(cfg, db, db.deliveries, OfferAll(db.messages, ids, now));
  }

  lemma PolledTables(cfg: Config, db: Tables, agent: string, requested: int, limit: int, now: int)
    requires TablesOk(cfg, db)
    ensures TablesOk(cfg, PollOnce(cfg, db, agent, requested, limit, now).db)
    ensures Evolves(db.deliveries, PollOnce(cfg, db, agent, requested, limit, now).db.deliveries)
  {
    var cursor := Clamp(CursorOf(db, agent), requested);
    AdvancedTables(cfg, db, agent, cursor, now);
    var db1 := Advanced(db, agent, cursor, now);
    OfferedTables(cfg, db1, Elements(Chosen(cfg, db1, agent, cursor, limit, now)), now);
  }

  lemma ClaimEvolves(d: map<nat, Delivery>, chosen: set<nat>, now: int)
    ensures Evolves(d, ClaimRows(ExpireDue(d, now), chosen))
  {
  }

  lemma ClaimedTables(cfg: Config, db: Tables, chosen: set<nat>, now: int)
    requires TablesOk(cfg, db)
    ensures TablesOk(cfg, Claimed(db, chosen, now))
  {
    ClaimEvolves(db.deliveries, chosen, now);
    OfferedTables(cfg, db, chosen, now);
    var db1 := db.(messages := OfferAll(db.messages, chosen, now));
    RowsWritten(cfg, db1, ClaimRows(ExpireDue(db.deliveries, now), chosen));
  }

  lemma RowsWritten(cfg: Config, db: Tables, e: map<nat, Delivery>)
    requires TablesOk(cfg, db)
    requires Evolves(db.deliveries, e)
    ensures TablesOk(cfg, db.(deliveries := e))
  {
    forall id | id in db.deliveries ensures RowOk(db, id) {}
    EvolvesTables(cfg, db, e, db.messages);
  }

  lemma RecoveryEvolves(d: map<nat, Delivery>, now: int)
    ensures Evolves(d, Recover(d)) && Evolves(d, RecoverAtClose(d, now))
  {
  }

  lemma PushWritesEvolve(d: map<nat, Delivery>, id: nat, attempts: nat, now: int, retryAt: int)
    ensures Evolves(d, PushSucceeded(d, id, attempts, now))
    ensures Evolves(d, PushFailed(d, id, attempts, now, retryAt))
  {
  }

  /** The remaining statements touch one row or recover the attempting ones. */
  lemma PushTables(cfg: Config, db: Tables, id: nat, attempts: nat, now: int)
    requires TablesOk(cfg, db)
    ensures TablesOk(cfg, FailureWritten(cfg, db, id, attempts, now))
    ensures TablesOk(cfg, db.(deliveries := PushSucceeded(db.deliveries, id, attempts, now)))
  {
    hide TablesOk, Evolves, PushFailed, PushSucceeded, Backoff;
    PushWritesEvolve(db.deliveries, id, attempts, now, now + Backoff(cfg.baseBackoff, attempts));
    RowsWritten(cfg, db, FailureWritten(cfg, db, id, attempts, now).deliveries);
    RowsWritten(cfg, db, PushSucceeded(db.deliveries, id, attempts, now));
  }

  lemma RecoveredTables(cfg: Config, db: Tables, now: int)
    requires TablesOk(cfg, db)
    ensures TablesOk(cfg, db.(deliveries := Recover(db.deliveries)))
    ensures TablesOk(cfg, db.(deliveries := RecoverAtClose(db.deliveries, now)))
  {
    RecoveryEvolves(db.deliveries, now);
    RowsWritten(cfg, db, Recover(db.deliveries));
    RowsWritten(cfg, db, RecoverAtClose(db.deliveries, now));
  }

  lemma ReportedTables(cfg: Config, s: State, id: nat, actor: string, next: Message, now: int)
    requires Inv(cfg, s) && Enabled(cfg, s, Report(id, actor, next), now)
    ensures Evolves(s.db.deliveries, ReceiveRow(s.db.deliveries, id, now))
    ensures TablesOk(cfg,
                     s.db.(messages := s.db.messages[id := next], deliveries := ReceiveRow(s.db.deliveries, id, now)))
  {
    hide LeaseOk, ShutdownOk, ReceiptsAgree, SlotsUnique;
    forall i | i in s.db.deliveries ensures RowOk(s.db, i) {}
    EvolvesTables(cfg, s.db, ReceiveRow(s.db.deliveries, id, now), s.db.messages[id := next]);
  }

  lemma RestartTables(cfg: Config, db: Tables, now: int)
    requires TablesOk(cfg, db)
    ensures TablesOk(cfg, Reopened(cfg, db, now))
  {
    RecoveredTables(cfg, db, now);
    PrunedEvolves(cfg, db.(deliveries := Recover(db.deliveries)), now);
  }

  lemma PushStepTables(cfg: Config, s: State, l: Label, now: int)
    requires TablesOk(cfg, s.db) && Enabled(cfg, s, l, now)
    requires l.Enqueue? || l.Succeed? || l.GiveUp? || l.WriteFailure?
    ensures TablesOk(cfg, NextTables(cfg, s, l, now))
  {
    hide TablesOk, NextProcess;
    if l.Succeed? {
      hide FailureWritten;
      PushTables(cfg, s.db, l.done, l.attempts, now);
    } else {
      hide FailureWritten;
      var id := if l.Enqueue? then l.job else if l.GiveUp? then l.failed else l.late;
      PushTables(cfg, s.db, id, if l.GiveUp? then l.tries else 0, now);
    }
  }

  lemma TablesStep(cfg: Config, s: State, l: Label, now: int)
    requires Inv(cfg, s) && Enabled(cfg, s, l, now)
    ensures TablesOk(cfg, NextTables(cfg, s, l, now))
  {
    hide RowOk, SlotsUnique, LeaseOk, ShutdownOk, ReceiptsAgree, PollOnce, Pruned, Conflicts, Plan;
    var db := s.db;
    if l.Commit? {
      var o := Decide(cfg, db, s.process.value, l.send, l.dbFails, now);
      if o.Committed? { AcceptedTables(cfg, db, o.a); }
    }
    else if l.PollInbox? { PolledTables(cfg, db, l.agent, l.requested, l.limit, now); }
    else if l.Prune? { PrunedEvolves(cfg, db, now); }
    else if l.Restart? { RestartTables(cfg, db, now); }
    else if l.Report? { ReportedTables(cfg, s, l.id, l.actor, l.next, now); }
    else if l.Claim? { ClaimedTables(cfg, db, l.chosen, now); }
    else if l.RecoverLeases? { RecoveredTables(cfg, db, now); }
    else if l.Enqueue? || l.Succeed? || l.GiveUp? || l.WriteFailure? { PushStepTables(cfg, s, l, now); }
  }

  lemma UnchangedEvolves(d: map<nat, Delivery>)
    ensures Evolves(d, d)
  {
  }

  lemma RestartEvolves(cfg: Config, db: Tables, now: int)
    requires TablesOk(cfg, db)
    ensures Evolves(db.deliveries, Pruned(cfg, db.(deliveries := Recover(db.deliveries)), now).deliveries)
  {
    RecoveryEvolves(db.deliveries, now);
    RecoveredTables(cfg, db, now);
    PrunedEvolves(cfg, db.(deliveries := Recover(db.deliveries)), now);
  }

  lemma EvolvesPush(cfg: Config, s: State, l: Label, now: int)
    requires Enabled(cfg, s, l, now)
    requires l.Enqueue? || l.Succeed? || l.GiveUp? || l.WriteFailure?
    ensures Evolves(s.db.deliveries, NextTables(cfg, s, l, now).deliveries)
  {
    hide Evolves, PushFailed, PushSucceeded, Backoff, Decide, Accepted, PollOnce, Pruned;
    var d, e := s.db.deliveries, NextTables(cfg, s, l, now).deliveries;
    var id := if l.Enqueue? then l.job else if l.Succeed? then l.done else if l.GiveUp? then l.failed else l.late;
    var n := if l.Succeed? then l.attempts else if l.GiveUp? then l.tries else 0;
    var retryAt := now + Backoff(cfg.baseBackoff, n);
    PushWritesEvolve(d, id, n, now, retryAt);
    UnchangedEvolves(d);
    assert e == d || e == PushFailed(d, id, n, now, retryAt) || e == PushSucceeded(d, id, n, now);
  }

  /** Apart from acceptance, which adds a row, every step only evolves rows. */
  lemma EvolvesStep(cfg: Config, s: State, l: Label, now: int)
    requires Inv(cfg, s) && Enabled(cfg, s, l, now) && !l.Commit?
    ensures Evolves(s.db.deliveries, NextTables(cfg, s, l, now).deliveries)
  {
    hide Evolves, RowOk, SlotsUnique, LeaseOk, ShutdownOk, ProjectionOk, ReceiptsAgree, PollOnce, Pruned;
    var db := s.db;
    if l.PollInbox? { PolledTables(cfg, db, l.agent, l.requested, l.limit, now); }
    else if l.Prune? { PrunedEvolves(cfg, db, now); }
    else if l.Restart? { RestartEvolves(cfg, db, now); }
    else if l.Report? { ReportedTables(cfg, s, l.id, l.actor, l.next, now); }
    else if l.Claim? { ClaimEvolves(db.deliveries, l.chosen, now); }
    else if l.RecoverLeases? { RecoveryEvolves(db.deliveries, now); }
    else if l.Enqueue? || l.Succeed? || l.GiveUp? || l.WriteFailure? { EvolvesPush(cfg, s, l, now); }
    else { UnchangedEvolves(db.deliveries); }
  }

  // ---- push lease ----

  /** Steps that neither create nor end a job only settle rows. */
  ghost predicate OnlySettles(d: map<nat, Delivery>, e: map<nat, Delivery>) {
    forall id :: id in e ==> id in d && (e[id].status == d[id].status || !Live(e[id]))
  }

  lemma LeaseKept(d: map<nat, Delivery>, e: map<nat, Delivery>, top: nat, jobs: multiset<nat>, closed: bool)
    requires Leased(d, top, jobs, closed) && OnlySettles(d, e)
    ensures Leased(e, top, jobs, closed)
  {
  }

  /** A new row comes with its job, without one and pending, or after shutdown has begun. */
  lemma LeaseAdded(d: map<nat, Delivery>, top: nat, jobs: multiset<nat>, closed: bool, id: nat, row: Delivery)
    requires Leased(d, top, jobs, closed) && id > top && !(id in d)
    ensures row.status.Pending? ==> Leased(d[id := row], id, jobs, closed)
    ensures row.status.Attempting? ==> Leased(d[id := row], id, jobs + multiset{id}, closed)
    ensures row.status.Attempting? && closed ==> Leased(d[id := row], id, jobs, closed)
  {
  }

  lemma ChosenDue(d: map<nat, Delivery>, chosen: set<nat>, pushable: set<string>, now: int, id: nat)
    requires FirstBatch(d, chosen, pushable, now) && id in chosen
    ensures id in d && Claimable(d[id], pushable, now)
  {
    assert id in set i | i in d && Claimable(d[i], pushable, now);
  }

  lemma LeaseClaimed(d: map<nat, Delivery>, top: nat, jobs: multiset<nat>, closed: bool, chosen: set<nat>)
    requires Leased(d, top, jobs, closed)
    requires forall id :: id in chosen ==> id in d && d[id].status.Pending? && id <= top
    ensures Leased(ClaimRows(d, chosen), top, jobs + multiset(chosen), closed)
  {
    var e := ClaimRows(d, chosen);
    var jobs' := jobs + multiset(chosen);
    forall id | id in jobs' ensures jobs'[id] <= 1 && id <= top && (id in e ==> !e[id].status.Pending?) {
      if id in chosen { assert id !in jobs; }
    }
  }

  /** A job ends together with the failure or success write on its row. */
  lemma LeaseEnded(d: map<nat, Delivery>, e: map<nat, Delivery>, top: nat, jobs: multiset<nat>, closed: bool, id: nat)
    requires Leased(d, top, jobs, closed)
    requires e.Keys == d.Keys && forall i :: i in e && i != id ==> e[i] == d[i]
    requires id in e ==> !e[id].status.Attempting?
    ensures Leased(e, top, jobs - multiset{id}, closed)
  {
    assert jobs[id] <= 1;
  }

  /** When every worker and loop has stopped there is no job left. */
  lemma NoJobsLeft(p: Memory)
    requires ShutdownOk(p) && p.queueClosed
    ensures Jobs(p) == multiset{}
  {
  }

  lemma WriteOne(d: map<nat, Delivery>, id: nat, attempts: nat, now: int, retryAt: int)
    ensures var e := PushFailed(d, id, attempts, now, retryAt);
            && e.Keys == d.Keys && (forall i :: i in e && i != id ==> e[i] == d[i])
            && (id in e ==> !e[id].status.Attempting?)
    ensures var e := PushSucceeded(d, id, attempts, now);
            && e.Keys == d.Keys && (forall i :: i in e && i != id ==> e[i] == d[i])
            && (id in e ==> !e[id].status.Attempting?)
  {
  }

  /** What the lease lemmas assume, and what each establishes for one kind of label. */
  ghost predicate LeaseBefore(cfg: Config, s: State, l: Label, now: int) {
    && Enabled(cfg, s, l, now) && s.process.Some?
    && TablesOk(cfg, s.db) && LeaseOk(s.db, s.process.value) && ProjectionOk(s.db, s.process.value)
    && ShutdownOk(s.process.value)
  }

  ghost predicate LeaseAfter(cfg: Config, s: State, l: Label, now: int)
    requires Enabled(cfg, s, l, now)
  {
    var next := NextProcess(cfg, s, l, now);
    next.Some? ==> LeaseOk(NextTables(cfg, s, l, now), next.value)
  }

  lemma LeaseCommit(cfg: Config, s: State, l: Label, now: int)
    requires LeaseBefore(cfg, s, l, now) && l.Commit?
    ensures LeaseAfter(cfg, s, l, now)
  {
    hide Leased, SlotsUnique, ShutdownOk, Conflicts;
    var db, p := s.db, s.process.value;
    var o := Decide(cfg, db, p, l.send, l.dbFails, now);
    if o.Committed? {
      var a := o.a;
      assert Jobs(p.(held := Some(a))) == Jobs(p) + (if a.push && !p.closed then multiset{a.id} else multiset{});
      forall id | id in db.deliveries ensures id != a.id { assert RowOk(db, id); }
      if a.message.to != "" {
        LeaseAdded(db.deliveries, db.nextMessage, Jobs(p), p.closed, a.id, NewDelivery(db, a));
      } else {
        LeaseTop(db.deliveries, db.nextMessage, a.id, Jobs(p), p.closed);
      }
    }
  }

  /** An acceptance without a row only moves the counter. */
  lemma LeaseTop(d: map<nat, Delivery>, top: nat, next: nat, jobs: multiset<nat>, closed: bool)
    requires Leased(d, top, jobs, closed) && top <= next
    ensures Leased(d, next, jobs, closed)
  {
  }

  lemma LeasePublish(cfg: Config, s: State, l: Label, now: int)
    requires LeaseBefore(cfg, s, l, now) && l.Publish?
    ensures LeaseAfter(cfg, s, l, now)
  {
    hide Leased, TablesOk, ShutdownOk, ProjectionOk;
    var p := s.process.value;
    JobsPublished(cfg, p);
    assert NextTables(cfg, s, l, now) == s.db;
  }

  lemma JobsPublished(cfg: Config, p: Memory)
    requires p.held.Some?
    ensures Jobs(Published(cfg, p, p.held.value)) == Jobs(p)
    ensures Published(cfg, p, p.held.value).closed == p.closed
  {
    var id, p' := p.held.value.id, Published(cfg, p, p.held.value);
    var q := multiset(p.queue);
    MoveOne(HeldJob(p), p.claimed, q, p.running, p.detached);
    assert p'.claimed == p.claimed && p'.running == p.running && HeldJob(p') == multiset{};
    if HeldJob(p) != multiset{} && QueueOpen(cfg, p) {
      assert multiset(p'.queue) == q + multiset{id} && p'.detached == p.detached;
    } else {
      assert p'.queue == p.queue && p'.detached == p.detached + HeldJob(p);
    }
  }

  lemma MoveOne(one: multiset<nat>, c: multiset<nat>, q: multiset<nat>, r: multiset<nat>, d: multiset<nat>)
    ensures one + c + q + r + d == multiset{} + c + (q + one) + r + d == multiset{} + c + q + r + (d + one)
  {
  }

  lemma LeaseClaim(cfg: Config, s: State, l: Label, now: int)
    requires LeaseBefore(cfg, s, l, now) && l.Claim?
    ensures LeaseAfter(cfg, s, l, now)
  {
    hide Leased, FirstBatch, SlotsUnique, ShutdownOk, ProjectionOk, ReceiptsAgree, Decide, Accepted, PollOnce, Pruned;
    var db, p, chosen := s.db, s.process.value, l.chosen;
    var d := ExpireDue(db.deliveries, now);
    LeaseKept(db.deliveries, d, db.nextMessage, Jobs(p), p.closed);
    forall id | id in chosen ensures id in d && d[id].status.Pending? && id <= db.nextMessage {
      ChosenDue(d, chosen, l.pushable, now, id);
      assert RowOk(db, id);
    }
    LeaseClaimed(d, db.nextMessage, Jobs(p), p.closed, chosen);
    assert Jobs(p.(claimed := p.claimed + multiset(chosen))) == Jobs(p) + multiset(chosen);
  }

  lemma LeaseStart(cfg: Config, s: State, l: Label, now: int)
    requires LeaseBefore(cfg, s, l, now) && l.Start?
    ensures LeaseAfter(cfg, s, l, now)
  {
    hide Leased, TablesOk, ShutdownOk, ProjectionOk;
    var p := s.process.value;
    JobsStarted(p);
    assert NextTables(cfg, s, l, now) == s.db;
  }

  lemma JobsStarted(p: Memory)
    requires |p.queue| > 0
    ensures Jobs(Started(p)) == Jobs(p)
  {
    assert p.queue == [p.queue[0]] + p.queue[1..];
    assert multiset(p.queue) == multiset{p.queue[0]} + multiset(p.queue[1..]);
    MoveOne(HeldJob(p), p.claimed, multiset(p.queue[1..]), p.running, p.detached);
  }

  lemma LeaseEnqueue(cfg: Config, s: State, l: Label, now: int)
    requires LeaseBefore(cfg, s, l, now) && l.Enqueue?
    ensures LeaseAfter(cfg, s, l, now)
  {
    var db, p, id := s.db, s.process.value, l.job;
    var p' := Scheduled(cfg, db, p, id);
    if id in db.messages && QueueOpen(cfg, p) {
      JobsQueued(cfg, db, p, id);
    } else {
      JobsUnqueued(cfg, db, p, id);
      LeaseFailed(cfg, db, p, p', id, 0, now);
    }
  }

  lemma LeaseFailed(cfg: Config, db: Tables, p: Memory, p': Memory, id: nat, attempts: nat, now: int)
    requires LeaseOk(db, p) && p'.closed == p.closed && Jobs(p') == Jobs(p) - multiset{id}
    ensures LeaseOk(FailureWritten(cfg, db, id, attempts, now), p')
    ensures LeaseOk(db.(deliveries := PushSucceeded(db.deliveries, id, attempts, now)), p')
  {
    hide Leased, Jobs, Backoff, PushFailed, PushSucceeded;
    var retryAt := now + Backoff(cfg.baseBackoff, attempts);
    WriteOne(db.deliveries, id, attempts, now, retryAt);
    LeaseEnded(db.deliveries, PushFailed(db.deliveries, id, attempts, now, retryAt), db.nextMessage, Jobs(p),
               p.closed, id);
    LeaseEnded(db.deliveries, PushSucceeded(db.deliveries, id, attempts, now), db.nextMessage, Jobs(p), p.closed, id);
  }

  lemma JobsQueued(cfg: Config, db: Tables, p: Memory, id: nat)
    requires id in p.claimed && id in db.messages && QueueOpen(cfg, p)
    ensures Jobs(Scheduled(cfg, db, p, id)) == Jobs(p)
  {
    assert multiset(p.queue + [id]) == multiset(p.queue) + multiset{id};
    ClaimMoves(HeldJob(p), p.claimed, multiset(p.queue), p.running, p.detached, id);
  }

  lemma ClaimMoves(h: multiset<nat>, c: multiset<nat>, q: multiset<nat>, r: multiset<nat>, d: multiset<nat>, id: nat)
    requires id in c
    ensures h + (c - multiset{id}) + (q + multiset{id}) + r + d == h + c + q + r + d
    ensures h + (c - multiset{id}) + q + r + d == h + c + q + r + d - multiset{id}
  {
  }

  lemma JobsUnqueued(cfg: Config, db: Tables, p: Memory, id: nat)
    requires id in p.claimed && !(id in db.messages && QueueOpen(cfg, p))
    ensures Jobs(Scheduled(cfg, db, p, id)) == Jobs(p) - multiset{id}
  {
    hide ProjectAll;
    ClaimMoves(HeldJob(p), p.claimed, multiset(p.queue), p.running, p.detached, id);
  }

  lemma TakeOne(a: multiset<nat>, b: multiset<nat>, c: multiset<nat>, id: nat)
    requires id in b
    ensures a + (b - multiset{id}) + c == a + b + c - multiset{id}
  {
  }

  lemma JobsRan(p: Memory, id: nat)
    requires id in p.running
    ensures Jobs(JobDone(p, id)) == Jobs(p) - multiset{id}
  {
    TakeOne(Jobs(p.(running := multiset{}, detached := multiset{})), p.running, p.detached, id);
  }

  lemma JobsDetached(p: Memory, id: nat)
    requires id in p.detached
    ensures Jobs(DetachedDone(p, id)) == Jobs(p) - multiset{id}
  {
    TakeOne(Jobs(p.(detached := multiset{})), p.detached, multiset{}, id);
  }

  lemma LeaseFinished(cfg: Config, s: State, l: Label, now: int)
    requires LeaseBefore(cfg, s, l, now)
    requires l.Succeed? || l.GiveUp? || l.WriteFailure?
    ensures LeaseAfter(cfg, s, l, now)
  {
    hide LeaseBefore, LeaseAfter;
    if l.Succeed? { LeaseSucceeded(cfg, s, l, now); }
    else if l.GiveUp? { LeaseGivenUp(cfg, s, l, now); }
    else { LeaseWritten(cfg, s, l, now); }
  }

  lemma LeaseSucceeded(cfg: Config, s: State, l: Label, now: int)
    requires LeaseBefore(cfg, s, l, now) && l.Succeed?
    ensures LeaseAfter(cfg, s, l, now)
  {
    hide LeaseOk, Jobs, TablesOk, ShutdownOk, ProjectionOk, PushSucceeded;
    JobsRan(s.process.value, l.done);
    LeaseFailed(cfg, s.db, s.process.value, JobDone(s.process.value, l.done), l.done, l.attempts, now);
  }

  lemma LeaseGivenUp(cfg: Config, s: State, l: Label, now: int)
    requires LeaseBefore(cfg, s, l, now) && l.GiveUp?
    ensures LeaseAfter(cfg, s, l, now)
  {
    hide LeaseOk, Jobs, TablesOk, ShutdownOk, ProjectionOk, FailureWritten;
    JobsRan(s.process.value, l.failed);
    LeaseFailed(cfg, s.db, s.process.value, JobDone(s.process.value, l.failed), l.failed, l.tries, now);
  }

  lemma LeaseWritten(cfg: Config, s: State, l: Label, now: int)
    requires LeaseBefore(cfg, s, l, now) && l.WriteFailure?
    ensures LeaseAfter(cfg, s, l, now)
  {
    hide LeaseOk, Jobs, TablesOk, ShutdownOk, ProjectionOk, FailureWritten;
    JobsDetached(s.process.value, l.late);
    LeaseFailed(cfg, s.db, s.process.value, DetachedDone(s.process.value, l.late), l.late, 0, now);
  }

  /** Polls, reports, pruning and the stages of shutdown leave every job where it is. */
  predicate Quiet(l: Label) {
    l.PollInbox? || l.Report? || l.Prune? || l.Tidy? || l.StopLoops? || l.BeginClose? || l.CloseQueue?
  }

  lemma AckSettles(d: map<nat, Delivery>, agent: string, cursor: nat, id: nat, now: int)
    ensures OnlySettles(d, AckPrefix(d, agent, cursor, now)) && OnlySettles(d, ReceiveRow(d, id, now))
    ensures OnlySettles(d, d)
  {
  }

  lemma PollSettles(cfg: Config, db: Tables, agent: string, requested: int, limit: int, now: int)
    ensures OnlySettles(db.deliveries, PollOnce(cfg, db, agent, requested, limit, now).db.deliveries)
    ensures PollOnce(cfg, db, agent, requested, limit, now).db.nextMessage == db.nextMessage
  {
    AckSettles(db.deliveries, agent, Clamp(CursorOf(db, agent), requested), 0, now);
  }

  lemma PruneSettles(cfg: Config, db: Tables, now: int)
    requires TablesOk(cfg, db)
    ensures OnlySettles(db.deliveries, Pruned(cfg, db, now).deliveries)
  {
    PrunedRows(cfg, db, now);
  }

  lemma QuietSettles(cfg: Config, s: State, l: Label, now: int)
    requires TablesOk(cfg, s.db) && Enabled(cfg, s, l, now) && Quiet(l)
    ensures OnlySettles(s.db.deliveries, NextTables(cfg, s, l, now).deliveries)
    ensures NextTables(cfg, s, l, now).nextMessage == s.db.nextMessage
  {
    hide TablesOk, OnlySettles, PollOnce, Pruned;
    if l.PollInbox? { PollSettles(cfg, s.db, l.agent, l.requested, l.limit, now); }
    else if l.Prune? { PruneSettles(cfg, s.db, now); PrunedCounter(cfg, s.db, now); }
    else { AckSettles(s.db.deliveries, "", 0, if l.Report? then l.id else 0, now); }
  }

  lemma PrunedCounter(cfg: Config, db: Tables, now: int)
    ensures Pruned(cfg, db, now).nextMessage == db.nextMessage
  {
  }

  lemma LeaseQuiet(cfg: Config, s: State, l: Label, now: int)
    requires LeaseBefore(cfg, s, l, now) && Quiet(l)
    ensures LeaseAfter(cfg, s, l, now)
  {
    hide Leased, TablesOk, ShutdownOk, ProjectionOk, OnlySettles, PollOnce, Pruned, ReceiveRow, Jobs;
    var p, next := s.process.value, NextProcess(cfg, s, l, now).value;
    QuietSettles(cfg, s, l, now);
    QuietJobs(cfg, s, l, now);
    LeaseKept(s.db.deliveries, NextTables(cfg, s, l, now).deliveries, s.db.nextMessage, Jobs(p), p.closed);
    if l.BeginClose? { LeaseCloses(NextTables(cfg, s, l, now).deliveries, s.db.nextMessage, Jobs(p), p.closed); }
  }

  lemma QuietJobs(cfg: Config, s: State, l: Label, now: int)
    requires Enabled(cfg, s, l, now) && s.process.Some? && Quiet(l)
    ensures NextProcess(cfg, s, l, now).Some?
    ensures Jobs(NextProcess(cfg, s, l, now).value) == Jobs(s.process.value)
    ensures NextProcess(cfg, s, l, now).value.closed == (s.process.value.closed || l.BeginClose?)
  {
    if l.PollInbox? || l.Report? || l.Prune? || l.Tidy? { CallJobs(cfg, s, l, now); }
    else { StageJobs(cfg, s, l, now); }
  }

  /** The places where jobs are. */
  predicate SameJobs(p: Memory, q: Memory) {
    && q.held == p.held && q.claimed == p.claimed && q.queue == p.queue
    && q.running == p.running && q.detached == p.detached
  }

  lemma JobsOfSame(p: Memory, q: Memory)
    requires SameJobs(p, q) && (q.closed == p.closed || p.held.None?)
    ensures Jobs(q) == Jobs(p)
  {
  }

  lemma CallJobs(cfg: Config, s: State, l: Label, now: int)
    requires Enabled(cfg, s, l, now) && s.process.Some? && (l.PollInbox? || l.Report? || l.Prune? || l.Tidy?)
    ensures NextProcess(cfg, s, l, now).Some?
    ensures Jobs(NextProcess(cfg, s, l, now).value) == Jobs(s.process.value)
    ensures NextProcess(cfg, s, l, now).value.closed == s.process.value.closed
  {
    hide Jobs, NextTables;
    CallFields(cfg, s, l, now);
    JobsOfSame(s.process.value, NextProcess(cfg, s, l, now).value);
  }

  lemma CallFields(cfg: Config, s: State, l: Label, now: int)
    requires Enabled(cfg, s, l, now) && s.process.Some? && (l.PollInbox? || l.Report? || l.Prune? || l.Tidy?)
    ensures NextProcess(cfg, s, l, now).Some? && SameJobs(s.process.value, NextProcess(cfg, s, l, now).value)
    ensures NextProcess(cfg, s, l, now).value.closed == s.process.value.closed
  {
    hide PollOnce, ProjectAll, LiveEntries, NextTables;
  }

  lemma StageJobs(cfg: Config, s: State, l: Label, now: int)
    requires Enabled(cfg, s, l, now) && s.process.Some? && (l.StopLoops? || l.BeginClose? || l.CloseQueue?)
    ensures NextProcess(cfg, s, l, now).Some?
    ensures Jobs(NextProcess(cfg, s, l, now).value) == Jobs(s.process.value)
    ensures NextProcess(cfg, s, l, now).value.closed == (s.process.value.closed || l.BeginClose?)
  {
    hide Jobs, NextTables;
    StageFields(cfg, s, l, now);
    JobsOfSame(s.process.value, NextProcess(cfg, s, l, now).value);
  }

  lemma StageFields(cfg: Config, s: State, l: Label, now: int)
    requires Enabled(cfg, s, l, now) && s.process.Some? && (l.StopLoops? || l.BeginClose? || l.CloseQueue?)
    ensures NextProcess(cfg, s, l, now).Some? && SameJobs(s.process.value, NextProcess(cfg, s, l, now).value)
    ensures NextProcess(cfg, s, l, now).value.closed == (s.process.value.closed || l.BeginClose?)
    ensures l.BeginClose? ==> s.process.value.held.None?
  {
    hide NextTables;
  }

  lemma LeaseCloses(d: map<nat, Delivery>, top: nat, jobs: multiset<nat>, closed: bool)
    requires Leased(d, top, jobs, closed)
    ensures Leased(d, top, jobs, true)
  {
  }

  lemma LeaseRecovered(cfg: Config, s: State, l: Label, now: int)
    requires LeaseBefore(cfg, s, l, now) && l.RecoverLeases?
    ensures LeaseAfter(cfg, s, l, now)
  {
    NoJobsLeft(s.process.value);
    NoJobsLeft(NextProcess(cfg, s, l, now).value);
  }

  lemma LeaseStep(cfg: Config, s: State, l: Label, now: int)
    requires LeaseBefore(cfg, s, l, now)
    ensures LeaseAfter(cfg, s, l, now)
  {
    if l.Commit? { LeaseCommit(cfg, s, l, now); }
    else if l.Publish? { LeasePublish(cfg, s, l, now); }
    else if l.Claim? { LeaseClaim(cfg, s, l, now); }
    else if l.Enqueue? { LeaseEnqueue(cfg, s, l, now); }
    else if l.Start? { LeaseStart(cfg, s, l, now); }
    else if l.Succeed? || l.GiveUp? || l.WriteFailure? { LeaseFinished(cfg, s, l, now); }
    else if l.RecoverLeases? { LeaseRecovered(cfg, s, l, now); }
    else if Quiet(l) { LeaseQuiet(cfg, s, l, now); }
  }
}
