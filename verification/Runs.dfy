/** Theorems over whole runs of the delivery protocol, with crashes and restarts anywhere. */
module Runs {
  import opened Model
  import opened Durable
  import opened Stamps
  import opened Batch
  import opened Protocol
  import opened Safety
  import opened Invariant

  /** A run starts with no process on tables that satisfy the invariant. */
  datatype Run = Run(states: seq<State>, labels: seq<Label>)

  ghost predicate StepAt(cfg: Config, r: Run, i: nat)
    requires |r.states| == |r.labels| + 1 && i < |r.labels|
  {
    && Enabled(cfg, r.states[i], r.labels[i], r.states[i + 1].clock)
    && r.states[i + 1] == Apply(cfg, r.states[i], r.labels[i], r.states[i + 1].clock)
  }

  ghost predicate IsRun(cfg: Config, r: Run) {
    && |r.states| == |r.labels| + 1
    && r.states[0].process.None? && Inv(cfg, r.states[0])
    && (forall i :: 0 <= i < |r.labels| ==> StepAt(cfg, r, i))
  }

  lemma {:induction false} Always(cfg: Config, r: Run, i: nat)
    requires IsRun(cfg, r) && i < |r.states|
    ensures Inv(cfg, r.states[i])
  {
    if i > 0 {
      Always(cfg, r, i - 1);
      assert StepAt(cfg, r, i - 1);
      Step(cfg, r.states[i - 1], r.labels[i - 1], r.states[i].clock);
    }
  }

  // ---- no loss ----

  predicate LiveIn(s: State, id: nat) {
    id in s.db.deliveries && Live(s.db.deliveries[id])
  }

  /** The events that prove receipt of a row: a successful push, a report by the recipient,
      or a poll by the recipient whose committed cursor has passed the row's slot. */
  predicate ProvesReceipt(s: State, l: Label, id: nat)
    requires id in s.db.deliveries
  {
    var row := s.db.deliveries[id];
    || (l.Succeed? && l.done == id)
    || (l.Report? && l.id == id && l.actor == row.target)
    || (l.PollInbox? && l.agent == row.target && row.slot < Clamp(CursorOf(s.db, l.agent), l.requested))
  }

  /** A row leaves the live statuses by a proof of receipt, or by failing at or after its
      deadline. */
  predicate Settles(s: State, l: Label, t: State, id: nat)
    requires id in s.db.deliveries
  {
    || (ProvesReceipt(s, l, id) && id in t.db.deliveries && t.db.deliveries[id].status.Received?
        && t.db.deliveries[id].receivedAt == Some(t.clock))
    || (Due(s.db.deliveries[id].expiresAt, t.clock) && (id in t.db.deliveries ==> t.db.deliveries[id].status.Failed?))
  }

  /** A live row keeps its slot and its deadline. */
  predicate SameRow(s: State, t: State, id: nat)
    requires id in s.db.deliveries && id in t.db.deliveries
  {
    var a, b := s.db.deliveries[id], t.db.deliveries[id];
    a.target == b.target && a.slot == b.slot && a.expiresAt == b.expiresAt
  }

  ghost predicate LiveOrSettles(cfg: Config, s: State, l: Label, now: int, id: nat)
    requires Enabled(cfg, s, l, now) && LiveIn(s, id)
  {
    var t := Apply(cfg, s, l, now);
    if LiveIn(t, id) then SameRow(s, t, id) else Settles(s, l, t, id)
  }

  lemma SettlesBySuccess(cfg: Config, s: State, l: Label, now: int, id: nat)
    requires Enabled(cfg, s, l, now) && LiveIn(s, id) && (l.Succeed? || l.RecoverLeases?)
    ensures LiveOrSettles(cfg, s, l, now, id)
  {
  }

  lemma FailureSettles(cfg: Config, db: Tables, failed: nat, attempts: nat, now: int, id: nat)
    requires id in db.deliveries && Live(db.deliveries[id])
    ensures id in FailureWritten(cfg, db, failed, attempts, now).deliveries
    ensures var b := FailureWritten(cfg, db, failed, attempts, now).deliveries[id];
            if Live(b) then b.target == db.deliveries[id].target && b.slot == db.deliveries[id].slot
                            && b.expiresAt == db.deliveries[id].expiresAt
            else b.status.Failed? && Due(db.deliveries[id].expiresAt, now)
  {
  }

  lemma SettlesByFailure(cfg: Config, s: State, l: Label, now: int, id: nat)
    requires Enabled(cfg, s, l, now) && LiveIn(s, id) && (l.Enqueue? || l.GiveUp? || l.WriteFailure?)
    ensures LiveOrSettles(cfg, s, l, now, id)
  {
    var failed := if l.Enqueue? then l.job else if l.GiveUp? then l.failed else l.late;
    var n := if l.GiveUp? then l.tries else 0;
    FailureSettles(cfg, s.db, failed, n, now, id);
    var t := Apply(cfg, s, l, now);
    assert t.db == s.db || t.db == FailureWritten(cfg, s.db, failed, n, now);
    if LiveIn(t, id) {
      assert SameRow(s, t, id);
    } else {
      assert Settles(s, l, t, id);
    }
  }

  /** A scan over the rows leaves a live row as it is, takes or returns its lease, or fails
      it at or after its deadline. */
  predicate ScanOutcome(a: Delivery, e: map<nat, Delivery>, id: nat, now: int) {
    if id in e && Live(e[id])
    then e[id].target == a.target && e[id].slot == a.slot && e[id].expiresAt == a.expiresAt
    else Due(a.expiresAt, now) && (id in e ==> e[id].status.Failed?)
  }

  lemma ScanRow(cfg: Config, db: Tables, chosen: set<nat>, now: int, id: nat)
    requires id in db.deliveries && id in db.messages && Live(db.deliveries[id])
    ensures ScanOutcome(db.deliveries[id], Claimed(db, chosen, now).deliveries, id, now)
    ensures ScanOutcome(db.deliveries[id], Pruned(cfg, db, now).deliveries, id, now)
  {
    if id in Pruned(cfg, db, now).deliveries {
      assert Pruned(cfg, db, now).deliveries[id] == ExpireDue(db.deliveries, now)[id];
    }
  }

  lemma ReopenRow(cfg: Config, db: Tables, now: int, id: nat)
    requires id in db.deliveries && Live(db.deliveries[id]) && RowOk(db, id)
    ensures ScanOutcome(db.deliveries[id], Reopened(cfg, db, now).deliveries, id, now)
  {
    var db1 := db.(deliveries := Recover(db.deliveries));
    ScanRow(cfg, db1, {}, now, id);
  }

  lemma SettlesByScan(s: State, l: Label, t: State, now: int, id: nat)
    requires LiveIn(s, id) && t.clock == now
    requires ScanOutcome(s.db.deliveries[id], t.db.deliveries, id, now)
    ensures if LiveIn(t, id) then SameRow(s, t, id) else Settles(s, l, t, id)
  {
  }

  lemma SettlesByClaim(cfg: Config, s: State, l: Label, now: int, id: nat)
    requires Enabled(cfg, s, l, now) && LiveIn(s, id) && id in s.db.messages && (l.Claim? || l.Prune?)
    ensures LiveOrSettles(cfg, s, l, now, id)
  {
    ScanRow(cfg, s.db, if l.Claim? then l.chosen else {}, now, id);
    SettlesByScan(s, l, Apply(cfg, s, l, now), now, id);
  }

  lemma SettlesByRestart(cfg: Config, s: State, l: Label, now: int, id: nat)
    requires Enabled(cfg, s, l, now) && LiveIn(s, id) && RowOk(s.db, id) && l.Restart?
    ensures LiveOrSettles(cfg, s, l, now, id)
  {
    ReopenRow(cfg, s.db, now, id);
    SettlesByScan(s, l, Apply(cfg, s, l, now), now, id);
  }

  lemma SettlesByPoll(cfg: Config, s: State, l: Label, now: int, id: nat)
    requires Enabled(cfg, s, l, now) && LiveIn(s, id) && l.PollInbox?
    ensures LiveOrSettles(cfg, s, l, now, id)
  {
    var c := Clamp(CursorOf(s.db, l.agent), l.requested);
    var t := Apply(cfg, s, l, now);
    assert t.db.deliveries == Advanced(s.db, l.agent, c, now).deliveries;
    assert t.db.deliveries[id] == s.db.deliveries[id] || t.db.deliveries[id].status.Received?;
  }

  lemma SettlesByReport(cfg: Config, s: State, l: Label, now: int, id: nat)
    requires Inv(cfg, s) && Enabled(cfg, s, l, now) && LiveIn(s, id) && l.Report?
    ensures LiveOrSettles(cfg, s, l, now, id)
  {
    hide LeaseOk, ShutdownOk, ReceiptsAgree, SlotsUnique, NextProcess;
    assert RowOk(s.db, id);
    assert l.id == id ==> s.process.value.messages[id].to == s.db.deliveries[id].target;
  }

  lemma SettlesOtherwise(cfg: Config, s: State, l: Label, now: int, id: nat)
    requires Enabled(cfg, s, l, now) && LiveIn(s, id) && id <= s.db.nextMessage
    requires l.Commit? ==> s.process.value.nextMessage == s.db.nextMessage
    requires || l.Commit? || l.Publish? || l.Tidy? || l.Start?
             || l.StopLoops? || l.BeginClose? || l.CloseQueue? || l.FinishClose? || l.Crash?
    ensures LiveOrSettles(cfg, s, l, now, id)
  {
    hide NextProcess;
    if l.Commit? { CommitLeavesRow(cfg, s, l, now, id); } else { TablesStay(cfg, s, l, now); }
  }

  lemma TablesStay(cfg: Config, s: State, l: Label, now: int)
    requires Enabled(cfg, s, l, now)
    requires || l.Publish? || l.Tidy? || l.Start?
             || l.StopLoops? || l.BeginClose? || l.CloseQueue? || l.FinishClose? || l.Crash?
    ensures NextTables(cfg, s, l, now) == s.db
  {
  }

  lemma CommitCounter(cfg: Config, s: State, l: Label, now: int)
    requires Inv(cfg, s) && Enabled(cfg, s, l, now) && l.Commit?
    ensures s.process.value.nextMessage == s.db.nextMessage
  {
  }

  lemma StepNoLoss(cfg: Config, s: State, l: Label, now: int, id: nat)
    requires Inv(cfg, s) && Enabled(cfg, s, l, now) && LiveIn(s, id)
    ensures LiveOrSettles(cfg, s, l, now, id)
  {
    hide Inv, LiveOrSettles;
    LiveIsKnown(cfg, s, id);
    if l.Commit? { CommitCounter(cfg, s, l, now); }
    if l.PollInbox? { SettlesByPoll(cfg, s, l, now, id); }
    else if l.Report? { SettlesByReport(cfg, s, l, now, id); }
    else if l.Claim? || l.Prune? { SettlesByClaim(cfg, s, l, now, id); }
    else if l.Restart? { SettlesByRestart(cfg, s, l, now, id); }
    else if l.Succeed? || l.RecoverLeases? { SettlesBySuccess(cfg, s, l, now, id); }
    else if l.Enqueue? || l.GiveUp? || l.WriteFailure? { SettlesByFailure(cfg, s, l, now, id); }
    else { SettlesOtherwise(cfg, s, l, now, id); }
  }

  /** No loss: from any state where a row is live, it is live in every later state until a
      step that proves receipt, or that fails it at or after its deadline. */
  lemma {:induction false} NoLoss(cfg: Config, r: Run, i: nat, j: nat, id: nat)
    requires IsRun(cfg, r) && i <= j < |r.states| && LiveIn(r.states[i], id)
    ensures || (LiveIn(r.states[j], id) && SameRow(r.states[i], r.states[j], id))
            || exists k :: i <= k < j && LiveIn(r.states[k], id) && SameRow(r.states[i], r.states[k], id)
                           && Settles(r.states[k], r.labels[k], r.states[k + 1], id)
    decreases j
  {
    hide Inv;
    if i < j {
      NoLoss(cfg, r, i, j - 1, id);
      if LiveIn(r.states[j - 1], id) && SameRow(r.states[i], r.states[j - 1], id) {
        Always(cfg, r, j - 1);
        assert StepAt(cfg, r, j - 1);
        StepNoLoss(cfg, r.states[j - 1], r.labels[j - 1], r.states[j].clock, id);
      }
    }
  }

  predicate StillSettled(s: State, t: State, id: nat) {
    && !LiveIn(t, id) && id <= t.db.nextMessage
    && (id in t.db.deliveries ==>
          id in s.db.deliveries && t.db.deliveries[id].status == s.db.deliveries[id].status)
  }

  /** Received and failed are final: a settled row never becomes live again, and while it is
      kept its status stays. */
  lemma StepFinal(cfg: Config, s: State, l: Label, now: int, id: nat)
    requires Inv(cfg, s) && Enabled(cfg, s, l, now) && id <= s.db.nextMessage && !LiveIn(s, id)
    ensures StillSettled(s, Apply(cfg, s, l, now), id)
  {
    hide Inv, NextTables, NextProcess, Live, Commits;
    CounterStep(cfg, s, l, now);
    if l.Commit? {
      CommitCounter(cfg, s, l, now);
      CommitLeavesRow(cfg, s, l, now, id);
    } else {
      EvolvesStep(cfg, s, l, now);
      var e := NextTables(cfg, s, l, now).deliveries;
      if id in e { StaysSettled(s.db.deliveries, e, id); }
    }
  }

  lemma StaysSettled(d: map<nat, Delivery>, e: map<nat, Delivery>, id: nat)
    requires Evolves(d, e) && !(id in d && Live(d[id])) && id in e
    ensures id in d && !Live(e[id]) && e[id].status == d[id].status
  {
    assert RowEvolves(d[id], e[id]);
  }

  lemma CommitLeavesRow(cfg: Config, s: State, l: Label, now: int, id: nat)
    requires Enabled(cfg, s, l, now) && l.Commit? && id <= s.db.nextMessage
    requires s.process.value.nextMessage == s.db.nextMessage
    ensures var d := NextTables(cfg, s, l, now).deliveries;
            (id in d <==> id in s.db.deliveries) && (id in d ==> d[id] == s.db.deliveries[id])
  {
    hide Plan, Conflicts, NewDelivery;
  }

  ghost predicate Commits(cfg: Config, s: State, l: Label, now: int)
    requires Enabled(cfg, s, l, now)
  {
    l.Commit? && Decide(cfg, s.db, s.process.value, l.send, l.dbFails, now).Committed?
  }

  /** The id counter moves only with an acceptance, and then to the accepted id. */
  lemma CounterStep(cfg: Config, s: State, l: Label, now: int)
    requires Inv(cfg, s) && Enabled(cfg, s, l, now)
    ensures NextTables(cfg, s, l, now).nextMessage
         == if Commits(cfg, s, l, now) then s.db.nextMessage + 1 else s.db.nextMessage
    ensures Commits(cfg, s, l, now) ==>
              Decide(cfg, s.db, s.process.value, l.send, l.dbFails, now).a.id == s.db.nextMessage + 1
  {
    hide LeaseOk, ShutdownOk, ReceiptsAgree, TablesOk, Conflicts, Plan, NewDelivery, ExpireDue;
  }

  lemma {:induction false} Final(cfg: Config, r: Run, i: nat, j: nat, id: nat)
    requires IsRun(cfg, r) && i <= j < |r.states|
    requires id <= r.states[i].db.nextMessage && !LiveIn(r.states[i], id)
    ensures StillSettled(r.states[i], r.states[j], id)
    decreases j
  {
    hide Inv;
    if i < j {
      Final(cfg, r, i, j - 1, id);
      Always(cfg, r, j - 1);
      assert StepAt(cfg, r, j - 1);
      StepFinal(cfg, r.states[j - 1], r.labels[j - 1], r.states[j].clock, id);
    }
  }

  // ---- acceptance ----

  /** Step i accepts a message. */
  ghost predicate AcceptsAt(cfg: Config, r: Run, i: nat, a: Acceptance)
    requires IsRun(cfg, r) && i < |r.labels|
  {
    var s, l := r.states[i], r.labels[i];
    StepAt(cfg, r, i) && l.Commit?
    && Decide(cfg, s.db, s.process.value, l.send, l.dbFails, r.states[i + 1].clock) == Committed(a)
  }

  /** Step k settles the row that was created by step i, and it is never live again. */
  ghost predicate SettledForGood(r: Run, i: nat, k: nat, id: nat)
    requires |r.states| == |r.labels| + 1 && i < k < |r.labels| && LiveIn(r.states[i + 1], id)
  {
    && LiveIn(r.states[k], id) && SameRow(r.states[i + 1], r.states[k], id)
    && Settles(r.states[k], r.labels[k], r.states[k + 1], id)
    && forall m :: k < m < |r.states| ==> !LiveIn(r.states[m], id)
  }

  /** An accepted, addressed message: its delivery is live at once, due at the deadline of
      the message, and in every later state it is still live, or some step in between has
      proved receipt of it or failed it at or after that deadline; and then it is never live
      again. */
  lemma AcceptedIsDelivered(cfg: Config, r: Run, i: nat, j: nat, a: Acceptance)
    requires IsRun(cfg, r) && i < j < |r.states| && AcceptsAt(cfg, r, i, a) && a.message.to != ""
    ensures LiveIn(r.states[i + 1], a.id)
    ensures DeliveryExpiry(a.message) == Some(r.states[i + 1].db.deliveries[a.id].expiresAt)
    ensures LiveIn(r.states[j], a.id) || exists k :: i < k < j && SettledForGood(r, i, k, a.id)
  {
    AcceptedIsLive(cfg, r.states[i], r.labels[i], r.states[i + 1].clock, a);
    NoLoss(cfg, r, i + 1, j, a.id);
    if !LiveIn(r.states[j], a.id) {
      var k :| i + 1 <= k < j && LiveIn(r.states[k], a.id) && SameRow(r.states[i + 1], r.states[k], a.id)
               && Settles(r.states[k], r.labels[k], r.states[k + 1], a.id);
      NeverAgain(cfg, r, k, a.id);
      assert SettledForGood(r, i, k, a.id);
    }
  }

  lemma AcceptedIsLive(cfg: Config, s: State, l: Label, now: int, a: Acceptance)
    requires Enabled(cfg, s, l, now) && l.Commit? && a.message.to != ""
    requires Decide(cfg, s.db, s.process.value, l.send, l.dbFails, now) == Committed(a)
    ensures var t := Apply(cfg, s, l, now);
            LiveIn(t, a.id) && DeliveryExpiry(a.message) == Some(t.db.deliveries[a.id].expiresAt)
  {
  }

  lemma LiveIsKnown(cfg: Config, s: State, id: nat)
    requires Inv(cfg, s) && LiveIn(s, id)
    ensures id <= s.db.nextMessage && id in s.db.messages && RowOk(s.db, id)
  {
    assert RowOk(s.db, id);
  }

  /** A step that settles a row settles it for the rest of the run. */
  lemma NeverAgain(cfg: Config, r: Run, k: nat, id: nat)
    requires IsRun(cfg, r) && k < |r.labels| && LiveIn(r.states[k], id)
    requires Settles(r.states[k], r.labels[k], r.states[k + 1], id)
    ensures forall m :: k < m < |r.states| ==> !LiveIn(r.states[m], id)
  {
    hide Inv;
    Always(cfg, r, k);
    LiveIsKnown(cfg, r.states[k], id);
    assert StepAt(cfg, r, k);
    CounterStep(cfg, r.states[k], r.labels[k], r.states[k + 1].clock);
    forall m | k < m < |r.states| ensures !LiveIn(r.states[m], id) {
      Final(cfg, r, k + 1, m, id);
    }
  }
}
