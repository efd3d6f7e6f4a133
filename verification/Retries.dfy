/** When a failed push is tried again, over whole runs. */
module Retries {
  import opened Model
  import opened Durable
  import opened Texts
  import opened Stamps
  import opened Protocol
  import opened Safety
  import opened Runs
  import opened Guarantees
  import opened Outcomes

  /** Step i of a run ends a push cycle of the message in failure, after so many attempts. */
  ghost predicate FailsAt(cfg: Config, r: Run, i: nat, id: nat, attempts: nat)
    requires IsRun(cfg, r) && i < |r.labels|
  {
    && StepAt(cfg, r, i)
    && (r.labels[i] == GiveUp(id, attempts) || (attempts == 0 && r.labels[i] in {WriteFailure(id), Enqueue(id)}))
    && id in r.states[i].db.deliveries && r.states[i].db.deliveries[id].status.Attempting?
    && id in r.states[i + 1].db.deliveries && r.states[i + 1].db.deliveries[id].status.Pending?
  }

  /** Step j is a claim that leases the row. */
  predicate ClaimsAt(r: Run, j: nat, id: nat) {
    j < |r.labels| && r.labels[j].Claim? && id in r.labels[j].chosen
  }

  /** The row is settled or gone, or waits for its retry time. */
  predicate Waits(s: State, id: nat, retryAt: int) {
    && id <= s.db.nextMessage
    && (id in s.db.deliveries ==>
          var d := s.db.deliveries[id];
          !d.status.Attempting? && (d.status.Pending? ==> d.nextAttempt == Some(retryAt)))
  }

  /** The delay after a failed cycle: the base for a first attempt or none, doubled for each
      further one, and never more than thirty seconds. */
  function Delay(base: nat, attempts: nat): nat {
    if attempts <= 1 then base
    else if Doubled(base, attempts - 1) >= 30_000_000_000 then 30_000_000_000
    else Doubled(base, attempts - 1)
  }

  lemma FailureStep(cfg: Config, s: State, l: Label, now: int, id: nat, attempts: nat)
    requires Enabled(cfg, s, l, now) && id in s.db.deliveries && s.db.deliveries[id].status.Attempting?
    requires l == GiveUp(id, attempts) || (attempts == 0 && l in {WriteFailure(id), Enqueue(id)})
    ensures var e := Apply(cfg, s, l, now).db.deliveries;
            id in e && e[id].status.Pending? ==> e[id].nextAttempt == Some(now + Delay(cfg.baseBackoff, attempts))
  {
    hide FailureWritten, Doubled, Apply, Ready;
    FailureWrites(cfg, s.db, id, attempts, now);
    CycleWrites(cfg, s, l, now, id);
  }

  lemma FailureWaits(cfg: Config, r: Run, i: nat, id: nat, attempts: nat)
    requires IsRun(cfg, r) && i < |r.labels| && FailsAt(cfg, r, i, id, attempts)
    ensures Waits(r.states[i + 1], id, r.states[i + 1].clock + Delay(cfg.baseBackoff, attempts))
  {
    hide Delay, Inv, NextTables, NextProcess;
    Always(cfg, r, i);
    LiveIsKnown(cfg, r.states[i], id);
    CounterMonotone(cfg, r, i, i + 1);
    FailureStep(cfg, r.states[i], r.labels[i], r.states[i + 1].clock, id, attempts);
  }

  /** Only a claim of the row ends the wait. */
  lemma StepWaits(cfg: Config, s: State, l: Label, now: int, id: nat, retryAt: int)
    requires Inv(cfg, s) && Enabled(cfg, s, l, now) && Waits(s, id, retryAt) && !(l.Claim? && id in l.chosen)
    ensures Waits(Apply(cfg, s, l, now), id, retryAt)
  {
    hide Inv, NextTables, NextProcess, Commits, Ready;
    CounterStep(cfg, s, l, now);
    if l.Commit? {
      CommitCounter(cfg, s, l, now);
      CommitLeavesRow(cfg, s, l, now, id);
    } else {
      StatementWaits(cfg, s, l, now, id, retryAt);
    }
  }

  lemma StatementWaits(cfg: Config, s: State, l: Label, now: int, id: nat, retryAt: int)
    requires Enabled(cfg, s, l, now) && Waits(s, id, retryAt) && !l.Commit? && !(l.Claim? && id in l.chosen)
    ensures id in NextTables(cfg, s, l, now).deliveries ==>
              var d := NextTables(cfg, s, l, now).deliveries[id];
              !d.status.Attempting? && (d.status.Pending? ==> d.nextAttempt == Some(retryAt))
  {
    hide Ready, OfferAll, PastRetention, Sooner, Backoff;
  }

  lemma {:induction false} WaitsUntilClaimed(cfg: Config, r: Run, i: nat, j: nat, id: nat, retryAt: int)
    requires IsRun(cfg, r) && i <= j < |r.states| && Waits(r.states[i], id, retryAt)
    requires forall m :: i <= m < j ==> !ClaimsAt(r, m, id)
    ensures Waits(r.states[j], id, retryAt)
    decreases j
  {
    hide Inv, Waits, Apply, Enabled;
    if i < j {
      WaitsUntilClaimed(cfg, r, i, j - 1, id, retryAt);
      Always(cfg, r, j - 1);
      assert StepAt(cfg, r, j - 1) && !ClaimsAt(r, j - 1, id);
      StepWaits(cfg, r.states[j - 1], r.labels[j - 1], r.states[j].clock, id, retryAt);
    }
  }

  lemma ClaimOfWaiting(cfg: Config, s: State, l: Label, now: int, id: nat, retryAt: int)
    requires Enabled(cfg, s, l, now) && Waits(s, id, retryAt) && l.Claim? && id in l.chosen
    ensures !Sooner(now, retryAt)
  {
    hide Sooner, Awaiting, Ready;
    ClaimTakes(cfg, s, l.chosen, l.pushable, now, id);
    AwaitingRow(s.db.deliveries, l.pushable, now, id);
  }

  lemma AwaitingRow(d: map<nat, Delivery>, pushable: set<string>, now: int, id: nat)
    requires id in Awaiting(d, pushable, now)
    ensures id in d && d[id].status.Pending? && (d[id].nextAttempt.Some? ==> !Sooner(now, d[id].nextAttempt.value))
  {
    hide Sooner;
  }

  /** Never early: after a push of a message has failed at some time with some attempts, whatever
      polls, restarts and shutdowns follow, the next claim that leases its row comes no sooner, in
      the order of the stored texts, than that time plus the delay; and no claim ever comes as much
      as a second sooner. */
  lemma NeverEarly(cfg: Config, r: Run, i: nat, j: nat, id: nat, attempts: nat)
    requires IsRun(cfg, r) && i < j < |r.labels| && FailsAt(cfg, r, i, id, attempts) && ClaimsAt(r, j, id)
    ensures var retryAt := r.states[i + 1].clock + Delay(cfg.baseBackoff, attempts);
            && (!Sooner(r.states[j + 1].clock, retryAt) || exists m :: i < m < j && ClaimsAt(r, m, id))
            && r.states[j + 1].clock > retryAt - BILLION
    decreases j
  {
    hide Inv, Waits, Apply, Enabled, Sooner, Delay;
    var retryAt := r.states[i + 1].clock + Delay(cfg.baseBackoff, attempts);
    if m :| i < m < j && ClaimsAt(r, m, id) {
      NeverEarly(cfg, r, i, m, id, attempts);
      ClockMonotone(cfg, r, m + 1, j + 1);
    } else {
      FailureWaits(cfg, r, i, id, attempts);
      WaitsUntilClaimed(cfg, r, i + 1, j, id, retryAt);
      assert StepAt(cfg, r, j);
      ClaimOfWaiting(cfg, r.states[j], r.labels[j], r.states[j + 1].clock, id, retryAt);
      SoonerMeans(r.states[j + 1].clock, retryAt);
    }
  }

  /** And never held back: until a claim leases the row, it awaits a claim exactly from that time
      on, while it is pending, its deadline is ahead and its target can be pushed to. */
  lemma DueAgain(cfg: Config, r: Run, i: nat, j: nat, id: nat, attempts: nat, pushable: set<string>, now: int)
    requires IsRun(cfg, r) && i < j < |r.states| && FailsAt(cfg, r, i, id, attempts)
    requires forall m :: i < m < j ==> !ClaimsAt(r, m, id)
    ensures var retryAt, d := r.states[i + 1].clock + Delay(cfg.baseBackoff, attempts), r.states[j].db.deliveries;
            id in Awaiting(d, pushable, now) <==>
              && id in d && d[id].status.Pending? && !Sooner(now, retryAt)
              && Sooner(now, d[id].expiresAt) && d[id].target in pushable
  {
    hide Inv, Apply, Enabled, Sooner, Delay;
    FailureWaits(cfg, r, i, id, attempts);
    WaitsUntilClaimed(cfg, r, i + 1, j, id, r.states[i + 1].clock + Delay(cfg.baseBackoff, attempts));
  }
}
