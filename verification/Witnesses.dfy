/** Runs from the empty database that reach the states in which a guarantee is not the one that
    might be expected. */
module Witnesses {
  import opened Model
  import opened Durable
  import opened Texts
  import opened Stamps
  import opened Protocol
  import opened Safety
  import opened Invariant
  import opened Runs
  import opened Guarantees
  import opened Limits

  function Last(r: Run): State
    requires |r.states| > 0
  {
    r.states[|r.states| - 1]
  }

  /** One more step of a run. */
  lemma Extend(cfg: Config, r: Run, l: Label, now: int) returns (q: Run)
    requires IsRun(cfg, r) && Enabled(cfg, Last(r), l, now)
    ensures IsRun(cfg, q) && q.labels == r.labels + [l] && q.states == r.states + [Apply(cfg, Last(r), l, now)]
    ensures Last(q) == Apply(cfg, Last(r), l, now) && Last(q).clock == now
  {
    hide Inv, Enabled, Apply;
    AppliedAt(cfg, Last(r), l, now);
    q := Run(r.states + [Apply(cfg, Last(r), l, now)], r.labels + [l]);
    forall i | 0 <= i < |q.labels| ensures StepAt(cfg, q, i) {
      if i < |r.labels| { assert StepAt(cfg, r, i); }
    }
  }

  lemma AppliedAt(cfg: Config, s: State, l: Label, now: int)
    requires Enabled(cfg, s, l, now)
    ensures Apply(cfg, s, l, now).clock == now
  {
    hide NextTables, NextProcess;
  }

  const IDLE: Memory :=
    Memory(map[], map[], 0, None, multiset{}, [], multiset{}, multiset{}, 0, false, false, false, false)

  /** A process that has just opened the empty database. */
  lemma Opened(cfg: Config) returns (r: Run)
    ensures IsRun(cfg, r) && r.labels == [Restart]
    ensures r.states == [State(0, EMPTY_TABLES, None), State(0, EMPTY_TABLES, Some(IDLE))]
  {
    hide Inv;
    Initial(cfg, 0);
    r := Run([State(0, EMPTY_TABLES, None)], []);
    OpensEmpty(cfg);
    r := Extend(cfg, r, Restart, 0);
  }

  lemma OpensEmpty(cfg: Config)
    ensures Enabled(cfg, State(0, EMPTY_TABLES, None), Restart, 0)
    ensures Apply(cfg, State(0, EMPTY_TABLES, None), Restart, 0) == State(0, EMPTY_TABLES, Some(IDLE))
  {
    var db := Reopened(cfg, EMPTY_TABLES, 0);
    assert db.messages == map[] && db.deliveries == map[] && db.receipts == map[];
  }

  /** The tables and the acceptance after the first send, at time zero. */
  function Sent(cfg: Config, send: Send): Acceptance
    requires Plan(cfg, send, 0).Some?
  {
    Acceptance(1, Plan(cfg, send, 0).value, SendKey(send), send.target == Active(true))
  }

  lemma FirstSend(cfg: Config, send: Send, p: Memory)
    requires ValidSend(send) && Plan(cfg, send, 0).Some? && send.to != ""
    requires p.held.None? && p.nextMessage == 0 && p.entries == map[]
    ensures var s := State(0, EMPTY_TABLES, Some(p));
            && Enabled(cfg, s, Commit(send, false), 0)
            && Decide(cfg, EMPTY_TABLES, p, send, false, 0) == Committed(Sent(cfg, send))
            && Apply(cfg, s, Commit(send, false), 0)
               == State(0, Accepted(cfg, EMPTY_TABLES, Sent(cfg, send)), Some(p.(held := Some(Sent(cfg, send)))))
  {
    hide Accepted;
    assert !Conflicts(EMPTY_TABLES, Sent(cfg, send));
  }

  // ---- a spent key ----

  /** The state once the first send, to an active agent without push, is published. */
  lemma PublishesKey(cfg: Config, send: Send)
    requires ValidSend(send) && !send.human && send.target == Active(false) && Plan(cfg, send, 0).Some?
    ensures var a := Sent(cfg, send);
            var s := State(0, Accepted(cfg, EMPTY_TABLES, a), Some(IDLE.(held := Some(a))));
            && Enabled(cfg, s, Publish, 0) && SendKey(send).Some?
            && var t := Apply(cfg, s, Publish, 0);
               && t.clock == 0 && t.process.Some? && t.process.value.held.None?
               && SendKey(send).value in t.db.receipts && t.db.receipts[SendKey(send).value].acceptedAt == 0
  {
    hide Plan, NewDelivery;
    SentAtZero(cfg, send);
  }

  /** The same send, repeated just after the window with no prune between, aborts. */
  lemma SpentKeyAborts(cfg: Config, send: Send) returns (r: Run)
    requires ValidSend(send) && !send.human && send.target == Active(false)
    ensures IsRun(cfg, r) && r.states[0] == State(0, EMPTY_TABLES, None)
    ensures r.labels == [Restart, Commit(send, false), Publish]
    ensures Enabled(cfg, Last(r), Commit(send, false), cfg.window + 1)
    ensures Decide(cfg, Last(r).db, Last(r).process.value, send, false, cfg.window + 1).Aborted?
  {
    hide Inv, IsRun, Apply, Decide, Accepted, Sent, Plan, NextTables, NextProcess;
    ActivePlan(cfg, send, 0);
    r := Opened(cfg);
    FirstSend(cfg, send, IDLE);
    r := Extend(cfg, r, Commit(send, false), 0);
    PublishesKey(cfg, send);
    r := Extend(cfg, r, Publish, 0);
    LastHolds(cfg, r);
    ActivePlan(cfg, send, cfg.window + 1);
    SendOutcome(cfg, Last(r), send, cfg.window + 1);
  }

  // ---- a lease left by a clean close ----

  function Stopping(stopped: bool, closed: bool, queueClosed: bool, recovered: bool): State {
    State(0, EMPTY_TABLES, Some(IDLE.(stopped := stopped, closed := closed, queueClosed := queueClosed,
                                      recovered := recovered)))
  }

  lemma StopsIdle(cfg: Config)
    ensures Enabled(cfg, Stopping(false, false, false, false), StopLoops, 0)
    ensures Apply(cfg, Stopping(false, false, false, false), StopLoops, 0) == Stopping(true, false, false, false)
    ensures Enabled(cfg, Stopping(true, false, false, false), BeginClose, 0)
    ensures Apply(cfg, Stopping(true, false, false, false), BeginClose, 0) == Stopping(true, true, false, false)
    ensures Enabled(cfg, Stopping(true, true, false, false), CloseQueue, 0)
    ensures Apply(cfg, Stopping(true, true, false, false), CloseQueue, 0) == Stopping(true, true, true, false)
  {
  }

  lemma RecoversIdle(cfg: Config)
    ensures Enabled(cfg, Stopping(true, true, true, false), RecoverLeases, 0)
    ensures Apply(cfg, Stopping(true, true, true, false), RecoverLeases, 0) == Stopping(true, true, true, true)
  {
    assert RecoverAtClose(EMPTY_TABLES.deliveries, 0) == map[];
  }

  /** A shutdown up to the recovery of leases. */
  lemma Stopped(cfg: Config) returns (r: Run)
    ensures IsRun(cfg, r) && r.states[0] == State(0, EMPTY_TABLES, None)
    ensures r.labels == [Restart, StopLoops, BeginClose, CloseQueue, RecoverLeases]
    ensures |r.states| == 6 && Last(r) == Stopping(true, true, true, true)
  {
    hide Inv, IsRun, Enabled, Apply;
    r := Opened(cfg);
    StopsIdle(cfg);
    r := Extend(cfg, r, StopLoops, 0);
    r := Extend(cfg, r, BeginClose, 0);
    r := Extend(cfg, r, CloseQueue, 0);
    RecoversIdle(cfg);
    r := Extend(cfg, r, RecoverLeases, 0);
  }

  /** A run that ends with a clean close and leaves a row attempting. */
  lemma CloseLeavesAttempting(cfg: Config, send: Send) returns (r: Run)
    requires ValidSend(send) && send.target == Active(true)
    ensures IsRun(cfg, r) && r.states[0] == State(0, EMPTY_TABLES, None)
    ensures r.labels == [Restart, StopLoops, BeginClose, CloseQueue, RecoverLeases, Commit(send, false), FinishClose]
    ensures AttemptingIn(Last(r), 1)
  {
    hide Inv, IsRun, Enabled, Apply, AttemptingIn, Decide, Accepted, Sent, Plan;
    r := Stopped(cfg);
    var s := Last(r);
    ActivePlan(cfg, send, 0);
    FirstSend(cfg, send, s.process.value);
    LastHolds(cfg, r);
    LateSendStaysAttempting(cfg, s, send, 0);
    r := Extend(cfg, r, Commit(send, false), 0);
    r := Extend(cfg, r, FinishClose, 0);
  }

  lemma LastHolds(cfg: Config, r: Run)
    requires IsRun(cfg, r)
    ensures Inv(cfg, Last(r))
  {
    hide Inv;
    Always(cfg, r, |r.labels|);
  }

  // ---- a waiting request without a delivery time ----

  /** The first delivery row, for a request to an agent whose registration has lapsed. */
  function FirstRow(m: Message, expiresAt: int): Delivery {
    Delivery(m.to, 0, Status.Pending, Some(0), 0, None, expiresAt)
  }

  lemma LapsedPlan(cfg: Config, send: Send)
    requires ValidSend(send) && send.kind.Request? && send.target == Lapsed(0)
    requires send.ttl >= 2 * BILLION && cfg.grace >= 2 * BILLION
    ensures Plan(cfg, send, 0).Some? && send.to != ""
    ensures var m := Plan(cfg, send, 0).value;
            && m.kind.Request? && m.phase.Pending? && m.deliveredAt.None? && m.queued && m.to == send.to
            && MessageOk(m) && !Sent(cfg, send).push
            && DeliveryExpiry(m).Some? && DeliveryExpiry(m).value >= 2 * BILLION && m.createdAt == 0
  {
  }

  /** The tables and the memory once the send is published. */
  predicate Published1(s: State, m: Message, due: int) {
    && s.clock == 0 && s.process.Some?
    && s.db.messages == map[1 := m] && s.db.deliveries == map[1 := FirstRow(m, due)]
    && s.process.value.messages == map[1 := m] && s.process.value.claimed == multiset{}
    && s.process.value.held.None? && !s.process.value.stopped
  }

  lemma PublishesFirst(cfg: Config, send: Send)
    requires ValidSend(send) && send.kind.Request? && send.target == Lapsed(0)
    requires send.ttl >= 2 * BILLION && cfg.grace >= 2 * BILLION
    requires Plan(cfg, send, 0).Some?
    ensures var a := Sent(cfg, send);
            var s := State(0, Accepted(cfg, EMPTY_TABLES, a), Some(IDLE.(held := Some(a))));
            && Enabled(cfg, s, Publish, 0) && DeliveryExpiry(a.message).Some?
            && Published1(Apply(cfg, s, Publish, 0), a.message, DeliveryExpiry(a.message).value)
  {
    hide Plan, DeliveryExpiry;
    LapsedPlan(cfg, send);
    var a := Sent(cfg, send);
    var s := State(0, Accepted(cfg, EMPTY_TABLES, a), Some(IDLE.(held := Some(a))));
    assert NextTables(cfg, s, Publish, 0) == s.db;
    assert NextProcess(cfg, s, Publish, 0) == Some(Published(cfg, s.process.value, a));
  }

  /** The same after the claim: the durable message is offered, the one in memory is not yet. */
  predicate Claimed1(s: State, m: Message) {
    && s.clock == 0 && s.process.Some?
    && s.db.messages == map[1 := Offered(m, 0)]
    && s.process.value.messages == map[1 := m] && 1 in s.process.value.claimed && s.process.value.held.None?
  }

  lemma ClaimsFirst(cfg: Config, s: State, m: Message, due: int)
    requires Published1(s, m, due) && due >= 2 * BILLION
    ensures Enabled(cfg, s, Claim({1}, {m.to}), 0)
    ensures Claimed1(Apply(cfg, s, Claim({1}, {m.to}), 0), m)
  {
    hide Due;
    DueMeans(due, 0);
    DueMeans(0, 0);
    var d := s.db.deliveries;
    assert ExpireDue(d, 0) == d;
    var all := set id | id in d && Claimable(d[id], {m.to}, 0);
    assert all == {1};
    assert FirstBatch(d, {1}, {m.to}, 0);
    assert OfferAll(s.db.messages, {1}, 0) == map[1 := Offered(m, 0)];
  }

  /** Progress on the pending request of memory, which the claim has not reached, is written over
      the offered row. */
  lemma ReportsFirst(cfg: Config, s: State, m: Message)
    requires Claimed1(s, m) && m.kind.Request? && m.phase.Pending? && m.deliveredAt.None? && MessageOk(m)
    ensures var next := m.(lastProgressAt := Some(0));
            && Enabled(cfg, s, Report(1, m.to, next), 0)
            && var t := Apply(cfg, s, Report(1, m.to, next), 0);
               && t.clock == 0 && t.process.Some? && t.db.messages == map[1 := next]
               && t.process.value.messages == map[1 := next] && 1 in t.process.value.claimed
               && t.process.value.held.None?
  {
    hide ReceiveRow, Offered;
    var next := m.(lastProgressAt := Some(0));
    assert SameEnvelope(next, m);
    assert s.process.value.messages[1 := next] == map[1 := next];
    assert s.db.messages[1 := next] == map[1 := next];
  }

  lemma EnqueuesFirst(cfg: Config, s: State, m: Message)
    requires s.clock == 0 && s.process.Some? && s.db.messages == map[1 := m] && s.process.value.messages == map[1 := m]
    requires 1 in s.process.value.claimed && s.process.value.held.None?
    requires m.kind.Request? && m.phase.Pending? && m.deliveredAt.None?
    ensures Enabled(cfg, s, Enqueue(1), 0)
    ensures var t := Apply(cfg, s, Enqueue(1), 0);
            t.process.Some? && 1 in t.process.value.messages && Undated(t.process.value.messages[1])
  {
    hide FailureWritten, NextTables;
    assert 1 in ProjectAll(s.process.value.messages, s.db.messages, {1});
  }

  /** A run that leaves a request waiting in memory without its delivery time: progress reported
      between a push claim and its projection puts the pending request back into the database. */
  lemma ProgressUndatesAClaim(cfg: Config, send: Send) returns (r: Run)
    requires ValidSend(send) && send.kind.Request? && send.target == Lapsed(0)
    requires send.ttl >= 2 * BILLION && cfg.grace >= 2 * BILLION
    ensures IsRun(cfg, r) && r.states[0] == State(0, EMPTY_TABLES, None) && Plan(cfg, send, 0).Some?
    ensures var next := Plan(cfg, send, 0).value.(lastProgressAt := Some(0));
            r.labels == [Restart, Commit(send, false), Publish, Claim({1}, {send.to}),
                         Report(1, send.to, next), Enqueue(1)]
    ensures Last(r).process.Some? && 1 in Last(r).process.value.messages && Undated(Last(r).process.value.messages[1])
  {
    hide Inv, IsRun, Enabled, Apply, Decide, Plan, Published1, Claimed1, Accepted, Undated, DeliveryExpiry, Sent;
    LapsedPlan(cfg, send);
    var m := Plan(cfg, send, 0).value;
    assert Sent(cfg, send).message == m by { SentIs(cfg, send); }
    r := Opened(cfg);
    FirstSend(cfg, send, IDLE);
    r := Extend(cfg, r, Commit(send, false), 0);
    PublishesFirst(cfg, send);
    r := Extend(cfg, r, Publish, 0);
    ClaimsFirst(cfg, Last(r), m, DeliveryExpiry(m).value);
    r := Extend(cfg, r, Claim({1}, {m.to}), 0);
    ReportsFirst(cfg, Last(r), m);
    r := Extend(cfg, r, Report(1, m.to, m.(lastProgressAt := Some(0))), 0);
    EnqueuesFirst(cfg, Last(r), m.(lastProgressAt := Some(0)));
    r := Extend(cfg, r, Enqueue(1), 0);
  }

  lemma SentIs(cfg: Config, send: Send)
    requires Plan(cfg, send, 0).Some?
    ensures Sent(cfg, send).message == Plan(cfg, send, 0).value
  {
  }

  // ---- a key accepted twice in the last fraction of its window ----

  const END: int := 1_550_000_000
  const BEFORE_END: int := 1_500_000_000

  lemma {:induction false} ZerosAreTrimmed(n: nat, w: nat, z: nat)
    ensures Trimmed(Digits(n * Ten(z), w + z)) == Trimmed(Digits(n, w))
  {
    hide Trimmed, Digits;
    assert n * Ten(0) == n;
    if z > 0 {
      ZerosAreTrimmed(n, w, z - 1);
      var m := n * Ten(z - 1);
      assert n * Ten(z) == 10 * m;
      Tenfold(m, w + z - 1);
      TrimsZero(Digits(m, w + z - 1));
    }
  }

  lemma Tenfold(m: nat, w: nat)
    ensures Digits(10 * m, w + 1) == Digits(m, w) + "0"
  {
    assert 10 * m / 10 == m && 10 * m % 10 == 0;
  }

  lemma TrimsZero(s: string)
    ensures Trimmed(s + "0") == Trimmed(s)
  {
    assert (s + "0")[..|s|] == s;
  }

  lemma Powers()
    ensures Ten(7) == 10_000_000 && Ten(8) == 100_000_000
  {
    assert Ten(3) == 1000;
    assert Ten(6) == 1000 * Ten(3);
  }

  /** The fraction of the earlier time, .5, is cut short inside that of the later one, .55. */
  lemma EndSortsFirst()
    ensures Sooner(END, BEFORE_END)
  {
    hide Digits, Trimmed;
    Powers();
    ZerosAreTrimmed(5, 1, 8);
    ZerosAreTrimmed(55, 2, 7);
    OneDigit();
    assert FractionOf(500_000_000) == "5" && FractionOf(550_000_000) == "55";
  }

  lemma OneDigit()
    ensures Trimmed(Digits(5, 1)) == "5" && Trimmed(Digits(55, 2)) == "55"
  {
    assert Digits(5, 1) == "5";
    assert Digits(55, 2) == Digits(5, 1) + "5";
  }

  /** The tables when the first send has committed, its process has crashed and the next one has
      started just before the window ends. */
  lemma ForgetsEarly(cfg: Config, send: Send, s: State)
    requires cfg.window == END && ValidSend(send) && !send.human && Plan(cfg, send, 0).Some?
    requires s == State(0, Accepted(cfg, EMPTY_TABLES, Sent(cfg, send)), None)
    ensures Enabled(cfg, s, Restart, BEFORE_END)
    ensures var t := Apply(cfg, s, Restart, BEFORE_END);
            && t.process.Some? && t.process.value.held.None? && t.process.value.entries == map[]
            && t.db.receipts == map[] && t.clock == BEFORE_END
  {
    hide Sooner, Due, PastRetention, Plan, DeliveryExpiry, Recover;
    EndSortsFirst();
    SentAtZero(cfg, send);
    var key := SendKey(send).value;
    assert s.db.receipts == map[key := Receipt(1, 0, END)];
    assert Reopened(cfg, s.db, BEFORE_END).receipts == map[];
  }

  lemma SentAtZero(cfg: Config, send: Send)
    requires Plan(cfg, send, 0).Some? && !send.human
    ensures Sent(cfg, send).message.createdAt == 0 && Sent(cfg, send).key == SendKey(send)
  {
  }

  /** A run that accepts the same send twice within its window, by less than a second: a start
      in the last fraction of the window has compared the texts of the two times. */
  lemma WindowLosesAFraction(cfg: Config, send: Send) returns (r: Run, a: Acceptance, b: Acceptance)
    requires cfg.window == END && ValidSend(send) && send.target == Active(false) && !send.human
    ensures IsRun(cfg, r) && r.states[0] == State(0, EMPTY_TABLES, None)
    ensures r.labels == [Restart, Commit(send, false), Crash, Restart, Commit(send, false)]
    ensures AcceptsAt(cfg, r, 1, a) && AcceptsAt(cfg, r, 4, b) && a.key.Some? && a.key == b.key
    ensures r.states[5].clock - r.states[2].clock < cfg.window
  {
    hide Inv, IsRun, Enabled, Apply, Decide, Accepted, Sent, Plan;
    ActivePlan(cfg, send, 0);
    r := Opened(cfg);
    FirstSend(cfg, send, IDLE);
    a := Sent(cfg, send);
    r := Extend(cfg, r, Commit(send, false), 0);
    Crashes(cfg, Last(r));
    r := Extend(cfg, r, Crash, 0);
    ForgetsEarly(cfg, send, Last(r));
    r := Extend(cfg, r, Restart, BEFORE_END);
    LastHolds(cfg, r);
    b := SendsAgain(cfg, send, Last(r));
    r := Extend(cfg, r, Commit(send, false), BEFORE_END);
    BothAccepted(cfg, r, send, a, b);
    SentAtZero(cfg, send);
  }

  lemma ActivePlan(cfg: Config, send: Send, now: int)
    requires ValidSend(send) && send.target.Active?
    ensures send.to != "" && Plan(cfg, send, now).Some?
  {
  }

  lemma Crashes(cfg: Config, s: State)
    requires s.process.Some?
    ensures Enabled(cfg, s, Crash, s.clock)
    ensures Apply(cfg, s, Crash, s.clock) == State(s.clock, s.db, None)
  {
  }

  lemma SendsAgain(cfg: Config, send: Send, s: State) returns (b: Acceptance)
    requires Inv(cfg, s) && ValidSend(send) && send.target == Active(false) && !send.human
    requires s.process.Some? && s.process.value.held.None? && s.process.value.entries == map[] && s.db.receipts == map[]
    requires s.clock == BEFORE_END
    ensures Enabled(cfg, s, Commit(send, false), BEFORE_END)
    ensures Decide(cfg, s.db, s.process.value, send, false, BEFORE_END) == Committed(b) && b.key == SendKey(send)
  {
    hide Inv;
    ActivePlan(cfg, send, BEFORE_END);
    SendOutcome(cfg, s, send, BEFORE_END);
    b := Decide(cfg, s.db, s.process.value, send, false, BEFORE_END).a;
  }

  lemma BothAccepted(cfg: Config, r: Run, send: Send, a: Acceptance, b: Acceptance)
    requires IsRun(cfg, r) && |r.labels| == 5 && r.labels[1] == r.labels[4] == Commit(send, false)
    requires r.states[1].process.Some? && r.states[4].process.Some?
    requires Decide(cfg, r.states[1].db, r.states[1].process.value, send, false, r.states[2].clock) == Committed(a)
    requires Decide(cfg, r.states[4].db, r.states[4].process.value, send, false, r.states[5].clock) == Committed(b)
    ensures AcceptsAt(cfg, r, 1, a) && AcceptsAt(cfg, r, 4, b)
  {
    hide Inv, Decide;
    assert StepAt(cfg, r, 1) && StepAt(cfg, r, 4);
  }
}
