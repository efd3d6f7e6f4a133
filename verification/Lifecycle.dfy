/** The in-memory store of one process: agents, message lifecycle and the rate-limited sweep. */
module Lifecycle {
  import opened Model
  import D = Durable
  import P = Protocol

  datatype Agent = Agent(active: bool, expiresAt: int)

  /** Limits of the sweep, beside those of the database. */
  datatype Limits = Limits(
    durable: D.Config,
    ackTimeout: nat,
    minInterval: nat,
    agentRetention: nat,
    progressInterval: nat)

  datatype Store = Store(
    agents: map<string, Agent>,
    messages: map<nat, Message>,
    lastSweepAt: Option<int>,
    next: nat)

  // ---- the sweep, one entry at a time ----

  function SweptAgent(a: Agent, now: int): Agent {
    if a.active && a.expiresAt < now then a.(active := false) else a
  }

  predicate Past(deadline: Option<int>, now: int) {
    deadline.Some? && deadline.value < now
  }

  function Failed(m: Message, now: int): Message {
    m.(phase := Error, terminalAt := Some(now))
  }

  /** What the sweep makes of one message. */
  function SweptMessage(cfg: Limits, agents: map<string, Agent>, m: Message, now: int): Message {
    if !m.kind.Request? || Terminal(m.phase) then m
    else if Past(m.ttlExpiresAt, now) then Failed(m, now)
    else if m.phase.Waiting? && m.deliveredAt.Some? && m.deliveredAt.value + cfg.ackTimeout < now then Failed(m, now)
    else if m.queued && m.to in agents && agents[m.to].active then
      m.(queued := false, phase := Waiting, deliveredAt := Some(now))
    else if m.queued && Past(m.graceUntil, now) then Failed(m, now).(queued := false)
    else m
  }

  /** What retention says in memory, where times are compared exactly. */
  predicate Stale(cfg: D.Config, m: Message, now: int) {
    || (cfg.maxAge > 0 && m.createdAt < now - cfg.maxAge)
    || (cfg.retention > 0 && Terminal(m.phase)
        && (if m.terminalAt.Some? then m.terminalAt.value else m.createdAt) < now - cfg.retention)
  }

  predicate AgentGone(cfg: Limits, a: Agent, now: int) {
    cfg.agentRetention > 0 && !a.active && a.expiresAt < now - cfg.agentRetention
  }

  function SweptAgents(agents: map<string, Agent>, now: int): map<string, Agent> {
    map id | id in agents :: SweptAgent(agents[id], now)
  }

  function SweptMessages(cfg: Limits, agents: map<string, Agent>, messages: map<nat, Message>, now: int)
    : map<nat, Message>
  {
    map id | id in messages :: SweptMessage(cfg, agents, messages[id], now)
  }

  /** The state walk that a sweep does when it is due. */
  function Walked(cfg: Limits, s: Store, now: int): Store {
    var agents := SweptAgents(s.agents, now);
    var messages := SweptMessages(cfg, agents, s.messages, now);
    s.(lastSweepAt := Some(now),
       messages := map id | id in messages && !Stale(cfg.durable, messages[id], now) :: messages[id],
       agents := map id | id in agents && !AgentGone(cfg, agents[id], now) :: agents[id])
  }

  predicate Skips(cfg: Limits, s: Store, now: int) {
    cfg.minInterval > 0 && s.lastSweepAt.Some? && now - s.lastSweepAt.value < cfg.minInterval
  }

  function Swept(cfg: Limits, s: Store, now: int): Store {
    if Skips(cfg, s, now) then s else Walked(cfg, s, now)
  }

  // ---- calls ----

  datatype Event = Progress | Final | Fault

  /** What an ack makes of a live request. */
  function Acked(m: Message, accepted: bool, now: int): Message {
    var n := m.(queued := false, deliveredAt := if m.deliveredAt.None? then Some(now) else m.deliveredAt);
    if accepted then n.(phase := Executing) else n.(phase := Rejected, terminalAt := Some(now))
  }

  function Posted(m: Message, e: Event, now: int): Message {
    match e
    case Progress => m.(phase := if m.phase.Waiting? then Executing else m.phase, lastProgressAt := Some(now))
    case Final => m.(phase := Completed, terminalAt := Some(now))
    case Fault => Failed(m, now)
  }

  predicate TooSoon(cfg: Limits, m: Message, e: Event, now: int) {
    e.Progress? && m.lastProgressAt.Some? && now - m.lastProgressAt.value < cfg.progressInterval
  }

  /** A live request that this actor owns. */
  predicate Owned(s: Store, id: nat, actor: string) {
    && id in s.messages && s.messages[id].kind.Request?
    && s.messages[id].to == actor && !Terminal(s.messages[id].phase)
  }

  function TargetOf(s: Store, to: string, push: bool): D.Target {
    if to == "" then D.Broadcast
    else if to !in s.agents then D.Unregistered
    else if s.agents[to].active then D.Active(push)
    else D.Lapsed(s.agents[to].expiresAt)
  }

  /** One call. proceeds is false when authorization, duplicate detection or the durability
      barrier stops it; the sweep has then still run. An offer is the projection of a poll or a
      push claim, with the delivery time of the durable row, should it have one. */
  datatype Call =
    | Register(agent: string, ttl: nat, proceeds: bool)
    | SendMessage(send: D.Send, proceeds: bool)
    | Ack(id: nat, actor: string, accepted: bool, proceeds: bool)
    | PostEvent(id: nat, actor: string, event: Event, proceeds: bool)
    | Read
    | Offer(id: nat, at: Option<int>)

  function After(cfg: Limits, s: Store, c: Call, now: int): Store {
    if c.Offer? then
      if c.id in s.messages then s.(messages := s.messages[c.id := OfferedAt(s.messages[c.id], c.at)]) else s
    else
      var t := Swept(cfg, s, now);
      match c
      case Register(agent, ttl, proceeds) =>
        if proceeds then t.(agents := t.agents[agent := Agent(true, now + ttl)]) else t
      case SendMessage(send, proceeds) =>
        var m := D.Plan(cfg.durable, send.(target := TargetOf(t, send.to, false)), now);
        if proceeds && m.Some? then t.(messages := t.messages[t.next + 1 := m.value], next := t.next + 1) else t
      case Ack(id, actor, accepted, proceeds) =>
        if Owned(t, id, actor) && proceeds
        then t.(messages := t.messages[id := Acked(t.messages[id], accepted, now)]) else t
      case PostEvent(id, actor, e, proceeds) =>
        if Owned(t, id, actor) && !TooSoon(cfg, t.messages[id], e, now) && proceeds
        then t.(messages := t.messages[id := Posted(t.messages[id], e, now)]) else t
      case _ => t
  }

  // ---- lifecycle ----

  function Rank(p: Phase): nat {
    match p case Pending => 0 case Waiting => 1 case Executing => 2 case _ => 3
  }

  /** A message only moves forward, and a terminal one keeps its state and its time. */
  predicate Forward(a: Message, b: Message) {
    && SameEnvelope(a, b) && Rank(a.phase) <= Rank(b.phase)
    && (Terminal(a.phase) ==> b.phase == a.phase && b.terminalAt == a.terminalAt)
    && (a.deliveredAt.Some? ==> b.deliveredAt == a.deliveredAt)
  }

  ghost predicate StoreOk(s: Store) {
    forall id :: id in s.messages ==> id <= s.next && MessageOk(s.messages[id])
  }

  ghost predicate Progresses(s: Store, t: Store) {
    && s.next <= t.next
    && (forall id :: id in s.messages && id in t.messages ==> Forward(s.messages[id], t.messages[id]))
    && (forall id :: id in t.messages && id !in s.messages ==> s.next < id)
  }

  lemma SweptMessageOk(cfg: Limits, agents: map<string, Agent>, m: Message, now: int)
    requires MessageOk(m)
    ensures MessageOk(SweptMessage(cfg, agents, m, now)) && Forward(m, SweptMessage(cfg, agents, m, now))
  {
  }

  lemma SweepOk(cfg: Limits, s: Store, now: int)
    requires StoreOk(s)
    ensures StoreOk(Swept(cfg, s, now)) && Progresses(s, Swept(cfg, s, now)) && Swept(cfg, s, now).next == s.next
    ensures Swept(cfg, s, now).messages.Keys <= s.messages.Keys
  {
    hide MessageOk, Forward, SweptMessage, SweptAgent;
    forall id | id in s.messages ensures Forward(s.messages[id], s.messages[id]) { SameIsForward(s.messages[id]); }
    var agents := SweptAgents(s.agents, now);
    forall id | id in s.messages
      ensures MessageOk(SweptMessage(cfg, agents, s.messages[id], now))
      ensures Forward(s.messages[id], SweptMessage(cfg, agents, s.messages[id], now))
    {
      SweptMessageOk(cfg, agents, s.messages[id], now);
    }
  }

  lemma SameIsForward(m: Message)
    ensures Forward(m, m)
  {
  }

  lemma ForwardTwice(a: Message, b: Message, c: Message)
    requires Forward(a, b) && Forward(b, c)
    ensures Forward(a, c)
  {
  }

  lemma ProgressTwice(s: Store, t: Store, u: Store)
    requires Progresses(s, t) && Progresses(t, u) && StoreOk(s)
    ensures Progresses(s, u)
  {
    hide Forward, MessageOk;
    forall id | id in s.messages && id in u.messages ensures Forward(s.messages[id], u.messages[id]) {
      if id in t.messages { ForwardTwice(s.messages[id], t.messages[id], u.messages[id]); }
    }
  }

  lemma CallMessageOk(cfg: Limits, m: Message, now: int)
    requires MessageOk(m) && m.kind.Request? && !Terminal(m.phase)
    ensures forall accepted :: MessageOk(Acked(m, accepted, now)) && Forward(m, Acked(m, accepted, now))
    ensures forall e :: MessageOk(Posted(m, e, now)) && Forward(m, Posted(m, e, now))
  {
  }

  lemma OfferedOk(m: Message, at: Option<int>)
    requires MessageOk(m)
    ensures MessageOk(OfferedAt(m, at)) && Forward(m, OfferedAt(m, at))
  {
  }

  lemma PlannedOk(cfg: D.Config, send: D.Send, now: int)
    requires D.Plan(cfg, send, now).Some?
    ensures MessageOk(D.Plan(cfg, send, now).value)
  {
  }

  /** Writing one message forward, or one new message under the next id. */
  lemma OneWrite(s: Store, id: nat, m: Message)
    requires StoreOk(s) && MessageOk(m)
    requires id in s.messages ==> Forward(s.messages[id], m)
    requires id !in s.messages ==> id == s.next + 1
    ensures var t := s.(messages := s.messages[id := m], next := if id in s.messages then s.next else id);
            StoreOk(t) && Progresses(s, t)
  {
    hide Forward, MessageOk;
    forall i | i in s.messages ensures Forward(s.messages[i], s.messages[i]) { SameIsForward(s.messages[i]); }
  }

  /** Every call keeps the lifecycle invariant and moves messages only forward. */
  lemma CallProgresses(cfg: Limits, s: Store, c: Call, now: int)
    requires StoreOk(s)
    ensures StoreOk(After(cfg, s, c, now)) && Progresses(s, After(cfg, s, c, now))
  {
    hide MessageOk, Forward, Swept, Acked, Posted, OfferedAt, StoreOk, Progresses, TooSoon, D.Plan;
    SameProgresses(s);
    if c.Offer? {
      if c.id in s.messages {
        HeldOk(s, c.id);
        OfferedOk(s.messages[c.id], c.at);
        OneWrite(s, c.id, OfferedAt(s.messages[c.id], c.at));
      }
    } else {
      var t := Swept(cfg, s, now);
      SweepOk(cfg, s, now);
      SameProgresses(t);
      if c.SendMessage? {
        SendOk(cfg, t, c.send, now);
      } else if c.Ack? && Owned(t, c.id, c.actor) {
        HeldOk(t, c.id);
        CallMessageOk(cfg, t.messages[c.id], now);
        OneWrite(t, c.id, Acked(t.messages[c.id], c.accepted, now));
      } else if c.PostEvent? && Owned(t, c.id, c.actor) {
        HeldOk(t, c.id);
        CallMessageOk(cfg, t.messages[c.id], now);
        OneWrite(t, c.id, Posted(t.messages[c.id], c.event, now));
      } else if c.Register? {
        OnlyAgents(t, t.agents[c.agent := Agent(true, now + c.ttl)]);
      }
      ProgressTwice(s, t, After(cfg, s, c, now));
    }
  }

  lemma SendOk(cfg: Limits, t: Store, send: D.Send, now: int)
    requires StoreOk(t)
    ensures var m := D.Plan(cfg.durable, send.(target := TargetOf(t, send.to, false)), now);
            m.Some? ==>
              var u := t.(messages := t.messages[t.next + 1 := m.value], next := t.next + 1);
              StoreOk(u) && Progresses(t, u)
  {
    hide MessageOk, Forward, D.Plan, TargetOf;
    var m := D.Plan(cfg.durable, send.(target := TargetOf(t, send.to, false)), now);
    if m.Some? {
      PlannedOk(cfg.durable, send.(target := TargetOf(t, send.to, false)), now);
      OneWrite(t, t.next + 1, m.value);
    }
  }

  lemma SameProgresses(s: Store)
    ensures Progresses(s, s)
  {
    hide Forward;
    forall i | i in s.messages ensures Forward(s.messages[i], s.messages[i]) { SameIsForward(s.messages[i]); }
  }

  lemma OnlyAgents(s: Store, agents: map<string, Agent>)
    requires StoreOk(s)
    ensures StoreOk(s.(agents := agents)) && Progresses(s, s.(agents := agents))
  {
    hide Forward;
    forall i | i in s.messages ensures Forward(s.messages[i], s.messages[i]) { SameIsForward(s.messages[i]); }
  }

  lemma HeldOk(s: Store, id: nat)
    requires StoreOk(s) && id in s.messages
    ensures MessageOk(s.messages[id])
  {
  }

  /** A sweep is a tidying step that the delivery protocol allows. */
  lemma SweepIsTidy(cfg: Limits, s: Store, now: int)
    requires StoreOk(s)
    ensures P.Thinned(Swept(cfg, s, now).messages, s.messages)
  {
    hide MessageOk, Swept;
    SweepOk(cfg, s, now);
    forall id | id in Swept(cfg, s, now).messages
      ensures SameEnvelope(Swept(cfg, s, now).messages[id], s.messages[id])
    {
      assert Forward(s.messages[id], Swept(cfg, s, now).messages[id]);
    }
  }

  /** An ack or an event writes what the delivery protocol allows its recipient to report. */
  lemma CallIsReport(cfg: Limits, s: Store, id: nat, actor: string, accepted: bool, e: Event, now: int)
    requires StoreOk(s) && Owned(s, id, actor)
    ensures P.Reportable(s.messages, id, actor, Acked(s.messages[id], accepted, now))
    ensures P.Reportable(s.messages, id, actor, Posted(s.messages[id], e, now))
  {
    hide MessageOk, Acked, Posted;
    HeldOk(s, id);
    CallMessageOk(cfg, s.messages[id], now);
    assert Forward(s.messages[id], Acked(s.messages[id], accepted, now));
    assert Forward(s.messages[id], Posted(s.messages[id], e, now));
  }

  /** An offer is the projection of a durable row in the delivery protocol. */
  lemma OfferIsProjection(cfg: Limits, s: Store, id: nat, durable: Message, now: int)
    requires id in s.messages
    ensures After(cfg, s, Offer(id, durable.deliveredAt), now).messages
         == s.messages[id := P.Projected(s.messages[id], durable)]
  {
  }

  // ---- times that are missing ----

  lemma SweptTimes(cfg: Limits, agents: map<string, Agent>, m: Message, now: int)
    ensures Untimed(SweptMessage(cfg, agents, m, now)) <==> Untimed(m)
    ensures Undated(SweptMessage(cfg, agents, m, now)) ==> Undated(m)
  {
  }

  lemma WrittenTimes(m: Message, now: int, at: Option<int>)
    ensures !Terminal(m.phase) ==> forall accepted :: !Untimed(Acked(m, accepted, now))
    ensures !Terminal(m.phase) ==> forall e :: !Untimed(Posted(m, e, now))
    ensures Untimed(OfferedAt(m, at)) <==> Untimed(m)
    ensures forall accepted :: !Undated(Acked(m, accepted, now))
    ensures forall e :: Undated(Posted(m, e, now)) ==> Undated(m)
    ensures !Undated(m) ==>
              (Undated(OfferedAt(m, at)) <==> at.None? && m.kind.Request? && m.phase.Pending? && m.deliveredAt.None?)
  {
  }

  lemma PlannedTimes(cfg: D.Config, send: D.Send, now: int)
    requires D.Plan(cfg, send, now).Some?
    ensures !Untimed(D.Plan(cfg, send, now).value) && !Undated(D.Plan(cfg, send, now).value)
  {
  }

  /** An offer whose durable row has no delivery time reaches a request that still pends. */
  predicate BlankOffer(s: Store, c: Call, id: nat) {
    && c.Offer? && c.id == id && c.at.None? && id in s.messages
    && s.messages[id].kind.Request? && s.messages[id].phase.Pending? && s.messages[id].deliveredAt.None?
  }

  predicate UntimedIn(s: Store, id: nat) {
    id in s.messages && Untimed(s.messages[id])
  }

  predicate UndatedIn(s: Store, id: nat) {
    id in s.messages && Undated(s.messages[id])
  }

  /** No call makes a message terminal without its time, and only a blank offer leaves a request
      waiting without its delivery time. */
  lemma CallKeepsTimes(cfg: Limits, s: Store, c: Call, now: int, id: nat)
    requires StoreOk(s) && id in After(cfg, s, c, now).messages
    ensures UntimedIn(After(cfg, s, c, now), id) <==> UntimedIn(s, id)
    ensures !UndatedIn(s, id) ==> (UndatedIn(After(cfg, s, c, now), id) <==> BlankOffer(s, c, id))
  {
    hide MessageOk, Undated, SweptMessage, SweptAgent, Acked, Posted, OfferedAt, D.Plan, TooSoon;
    SweepOk(cfg, s, now);
    if id in s.messages {
      SweptTimes(cfg, SweptAgents(s.agents, now), s.messages[id], now);
      WrittenTimes(s.messages[id], now, if c.Offer? then c.at else None);
    }
    if id in Swept(cfg, s, now).messages { WrittenTimes(Swept(cfg, s, now).messages[id], now, None); }
    if c.SendMessage? {
      var send := c.send.(target := TargetOf(Swept(cfg, s, now), c.send.to, false));
      if D.Plan(cfg.durable, send, now).Some? { PlannedTimes(cfg.durable, send, now); }
    }
  }

  // ---- runs ----

  /** A run of one process: the store before each call, the calls and their times. */
  datatype Run = Run(stores: seq<Store>, calls: seq<Call>, times: seq<int>)

  ghost predicate IsRun(cfg: Limits, r: Run) {
    && |r.stores| == |r.calls| + 1 && |r.times| == |r.calls|
    && forall i :: 0 <= i < |r.calls| ==> r.stores[i + 1] == After(cfg, r.stores[i], r.calls[i], r.times[i])
  }

  function Upto(r: Run, n: nat): Run
    requires n <= |r.calls| <= |r.times| && |r.calls| < |r.stores|
  {
    Run(r.stores[..n + 1], r.calls[..n], r.times[..n])
  }

  /** Over any run of one process the state rank of a message never decreases, a terminal state
      and its time never change, and the state invariants hold throughout. A pruned message
      never comes back. */
  lemma {:induction false} LifecycleIsMonotone(cfg: Limits, r: Run)
    requires IsRun(cfg, r) && StoreOk(r.stores[0])
    ensures StoreOk(r.stores[|r.calls|]) && Progresses(r.stores[0], r.stores[|r.calls|])
    decreases |r.calls|
  {
    hide StoreOk, Progresses, After;
    if r.calls == [] {
      SameProgresses(r.stores[0]);
    } else {
      var k := |r.calls| - 1;
      LifecycleIsMonotone(cfg, Upto(r, k));
      CallProgresses(cfg, r.stores[k], r.calls[k], r.times[k]);
      ProgressTwice(r.stores[0], r.stores[k], r.stores[k + 1]);
    }
  }

  /** Over any run of one process a message is terminal without a time if and only if it was so
      at the start: such rows come from databases older than the column, and they are left alone. */
  lemma {:induction false} UntimedSinceStart(cfg: Limits, r: Run, id: nat)
    requires IsRun(cfg, r) && StoreOk(r.stores[0]) && id in r.stores[|r.calls|].messages
    ensures UntimedIn(r.stores[|r.calls|], id) <==> UntimedIn(r.stores[0], id)
    decreases |r.calls|
  {
    hide StoreOk, After, UntimedIn;
    if r.calls != [] {
      var k := |r.calls| - 1;
      LifecycleIsMonotone(cfg, Upto(r, k));
      CallKeepsTimes(cfg, r.stores[k], r.calls[k], r.times[k], id);
      if id in r.stores[k].messages {
        UntimedSinceStart(cfg, Upto(r, k), id);
      } else {
        LifecycleIsMonotone(cfg, r);
        NewSinceStart(cfg, r, k, id);
      }
    }
  }

  /** What the last call stored anew was not there at the start. */
  lemma NewSinceStart(cfg: Limits, r: Run, k: nat, id: nat)
    requires IsRun(cfg, r) && k < |r.calls| && StoreOk(r.stores[0]) && StoreOk(r.stores[k])
    requires Progresses(r.stores[0], r.stores[k])
    requires id !in r.stores[k].messages && id in r.stores[k + 1].messages
    ensures !UntimedIn(r.stores[0], id) && !UntimedIn(r.stores[k], id)
  {
    hide After;
    CallProgresses(cfg, r.stores[k], r.calls[k], r.times[k]);
  }

  /** Over any run a message that is waiting or executing without a delivery time was so at the
      start, or a blank offer has made it so. */
  lemma {:induction false} UndatedSince(cfg: Limits, r: Run, id: nat)
    requires IsRun(cfg, r) && StoreOk(r.stores[0]) && UndatedIn(r.stores[|r.calls|], id)
    ensures UndatedIn(r.stores[0], id) || exists k :: 0 <= k < |r.calls| && BlankOffer(r.stores[k], r.calls[k], id)
    decreases |r.calls|
  {
    hide StoreOk, After, BlankOffer;
    if r.calls != [] {
      var k := |r.calls| - 1;
      LifecycleIsMonotone(cfg, Upto(r, k));
      CallKeepsTimes(cfg, r.stores[k], r.calls[k], r.times[k], id);
      if UndatedIn(r.stores[k], id) { UndatedSince(cfg, Upto(r, k), id); }
    }
  }

  /** It happens: a terminal request of an older database, not yet past retention, goes through a
      call that sweeps and still has no terminal time. */
  lemma OldTerminalStaysUntimed(cfg: Limits, m: Message, now: int)
    requires m.kind.Request? && Untimed(m) && MessageOk(m) && !Stale(cfg.durable, m, now)
    ensures var s := Store(map[], map[1 := m], None, 1);
            StoreOk(s) && UntimedIn(After(cfg, s, Read, now), 1)
  {
  }

  // ---- punctuality ----

  predicate Reached(deadline: Option<int>, t: int) {
    deadline.None? || t <= deadline.value
  }

  /** A message has no deadline before t. */
  predicate MessageDue(cfg: Limits, m: Message, t: int) {
    m.kind.Request? && !Terminal(m.phase) ==>
      && Reached(m.ttlExpiresAt, t)
      && (m.phase.Waiting? && m.deliveredAt.Some? ==> t <= m.deliveredAt.value + cfg.ackTimeout)
  }

  /** No active agent, request TTL or ack deadline lies before t. */
  ghost predicate NothingBefore(cfg: Limits, s: Store, t: int) {
    && (forall a :: a in s.agents && s.agents[a].active ==> t <= s.agents[a].expiresAt)
    && (forall id :: id in s.messages ==> MessageDue(cfg, s.messages[id], t))
  }

  ghost predicate UpToDate(cfg: Limits, s: Store) {
    s.lastSweepAt.Some? ==> NothingBefore(cfg, s, s.lastSweepAt.value)
  }

  /** The call comes after the last sweep, and an offer reaches memory within the ack timeout
      of the time it wrote. */
  predicate Timely(cfg: Limits, s: Store, c: Call, now: int) {
    && (s.lastSweepAt.Some? ==> s.lastSweepAt.value <= now)
    && (c.Offer? && c.at.Some? ==> now <= c.at.value + cfg.ackTimeout)
  }

  lemma WalkedUpToDate(cfg: Limits, s: Store, now: int)
    ensures NothingBefore(cfg, Walked(cfg, s, now), now)
  {
    var agents := SweptAgents(s.agents, now);
    forall id | id in s.messages ensures MessageDue(cfg, SweptMessage(cfg, agents, s.messages[id], now), now) {
      SweptMessageDue(cfg, agents, s.messages[id], now);
    }
  }

  lemma SweptMessageDue(cfg: Limits, agents: map<string, Agent>, m: Message, now: int)
    ensures MessageDue(cfg, SweptMessage(cfg, agents, m, now), now)
  {
  }

  lemma WriteDue(cfg: Limits, m: Message, now: int, t: int)
    requires MessageOk(m) && MessageDue(cfg, m, t) && t <= now
    ensures m.kind.Request? && !Terminal(m.phase) ==> forall accepted :: MessageDue(cfg, Acked(m, accepted, now), t)
    ensures m.kind.Request? && !Terminal(m.phase) ==> forall e :: MessageDue(cfg, Posted(m, e, now), t)
    ensures forall at: Option<int> :: (at.Some? ==> now <= at.value + cfg.ackTimeout) ==>
              MessageDue(cfg, OfferedAt(m, at), t)
  {
  }

  lemma PlannedDue(cfg: Limits, send: D.Send, now: int, t: int)
    requires D.Plan(cfg.durable, send, now).Some? && t <= now
    ensures MessageDue(cfg, D.Plan(cfg.durable, send, now).value, t)
  {
  }

  /** Every call keeps the store up to its last sweep. */
  lemma CallUpToDate(cfg: Limits, s: Store, c: Call, now: int)
    requires StoreOk(s) && UpToDate(cfg, s) && Timely(cfg, s, c, now)
    ensures UpToDate(cfg, After(cfg, s, c, now))
    ensures !c.Offer? ==>
              var last := After(cfg, s, c, now).lastSweepAt;
              last.Some? && last.value <= now && (now - last.value < cfg.minInterval || last.value == now)
  {
    hide MessageDue, MessageOk, Walked, Acked, Posted, OfferedAt, D.Plan, TooSoon;
    if c.Offer? {
      if c.id in s.messages && s.lastSweepAt.Some? { WriteDue(cfg, s.messages[c.id], now, s.lastSweepAt.value); }
    } else {
      WalkedUpToDate(cfg, s, now);
      assert Walked(cfg, s, now).lastSweepAt == Some(now) by { WalkedStamp(cfg, s, now); }
      SweepOk(cfg, s, now);
      var t := Swept(cfg, s, now);
      var last := t.lastSweepAt.value;
      assert NothingBefore(cfg, t, last);
      if c.SendMessage? {
        var send := c.send.(target := TargetOf(t, c.send.to, false));
        if D.Plan(cfg.durable, send, now).Some? { PlannedDue(cfg, send, now, last); }
      } else if c.Ack? && Owned(t, c.id, c.actor) {
        WriteDue(cfg, t.messages[c.id], now, last);
      } else if c.PostEvent? && Owned(t, c.id, c.actor) {
        WriteDue(cfg, t.messages[c.id], now, last);
      }
    }
  }

  lemma WalkedStamp(cfg: Limits, s: Store, now: int)
    ensures Walked(cfg, s, now).lastSweepAt == Some(now)
  {
  }

  /** The calls of a run have non-decreasing times. */
  ghost predicate TimelyRun(cfg: Limits, r: Run)
    requires IsRun(cfg, r)
  {
    forall i :: 0 <= i < |r.calls| ==> Timely(cfg, r.stores[i], r.calls[i], r.times[i])
  }

  /** After any call that sweeps, in any run, nothing is overdue by the sweep interval or more,
      although most calls skip the walk. */
  lemma {:induction false} SweepIsPunctual(cfg: Limits, r: Run)
    requires IsRun(cfg, r) && TimelyRun(cfg, r) && r.calls != [] && cfg.minInterval > 0
    requires StoreOk(r.stores[0]) && UpToDate(cfg, r.stores[0])
    ensures UpToDate(cfg, r.stores[|r.calls|])
    ensures !r.calls[|r.calls| - 1].Offer? ==>
              NothingBefore(cfg, r.stores[|r.calls|], r.times[|r.calls| - 1] - cfg.minInterval + 1)
    decreases |r.calls|
  {
    hide StoreOk, UpToDate, NothingBefore, After, Timely;
    var k := |r.calls| - 1;
    if k > 0 {
      assert forall i :: 0 <= i < k ==> Timely(cfg, Upto(r, k).stores[i], Upto(r, k).calls[i], Upto(r, k).times[i]);
      SweepIsPunctual(cfg, Upto(r, k));
    }
    LifecycleIsMonotone(cfg, Upto(r, k));
    CallUpToDate(cfg, r.stores[k], r.calls[k], r.times[k]);
    if !r.calls[k].Offer? { Earlier(cfg, r.stores[k + 1], r.times[k] - cfg.minInterval + 1); }
  }

  lemma Earlier(cfg: Limits, s: Store, t: int)
    requires UpToDate(cfg, s) && s.lastSweepAt.Some? && t <= s.lastSweepAt.value
    ensures NothingBefore(cfg, s, t)
  {
  }

  /** The sweep ends a request only when a deadline has passed. */
  lemma SweepIsNeverEarly(cfg: Limits, agents: map<string, Agent>, m: Message, now: int)
    requires !Terminal(m.phase)
    ensures Terminal(SweptMessage(cfg, agents, m, now).phase) <==>
              m.kind.Request?
              && (Past(m.ttlExpiresAt, now)
                  || (m.phase.Waiting? && m.deliveredAt.Some? && m.deliveredAt.value + cfg.ackTimeout < now)
                  || (m.queued && Past(m.graceUntil, now) && !(m.to in agents && agents[m.to].active)))
  {
  }

  // ---- the store itself ----

  class MemoryStore {
    const cfg: Limits
    var agents: map<string, Agent>
    var messages: map<nat, Message>
    var lastSweepAt: Option<int>
    var nextMessage: nat

    function Abstract(): Store
      reads this
    {
      Store(agents, messages, lastSweepAt, nextMessage)
    }

    constructor (limits: Limits)
      ensures cfg == limits && Abstract() == Store(map[], map[], None, 0)
    {
      cfg, agents, messages, lastSweepAt, nextMessage := limits, map[], map[], None, 0;
    }

    /** Expire agents one by one. */
    method SweepAgents(now: int)
      modifies this`agents
      ensures agents == SweptAgents(old(agents), now)
    {
      var left := agents.Keys;
      while left != {}
        invariant left <= agents.Keys == old(agents).Keys
        invariant forall id :: id in agents ==>
                    agents[id] == if id in left then old(agents)[id] else SweptAgent(old(agents)[id], now)
      {
        var id :| id in left;
        var agent := agents[id];
        if agent.active && agent.expiresAt < now {
          agents := agents[id := agent.(active := false)];
        }
        left := left - {id};
      }
    }

    /** Time out, deliver or give up on one live request. */
    method SweepOne(id: nat, now: int)
      requires id in messages
      modifies this`messages
      ensures messages == old(messages)[id := SweptMessage(cfg, agents, old(messages)[id], now)]
    {
      var m := messages[id];
      if !m.kind.Request? || Terminal(m.phase) { return; }
      if m.ttlExpiresAt.Some? && m.ttlExpiresAt.value < now {
        messages := messages[id := m.(phase := Error, terminalAt := Some(now))];
        return;
      }
      if m.phase.Waiting? && m.deliveredAt.Some? && now - m.deliveredAt.value > cfg.ackTimeout {
        messages := messages[id := m.(phase := Error, terminalAt := Some(now))];
        return;
      }
      if m.queued {
        if m.to in agents && agents[m.to].active {
          messages := messages[id := m.(queued := false, phase := Waiting, deliveredAt := Some(now))];
          return;
        }
        if m.graceUntil.Some? && m.graceUntil.value < now {
          messages := messages[id := m.(queued := false, phase := Error, terminalAt := Some(now))];
        }
      }
    }

    method SweepMessages(now: int)
      modifies this`messages
      ensures messages == SweptMessages(cfg, agents, old(messages), now)
    {
      hide SweptMessage;
      var left := messages.Keys;
      while left != {}
        invariant left <= messages.Keys == old(messages).Keys
        invariant forall id :: id in messages ==>
                    messages[id] == if id in left then old(messages)[id]
                                    else SweptMessage(cfg, agents, old(messages)[id], now)
      {
        var id :| id in left;
        SweepOne(id, now);
        left := left - {id};
      }
    }

    method Prune(now: int)
      modifies this`agents, this`messages
      ensures messages == map id | id in old(messages) && !Stale(cfg.durable, old(messages)[id], now) ::
                old(messages)[id]
      ensures agents == map id | id in old(agents) && !AgentGone(cfg, old(agents)[id], now) :: old(agents)[id]
    {
      var left := messages.Keys;
      while left != {}
        invariant left <= messages.Keys <= old(messages).Keys && agents == old(agents)
        invariant forall id :: id in messages ==> messages[id] == old(messages)[id]
        invariant forall id :: id in old(messages) ==>
                    (id in messages <==> id in left || !Stale(cfg.durable, old(messages)[id], now))
      {
        var id :| id in left;
        left := left - {id};
        if Stale(cfg.durable, messages[id], now) { messages := messages - {id}; }
      }
      var names := agents.Keys;
      while names != {}
        invariant names <= agents.Keys <= old(agents).Keys
        invariant forall id :: id in agents ==> agents[id] == old(agents)[id]
        invariant forall id :: id in old(agents) ==>
                    (id in agents <==> id in names || !AgentGone(cfg, old(agents)[id], now))
        invariant messages == map id | id in old(messages) && !Stale(cfg.durable, old(messages)[id], now) ::
                    old(messages)[id]
      {
        var id :| id in names;
        names := names - {id};
        if AgentGone(cfg, agents[id], now) { agents := agents - {id}; }
      }
    }

    /** The rate-limited full walk that every call starts with. */
    method Sweep(now: int)
      modifies this
      ensures Abstract() == Swept(cfg, old(Abstract()), now)
    {
      hide SweptMessage, SweptAgent, AgentGone, Stale;
      if cfg.minInterval > 0 && lastSweepAt.Some? && now - lastSweepAt.value < cfg.minInterval { return; }
      lastSweepAt := Some(now);
      SweepAgents(now);
      SweepMessages(now);
      Prune(now);
    }

    method RegisterAgent(agent: string, ttl: nat, proceeds: bool, now: int)
      modifies this
      ensures Abstract() == After(cfg, old(Abstract()), Register(agent, ttl, proceeds), now)
    {
      hide Swept;
      Sweep(now);
      if proceeds { agents := agents[agent := Agent(true, now + ttl)]; }
    }

    /** Accept a message when its target can take it. */
    method Send(send: D.Send, proceeds: bool, now: int) returns (id: Option<nat>)
      modifies this
      ensures Abstract() == After(cfg, old(Abstract()), SendMessage(send, proceeds), now)
      ensures id.Some? ==> id.value == nextMessage && id.value in messages
      ensures id.Some? && send.kind.Request? && send.to != "" && send.to in agents ==>
                var m := messages[id.value];
                if agents[send.to].active then m.phase == Waiting && m.deliveredAt == Some(now) && !m.queued
                else m.phase == Pending && m.deliveredAt.None? && m.queued
    {
      hide Swept;
      Sweep(now);
      var target := TargetOf(Abstract(), send.to, false);
      var m := D.Plan(cfg.durable, send.(target := target), now);
      if !proceeds || m.None? { return None; }
      nextMessage := nextMessage + 1;
      messages := messages[nextMessage := m.value];
      id := Some(nextMessage);
    }

    /** A poll or a push claim has handed the message out. */
    method NoteOffer(id: nat, at: Option<int>, now: int)
      modifies this`messages
      ensures Abstract() == After(cfg, old(Abstract()), Offer(id, at), now)
    {
      if id !in messages { return; }
      var m := messages[id].(queued := false);
      if m.kind.Request? && m.phase.Pending? { m := m.(phase := Waiting); }
      if m.deliveredAt.None? { m := m.(deliveredAt := at); }
      messages := messages[id := m];
    }

    method AckMessage(id: nat, actor: string, accepted: bool, proceeds: bool, now: int)
      modifies this
      ensures Abstract() == After(cfg, old(Abstract()), Ack(id, actor, accepted, proceeds), now)
      ensures proceeds && Owned(Swept(cfg, old(Abstract()), now), id, actor) ==>
                && id in messages && messages[id].phase == (if accepted then Executing else Rejected)
                && !messages[id].queued && (!accepted ==> messages[id].terminalAt == Some(now))
    {
      hide Swept;
      Sweep(now);
      if id !in messages || !messages[id].kind.Request? || messages[id].to != actor { return; }
      if Terminal(messages[id].phase) { return; }
      var next := messages[id].(queued := false);
      if next.deliveredAt.None? { next := next.(deliveredAt := Some(now)); }
      if accepted { next := next.(phase := Executing); }
      else { next := next.(phase := Rejected, terminalAt := Some(now)); }
      if !proceeds { return; }
      messages := messages[id := next];
    }

    method Post(id: nat, actor: string, event: Event, proceeds: bool, now: int)
      modifies this
      ensures Abstract() == After(cfg, old(Abstract()), PostEvent(id, actor, event, proceeds), now)
      ensures proceeds && !event.Progress? && Owned(Swept(cfg, old(Abstract()), now), id, actor) ==>
                && id in messages && messages[id].phase == (if event.Final? then Completed else Error)
                && messages[id].terminalAt == Some(now)
    {
      hide Swept;
      Sweep(now);
      if id !in messages || messages[id].to != actor || !messages[id].kind.Request? { return; }
      if Terminal(messages[id].phase) { return; }
      var next := messages[id];
      match event {
        case Progress =>
          if next.lastProgressAt.Some? && now - next.lastProgressAt.value < cfg.progressInterval { return; }
          if next.phase.Waiting? { next := next.(phase := Executing); }
          next := next.(lastProgressAt := Some(now));
        case Final => next := next.(phase := Completed, terminalAt := Some(now));
        case Fault => next := next.(phase := Error, terminalAt := Some(now));
      }
      if !proceeds { return; }
      messages := messages[id := next];
    }
  }
}
