/** What the calls of the in-memory store do to the messages they meet, said in terms of the
    fields of these messages, and what becomes of a request over a run. */
module Calls {
  import opened Model
  import opened Lifecycle
  import D = Durable
  import Outcomes

  // ---- the sweep ----

  /** A request that is not yet terminal. */
  predicate LiveRequest(m: Message) {
    m.kind.Request? && (m.phase.Pending? || m.phase.Waiting? || m.phase.Executing?)
  }

  predicate Overdue(at: Option<int>, delay: nat, now: int) {
    match at case None => false case Some(t) => t + delay < now
  }

  /** What a sweep makes of one message: it ends a live request whose TTL or ack timeout has
      passed, else delivers a queued one to an active agent or ends it with its grace, and leaves
      everything else alone. */
  predicate SweepsTo(cfg: Limits, m: Message, active: bool, n: Message, now: int) {
    var late := Overdue(m.ttlExpiresAt, 0, now) || (m.phase.Waiting? && Overdue(m.deliveredAt, cfg.ackTimeout, now));
    && (LiveRequest(m) && late ==> n == m.(phase := Error, terminalAt := Some(now)))
    && (LiveRequest(m) && !late && m.queued && active ==>
          n == m.(phase := Waiting, deliveredAt := Some(now), queued := false))
    && (LiveRequest(m) && !late && m.queued && !active && Overdue(m.graceUntil, 0, now) ==>
          n == m.(phase := Error, terminalAt := Some(now), queued := false))
    && (LiveRequest(m) && !late && (!m.queued || (!active && !Overdue(m.graceUntil, 0, now))) ==> n == m)
    && (!LiveRequest(m) ==> n == m)
  }

  /** Inside the interval a sweep does nothing. Any other expires the agents whose time has passed,
      forgets those that have been expired for longer than their retention, and treats every
      message. It removes exactly the messages past the maximal age and those that were terminal
      for longer than the retention, by their terminal time, or else by their creation. */
  lemma SweepDoes(cfg: Limits, s: Store, now: int, id: nat, a: string)
    ensures var t := After(cfg, s, Read, now);
            && (!SweepDue(cfg, s, now) ==> t == s)
            && (SweepDue(cfg, s, now) ==>
                  && t.lastSweepAt == Some(now) && t.next == s.next
                  && (id in t.messages <==> id in s.messages && !Outdated(cfg, s.messages[id], now))
                  && (id in t.messages ==>
                        SweepsTo(cfg, s.messages[id], ActiveAt(s, s.messages[id].to, now), t.messages[id], now))
                  && (a in t.agents <==>
                        a in s.agents && (cfg.agentRetention > 0 ==> now - cfg.agentRetention <= s.agents[a].expiresAt))
                  && (a in t.agents ==> t.agents[a] == Agent(ActiveAt(s, a, now), s.agents[a].expiresAt)))
  {
    hide SweptMessage, Stale, SweepsTo, Outdated;
    if id in s.messages { OneSwept(cfg, SweptAgents(s.agents, now), s.messages[id], now); }
  }

  lemma OneSwept(cfg: Limits, agents: map<string, Agent>, m: Message, now: int)
    ensures var n := SweptMessage(cfg, agents, m, now);
            && SweepsTo(cfg, m, m.to in agents && agents[m.to].active, n, now)
            && (Stale(cfg.durable, n, now) <==> Outdated(cfg, m, now))
  {
  }

  predicate SweepDue(cfg: Limits, s: Store, now: int) {
    cfg.minInterval == 0 || s.lastSweepAt.None? || s.lastSweepAt.value + cfg.minInterval <= now
  }

  predicate ActiveAt(s: Store, agent: string, now: int) {
    agent in s.agents && s.agents[agent].active && now <= s.agents[agent].expiresAt
  }

  predicate Outdated(cfg: Limits, m: Message, now: int) {
    || (cfg.durable.maxAge > 0 && m.createdAt < now - cfg.durable.maxAge)
    || (cfg.durable.retention > 0 && m.phase in {Completed, Rejected, Error}
        && match m.terminalAt
           case Some(at) => at < now - cfg.durable.retention
           case None => m.createdAt < now - cfg.durable.retention)
  }

  // ---- acks and events ----

  /** The actor owns a request that is not terminal after the sweep. */
  predicate MayAnswer(t: Store, id: nat, actor: string) {
    id in t.messages && t.messages[id].to == actor && LiveRequest(t.messages[id])
  }

  /** Only one message may differ. */
  predicate OnlyMessage(t: Store, u: Store, id: nat) {
    id in t.messages && id in u.messages && u == t.(messages := t.messages[id := u.messages[id]])
  }

  /** An ack that proceeds, by the owner of a live request, takes the request off the queue and
      makes it delivered; accepted it is executing, rejected it is terminal at once. Every other
      message is as the sweep left it, and any other ack changes nothing else at all. */
  lemma AckDoes(cfg: Limits, s: Store, id: nat, actor: string, accepted: bool, proceeds: bool, now: int)
    requires StoreOk(s)
    ensures var t, u := After(cfg, s, Read, now), After(cfg, s, Ack(id, actor, accepted, proceeds), now);
            && (!proceeds || !MayAnswer(t, id, actor) ==> u == t)
            && (proceeds && MayAnswer(t, id, actor) ==>
                  && OnlyMessage(t, u, id)
                  && var m, n := t.messages[id], u.messages[id];
                     && SameEnvelope(m, n) && !n.queued && n.lastProgressAt == m.lastProgressAt
                     && n.deliveredAt == (if m.deliveredAt.Some? then m.deliveredAt else Some(now))
                     && (accepted ==> n.phase == Executing && n.terminalAt.None?)
                     && (!accepted ==> n.phase == Rejected && n.terminalAt == Some(now)))
  {
    hide Swept;
    SweepOk(cfg, s, now);
    if id in Swept(cfg, s, now).messages { HeldOk(Swept(cfg, s, now), id); }
  }

  /** Final completes a live request of the actor at this time and an error ends it in error;
      progress takes up only a request that waits, and is refused within the interval of the last
      progress. Every other message is as the sweep left it. */
  lemma EventDoes(cfg: Limits, s: Store, id: nat, actor: string, e: Event, proceeds: bool, now: int)
    requires StoreOk(s)
    ensures var t, u := After(cfg, s, Read, now), After(cfg, s, PostEvent(id, actor, e, proceeds), now);
            && (!proceeds || !MayAnswer(t, id, actor) ==> u == t)
            && (proceeds && MayAnswer(t, id, actor) ==>
                  && OnlyMessage(t, u, id)
                  && var m, n := t.messages[id], u.messages[id];
                     && SameEnvelope(m, n) && n.queued == m.queued && n.deliveredAt == m.deliveredAt
                     && (e.Final? ==> n.phase == Completed && n.terminalAt == Some(now))
                     && (e.Fault? ==> n.phase == Error && n.terminalAt == Some(now))
                     && (!e.Progress? ==> n.lastProgressAt == m.lastProgressAt)
                     && (e.Progress? && m.lastProgressAt.Some? && now < m.lastProgressAt.value + cfg.progressInterval
                         ==> n == m)
                     && (e.Progress? && (m.lastProgressAt.Some? ==>
                                           m.lastProgressAt.value + cfg.progressInterval <= now) ==>
                           && n.lastProgressAt == Some(now) && n.terminalAt.None?
                           && n.phase == if m.phase == Waiting then Executing else m.phase))
  {
    hide Swept;
    SweepOk(cfg, s, now);
    if id in Swept(cfg, s, now).messages { HeldOk(Swept(cfg, s, now), id); }
  }

  // ---- sends, registrations and offers ----

  /** A send stores the next message, or none when its target is unknown or lapsed beyond grace;
      an agent that has expired by this time has lapsed. */
  lemma SendDoes(cfg: Limits, s: Store, send: D.Send, proceeds: bool, now: int)
    ensures var t, u := After(cfg, s, Read, now), After(cfg, s, SendMessage(send, proceeds), now);
            var known, active := send.to in t.agents, send.to in t.agents && t.agents[send.to].active;
            var refused := send.to != ""
                           && (!known || (!active && t.agents[send.to].expiresAt + cfg.durable.grace < now));
            && (!proceeds || refused ==> u == t)
            && (proceeds && !refused ==>
                  && u == t.(messages := t.messages[t.next + 1 := u.messages[t.next + 1]], next := t.next + 1)
                  && (send.to == "" ==>
                        Outcomes.Creates(cfg.durable, send.(target := D.Broadcast), now, u.messages[u.next]))
                  && (send.to != "" && active ==>
                        Outcomes.Creates(cfg.durable, send.(target := D.Active(false)), now, u.messages[u.next]))
                  && (send.to != "" && !active ==>
                        Outcomes.Creates(cfg.durable, send.(target := D.Lapsed(t.agents[send.to].expiresAt)), now,
                                         u.messages[u.next])))
  {
    hide Swept;
  }

  /** A registration that proceeds makes the agent active until its TTL. An offer, which does not
      sweep, unqueues its message, makes a pending request wait and dates an undated one. */
  lemma OtherCallsDo(cfg: Limits, s: Store, agent: string, ttl: nat, proceeds: bool, id: nat, at: Option<int>, now: int)
    ensures var t, u := After(cfg, s, Read, now), After(cfg, s, Register(agent, ttl, proceeds), now);
            u == if proceeds then t.(agents := t.agents[agent := Agent(true, now + ttl)]) else t
    ensures var u := After(cfg, s, Offer(id, at), now);
            && (id !in s.messages ==> u == s)
            && (id in s.messages ==>
                  && OnlyMessage(s, u, id)
                  && var m, n := s.messages[id], u.messages[id];
                     && SameEnvelope(m, n) && !n.queued
                     && n.terminalAt == m.terminalAt && n.lastProgressAt == m.lastProgressAt
                     && n.phase == (if m.kind == Request && m.phase == Pending then Waiting else m.phase)
                     && n.deliveredAt == if m.deliveredAt.Some? then m.deliveredAt else at)
  {
    hide Swept;
  }

  // ---- over runs ----

  /** The part of a run from one call to another. */
  function Part(r: Run, i: nat, j: nat): Run
    requires i <= j <= |r.calls| <= |r.times| && |r.calls| < |r.stores|
  {
    Run(r.stores[i..j + 1], r.calls[i..j], r.times[i..j])
  }

  lemma PartIsRun(cfg: Limits, r: Run, i: nat, j: nat)
    requires IsRun(cfg, r) && StoreOk(r.stores[0]) && i <= j <= |r.calls|
    ensures IsRun(cfg, Part(r, i, j)) && StoreOk(r.stores[i]) && StoreOk(r.stores[j])
    ensures Progresses(r.stores[i], r.stores[j])
  {
    hide StoreOk, Progresses, After;
    LifecycleIsMonotone(cfg, Upto(r, i));
    LifecycleIsMonotone(cfg, Part(r, i, j));
  }

  /** Call k of a run, and nothing stops it. */
  predicate CallIs(r: Run, k: nat, c: Call) {
    k < |r.calls| && r.calls[k] == c
  }

  /** A rejected request stays rejected, with the time of the call that rejected it, over any later
      part of a run that holds it. */
  lemma RejectedForGood(cfg: Limits, r: Run, i: nat, j: nat, id: nat, actor: string)
    requires IsRun(cfg, r) && StoreOk(r.stores[0]) && i < j <= |r.calls|
    requires CallIs(r, i, Ack(id, actor, false, true))
    requires MayAnswer(After(cfg, r.stores[i], Read, r.times[i]), id, actor)
    ensures id in r.stores[i + 1].messages
    ensures id in r.stores[j].messages ==>
              r.stores[j].messages[id].phase.Rejected? && r.stores[j].messages[id].terminalAt == Some(r.times[i])
  {
    hide After, StoreOk, Forward, MayAnswer;
    PartIsRun(cfg, r, i, j);
    PartIsRun(cfg, r, i + 1, j);
    AckDoes(cfg, r.stores[i], id, actor, false, true, r.times[i]);
    if id in r.stores[j].messages {
      KeepsTerminal(r.stores[i + 1].messages[id], r.stores[j].messages[id]);
    }
  }

  lemma KeepsTerminal(m: Message, n: Message)
    requires Forward(m, n) && Terminal(m.phase)
    ensures n.phase == m.phase && n.terminalAt == m.terminalAt
  {
  }

  /** This call ends an executing request: a sweep past its TTL, its owner's final or error event,
      or an ack of its owner that rejects it after all. */
  predicate EndsExecution(s: Store, c: Call, n: Message, id: nat, now: int)
    requires id in s.messages
  {
    var m := s.messages[id];
    && n.terminalAt == Some(now)
    && ((!c.Offer? && Overdue(m.ttlExpiresAt, 0, now) && n.phase.Error?)
        || (c == PostEvent(id, m.to, Final, true) && n.phase.Completed?)
        || (c == PostEvent(id, m.to, Fault, true) && n.phase.Error?)
        || (c == Ack(id, m.to, false, true) && n.phase.Rejected?))
  }

  lemma ExecutingSwept(cfg: Limits, s: Store, now: int, id: nat)
    requires StoreOk(s) && id in s.messages && s.messages[id].phase.Executing?
    ensures var t := After(cfg, s, Read, now);
            id in t.messages ==>
              || t.messages[id] == s.messages[id]
              || (Overdue(s.messages[id].ttlExpiresAt, 0, now)
                  && t.messages[id] == s.messages[id].(phase := Error, terminalAt := Some(now)))
  {
    hide SweepsTo, Swept, MessageOk;
    HeldOk(s, id);
    SweepDoes(cfg, s, now, id, "");
    if SweepDue(cfg, s, now) && id in After(cfg, s, Read, now).messages {
      ExecutingTo(cfg, s.messages[id], ActiveAt(s, s.messages[id].to, now), After(cfg, s, Read, now).messages[id], now);
    }
  }

  lemma ExecutingTo(cfg: Limits, m: Message, active: bool, n: Message, now: int)
    requires MessageOk(m) && m.phase.Executing? && SweepsTo(cfg, m, active, n, now)
    ensures n == if Overdue(m.ttlExpiresAt, 0, now) then m.(phase := Error, terminalAt := Some(now)) else m
  {
  }

  /** The sweep alone, and then the rest of a call. */
  lemma ExecutingStep(cfg: Limits, s: Store, c: Call, now: int, id: nat)
    requires StoreOk(s) && id in s.messages && s.messages[id].phase.Executing?
    ensures var u := After(cfg, s, c, now);
            id in u.messages ==> u.messages[id].phase.Executing? || EndsExecution(s, c, u.messages[id], id, now)
  {
    hide After, StoreOk, Overdue, SameEnvelope;
    ExecutingSwept(cfg, s, now, id);
    KeptByOthers(cfg, s, c, now, id);
    if c.Ack? { AckDoes(cfg, s, c.id, c.actor, c.accepted, c.proceeds, now); }
    else if c.PostEvent? { EventDoes(cfg, s, c.id, c.actor, c.event, c.proceeds, now); }
    else if c.Offer? { OtherCallsDo(cfg, s, "", 0, false, c.id, c.at, now); }
  }

  /** Sends, registrations and reads leave a message that was there as the sweep does. */
  lemma KeptByOthers(cfg: Limits, s: Store, c: Call, now: int, id: nat)
    requires StoreOk(s) && id in s.messages
    ensures var t, u := After(cfg, s, Read, now), After(cfg, s, c, now);
            (c.SendMessage? || c.Register? || c.Read?) && id in u.messages ==>
              id in t.messages && u.messages[id] == t.messages[id]
  {
    hide Swept;
    SweepOk(cfg, s, now);
  }

  /** Call k ends the execution of the request. */
  ghost predicate ExecutionEndsAt(r: Run, k: nat, id: nat)
    requires |r.stores| == |r.calls| + 1 && |r.times| == |r.calls|
  {
    && k < |r.calls| && id in r.stores[k].messages && id in r.stores[k + 1].messages
    && r.stores[k].messages[id].phase.Executing?
    && EndsExecution(r.stores[k], r.calls[k], r.stores[k + 1].messages[id], id, r.times[k])
  }

  lemma {:induction false} ExecutingOver(cfg: Limits, r: Run, i: nat, j: nat, id: nat)
    requires IsRun(cfg, r) && StoreOk(r.stores[0]) && i <= j <= |r.calls|
    requires id in r.stores[i].messages && r.stores[i].messages[id].phase.Executing?
    ensures id in r.stores[j].messages ==>
              || r.stores[j].messages[id].phase.Executing?
              || exists k :: i <= k < j && ExecutionEndsAt(r, k, id)
                             && r.stores[j].messages[id].phase == r.stores[k + 1].messages[id].phase
                             && r.stores[j].messages[id].terminalAt == Some(r.times[k])
    decreases j
  {
    hide After, StoreOk, Forward, MessageOk, EndsExecution;
    if i < j && id in r.stores[j].messages {
      PartIsRun(cfg, r, i, j - 1);
      PartIsRun(cfg, r, j - 1, j);
      Held(r.stores[i], r.stores[j - 1], r.stores[j], id);
      ExecutingOver(cfg, r, i, j - 1, id);
      if r.stores[j - 1].messages[id].phase.Executing? {
        ExecutingStep(cfg, r.stores[j - 1], r.calls[j - 1], r.times[j - 1], id);
        if !r.stores[j].messages[id].phase.Executing? {
          assert ExecutionEndsAt(r, j - 1, id);
          EndsThen(r.stores[j - 1], r.calls[j - 1], r.stores[j].messages[id], id, r.times[j - 1]);
        }
      } else {
        var k :| i <= k < j - 1 && ExecutionEndsAt(r, k, id)
                 && r.stores[j - 1].messages[id].phase == r.stores[k + 1].messages[id].phase
                 && r.stores[j - 1].messages[id].terminalAt == Some(r.times[k]);
        EndsThen(r.stores[k], r.calls[k], r.stores[k + 1].messages[id], id, r.times[k]);
        KeepsTerminal(r.stores[j - 1].messages[id], r.stores[j].messages[id]);
      }
    }
  }

  lemma EndsThen(s: Store, c: Call, n: Message, id: nat, now: int)
    requires id in s.messages && EndsExecution(s, c, n, id, now)
    ensures Terminal(n.phase) && n.terminalAt == Some(now)
  {
  }

  /** A message that was there and is there was there in between. */
  lemma Held(s: Store, t: Store, u: Store, id: nat)
    requires StoreOk(s) && Progresses(s, t) && Progresses(t, u) && id in s.messages && id in u.messages
    ensures id in t.messages && Forward(t.messages[id], u.messages[id])
  {
    hide Forward, MessageOk;
  }

  /** An accepted request is executing, and over any later part of a run that holds it stays so
      until its TTL, its owner's final or error event, or a later rejection ends it; from then on
      it keeps that state, with the time of that call. */
  lemma AcceptedUntilEnded(cfg: Limits, r: Run, i: nat, j: nat, id: nat, actor: string)
    requires IsRun(cfg, r) && StoreOk(r.stores[0]) && i < j <= |r.calls|
    requires CallIs(r, i, Ack(id, actor, true, true))
    requires MayAnswer(After(cfg, r.stores[i], Read, r.times[i]), id, actor)
    ensures id in r.stores[i + 1].messages && r.stores[i + 1].messages[id].phase.Executing?
    ensures id in r.stores[j].messages ==>
              || r.stores[j].messages[id].phase.Executing?
              || exists k :: i < k < j && ExecutionEndsAt(r, k, id)
                             && r.stores[j].messages[id].phase == r.stores[k + 1].messages[id].phase
                             && r.stores[j].messages[id].terminalAt == Some(r.times[k])
  {
    hide After, StoreOk, Forward, MayAnswer, EndsExecution;
    PartIsRun(cfg, r, i, j);
    AckDoes(cfg, r.stores[i], id, actor, true, true, r.times[i]);
    ExecutingOver(cfg, r, i + 1, j, id);
  }

  // ---- a request that nobody answers ----

  predicate Answers(c: Call, id: nat) {
    (c.Ack? || c.PostEvent?) && c.id == id
  }

  /** Waiting since it was sent, or already in error. */
  predicate Unanswered(s: Store, id: nat, since: int) {
    id in s.messages ==>
      var m := s.messages[id];
      m.kind.Request? && (m.phase.Error? || (m.phase.Waiting? && m.deliveredAt == Some(since)))
  }

  lemma UnansweredSwept(cfg: Limits, s: Store, now: int, id: nat, since: int)
    requires StoreOk(s) && Unanswered(s, id, since)
    ensures var t := After(cfg, s, Read, now);
            && Unanswered(t, id, since)
            && (SweepDue(cfg, s, now) && since + cfg.ackTimeout < now && id in t.messages ==>
                  t.messages[id].phase.Error?)
            && (id in t.messages ==> id in s.messages)
  {
    hide SweepsTo, Swept, MessageOk;
    SweepDoes(cfg, s, now, id, "");
    SweepOk(cfg, s, now);
    if id in s.messages { HeldOk(s, id); }
    if SweepDue(cfg, s, now) && id in After(cfg, s, Read, now).messages {
      WaitingTo(cfg, s.messages[id], ActiveAt(s, s.messages[id].to, now), After(cfg, s, Read, now).messages[id], now);
    }
  }

  lemma WaitingTo(cfg: Limits, m: Message, active: bool, n: Message, now: int)
    requires MessageOk(m) && SweepsTo(cfg, m, active, n, now) && m.kind.Request?
    requires m.phase.Error? || (m.phase.Waiting? && m.deliveredAt.Some?)
    ensures n.phase.Error? || n == m
    ensures m.phase.Waiting? && m.deliveredAt.value + cfg.ackTimeout < now ==> n.phase.Error?
    ensures n.kind.Request?
  {
  }

  lemma UnansweredStep(cfg: Limits, s: Store, c: Call, now: int, id: nat, since: int)
    requires StoreOk(s) && Unanswered(s, id, since) && !Answers(c, id) && id <= s.next
    ensures Unanswered(After(cfg, s, c, now), id, since)
    ensures !c.Offer? && SweepDue(cfg, s, now) && since + cfg.ackTimeout < now ==>
              var messages := After(cfg, s, c, now).messages;
              id in messages ==> messages[id].phase.Error?
  {
    hide After, StoreOk, MayAnswer, MessageOk;
    UnansweredSwept(cfg, s, now, id, since);
    if c.Offer? {
      OtherCallsDo(cfg, s, "", 0, false, c.id, c.at, now);
    } else {
      ElsewhereKept(cfg, s, c, now, id);
    }
  }

  /** A call that does not answer the message leaves it as the sweep does. */
  lemma ElsewhereKept(cfg: Limits, s: Store, c: Call, now: int, id: nat)
    requires StoreOk(s) && !Answers(c, id) && !c.Offer? && id <= s.next
    ensures var t, u := After(cfg, s, Read, now), After(cfg, s, c, now);
            (id in u.messages <==> id in t.messages) && (id in u.messages ==> u.messages[id] == t.messages[id])
  {
    hide Swept;
    SweepOk(cfg, s, now);
  }

  lemma {:induction false} UnansweredOver(cfg: Limits, r: Run, i: nat, j: nat, id: nat, since: int)
    requires IsRun(cfg, r) && StoreOk(r.stores[0]) && i <= j <= |r.calls|
    requires Unanswered(r.stores[i], id, since) && id <= r.stores[i].next
    requires forall k :: i <= k < j ==> !Answers(r.calls[k], id)
    ensures Unanswered(r.stores[j], id, since) && id <= r.stores[j].next
    decreases j
  {
    hide After, StoreOk, Unanswered, Answers, Forward;
    if i < j {
      UnansweredOver(cfg, r, i, j - 1, id, since);
      PartIsRun(cfg, r, j - 1, j);
      UnansweredStep(cfg, r.stores[j - 1], r.calls[j - 1], r.times[j - 1], id, since);
    }
  }

  /** Call i sends a request to an active agent. */
  predicate SendsRequest(cfg: Limits, r: Run, i: nat, send: D.Send)
    requires i < |r.calls| && |r.stores| == |r.calls| + 1 && |r.times| == |r.calls|
  {
    && r.calls[i] == SendMessage(send, true) && send.kind.Request? && send.to != ""
    && var t := After(cfg, r.stores[i], Read, r.times[i]);
       send.to in t.agents && t.agents[send.to].active
  }

  /** A request to an active agent waits from the moment it is sent, and if nobody acks it or
      reports on it, then after any full sweep later than the ack timeout it is in error, for as
      long as it is held. */
  lemma UnansweredTimesOut(cfg: Limits, r: Run, i: nat, j: nat, send: D.Send)
    requires IsRun(cfg, r) && StoreOk(r.stores[0]) && i < j < |r.calls| && SendsRequest(cfg, r, i, send)
    requires forall k :: i < k <= j ==> !Answers(r.calls[k], r.stores[i + 1].next)
    requires !r.calls[j].Offer? && SweepDue(cfg, r.stores[j], r.times[j])
    requires r.times[j] > r.times[i] + cfg.ackTimeout
    ensures var id := r.stores[i + 1].next;
            && id in r.stores[i + 1].messages && r.stores[i + 1].messages[id].phase == Waiting
            && r.stores[i + 1].messages[id].deliveredAt == Some(r.times[i])
            && (id in r.stores[j + 1].messages ==> r.stores[j + 1].messages[id].phase == Error)
  {
    hide After, StoreOk, Answers, Forward;
    var id := r.stores[i + 1].next;
    SendDoes(cfg, r.stores[i], send, true, r.times[i]);
    UnansweredOver(cfg, r, i + 1, j, id, r.times[i]);
    PartIsRun(cfg, r, j, j);
    UnansweredStep(cfg, r.stores[j], r.calls[j], r.times[j], id, r.times[i]);
  }
}
