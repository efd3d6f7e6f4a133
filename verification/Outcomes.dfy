/** What the operations of the delivery protocol do to the rows they meet, said in terms of the
    fields of these rows. */
module Outcomes {
  import opened Model
  import opened Durable
  import opened Stamps
  import opened Batch
  import opened Paging
  import opened Protocol

  // ---- a poll ----

  /** The bytes of a batch are the sizes of its messages, added up. */
  lemma BytesAreSizes(messages: map<nat, Message>, ids: seq<nat>, id: nat)
    requires id in messages
    ensures Bytes(messages, []) == 0
    ensures Bytes(messages, ids + [id]) == Bytes(messages, ids) + messages[id].size
  {
    assert (ids + [id])[..|ids|] == ids;
  }

  /** The cursor a poll commits is the requested one, but for a request below the acknowledged
      cursor or past the end; the end stays, and other agents' cursors stay. An agent without a
      cursor row gets one. */
  lemma PollCommits(cfg: Config, db: Tables, agent: string, requested: int, limit: int, now: int)
    requires TablesOk(cfg, db)
    ensures var was := if agent in db.cursors then db.cursors[agent] else Cursor(0, 0);
            var cursors := PollOnce(cfg, db, agent, requested, limit, now).db.cursors;
            && cursors.Keys == db.cursors.Keys + {agent}
            && (forall other :: other in db.cursors && other != agent ==> cursors[other] == db.cursors[other])
            && cursors[agent].next == was.next
            && (was.acked <= requested <= was.next ==> cursors[agent].acked == requested)
            && (requested < was.acked ==> cursors[agent].acked == was.acked)
            && (was.next < requested ==> cursors[agent].acked == was.next)
  {
    hide Chosen, AckPrefix, OfferAll, SlotsUnique, RowOk;
  }

  /** A poll offers a row exactly when it belongs to the agent, is pending or attempting, has not
      reached its deadline and lies between the acknowledged or requested cursor, whichever is
      later, and the returned one. */
  lemma PollOffers(cfg: Config, db: Tables, agent: string, requested: int, limit: int, now: int, id: nat)
    requires TablesOk(cfg, db)
    ensures var r := PollOnce(cfg, db, agent, requested, limit, now);
            id in r.batch <==>
              && id in db.deliveries && db.deliveries[id].target == agent
              && (db.deliveries[id].status.Pending? || db.deliveries[id].status.Attempting?)
              && Sooner(now, db.deliveries[id].expiresAt)
              && requested <= db.deliveries[id].slot < r.cursor
  {
    hide PollOnce, Bytes, Sooner, TablesOk, RowOk, Ordered, SlotsUnique, CursorOf;
    var c, end := Clamp(CursorOf(db, agent), requested), CursorOf(db, agent).next;
    var r := PollOnce(cfg, db, agent, requested, limit, now);
    CursorsInRange(cfg, db, agent);
    PollSplits(cfg, db, agent, requested, limit, now);
    OrderedExactly(db.deliveries, agent, c, end, now);
    OrderedExactly(db.deliveries, agent, r.cursor, end, now);
    var all := Ordered(db.deliveries, agent, c, end, now);
    assert all == r.batch + all[|r.batch|..];
    if id in all[..|r.batch|] { PrefixApart(db.deliveries, all, |r.batch|, id); }
    if id in db.deliveries && db.deliveries[id].target == agent && Live(db.deliveries[id]) {
      RowInRange(cfg, db, id);
      assert c <= db.deliveries[id].slot <==> requested <= db.deliveries[id].slot;
    }
    assert id in all <==> InRange(db.deliveries, agent, c, end, now, id);
    assert id in all[|r.batch|..] <==> InRange(db.deliveries, agent, r.cursor, end, now, id);
  }

  /** What a poll leaves is the part of its listing past the returned cursor. */
  lemma PollSplits(cfg: Config, db: Tables, agent: string, requested: int, limit: int, now: int)
    requires TablesOk(cfg, db)
    ensures var r := PollOnce(cfg, db, agent, requested, limit, now);
            var all := Outstanding(db, agent, Clamp(CursorOf(db, agent), requested), now);
            && |r.batch| <= |all| && r.batch == all[..|r.batch|]
            && Clamp(CursorOf(db, agent), requested) <= r.cursor
            && all[|r.batch|..] == Ordered(db.deliveries, agent, r.cursor, CursorOf(db, agent).next, now)
  {
    hide Chosen, Bytes, SlotsUnique, AckPrefix, OfferAll, RowOk, Ordered;
    CursorsInRange(cfg, db, agent);
    var c := Clamp(CursorOf(db, agent), requested);
    var r := PollOnce(cfg, db, agent, requested, limit, now);
    PollOffersPrefix(cfg, db, agent, requested, limit, now);
    MessagesKept(cfg, db, agent, requested, limit, now);
    AdvancedKeeps(db, agent, c, now, r.cursor, now);
  }

  lemma CursorsInRange(cfg: Config, db: Tables, agent: string)
    requires TablesOk(cfg, db)
    ensures CursorOf(db, agent).acked <= CursorOf(db, agent).next && SlotsUnique(db.deliveries)
  {
  }

  lemma RowInRange(cfg: Config, db: Tables, id: nat)
    requires TablesOk(cfg, db) && id in db.deliveries && Live(db.deliveries[id])
    ensures var d := db.deliveries[id];
            CursorOf(db, d.target).acked <= d.slot < CursorOf(db, d.target).next
  {
    assert RowOk(db, id);
  }

  /** The limits of a poll: the client's, when it gives one, and the configured number of events
      and bytes, with their fallbacks. A first event may exceed the bytes alone; and a poll that
      stops before a row has reached one of these numbers. */
  lemma PollLimits(cfg: Config, db: Tables, agent: string, requested: int, limit: int, now: int)
    requires TablesOk(cfg, db)
    ensures var r := PollOnce(cfg, db, agent, requested, limit, now);
            var events := if cfg.maxEvents > 0 then cfg.maxEvents else 10000;
            var bytes := if 0 < cfg.maxBytes <= 33554432 then cfg.maxBytes else 33554432;
            && (limit > 0 ==> |r.batch| <= limit)
            && |r.batch| <= events
            && (|r.batch| >= 2 ==> Bytes(db.messages, r.batch) <= bytes)
            && forall id :: PassedOver(db, agent, requested, r.cursor, now, id) ==>
                 || |r.batch| == events || (limit > 0 && |r.batch| == limit)
                 || (|r.batch| >= 1 && id in db.messages
                     && Bytes(db.messages, r.batch) + db.messages[id].size > bytes)
  {
    hide PollOnce, Bytes, Sooner, TablesOk, RowOk;
    CursorsInRange(cfg, db, agent);
    var c := Clamp(CursorOf(db, agent), requested);
    var r := PollOnce(cfg, db, agent, requested, limit, now);
    PollOffersPrefix(cfg, db, agent, requested, limit, now);
    var all, n := Outstanding(db, agent, c, now), |r.batch|;
    forall id | PassedOver(db, agent, requested, r.cursor, now, id) && n < EventLimit(cfg, limit)
      ensures n > 0 && id in db.messages && Bytes(db.messages, r.batch) + db.messages[id].size > BatchBytes(cfg)
    {
      NextIsPassedOver(cfg, db, agent, requested, limit, now, id);
      BytesStep(db.messages, all, n);
    }
  }

  /** The first row in slot order that a poll could have offered too. */
  ghost predicate PassedOver(db: Tables, agent: string, requested: int, cursor: nat, now: int, id: nat) {
    && Unread(db, agent, requested, cursor, now, id)
    && forall other :: Unread(db, agent, requested, cursor, now, other) ==>
         db.deliveries[id].slot <= db.deliveries[other].slot
  }

  /** A row at or past both cursors that the agent could still be offered. */
  predicate Unread(db: Tables, agent: string, requested: int, cursor: nat, now: int, id: nat) {
    && id in db.deliveries && db.deliveries[id].target == agent
    && (db.deliveries[id].status.Pending? || db.deliveries[id].status.Attempting?)
    && Sooner(now, db.deliveries[id].expiresAt)
    && requested <= db.deliveries[id].slot && cursor <= db.deliveries[id].slot
  }

  lemma NextIsPassedOver(cfg: Config, db: Tables, agent: string, requested: int, limit: int, now: int, id: nat)
    requires TablesOk(cfg, db)
    requires PassedOver(db, agent, requested, PollOnce(cfg, db, agent, requested, limit, now).cursor, now, id)
    ensures var r := PollOnce(cfg, db, agent, requested, limit, now);
            var all := Outstanding(db, agent, Clamp(CursorOf(db, agent), requested), now);
            |r.batch| < |all| && all[|r.batch|] == id && id in db.messages
  {
    hide PollOnce, Bytes, Sooner, TablesOk, Ordered;
    var r := PollOnce(cfg, db, agent, requested, limit, now);
    var all, end := Outstanding(db, agent, Clamp(CursorOf(db, agent), requested), now), CursorOf(db, agent).next;
    CursorsInRange(cfg, db, agent);
    PollOffersPrefix(cfg, db, agent, requested, limit, now);
    PollSplits(cfg, db, agent, requested, limit, now);
    OrderedExactly(db.deliveries, agent, r.cursor, end, now);
    RowInRange(cfg, db, id);
    KnownRow(cfg, db, id);
    var rest := all[|r.batch|..];
    assert InRange(db.deliveries, agent, r.cursor, end, now, id);
    assert rest[0] in rest;
    RowInRange(cfg, db, rest[0]);
    assert Unread(db, agent, requested, r.cursor, now, rest[0]);
    var k :| 0 <= k < |rest| && rest[k] == id;
    FirstIsLeast(db.deliveries, rest, k);
  }

  lemma FirstIsLeast(d: map<nat, Delivery>, ids: seq<nat>, k: nat)
    requires SlotSorted(d, ids) && k < |ids| && d[ids[k]].slot <= d[ids[0]].slot
    ensures k == 0
  {
  }

  lemma KnownRow(cfg: Config, db: Tables, id: nat)
    requires TablesOk(cfg, db) && id in db.deliveries
    ensures id in db.messages
  {
    assert RowOk(db, id);
  }

  /** The message as it is once handed out at this time: off the queue, a pending request waiting,
      an earlier delivery time kept, the rest as before. */
  predicate HandedOut(m: Message, n: Message, now: int) {
    && SameEnvelope(m, n) && n.terminalAt == m.terminalAt && n.lastProgressAt == m.lastProgressAt
    && !n.queued
    && (m.kind.Request? && m.phase.Pending? ==> n.phase.Waiting?)
    && (!m.kind.Request? || !m.phase.Pending? ==> n.phase == m.phase)
    && (m.deliveredAt.None? ==> n.deliveredAt == Some(now))
    && (m.deliveredAt.Some? ==> n.deliveredAt == m.deliveredAt)
  }

  /** A poll receives the rows below its committed cursor and hands out the messages it offers;
      every other row, and every other message, stays as it was. */
  lemma PollWrites(cfg: Config, db: Tables, agent: string, requested: int, limit: int, now: int, id: nat)
    requires TablesOk(cfg, db)
    ensures var r := PollOnce(cfg, db, agent, requested, limit, now);
            && r.db.receipts == db.receipts && r.db.nextMessage == db.nextMessage
            && (id in r.db.deliveries <==> id in db.deliveries) && (id in r.db.messages <==> id in db.messages)
            && (id in db.deliveries ==>
                  var d, e := db.deliveries[id], r.db.deliveries[id];
                  if d.target == agent && agent in r.db.cursors && d.slot < r.db.cursors[agent].acked
                     && (d.status.Pending? || d.status.Attempting?)
                  then e == d.(status := Received, receivedAt := Some(now))
                  else e == d)
            && (id in db.messages && id in r.batch ==> HandedOut(db.messages[id], r.db.messages[id], now))
            && (id in db.messages && id !in r.batch ==> r.db.messages[id] == db.messages[id])
  {
    hide Chosen, SlotsUnique, RowOk;
    if id in db.deliveries && Live(db.deliveries[id]) { RowInRange(cfg, db, id); }
    CursorsInRange(cfg, db, agent);
  }

  // ---- a send ----

  /** The message that an accepted send creates, target by target and kind by kind. */
  predicate Creates(cfg: Config, s: Send, now: int, m: Message) {
    && m.kind == s.kind && m.from == s.from && m.to == s.to && m.requestId == s.requestId && m.size == s.size
    && m.createdAt == now && m.ttlExpiresAt == Some(now + s.ttl) && m.lastProgressAt.None?
    && (s.target.Lapsed? ==>
          m.queued && m.deliveredAt.None? && m.graceUntil == Some(s.target.expiredAt + cfg.grace))
    && (!s.target.Lapsed? ==> !m.queued && m.graceUntil.None?)
    && (s.target.Lapsed? && (s.kind.Request? || s.human) ==> m.phase.Pending? && m.terminalAt.None?)
    && (!s.target.Lapsed? && s.kind.Request? ==>
          m.phase.Waiting? && m.terminalAt.None? && m.deliveredAt == Some(now))
    && (!s.kind.Request? && !(s.target.Lapsed? && s.human) ==>
          m.phase.Completed? && m.terminalAt == Some(now) && m.deliveredAt.None?)
  }

  /** A send is refused exactly when its target is unknown, or has lapsed for longer than the
      grace and no earlier message answers for the key; and what it commits is the next message,
      with a key unless it is an injection, and with a push to an active push agent. */
  lemma SendDecides(cfg: Config, s: State, send: Send, dbFails: bool, now: int)
    requires Enabled(cfg, s, Commit(send, dbFails), now)
    ensures var p := s.process.value;
            var o := Decide(cfg, s.db, p, send, dbFails, now);
            var key := Key(send.from, send.to, send.requestId);
            && (o.Duplicate? <==>
                  && !send.target.Unregistered? && !send.human && key in p.entries
                  && now <= p.entries[key].createdAt + cfg.window)
            && (o.Duplicate? ==> o.id == p.entries[key].id)
            && (o.Refused? <==>
                  || send.target.Unregistered?
                  || (send.target.Lapsed? && send.target.expiredAt + cfg.grace < now && !o.Duplicate?))
            && (o.Committed? ==>
                  && !dbFails && o.a.id == p.nextMessage + 1
                  && Creates(cfg, send, now, o.a.message)
                  && o.a.key == (if send.human then None else Some(key))
                  && (o.a.push <==> send.target == Active(true)))
  {
    hide Conflicts;
  }

  /** The rows an acceptance writes. The delivery is due at the earlier of TTL and grace, a lease
      at once exactly when it is to be pushed, and takes the next slot of its target. */
  lemma SendWrites(cfg: Config, s: State, send: Send, dbFails: bool, now: int, a: Acceptance)
    requires Enabled(cfg, s, Commit(send, dbFails), now)
    requires Decide(cfg, s.db, s.process.value, send, dbFails, now) == Committed(a)
    ensures var t := Apply(cfg, s, Commit(send, dbFails), now);
            var was := if send.to in s.db.cursors then s.db.cursors[send.to] else Cursor(0, 0);
            var deadline := if send.target.Lapsed? && send.target.expiredAt + cfg.grace < now + send.ttl
                            then send.target.expiredAt + cfg.grace else now + send.ttl;
            var row := Delivery(send.to, was.next, if send.target == Active(true) then Attempting else Status.Pending,
                                Some(now), 0, None, deadline);
            && t.process == Some(s.process.value.(held := Some(a)))
            && t.db.messages == s.db.messages[a.id := a.message] && t.db.nextMessage == a.id
            && (send.to == "" ==> t.db.deliveries == s.db.deliveries && t.db.cursors == s.db.cursors)
            && (send.to != "" ==>
                  && t.db.deliveries == s.db.deliveries[a.id := row]
                  && t.db.cursors == s.db.cursors[send.to := Cursor(was.next + 1, was.acked)])
            && t.db.receipts == (if send.human then s.db.receipts
                                 else s.db.receipts[Key(send.from, send.to, send.requestId) :=
                                                      Receipt(a.id, now, now + cfg.window)])
  {
    hide Conflicts;
  }

  // ---- a push claim ----

  /** Row a is to be tried before row b: at an earlier time, or at the same time in an earlier
      slot. No time at all comes first. */
  predicate Earlier(a: Delivery, b: Delivery) {
    match (a.nextAttempt, b.nextAttempt)
    case (None, Some(_)) => true
    case (Some(_), None) => false
    case (None, None) => a.slot < b.slot
    case (Some(x), Some(y)) => Sooner(x, y) || (x == y && a.slot < b.slot)
  }

  /** The rows a push claim may take: pending, with their retry time come, their deadline not, and
      a target that can be pushed to. */
  function Awaiting(d: map<nat, Delivery>, pushable: set<string>, now: int): set<nat> {
    set i | && i in d && d[i].status.Pending?
            && (d[i].nextAttempt.None? || !Sooner(now, d[i].nextAttempt.value))
            && Sooner(now, d[i].expiresAt) && d[i].target in pushable
  }

  /** The rows that must be tried before one row, and those that may be. */
  function MustPrecede(d: map<nat, Delivery>, rows: set<nat>, id: nat): set<nat>
    requires rows <= d.Keys && id in rows
  {
    set i | i in rows && Earlier(d[i], d[id])
  }

  function MayPrecede(d: map<nat, Delivery>, rows: set<nat>, id: nat): set<nat>
    requires rows <= d.Keys && id in rows
  {
    set i | i in rows && i != id && !Earlier(d[id], d[i])
  }

  /** One claim takes only rows that await it, at most 32; and of these a given one if fewer than
      32 others may be tried before it, and only if fewer than 32 must be. */
  lemma ClaimTakes(cfg: Config, s: State, chosen: set<nat>, pushable: set<string>, now: int, id: nat)
    requires Enabled(cfg, s, Claim(chosen, pushable), now)
    ensures chosen <= Awaiting(s.db.deliveries, pushable, now) && |chosen| <= 32
    ensures var d, rows := s.db.deliveries, Awaiting(s.db.deliveries, pushable, now);
            id in rows ==> (|MayPrecede(d, rows, id)| < 32 ==> id in chosen)
                           && (id in chosen ==> |MustPrecede(d, rows, id)| < 32)
  {
    hide Sooner, Earlier, Before, Awaiting, MustPrecede, MayPrecede;
    var d, rows := s.db.deliveries, Awaiting(s.db.deliveries, pushable, now);
    BatchOfAwaiting(d, chosen, pushable, now);
    if id in rows { BatchCounts(d, rows, chosen, id); }
  }

  lemma BatchCounts(d: map<nat, Delivery>, rows: set<nat>, chosen: set<nat>, id: nat)
    requires chosen <= rows <= d.Keys && |chosen| <= 32 && (|chosen| == 32 || chosen == rows) && id in rows
    requires forall i, j :: i in chosen && j in rows && j !in chosen ==> !Earlier(d[j], d[i])
    ensures |MayPrecede(d, rows, id)| < 32 ==> id in chosen
    ensures id in chosen ==> |MustPrecede(d, rows, id)| < 32
  {
    hide Earlier;
    if id in chosen {
      NotBeforeItself(d[id]);
      SubsetSize(MustPrecede(d, rows, id), chosen - {id});
    } else {
      SubsetSize(chosen, MayPrecede(d, rows, id));
    }
  }

  lemma NotBeforeItself(a: Delivery)
    ensures !Earlier(a, a)
  {
    hide Sooner;
    if a.nextAttempt.Some? { SoonerTotal(a.nextAttempt.value, a.nextAttempt.value); }
  }

  lemma BatchOfAwaiting(d: map<nat, Delivery>, chosen: set<nat>, pushable: set<string>, now: int)
    requires FirstBatch(ExpireDue(d, now), chosen, pushable, now)
    ensures var due := Awaiting(d, pushable, now);
            && due <= d.Keys && chosen <= due && |chosen| <= 32 && (|chosen| == 32 || chosen == due)
            && forall i, j :: i in chosen && j in due && j !in chosen ==> !Earlier(d[j], d[i])
  {
    hide Sooner, Earlier, Before;
    var e, due := ExpireDue(d, now), Awaiting(d, pushable, now);
    assert due == set i | i in e && Claimable(e[i], pushable, now);
    if |chosen| != 32 { SameSize(chosen, due); }
    forall i, j | i in chosen && j in due && j !in chosen ensures !Earlier(d[j], d[i]) {
      assert Before(e[i], e[j]) && e[i] == d[i] && e[j] == d[j];
      OrderTotal(d[i], d[j]);
    }
  }

  lemma OrderTotal(a: Delivery, b: Delivery)
    ensures Before(a, b) ==> !Earlier(b, a)
  {
    hide Sooner;
    if a.nextAttempt.Some? && b.nextAttempt.Some? {
      SoonerTotal(a.nextAttempt.value, b.nextAttempt.value);
    }
  }

  lemma SameSize(a: set<nat>, b: set<nat>)
    requires a <= b && |a| == |b|
    ensures a == b
  {
    if x :| x in b && x !in a { assert a <= b - {x}; SubsetSize(a, b - {x}); }
  }

  lemma {:induction false} SubsetSize(a: set<nat>, b: set<nat>)
    requires a <= b
    ensures |a| <= |b|
  {
    if a != {} {
      var x :| x in a;
      SubsetSize(a - {x}, b - {x});
    }
  }

  /** What a claim writes: live rows at their deadline fail, the chosen rows become leases and
      their messages are handed out; all else stays. */
  lemma ClaimWrites(cfg: Config, s: State, chosen: set<nat>, pushable: set<string>, now: int, id: nat)
    requires Enabled(cfg, s, Claim(chosen, pushable), now)
    ensures var t := Apply(cfg, s, Claim(chosen, pushable), now);
            && t.db.cursors == s.db.cursors && t.db.receipts == s.db.receipts && t.db.nextMessage == s.db.nextMessage
            && t.process == Some(s.process.value.(claimed := s.process.value.claimed + multiset(chosen)))
            && (id in t.db.deliveries <==> id in s.db.deliveries) && (id in t.db.messages <==> id in s.db.messages)
            && (id in s.db.deliveries ==>
                  var d, e := s.db.deliveries[id], t.db.deliveries[id];
                  if id in chosen then e == d.(status := Attempting)
                  else if (d.status.Pending? || d.status.Attempting?) && !Sooner(now, d.expiresAt)
                  then e == d.(status := Failed, nextAttempt := None)
                  else e == d)
            && (id in s.db.messages && id in chosen ==> HandedOut(s.db.messages[id], t.db.messages[id], now))
            && (id in s.db.messages && id !in chosen ==> t.db.messages[id] == s.db.messages[id])
  {
    hide Sooner, Before;
  }

  // ---- the end of a push cycle ----

  /** A push that fails with k attempts ends a lease: before its deadline the row is pending again
      and may be tried after the delay, at the deadline it has failed. Any other row stays. */
  lemma FailureWrites(cfg: Config, db: Tables, id: nat, k: nat, now: int)
    ensures var e := FailureWritten(cfg, db, id, k, now);
            var delay := if k <= 1 then cfg.baseBackoff
                         else if Doubled(cfg.baseBackoff, k - 1) >= 30000000000 then 30000000000
                         else Doubled(cfg.baseBackoff, k - 1);
            && e == db.(deliveries := e.deliveries) && e.deliveries.Keys == db.deliveries.Keys
            && (forall i :: i in db.deliveries && (i != id || !db.deliveries[i].status.Attempting?) ==>
                  e.deliveries[i] == db.deliveries[i])
            && (id in db.deliveries && db.deliveries[id].status.Attempting? ==>
                  e.deliveries[id] == db.deliveries[id].(
                    attempts := db.deliveries[id].attempts + k,
                    status := if Sooner(now, db.deliveries[id].expiresAt) then Status.Pending else Failed,
                    nextAttempt := if Sooner(now, db.deliveries[id].expiresAt) then Some(now + delay) else None))
  {
    hide Sooner, Doubled, Backoff;
    BackoffIsCappedDoubling(cfg.baseBackoff, k);
  }

  /** The end of a push cycle at the level of the protocol: success receives a leased row, and any
      of the three ways to fail writes the failure, with the attempts that were made. */
  lemma CycleWrites(cfg: Config, s: State, l: Label, now: int, id: nat)
    requires Enabled(cfg, s, l, now) && id in s.db.deliveries
    ensures var d := s.db.deliveries[id];
            var t := Apply(cfg, s, l, now).db;
            && (l.Succeed? ==>
                  t == s.db.(deliveries := t.deliveries) && id in t.deliveries
                  && t.deliveries[id] == if id == l.done && d.status.Attempting?
                                         then d.(status := Received, receivedAt := Some(now), nextAttempt := None,
                                                 attempts := d.attempts + l.attempts)
                                         else d)
            && (l.GiveUp? ==> t == FailureWritten(cfg, s.db, l.failed, l.tries, now))
            && (l.WriteFailure? ==> t == FailureWritten(cfg, s.db, l.late, 0, now))
            && (l.Enqueue? ==>
                  var p := s.process.value;
                  t == if l.job in s.db.messages && !p.closed && |p.queue| < cfg.queueSize then s.db
                       else FailureWritten(cfg, s.db, l.job, 0, now))
            && (l.Report? ==>
                  t == s.db.(messages := s.db.messages[l.id := l.next], deliveries := t.deliveries)
                  && id in t.deliveries
                  && t.deliveries[id] == if id == l.id && (d.status.Pending? || d.status.Attempting?)
                                         then d.(status := Received, receivedAt := Some(now)) else d)
  {
    hide FailureWritten;
  }

  // ---- retention, recovery and the duplicate index ----

  /** Which messages a prune keeps, also the one at startup: those younger than the maximal age,
      which are not terminal or whose terminal time, or else whose creation, is within retention;
      and any whose delivery is live with its deadline ahead. What it keeps it leaves alone. */
  lemma PruneKeeps(cfg: Config, s: State, l: Label, now: int, id: nat)
    requires Enabled(cfg, s, l, now) && (l.Prune? || l.Restart?) && id in s.db.messages
    ensures var m := s.db.messages[id];
            var t := Apply(cfg, s, l, now).db;
            && (id in t.messages <==>
                  || (id in s.db.deliveries
                      && (s.db.deliveries[id].status.Pending? || s.db.deliveries[id].status.Attempting?)
                      && Sooner(now, s.db.deliveries[id].expiresAt))
                  || ((cfg.maxAge > 0 ==> !Sooner(m.createdAt, now - cfg.maxAge))
                      && (cfg.retention > 0 && m.phase in {Completed, Rejected, Error} ==>
                            match m.terminalAt
                            case Some(at) => !Sooner(at, now - cfg.retention)
                            case None => !Sooner(m.createdAt, now - cfg.retention))))
            && (id in t.messages ==> t.messages[id] == m)
  {
    hide Sooner, PastRetention;
    AgeLimits(cfg, s.db.messages[id], now);
  }

  lemma AgeLimits(cfg: Config, m: Message, now: int)
    ensures !PastRetention(cfg, m, now) <==>
              && (cfg.maxAge > 0 ==> !Sooner(m.createdAt, now - cfg.maxAge))
              && (cfg.retention > 0 && m.phase in {Completed, Rejected, Error} ==>
                    match m.terminalAt
                    case Some(at) => !Sooner(at, now - cfg.retention)
                    case None => !Sooner(m.createdAt, now - cfg.retention))
  {
    hide Sooner;
  }

  /** What a prune does to the other tables. Deliveries go with their message and fail at their
      deadline, a startup returns leases first, and a receipt goes once its end has passed. */
  lemma PruneWrites(cfg: Config, s: State, l: Label, now: int, id: nat, k: Key)
    requires Enabled(cfg, s, l, now) && (l.Prune? || l.Restart?)
    ensures var t := Apply(cfg, s, l, now).db;
            && t.messages.Keys <= s.db.messages.Keys
            && t.cursors == s.db.cursors && t.nextMessage == s.db.nextMessage
            && (id in t.deliveries <==> id in s.db.deliveries && id in t.messages)
            && (id in t.deliveries ==>
                  var d := s.db.deliveries[id];
                  t.deliveries[id] == if d.status.Received? || d.status.Failed? then d
                                      else if !Sooner(now, d.expiresAt) then d.(status := Failed, nextAttempt := None)
                                      else if l.Restart? then d.(status := Status.Pending)
                                      else d)
            && (k in t.receipts <==> k in s.db.receipts && !Sooner(s.db.receipts[k].expiresAt, now))
            && (k in t.receipts ==> t.receipts[k] == s.db.receipts[k])
  {
    hide Sooner, PastRetention;
  }

  /** A starting process has the messages, the counter and the receipts of its tables, with no
      job, no acceptance held and nothing stopped; shutdown makes leases pending, to be tried at
      once if they had no time. */
  lemma RecoveryWrites(cfg: Config, s: State, l: Label, now: int, id: nat, k: Key)
    requires Enabled(cfg, s, l, now) && (l.Restart? || l.RecoverLeases?)
    ensures var t := Apply(cfg, s, l, now);
            && (l.Restart? ==>
                  var p := t.process.value;
                  && p.messages == t.db.messages && p.nextMessage == t.db.nextMessage
                  && (k in p.entries <==> k in t.db.receipts)
                  && (k in p.entries ==> p.entries[k] == Entry(t.db.receipts[k].id, t.db.receipts[k].acceptedAt))
                  && p.held.None? && p.queue == [] && p.claimed == p.running == p.detached == multiset{}
                  && p.wg == 0 && !p.stopped && !p.closed && !p.queueClosed && !p.recovered)
            && (l.RecoverLeases? ==>
                  && t.db == s.db.(deliveries := t.db.deliveries)
                  && (id in t.db.deliveries <==> id in s.db.deliveries)
                  && (id in s.db.deliveries ==>
                        var d := s.db.deliveries[id];
                        if d.status.Attempting?
                        then t.db.deliveries[id] == d.(status := Status.Pending,
                                                       nextAttempt := Some(match d.nextAttempt case Some(at) => at
                                                                                              case None => now))
                        else t.db.deliveries[id] == d))
  {
    hide Sooner, PastRetention, ExpireDue;
  }

  /** Publication shows the accepted message and its key. A push job joins the end of the queue,
      or is written off in the background when the queue is full; once shutdown has begun there
      is none. */
  lemma PublishShows(cfg: Config, s: State, now: int)
    requires Enabled(cfg, s, Publish, now)
    ensures var p, q := s.process.value, Apply(cfg, s, Publish, now).process.value;
            var a := p.held.value;
            && Apply(cfg, s, Publish, now).db == s.db
            && q.messages == p.messages[a.id := a.message] && q.nextMessage == a.id && q.held.None?
            && q.entries == (if a.key.None? then p.entries
                             else p.entries[a.key.value := Entry(a.id, a.message.createdAt)])
            && (a.push && !p.closed && |p.queue| < cfg.queueSize ==>
                  q.queue == p.queue + [a.id] && q.detached == p.detached && q.wg == p.wg + 1)
            && (a.push && !p.closed && |p.queue| >= cfg.queueSize ==>
                  q.queue == p.queue && q.detached == p.detached + multiset{a.id} && q.wg == p.wg + 1)
            && (!a.push || p.closed ==> q.queue == p.queue && q.detached == p.detached && q.wg == p.wg)
            && q.claimed == p.claimed && q.running == p.running && q.stopped == p.stopped && q.closed == p.closed
  {
  }

  /** The duplicate index forgets, when tidied, exactly the keys whose window is over. */
  lemma TidyForgets(cfg: Config, s: State, kept: map<nat, Message>, now: int, k: Key)
    requires Enabled(cfg, s, Tidy(kept), now)
    ensures var p, q := s.process.value, Apply(cfg, s, Tidy(kept), now).process.value;
            && Apply(cfg, s, Tidy(kept), now).db == s.db && q == p.(messages := kept, entries := q.entries)
            && (k in q.entries <==> k in p.entries && now <= p.entries[k].createdAt + cfg.window)
            && (k in q.entries ==> q.entries[k] == p.entries[k])
  {
  }

  // ---- the process ----

  /** What may happen when. Above all: a crash may come in every state of a running process, also
      between the commit of an acceptance and its publication, and a start in every other; a poll
      never has to wait; and while an acceptance is held nothing else takes the store lock. */
  lemma MayHappen(cfg: Config, s: State, l: Label, now: int)
    requires s.clock <= now
    ensures l.Crash? || l.PollInbox? ==> (Enabled(cfg, s, l, now) <==> s.process.Some?)
    ensures l.Restart? ==> (Enabled(cfg, s, l, now) <==> s.process.None?)
    ensures !l.Restart? && s.process.None? ==> !Enabled(cfg, s, l, now)
    ensures s.process.Some? && s.process.value.held.Some? ==>
              && (l.Publish? ==> Enabled(cfg, s, l, now))
              && (l.Commit? || l.Tidy? || l.Report? || l.Enqueue? || l.BeginClose? ==> !Enabled(cfg, s, l, now))
    ensures s.process.Some? && s.process.value.held.None? ==>
              var p := s.process.value;
              && (l.Publish? ==> !Enabled(cfg, s, l, now))
              && (l.Commit? ==>
                    (Enabled(cfg, s, l, now) <==>
                       && (l.send.to == "" <==> l.send.target == Broadcast)
                       && (l.send.to == "" ==> l.send.human) && (l.send.human ==> l.send.kind == Inform)))
              && (l.Enqueue? ==> (Enabled(cfg, s, l, now) <==> l.job in p.claimed))
              && (l.Report? && l.id in p.messages ==>
                    var m := p.messages[l.id];
                    m.to == l.actor && m.kind == Request && SameEnvelope(l.next, m) && MessageOk(l.next) ==>
                      Enabled(cfg, s, l, now))
              && (l.BeginClose? ==> (Enabled(cfg, s, l, now) <==> p.stopped && !p.closed))
    ensures s.process.Some? ==>
              var p := s.process.value;
              && (l.Prune? ==> (Enabled(cfg, s, l, now) <==> !p.stopped))
              && (l.Start? ==> (Enabled(cfg, s, l, now) <==> p.queue != []))
              && (l.Succeed? ==> (Enabled(cfg, s, l, now) <==> l.done in p.running))
              && (l.GiveUp? ==> (Enabled(cfg, s, l, now) <==> l.failed in p.running))
              && (l.WriteFailure? ==> (Enabled(cfg, s, l, now) <==> l.late in p.detached))
              && (l.StopLoops? ==> (Enabled(cfg, s, l, now) <==> p.claimed == multiset{}))
              && (l.CloseQueue? ==> (Enabled(cfg, s, l, now) <==> p.closed && p.wg == 0 && !p.queueClosed))
              && (l.RecoverLeases? ==> (Enabled(cfg, s, l, now) <==> p.queueClosed && !p.recovered))
              && (l.FinishClose? ==> (Enabled(cfg, s, l, now) <==> p.recovered))
  {
  }

  /** How push jobs move: a claimed one to the end of the queue if there is room, the head of the
      queue to a worker, and a finished one away. */
  lemma JobsMove(cfg: Config, s: State, l: Label, now: int)
    requires Enabled(cfg, s, l, now) && (l.Enqueue? || l.Start? || l.Succeed? || l.GiveUp? || l.WriteFailure?)
    ensures var p := s.process.value;
            var q := Apply(cfg, s, l, now).process;
            && q.Some?
            && q.value == p.(messages := q.value.messages, claimed := q.value.claimed, queue := q.value.queue,
                             running := q.value.running, detached := q.value.detached, wg := q.value.wg)
            && q.value.claimed == (if l.Enqueue? then p.claimed - multiset{l.job} else p.claimed)
            && q.value.running == (if l.Start? then p.running + multiset{p.queue[0]}
                                   else if l.Succeed? then p.running - multiset{l.done}
                                   else if l.GiveUp? then p.running - multiset{l.failed}
                                   else p.running)
            && q.value.detached == (if l.WriteFailure? then p.detached - multiset{l.late} else p.detached)
            && q.value.queue == (if l.Start? then p.queue[1..]
                                 else if l.Enqueue? && l.job in s.db.messages && !p.closed && |p.queue| < cfg.queueSize
                                 then p.queue + [l.job]
                                 else p.queue)
            && q.value.wg == p.wg + (if l.Start? then 0
                                     else if l.Enqueue? then |q.value.queue| - |p.queue|
                                     else -1)
  {
    hide FailureWritten, ProjectAll;
  }

  /** The stages of a shutdown set one flag each, the last ends the process, and none of them but
      the recovery touches the tables. */
  lemma StagesAre(cfg: Config, s: State, l: Label, now: int)
    requires Enabled(cfg, s, l, now)
    ensures var q := Apply(cfg, s, l, now).process;
            && (l.StopLoops? ==> q == Some(s.process.value.(stopped := true)))
            && (l.BeginClose? ==> q == Some(s.process.value.(closed := true)))
            && (l.CloseQueue? ==> q == Some(s.process.value.(queueClosed := true)))
            && (l.RecoverLeases? ==> q == Some(s.process.value.(recovered := true)))
            && (l.FinishClose? || l.Crash? ==> q.None?)
            && (l.Prune? ==> q == s.process)
    ensures l.StopLoops? || l.BeginClose? || l.CloseQueue? || l.FinishClose? || l.Crash? || l.Start? ==>
              Apply(cfg, s, l, now).db == s.db
  {
    hide Pruned, RecoverAtClose;
  }

  /** What memory takes over when messages are handed out: those a poll offers, or the one claimed,
      are off the queue, no longer pending if requests, and dated as their rows are, unless they had
      a time before. */
  lemma ProjectionWrites(cfg: Config, s: State, l: Label, now: int, id: nat)
    requires Enabled(cfg, s, l, now) && (l.PollInbox? || l.Enqueue?)
    ensures var p, t := s.process.value, Apply(cfg, s, l, now);
            var q := t.process.value;
            var handed := if l.Enqueue? then id == l.job
                          else id in PollOnce(cfg, s.db, l.agent, l.requested, l.limit, now).batch;
            && (l.PollInbox? ==> q == p.(messages := q.messages))
            && (id in q.messages <==> id in p.messages)
            && (id in p.messages && !(handed && id in t.db.messages) ==> q.messages[id] == p.messages[id])
            && (id in p.messages && handed && id in t.db.messages ==>
                  var m, n := p.messages[id], q.messages[id];
                  && SameEnvelope(m, n) && !n.queued
                  && n.terminalAt == m.terminalAt && n.lastProgressAt == m.lastProgressAt
                  && n.phase == (if m.kind == Request && m.phase == Phase.Pending then Waiting else m.phase)
                  && n.deliveredAt == if m.deliveredAt.Some? then m.deliveredAt else t.db.messages[id].deliveredAt)
  {
    hide Chosen, AckPrefix, PushFailed;
  }
}
