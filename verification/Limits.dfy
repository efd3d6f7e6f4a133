/** Two promises that the bus does not keep, each with the exact condition under which it does. */
module Limits {
  import opened Model
  import opened Durable
  import opened Texts
  import opened Stamps
  import opened Batch
  import opened Paging
  import opened Protocol
  import opened Safety
  import opened Runs
  import opened Guarantees

  // ---- received does not imply offered ----

  /** A live row that a poll from this cursor steps over or offers. */
  predicate Passed(db: Tables, agent: string, from: nat, to: nat, id: nat) {
    && id in db.deliveries && Live(db.deliveries[id]) && db.deliveries[id].target == agent
    && from <= db.deliveries[id].slot < to
  }

  /** A poll offers a row behind its returned cursor exactly when the row has not expired; the
      next poll at that cursor marks the row received either way. */
  lemma OfferedExactlyWhenUnexpired(cfg: Config, db: Tables, agent: string, requested: int, limit: int, now: int,
                                    id: nat, limit2: int, later: int)
    requires SlotsUnique(db.deliveries) && CursorOf(db, agent).acked <= CursorOf(db, agent).next
    requires var r := PollOnce(cfg, db, agent, requested, limit, now);
             Passed(r.db, agent, Clamp(CursorOf(db, agent), requested), r.cursor, id)
    ensures var r := PollOnce(cfg, db, agent, requested, limit, now);
            id in r.batch <==> !Due(r.db.deliveries[id].expiresAt, now)
    ensures var r := PollOnce(cfg, db, agent, requested, limit, now);
            var next := PollOnce(cfg, r.db, agent, r.cursor, limit2, later);
            id in next.db.deliveries && next.db.deliveries[id].status.Received?
  {
    hide Chosen;
    var c := Clamp(CursorOf(db, agent), requested);
    var r := PollOnce(cfg, db, agent, requested, limit, now);
    var end := CursorOf(db, agent).next;
    PollOffersPrefix(cfg, db, agent, requested, limit, now);
    AdvancedKeeps(db, agent, c, now, c, now);
    OrderedExactly(r.db.deliveries, agent, c, end, now);
    OrderedExactly(r.db.deliveries, agent, r.cursor, end, now);
    var all := Outstanding(db, agent, c, now);
    assert all == Outstanding(r.db, agent, c, now);
    assert all == r.batch + all[|r.batch|..];
    assert id in all <==> InRange(r.db.deliveries, agent, c, end, now, id);
    assert id in all[|r.batch|..] <==> InRange(r.db.deliveries, agent, r.cursor, end, now, id);
    NextPollReceives(cfg, r.db, agent, r.cursor, limit2, later, id);
  }

  lemma NextPollReceives(cfg: Config, db: Tables, agent: string, cursor: nat, limit: int, now: int, id: nat)
    requires CursorOf(db, agent).acked <= cursor <= CursorOf(db, agent).next
    requires Passed(db, agent, CursorOf(db, agent).acked, cursor, id)
    ensures var next := PollOnce(cfg, db, agent, cursor, limit, now);
            id in next.db.deliveries && next.db.deliveries[id].status.Received?
  {
    hide Chosen;
  }

  const EXPIRED: Delivery := Delivery("a", 0, Status.Pending, None, 0, None, 5 * BILLION)
  const FRESH: Delivery := Delivery("a", 1, Status.Pending, None, 0, None, 100 * BILLION)

  const THEN: int := 10 * BILLION

  /** Two rows for one agent; at the tenth second the first has expired. */
  function TwoRows(messages: map<nat, Message>): Tables {
    Tables(messages, map[1 := EXPIRED, 2 := FRESH], map["a" := Cursor(2, 0)], map[], 2)
  }

  lemma TwoOutstanding(messages: map<nat, Message>)
    ensures SlotsUnique(TwoRows(messages).deliveries) && CursorOf(TwoRows(messages), "a") == Cursor(2, 0)
    ensures Outstanding(TwoRows(messages), "a", 0, THEN) == [2]
  {
    var d := TwoRows(messages).deliveries;
    assert SlotsUnique(d);
    OrderedExactly(d, "a", 0, 2, THEN);
    var all := Ordered(d, "a", 0, 2, THEN);
    DueMeans(5 * BILLION, THEN);
    DueMeans(100 * BILLION, THEN);
    assert InRange(d, "a", 0, 2, THEN, 2);
    OneElement(d, all);
  }

  lemma TwoPolled(cfg: Config, messages: map<nat, Message>)
    ensures var r := PollOnce(cfg, TwoRows(messages), "a", 0, 0, THEN);
            r.batch == [2] && r.cursor == 2 && r.db.deliveries == TwoRows(messages).deliveries
  {
    hide Outstanding, SlotsUnique, Chosen;
    TwoOutstanding(messages);
    PollOffersPrefix(cfg, TwoRows(messages), "a", 0, 0, THEN);
  }

  /** It happens: a poll offers only the second row, and following its cursor marks the first
      received. */
  lemma ReceivedButNeverOffered(cfg: Config, messages: map<nat, Message>)
    ensures var r := PollOnce(cfg, TwoRows(messages), "a", 0, 0, THEN);
            && r.batch == [2] && 1 !in r.batch
            && PollOnce(cfg, r.db, "a", r.cursor, 0, THEN).db.deliveries[1].status.Received?
  {
    hide Outstanding, SlotsUnique, PollOnce;
    TwoOutstanding(messages);
    TwoPolled(cfg, messages);
    OfferedExactlyWhenUnexpired(cfg, TwoRows(messages), "a", 0, 0, THEN, 1, 0, THEN);
  }

  lemma OneElement(d: map<nat, Delivery>, all: seq<nat>)
    requires SlotSorted(d, all) && 2 in all && forall id :: id in all ==> id == 2
    ensures all == [2]
  {
    if |all| > 1 { assert all[0] in all && all[1] in all; }
    assert all[0] in all;
  }

  // ---- offers over whole runs ----

  /** What the poll of step m answered. */
  ghost function Answer(cfg: Config, r: Run, m: nat): Poll
    requires IsRun(cfg, r) && m < |r.labels| && r.labels[m].PollInbox?
  {
    PollOnce(cfg, r.states[m].db, r.labels[m].agent, r.labels[m].requested, r.labels[m].limit, r.states[m + 1].clock)
  }

  /** The step polls for this agent. */
  predicate PollsFor(r: Run, m: nat, agent: string) {
    m < |r.labels| && r.labels[m].PollInbox? && r.labels[m].agent == agent
  }

  /** A row that is live after a step was live before it in the same slot, or is new and lies at
      or past the end of its sequence. */
  lemma StepBack(cfg: Config, s: State, l: Label, now: int, id: nat)
    requires Inv(cfg, s) && Enabled(cfg, s, l, now) && LiveIn(Apply(cfg, s, l, now), id)
    ensures var t := Apply(cfg, s, l, now);
            || (LiveIn(s, id) && SameRow(s, t, id))
            || t.db.deliveries[id].slot >= CursorOf(s.db, t.db.deliveries[id].target).next
  {
    hide Inv;
    if id <= s.db.nextMessage {
      StillLive(cfg, s, l, now, id);
      StepNoLoss(cfg, s, l, now, id);
    } else {
      NewRowAtEnd(cfg, s, l, now, id);
    }
  }

  lemma StillLive(cfg: Config, s: State, l: Label, now: int, id: nat)
    requires Inv(cfg, s) && Enabled(cfg, s, l, now) && LiveIn(Apply(cfg, s, l, now), id) && id <= s.db.nextMessage
    ensures LiveIn(s, id)
  {
    hide Inv, Apply;
    if !LiveIn(s, id) { StepFinal(cfg, s, l, now, id); }
  }

  /** A row keeps its slot and deadline for as long as it is live. */
  lemma SameWhileLive(cfg: Config, r: Run, i: nat, k: nat, id: nat)
    requires IsRun(cfg, r) && i <= k < |r.states| && LiveIn(r.states[i], id) && LiveIn(r.states[k], id)
    ensures SameRow(r.states[i], r.states[k], id)
  {
    hide Inv, Live;
    NoLoss(cfg, r, i, k, id);
    if j :| i <= j < k && LiveIn(r.states[j], id) && Settles(r.states[j], r.labels[j], r.states[j + 1], id) {
      NeverAgain(cfg, r, j, id);
    }
  }

  lemma NewRowAtEnd(cfg: Config, s: State, l: Label, now: int, id: nat)
    requires Inv(cfg, s) && Enabled(cfg, s, l, now) && id > s.db.nextMessage && LiveIn(Apply(cfg, s, l, now), id)
    ensures var t := Apply(cfg, s, l, now);
            t.db.deliveries[id].slot >= CursorOf(s.db, t.db.deliveries[id].target).next
  {
    hide Inv, Plan, Conflicts;
    if l.Commit? {
      FreshDelivery(cfg, s);
    } else {
      EvolvesStep(cfg, s, l, now);
      FreshDelivery(cfg, s);
    }
  }

  /** A live row in a slot that existed earlier was live earlier, in that slot. */
  lemma {:induction false} WasLive(cfg: Config, r: Run, i: nat, j: nat, id: nat)
    requires IsRun(cfg, r) && i <= j < |r.states| && LiveIn(r.states[j], id)
    requires var row := r.states[j].db.deliveries[id]; row.slot < CursorOf(r.states[i].db, row.target).next
    ensures LiveIn(r.states[i], id) && SameRow(r.states[i], r.states[j], id)
    decreases j
  {
    hide Inv, Apply, Live;
    if i < j {
      var row := r.states[j].db.deliveries[id];
      Always(cfg, r, j - 1);
      assert StepAt(cfg, r, j - 1);
      CursorMonotone(cfg, r, i, j - 1, row.target);
      StepBack(cfg, r.states[j - 1], r.labels[j - 1], r.states[j].clock, id);
      WasLive(cfg, r, i, j - 1, id);
    }
  }

  /** Whatever happens in between, crashes included: an earlier poll of its agent offered a row
      that is still live exactly when it returned a cursor past the row and the row had not
      expired at that time. */
  lemma OfferedBefore(cfg: Config, r: Run, m: nat, k: nat, id: nat)
    requires IsRun(cfg, r) && m < k < |r.states| && LiveIn(r.states[k], id)
    requires PollsFor(r, m, r.states[k].db.deliveries[id].target)
    ensures var row := r.states[k].db.deliveries[id];
            id in Answer(cfg, r, m).batch <==>
              row.slot < Answer(cfg, r, m).cursor && !Due(row.expiresAt, r.states[m + 1].clock)
  {
    hide Inv, Apply, PollOnce, Live;
    var row, agent := r.states[k].db.deliveries[id], r.labels[m].agent;
    var db, answer := r.states[m].db, Answer(cfg, r, m);
    Always(cfg, r, m);
    PollableAlways(cfg, r.states[m]);
    PollOffersPrefix(cfg, db, agent, r.labels[m].requested, r.labels[m].limit, r.states[m + 1].clock);
    AnsweredTables(cfg, r, m);
    if id in answer.batch {
      BatchBehindCursor(cfg, r, m, id);
      SameWhileLive(cfg, r, m + 1, k, id);
    } else if row.slot < answer.cursor && !Due(row.expiresAt, r.states[m + 1].clock) {
      WasLive(cfg, r, m + 1, k, id);
      Always(cfg, r, m + 1);
      LiveIsKnown(cfg, r.states[m + 1], id);
      LivePassed(cfg, r, m, id);
      OfferedExactlyWhenUnexpired(cfg, db, agent, r.labels[m].requested, r.labels[m].limit, r.states[m + 1].clock, id,
                                  0, 0);
    }
  }

  lemma PollableAlways(cfg: Config, s: State)
    requires Inv(cfg, s)
    ensures SlotsUnique(s.db.deliveries)
    ensures forall agent :: CursorOf(s.db, agent).acked <= CursorOf(s.db, agent).next
  {
  }

  lemma AnsweredTables(cfg: Config, r: Run, m: nat)
    requires IsRun(cfg, r) && m < |r.labels| && r.labels[m].PollInbox?
    ensures r.states[m + 1].db == Answer(cfg, r, m).db
  {
    hide PollOnce;
    assert StepAt(cfg, r, m);
  }

  /** What a poll offers lies behind its returned cursor and has not expired. */
  lemma BatchBehindCursor(cfg: Config, r: Run, m: nat, id: nat)
    requires IsRun(cfg, r) && m < |r.labels| && r.labels[m].PollInbox? && id in Answer(cfg, r, m).batch
    ensures LiveIn(r.states[m + 1], id)
    ensures var row := r.states[m + 1].db.deliveries[id];
            && row.target == r.labels[m].agent && row.slot < Answer(cfg, r, m).cursor
            && !Due(row.expiresAt, r.states[m + 1].clock)
            && Answer(cfg, r, m).cursor <= CursorOf(r.states[m + 1].db, row.target).next
  {
    hide Inv, PollOnce, SlotsUnique, Offerable;
    var l := r.labels[m];
    Always(cfg, r, m);
    PollableAlways(cfg, r.states[m]);
    AnsweredTables(cfg, r, m);
    PollOffersPrefix(cfg, r.states[m].db, l.agent, l.requested, l.limit, r.states[m + 1].clock);
    BatchInRange(cfg, r.states[m].db, l.agent, l.requested, l.limit, r.states[m + 1].clock, id);
    OfferableIs(r.states[m + 1].db.deliveries[id], r.states[m + 1].clock);
  }

  lemma OfferableIs(d: Delivery, now: int)
    ensures Offerable(d, now) <==> Live(d) && !Due(d.expiresAt, now)
  {
    hide Due;
  }

  /** A row that is live after a poll and behind its returned cursor lies past the cursor that
      the poll committed. */
  lemma LivePassed(cfg: Config, r: Run, m: nat, id: nat)
    requires IsRun(cfg, r) && m < |r.labels| && r.labels[m].PollInbox?
    requires LiveIn(r.states[m + 1], id) && RowOk(r.states[m + 1].db, id)
    requires var row := r.states[m + 1].db.deliveries[id];
             row.target == r.labels[m].agent && row.slot < Answer(cfg, r, m).cursor
    ensures var l := r.labels[m];
            Passed(Answer(cfg, r, m).db, l.agent, Clamp(CursorOf(r.states[m].db, l.agent), l.requested),
                   Answer(cfg, r, m).cursor, id)
  {
    hide Inv, PollOnce;
    var l := r.labels[m];
    Always(cfg, r, m);
    PollableAlways(cfg, r.states[m]);
    AnsweredTables(cfg, r, m);
    PollOffersPrefix(cfg, r.states[m].db, l.agent, l.requested, l.limit, r.states[m + 1].clock);
  }

  /** Poll k marks this live row received. */
  predicate Marks(r: Run, k: nat, id: nat)
    requires k < |r.labels| < |r.states| && r.labels[k].PollInbox?
  {
    var db, l := r.states[k].db, r.labels[k];
    && LiveIn(r.states[k], id) && db.deliveries[id].target == l.agent
    && db.deliveries[id].slot < Clamp(CursorOf(db, l.agent), l.requested)
  }

  /** The client of poll k asks at most for what was acknowledged, or for a cursor that some
      earlier poll returned. */
  ghost predicate FollowsCursors(cfg: Config, r: Run, k: nat)
    requires IsRun(cfg, r) && k < |r.labels| && r.labels[k].PollInbox?
  {
    || r.labels[k].requested <= CursorOf(r.states[k].db, r.labels[k].agent).acked
    || exists m :: 0 <= m < k && PollsFor(r, m, r.labels[k].agent) && r.labels[k].requested <= Answer(cfg, r, m).cursor
  }

  /** Some earlier poll of the agent returned a cursor past this row. */
  ghost predicate PassedBefore(cfg: Config, r: Run, k: nat, agent: string, slot: nat)
    requires IsRun(cfg, r) && k <= |r.labels|
  {
    exists m :: 0 <= m < k && PollsFor(r, m, agent) && slot < Answer(cfg, r, m).cursor
  }

  /** Some earlier poll of the agent offered this message. */
  ghost predicate OfferedEarlier(cfg: Config, r: Run, k: nat, agent: string, id: nat)
    requires IsRun(cfg, r) && k <= |r.labels|
  {
    exists m :: 0 <= m < k && PollsFor(r, m, agent) && id in Answer(cfg, r, m).batch
  }

  /** Some earlier poll of the agent returned a cursor past this row before its deadline. */
  ghost predicate PassedInTime(cfg: Config, r: Run, k: nat, agent: string, row: Delivery)
    requires IsRun(cfg, r) && k <= |r.labels|
  {
    exists m :: 0 <= m < k && PollsFor(r, m, agent) && row.slot < Answer(cfg, r, m).cursor
                && !Due(row.expiresAt, r.states[m + 1].clock)
  }

  /** Received implies offered, exactly when an earlier poll passed the row before its deadline.
      A client that follows its cursors always has a poll that passed the row, so then only the
      deadline decides. */
  lemma ReceivedImpliesOffered(cfg: Config, r: Run, k: nat, id: nat)
    requires IsRun(cfg, r) && k < |r.labels| && r.labels[k].PollInbox? && Marks(r, k, id)
    ensures id in r.states[k + 1].db.deliveries && r.states[k + 1].db.deliveries[id].status.Received?
    ensures var row := r.states[k].db.deliveries[id];
            && (OfferedEarlier(cfg, r, k, row.target, id) <==> PassedInTime(cfg, r, k, row.target, row))
            && (FollowsCursors(cfg, r, k) ==> PassedBefore(cfg, r, k, row.target, row.slot))
  {
    hide Inv, Live, Answer;
    var row := r.states[k].db.deliveries[id];
    forall m | 0 <= m < k && PollsFor(r, m, row.target)
      ensures id in Answer(cfg, r, m).batch <==>
                row.slot < Answer(cfg, r, m).cursor && !Due(row.expiresAt, r.states[m + 1].clock)
    {
      OfferedBefore(cfg, r, m, k, id);
    }
    Always(cfg, r, k);
    LiveIsKnown(cfg, r.states[k], id);
    MarkedReceived(cfg, r, k, id);
    LiveAtOrPast(r.states[k].db, id);
  }

  lemma LiveAtOrPast(db: Tables, id: nat)
    requires id in db.deliveries && RowOk(db, id)
    ensures Live(db.deliveries[id]) ==> CursorOf(db, db.deliveries[id].target).acked <= db.deliveries[id].slot
  {
  }

  lemma MarkedReceived(cfg: Config, r: Run, k: nat, id: nat)
    requires IsRun(cfg, r) && k < |r.labels| && r.labels[k].PollInbox? && Marks(r, k, id)
    requires RowOk(r.states[k].db, id)
    ensures id in r.states[k].db.deliveries && Live(r.states[k].db.deliveries[id])
    ensures id in r.states[k + 1].db.deliveries && r.states[k + 1].db.deliveries[id].status.Received?
  {
    hide Inv, Chosen, OfferAll;
    AnsweredTables(cfg, r, k);
  }

  /** It also happens to a client that asks past every cursor it was given: the one unexpired
      row is marked received by its first poll, which offers nothing. */
  lemma SkippedAheadNeverOffered(cfg: Config, messages: map<nat, Message>)
    ensures var db := Tables(messages, map[1 := FRESH.(slot := 0)], map["a" := Cursor(1, 0)], map[], 1);
            var p := PollOnce(cfg, db, "a", 1, 0, THEN);
            p.batch == [] && p.db.deliveries[1].status.Received?
  {
    hide Chosen;
    var db := Tables(messages, map[1 := FRESH.(slot := 0)], map["a" := Cursor(1, 0)], map[], 1);
    assert SlotsUnique(db.deliveries);
    PollOffersPrefix(cfg, db, "a", 1, 0, THEN);
    assert Outstanding(db, "a", 1, THEN) == [];
  }

  /** What a poll offers lies at or past the cursor it asked for, as far as that exists. */
  lemma BatchPastRequest(cfg: Config, r: Run, k: nat, id: nat)
    requires IsRun(cfg, r) && k < |r.labels| && r.labels[k].PollInbox? && id in Answer(cfg, r, k).batch
    ensures LiveIn(r.states[k + 1], id)
    ensures r.states[k + 1].db.deliveries[id].slot
         >= Clamp(CursorOf(r.states[k].db, r.labels[k].agent), r.labels[k].requested)
  {
    hide Inv, PollOnce, SlotsUnique, Offerable;
    var l := r.labels[k];
    Always(cfg, r, k);
    PollableAlways(cfg, r.states[k]);
    AnsweredTables(cfg, r, k);
    BatchBehindCursor(cfg, r, k, id);
    BatchInRange(cfg, r.states[k].db, l.agent, l.requested, l.limit, r.states[k + 1].clock, id);
  }

  lemma CursorWithinEnd(cfg: Config, r: Run, m: nat)
    requires IsRun(cfg, r) && m < |r.labels| && r.labels[m].PollInbox?
    ensures Answer(cfg, r, m).cursor <= CursorOf(r.states[m + 1].db, r.labels[m].agent).next
  {
    hide Inv, PollOnce;
    var l := r.labels[m];
    Always(cfg, r, m);
    PollableAlways(cfg, r.states[m]);
    AnsweredTables(cfg, r, m);
    PollOffersPrefix(cfg, r.states[m].db, l.agent, l.requested, l.limit, r.states[m + 1].clock);
  }

  /** Paging over any run: when a poll asks for at least the cursor that an earlier poll of its
      agent returned, their batches share no message, whatever sends, pushes, crashes and restarts
      lie in between. */
  lemma PagesAreDisjoint(cfg: Config, r: Run, m: nat, k: nat, id: nat)
    requires IsRun(cfg, r) && m < k < |r.labels| && r.labels[m].PollInbox?
    requires PollsFor(r, k, r.labels[m].agent) && r.labels[k].requested >= Answer(cfg, r, m).cursor
    ensures !(id in Answer(cfg, r, m).batch && id in Answer(cfg, r, k).batch)
  {
    hide Inv, Answer, Live, CursorOf;
    if id in Answer(cfg, r, m).batch && id in Answer(cfg, r, k).batch {
      BatchBehindCursor(cfg, r, m, id);
      BatchPastRequest(cfg, r, k, id);
      SameWhileLive(cfg, r, m + 1, k + 1, id);
      CursorWithinEnd(cfg, r, m);
      CursorMonotone(cfg, r, m + 1, k, r.labels[m].agent);
    }
  }

  // ---- a spent key stays refused until it is pruned ----

  /** The duplicate index answers for this key. */
  predicate Remembered(cfg: Config, p: Memory, key: Option<Key>, now: int) {
    key.Some? && key.value in p.entries && InWindow(cfg, p.entries[key.value].createdAt, now)
  }

  predicate HasKey(db: Tables, key: Option<Key>) {
    key.Some? && key.value in db.receipts
  }

  /** A send that the target can take, and that the database does not fail, is a duplicate while
      its key is remembered, aborts exactly while the key has a receipt and is not remembered, and
      commits otherwise. In terms of the receipt: with a second of the window left the send is
      answered with the original, once the window is over it aborts until a prune, and only in
      the last second does it matter how a prune or a start has compared the texts. */
  lemma SendOutcome(cfg: Config, s: State, send: Send, now: int)
    requires Inv(cfg, s) && Enabled(cfg, s, Commit(send, false), now) && Plan(cfg, send, now).Some?
    ensures var o := Decide(cfg, s.db, s.process.value, send, false, now);
            var key := SendKey(send);
            && (o.Duplicate? <==> Remembered(cfg, s.process.value, key, now))
            && (o.Aborted? <==> HasKey(s.db, key) && !Remembered(cfg, s.process.value, key, now))
            && (o.Committed? <==> !HasKey(s.db, key) && !Remembered(cfg, s.process.value, key, now))
            && (HasKey(s.db, key) && Secure(cfg, s.db.receipts[key.value].acceptedAt, now) ==>
                  o == Duplicate(s.db.receipts[key.value].id))
            && (HasKey(s.db, key) && !InWindow(cfg, s.db.receipts[key.value].acceptedAt, now) ==> o.Aborted?)
            && (HasKey(s.db, key) && o.Duplicate? ==> o.id == s.db.receipts[key.value].id)
            && (!HasKey(s.db, key) && o.Duplicate? ==>
                  !Secure(cfg, s.process.value.entries[key.value].createdAt, now))
  {
    hide LeaseOk, ShutdownOk, DeliveryExpiry;
    var p := s.process.value;
    var key := SendKey(send);
    var a := Acceptance(p.nextMessage + 1, Plan(cfg, send, now).value, key, send.target == Active(true));
    FreshRowFits(cfg, s.db, a);
    if key.Some? { KeysAgree(cfg, s, key.value, now); }
  }

  /** The next id and the next slot are always free. */
  lemma FreshRowFits(cfg: Config, db: Tables, a: Acceptance)
    requires TablesOk(cfg, db) && a.id == db.nextMessage + 1
    ensures a.id !in db.deliveries && !SlotTaken(db.deliveries, a.message.to, CursorOf(db, a.message.to).next)
  {
    assert a.id in db.deliveries ==> RowOk(db, a.id);
    forall id | id in db.deliveries
      ensures !(db.deliveries[id].target == a.message.to && db.deliveries[id].slot == CursorOf(db, a.message.to).next)
    {
      assert RowOk(db, id);
    }
  }

  lemma KeysAgree(cfg: Config, s: State, key: Key, now: int)
    requires Inv(cfg, s) && s.process.Some? && s.process.value.held.None? && s.clock <= now
    ensures var p := s.process.value;
            && (Remembered(cfg, p, Some(key), now) && key in s.db.receipts ==>
                  p.entries[key] == Entry(s.db.receipts[key].id, s.db.receipts[key].acceptedAt))
            && (Remembered(cfg, p, Some(key), now) && key !in s.db.receipts ==>
                  !Secure(cfg, p.entries[key].createdAt, now))
            && (key in s.db.receipts && Secure(cfg, s.db.receipts[key].acceptedAt, now) ==>
                  Remembered(cfg, p, Some(key), now))
  {
    hide LeaseOk, ShutdownOk, ProjectionOk, TablesOk;
  }
}
