/** What the backfill and the import of older state make of each message, said in terms of its
    fields. */
module Refills {
  import opened Model
  import opened Durable
  import opened Texts
  import opened Stamps
  import opened Batch
  import opened Legacy
  import opened Backfill

  /** The time at which a message without a row is due: its TTL, or else its creation plus the
      default, or its grace if that is earlier. */
  function Deadline(m: Message, ttl: nat): int {
    var end := match m.ttlExpiresAt case Some(t) => t case None => m.createdAt + ttl;
    match m.graceUntil case Some(g) => (if g < end then g else end) case None => end
  }

  /** A message that is addressed, was not taken up and is not due gets a row. A request that is
      executing or finished never does. */
  predicate GetsRow(m: Message, ttl: nat, now: int) {
    && m.to != "" && now < Deadline(m, ttl)
    && (|| m.kind == Response || m.kind == Inform
        || (m.kind == Request && (m.phase == Phase.Pending || m.phase == Waiting)))
  }

  lemma FillOneTouches(db: Tables, id: nat, ttl: nat, now: int, other: nat)
    requires id in db.messages
    ensures var t := FillOne(db, id, ttl, now);
            && (id in t.deliveries <==> id in db.deliveries || now < Deadline(db.messages[id], ttl))
            && t.messages[id] == WithTtl(db.messages[id], ttl)
            && (other != id ==> (other in t.deliveries <==> other in db.deliveries))
            && (other != id && other in db.messages ==> t.messages[other] == db.messages[other])
  {
  }

  lemma {:induction false} FillTouches(db: Tables, ids: seq<nat>, ttl: nat, now: int, id: nat)
    requires (forall i :: 0 <= i < |ids| ==> ids[i] in db.messages) && Unrepeated(ids) && id in ids
    ensures var t := Fill(db, ids, ttl, now);
            && (id in t.deliveries <==> id in db.deliveries || now < Deadline(db.messages[id], ttl))
            && t.messages[id] == WithTtl(db.messages[id], ttl)
  {
    hide FillOne, WithTtl, Deadline;
    var k := |ids| - 1;
    FillOneTouches(Fill(db, ids[..k], ttl, now), ids[k], ttl, now, id);
    if id == ids[k] {
      FillLeaves(db, ids[..k], ttl, now, id);
    } else {
      assert id in ids[..k];
      FillTouches(db, ids[..k], ttl, now, id);
    }
  }

  lemma {:induction false} RowsFrom(messages: map<nat, Message>, ids: seq<nat>, target: string, ttl: nat, now: int,
                                    i: nat)
    requires (forall i :: 0 <= i < |ids| ==> ids[i] in messages) && i < |Rows(messages, ids, target, ttl, now)|
    ensures exists j :: 0 <= j < |ids| && ids[j] == Rows(messages, ids, target, ttl, now)[i]
  {
    hide StillDue;
    var k := |ids| - 1;
    if i < |Rows(messages, ids[..k], target, ttl, now)| {
      RowsFrom(messages, ids[..k], target, ttl, now, i);
      var j :| 0 <= j < k && ids[..k][j] == Rows(messages, ids[..k], target, ttl, now)[i];
      assert ids[j] == Rows(messages, ids, target, ttl, now)[i];
    } else {
      assert ids[k] == Rows(messages, ids, target, ttl, now)[i];
    }
  }

  lemma {:induction false} RowsOrdered(messages: map<nat, Message>, ids: seq<nat>, target: string, ttl: nat, now: int,
                                       i: nat, j: nat)
    requires forall i :: 0 <= i < |ids| ==> ids[i] in messages
    requires forall i, j :: 0 <= i < j < |ids| ==> Earlier(messages, ids[i], ids[j])
    requires i < j < |Rows(messages, ids, target, ttl, now)|
    ensures var rows := Rows(messages, ids, target, ttl, now);
            rows[i] in messages && rows[j] in messages && Earlier(messages, rows[i], rows[j])
  {
    hide Earlier, StillDue;
    var k := |ids| - 1;
    var before := Rows(messages, ids[..k], target, ttl, now);
    if j < |before| {
      RowsOrdered(messages, ids[..k], target, ttl, now, i, j);
    } else {
      RowsFrom(messages, ids[..k], target, ttl, now, i);
      var p :| 0 <= p < k && ids[..k][p] == before[i];
      assert ids[p] == before[i];
    }
  }

  /** The row of one message after the backfill: one that it had stays, and it gets one exactly when
      the rule says so; pending, due at its deadline, to be tried at once, in a slot past the end. A
      message that was looked at has its deadline written; every other message is as it was. */
  lemma RefilledMessage(cfg: Config, db: Tables, ttl: nat, now: int, t: Tables, ids: seq<nat>, keyed: seq<nat>,
                        id: nat)
    requires FilledFrom(cfg, db, ttl, now, t, ids, keyed)
    ensures t.messages.Keys == db.messages.Keys && t.nextMessage == db.nextMessage
    ensures id in db.deliveries ==> id in t.deliveries && t.deliveries[id] == db.deliveries[id]
    ensures id !in db.deliveries ==>
              (id in t.deliveries <==> id in db.messages && GetsRow(db.messages[id], ttl, now))
    ensures id !in db.deliveries && id in t.deliveries ==>
              var m, d := db.messages[id], t.deliveries[id];
              && d.target == m.to && d.status == Status.Pending && d.nextAttempt == Some(m.createdAt)
              && d.attempts == 0 && d.receivedAt.None? && d.expiresAt == Deadline(m, ttl)
              && (m.to in db.cursors ==> db.cursors[m.to].next <= d.slot)
    ensures id in db.messages && t.messages[id] != db.messages[id] ==>
              var m := db.messages[id];
              m.ttlExpiresAt.None? && t.messages[id] == m.(ttlExpiresAt := Some(m.createdAt + ttl))
  {
    hide Fill, NoteAll, InOrder, Unrepeated, WithTtl;
    var f := Fill(db, ids, ttl, now);
    assert t.deliveries == f.deliveries && t.messages == f.messages && t.nextMessage == f.nextMessage;
    InOrderHolds(db.messages, ids, UndeliveredIds(db), id);
    if id in ids {
      FillTouches(db, ids, ttl, now, id);
      FillNumbers(db, ids, db.messages[id].to, ttl, now);
      DeadlineIs(db.messages[id], ttl);
      if id in t.deliveries { FilledRow(db, f, ids, ttl, now, id); }
    } else {
      FillLeaves(db, ids, ttl, now, id);
    }
  }

  lemma InOrderHolds(messages: map<nat, Message>, ids: seq<nat>, rows: set<nat>, id: nat)
    requires InOrder(messages, ids, rows)
    ensures id in ids <==> id in rows
  {
    assert id in Elements(ids) <==> id in ids;
  }

  lemma DeadlineIs(m: Message, ttl: nat)
    ensures Deadline(m, ttl) == ExpiryOf(m, ttl)
    ensures WithTtl(m, ttl) != m ==>
              m.ttlExpiresAt.None? && WithTtl(m, ttl) == m.(ttlExpiresAt := Some(m.createdAt + ttl))
  {
  }

  lemma FilledRow(db: Tables, f: Tables, ids: seq<nat>, ttl: nat, now: int, id: nat)
    requires (forall i :: 0 <= i < |ids| ==> ids[i] in db.messages) && id in ids && StillDue(db.messages[id], ttl, now)
    requires Filled(db, f, Rows(db.messages, ids, db.messages[id].to, ttl, now), db.messages[id].to, ttl)
    requires id in Rows(db.messages, ids, db.messages[id].to, ttl, now)
    ensures var m := db.messages[id];
            && id in f.deliveries && f.deliveries[id].slot >= CursorOf(db, m.to).next
            && f.deliveries[id] == FreshRow(m, m.to, f.deliveries[id].slot, ttl)
  {
    hide StillDue, ExpiryOf;
    var rows := Rows(db.messages, ids, db.messages[id].to, ttl, now);
    var k :| 0 <= k < |rows| && rows[k] == id;
  }

  /** The new rows of one target are numbered in the order of creation and then of ids, both as
      texts. */
  lemma RefilledInOrder(cfg: Config, db: Tables, ttl: nat, now: int, t: Tables, ids: seq<nat>, keyed: seq<nat>,
                        a: nat, b: nat)
    requires FilledFrom(cfg, db, ttl, now, t, ids, keyed) && a != b
    requires a in t.deliveries && b in t.deliveries && a !in db.deliveries && b !in db.deliveries
    requires t.deliveries[a].target == t.deliveries[b].target
    ensures a in db.messages && b in db.messages
    ensures t.deliveries[a].slot < t.deliveries[b].slot <==>
              var x, y := db.messages[a].createdAt, db.messages[b].createdAt;
              Sooner(x, y) || (x == y && Less(IdText(a), IdText(b)))
  {
    hide Fill, NoteAll, StillDue, FreshRow, IdText, Less, Sooner, Rows, Undelivered, InOrder, Filled;
    var target := t.deliveries[a].target;
    RefilledMessage(cfg, db, ttl, now, t, ids, keyed, a);
    RefilledMessage(cfg, db, ttl, now, t, ids, keyed, b);
    NumberedRow(cfg, db, ttl, now, t, ids, keyed, a);
    NumberedRow(cfg, db, ttl, now, t, ids, keyed, b);
    SlotOrder(cfg, db, ttl, now, t, ids, keyed, a, b, target);
  }

  lemma NumberedRow(cfg: Config, db: Tables, ttl: nat, now: int, t: Tables, ids: seq<nat>, keyed: seq<nat>, id: nat)
    requires FilledFrom(cfg, db, ttl, now, t, ids, keyed) && id in t.deliveries && id !in db.deliveries
    ensures id in db.messages && t.deliveries[id].target == db.messages[id].to
    ensures id in Rows(db.messages, ids, db.messages[id].to, ttl, now)
  {
    hide Fill, NoteAll, StillDue, FreshRow, Rows, Filled, GetsRow, InOrder;
    RefilledMessage(cfg, db, ttl, now, t, ids, keyed, id);
    InOrderHolds(db.messages, ids, UndeliveredIds(db), id);
    GetsRowMeans(db, id, ttl, now);
    FillNumbers(db, ids, db.messages[id].to, ttl, now);
  }

  lemma GetsRowMeans(db: Tables, id: nat, ttl: nat, now: int)
    requires id in db.messages && id !in db.deliveries
    ensures GetsRow(db.messages[id], ttl, now) <==> Undelivered(db, id) && StillDue(db.messages[id], ttl, now)
  {
  }

  lemma SlotOrder(cfg: Config, db: Tables, ttl: nat, now: int, t: Tables, ids: seq<nat>, keyed: seq<nat>,
                  a: nat, b: nat, target: string)
    requires FilledFrom(cfg, db, ttl, now, t, ids, keyed) && a != b
    requires a in Rows(db.messages, ids, target, ttl, now) && b in Rows(db.messages, ids, target, ttl, now)
    ensures a in t.deliveries && b in t.deliveries && a in db.messages && b in db.messages
    ensures t.deliveries[a].slot < t.deliveries[b].slot <==> Earlier(db.messages, a, b)
  {
    hide Fill, NoteAll, StillDue, ExpiryOf, Rows, Earlier, UndeliveredIds, ReceiptableIds;
    var rows := Rows(db.messages, ids, target, ttl, now);
    FillNumbers(db, ids, target, ttl, now);
    var i :| 0 <= i < |rows| && rows[i] == a;
    var j :| 0 <= j < |rows| && rows[j] == b;
    if i < j { RowsOrdered(db.messages, ids, target, ttl, now, i, j); }
    else { RowsOrdered(db.messages, ids, target, ttl, now, j, i); }
    if Earlier(db.messages, a, b) && Earlier(db.messages, b, a) { EarlierOneWay(db.messages, a, b); }
  }

  lemma EarlierOneWay(messages: map<nat, Message>, a: nat, b: nat)
    requires a in messages && b in messages && Earlier(messages, a, b)
    ensures !Earlier(messages, b, a)
  {
    hide IdText, Less, Sooner;
    if Earlier(messages, b, a) {
      EarlierTransitive(messages, a, b, a);
      SoonerTotal(messages[a].createdAt, messages[a].createdAt);
      IrreflexiveText(IdText(a));
    }
  }

  /** A message of the last window with this key, none of whose fields is empty. */
  predicate Keyed(cfg: Config, m: Message, key: Key, now: int) {
    && m.from == key.from != "" && m.to == key.to != "" && m.requestId == key.requestId != ""
    && !Sooner(m.createdAt, now - cfg.window)
  }

  /** A receipt stays if the key had one; otherwise the key gets one exactly when some recent message
      has it, of the first such message by creation and id, for a window from its creation. */
  lemma RefilledReceipt(cfg: Config, db: Tables, ttl: nat, now: int, t: Tables, ids: seq<nat>, keyed: seq<nat>,
                        key: Key)
    requires FilledFrom(cfg, db, ttl, now, t, ids, keyed)
    ensures key in t.receipts <==>
              || key in db.receipts
              || exists id :: id in db.messages && Keyed(cfg, db.messages[id], key, now)
    ensures key in db.receipts ==> t.receipts[key] == db.receipts[key]
    ensures key in t.receipts && key !in db.receipts ==>
              var r := t.receipts[key];
              && r.id in db.messages && Keyed(cfg, db.messages[r.id], key, now)
              && r.acceptedAt == db.messages[r.id].createdAt && r.expiresAt == r.acceptedAt + cfg.window
              && forall id :: id != r.id && id in db.messages && Keyed(cfg, db.messages[id], key, now) ==>
                   Earlier(db.messages, r.id, id)
  {
    hide Fill, NoteAll, Earlier, UndeliveredIds, ReceiptableIds, Keyed, Receiptable, FirstWins, KeyOfMessage, ReceiptOf;
    var f := Fill(db, ids, ttl, now);
    FilledKeys(cfg, db, ttl, now, t, ids, keyed);
    EarliestIsNoted(cfg, f, keyed);
    forall id | id in db.messages && Keyed(cfg, db.messages[id], key, now) ensures key in t.receipts {
      KeyedIsNoted(cfg, db, keyed, key, now, id);
      var i :| 0 <= i < |keyed| && keyed[i] == id;
      assert KeyOfMessage(f.messages[keyed[i]]) == key;
    }
    if key in db.receipts {
      AlreadyNotedStays(cfg, f, keyed, key);
    } else if key in t.receipts {
      var i := FirstOfKey(cfg, f, keyed, key, t.receipts[key]);
      KeyedIsNoted(cfg, db, keyed, key, now, keyed[i]);
      ReceiptFields(cfg, keyed[i], db.messages[keyed[i]]);
      forall id | id != keyed[i] && id in db.messages && Keyed(cfg, db.messages[id], key, now)
        ensures Earlier(db.messages, keyed[i], id)
      {
        KeyedIsNoted(cfg, db, keyed, key, now, id);
        var j :| 0 <= j < |keyed| && keyed[j] == id;
        assert j > i;
      }
    }
  }

  lemma ReceiptFields(cfg: Config, id: nat, m: Message)
    ensures ReceiptOf(cfg, id, m) == Receipt(id, m.createdAt, m.createdAt + cfg.window)
  {
  }

  lemma FirstOfKey(cfg: Config, f: Tables, keyed: seq<nat>, key: Key, r: Receipt) returns (i: nat)
    requires FirstWins(cfg, f, keyed, key, r) && key !in f.receipts
    ensures i < |keyed| && keyed[i] in f.messages && KeyOfMessage(f.messages[keyed[i]]) == key
    ensures r == ReceiptOf(cfg, keyed[i], f.messages[keyed[i]])
    ensures forall j :: 0 <= j < i ==> keyed[j] in f.messages && KeyOfMessage(f.messages[keyed[j]]) != key
  {
    hide KeyOfMessage, ReceiptOf;
    i :| 0 <= i < |keyed| && keyed[i] in f.messages && KeyOfMessage(f.messages[keyed[i]]) == key
         && r == ReceiptOf(cfg, keyed[i], f.messages[keyed[i]])
         && forall j :: 0 <= j < i ==> keyed[j] in f.messages && KeyOfMessage(f.messages[keyed[j]]) != key;
  }

  lemma {:induction false} AlreadyNotedStays(cfg: Config, f: Tables, keyed: seq<nat>, key: Key)
    requires (forall i :: 0 <= i < |keyed| ==> keyed[i] in f.messages) && key in f.receipts
    ensures key in NoteAll(cfg, f, keyed).receipts && NoteAll(cfg, f, keyed).receipts[key] == f.receipts[key]
  {
    if keyed != [] { AlreadyNotedStays(cfg, f, keyed[..|keyed| - 1], key); }
  }

  lemma KeyedIsNoted(cfg: Config, db: Tables, keyed: seq<nat>, key: Key, now: int, id: nat)
    requires InOrder(db.messages, keyed, ReceiptableIds(cfg, db, now)) && id in db.messages
    ensures Keyed(cfg, db.messages[id], key, now) <==> id in keyed && KeyOfMessage(db.messages[id]) == key
  {
    hide Sooner;
    InOrderHolds(db.messages, keyed, ReceiptableIds(cfg, db, now), id);
  }

  /** The fill changes no part of a message that its receipt is made from. */
  lemma FilledKeys(cfg: Config, db: Tables, ttl: nat, now: int, t: Tables, ids: seq<nat>, keyed: seq<nat>)
    requires FilledFrom(cfg, db, ttl, now, t, ids, keyed)
    ensures var f := Fill(db, ids, ttl, now);
            && f.messages.Keys == db.messages.Keys
            && forall id :: id in db.messages ==>
                 && KeyOfMessage(f.messages[id]) == KeyOfMessage(db.messages[id])
                 && ReceiptOf(cfg, id, f.messages[id]) == ReceiptOf(cfg, id, db.messages[id])
  {
    hide Fill, NoteAll, InOrder, Unrepeated;
    forall id | id in db.messages
      ensures KeyOfMessage(Fill(db, ids, ttl, now).messages[id]) == KeyOfMessage(db.messages[id])
      ensures ReceiptOf(cfg, id, Fill(db, ids, ttl, now).messages[id]) == ReceiptOf(cfg, id, db.messages[id])
    {
      RefilledMessage(cfg, db, ttl, now, t, ids, keyed, id);
      assert t.messages == Fill(db, ids, ttl, now).messages;
    }
  }

  // ---- the import ----

  /** A known message of a legacy inbox that is no request taken up or finished. */
  predicate Takes(l: Snapshot, agent: string, id: nat) {
    && agent in l.inboxes && id in l.inboxes[agent] && id in l.messages
    && (l.messages[id].kind == Request ==> l.messages[id].phase == Phase.Pending || l.messages[id].phase == Waiting)
  }

  /** The import gives a message a row exactly when some legacy inbox holds it and it may still be
      delivered: for the agent of that inbox, pending, due at its deadline, in a slot from the base of
      that agent on; and cursors go from that base to the end of the rows. */
  lemma ImportedMessage(cfg: Config, ttl: nat, l: Snapshot, t: Tables, agent: string, id: nat)
    requires Imported(cfg, ttl, l, t)
    ensures t.messages == l.messages && t.nextMessage == l.nextMessage
    ensures id in t.deliveries <==> exists a :: Takes(l, a, id)
    ensures Takes(l, agent, id) ==>
              var m, d := l.messages[id], t.deliveries[id];
              var base := if agent in l.bases then l.bases[agent] else 0;
              && d.target == agent && d.status == Status.Pending && d.nextAttempt == Some(m.createdAt)
              && d.attempts == 0 && d.receivedAt.None? && d.expiresAt == Deadline(m, ttl)
              && agent in t.cursors && t.cursors[agent].acked == base && base <= d.slot < t.cursors[agent].next
  {
    hide Numbered, Deliverable, ExpiryOf, Deadline;
    forall a | a in l.inboxes ensures id in Offers(l, a) <==> Takes(l, a, id) {
      OffersKnown(l.messages, l.inboxes[a]);
    }
    if id in t.deliveries {
      assert OfferedTo(l, l.inboxes.Keys, id);
      var a :| a in l.inboxes.Keys && id in Offers(l, a);
      assert Takes(l, a, id);
    }
    if a :| Takes(l, a, id) { OfferedRow(cfg, ttl, l, t, a, id); }
    if Takes(l, agent, id) {
      OfferedRow(cfg, ttl, l, t, agent, id);
      DeadlineIs(l.messages[id], ttl);
    }
  }

  lemma OfferedRow(cfg: Config, ttl: nat, l: Snapshot, t: Tables, agent: string, id: nat)
    requires Imported(cfg, ttl, l, t) && agent in l.inboxes && id in Offers(l, agent)
    ensures id in l.messages && id in t.deliveries && agent in t.cursors
    ensures t.deliveries[id] == FreshRow(l.messages[id], agent, t.deliveries[id].slot, ttl)
    ensures t.cursors[agent].acked == BaseOf(l, agent) <= t.deliveries[id].slot < t.cursors[agent].next
  {
    hide Deliverable, ExpiryOf, BaseOf;
    var k :| 0 <= k < |Offers(l, agent)| && Offers(l, agent)[k] == id;
    assert Numbered(l, ttl, t.deliveries, agent, |Offers(l, agent)|);
  }
}
