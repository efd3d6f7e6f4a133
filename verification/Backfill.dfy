/** The one-time backfill of a database that predates delivery rows. */
module Backfill {
  import opened Model
  import opened Durable
  import opened Texts
  import opened Stamps
  import opened Batch
  import opened Protocol
  import opened Safety
  import opened Legacy

  /** An addressed message without a row that may still have to be delivered. */
  predicate Undelivered(db: Tables, id: nat) {
    && id in db.messages && id !in db.deliveries && db.messages[id].to != ""
    && (db.messages[id].kind.Request? ==> db.messages[id].phase.Pending? || db.messages[id].phase.Waiting?)
  }

  function DigitCount(n: nat): (w: nat)
    ensures w >= 1 && n < Ten(w)
  {
    if n < 10 then 1 else 1 + DigitCount(n / 10)
  }

  /** A message id as it is printed: at least six digits. */
  function IdText(n: nat): string {
    "m-" + Digits(n, if DigitCount(n) < 6 then 6 else DigitCount(n))
  }

  /** ORDER BY created_at, message_id, both in the order of their texts. */
  predicate Earlier(messages: map<nat, Message>, a: nat, b: nat)
    requires a in messages && b in messages
  {
    || Sooner(messages[a].createdAt, messages[b].createdAt)
    || (messages[a].createdAt == messages[b].createdAt && Less(IdText(a), IdText(b)))
  }

  lemma {:induction false} TenGrows(w: nat, v: nat)
    requires w <= v
    ensures Ten(w) <= Ten(v)
    decreases v
  {
    if w < v { TenGrows(w, v - 1); }
  }

  /** Different ids have different texts. */
  lemma IdTextsDiffer(a: nat, b: nat)
    requires a < b
    ensures IdText(a) != IdText(b)
  {
    var v, w := |IdText(a)| - 2, |IdText(b)| - 2;
    assert IdText(a)[2..] == Digits(a, v) && IdText(b)[2..] == Digits(b, w);
    if v == w {
      TenGrows(DigitCount(b), w);
      var k := DigitsDiffer(a, b, w);
      assert Digits(a, w)[k] != Digits(b, w)[k];
    }
  }

  lemma EarlierTotal(messages: map<nat, Message>, a: nat, b: nat)
    requires a in messages && b in messages && a != b
    ensures Earlier(messages, a, b) || Earlier(messages, b, a)
  {
    hide IdText, Less, Sooner;
    SoonerTotal(messages[a].createdAt, messages[b].createdAt);
    LessTotal(IdText(a), IdText(b));
    if a < b { IdTextsDiffer(a, b); } else { IdTextsDiffer(b, a); }
  }

  lemma EarlierTransitive(messages: map<nat, Message>, a: nat, b: nat, c: nat)
    requires a in messages && b in messages && c in messages
    requires Earlier(messages, a, b) && Earlier(messages, b, c)
    ensures Earlier(messages, a, c)
  {
    hide IdText, Less, Sooner;
    var x, y, z := messages[a].createdAt, messages[b].createdAt, messages[c].createdAt;
    if Sooner(x, y) && Sooner(y, z) { SoonerTransitive(x, y, z); }
    if Less(IdText(a), IdText(b)) && Less(IdText(b), IdText(c)) { LessTransitive(IdText(a), IdText(b), IdText(c)); }
  }

  /** The order of ids as texts is not their order as numbers. */
  lemma MillionthSortsFirst(m: Message)
    ensures Earlier(map[999_999 := m, 1_000_000 := m], 1_000_000, 999_999)
  {
    hide Less, Digits, Ten;
    var a, b := IdText(1_000_000), IdText(999_999);
    assert DigitCount(1_000) == 4;
    assert DigitCount(1_000_000) == 3 + DigitCount(1_000);
    assert DigitCount(999) == 3;
    assert DigitCount(999_999) == 3 + DigitCount(999);
    Millions();
    LeadingDigit(1_000_000, 7, 1);
    LeadingDigit(999_999, 6, 9);
    assert a[..2] == b[..2] == "m-" && a[2] == '1' && b[2] == '9';
    FirstDifference(a, b, 2);
  }

  lemma TenTimes(w: nat, d: nat)
    requires w >= 1
    ensures d * Ten(w) == 10 * (d * Ten(w - 1))
  {
  }

  lemma FirstTen()
    ensures Ten(0) == 1
  {
  }

  lemma Tenth(n: nat, lo: nat, hi: nat)
    requires 10 * lo <= n < 10 * hi
    ensures lo <= n / 10 < hi
  {
  }

  lemma Millions()
    ensures Ten(5) == 100_000 && Ten(6) == 1_000_000
  {
    assert Ten(3) == 1000;
  }

  lemma {:induction false} LeadingDigit(n: nat, w: nat, d: nat)
    requires w >= 1 && 1 <= d < 10 && d * Ten(w - 1) <= n < (d + 1) * Ten(w - 1)
    ensures Digits(n, w)[0] == Digit(d)
  {
    hide Ten;
    if w > 1 {
      var t := Ten(w - 2);
      TenTimes(w - 1, d);
      TenTimes(w - 1, d + 1);
      Tenth(n, d * t, (d + 1) * t);
      LeadingDigit(n / 10, w - 1, d);
    } else {
      FirstTen();
    }
  }

  ghost predicate InOrder(messages: map<nat, Message>, ids: seq<nat>, rows: set<nat>) {
    && Elements(ids) == rows && rows <= messages.Keys
    && forall i, j :: 0 <= i < j < |ids| ==> Earlier(messages, ids[i], ids[j])
  }

  function WithTtl(m: Message, ttl: nat): Message {
    if m.ttlExpiresAt.None? then m.(ttlExpiresAt := Some(m.createdAt + ttl)) else m
  }

  predicate StillDue(m: Message, ttl: nat, now: int) {
    now < ExpiryOf(m, ttl)
  }

  /** One message: write a missing deadline, then number a row unless it has expired. */
  function FillOne(db: Tables, id: nat, ttl: nat, now: int): Tables
    requires id in db.messages
  {
    var m := db.messages[id];
    var dated := db.(messages := db.messages[id := WithTtl(m, ttl)]);
    if !StillDue(m, ttl, now) then dated
    else
      var c := CursorOf(db, m.to);
      dated.(deliveries := db.deliveries[id := FreshRow(m, m.to, c.next, ttl)],
             cursors := db.cursors[m.to := Cursor(c.next + 1, c.acked)])
  }

  function Fill(db: Tables, ids: seq<nat>, ttl: nat, now: int): (r: Tables)
    requires forall i :: 0 <= i < |ids| ==> ids[i] in db.messages
    ensures r.messages.Keys == db.messages.Keys && r.receipts == db.receipts && r.nextMessage == db.nextMessage
  {
    if ids == [] then db else FillOne(Fill(db, ids[..|ids| - 1], ttl, now), ids[|ids| - 1], ttl, now)
  }

  /** The ids that get a row for this target, in order. */
  function Rows(messages: map<nat, Message>, ids: seq<nat>, target: string, ttl: nat, now: int): seq<nat>
    requires forall i :: 0 <= i < |ids| ==> ids[i] in messages
  {
    if ids == [] then []
    else
      var last := ids[|ids| - 1];
      Rows(messages, ids[..|ids| - 1], target, ttl, now)
      + if messages[last].to == target && StillDue(messages[last], ttl, now) then [last] else []
  }

  ghost predicate Unrepeated(ids: seq<nat>) {
    forall i, j :: 0 <= i < j < |ids| ==> ids[i] != ids[j]
  }

  lemma {:induction false} FillLeaves(db: Tables, ids: seq<nat>, ttl: nat, now: int, id: nat)
    requires (forall i :: 0 <= i < |ids| ==> ids[i] in db.messages) && id !in ids
    ensures id in db.messages ==> Fill(db, ids, ttl, now).messages[id] == db.messages[id]
    ensures id in Fill(db, ids, ttl, now).deliveries <==> id in db.deliveries
    ensures id in db.deliveries ==> Fill(db, ids, ttl, now).deliveries[id] == db.deliveries[id]
  {
    if ids != [] { FillLeaves(db, ids[..|ids| - 1], ttl, now, id); }
  }

  /** What a target has after the backfill: its cursor moved by the number of its rows. */
  ghost predicate Filled(db: Tables, t: Tables, rows: seq<nat>, target: string, ttl: nat) {
    && (rows != [] ==> target in t.cursors)
    && CursorOf(t, target) == Cursor(CursorOf(db, target).next + |rows|, CursorOf(db, target).acked)
    && (forall k :: 0 <= k < |rows| ==>
          rows[k] in t.deliveries && rows[k] in db.messages
          && t.deliveries[rows[k]] == FreshRow(db.messages[rows[k]], target, CursorOf(db, target).next + k, ttl))
  }

  /** The backfill numbers the unexpired messages of each target contiguously, in created order,
      after whatever was there. */
  lemma {:induction false} FillNumbers(db: Tables, ids: seq<nat>, target: string, ttl: nat, now: int)
    requires (forall i :: 0 <= i < |ids| ==> ids[i] in db.messages) && Unrepeated(ids)
    ensures Filled(db, Fill(db, ids, ttl, now), Rows(db.messages, ids, target, ttl, now), target, ttl)
    ensures forall id :: id in Rows(db.messages, ids, target, ttl, now) <==>
              id in ids && db.messages[id].to == target && StillDue(db.messages[id], ttl, now)
  {
    hide FreshRow, StillDue, WithTtl;
    if ids != [] {
      var k := |ids| - 1;
      var before, last := ids[..k], ids[k];
      FillNumbers(db, before, target, ttl, now);
      assert last !in before && ids == before + [last];
      FillLeaves(db, before, ttl, now, last);
      FillStep(db, Fill(db, before, ttl, now), Rows(db.messages, before, target, ttl, now), last, target, ttl, now);
    }
  }

  lemma FillStep(db: Tables, t: Tables, rows: seq<nat>, id: nat, target: string, ttl: nat, now: int)
    requires Filled(db, t, rows, target, ttl) && id !in rows
    requires id in db.messages && id in t.messages && t.messages[id] == db.messages[id]
    ensures Filled(db, FillOne(t, id, ttl, now),
                   rows + (if db.messages[id].to == target && StillDue(db.messages[id], ttl, now) then [id] else []),
                   target, ttl)
  {
    hide FreshRow, StillDue, WithTtl;
  }

  lemma FillOneKeeps(cfg: Config, db: Tables, id: nat, ttl: nat, now: int)
    requires TablesOk(cfg, db) && id in db.messages && id !in db.deliveries && db.messages[id].to != ""
    ensures TablesOk(cfg, FillOne(db, id, ttl, now))
  {
    hide RowOk, ExpiryOf, StillDue, WithTtl, FreshRow, SlotsUnique;
    FillOneTables(db, id, ttl, now);
    var t := FillOne(db, id, ttl, now);
    forall i | i in t.deliveries ensures RowOk(t, i) {
      if i != id { assert RowOk(db, i); RowKept(db, t, i); } else { NewRowOk(db, id, ttl, now); }
    }
    forall i | i in db.deliveries ensures BelowNext(db, i) { assert RowOk(db, i); RowBelow(db, i); }
    FillOneSlots(db, id, ttl, now);
  }

  lemma FillOneTables(db: Tables, id: nat, ttl: nat, now: int)
    requires id in db.messages
    ensures var t := FillOne(db, id, ttl, now);
            && t.messages.Keys == db.messages.Keys && t.receipts == db.receipts && t.nextMessage == db.nextMessage
            && (forall j :: j in db.messages ==> t.messages[j].to == db.messages[j].to)
            && (forall i :: i in t.deliveries && i != id ==> i in db.deliveries && t.deliveries[i] == db.deliveries[i])
            && db.cursors.Keys <= t.cursors.Keys
            && (forall a :: a in db.cursors ==>
                  db.cursors[a].next <= t.cursors[a].next && t.cursors[a].acked == db.cursors[a].acked)
            && (forall a :: a in t.cursors && a !in db.cursors ==> t.cursors[a].acked == 0)
  {
    hide StillDue, FreshRow, WithTtl;
    WithTtlKeepsTo(db.messages[id], ttl);
  }

  lemma WithTtlKeepsTo(m: Message, ttl: nat)
    ensures WithTtl(m, ttl).to == m.to
  {
  }

  lemma FillOneSlots(db: Tables, id: nat, ttl: nat, now: int)
    requires id in db.messages && id !in db.deliveries && SlotsUnique(db.deliveries)
    requires forall i :: i in db.deliveries ==> BelowNext(db, i)
    ensures SlotsUnique(FillOne(db, id, ttl, now).deliveries)
  {
    hide StillDue, ExpiryOf, WithTtl;
    var t := FillOne(db, id, ttl, now);
    forall i, j | i in t.deliveries && j in t.deliveries && i != j
      ensures t.deliveries[i].target != t.deliveries[j].target || t.deliveries[i].slot != t.deliveries[j].slot
    {
      if i == id { assert BelowNext(db, j); }
      if j == id { assert BelowNext(db, i); }
    }
  }

  predicate BelowNext(db: Tables, i: nat)
    requires i in db.deliveries
  {
    db.deliveries[i].slot < CursorOf(db, db.deliveries[i].target).next
  }

  lemma RowBelow(db: Tables, i: nat)
    requires i in db.deliveries && RowOk(db, i)
    ensures BelowNext(db, i)
  {
  }

  lemma RowKept(db: Tables, t: Tables, i: nat)
    requires i in db.deliveries && RowOk(db, i) && i in t.deliveries && t.deliveries[i] == db.deliveries[i]
    requires forall j :: j in db.messages ==> j in t.messages && t.messages[j].to == db.messages[j].to
    requires db.cursors.Keys <= t.cursors.Keys
    requires forall a :: a in db.cursors ==>
               db.cursors[a].next <= t.cursors[a].next && t.cursors[a].acked == db.cursors[a].acked
    ensures RowOk(t, i)
  {
  }

  lemma NewRowOk(db: Tables, id: nat, ttl: nat, now: int)
    requires id in db.messages && id !in db.deliveries && db.messages[id].to != ""
    requires CursorOf(db, db.messages[id].to).acked <= CursorOf(db, db.messages[id].to).next
    requires id in FillOne(db, id, ttl, now).deliveries
    ensures RowOk(FillOne(db, id, ttl, now), id)
  {
  }

  /** The backfill keeps the table invariant. */
  lemma {:induction false} FillKeeps(cfg: Config, db: Tables, ids: seq<nat>, ttl: nat, now: int)
    requires TablesOk(cfg, db) && Unrepeated(ids)
    requires forall i :: 0 <= i < |ids| ==> ids[i] in db.messages && Undelivered(db, ids[i])
    ensures TablesOk(cfg, Fill(db, ids, ttl, now))
  {
    hide TablesOk, FillOne;
    if ids != [] {
      var k := |ids| - 1;
      assert Undelivered(db, ids[k]);
      FillKeeps(cfg, db, ids[..k], ttl, now);
      assert ids[k] !in ids[..k];
      FillLeaves(db, ids[..k], ttl, now, ids[k]);
      FillOneKeeps(cfg, Fill(db, ids[..k], ttl, now), ids[k], ttl, now);
    }
  }

  // ---- receipts ----

  predicate Receiptable(cfg: Config, db: Tables, id: nat, now: int) {
    && id in db.messages && db.messages[id].from != "" && db.messages[id].to != "" && db.messages[id].requestId != ""
    && !Sooner(db.messages[id].createdAt, now - cfg.window)
  }

  function KeyOfMessage(m: Message): Key {
    Key(m.from, m.to, m.requestId)
  }

  function ReceiptOf(cfg: Config, id: nat, m: Message): Receipt {
    Receipt(id, m.createdAt, m.createdAt + cfg.window)
  }

  /** ON CONFLICT DO NOTHING. */
  function Note(cfg: Config, db: Tables, id: nat): Tables
    requires id in db.messages
  {
    var m := db.messages[id];
    if KeyOfMessage(m) in db.receipts then db
    else db.(receipts := db.receipts[KeyOfMessage(m) := ReceiptOf(cfg, id, m)])
  }

  function NoteAll(cfg: Config, db: Tables, ids: seq<nat>): (r: Tables)
    requires forall i :: 0 <= i < |ids| ==> ids[i] in db.messages
    ensures r == db.(receipts := r.receipts)
  {
    if ids == [] then db else Note(cfg, NoteAll(cfg, db, ids[..|ids| - 1]), ids[|ids| - 1])
  }

  /** A receipt comes from before, or from the first message with its key. */
  ghost predicate FirstWins(cfg: Config, db: Tables, ids: seq<nat>, key: Key, r: Receipt) {
    if key in db.receipts then r == db.receipts[key]
    else exists i :: 0 <= i < |ids| && ids[i] in db.messages && KeyOfMessage(db.messages[ids[i]]) == key
                     && r == ReceiptOf(cfg, ids[i], db.messages[ids[i]])
                     && forall j :: 0 <= j < i ==> ids[j] in db.messages && KeyOfMessage(db.messages[ids[j]]) != key
  }

  /** After the backfill every key in the window has a receipt, for its earliest message. */
  lemma {:induction false} EarliestIsNoted(cfg: Config, db: Tables, ids: seq<nat>)
    requires forall i :: 0 <= i < |ids| ==> ids[i] in db.messages
    ensures forall i :: 0 <= i < |ids| ==> KeyOfMessage(db.messages[ids[i]]) in NoteAll(cfg, db, ids).receipts
    ensures forall k :: k in NoteAll(cfg, db, ids).receipts ==>
              FirstWins(cfg, db, ids, k, NoteAll(cfg, db, ids).receipts[k])
  {
    hide KeyOfMessage, ReceiptOf, FirstWins;
    if ids == [] {
      forall k | k in db.receipts ensures FirstWins(cfg, db, [], k, db.receipts[k]) { AlreadyNoted(cfg, db, k); }
    } else {
      var k := |ids| - 1;
      var before := ids[..k];
      EarliestIsNoted(cfg, db, before);
      var t := NoteAll(cfg, db, before);
      assert before + [ids[k]] == ids;
      forall key | key in NoteAll(cfg, db, ids).receipts
        ensures FirstWins(cfg, db, ids, key, NoteAll(cfg, db, ids).receipts[key])
      {
        if key in t.receipts {
          FirstWinsLonger(cfg, db, before, ids[k], key, t.receipts[key]);
        } else {
          NewKeyFirst(cfg, db, before, ids[k], t);
        }
      }
      forall i | 0 <= i < |ids| ensures KeyOfMessage(db.messages[ids[i]]) in NoteAll(cfg, db, ids).receipts {
        if i < k { assert before[i] == ids[i]; }
      }
    }
  }

  lemma AlreadyNoted(cfg: Config, db: Tables, k: Key)
    requires k in db.receipts
    ensures FirstWins(cfg, db, [], k, db.receipts[k])
  {
  }

  lemma FirstWinsLonger(cfg: Config, db: Tables, before: seq<nat>, id: nat, key: Key, r: Receipt)
    requires FirstWins(cfg, db, before, key, r) && id in db.messages
    ensures FirstWins(cfg, db, before + [id], key, r)
  {
    hide KeyOfMessage, ReceiptOf;
    if key !in db.receipts {
      var i :| 0 <= i < |before| && before[i] in db.messages && KeyOfMessage(db.messages[before[i]]) == key
               && r == ReceiptOf(cfg, before[i], db.messages[before[i]])
               && forall j :: 0 <= j < i ==> before[j] in db.messages && KeyOfMessage(db.messages[before[j]]) != key;
      assert (before + [id])[i] == before[i] && (before + [id])[..i] == before[..i];
    }
  }

  lemma NewKeyFirst(cfg: Config, db: Tables, before: seq<nat>, id: nat, t: Tables)
    requires id in db.messages && forall i :: 0 <= i < |before| ==> before[i] in db.messages
    requires t == NoteAll(cfg, db, before) && KeyOfMessage(db.messages[id]) !in t.receipts
    requires forall i :: 0 <= i < |before| ==> KeyOfMessage(db.messages[before[i]]) in t.receipts
    ensures FirstWins(cfg, db, before + [id], KeyOfMessage(db.messages[id]), ReceiptOf(cfg, id, db.messages[id]))
  {
    hide KeyOfMessage, ReceiptOf;
    ReceiptsStay(cfg, db, before, KeyOfMessage(db.messages[id]));
    assert (before + [id])[|before|] == id;
  }

  lemma {:induction false} ReceiptsStay(cfg: Config, db: Tables, ids: seq<nat>, key: Key)
    requires forall i :: 0 <= i < |ids| ==> ids[i] in db.messages
    ensures key in db.receipts ==> key in NoteAll(cfg, db, ids).receipts
  {
    if ids != [] { ReceiptsStay(cfg, db, ids[..|ids| - 1], key); }
  }

  lemma {:induction false} NotesKeep(cfg: Config, db: Tables, ids: seq<nat>)
    requires TablesOk(cfg, db) && forall i :: 0 <= i < |ids| ==> ids[i] in db.messages
    ensures TablesOk(cfg, NoteAll(cfg, db, ids))
  {
    hide RowOk, SlotsUnique;
    if ids != [] {
      NotesKeep(cfg, db, ids[..|ids| - 1]);
      var t := NoteAll(cfg, db, ids[..|ids| - 1]);
      forall i | i in t.deliveries ensures RowOk(NoteAll(cfg, db, ids), i) {
        assert RowOk(t, i);
        RowKept(t, NoteAll(cfg, db, ids), i);
      }
    }
  }

  // ---- the protocol invariant ----

  lemma {:induction false} FillKeepsOrigin(db: Tables, ids: seq<nat>, ttl: nat, now: int)
    requires forall i :: 0 <= i < |ids| ==> ids[i] in db.messages
    ensures forall id :: id in db.messages ==>
              Fill(db, ids, ttl, now).messages[id].createdAt == db.messages[id].createdAt
  {
    hide StillDue, FreshRow;
    if ids != [] { FillKeepsOrigin(db, ids[..|ids| - 1], ttl, now); }
  }

  /** When nothing is dated in the future, the tables satisfy the whole protocol invariant before
      a process runs, so every run may start from a backfilled database. */
  lemma BackfillEstablishes(cfg: Config, db: Tables, ids: seq<nat>, keyed: seq<nat>, ttl: nat, now: int)
    requires Inv(cfg, State(now, db, None)) && Unrepeated(ids)
    requires forall id :: id in db.messages ==> db.messages[id].createdAt <= now
    requires forall i :: 0 <= i < |ids| ==> ids[i] in db.messages && Undelivered(db, ids[i])
    requires forall i :: 0 <= i < |keyed| ==> keyed[i] in db.messages
    ensures Inv(cfg, State(now, NoteAll(cfg, Fill(db, ids, ttl, now), keyed), None))
  {
    hide TablesOk, Fill, NoteAll, Undelivered;
    FillKeeps(cfg, db, ids, ttl, now);
    FillKeepsOrigin(db, ids, ttl, now);
    var filled := Fill(db, ids, ttl, now);
    NotesKeep(cfg, filled, keyed);
    EarliestIsNoted(cfg, filled, keyed);
    var t := NoteAll(cfg, filled, keyed);
    forall k | k in t.receipts ensures t.receipts[k].acceptedAt <= now {
      assert FirstWins(cfg, filled, keyed, k, t.receipts[k]);
    }
  }

  // ---- the procedure ----

  /** The first of some messages in created order. */
  method FirstCreated(messages: map<nat, Message>, rows: set<nat>) returns (first: nat)
    requires rows != {} && rows <= messages.Keys
    ensures first in rows && forall j :: j in rows && j != first ==> Earlier(messages, first, j)
  {
    first :| first in rows;
    var rest := rows - {first};
    hide Earlier;
    while rest != {}
      invariant rest <= rows && first in rows && first !in rest
      invariant forall j :: j in rows && j !in rest && j != first ==> Earlier(messages, first, j)
    {
      var next :| next in rest;
      if Earlier(messages, next, first) {
        forall j | j in rows && j !in rest && j != first ensures Earlier(messages, next, j) {
          EarlierTransitive(messages, next, first, j);
        }
        first := next;
      } else {
        EarlierTotal(messages, first, next);
      }
      rest := rest - {next};
    }
  }

  /** SELECT ... ORDER BY created_at, message_id. */
  method Select(messages: map<nat, Message>, rows: set<nat>) returns (ids: seq<nat>)
    requires rows <= messages.Keys
    ensures InOrder(messages, ids, rows) && Unrepeated(ids) && forall i :: 0 <= i < |ids| ==> ids[i] in rows
  {
    hide Earlier;
    ids := [];
    var left := rows;
    while left != {}
      invariant left <= rows && (forall i :: 0 <= i < |ids| ==> ids[i] in rows && ids[i] !in left)
      invariant forall r :: r in rows ==> r in left || r in ids
      invariant Unrepeated(ids)
      invariant forall i, j :: 0 <= i < j < |ids| ==> Earlier(messages, ids[i], ids[j])
      invariant forall i, j :: 0 <= i < |ids| && j in left ==> Earlier(messages, ids[i], j)
    {
      var id := FirstCreated(messages, left);
      ids := ids + [id];
      left := left - {id};
    }
    assert Elements(ids) == rows;
  }

  method FillRows(db: Tables, ids: seq<nat>, ttl: nat, now: int) returns (t: Tables)
    requires forall i :: 0 <= i < |ids| ==> ids[i] in db.messages
    ensures t == Fill(db, ids, ttl, now)
  {
    hide FillOne;
    t := db;
    var i := 0;
    while i < |ids|
      invariant 0 <= i <= |ids| && t == Fill(db, ids[..i], ttl, now) && t.messages.Keys == db.messages.Keys
    {
      assert ids[..i + 1][..i] == ids[..i];
      t := FillOne(t, ids[i], ttl, now);
      i := i + 1;
    }
    assert ids[..i] == ids;
  }

  method NoteReceipts(cfg: Config, db: Tables, ids: seq<nat>) returns (t: Tables)
    requires forall i :: 0 <= i < |ids| ==> ids[i] in db.messages
    ensures t == NoteAll(cfg, db, ids)
  {
    t := db;
    var i := 0;
    while i < |ids|
      invariant 0 <= i <= |ids| && t == NoteAll(cfg, db, ids[..i])
    {
      assert ids[..i + 1][..i] == ids[..i];
      var key := KeyOfMessage(t.messages[ids[i]]);
      if key !in t.receipts {
        t := t.(receipts := t.receipts[key := ReceiptOf(cfg, ids[i], t.messages[ids[i]])]);
      }
      i := i + 1;
    }
    assert ids[..i] == ids;
  }

  function UndeliveredIds(db: Tables): set<nat> {
    set id | id in db.messages && Undelivered(db, id)
  }

  function ReceiptableIds(cfg: Config, db: Tables, now: int): set<nat> {
    set id | id in db.messages && Receiptable(cfg, db, id, now)
  }

  /** These are all the undelivered and all the recent messages, in created order, and the
      tables are filled and noted from them. */
  ghost predicate FilledFrom(cfg: Config, db: Tables, ttl: nat, now: int, t: Tables, ids: seq<nat>, keyed: seq<nat>) {
    && InOrder(db.messages, ids, UndeliveredIds(db)) && Unrepeated(ids)
    && InOrder(db.messages, keyed, ReceiptableIds(cfg, db, now))
    && (forall i :: 0 <= i < |ids| ==> ids[i] in db.messages)
    && (forall i :: 0 <= i < |keyed| ==> keyed[i] in db.messages)
    && t == NoteAll(cfg, Fill(db, ids, ttl, now), keyed)
  }

  /** The marker makes it run at most once; the run numbers every undelivered message of the
      database and keeps the table invariant. */
  method BackfillOnce(cfg: Config, db: Tables, applied: bool, ttl: nat, now: int) returns (t: Tables, marked: bool)
    ensures marked
    ensures applied ==> t == db
    ensures !applied ==> exists ids, keyed :: FilledFrom(cfg, db, ttl, now, t, ids, keyed)
    ensures TablesOk(cfg, db) ==> TablesOk(cfg, t)
    ensures Inv(cfg, State(now, db, None)) && (forall id :: id in db.messages ==> db.messages[id].createdAt <= now) ==>
              Inv(cfg, State(now, t, None))
  {
    hide TablesOk, Fill, NoteAll, Undelivered, Receiptable, InOrder, Inv;
    if applied { return db, true; }
    var ids := Select(db.messages, UndeliveredIds(db));
    var filled := FillRows(db, ids, ttl, now);
    var keyed := Select(db.messages, ReceiptableIds(cfg, db, now));
    t := NoteReceipts(cfg, filled, keyed);
    if TablesOk(cfg, db) {
      FillKeeps(cfg, db, ids, ttl, now);
      NotesKeep(cfg, filled, keyed);
    }
    if Inv(cfg, State(now, db, None)) && forall id :: id in db.messages ==> db.messages[id].createdAt <= now {
      BackfillEstablishes(cfg, db, ids, keyed, ttl, now);
    }
    assert FilledFrom(cfg, db, ttl, now, t, ids, keyed);
    marked := true;
  }
}
