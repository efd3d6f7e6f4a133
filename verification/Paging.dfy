/** Bounded paging: what one batch is, and that following the returned cursor drains the
    inbox exactly. */
module Paging {
  import opened Model
  import opened Durable
  import opened Batch

  // ---- slot order ----

  ghost predicate InRange(d: map<nat, Delivery>, agent: string, lo: nat, hi: nat, now: int, id: nat) {
    id in d && d[id].target == agent && lo <= d[id].slot < hi && Offerable(d[id], now)
  }

  ghost predicate SlotSorted(d: map<nat, Delivery>, ids: seq<nat>) {
    && (forall k :: 0 <= k < |ids| ==> ids[k] in d)
    && (forall j, k :: 0 <= j < k < |ids| ==> d[ids[j]].slot < d[ids[k]].slot)
  }

  lemma ListedExactly(d: map<nat, Delivery>, agent: string, slot: nat, now: int, id: nat)
    requires SlotsUnique(d)
    ensures id in Listed(AtSlot(d, agent, slot, now)) <==> id in AtSlot(d, agent, slot, now)
    ensures |Listed(AtSlot(d, agent, slot, now))| <= 1
  {
  }

  /** The listing holds exactly the offerable rows of the range, in strictly increasing slot order. */
  lemma {:induction false} OrderedExactly(d: map<nat, Delivery>, agent: string, lo: nat, hi: nat, now: int)
    requires SlotsUnique(d)
    ensures SlotSorted(d, Ordered(d, agent, lo, hi, now))
    ensures forall id :: id in Ordered(d, agent, lo, hi, now) <==> InRange(d, agent, lo, hi, now, id)
    decreases hi - lo
  {
    hide Listed, SlotsUnique;
    if lo < hi {
      OrderedExactly(d, agent, lo + 1, hi, now);
      var first, rest := Listed(AtSlot(d, agent, lo, now)), Ordered(d, agent, lo + 1, hi, now);
      forall id ensures id in first + rest <==> InRange(d, agent, lo, hi, now, id) {
        ListedExactly(d, agent, lo, now, id);
      }
      if |first| > 0 { ListedExactly(d, agent, lo, now, first[0]); assert first[0] in first; }
      forall k | 0 <= k < |rest| ensures InRange(d, agent, lo + 1, hi, now, rest[k]) { assert rest[k] in rest; }
      ListedExactly(d, agent, lo, now, 0);
    }
  }

  lemma {:induction false} OrderedSplits(d: map<nat, Delivery>, agent: string, lo: nat, mid: nat, hi: nat, now: int)
    requires lo <= mid <= hi
    ensures Ordered(d, agent, lo, hi, now) == Ordered(d, agent, lo, mid, now) + Ordered(d, agent, mid, hi, now)
    decreases mid - lo
  {
    hide Listed, AtSlot;
    if lo < mid {
      OrderedSplits(d, agent, lo + 1, mid, hi, now);
    } else {
      assert Ordered(d, agent, lo, mid, now) == [];
    }
  }

  /** Rows outside the range do not matter. */
  lemma {:induction false} OrderedFrame(d: map<nat, Delivery>, e: map<nat, Delivery>, agent: string, lo: nat, hi: nat,
                                        now: int)
    requires d.Keys == e.Keys
    requires forall id :: id in d && d[id] != e[id] ==>
               d[id].target == e[id].target && d[id].slot == e[id].slot && !(d[id].target == agent && lo <= d[id].slot)
    ensures Ordered(d, agent, lo, hi, now) == Ordered(e, agent, lo, hi, now)
    decreases hi - lo
  {
    if lo < hi {
      OrderedFrame(d, e, agent, lo + 1, hi, now);
      assert AtSlot(d, agent, lo, now) == AtSlot(e, agent, lo, now);
    }
  }

  /** Cutting the listing after its k-th row leaves the listing from the next slot on. */
  lemma OrderedTail(d: map<nat, Delivery>, agent: string, lo: nat, hi: nat, now: int, k: nat)
    requires SlotsUnique(d)
    requires 0 < k <= |Ordered(d, agent, lo, hi, now)|
    ensures var ids := Ordered(d, agent, lo, hi, now);
            && ids[k - 1] in d && lo <= d[ids[k - 1]].slot < hi
            && ids[k..] == Ordered(d, agent, d[ids[k - 1]].slot + 1, hi, now)
  {
    var ids := Ordered(d, agent, lo, hi, now);
    OrderedExactly(d, agent, lo, hi, now);
    assert ids[k - 1] in ids;
    var mid := d[ids[k - 1]].slot + 1;
    OrderedSplits(d, agent, lo, mid, hi, now);
    OrderedExactly(d, agent, lo, mid, now);
    OrderedExactly(d, agent, mid, hi, now);
    var a, b := Ordered(d, agent, lo, mid, now), Ordered(d, agent, mid, hi, now);
    forall j | 0 <= j < |ids| ensures j < |a| <==> d[ids[j]].slot < mid {
      if j < |a| {
        assert ids[j] == a[j] && a[j] in a;
      } else {
        assert ids[j] == b[j - |a|] && b[j - |a|] in b;
      }
    }
    assert k - 1 < |a|;
    if k < |ids| {
      assert d[ids[k - 1]].slot < d[ids[k]].slot;
      assert !(k < |a|);
    }
  }

  // ---- what fits ----

  function Bytes(messages: map<nat, Message>, ids: seq<nat>): nat {
    if ids == [] then 0 else Bytes(messages, ids[..|ids| - 1]) + Size(messages, ids[|ids| - 1])
  }

  lemma BytesStep(messages: map<nat, Message>, ids: seq<nat>, k: nat)
    requires k < |ids|
    ensures Bytes(messages, ids[..k + 1]) == Bytes(messages, ids[..k]) + Size(messages, ids[k])
  {
    assert ids[..k + 1][..k] == ids[..k];
  }

  /** The count is the largest that meets the event limit and the byte limit; one event may
      exceed the byte limit alone. */
  lemma {:induction false} FitIsMaximal(messages: map<nat, Message>, ids: seq<nat>, maxEvents: nat, maxBytes: nat,
                                        k: nat)
    requires k <= |ids| && k <= maxEvents && (k <= 1 || Bytes(messages, ids[..k]) <= maxBytes)
    ensures var n := Fit(messages, ids, maxEvents, maxBytes, k, Bytes(messages, ids[..k]));
            && k <= n <= |ids| && n <= maxEvents
            && (n <= 1 || Bytes(messages, ids[..n]) <= maxBytes)
            && (n < |ids| && n < maxEvents ==> n > 0 && Bytes(messages, ids[..n + 1]) > maxBytes)
    decreases |ids| - k
  {
    hide Size, Bytes;
    var used := Bytes(messages, ids[..k]);
    if k < |ids| && k < maxEvents {
      BytesStep(messages, ids, k);
      if !(k > 0 && used + Size(messages, ids[k]) > maxBytes) {
        FitIsMaximal(messages, ids, maxEvents, maxBytes, k + 1);
      }
    }
  }

  /** The rows a poll may offer at or past a cursor. */
  ghost function Outstanding(db: Tables, agent: string, cursor: nat, now: int): seq<nat> {
    Ordered(db.deliveries, agent, cursor, CursorOf(db, agent).next, now)
  }

  /** Acknowledging a prefix does not touch what lies at or past the cursor. */
  lemma AdvancedKeeps(db: Tables, agent: string, cursor: nat, now: int, from: nat, at: int)
    requires cursor <= from
    requires CursorOf(db, agent).acked <= cursor <= CursorOf(db, agent).next
    ensures Outstanding(Advanced(db, agent, cursor, now), agent, from, at) == Outstanding(db, agent, from, at)
    ensures CursorOf(Advanced(db, agent, cursor, now), agent) == Cursor(CursorOf(db, agent).next, cursor)
    ensures SlotsUnique(db.deliveries) ==> SlotsUnique(Advanced(db, agent, cursor, now).deliveries)
  {
    var e := Advanced(db, agent, cursor, now);
    OrderedFrame(db.deliveries, e.deliveries, agent, from, CursorOf(db, agent).next, at);
  }

  /** What a poll takes from its listing, and where it leaves off. */
  lemma ChosenPrefix(cfg: Config, db: Tables, agent: string, cursor: nat, limit: int, now: int)
    requires SlotsUnique(db.deliveries) && cursor <= CursorOf(db, agent).next
    ensures var all := Outstanding(db, agent, cursor, now);
            var batch := Chosen(cfg, db, agent, cursor, limit, now);
            var n := |batch|;
            var after := AfterLast(db.deliveries, batch, cursor);
            && n <= |all| && batch == all[..n] && n <= EventLimit(cfg, limit)
            && (n <= 1 || Bytes(db.messages, batch) <= BatchBytes(cfg))
            && (n < |all| && n < EventLimit(cfg, limit) ==> n > 0 && Bytes(db.messages, all[..n + 1]) > BatchBytes(cfg))
            && cursor <= after <= CursorOf(db, agent).next && (n > 0 ==> cursor < after)
            && Outstanding(db, agent, after, now) == all[n..]
  {
    hide Fit, Size, SlotsUnique, AtSlot, Listed, Ordered;
    var all := Outstanding(db, agent, cursor, now);
    FitIsMaximal(db.messages, all, EventLimit(cfg, limit), BatchBytes(cfg), 0);
    var n := Count(cfg, db, all, limit);
    if n > 0 {
      OrderedTail(db.deliveries, agent, cursor, CursorOf(db, agent).next, now, n);
    }
  }

  lemma MessagesKept(cfg: Config, db: Tables, agent: string, requested: int, limit: int, now: int)
    ensures var c := Clamp(CursorOf(db, agent), requested);
            var r := PollOnce(cfg, db, agent, requested, limit, now);
            var db1 := Advanced(db, agent, c, now);
            && r.db.deliveries == db1.deliveries && r.db.cursors == db1.cursors && db1.messages == db.messages
            && Outstanding(r.db, agent, r.cursor, now) == Outstanding(db1, agent, r.cursor, now)
  {
  }

  /** One poll: a prefix, in slot order, of the outstanding rows at or past the clamped
      cursor; within the limits and as long as they allow; and the returned cursor continues
      exactly after it. The committed cursor is the clamped one. */
  lemma PollOffersPrefix(cfg: Config, db: Tables, agent: string, requested: int, limit: int, now: int)
    requires SlotsUnique(db.deliveries) && CursorOf(db, agent).acked <= CursorOf(db, agent).next
    ensures var c := Clamp(CursorOf(db, agent), requested);
            var r := PollOnce(cfg, db, agent, requested, limit, now);
            var all := Outstanding(db, agent, c, now);
            var n := |r.batch|;
            && n <= |all| && r.batch == all[..n] && n <= EventLimit(cfg, limit)
            && (n <= 1 || Bytes(db.messages, r.batch) <= BatchBytes(cfg))
            && (n < |all| && n < EventLimit(cfg, limit) ==> n > 0 && Bytes(db.messages, all[..n + 1]) > BatchBytes(cfg))
            && c <= r.cursor <= CursorOf(db, agent).next && (n > 0 ==> c < r.cursor)
            && Outstanding(r.db, agent, r.cursor, now) == all[n..]
            && CursorOf(r.db, agent) == Cursor(CursorOf(db, agent).next, c)
            && SlotsUnique(r.db.deliveries)
  {
    hide Outstanding, Chosen, Bytes, SlotsUnique, AckPrefix, OfferAll;
    var c := Clamp(CursorOf(db, agent), requested);
    AdvancedKeeps(db, agent, c, now, c, now);
    MessagesKept(cfg, db, agent, requested, limit, now);
    ChosenPrefix(cfg, Advanced(db, agent, c, now), agent, c, limit, now);
  }

  lemma PrefixApart(d: map<nat, Delivery>, all: seq<nat>, n: nat, id: nat)
    requires SlotSorted(d, all) && n <= |all| && id in all[..n]
    ensures id !in all[n..]
  {
    var i :| 0 <= i < n && all[..n][i] == id;
    if j :| 0 <= j < |all| - n && all[n..][j] == id { assert d[all[i]].slot < d[all[n + j]].slot; }
  }

  /** What a poll offers lies between its committed and its returned cursor. */
  lemma BatchInRange(cfg: Config, db: Tables, agent: string, requested: int, limit: int, now: int, id: nat)
    requires SlotsUnique(db.deliveries) && CursorOf(db, agent).acked <= CursorOf(db, agent).next
    requires id in PollOnce(cfg, db, agent, requested, limit, now).batch
    ensures var r := PollOnce(cfg, db, agent, requested, limit, now);
            InRange(r.db.deliveries, agent, Clamp(CursorOf(db, agent), requested), r.cursor, now, id)
  {
    hide Chosen, Ordered, SlotsUnique, Bytes, AckPrefix, OfferAll, Offerable;
    var c, end := Clamp(CursorOf(db, agent), requested), CursorOf(db, agent).next;
    var r := PollOnce(cfg, db, agent, requested, limit, now);
    PollOffersPrefix(cfg, db, agent, requested, limit, now);
    AdvancedKeeps(db, agent, c, now, c, now);
    MessagesKept(cfg, db, agent, requested, limit, now);
    OrderedExactly(r.db.deliveries, agent, c, end, now);
    OrderedExactly(r.db.deliveries, agent, r.cursor, end, now);
    var all, n := Outstanding(db, agent, c, now), |r.batch|;
    assert all == Ordered(r.db.deliveries, agent, c, end, now);
    assert all[n..] == Ordered(r.db.deliveries, agent, r.cursor, end, now);
    assert id in all[..n] && all == all[..n] + all[n..];
    assert InRange(r.db.deliveries, agent, c, end, now, id);
    PrefixApart(r.db.deliveries, all, n, id);
  }

  /** A client that follows the returned cursor at one clock reading until a poll is empty. */
  ghost function Drain(cfg: Config, db: Tables, agent: string, cursor: int, limit: int, now: int): seq<nat>
    requires SlotsUnique(db.deliveries) && CursorOf(db, agent).acked <= CursorOf(db, agent).next
    decreases CursorOf(db, agent).next - Clamp(CursorOf(db, agent), cursor)
  {
    PollOffersPrefix(cfg, db, agent, cursor, limit, now);
    var r := PollOnce(cfg, db, agent, cursor, limit, now);
    if r.batch == [] then [] else r.batch + Drain(cfg, r.db, agent, r.cursor, limit, now)
  }

  lemma DrainUnfolds(cfg: Config, db: Tables, agent: string, cursor: int, limit: int, now: int)
    requires SlotsUnique(db.deliveries) && CursorOf(db, agent).acked <= CursorOf(db, agent).next
    ensures var r := PollOnce(cfg, db, agent, cursor, limit, now);
            && SlotsUnique(r.db.deliveries) && CursorOf(r.db, agent).acked <= CursorOf(r.db, agent).next
            && Drain(cfg, db, agent, cursor, limit, now)
               == if r.batch == [] then [] else r.batch + Drain(cfg, r.db, agent, r.cursor, limit, now)
  {
    PollOffersPrefix(cfg, db, agent, cursor, limit, now);
  }

  /** It receives every outstanding row at or past its first cursor exactly once, in slot order. */
  lemma {:induction false} DrainIsExact(cfg: Config, db: Tables, agent: string, cursor: int, limit: int, now: int)
    requires SlotsUnique(db.deliveries) && CursorOf(db, agent).acked <= CursorOf(db, agent).next
    ensures Drain(cfg, db, agent, cursor, limit, now)
         == Outstanding(db, agent, Clamp(CursorOf(db, agent), cursor), now)
    decreases CursorOf(db, agent).next - Clamp(CursorOf(db, agent), cursor)
  {
    hide PollOnce, Outstanding, Bytes, SlotsUnique, Drain;
    var c := Clamp(CursorOf(db, agent), cursor);
    var r := PollOnce(cfg, db, agent, cursor, limit, now);
    var all := Outstanding(db, agent, c, now);
    PollOffersPrefix(cfg, db, agent, cursor, limit, now);
    DrainUnfolds(cfg, db, agent, cursor, limit, now);
    if r.batch != [] {
      assert Clamp(CursorOf(r.db, agent), r.cursor) == r.cursor;
      DrainIsExact(cfg, r.db, agent, r.cursor, limit, now);
      assert all == all[..|r.batch|] + all[|r.batch|..];
    }
  }
}
