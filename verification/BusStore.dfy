/** The SQLite-backed store as an object: every method is one or two steps of the protocol,
    carried out on its fields, and keeps the protocol invariant. */
module BusStore {
  import opened Model
  import opened Durable
  import opened Stamps
  import opened Batch
  import opened Paging
  import opened Protocol
  import opened Safety
  import opened Invariant
  import Outcomes

  // ---- claim order ----

  lemma BeforeIsTotalPreorder(a: Delivery, b: Delivery, c: Delivery)
    ensures Before(a, b) || Before(b, a)
    ensures Before(a, b) && Before(b, c) ==> Before(a, c)
  {
    hide Sooner;
    if a.nextAttempt.Some? && b.nextAttempt.Some? {
      SoonerTotal(a.nextAttempt.value, b.nextAttempt.value);
      if c.nextAttempt.Some? && Sooner(a.nextAttempt.value, b.nextAttempt.value)
         && Sooner(b.nextAttempt.value, c.nextAttempt.value) {
        SoonerTransitive(a.nextAttempt.value, b.nextAttempt.value, c.nextAttempt.value);
      }
    }
  }

  /** The first of some rows in claim order. */
  method FirstDue(d: map<nat, Delivery>, rows: set<nat>) returns (first: nat)
    requires rows != {} && rows <= d.Keys
    ensures first in rows && forall j :: j in rows ==> Before(d[first], d[j])
  {
    first :| first in rows;
    var rest := rows - {first};
    while rest != {}
      invariant rest <= rows <= d.Keys && first in rows
      invariant forall j :: j in rows && j !in rest ==> Before(d[first], d[j])
      decreases |rest|
    {
      var next :| next in rest;
      if !Before(d[first], d[next]) {
        forall j | j in rows && j !in rest ensures Before(d[next], d[j]) {
          BeforeIsTotalPreorder(d[next], d[first], d[j]);
        }
        first := next;
      }
      rest := rest - {next};
    }
  }

  /** The rows a claim takes: at most the limit, first in claim order. */
  method SelectDue(d: map<nat, Delivery>, pushable: set<string>, now: int) returns (claimed: seq<nat>)
    ensures FirstBatch(d, Elements(claimed), pushable, now) && |Elements(claimed)| == |claimed| <= 32
    ensures forall i :: 0 <= i < |claimed| ==>
              && claimed[i] in d && d[claimed[i]].status.Pending?
              && (d[claimed[i]].nextAttempt.Some? ==> !Sooner(now, d[claimed[i]].nextAttempt.value))
              && Sooner(now, d[claimed[i]].expiresAt) && d[claimed[i]].target in pushable
  {
    hide Sooner;
    var due := set id | id in d && Claimable(d[id], pushable, now);
    claimed := FirstOf(d, due, CLAIM_LIMIT);
    forall i | 0 <= i < |claimed| ensures claimed[i] in due { assert claimed[i] in Elements(claimed); }
  }

  lemma ElementsAppend(ids: seq<nat>, id: nat)
    ensures Elements(ids + [id]) == Elements(ids) + {id}
  {
  }

  method FirstOf(d: map<nat, Delivery>, due: set<nat>, limit: nat) returns (claimed: seq<nat>)
    requires due <= d.Keys
    ensures Elements(claimed) <= due && |Elements(claimed)| == |claimed|
    ensures |claimed| == if |due| < limit then |due| else limit
    ensures forall i, j :: i in Elements(claimed) && j in due && j !in Elements(claimed) ==> Before(d[i], d[j])
  {
    hide Before;
    var left := due;
    ghost var taken: set<nat> := {};
    claimed := [];
    while left != {} && |claimed| < limit
      invariant taken !! left && taken + left == due && taken == Elements(claimed)
      invariant |claimed| <= limit && |claimed| == |taken|
      invariant forall i, j :: i in taken && j in left ==> Before(d[i], d[j])
      decreases |left|
    {
      var id := FirstDue(d, left);
      ElementsAppend(claimed, id);
      claimed := claimed + [id];
      taken := taken + {id};
      left := left - {id};
    }
    assert |due| == |taken| + |left|;
  }

  method PushCycleBackoff(base: nat, attempts: nat) returns (backoff: nat)
    ensures backoff == Backoff(base, attempts)
  {
    backoff := base;
    var i := 1;
    while i < attempts
      invariant 1 <= i && (i <= attempts || i == 1)
      invariant backoff == Backoff(base, i)
    {
      assert Backoff(base, i + 1) == if 2 * backoff >= CAP then CAP else 2 * backoff;
      backoff := backoff * 2;
      if backoff >= CAP {
        CapReached(base, i + 1, attempts);
        return CAP;
      }
      i := i + 1;
    }
    assert attempts <= 1 || i == attempts;
  }

  lemma {:induction false} CapReached(base: nat, i: nat, attempts: nat)
    requires 1 < i <= attempts && Backoff(base, i) == CAP
    ensures Backoff(base, attempts) == CAP
  {
    if i < attempts { CapReached(base, i, attempts - 1); }
  }

  // ---- scans ----

  lemma NextSlot(d: map<nat, Delivery>, agent: string, slot: nat, end: nat, now: int, rest: seq<nat>)
    requires SlotsUnique(d) && slot < end && rest == Ordered(d, agent, slot, end, now)
    ensures AtSlot(d, agent, slot, now) == {} ==> rest == Ordered(d, agent, slot + 1, end, now)
    ensures forall id :: id in AtSlot(d, agent, slot, now) ==>
              |rest| > 0 && rest[0] == id && rest[1..] == Ordered(d, agent, slot + 1, end, now)
  {
    var hit := AtSlot(d, agent, slot, now);
    if hit != {} {
      ListedExactly(d, agent, slot, now, Listed(hit)[0]);
      assert Listed(hit)[0] in Listed(hit);
      assert rest[1..] == Ordered(d, agent, slot + 1, end, now);
    }
  }

  /** The rows still to be scanned, and how many of the whole listing will be taken. */
  ghost predicate Scanning(cfg: Config, db: Tables, all: seq<nat>, batch: seq<nat>, rest: seq<nat>, used: nat,
                           limit: int) {
    && all == batch + rest
    && Count(cfg, db, all, limit) == Fit(db.messages, all, EventLimit(cfg, limit), BatchBytes(cfg), |batch|, used)
  }

  lemma ScanTakes(cfg: Config, db: Tables, all: seq<nat>, batch: seq<nat>, rest: seq<nat>, used: nat, limit: int,
                  id: nat)
    requires Scanning(cfg, db, all, batch, rest, used, limit) && |batch| < EventLimit(cfg, limit)
    requires |rest| > 0 && rest[0] == id
    ensures |batch| > 0 && used + Size(db.messages, id) > BatchBytes(cfg) ==>
              Count(cfg, db, all, limit) == |batch| && batch == all[..|batch|]
    ensures !(|batch| > 0 && used + Size(db.messages, id) > BatchBytes(cfg)) ==>
              Scanning(cfg, db, all, batch + [id], rest[1..], used + Size(db.messages, id), limit)
  {
    assert all[|batch|] == id;
  }

  lemma ScanStarts(cfg: Config, db: Tables, all: seq<nat>, limit: int)
    ensures Scanning(cfg, db, all, [], all, 0, limit)
  {
  }

  lemma ScanDone(cfg: Config, db: Tables, agent: string, slot: nat, now: int,
                 all: seq<nat>, batch: seq<nat>, rest: seq<nat>, used: nat, limit: int)
    requires Scanning(cfg, db, all, batch, rest, used, limit)
    requires rest == Ordered(db.deliveries, agent, slot, CursorOf(db, agent).next, now)
    requires |batch| >= EventLimit(cfg, limit) || slot >= CursorOf(db, agent).next
    ensures Count(cfg, db, all, limit) == |batch| && batch == all[..|batch|]
  {
  }

  lemma CountWithin(cfg: Config, db: Tables, ids: seq<nat>, limit: int)
    ensures var n := Count(cfg, db, ids, limit);
            (limit > 0 ==> n <= limit) && n <= if cfg.maxEvents > 0 then cfg.maxEvents else 10000
  {
    hide Fit, Bytes;
    assert Bytes(db.messages, ids[..0]) == 0 by { BytesOfNone(db.messages, ids); }
    FitIsMaximal(db.messages, ids, EventLimit(cfg, limit), BatchBytes(cfg), 0);
  }

  lemma BytesOfNone(messages: map<nat, Message>, ids: seq<nat>)
    ensures Bytes(messages, ids[..0]) == 0
  {
  }

  /** Walks an agent's slots in order until the event limit, the byte limit or the end. */
  method ScanInbox(cfg: Config, db: Tables, agent: string, cursor: nat, limit: int, now: int) returns (batch: seq<nat>)
    requires SlotsUnique(db.deliveries)
    ensures batch == Chosen(cfg, db, agent, cursor, limit, now)
    ensures (limit > 0 ==> |batch| <= limit) && |batch| <= if cfg.maxEvents > 0 then cfg.maxEvents else 10000
  {
    hide Ordered, Scanning, AtSlot, SlotsUnique;
    var end := CursorOf(db, agent).next;
    ghost var all := Ordered(db.deliveries, agent, cursor, end, now);
    ghost var rest := all;
    batch := [];
    var used: nat, slot := 0, cursor;
    ScanStarts(cfg, db, all, limit);
    CountWithin(cfg, db, all, limit);
    while slot < end && |batch| < EventLimit(cfg, limit)
      invariant rest == Ordered(db.deliveries, agent, slot, end, now)
      invariant Scanning(cfg, db, all, batch, rest, used, limit)
      decreases if slot < end then end - slot else 0
    {
      var hit := AtSlot(db.deliveries, agent, slot, now);
      NextSlot(db.deliveries, agent, slot, end, now, rest);
      slot := slot + 1;
      if hit != {} {
        var id :| id in hit;
        ScanTakes(cfg, db, all, batch, rest, used, limit, id);
        if |batch| > 0 && used + Size(db.messages, id) > BatchBytes(cfg) {
          return;
        }
        used := used + Size(db.messages, id);
        batch := batch + [id];
        rest := rest[1..];
      }
    }
    ScanDone(cfg, db, agent, slot, now, all, batch, rest, used, limit);
  }

  method MarkOffered(messages: map<nat, Message>, ids: seq<nat>, now: int) returns (marked: map<nat, Message>)
    ensures marked == OfferAll(messages, Elements(ids), now)
  {
    marked := messages;
    var i := 0;
    while i < |ids|
      invariant 0 <= i <= |ids|
      invariant marked == OfferAll(messages, Elements(ids[..i]), now)
    {
      assert Elements(ids[..i + 1]) == Elements(ids[..i]) + {ids[i]};
      if ids[i] in marked { marked := marked[ids[i] := Offered(marked[ids[i]], now)]; }
      i := i + 1;
    }
    assert ids[..|ids|] == ids;
  }

  method MarkAttempting(d: map<nat, Delivery>, ids: seq<nat>) returns (e: map<nat, Delivery>)
    ensures e == ClaimRows(d, Elements(ids))
  {
    e := d;
    var i := 0;
    while i < |ids|
      invariant 0 <= i <= |ids|
      invariant e == ClaimRows(d, Elements(ids[..i]))
    {
      assert Elements(ids[..i + 1]) == Elements(ids[..i]) + {ids[i]};
      if ids[i] in e && e[ids[i]].status.Pending? { e := e[ids[i] := e[ids[i]].(status := Attempting)]; }
      i := i + 1;
    }
    assert ids[..|ids|] == ids;
  }

  /** Deletes messages past retention that no live delivery still needs, with their deliveries. */
  method PruneTables(cfg: Config, db: Tables, now: int) returns (pruned: Tables)
    ensures pruned == Pruned(cfg, db, now)
  {
    hide Stays, ExpireDue, UnspentReceipts;
    var d := ExpireDue(db.deliveries, now);
    var receipts := UnspentReceipts(db, now);
    var kept := db.messages;
    var rows := db.messages.Keys;
    while rows != {}
      invariant rows <= db.messages.Keys && kept.Keys <= db.messages.Keys
      invariant forall id :: id in db.messages ==>
                  (id in kept <==> id in rows || Stays(cfg, db.messages[id], d, id, now))
      invariant forall id :: id in kept ==> kept[id] == db.messages[id]
      decreases |rows|
    {
      var id :| id in rows;
      if !Stays(cfg, db.messages[id], d, id, now) { kept := kept - {id}; }
      rows := rows - {id};
    }
    pruned := db.(messages := kept, deliveries := map id | id in d && id in kept :: d[id], receipts := receipts);
    PrunedIs(cfg, db, now, pruned);
  }

  function UnspentReceipts(db: Tables, now: int): map<Key, Receipt> {
    map k | k in db.receipts && !Sooner(db.receipts[k].expiresAt, now) :: db.receipts[k]
  }

  predicate Stays(cfg: Config, m: Message, d: map<nat, Delivery>, id: nat, now: int) {
    !PastRetention(cfg, m, now) || (id in d && Live(d[id]))
  }

  lemma PrunedIs(cfg: Config, db: Tables, now: int, pruned: Tables)
    requires var d := ExpireDue(db.deliveries, now);
             && pruned == db.(messages := pruned.messages, deliveries := pruned.deliveries, receipts := pruned.receipts)
             && pruned.messages.Keys <= db.messages.Keys
             && (forall id :: id in db.messages ==>
                   (id in pruned.messages <==> Stays(cfg, db.messages[id], d, id, now)))
             && (forall id :: id in pruned.messages ==> pruned.messages[id] == db.messages[id])
             && pruned.deliveries == (map id | id in d && id in pruned.messages :: d[id])
             && pruned.receipts == UnspentReceipts(db, now)
    ensures pruned == Pruned(cfg, db, now)
  {
    hide PastRetention, Live, ExpireDue, Sooner;
    assert pruned.messages == Pruned(cfg, db, now).messages;
  }

  method LoadIdempotency(db: Tables, now: int) returns (index: map<Key, Entry>)
    ensures index == Loaded(db, now).entries
  {
    index := map[];
    var keys := db.receipts.Keys;
    while keys != {}
      invariant keys <= db.receipts.Keys
      invariant index == map k | k in db.receipts && k !in keys && !Sooner(db.receipts[k].expiresAt, now) ::
                             Entry(db.receipts[k].id, db.receipts[k].acceptedAt)
      decreases |keys|
    {
      var k :| k in keys;
      var receipt := db.receipts[k];
      if !Sooner(receipt.expiresAt, now) { index := index[k := Entry(receipt.id, receipt.acceptedAt)]; }
      keys := keys - {k};
    }
  }

  /** The key constraints of the acceptance transaction, one by one. */
  lemma ConflictsWhen(db: Tables, a: Acceptance)
    ensures Conflicts(db, a) <==>
              || (a.message.to != ""
                  && (a.id in db.deliveries || SlotTaken(db.deliveries, a.message.to, CursorOf(db, a.message.to).next)))
              || (a.key.Some? && a.key.value in db.receipts)
  {
  }

  /** The new row is the same once the cursor row exists. */
  lemma AcceptedRow(db: Tables, tx: Tables, a: Acceptance)
    requires CursorOf(tx, a.message.to) == CursorOf(db, a.message.to)
    ensures NewDelivery(tx, a) == NewDelivery(db, a) && NewDelivery(db, a).slot == CursorOf(db, a.message.to).next
  {
    hide DeliveryExpiry;
  }

  /** What the transaction writes, table by table. */
  lemma AcceptedIs(cfg: Config, db: Tables, a: Acceptance)
    ensures var t := Accepted(cfg, db, a);
            && t.messages == db.messages[a.id := a.message] && t.nextMessage == a.id
            && t.deliveries == (if a.message.to == "" then db.deliveries else db.deliveries[a.id := NewDelivery(db, a)])
            && t.cursors == (if a.message.to == "" then db.cursors
                             else db.cursors[a.message.to := Cursor(NewDelivery(db, a).slot + 1,
                                                                    CursorOf(db, a.message.to).acked)])
            && t.receipts == (if a.key.None? then db.receipts
                              else db.receipts[a.key.value := Receipt(a.id, a.message.createdAt,
                                                                      a.message.createdAt + cfg.window)])
  {
    hide NewDelivery;
  }

  lemma TakenIff(d: map<nat, Delivery>, to: string, slot: nat, taken: set<nat>)
    requires taken == set id | id in d && d[id].target == to && d[id].slot == slot
    ensures taken != {} <==> SlotTaken(d, to, slot)
  {
    if SlotTaken(d, to, slot) {
      var id :| id in d && d[id].target == to && d[id].slot == slot;
      assert id in taken;
    }
  }

  lemma InvTables(cfg: Config, s: State)
    requires Inv(cfg, s)
    ensures TablesOk(cfg, s.db)
  {
  }

  /** The store: the open database and the in-memory store, as long as a process runs. */
  class SQLiteStore {
    const cfg: Config
    ghost var clock: int
    var db: Tables
    var inner: Option<Memory>

    ghost function View(): State
      reads this
    {
      State(clock, db, inner)
    }

    ghost predicate Valid()
      reads this
    {
      Inv(cfg, View())
    }

    constructor (cfg: Config, now: int)
      ensures Valid() && this.cfg == cfg && View() == State(now, EMPTY_TABLES, None)
    {
      this.cfg := cfg;
      clock := now;
      db := EMPTY_TABLES;
      inner := None;
      new;
      Initial(cfg, now);
    }

    // ---- acceptance ----

    /** The acceptance transaction. Statements work on a copy; a failed constraint or commit
        drops the copy. */
    method PersistAcceptance(a: Acceptance, dbFails: bool) returns (ok: bool)
      modifies this`db
      ensures ok == (!dbFails && !Conflicts(old(db), a))
      ensures db == if ok then Accepted(cfg, old(db), a) else old(db)
    {
      hide NewDelivery, SlotTaken, Accepted, Conflicts;
      var tx := db.(messages := db.messages[a.id := a.message], nextMessage := a.id);
      var to := a.message.to;
      ConflictsWhen(db, a);
      if to != "" {
        if to !in tx.cursors { tx := tx.(cursors := tx.cursors[to := Cursor(0, 0)]); }
        var slot := tx.cursors[to].next;
        var taken := set id | id in tx.deliveries && tx.deliveries[id].target == to && tx.deliveries[id].slot == slot;
        TakenIff(db.deliveries, to, slot, taken);
        if a.id in tx.deliveries || taken != {} { return false; }
        AcceptedRow(db, tx, a);
        tx := tx.(deliveries := tx.deliveries[a.id := NewDelivery(tx, a)],
                  cursors := tx.cursors[to := Cursor(slot + 1, tx.cursors[to].acked)]);
      }
      if a.key.Some? {
        if a.key.value in tx.receipts { return false; }
        var receipt := Receipt(a.id, a.message.createdAt, a.message.createdAt + cfg.window);
        tx := tx.(receipts := tx.receipts[a.key.value := receipt]);
      }
      if dbFails { return false; }
      AcceptedIs(cfg, db, a);
      db := tx;
      ok := true;
    }

    /** The send path up to its commit, holding the store lock on success. */
    method CommitSend(send: Send, dbFails: bool, now: int) returns (o: Outcome)
      requires Valid() && Enabled(cfg, View(), Commit(send, dbFails), now)
      modifies this
      ensures o == Decide(cfg, old(db), old(inner.value), send, dbFails, now)
      ensures o.Committed? ==> Outcomes.Creates(cfg, send, now, o.a.message)
      ensures View() == Apply(cfg, old(View()), Commit(send, dbFails), now) && Valid()
    {
      hide Inv, Outcomes.Creates;
      Step(cfg, View(), Commit(send, dbFails), now);
      Outcomes.SendDecides(cfg, View(), send, dbFails, now);
      clock := now;
      var p := inner.value;
      if send.target.Unregistered? { return Refused; }
      var key := SendKey(send);
      if key.Some? && key.value in p.entries && InWindow(cfg, p.entries[key.value].createdAt, now) {
        return Duplicate(p.entries[key.value].id);
      }
      var m := Plan(cfg, send, now);
      if m.None? { return Refused; }
      var a := Acceptance(p.nextMessage + 1, m.value, key, send.target == Active(true));
      var ok := PersistAcceptance(a, dbFails);
      if !ok { return Aborted; }
      inner := Some(p.(held := Some(a)));
      return Committed(a);
    }

    /** Hands a job to the worker pool without blocking. */
    method EnqueuePushJob(id: nat) returns (queued: bool)
      requires inner.Some?
      modifies this`inner
      ensures queued == QueueOpen(cfg, old(inner.value))
      ensures var p := old(inner.value);
              inner == Some(if queued then p.(queue := p.queue + [id], wg := p.wg + 1) else p)
    {
      var p := inner.value;
      if p.closed { return false; }
      p := p.(wg := p.wg + 1);
      if |p.queue| < cfg.queueSize {
        inner := Some(p.(queue := p.queue + [id]));
        return true;
      }
      inner := Some(p.(wg := p.wg - 1));
      return false;
    }

    /** Publication of a committed acceptance, and the release of the lock. */
    method PublishAcceptance(now: int)
      requires Valid() && Enabled(cfg, View(), Publish, now)
      modifies this
      ensures View() == Apply(cfg, old(View()), Publish, now) && Valid()
    {
      hide Inv;
      Step(cfg, View(), Publish, now);
      clock := now;
      var p := inner.value;
      var a := p.held.value;
      p := p.(nextMessage := a.id, messages := p.messages[a.id := a.message], held := None);
      if a.key.Some? { p := p.(entries := p.entries[a.key.value := Entry(a.id, a.message.createdAt)]); }
      inner := Some(p);
      if a.push {
        var queued := EnqueuePushJob(a.id);
        if !queued && !p.closed {
          inner := Some(p.(wg := p.wg + 1, detached := p.detached + multiset{a.id}));
        }
      }
    }

    // ---- pull ----

    /** The durable poll: commits the cursor, scans the slots in order under the event and
        byte limits, and marks what it offers. */
    method ReadDurableInbox(agent: string, requested: int, limit: int, now: int)
      returns (batch: seq<nat>, next: nat)
      requires Valid() && Enabled(cfg, View(), PollInbox(agent, requested, limit), now)
      modifies this
      ensures batch == PollOnce(cfg, old(db), agent, requested, limit, now).batch
      ensures next == PollOnce(cfg, old(db), agent, requested, limit, now).cursor
      ensures (limit > 0 ==> |batch| <= limit) && |batch| <= if cfg.maxEvents > 0 then cfg.maxEvents else 10000
      ensures View() == Apply(cfg, old(View()), PollInbox(agent, requested, limit), now) && Valid()
    {
      hide Inv;
      Step(cfg, View(), PollInbox(agent, requested, limit), now);
      assert TablesOk(cfg, db) by { InvTables(cfg, View()); }
      Outcomes.PollLimits(cfg, db, agent, requested, limit, now);
      clock := now;
      batch, next := PollTables(agent, requested, limit, now);
      var p := inner.value;
      inner := Some(p.(messages := ProjectAll(p.messages, db.messages, Elements(batch))));
    }

    method PollTables(agent: string, requested: int, limit: int, now: int)
      returns (batch: seq<nat>, next: nat)
      requires TablesOk(cfg, db)
      modifies this`db
      ensures Poll(db, batch, next) == PollOnce(cfg, old(db), agent, requested, limit, now)
    {
      var tx := db;
      if agent !in tx.cursors { tx := tx.(cursors := tx.cursors[agent := Cursor(0, 0)]); }
      var cursor := Clamp(tx.cursors[agent], requested);
      if cursor > tx.cursors[agent].acked {
        tx := tx.(cursors := tx.cursors[agent := Cursor(tx.cursors[agent].next, cursor)],
                  deliveries := AckPrefix(tx.deliveries, agent, cursor, now));
      }
      assert tx == Advanced(db, agent, cursor, now);
      AdvancedTables(cfg, db, agent, cursor, now);
      batch := ScanInbox(cfg, tx, agent, cursor, limit, now);
      var messages := MarkOffered(tx.messages, batch, now);
      next := cursor;
      if |batch| > 0 && batch[|batch| - 1] in tx.deliveries { next := tx.deliveries[batch[|batch| - 1]].slot + 1; }
      db := tx.(messages := messages);
    }

    /** An ack or event: the lifecycle row and the receipt of its delivery commit together. */
    method PersistAck(id: nat, actor: string, next: Message, now: int)
      requires Valid() && Enabled(cfg, View(), Report(id, actor, next), now)
      modifies this
      ensures View() == Apply(cfg, old(View()), Report(id, actor, next), now) && Valid()
    {
      hide Inv;
      Step(cfg, View(), Report(id, actor, next), now);
      clock := now;
      db := db.(messages := db.messages[id := next]);
      if id in db.deliveries && !db.deliveries[id].status.Received? && !db.deliveries[id].status.Failed? {
        db := db.(deliveries := db.deliveries[id := db.deliveries[id].(status := Received, receivedAt := Some(now))]);
      }
      inner := Some(inner.value.(messages := inner.value.messages[id := next]));
    }

    // ---- push ----

    method ClaimDuePushes(pushable: set<string>, now: int) returns (out: seq<nat>)
      requires Valid() && inner.Some? && !inner.value.stopped && clock <= now
      modifies this
      ensures Enabled(cfg, old(View()), Claim(Elements(out), pushable), now)
      ensures Elements(out) <= Outcomes.Awaiting(old(db).deliveries, pushable, now) && |Elements(out)| <= 32
      ensures View() == Apply(cfg, old(View()), Claim(Elements(out), pushable), now) && Valid()
    {
      hide Inv;
      var due := ExpireDue(db.deliveries, now);
      out := SelectDue(due, pushable, now);
      Step(cfg, View(), Claim(Elements(out), pushable), now);
      Outcomes.ClaimTakes(cfg, View(), Elements(out), pushable, now, 0);
      clock := now;
      var deliveries := MarkAttempting(due, out);
      var messages := MarkOffered(db.messages, out, now);
      db := db.(deliveries := deliveries, messages := messages);
      var p := inner.value;
      inner := Some(p.(claimed := p.claimed + multiset(Elements(out))));
    }

    method EnqueueClaimedPush(id: nat, now: int)
      requires Valid() && Enabled(cfg, View(), Enqueue(id), now)
      modifies this
      ensures View() == Apply(cfg, old(View()), Enqueue(id), now) && Valid()
    {
      hide Inv;
      Step(cfg, View(), Enqueue(id), now);
      clock := now;
      var p := inner.value;
      p := p.(claimed := p.claimed - multiset{id});
      if id !in db.messages {
        inner := Some(p);
        WriteFailureRow(id, 0, now);
        return;
      }
      inner := Some(p.(messages := ProjectAll(p.messages, db.messages, {id})));
      var queued := EnqueuePushJob(id);
      if !queued { WriteFailureRow(id, 0, now); }
    }

    method WriteFailureRow(id: nat, attempts: nat, now: int)
      modifies this`db
      ensures db == FailureWritten(cfg, old(db), id, attempts, now)
    {
      var backoff := PushCycleBackoff(cfg.baseBackoff, attempts);
      if id in db.deliveries && db.deliveries[id].status.Attempting? {
        var row := db.deliveries[id];
        var due := Due(row.expiresAt, now);
        db := db.(deliveries := db.deliveries[id := row.(status := if due then Failed else Status.Pending,
                                                         nextAttempt := if due then None else Some(now + backoff),
                                                         attempts := row.attempts + attempts)]);
      }
    }

    /** A worker takes the job at the head of the queue. */
    method StartJob(now: int) returns (id: nat)
      requires Valid() && Enabled(cfg, View(), Start, now)
      modifies this
      ensures id == old(inner.value.queue)[0] && View() == Apply(cfg, old(View()), Start, now) && Valid()
    {
      hide Inv;
      Step(cfg, View(), Start, now);
      clock := now;
      var p := inner.value;
      id := p.queue[0];
      inner := Some(p.(queue := p.queue[1..], running := p.running + multiset{id}));
    }

    method RecordPushSuccess(id: nat, attempts: nat, now: int)
      requires Valid() && Enabled(cfg, View(), Succeed(id, attempts), now)
      modifies this
      ensures View() == Apply(cfg, old(View()), Succeed(id, attempts), now) && Valid()
    {
      hide Inv;
      Step(cfg, View(), Succeed(id, attempts), now);
      clock := now;
      if id in db.deliveries && db.deliveries[id].status.Attempting? {
        var row := db.deliveries[id];
        db := db.(deliveries := db.deliveries[id := row.(status := Received, receivedAt := Some(now),
                                                         attempts := row.attempts + attempts, nextAttempt := None)]);
      }
      var p := inner.value;
      inner := Some(p.(running := p.running - multiset{id}, wg := p.wg - 1));
    }

    method RecordPushFailure(id: nat, attempts: nat, now: int)
      requires Valid() && Enabled(cfg, View(), GiveUp(id, attempts), now)
      modifies this
      ensures View() == Apply(cfg, old(View()), GiveUp(id, attempts), now) && Valid()
    {
      hide Inv;
      Step(cfg, View(), GiveUp(id, attempts), now);
      clock := now;
      WriteFailureRow(id, attempts, now);
      var p := inner.value;
      inner := Some(p.(running := p.running - multiset{id}, wg := p.wg - 1));
    }

    /** The background failure write of a send whose push could not be queued. */
    method FinishDetached(id: nat, now: int)
      requires Valid() && Enabled(cfg, View(), WriteFailure(id), now)
      modifies this
      ensures View() == Apply(cfg, old(View()), WriteFailure(id), now) && Valid()
    {
      hide Inv;
      Step(cfg, View(), WriteFailure(id), now);
      clock := now;
      WriteFailureRow(id, 0, now);
      var p := inner.value;
      inner := Some(p.(detached := p.detached - multiset{id}, wg := p.wg - 1));
    }

    // ---- retention, start and stop ----

    method PruneDb(now: int)
      requires Valid() && Enabled(cfg, View(), Prune, now)
      modifies this
      ensures View() == Apply(cfg, old(View()), Prune, now) && Valid()
    {
      hide Inv;
      Step(cfg, View(), Prune, now);
      clock := now;
      db := PruneTables(cfg, db, now);
    }

    /** Opening the store: leases are recovered, the tables pruned, the projection loaded. */
    method Open(now: int)
      requires Valid() && Enabled(cfg, View(), Restart, now)
      modifies this
      ensures View() == Apply(cfg, old(View()), Restart, now) && Valid()
    {
      hide Inv;
      Step(cfg, View(), Restart, now);
      clock := now;
      db := db.(deliveries := Recover(db.deliveries));
      db := PruneTables(cfg, db, now);
      var entries := LoadIdempotency(db, now);
      inner := Some(Memory(db.messages, entries, db.nextMessage, None, multiset{}, [], multiset{}, multiset{}, 0,
                           false, false, false, false));
    }

    /** Shutdown, once the workers are done: whatever is still attempting returns to pending. */
    method RecoverAtShutdown(now: int)
      requires Valid() && Enabled(cfg, View(), RecoverLeases, now)
      modifies this
      ensures View() == Apply(cfg, old(View()), RecoverLeases, now) && Valid()
    {
      hide Inv;
      Step(cfg, View(), RecoverLeases, now);
      clock := now;
      db := db.(deliveries := RecoverAtClose(db.deliveries, now));
      inner := Some(inner.value.(recovered := true));
    }

    /** The database closes. */
    method FinishShutdown(now: int)
      requires Valid() && Enabled(cfg, View(), FinishClose, now)
      modifies this
      ensures View() == Apply(cfg, old(View()), FinishClose, now) && Valid()
    {
      hide Inv;
      Step(cfg, View(), FinishClose, now);
      clock := now;
      inner := None;
    }
  }
}
