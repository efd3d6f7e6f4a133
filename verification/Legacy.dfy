/** How the durable tables come to be from older state: the import of a JSON snapshot, and the
    one-time backfill of a database that predates delivery rows. */
module Legacy {
  import opened Model
  import opened Durable
  import opened Protocol
  import opened Safety

  // ---- the import ----

  datatype RawKey = Well(key: Key) | Malformed(text: string)
  datatype LegacyEntry = LegacyEntry(id: nat, createdAt: int)

  /** The decoded snapshot: inboxes hold message ids, oldest first. */
  datatype Snapshot = Snapshot(
    messages: map<nat, Message>,
    inboxes: map<string, seq<nat>>,
    bases: map<string, nat>,
    entries: map<RawKey, LegacyEntry>,
    nextMessage: nat)

  function BaseOf(l: Snapshot, agent: string): nat {
    if agent in l.bases then l.bases[agent] else 0
  }

  /** The message is known and its request has not been taken up or finished. */
  predicate Wanted(messages: map<nat, Message>, id: nat) {
    id in messages && !(messages[id].kind.Request? && (messages[id].phase.Executing? || Terminal(messages[id].phase)))
  }

  function Deliverable(messages: map<nat, Message>, inbox: seq<nat>): seq<nat> {
    if inbox == [] then []
    else
      var last := inbox[|inbox| - 1];
      Deliverable(messages, inbox[..|inbox| - 1]) + if Wanted(messages, last) then [last] else []
  }

  /** The earlier of TTL, or its default, and grace. */
  function ExpiryOf(m: Message, ttl: nat): int {
    var expiry := if m.ttlExpiresAt.Some? then m.ttlExpiresAt.value else m.createdAt + ttl;
    if m.graceUntil.Some? && m.graceUntil.value < expiry then m.graceUntil.value else expiry
  }

  function FreshRow(m: Message, agent: string, slot: nat, ttl: nat): Delivery {
    Delivery(agent, slot, Status.Pending, Some(m.createdAt), 0, None, ExpiryOf(m, ttl))
  }

  function Offers(l: Snapshot, agent: string): seq<nat> {
    if agent in l.inboxes then Deliverable(l.messages, l.inboxes[agent]) else []
  }

  /** No message is deliverable twice. */
  ghost predicate Distinct(l: Snapshot) {
    forall a, b, i, j :: 0 <= i < |Offers(l, a)| && 0 <= j < |Offers(l, b)| && Offers(l, a)[i] == Offers(l, b)[j] ==>
      a == b && i == j
  }

  ghost predicate Numbered(l: Snapshot, ttl: nat, d: map<nat, Delivery>, agent: string, n: nat)
    requires n <= |Offers(l, agent)|
  {
    forall k :: 0 <= k < n ==>
      var id := Offers(l, agent)[k];
      id in l.messages && id in d && d[id] == FreshRow(l.messages[id], agent, BaseOf(l, agent) + k, ttl)
  }

  ghost predicate OfferedTo(l: Snapshot, agents: set<string>, id: nat) {
    exists a :: a in agents && id in Offers(l, a)
  }

  function CursorFor(l: Snapshot, agent: string): Cursor {
    Cursor(BaseOf(l, agent) + |Offers(l, agent)|, BaseOf(l, agent))
  }

  /** Each agent gets exactly its legacy inbox minus unknown messages and taken-up requests,
      numbered contiguously from the legacy base, and nothing else is imported. */
  ghost predicate Imported(cfg: Config, ttl: nat, l: Snapshot, t: Tables) {
    && t.messages == l.messages && t.nextMessage == l.nextMessage
    && t.cursors.Keys == l.inboxes.Keys + l.bases.Keys
    && (forall a :: a in t.cursors ==> t.cursors[a] == CursorFor(l, a))
    && (forall a :: a in l.inboxes ==> Numbered(l, ttl, t.deliveries, a, |Offers(l, a)|))
    && (forall id :: id in t.deliveries ==> OfferedTo(l, l.inboxes.Keys, id))
    && (forall k :: k in t.receipts <==> Well(k) in l.entries)
    && (forall k :: k in t.receipts ==>
          var e := l.entries[Well(k)];
          t.receipts[k] == Receipt(e.id, e.createdAt, e.createdAt + cfg.window))
  }

  lemma {:induction false} OffersKnown(messages: map<nat, Message>, inbox: seq<nat>)
    ensures forall id :: id in Deliverable(messages, inbox) <==> id in inbox && Wanted(messages, id)
  {
    if inbox != [] {
      OffersKnown(messages, inbox[..|inbox| - 1]);
      assert inbox == inbox[..|inbox| - 1] + [inbox[|inbox| - 1]];
    }
  }

  /** The inbox events that are imported, in order. */
  method SelectDeliverable(messages: map<nat, Message>, inbox: seq<nat>) returns (deliverable: seq<nat>)
    ensures deliverable == Deliverable(messages, inbox)
  {
    deliverable := [];
    var i := 0;
    while i < |inbox|
      invariant 0 <= i <= |inbox| && deliverable == Deliverable(messages, inbox[..i])
    {
      assert inbox[..i + 1][..i] == inbox[..i];
      if inbox[i] in messages {
        var m := messages[inbox[i]];
        if !(m.kind.Request? && (m.phase.Executing? || Terminal(m.phase))) {
          deliverable := deliverable + [inbox[i]];
        }
      }
      i := i + 1;
    }
    assert inbox[..i] == inbox;
  }

  /** The rows of the agents done so far, and of the first n events of the next one. */
  ghost predicate RowsOf(l: Snapshot, ttl: nat, d: map<nat, Delivery>, agents: set<string>, next: string, n: nat) {
    && n <= |Offers(l, next)|
    && (forall a :: a in agents ==> Numbered(l, ttl, d, a, |Offers(l, a)|))
    && Numbered(l, ttl, d, next, n)
    && (forall id :: id in d ==> OfferedTo(l, agents, id) || id in Offers(l, next)[..n])
  }

  lemma RowAdded(l: Snapshot, ttl: nat, d: map<nat, Delivery>, agents: set<string>, next: string, n: nat)
    requires RowsOf(l, ttl, d, agents, next, n) && n < |Offers(l, next)| && Offers(l, next)[n] !in d
    requires next in l.inboxes && Offers(l, next)[n] in l.messages
    ensures var id := Offers(l, next)[n];
            RowsOf(l, ttl, d[id := FreshRow(l.messages[id], next, BaseOf(l, next) + n, ttl)], agents, next, n + 1)
  {
    hide Offers, FreshRow, OfferedTo;
    var id := Offers(l, next)[n];
    var e := d[id := FreshRow(l.messages[id], next, BaseOf(l, next) + n, ttl)];
    assert Offers(l, next)[..n + 1] == Offers(l, next)[..n] + [id];
  }

  lemma RowRepeated(l: Snapshot, ttl: nat, d: map<nat, Delivery>, agents: set<string>, next: string, n: nat)
    requires RowsOf(l, ttl, d, agents, next, n) && n < |Offers(l, next)| && Offers(l, next)[n] in d && next !in agents
    ensures !Distinct(l)
  {
    hide Offers, FreshRow, Numbered;
    var id := Offers(l, next)[n];
    if OfferedTo(l, agents, id) {
      var a :| a in agents && id in Offers(l, a);
      var i :| 0 <= i < |Offers(l, a)| && Offers(l, a)[i] == id;
      assert a != next;
    } else {
      var i :| 0 <= i < n && Offers(l, next)[..n][i] == id;
      assert Offers(l, next)[i] == Offers(l, next)[n];
    }
  }

  lemma AgentDone(l: Snapshot, ttl: nat, d: map<nat, Delivery>, agents: set<string>, next: string, other: string)
    requires RowsOf(l, ttl, d, agents, next, |Offers(l, next)|)
    ensures RowsOf(l, ttl, d, agents + {next}, other, 0)
  {
    hide Offers, FreshRow;
    assert Offers(l, next)[..|Offers(l, next)|] == Offers(l, next);
    forall id | id in d ensures OfferedTo(l, agents + {next}, id) {
      if OfferedTo(l, agents, id) { var a :| a in agents && id in Offers(l, a); }
    }
  }

  /** Insert the rows of one inbox; a message that already has a row makes the import fail. */
  method ImportInbox(l: Snapshot, ttl: nat, before: map<nat, Delivery>, ghost agents: set<string>, agent: string)
    returns (ok: bool, d: map<nat, Delivery>, count: nat)
    requires agent in l.inboxes && agent !in agents && RowsOf(l, ttl, before, agents, agent, 0)
    ensures ok ==> RowsOf(l, ttl, d, agents, agent, |Offers(l, agent)|) && count == |Offers(l, agent)|
    ensures !ok ==> !Distinct(l)
  {
    hide RowsOf, FreshRow, Distinct;
    var deliverable := SelectDeliverable(l.messages, l.inboxes[agent]);
    OffersKnown(l.messages, l.inboxes[agent]);
    d := before;
    count := 0;
    while count < |deliverable|
      invariant 0 <= count <= |deliverable| && deliverable == Offers(l, agent)
      invariant RowsOf(l, ttl, d, agents, agent, count)
    {
      var id := deliverable[count];
      assert Wanted(l.messages, id);
      if id in d {
        RowRepeated(l, ttl, d, agents, agent, count);
        return false, d, count;
      }
      RowAdded(l, ttl, d, agents, agent, count);
      d := d[id := FreshRow(l.messages[id], agent, BaseOf(l, agent) + count, ttl)];
      count := count + 1;
    }
    ok := true;
  }

  method ImportInboxes(l: Snapshot, ttl: nat) returns (ok: bool, d: map<nat, Delivery>, cursors: map<string, Cursor>)
    ensures ok ==> RowsOf(l, ttl, d, l.inboxes.Keys, "", 0)
    ensures ok ==> cursors.Keys == l.inboxes.Keys && forall a :: a in cursors ==> cursors[a] == CursorFor(l, a)
    ensures !ok ==> !Distinct(l)
  {
    hide RowsOf, Distinct, Offers;
    d, cursors := map[], map[];
    var left := l.inboxes.Keys;
    ghost var done: set<string> := {};
    NoRows(l, ttl, "");
    while left != {}
      invariant left <= l.inboxes.Keys && done == l.inboxes.Keys - left
      invariant RowsOf(l, ttl, d, done, "", 0)
      invariant cursors.Keys == done && forall a :: a in cursors ==> cursors[a] == CursorFor(l, a)
    {
      var agent :| agent in left;
      NoneOfNext(l, ttl, d, done, "", agent);
      var count;
      ok, d, count := ImportInbox(l, ttl, d, done, agent);
      if !ok { return; }
      AgentDone(l, ttl, d, done, agent, "");
      cursors := cursors[agent := Cursor(BaseOf(l, agent) + count, BaseOf(l, agent))];
      left := left - {agent};
      done := done + {agent};
    }
    assert done == l.inboxes.Keys;
    ok := true;
  }

  lemma NoRows(l: Snapshot, ttl: nat, next: string)
    ensures RowsOf(l, ttl, map[], {}, next, 0)
  {
  }

  lemma NoneOfNext(l: Snapshot, ttl: nat, d: map<nat, Delivery>, agents: set<string>, next: string, other: string)
    requires RowsOf(l, ttl, d, agents, next, 0)
    ensures RowsOf(l, ttl, d, agents, other, 0)
  {
  }

  /** The import of a snapshot succeeds exactly when no message is deliverable twice. */
  method Import(cfg: Config, ttl: nat, l: Snapshot) returns (r: Option<Tables>)
    ensures r.Some? ==> Imported(cfg, ttl, l, r.value)
    ensures r.Some? <==> Distinct(l)
  {
    hide RowsOf, Distinct, Imported;
    var ok, d, cursors := ImportInboxes(l, ttl);
    if !ok { return None; }
    var agents := l.bases.Keys;
    while agents != {}
      invariant agents <= l.bases.Keys && cursors.Keys == l.inboxes.Keys + (l.bases.Keys - agents)
      invariant forall a :: a in cursors ==> cursors[a] == CursorFor(l, a)
    {
      var agent :| agent in agents;
      if agent !in l.inboxes {
        cursors := cursors[agent := Cursor(l.bases[agent], l.bases[agent])];
      }
      agents := agents - {agent};
    }
    var receipts: map<Key, Receipt> := map[];
    var raw := l.entries.Keys;
    while raw != {}
      invariant raw <= l.entries.Keys
      invariant forall k :: k in receipts <==> Well(k) in l.entries && Well(k) !in raw
      invariant forall k :: k in receipts ==>
                  receipts[k] == Receipt(l.entries[Well(k)].id, l.entries[Well(k)].createdAt,
                                         l.entries[Well(k)].createdAt + cfg.window)
    {
      var next :| next in raw;
      if next.Well? {
        var e := l.entries[next];
        receipts := receipts[next.key := Receipt(e.id, e.createdAt, e.createdAt + cfg.window)];
      }
      raw := raw - {next};
    }
    var t := Tables(l.messages, d, cursors, receipts, l.nextMessage);
    RowsImported(cfg, ttl, l, t);
    r := Some(t);
  }

  lemma RowsImported(cfg: Config, ttl: nat, l: Snapshot, t: Tables)
    requires RowsOf(l, ttl, t.deliveries, l.inboxes.Keys, "", 0)
    requires t.messages == l.messages && t.nextMessage == l.nextMessage
    requires t.cursors.Keys == l.inboxes.Keys + l.bases.Keys
    requires forall a :: a in t.cursors ==> t.cursors[a] == CursorFor(l, a)
    requires forall k :: k in t.receipts <==> Well(k) in l.entries
    requires forall k :: k in t.receipts ==>
               t.receipts[k] == Receipt(l.entries[Well(k)].id, l.entries[Well(k)].createdAt,
                                        l.entries[Well(k)].createdAt + cfg.window)
    ensures Imported(cfg, ttl, l, t) && Distinct(l)
  {
    hide FreshRow, Offers;
    forall a, b, i, j | 0 <= i < |Offers(l, a)| && 0 <= j < |Offers(l, b)| && Offers(l, a)[i] == Offers(l, b)[j]
      ensures a == b && i == j
    {
      RowOf(l, ttl, t.deliveries, a, i);
      RowOf(l, ttl, t.deliveries, b, j);
    }
  }

  lemma RowOf(l: Snapshot, ttl: nat, d: map<nat, Delivery>, a: string, i: nat)
    requires RowsOf(l, ttl, d, l.inboxes.Keys, "", 0) && i < |Offers(l, a)|
    ensures Offers(l, a)[i] in d && d[Offers(l, a)[i]].target == a && d[Offers(l, a)[i]].slot == BaseOf(l, a) + i
  {
    assert a in l.inboxes;
    assert Numbered(l, ttl, d, a, |Offers(l, a)|);
  }

  /** What a legacy process guaranteed about its snapshot. */
  ghost predicate Sound(l: Snapshot) {
    && (forall a, id :: a in l.inboxes && id in Offers(l, a) && id in l.messages ==> a != "" && l.messages[id].to == a)
    && (forall id :: id in l.messages ==> id <= l.nextMessage)
    && (forall k :: k in l.entries ==> l.entries[k].id <= l.nextMessage)
  }

  /** The imported tables satisfy the protocol invariant, so every run may start from them. */
  lemma ImportEstablishes(cfg: Config, ttl: nat, l: Snapshot, t: Tables, clock: int)
    requires Imported(cfg, ttl, l, t) && Sound(l)
    requires forall k :: k in l.entries ==> l.entries[k].createdAt <= clock
    ensures Inv(cfg, State(clock, t, None))
  {
    hide Offers, FreshRow, RowOk, OwnSlot, OfferedTo, Numbered;
    forall id | id in t.deliveries ensures RowOk(t, id) && OwnSlot(l, t, id) {
      ImportedRow(cfg, ttl, l, t, id);
    }
    forall i, j | i in t.deliveries && j in t.deliveries && i != j
      ensures t.deliveries[i].target != t.deliveries[j].target || t.deliveries[i].slot != t.deliveries[j].slot
    {
      SlotsApart(l, t, i, j);
    }
  }

  lemma SlotsApart(l: Snapshot, t: Tables, i: nat, j: nat)
    requires i != j && OwnSlot(l, t, i) && OwnSlot(l, t, j)
    ensures t.deliveries[i].target != t.deliveries[j].target || t.deliveries[i].slot != t.deliveries[j].slot
  {
    hide Offers;
  }

  /** A row lies in the slot of its place in the legacy inbox. */
  ghost predicate OwnSlot(l: Snapshot, t: Tables, id: nat) {
    id in t.deliveries
    && var d := t.deliveries[id];
       BaseOf(l, d.target) <= d.slot < BaseOf(l, d.target) + |Offers(l, d.target)|
       && Offers(l, d.target)[d.slot - BaseOf(l, d.target)] == id
  }

  lemma ImportedRow(cfg: Config, ttl: nat, l: Snapshot, t: Tables, id: nat)
    requires Imported(cfg, ttl, l, t) && Sound(l) && id in t.deliveries
    ensures RowOk(t, id) && OwnSlot(l, t, id)
  {
    hide Offers, FreshRow, RowOk, CursorFor, BaseOf;
    assert OfferedTo(l, l.inboxes.Keys, id);
    var a :| a in l.inboxes.Keys && id in Offers(l, a);
    var k :| 0 <= k < |Offers(l, a)| && Offers(l, a)[k] == id;
    assert Numbered(l, ttl, t.deliveries, a, |Offers(l, a)|);
    assert t.deliveries[id] == FreshRow(l.messages[id], a, BaseOf(l, a) + k, ttl);
    assert t.cursors[a] == CursorFor(l, a);
    PlacedRow(l, ttl, t, id, a, k);
  }

  lemma PlacedRow(l: Snapshot, ttl: nat, t: Tables, id: nat, a: string, k: nat)
    requires k < |Offers(l, a)| && Offers(l, a)[k] == id && id in t.deliveries
    requires id in t.messages && t.messages[id].to == a && a != ""
    requires t.deliveries[id] == FreshRow(t.messages[id], a, BaseOf(l, a) + k, ttl)
    requires a in t.cursors && t.cursors[a] == CursorFor(l, a)
    ensures RowOk(t, id) && OwnSlot(l, t, id)
  {
    hide Offers, FreshRow, RowOk;
    FreshRowOk(t, id, a, BaseOf(l, a) + k, ttl);
  }

  lemma FreshRowOk(t: Tables, id: nat, agent: string, slot: nat, ttl: nat)
    requires id in t.deliveries && id in t.messages && t.messages[id].to == agent && agent != ""
    requires t.deliveries[id] == FreshRow(t.messages[id], agent, slot, ttl)
    requires agent in t.cursors && t.cursors[agent].acked <= slot < t.cursors[agent].next
    ensures RowOk(t, id) && t.deliveries[id].target == agent && t.deliveries[id].slot == slot
  {
  }
}
