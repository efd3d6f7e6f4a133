/** The identity cells of the database and their renaming: what the migration must amount to. */
module Rename {

  /** One row of an identity-bearing table: its identity columns, the rest of its key, the rest. */
  datatype Entry = Entry(ids: seq<string>, key: string, rest: string)
  datatype Conversation = Conversation(id: string, participants: seq<string>, rest: string)
  datatype Db = Db(tables: seq<seq<Entry>>, conversations: seq<Conversation>)

  const AGENTS: nat := 0
  const MESSAGES: nat := 1
  const DELIVERIES: nat := 2
  const CURSORS: nat := 3
  const RECEIPTS: nat := 4

  /** How many identity columns each table has, and the number of its first one. */
  const ARITY: seq<nat> := [1, 2, 1, 1, 2]
  const BASE: seq<nat> := [0, 1, 3, 4, 5]

  datatype Surface = Surface(table: nat, column: nat)

  /** The columns rewritten by statements; the participant lists are surface 7. */
  const COLUMNS: seq<Surface> := [
    Surface(AGENTS, 0), Surface(MESSAGES, 0), Surface(MESSAGES, 1), Surface(DELIVERIES, 0),
    Surface(CURSORS, 0), Surface(RECEIPTS, 0), Surface(RECEIPTS, 1)]
  const PARTICIPANTS: nat := 7
  const SURFACES: nat := 8

  predicate Shaped(db: Db) {
    && |db.tables| == 5
    && forall t, i :: 0 <= t < 5 && 0 <= i < |db.tables[t]| ==> |db.tables[t][i].ids| == ARITY[t]
  }

  /** The primary key: messages are keyed by their own id, every other table by its identities. */
  function KeyOf(t: nat, e: Entry): (seq<string>, string) {
    (if t == MESSAGES then [] else e.ids, e.key)
  }

  ghost predicate Keyed(t: nat, rows: seq<Entry>) {
    forall i, j :: 0 <= i < j < |rows| ==> KeyOf(t, rows[i]) != KeyOf(t, rows[j])
  }

  ghost predicate DbOk(db: Db) {
    && Shaped(db)
    && (forall t :: 0 <= t < 5 ==> Keyed(t, db.tables[t]))
    && (forall i, j :: 0 <= i < j < |db.conversations| ==> db.conversations[i].id != db.conversations[j].id)
  }

  // ---- cells ----

  function Column(rows: seq<Entry>, c: nat): (xs: seq<string>)
    requires forall i :: 0 <= i < |rows| ==> c < |rows[i].ids|
    ensures |xs| == |rows|
    ensures forall i :: 0 <= i < |rows| ==> xs[i] == rows[i].ids[c]
  {
    seq(|rows|, i requires 0 <= i < |rows| => rows[i].ids[c])
  }

  function Everyone(conversations: seq<Conversation>): seq<string> {
    if conversations == [] then []
    else Everyone(conversations[..|conversations| - 1]) + conversations[|conversations| - 1].participants
  }

  lemma ColumnInRange(db: Db, s: nat)
    requires Shaped(db) && s < |COLUMNS|
    ensures COLUMNS[s].table < 5 && COLUMNS[s].column < ARITY[COLUMNS[s].table]
    ensures BASE[COLUMNS[s].table] + COLUMNS[s].column == s
    ensures forall i :: 0 <= i < |db.tables[COLUMNS[s].table]| ==>
              COLUMNS[s].column < |db.tables[COLUMNS[s].table][i].ids|
  {
  }

  /** All the values on one surface. */
  function Cells(db: Db, s: nat): seq<string>
    requires Shaped(db) && s < SURFACES
  {
    if s == PARTICIPANTS then Everyone(db.conversations)
    else ColumnInRange(db, s); Column(db.tables[COLUMNS[s].table], COLUMNS[s].column)
  }

  ghost predicate InDb(db: Db, x: string)
    requires Shaped(db)
  {
    x != "" && exists s :: 0 <= s < SURFACES && x in Cells(db, s)
  }

  function Count(xs: seq<string>, x: string): (n: nat)
    ensures n > 0 <==> x in xs
  {
    if xs == [] then 0
    else Count(xs[..|xs| - 1], x) + if xs[|xs| - 1] == x then 1 else 0
  }

  // ---- renaming ----

  function Sub(m: map<string, string>, x: string): string {
    if x in m then m[x] else x
  }

  function SubAll(m: map<string, string>, xs: seq<string>): (ys: seq<string>)
    ensures |ys| == |xs|
    ensures forall i :: 0 <= i < |xs| ==> ys[i] == Sub(m, xs[i])
  {
    seq(|xs|, i requires 0 <= i < |xs| => Sub(m, xs[i]))
  }

  /** Each identity column renamed by a map of its own. */
  function RenameEntry(t: nat, e: Entry, maps: seq<map<string, string>>): (r: Entry)
    requires t < 5 && |e.ids| == ARITY[t] && |maps| == |COLUMNS|
    ensures |r.ids| == |e.ids| && r.key == e.key && r.rest == e.rest
    ensures forall c :: 0 <= c < |e.ids| ==> r.ids[c] == Sub(maps[BASE[t] + c], e.ids[c])
  {
    e.(ids := seq(|e.ids|, c requires 0 <= c < |e.ids| => Sub(maps[BASE[t] + c], e.ids[c])))
  }

  function RenameRows(t: nat, rows: seq<Entry>, maps: seq<map<string, string>>): (r: seq<Entry>)
    requires t < 5 && |maps| == |COLUMNS|
    requires forall i :: 0 <= i < |rows| ==> |rows[i].ids| == ARITY[t]
    ensures |r| == |rows|
    ensures forall i :: 0 <= i < |rows| ==> r[i] == RenameEntry(t, rows[i], maps)
  {
    seq(|rows|, i requires 0 <= i < |rows| => RenameEntry(t, rows[i], maps))
  }

  function RenameTables(tables: seq<seq<Entry>>, maps: seq<map<string, string>>): (r: seq<seq<Entry>>)
    requires |maps| == |COLUMNS| && Shaped(Db(tables, []))
    ensures |r| == 5
    ensures forall t :: 0 <= t < 5 ==> r[t] == RenameRows(t, tables[t], maps)
    ensures Shaped(Db(r, []))
  {
    assert forall t, i :: 0 <= t < 5 && 0 <= i < |tables[t]| ==> |Db(tables, []).tables[t][i].ids| == ARITY[t];
    seq(5, t requires 0 <= t < 5 => RenameRows(t, tables[t], maps))
  }

  function RenameTalk(m: map<string, string>, conversations: seq<Conversation>): (r: seq<Conversation>)
    ensures |r| == |conversations|
    ensures forall i :: 0 <= i < |r| ==>
              r[i] == conversations[i].(participants := SubAll(m, conversations[i].participants))
  {
    seq(|conversations|, i requires 0 <= i < |conversations| =>
      conversations[i].(participants := SubAll(m, conversations[i].participants)))
  }

  function Same(m: map<string, string>): (maps: seq<map<string, string>>)
    ensures |maps| == |COLUMNS| && forall s :: 0 <= s < |COLUMNS| ==> maps[s] == m
  {
    [m, m, m, m, m, m, m]
  }

  /** One simultaneous substitution of every identity cell. */
  function RenameAll(db: Db, m: map<string, string>): (r: Db)
    requires Shaped(db)
    ensures Shaped(r)
  {
    assert Shaped(Db(db.tables, []));
    var tables := RenameTables(db.tables, Same(m));
    assert Shaped(Db(tables, []));
    Db(tables, RenameTalk(m, db.conversations))
  }

  lemma {:induction false} EveryoneRenamed(m: map<string, string>, conversations: seq<Conversation>)
    ensures Everyone(RenameTalk(m, conversations)) == SubAll(m, Everyone(conversations))
  {
    if conversations != [] {
      var k := |conversations| - 1;
      EveryoneRenamed(m, conversations[..k]);
      assert RenameTalk(m, conversations)[..k] == RenameTalk(m, conversations[..k]);
    }
  }

  /** Renaming the database substitutes in every cell of every surface. */
  lemma CellsRenamed(db: Db, m: map<string, string>, s: nat)
    requires Shaped(db) && s < SURFACES
    ensures Cells(RenameAll(db, m), s) == SubAll(m, Cells(db, s))
  {
    if s == PARTICIPANTS {
      EveryoneRenamed(m, db.conversations);
    } else {
      ColumnInRange(db, s);
      ColumnInRange(RenameAll(db, m), s);
      var t, c := COLUMNS[s].table, COLUMNS[s].column;
      forall i | 0 <= i < |db.tables[t]|
        ensures RenameAll(db, m).tables[t][i].ids[c] == Sub(m, db.tables[t][i].ids[c])
      {
        assert RenameAll(db, m).tables[t][i] == RenameEntry(t, db.tables[t][i], Same(m));
      }
      assert Cells(RenameAll(db, m), s) == SubAll(m, Cells(db, s));
    }
  }

  lemma InRenamed(db: Db, m: map<string, string>, x: string)
    requires Shaped(db) && x != "" && forall k :: k in m ==> k != ""
    ensures InDb(RenameAll(db, m), x) <==> exists y :: InDb(db, y) && Sub(m, y) == x
  {
    var r := RenameAll(db, m);
    if InDb(r, x) {
      var s :| 0 <= s < SURFACES && x in Cells(r, s);
      CellsRenamed(db, m, s);
      var i :| 0 <= i < |Cells(r, s)| && Cells(r, s)[i] == x;
      var y := Cells(db, s)[i];
      assert Sub(m, y) == x;
      assert y in Cells(db, s);
      assert InDb(db, y);
    }
    if y :| InDb(db, y) && Sub(m, y) == x {
      var s :| 0 <= s < SURFACES && y in Cells(db, s);
      CellsRenamed(db, m, s);
      var i :| 0 <= i < |Cells(db, s)| && Cells(db, s)[i] == y;
      assert SubAll(m, Cells(db, s))[i] == x;
      assert x in Cells(r, s);
    }
  }

  // ---- safe renamings ----

  /** Sources are in the database, targets are not, and no two sources share a target. */
  ghost predicate Safe(db: Db, m: map<string, string>)
    requires Shaped(db)
  {
    && (forall x :: x in m ==> InDb(db, x) && m[x] != "" && !InDb(db, m[x]))
    && (forall x, y :: x in m && y in m && m[x] == m[y] ==> x == y)
  }

  /** A cell value of the database, empty ones included. */
  ghost predicate Cell(db: Db, x: string)
    requires Shaped(db)
  {
    x == "" || InDb(db, x)
  }

  /** Parts of a safe renaming never confuse two cells, even when the cells are at different
      stages of it. */
  lemma SubInjective(db: Db, m: map<string, string>, a: map<string, string>, b: map<string, string>, x: string,
                     y: string)
    requires Shaped(db) && Safe(db, m) && a.Items <= m.Items && b.Items <= m.Items
    requires Cell(db, x) && Cell(db, y) && Sub(a, x) == Sub(b, y)
    ensures x == y
  {
    hide InDb;
    assert x in a ==> (x, a[x]) in m.Items;
    assert y in b ==> (y, b[y]) in m.Items;
  }

  lemma EntryCell(db: Db, t: nat, i: nat, c: nat)
    requires Shaped(db) && t < 5 && i < |db.tables[t]| && c < ARITY[t]
    ensures Cell(db, db.tables[t][i].ids[c])
  {
    var s := BASE[t] + c;
    assert COLUMNS[s] == Surface(t, c);
    ColumnInRange(db, s);
    assert Cells(db, s)[i] == db.tables[t][i].ids[c];
  }

  ghost predicate PartsOf(maps: seq<map<string, string>>, m: map<string, string>) {
    |maps| == |COLUMNS| && forall s :: 0 <= s < |maps| ==> maps[s].Items <= m.Items
  }

  /** Rows that come to share a key, each at its own stage of the renaming, shared it before. */
  lemma SharedKeyWasShared(db: Db, m: map<string, string>, t: nat, i: nat, j: nat, a: seq<map<string, string>>,
                           b: seq<map<string, string>>)
    requires Shaped(db) && Safe(db, m) && PartsOf(a, m) && PartsOf(b, m)
    requires t < 5 && i < |db.tables[t]| && j < |db.tables[t]|
    requires KeyOf(t, RenameEntry(t, db.tables[t][i], a)) == KeyOf(t, RenameEntry(t, db.tables[t][j], b))
    ensures KeyOf(t, db.tables[t][i]) == KeyOf(t, db.tables[t][j])
  {
    hide Safe, Cell;
    var e, f := db.tables[t][i], db.tables[t][j];
    var e', f' := RenameEntry(t, e, a), RenameEntry(t, f, b);
    if t != MESSAGES {
      assert e'.ids == f'.ids;
      assert |e.ids| == ARITY[t] && |f.ids| == ARITY[t];
      forall c | 0 <= c < ARITY[t] ensures e.ids[c] == f.ids[c] {
        EntryCell(db, t, i, c);
        EntryCell(db, t, j, c);
        assert e'.ids[c] == f'.ids[c];
        SubInjective(db, m, a[BASE[t] + c], b[BASE[t] + c], e.ids[c], f.ids[c]);
      }
      assert e.ids == f.ids;
    }
  }

  /** Every stage of a safe renaming keeps every primary key unique. */
  lemma StagesKeepKeys(db: Db, m: map<string, string>, maps: seq<map<string, string>>)
    requires DbOk(db) && Safe(db, m) && PartsOf(maps, m)
    ensures DbOk(Db(RenameTables(db.tables, maps), db.conversations))
  {
    hide Safe, RenameEntry, KeyOf;
    assert Shaped(Db(db.tables, []));
    var tables := RenameTables(db.tables, maps);
    var r := Db(tables, db.conversations);
    assert Shaped(Db(tables, []));
    assert Shaped(r);
    forall t | 0 <= t < 5 ensures Keyed(t, tables[t]) {
      assert Keyed(t, db.tables[t]);
      forall i, j | 0 <= i < j < |tables[t]| ensures KeyOf(t, tables[t][i]) != KeyOf(t, tables[t][j]) {
        if KeyOf(t, tables[t][i]) == KeyOf(t, tables[t][j]) { SharedKeyWasShared(db, m, t, i, j, maps, maps); }
      }
    }
  }

  // ---- one UPDATE statement ----

  function UpdateEntry(e: Entry, c: nat, source: string, target: string): Entry
    requires c < |e.ids|
  {
    if e.ids[c] == source then e.(ids := e.ids[c := target]) else e
  }

  /** When row i is rewritten, another row already has its new key. Rows before i are rewritten. */
  ghost predicate Clashes(t: nat, rows: seq<Entry>, c: nat, source: string, target: string, i: nat)
    requires i < |rows| && forall j :: 0 <= j < |rows| ==> c < |rows[j].ids|
  {
    && rows[i].ids[c] == source
    && exists j :: 0 <= j < |rows| && j != i
         && KeyOf(t, UpdateEntry(rows[i], c, source, target))
            == KeyOf(t, if j < i then UpdateEntry(rows[j], c, source, target) else rows[j])
  }

  /** The stage after one statement. */
  function Advance(maps: seq<map<string, string>>, s: nat, source: string, target: string): seq<map<string, string>>
    requires s < |maps|
  {
    maps[s := maps[s][source := target]]
  }

  /** One renamed column of one row, as a statement of the next stage sees it. */
  lemma EntryAdvances(db: Db, m: map<string, string>, maps: seq<map<string, string>>, s: nat, t: nat, c: nat,
                      source: string, i: nat)
    requires Shaped(db) && Safe(db, m) && PartsOf(maps, m) && s < |COLUMNS| && COLUMNS[s] == Surface(t, c)
    requires t < 5 && c < ARITY[t] && BASE[t] + c == s
    requires source in m && source !in maps[s] && i < |db.tables[t]| && |db.tables[t][i].ids| == ARITY[t]
    ensures var e := db.tables[t][i];
            && UpdateEntry(RenameEntry(t, e, maps), c, source, m[source])
               == RenameEntry(t, e, Advance(maps, s, source, m[source]))
            && (RenameEntry(t, e, maps).ids[c] == source <==> e.ids[c] == source)
  {
    hide Safe, InDb, UpdateEntry, RenameEntry, Cell;
    var e := db.tables[t][i];
    EntryCell(db, t, i, c);
    SourceUntouched(db, m, maps[s], source, e.ids[c]);
    UpdatesColumn(t, c, e, maps, s, source, m[source]);
  }

  lemma UpdatesColumn(t: nat, c: nat, e: Entry, maps: seq<map<string, string>>, s: nat, source: string, target: string)
    requires t < 5 && c < ARITY[t] && |e.ids| == ARITY[t] && |maps| == |COLUMNS| && s == BASE[t] + c && s < |maps|
    requires Sub(maps[s], e.ids[c]) == source <==> e.ids[c] == source
    requires source !in maps[s]
    ensures UpdateEntry(RenameEntry(t, e, maps), c, source, target)
              == RenameEntry(t, e, Advance(maps, s, source, target))
    ensures RenameEntry(t, e, maps).ids[c] == source <==> e.ids[c] == source
  {
    var a := UpdateEntry(RenameEntry(t, e, maps), c, source, target);
    var b := RenameEntry(t, e, Advance(maps, s, source, target));
    forall d | 0 <= d < |e.ids| ensures a.ids[d] == b.ids[d] {
      if d != c { assert BASE[t] + d != s; }
    }
    assert a.ids == b.ids;
  }

  lemma SourceUntouched(db: Db, m: map<string, string>, part: map<string, string>, source: string, x: string)
    requires Shaped(db) && Safe(db, m) && part.Items <= m.Items && source in m && source !in part && Cell(db, x)
    ensures Sub(part, x) == source <==> x == source
  {
    hide InDb;
    if Sub(part, x) == source { SubInjective(db, m, part, map[], x, source); }
  }

  lemma AdvanceIsPart(m: map<string, string>, maps: seq<map<string, string>>, s: nat, source: string)
    requires PartsOf(maps, m) && s < |COLUMNS| && source in m
    ensures PartsOf(Advance(maps, s, source, m[source]), m)
  {
    var next := Advance(maps, s, source, m[source]);
    forall q | 0 <= q < |next| ensures next[q].Items <= m.Items {
      if q == s {
        forall p | p in next[s].Items ensures p in m.Items {
          if p.0 != source { assert p in maps[s].Items; }
        }
      }
    }
  }

  /** No row of a stage clashes with another when the next statement rewrites it. */
  lemma NoClash(db: Db, m: map<string, string>, maps: seq<map<string, string>>, s: nat, source: string, i: nat)
    requires DbOk(db) && Safe(db, m) && PartsOf(maps, m) && s < |COLUMNS|
    requires source in m && source !in maps[s]
    requires i < |db.tables[COLUMNS[s].table]|
    ensures var t, c := COLUMNS[s].table, COLUMNS[s].column;
            !Clashes(t, RenameRows(t, db.tables[t], maps), c, source, m[source], i)
  {
    hide Safe, KeyOf, RenameEntry;
    var t, c := COLUMNS[s].table, COLUMNS[s].column;
    ColumnInRange(db, s);
    var rows := RenameRows(t, db.tables[t], maps);
    var next := Advance(maps, s, source, m[source]);
    AdvanceIsPart(m, maps, s, source);
    forall j | 0 <= j < |rows| && j != i
      ensures KeyOf(t, UpdateEntry(rows[i], c, source, m[source]))
              != KeyOf(t, if j < i then UpdateEntry(rows[j], c, source, m[source]) else rows[j])
    {
      EntryAdvances(db, m, maps, s, t, c, source, i);
      EntryAdvances(db, m, maps, s, t, c, source, j);
      assert Keyed(t, db.tables[t]);
      if KeyOf(t, UpdateEntry(rows[i], c, source, m[source]))
         == KeyOf(t, if j < i then UpdateEntry(rows[j], c, source, m[source]) else rows[j]) {
        SharedKeyWasShared(db, m, t, i, j, next, if j < i then next else maps);
      }
    }
  }
}
