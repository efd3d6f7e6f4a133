/** One run of the namespace migration, statement by statement. */
module Migrate {
  import opened Model
  import opened Manifest
  import opened Rename
  import opened Plan
  import opened Inspector
  import Preflights

  // ---- conversations ----

  /** A planned participant list, and whether it differs from the stored one. */
  ghost predicate PlannedAs(m: map<string, string>, c: Conversation, plan: ConversationPlan) {
    plan == ConversationPlan(c.id, SubAll(m, c.participants), TouchedBefore(m, c.participants, |c.participants|))
  }

  ghost predicate Planned(m: map<string, string>, conversations: seq<Conversation>, plans: seq<ConversationPlan>) {
    |plans| == |conversations| && forall i :: 0 <= i < |plans| ==> PlannedAs(m, conversations[i], plans[i])
  }

  ghost predicate ScopeSeen(m: map<string, string>, names: seq<string>, k: nat, scope: string) {
    exists q :: 0 <= q < k <= |names| && ExplicitScope(Sub(m, names[q])) == Some(scope)
  }

  ghost predicate TouchedBefore(m: map<string, string>, names: seq<string>, k: nat) {
    exists q :: 0 <= q < k <= |names| && names[q] in m
  }

  /** Rewrite one participant list in place and look for both private scopes. */
  method PlanParticipants(m: map<string, string>, plan: ConversationPlan) returns (r: ConversationPlan, mixed: bool)
    requires !plan.changed
    ensures r.id == plan.id && r.participants == SubAll(m, plan.participants)
    ensures r.changed <==> TouchedBefore(m, plan.participants, |plan.participants|)
    ensures mixed <==> Mixed(SubAll(m, plan.participants))
  {
    hide ExplicitScope, ScopeSeen, TouchedBefore, Mixed;
    var names := plan.participants;
    var changed, personal, ucla := false, false, false;
    NothingSeen(m, names);
    var p := 0;
    while p < |names|
      invariant 0 <= p <= |names| == |plan.participants|
      invariant forall q :: 0 <= q < p ==> names[q] == Sub(m, plan.participants[q])
      invariant forall q :: p <= q < |names| ==> names[q] == plan.participants[q]
      invariant changed <==> TouchedBefore(m, plan.participants, p)
      invariant personal <==> ScopeSeen(m, plan.participants, p, PERSONAL)
      invariant ucla <==> ScopeSeen(m, plan.participants, p, UCLA_SCOPE)
    {
      var participant := names[p];
      TouchedStep(m, plan.participants, p);
      SeenStep(m, plan.participants, p, PERSONAL);
      SeenStep(m, plan.participants, p, UCLA_SCOPE);
      if participant in m {
        names := names[p := m[participant]];
        changed := true;
        participant := m[participant];
      }
      personal := personal || ExplicitScope(participant) == Some(PERSONAL);
      ucla := ucla || ExplicitScope(participant) == Some(UCLA_SCOPE);
      p := p + 1;
    }
    SeenIsMixed(m, plan.participants);
    r := ConversationPlan(plan.id, names, changed);
    mixed := personal && ucla;
  }

  lemma NothingSeen(m: map<string, string>, names: seq<string>)
    ensures !TouchedBefore(m, names, 0) && !ScopeSeen(m, names, 0, PERSONAL) && !ScopeSeen(m, names, 0, UCLA_SCOPE)
  {
  }

  lemma TouchedStep(m: map<string, string>, names: seq<string>, p: nat)
    requires p < |names|
    ensures TouchedBefore(m, names, p + 1) <==> TouchedBefore(m, names, p) || names[p] in m
  {
  }

  lemma SeenStep(m: map<string, string>, names: seq<string>, p: nat, scope: string)
    requires p < |names|
    ensures ScopeSeen(m, names, p + 1, scope) <==>
              ScopeSeen(m, names, p, scope) || ExplicitScope(Sub(m, names[p])) == Some(scope)
  {
    hide ExplicitScope;
    if ScopeSeen(m, names, p + 1, scope) {
      var q :| 0 <= q < p + 1 <= |names| && ExplicitScope(Sub(m, names[q])) == Some(scope);
    }
  }

  lemma SeenIsMixed(m: map<string, string>, names: seq<string>)
    ensures Mixed(SubAll(m, names)) <==>
              ScopeSeen(m, names, |names|, PERSONAL) && ScopeSeen(m, names, |names|, UCLA_SCOPE)
  {
    hide ExplicitScope;
    SeenIsHeld(m, names, PERSONAL);
    SeenIsHeld(m, names, UCLA_SCOPE);
  }

  lemma SeenIsHeld(m: map<string, string>, names: seq<string>, scope: string)
    ensures ScopeSeen(m, names, |names|, scope) <==>
              exists i :: 0 <= i < |names| && ExplicitScope(SubAll(m, names)[i]) == Some(scope)
  {
    hide ExplicitScope;
    if ScopeSeen(m, names, |names|, scope) {
      var q :| 0 <= q < |names| && ExplicitScope(Sub(m, names[q])) == Some(scope);
      assert SubAll(m, names)[q] == Sub(m, names[q]);
    }
  }

  method PlanConversations(ghost db: Db, mappings: seq<Mapping>, plans: seq<ConversationPlan>)
    returns (planned: seq<ConversationPlan>, mixed: bool)
    requires Shaped(db) && Flagged(db, mappings, |mappings|) && plans == Untouched(db.conversations)
    ensures mixed <==> MixedTalk(After(db, RowsOf(mappings)).conversations)
    ensures !mixed ==> Planned(ActiveMap(db, RowsOf(mappings)), db.conversations, planned)
  {
    hide Active, AlreadyApplied, Mixed;
    ghost var rows := RowsOf(mappings);
    var replacements: map<string, string> := map[];
    var k := 0;
    while k < |mappings|
      invariant 0 <= k <= |mappings| && replacements == ActiveMap(db, rows[..k])
    {
      assert rows[..k + 1][..k] == rows[..k];
      if mappings[k].active {
        replacements := replacements[mappings[k].row.source := mappings[k].row.target];
      }
      k := k + 1;
    }
    assert rows[..k] == rows;
    ghost var after := After(db, rows).conversations;
    planned := plans;
    var i := 0;
    while i < |planned|
      invariant 0 <= i <= |planned| == |plans|
      invariant forall j :: 0 <= j < i ==> PlannedAs(replacements, db.conversations[j], planned[j])
      invariant forall j :: 0 <= j < i ==> !Mixed(after[j].participants)
      invariant forall j :: i <= j < |plans| ==> planned[j] == plans[j]
    {
      var plan;
      plan, mixed := PlanParticipants(replacements, planned[i]);
      planned := planned[i := plan];
      assert after[i].participants == SubAll(replacements, db.conversations[i].participants);
      if mixed { return; }
      i := i + 1;
    }
    mixed := false;
  }

  // ---- statements ----

  predicate KeyTaken(t: nat, out: seq<Entry>, i: nat, key: (seq<string>, string)) {
    exists j :: 0 <= j < |out| && j != i && KeyOf(t, out[j]) == key
  }

  lemma ClashMeansTaken(t: nat, rows: seq<Entry>, c: nat, source: string, target: string, i: nat, out: seq<Entry>)
    requires i < |rows| == |out| && (forall j :: 0 <= j < |rows| ==> c < |rows[j].ids|) && rows[i].ids[c] == source
    requires forall j :: 0 <= j < i ==> out[j] == UpdateEntry(rows[j], c, source, target)
    requires forall j :: i <= j < |rows| ==> out[j] == rows[j]
    ensures Clashes(t, rows, c, source, target, i) <==>
              KeyTaken(t, out, i, KeyOf(t, UpdateEntry(rows[i], c, source, target)))
  {
    hide KeyOf, UpdateEntry;
    var key := KeyOf(t, UpdateEntry(rows[i], c, source, target));
    if KeyTaken(t, out, i, key) {
      var j :| 0 <= j < |out| && j != i && KeyOf(t, out[j]) == key;
      assert out[j] == if j < i then UpdateEntry(rows[j], c, source, target) else rows[j];
    }
    if Clashes(t, rows, c, source, target, i) {
      var j :| 0 <= j < |rows| && j != i
               && key == KeyOf(t, if j < i then UpdateEntry(rows[j], c, source, target) else rows[j]);
      assert KeyOf(t, out[j]) == key;
    }
  }

  function CountUpTo(rows: seq<Entry>, c: nat, source: string, i: nat): nat
    requires i <= |rows| && forall j :: 0 <= j < |rows| ==> c < |rows[j].ids|
  {
    Count(Column(rows, c)[..i], source)
  }

  lemma CountNext(rows: seq<Entry>, c: nat, source: string, i: nat)
    requires i < |rows| && forall j :: 0 <= j < |rows| ==> c < |rows[j].ids|
    ensures CountUpTo(rows, c, source, i + 1)
         == CountUpTo(rows, c, source, i) + if rows[i].ids[c] == source then 1 else 0
  {
    assert Column(rows, c)[..i + 1][..i] == Column(rows, c)[..i];
  }

  lemma NoneCounted(rows: seq<Entry>, c: nat, source: string)
    requires forall j :: 0 <= j < |rows| ==> c < |rows[j].ids|
    ensures CountUpTo(rows, c, source, 0) == 0
    ensures CountUpTo(rows, c, source, |rows|) == Count(Column(rows, c), source)
  {
    assert Column(rows, c)[..|rows|] == Column(rows, c);
  }

  /** One UPDATE: each matching row in turn, failing when its new key is taken. */
  method UpdateRows(t: nat, rows: seq<Entry>, c: nat, source: string, target: string)
    returns (ok: bool, affected: nat, out: seq<Entry>)
    requires forall i :: 0 <= i < |rows| ==> c < |rows[i].ids|
    ensures ok <==> forall i :: 0 <= i < |rows| ==> !Clashes(t, rows, c, source, target, i)
    ensures ok ==> |out| == |rows| && forall i :: 0 <= i < |rows| ==> out[i] == UpdateEntry(rows[i], c, source, target)
    ensures ok ==> affected == Count(Column(rows, c), source)
  {
    hide KeyOf, KeyTaken, Clashes, UpdateEntry, Count, Column, CountUpTo;
    NoneCounted(rows, c, source);
    ok, affected, out := true, 0, rows;
    var i := 0;
    while i < |rows|
      invariant 0 <= i <= |rows| == |out|
      invariant forall j :: 0 <= j < i ==> out[j] == UpdateEntry(rows[j], c, source, target)
      invariant forall j :: i <= j < |rows| ==> out[j] == rows[j]
      invariant forall j :: 0 <= j < i ==> !Clashes(t, rows, c, source, target, j)
      invariant affected == CountUpTo(rows, c, source, i)
    {
      CountNext(rows, c, source, i);
      UpdateSkips(t, rows, c, source, target, i);
      if rows[i].ids[c] == source {
        var changed := UpdateEntry(rows[i], c, source, target);
        ClashMeansTaken(t, rows, c, source, target, i, out);
        if KeyTaken(t, out, i, KeyOf(t, changed)) {
          ok := false;
          return;
        }
        out := out[i := changed];
        affected := affected + 1;
      }
      i := i + 1;
    }
  }

  lemma UpdateSkips(t: nat, rows: seq<Entry>, c: nat, source: string, target: string, i: nat)
    requires i < |rows| && forall j :: 0 <= j < |rows| ==> c < |rows[j].ids|
    ensures rows[i].ids[c] != source ==>
              UpdateEntry(rows[i], c, source, target) == rows[i] && !Clashes(t, rows, c, source, target, i)
  {
  }

  method UpdateConversation(conversations: seq<Conversation>, id: string, participants: seq<string>)
    returns (affected: nat, out: seq<Conversation>)
    requires forall i, j :: 0 <= i < j < |conversations| ==> conversations[i].id != conversations[j].id
    ensures |out| == |conversations|
    ensures forall i :: 0 <= i < |out| ==>
              out[i] == if conversations[i].id == id then conversations[i].(participants := participants)
                        else conversations[i]
    ensures (exists i :: 0 <= i < |conversations| && conversations[i].id == id) ==> affected == 1
  {
    affected, out := 0, conversations;
    var i := 0;
    while i < |out|
      invariant 0 <= i <= |out| == |conversations|
      invariant forall j :: 0 <= j < i ==>
                  out[j] == if conversations[j].id == id then conversations[j].(participants := participants)
                            else conversations[j]
      invariant forall j :: i <= j < |out| ==> out[j] == conversations[j]
      invariant affected == if exists j :: 0 <= j < i && conversations[j].id == id then 1 else 0
    {
      if out[i].id == id {
        out := out[i := out[i].(participants := participants)];
        affected := affected + 1;
      }
      i := i + 1;
    }
  }

  // ---- the sequence of statements ----

  /** Every row-count check passes: a statement meets exactly the rows counted beforehand. */
  lemma {:induction false} CountSurvives(db: Db, m: map<string, string>, part: map<string, string>, source: string,
                                         xs: seq<string>)
    requires Shaped(db) && Safe(db, m) && part.Items <= m.Items && source in m && source !in part
    requires forall i :: 0 <= i < |xs| ==> Cell(db, xs[i])
    ensures Count(SubAll(part, xs), source) == Count(xs, source)
  {
    hide Safe, Cell, Shaped;
    if xs != [] {
      var k := |xs| - 1;
      CountSurvives(db, m, part, source, xs[..k]);
      SourceUntouched(db, m, part, source, xs[k]);
      LastCounted(part, xs, source);
    }
  }

  lemma LastCounted(part: map<string, string>, xs: seq<string>, source: string)
    requires xs != []
    ensures Count(xs, source) == Count(xs[..|xs| - 1], source) + if xs[|xs| - 1] == source then 1 else 0
    ensures Count(SubAll(part, xs), source)
         == Count(SubAll(part, xs[..|xs| - 1]), source) + if Sub(part, xs[|xs| - 1]) == source then 1 else 0
  {
    assert SubAll(part, xs)[..|xs| - 1] == SubAll(part, xs[..|xs| - 1]);
  }

  /** The statement on these rows fails on no key, touches so many of them, and gives the next. */
  ghost predicate StatementWorks(t: nat, c: nat, rows: seq<Entry>, next: seq<Entry>, source: string, target: string,
                                 count: nat)
  {
    && |next| == |rows| && (forall i :: 0 <= i < |rows| ==> c < |rows[i].ids|)
    && (forall i :: 0 <= i < |rows| ==> !Clashes(t, rows, c, source, target, i))
    && (forall i :: 0 <= i < |rows| ==> next[i] == UpdateEntry(rows[i], c, source, target))
    && Count(Column(rows, c), source) == count
  }

  /** One statement, on a database at some stage of the renaming, fails on no key, touches the
      counted rows, and takes that one column to the next stage. */
  lemma StatementAdvances(db: Db, m: map<string, string>, maps: seq<map<string, string>>, s: nat, source: string)
    requires DbOk(db) && Safe(db, m) && PartsOf(maps, m) && s < |COLUMNS| && source in m && source !in maps[s]
    ensures Shaped(Db(db.tables, [])) && COLUMNS[s].table < 5
    ensures StatementWorks(COLUMNS[s].table, COLUMNS[s].column, RenameTables(db.tables, maps)[COLUMNS[s].table],
                           RenameTables(db.tables, Advance(maps, s, source, m[source]))[COLUMNS[s].table],
                           source, m[source], Count(Cells(db, s), source))
    ensures forall t :: 0 <= t < 5 && t != COLUMNS[s].table ==>
              RenameTables(db.tables, Advance(maps, s, source, m[source]))[t] == RenameTables(db.tables, maps)[t]
  {
    hide Safe, Clashes, UpdateEntry;
    assert Shaped(Db(db.tables, []));
    ColumnInRange(db, s);
    var t, c := COLUMNS[s].table, COLUMNS[s].column;
    var rows := RenameTables(db.tables, maps)[t];
    var next := Advance(maps, s, source, m[source]);
    forall i | 0 <= i < |rows|
      ensures c < |rows[i].ids| && !Clashes(t, rows, c, source, m[source], i)
      ensures RenameTables(db.tables, next)[t][i] == UpdateEntry(rows[i], c, source, m[source])
    {
      NoClash(db, m, maps, s, source, i);
      EntryAdvances(db, m, maps, s, t, c, source, i);
    }
    ColumnStage(db, maps, s);
    forall i | 0 <= i < |Cells(db, s)| ensures Cell(db, Cells(db, s)[i]) { EntryCell(db, t, i, c); }
    CountSurvives(db, m, maps[s], source, Cells(db, s));
    forall u | 0 <= u < 5 && u != t ensures RenameTables(db.tables, next)[u] == RenameTables(db.tables, maps)[u] {
      OtherTable(db, maps, s, source, m[source], u);
    }
  }

  lemma ColumnStage(db: Db, maps: seq<map<string, string>>, s: nat)
    requires Shaped(db) && |maps| == |COLUMNS| && s < |COLUMNS|
    ensures Shaped(Db(db.tables, []))
    ensures var t, c := COLUMNS[s].table, COLUMNS[s].column;
            var rows := RenameTables(db.tables, maps)[t];
            (forall i :: 0 <= i < |rows| ==> c < |rows[i].ids|) && Column(rows, c) == SubAll(maps[s], Cells(db, s))
  {
    assert Shaped(Db(db.tables, []));
    ColumnInRange(db, s);
  }

  lemma OtherTable(db: Db, maps: seq<map<string, string>>, s: nat, source: string, target: string, u: nat)
    requires Shaped(db) && |maps| == |COLUMNS| && s < |COLUMNS| && u < 5 && u != COLUMNS[s].table
    ensures Shaped(Db(db.tables, []))
    ensures RenameTables(db.tables, Advance(maps, s, source, target))[u] == RenameTables(db.tables, maps)[u]
  {
    assert Shaped(Db(db.tables, []));
    var next := Advance(maps, s, source, target);
    forall i | 0 <= i < |db.tables[u]|
      ensures RenameEntry(u, db.tables[u][i], next) == RenameEntry(u, db.tables[u][i], maps)
    {
      var e := db.tables[u][i];
      assert |e.ids| == ARITY[u];
      if |e.ids| == 2 { assert BASE[u] + 1 != s; }
      assert BASE[u] != s;
      assert RenameEntry(u, e, next).ids == RenameEntry(u, e, maps).ids;
    }
  }

  // ---- the run ----

  /** The maps of the surfaces during mapping k: the first s surfaces are one step ahead. */
  ghost function Stage(before: map<string, string>, after: map<string, string>, s: nat)
    : (maps: seq<map<string, string>>)
    ensures |maps| == |COLUMNS|
    ensures forall q :: 0 <= q < |COLUMNS| ==> maps[q] == if q < s then after else before
  {
    seq(|COLUMNS|, q => if q < s then after else before)
  }

  lemma StageAdvances(m: map<string, string>, before: map<string, string>, source: string, s: nat)
    requires s < |COLUMNS| && source in m && before.Items <= m.Items
    ensures var after := before[source := m[source]];
            && PartsOf(Stage(before, after, s), m)
            && Advance(Stage(before, after, s), s, source, m[source]) == Stage(before, after, s + 1)
            && Stage(before, after, 0) == Same(before) && Stage(before, after, |COLUMNS|) == Same(after)
            && after.Items <= m.Items
  {
    var after := before[source := m[source]];
    assert after.Items <= m.Items by {
      forall p | p in after.Items ensures p in m.Items {
        if p.0 != source { assert p in before.Items; }
      }
    }
  }

  lemma {:induction false} PrefixMap(db: Db, rows: seq<Row>, k: nat)
    requires Shaped(db) && Sound(rows) && k <= |rows|
    ensures ActiveMap(db, rows[..k]).Items <= ActiveMap(db, rows).Items
    decreases |rows| - k
  {
    hide Active;
    if k < |rows| {
      PrefixMap(db, rows, k + 1);
      assert rows[..k + 1][..k] == rows[..k];
      if Active(db, rows[k]) {
        SourceIsNew(db, rows, k);
        forall p | p in ActiveMap(db, rows[..k]).Items ensures p in ActiveMap(db, rows[..k + 1]).Items {}
      }
    } else {
      assert rows[..k] == rows;
    }
  }

  lemma SourceIsNew(db: Db, rows: seq<Row>, k: nat)
    requires Shaped(db) && Sound(rows) && k < |rows|
    ensures rows[k].source !in ActiveMap(db, rows[..k])
  {
    hide Active, ActiveMap;
    if rows[k].source in ActiveMap(db, rows[..k]) {
      OnlyActiveSources(db, rows[..k], rows[k].source);
    }
  }

  ghost function TablesAt(db: Db, before: map<string, string>, source: string, target: string, s: nat)
    : (r: seq<seq<Entry>>)
    requires Shaped(Db(db.tables, []))
    ensures |r| == 5
  {
    RenameTables(db.tables, Stage(before, before[source := target], s))
  }

  lemma StatementOfMapping(db: Db, m: map<string, string>, before: map<string, string>, seen: Inspection,
                           source: string, s: nat)
    requires DbOk(db) && Shaped(Db(db.tables, [])) && Safe(db, m) && Inspected(db, seen) && before.Items <= m.Items
    requires source in m && source !in before && source != "" && s < |COLUMNS|
    ensures s < |seen.occurrences| && COLUMNS[s].table < 5
    ensures var t, c := COLUMNS[s].table, COLUMNS[s].column;
            var now, next := TablesAt(db, before, source, m[source], s), TablesAt(db, before, source, m[source], s + 1);
            && StatementWorks(t, c, now[t], next[t], source, m[source], CountIn(seen.occurrences[s], source))
            && (forall u :: 0 <= u < 5 && u != t ==> next[u] == now[u])
  {
    hide Safe, StatementWorks, Inspected, PartsOf;
    StageAdvances(m, before, source, s);
    StatementAdvances(db, m, Stage(before, before[source := m[source]], s), s, source);
    CountedBefore(db, seen, s, source);
  }

  /** The statements of one mapping rename its source on every column. */
  method ApplyMapping(ghost db: Db, ghost m: map<string, string>, ghost before: map<string, string>,
                      seen: Inspection, source: string, target: string, tables: seq<seq<Entry>>)
    returns (ok: bool, out: seq<seq<Entry>>)
    requires DbOk(db) && Shaped(Db(db.tables, [])) && Safe(db, m) && Inspected(db, seen) && before.Items <= m.Items
    requires source in m && m[source] == target && source !in before && source != ""
    requires tables == RenameTables(db.tables, Same(before))
    ensures ok && out == RenameTables(db.tables, Same(before[source := target]))
  {
    hide Safe, Clashes, UpdateEntry, Inspected, PartsOf, RenameTables, DbOk, Shaped, TablesAt, Count, CountIn;
    StageIsTables(db, m, before, source);
    out := tables;
    var s := 0;
    while s < |COLUMNS|
      invariant 0 <= s <= |COLUMNS| && out == TablesAt(db, before, source, target, s)
    {
      StatementOfMapping(db, m, before, seen, source, s);
      var t, c := COLUMNS[s].table, COLUMNS[s].column;
      var affected, rows;
      ok, affected, rows := UpdateRows(t, out[t], c, source, target);
      if !ok || affected != CountIn(seen.occurrences[s], source) {
        return false, out;
      }
      ghost var next := TablesAt(db, before, source, target, s + 1);
      assert rows == next[t];
      out := out[t := rows];
      assert out == next;
      s := s + 1;
    }
    ok := true;
  }

  lemma StageIsTables(db: Db, m: map<string, string>, before: map<string, string>, source: string)
    requires Shaped(Db(db.tables, [])) && source in m && before.Items <= m.Items
    ensures TablesAt(db, before, source, m[source], 0) == RenameTables(db.tables, Same(before))
    ensures TablesAt(db, before, source, m[source], |COLUMNS|)
              == RenameTables(db.tables, Same(before[source := m[source]]))
  {
    hide RenameTables;
    StageAdvances(m, before, source, 0);
  }

  lemma CountedBefore(db: Db, seen: Inspection, s: nat, x: string)
    requires Shaped(db) && Inspected(db, seen) && s < SURFACES && x != ""
    ensures s < |seen.occurrences| && CountIn(seen.occurrences[s], x) == Count(Cells(db, s), x)
  {
    assert Tally(seen.occurrences[s], Cells(db, s));
  }

  /** The updates of the changed conversations. */
  method ApplyConversations(ghost m: map<string, string>, conversations: seq<Conversation>,
                            plans: seq<ConversationPlan>)
    returns (ok: bool, out: seq<Conversation>)
    requires Planned(m, conversations, plans)
    requires forall i, j :: 0 <= i < j < |conversations| ==> conversations[i].id != conversations[j].id
    ensures ok && out == RenameTalk(m, conversations)
  {
    hide TouchedBefore;
    out := conversations;
    ghost var renamed := RenameTalk(m, conversations);
    var i := 0;
    while i < |plans|
      invariant 0 <= i <= |plans| && |out| == |conversations|
      invariant forall j :: 0 <= j < i ==> out[j] == renamed[j]
      invariant forall j :: i <= j < |out| ==> out[j] == conversations[j]
    {
      assert PlannedAs(m, conversations[i], plans[i]);
      if plans[i].changed {
        var affected;
        ghost var was := out;
        assert was[i].id == plans[i].id;
        affected, out := UpdateConversation(out, plans[i].id, plans[i].participants);
        if affected != 1 { return false, out; }
      } else {
        NotTouched(m, conversations[i].participants);
      }
      i := i + 1;
    }
    ok := true;
  }

  lemma NotTouched(m: map<string, string>, names: seq<string>)
    requires !TouchedBefore(m, names, |names|)
    ensures SubAll(m, names) == names
  {
    forall p | 0 <= p < |names| ensures Sub(m, names[p]) == names[p] {}
  }

  /** What a finished preflight has established. */
  ghost predicate Passed(db: Db, mappings: seq<Mapping>, seen: Inspection, plans: seq<ConversationPlan>)
    requires Shaped(db)
  {
    var rows := RowsOf(mappings);
    && Sound(rows) && Inspected(db, seen) && Flagged(db, mappings, |mappings|)
    && (forall i :: 0 <= i < |rows| ==> !Occupied(db, rows[i]))
    && Planned(ActiveMap(db, rows), db.conversations, plans)
  }

  /** Mapping by mapping and surface by surface, the statements amount to one simultaneous
      substitution of every identity cell, and none of them fails a key or a row count. */
  method ApplyPlan(db: Db, mappings: seq<Mapping>, seen: Inspection, plans: seq<ConversationPlan>)
    returns (ok: bool, out: Db)
    requires Shaped(db) && DbOk(db) && Passed(db, mappings, seen, plans)
    ensures ok && out == After(db, RowsOf(mappings))
  {
    hide DbOk, Safe, Inspected, Planned, Sound, Occupied, Active, AlreadyApplied, RenameTables, Shaped;
    ghost var rows, m := RowsOf(mappings), ActiveMap(db, RowsOf(mappings));
    ActiveIsSafe(db, rows);
    TablesShaped(db);
    var tables := db.tables;
    NothingRenamed(db);
    var k := 0;
    while k < |mappings|
      invariant 0 <= k <= |mappings|
      invariant tables == RenameTables(db.tables, Same(ActiveMap(db, rows[..k])))
    {
      assert rows[..k + 1][..k] == rows[..k];
      if mappings[k].active {
        PrefixMap(db, rows, k);
        SourceIsNew(db, rows, k);
        EveryActiveRow(db, rows, k);
        SoundRow(rows, k);
        ok, tables := ApplyMapping(db, m, ActiveMap(db, rows[..k]), seen, mappings[k].row.source,
                                   mappings[k].row.target, tables);
        if !ok { return false, db; }
      }
      k := k + 1;
    }
    assert rows[..k] == rows;
    DistinctTalk(db);
    var conversations;
    ok, conversations := ApplyConversations(m, db.conversations, plans);
    out := Db(tables, conversations);
  }

  lemma TablesShaped(db: Db)
    requires Shaped(db)
    ensures Shaped(Db(db.tables, []))
  {
  }

  lemma DistinctTalk(db: Db)
    requires DbOk(db)
    ensures forall i, j :: 0 <= i < j < |db.conversations| ==> db.conversations[i].id != db.conversations[j].id
  {
  }

  lemma SoundRow(rows: seq<Row>, k: nat)
    requires Sound(rows) && k < |rows|
    ensures rows[k].source != "" && rows[k].target != ""
  {
  }

  lemma NothingRenamed(db: Db)
    requires Shaped(db) && Shaped(Db(db.tables, []))
    ensures RenameTables(db.tables, Same(map[])) == db.tables
  {
    RenamingNothing(db);
  }

  /** The sources and targets of the mappings. */
  method Names(mappings: seq<Mapping>) returns (named: set<string>)
    ensures forall x :: x in named <==> Named(RowsOf(mappings), x)
  {
    named := {};
    var i := 0;
    while i < |mappings|
      invariant 0 <= i <= |mappings|
      invariant forall x :: x in named <==>
                  exists j :: 0 <= j < i && (mappings[j].row.source == x || mappings[j].row.target == x)
    {
      named := named + {mappings[i].row.source, mappings[i].row.target};
      i := i + 1;
    }
    forall x ensures x in named <==> Named(RowsOf(mappings), x) {
      if j :| 0 <= j < i && (mappings[j].row.source == x || mappings[j].row.target == x) {
        assert RowsOf(mappings)[j] == mappings[j].row;
      }
    }
  }

  method KnowsAll(ghost db: Db, present: set<string>, mappings: seq<Mapping>) returns (ok: bool)
    requires Shaped(db) && forall x :: x in present <==> InDb(db, x)
    ensures ok <==> forall x :: InDb(db, x) ==> Named(RowsOf(mappings), x)
  {
    hide InDb, Named;
    var named := Names(mappings);
    var left := present;
    while left != {}
      invariant left <= present
      invariant forall x :: x in present - left ==> x in named
    {
      var x :| x in left;
      if x !in named { return false; }
      left := left - {x};
    }
    ok := true;
  }

  /** The refusal a preflight must give, if any. */
  ghost function RefusalOf(db: Db, rows: seq<Row>): Option<Status>
    requires Shaped(db)
  {
    if exists x :: InDb(db, x) && !Named(rows, x) then Some(UnknownIdentity)
    else if exists i :: 0 <= i < |rows| && Occupied(db, rows[i]) then Some(TargetOccupied)
    else if MixedTalk(After(db, rows).conversations) then Some(MixedScope)
    else None
  }

  /** Some identity of the database is neither source nor target of any row. */
  ghost predicate HasStranger(db: Db, rows: seq<Row>)
    requires Shaped(db)
  {
    exists x :: InDb(db, x) && forall i :: 0 <= i < |rows| ==> rows[i].source != x && rows[i].target != x
  }

  lemma StrangerIsUnknown(db: Db, rows: seq<Row>)
    requires Shaped(db)
    ensures RefusalOf(db, rows) == Some(UnknownIdentity) <==> HasStranger(db, rows)
  {
    hide InDb, Occupied, MixedTalk, After;
  }

  /** The line of the first occupied target. */
  ghost predicate FirstOccupied(db: Db, rows: seq<Row>, line: nat)
    requires Shaped(db)
  {
    exists i :: 0 <= i < |rows| && Occupied(db, rows[i]) && rows[i].line == line
      && forall j :: 0 <= j < i ==> !Occupied(db, rows[j])
  }

  /** The report counts exactly what these rows change. */
  ghost predicate Counted(db: Db, rows: seq<Row>, report: Report)
    requires Shaped(db)
  {
    && RewritesAre(db, ActiveMap(db, rows), report.rewrites)
    && |report.rewrites| == SURFACES && report.total == Total(report.rewrites)
    && report.alreadyApplied == CountApplied(db, rows)
  }

  class Migration {
    var db: Db
    var mappings: seq<Mapping>
    var report: Report

    constructor (initial: Db)
      ensures db == initial && mappings == []
    {
      db, mappings := initial, [];
      report := Report(ApplyFailed, 0, [0, 0, 0, 0, 0, 0, 0, 0], 0, 0, None);
    }

    /** Keep the rows of the declared authority. */
    method SelectMappings(manifest: seq<Row>, authority: Authority)
      modifies this`mappings, this`report
      ensures RowsOf(mappings) == Selected(manifest, authority)
      ensures Shaped(db) ==> Flagged(db, mappings, 0)
      ensures report == Report(ApplyFailed, |mappings|, [0, 0, 0, 0, 0, 0, 0, 0], 0, 0, None)
    {
      mappings := [];
      report := Report(ApplyFailed, 0, [0, 0, 0, 0, 0, 0, 0, 0], 0, 0, None);
      var i := 0;
      while i < |manifest|
        invariant 0 <= i <= |manifest| && db == old(db)
        invariant RowsOf(mappings) == Selected(manifest[..i], authority)
        invariant forall k :: 0 <= k < |mappings| ==> !mappings[k].active && !mappings[k].alreadyApplied
        invariant report == Report(ApplyFailed, |mappings|, [0, 0, 0, 0, 0, 0, 0, 0], 0, 0, None)
      {
        assert manifest[..i + 1][..i] == manifest[..i];
        if manifest[i].authority == authority {
          mappings := mappings + [Mapping(manifest[i], false, false)];
          report := report.(manifestRows := report.manifestRows + 1);
        }
        i := i + 1;
      }
      assert manifest[..i] == manifest;
    }

    /** Set the flags, count the rewrites and plan the conversations, or refuse. */
    method Preflight(seen: Inspection) returns (refusal: Option<Status>, plans: seq<ConversationPlan>)
      requires Shaped(db) && Sound(RowsOf(mappings)) && Flagged(db, mappings, 0) && Inspected(db, seen)
      requires report.rewrites == [0, 0, 0, 0, 0, 0, 0, 0] && report.total == 0 && report.alreadyApplied == 0
      modifies this`mappings, this`report
      ensures RowsOf(mappings) == old(RowsOf(mappings))
      ensures refusal == RefusalOf(db, RowsOf(mappings))
      ensures refusal == Some(UnknownIdentity) <==> HasStranger(db, RowsOf(mappings))
      ensures refusal == Some(TargetOccupied) ==>
                report.collision.Some? && FirstOccupied(db, RowsOf(mappings), report.collision.value)
      ensures refusal.None? ==>
                && Passed(db, mappings, seen, plans)
                && Counted(db, RowsOf(mappings), report)
    {
      hide Sound, InDb, Named, Cells, Shaped, Changed, Tally, MixedTalk, Planned, Total, ActiveMap, Counted, Inspected;
      hide HasStranger;
      plans := [];
      ghost var rows := RowsOf(mappings);
      StrangerIsUnknown(db, rows);
      PresentIsInDb(db, seen);
      var known := KnowsAll(db, seen.present, mappings);
      if !known { return Some(UnknownIdentity), plans; }
      NothingCounted(db, rows, report);
      var k := 0;
      while k < |mappings|
        invariant 0 <= k <= |mappings| && RowsOf(mappings) == rows && db == old(db)
        invariant Flagged(db, mappings, k)
        invariant forall i :: 0 <= i < k ==> !Occupied(db, rows[i])
        invariant Counted(db, rows[..k], report)
        invariant |report.rewrites| == SURFACES && report.total == Total(report.rewrites)
      {
        var row := mappings[k].row;
        if !Active(db, rows[k]) { IdleRowCounted(db, rows, k, report); }
        if row.source != row.target {
          var sourcePresent := row.source in seen.present;
          var targetPresent := row.target in seen.present;
          if sourcePresent && targetPresent {
            report := report.(collision := Some(row.line));
            assert Occupied(db, rows[k]);
            return Some(TargetOccupied), plans;
          }
          mappings := mappings[k := Mapping(row, sourcePresent, !sourcePresent && targetPresent)];
          if sourcePresent {
            var counted := AddRewrites(seen, row.source, report);
            ActiveRowCounted(db, rows, k, seen, report, counted);
            report := counted;
          }
          if !sourcePresent && targetPresent {
            report := report.(alreadyApplied := report.alreadyApplied + 1);
          }
        }
        k := k + 1;
      }
      assert rows[..k] == rows;
      var mixed;
      plans, mixed := PlanConversations(db, mappings, seen.conversations);
      refusal := if mixed then Some(MixedScope) else None;
    }

    /** A whole run. It ends as the preflight says it must; it changes the database only when it
        applies the plan, to the one simultaneous substitution; and the total it reports is the
        number of identity cells that differ. */
    method Run(manifest: seq<Row>, authority: Authority, apply: bool)
      requires Shaped(db) && DbOk(db) && Sound(Selected(manifest, authority))
      modifies this
      ensures report.status == Outcome(old(db), Selected(manifest, authority), apply)
      ensures report.status.UnknownIdentity? <==>
                && (exists i :: Preflights.Declares(manifest, authority, i))
                && exists x :: Preflights.Present(old(db), x) && !Preflights.Mentions(manifest, authority, x)
      ensures db == if report.status.Applied? then After(old(db), Selected(manifest, authority)) else old(db)
      ensures Shaped(db) && DbOk(db)
      ensures report.status.NoOp? || report.status.DryRun? || report.status.Applied? ==>
                Counted(old(db), Selected(manifest, authority), report)
      ensures report.status.TargetOccupied? ==>
                report.collision.Some? && FirstOccupied(old(db), Selected(manifest, authority), report.collision.value)
    {
      hide Selected, DbOk, Shaped, Passed, Counted, FirstOccupied, Sound, After, RefusalOf, Preflights.Declares;
      hide Preflights.Present, Preflights.Mentions;
      Preflights.UnknownWhen(db, manifest, authority, apply);
      SelectMappings(manifest, authority);
      if mappings == [] {
        report := report.(status := ManifestAuthority);
        return;
      }
      var seen := Inspect(db);
      var refusal, plans := Preflight(seen);
      OutcomeIs(db, Selected(manifest, authority), apply, report, refusal);
      if refusal.Some? {
        report := report.(status := refusal.value);
        return;
      }
      if report.total == 0 {
        report := report.(status := NoOp);
        return;
      }
      if !apply {
        report := report.(status := DryRun);
        return;
      }
      AfterIsOk(db, Selected(manifest, authority));
      var ok, work := ApplyPlan(db, mappings, seen, plans);
      if ok { db := work; }
      report := report.(status := if ok then Applied else ApplyFailed);
    }
  }

  lemma PresentIsInDb(db: Db, seen: Inspection)
    requires Shaped(db) && Inspected(db, seen)
    ensures forall x :: x in seen.present <==> InDb(db, x)
    ensures seen.conversations == Untouched(db.conversations) && |seen.occurrences| == SURFACES
  {
  }

  lemma NothingCounted(db: Db, rows: seq<Row>, report: Report)
    requires Shaped(db) && report.rewrites == [0, 0, 0, 0, 0, 0, 0, 0] && report.total == 0
    requires report.alreadyApplied == 0
    ensures Counted(db, rows[..0], report) && report.total == Total(report.rewrites)
  {
    hide Cells;
    forall s | 0 <= s < SURFACES ensures Changed(map[], Cells(db, s)) == 0 { ChangedNothing(Cells(db, s)); }
    TotalZero(report.rewrites);
  }

  lemma {:induction false} TotalZero(counts: seq<nat>)
    requires forall s :: 0 <= s < |counts| ==> counts[s] == 0
    ensures Total(counts) == 0
  {
    if counts != [] { TotalZero(counts[..|counts| - 1]); }
  }

  /** A row that is not active adds no rewrites; only an applied one is counted. */
  lemma IdleRowCounted(db: Db, rows: seq<Row>, k: nat, report: Report)
    requires Shaped(db) && k < |rows| && Counted(db, rows[..k], report) && !Active(db, rows[k])
    ensures Counted(db, rows[..k + 1],
                    if AlreadyApplied(db, rows[k]) then report.(alreadyApplied := report.alreadyApplied + 1)
                    else report)
  {
    hide RewritesAre, Active, AlreadyApplied, Total;
    assert rows[..k + 1][..k] == rows[..k];
  }

  lemma ActiveRowCounted(db: Db, rows: seq<Row>, k: nat, seen: Inspection, report: Report, next: Report)
    requires Shaped(db) && Sound(rows) && Inspected(db, seen) && k < |rows| && Counted(db, rows[..k], report)
    requires Active(db, rows[k])
    requires |next.rewrites| == SURFACES && next.total == Total(next.rewrites)
    requires forall s :: 0 <= s < SURFACES ==>
               next.rewrites[s] == report.rewrites[s] + CountIn(seen.occurrences[s], rows[k].source)
    requires next.alreadyApplied == report.alreadyApplied
    ensures Counted(db, rows[..k + 1], next)
  {
    hide Total, Sound, Inspected, InDb, CountIn;
    assert rows[..k + 1][..k] == rows[..k];
    SoundPrefix(rows, k + 1);
    RewritesGrow(db, seen, rows[..k + 1], report.rewrites, next.rewrites);
  }

  lemma OutcomeIs(db: Db, rows: seq<Row>, apply: bool, report: Report, refusal: Option<Status>)
    requires Shaped(db) && rows != [] && Sound(rows) && refusal == RefusalOf(db, rows)
    requires refusal.None? ==> Counted(db, rows, report)
    ensures refusal.Some? ==> Outcome(db, rows, apply) == refusal.value
    ensures refusal.Some? ==>
              refusal.value.UnknownIdentity? || refusal.value.TargetOccupied? || refusal.value.MixedScope?
    ensures refusal.None? ==>
              Outcome(db, rows, apply) == (if report.total == 0 then NoOp else if apply then Applied else DryRun)
    ensures forall status :: Counted(db, rows, report.(status := status)) <==> Counted(db, rows, report)
    ensures After(db, rows) == db || ActiveMap(db, rows) != map[]
  {
    hide InDb, Named, MixedTalk, Occupied, After, ActiveMap, RewritesAre, Total, CountApplied;
    if refusal.None? { NothingToRewrite(db, rows, report); }
    if ActiveMap(db, rows) == map[] { UnchangedTalk(db, rows); }
  }

  lemma {:induction false} TotalPositive(counts: seq<nat>)
    ensures Total(counts) == 0 <==> forall s :: 0 <= s < |counts| ==> counts[s] == 0
  {
    if counts != [] {
      TotalPositive(counts[..|counts| - 1]);
      assert forall s :: 0 <= s < |counts| - 1 ==> counts[s] == counts[..|counts| - 1][s];
    }
  }

  lemma {:induction false} ChangesSome(m: map<string, string>, xs: seq<string>, x: string)
    requires x in xs && Sub(m, x) != x
    ensures Changed(m, xs) > 0
  {
    var k := |xs| - 1;
    if xs[k] != x {
      assert x in xs[..k];
      ChangesSome(m, xs[..k], x);
    }
  }

  /** The plan rewrites nothing exactly when no row is active. */
  lemma NothingToRewrite(db: Db, rows: seq<Row>, report: Report)
    requires Shaped(db) && Sound(rows) && Counted(db, rows, report)
    ensures report.total == 0 <==> ActiveMap(db, rows) == map[]
  {
    hide Cells, Total, CountApplied, Sound;
    var m := ActiveMap(db, rows);
    TotalPositive(report.rewrites);
    if m == map[] {
      forall s | 0 <= s < SURFACES ensures report.rewrites[s] == 0 { ChangedNothing(Cells(db, s)); }
    } else {
      var x :| x in m;
      var i := ActiveRow(db, rows, x);
      var s :| 0 <= s < SURFACES && x in Cells(db, s);
      ChangesSome(m, Cells(db, s), x);
      assert report.rewrites[s] > 0;
    }
  }

  /** A run that is not refused keeps every key of the database unique. */
  lemma AfterIsOk(db: Db, rows: seq<Row>)
    requires Shaped(db) && DbOk(db) && Sound(rows) && forall i :: 0 <= i < |rows| ==> !Occupied(db, rows[i])
    ensures DbOk(After(db, rows))
  {
    hide Sound, Safe;
    var m := ActiveMap(db, rows);
    ActiveIsSafe(db, rows);
    StagesKeepKeys(db, m, Same(m));
    var after := After(db, rows);
    var renamed := Db(after.tables, db.conversations);
    forall t | 0 <= t < 5 ensures Keyed(t, after.tables[t]) { assert Keyed(t, renamed.tables[t]); }
  }
}
