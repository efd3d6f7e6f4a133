/** Reading the identities and counting the rewrites a plan will make. */
module Inspector {
  import opened Model
  import opened Manifest
  import opened Rename
  import opened Plan

  datatype Mapping = Mapping(row: Row, active: bool, alreadyApplied: bool)

  datatype ConversationPlan = ConversationPlan(id: string, participants: seq<string>, changed: bool)

  /** What the run found: the identities present, and how often each is on each surface. */
  datatype Inspection = Inspection(
    present: set<string>,
    occurrences: seq<map<string, nat>>,
    conversations: seq<ConversationPlan>)

  datatype Report = Report(
    status: Status,
    manifestRows: nat,
    rewrites: seq<nat>,
    total: nat,
    alreadyApplied: nat,
    collision: Option<nat>)

  function RowsOf(mappings: seq<Mapping>): (rows: seq<Row>)
    ensures |rows| == |mappings|
    ensures forall i :: 0 <= i < |rows| ==> rows[i] == mappings[i].row
  {
    seq(|mappings|, i requires 0 <= i < |mappings| => mappings[i].row)
  }

  // ---- inspection ----

  function CountIn(seen: map<string, nat>, x: string): nat {
    if x in seen then seen[x] else 0
  }

  function AddOccurrence(seen: Inspection, s: nat, x: string): Inspection
    requires s < |seen.occurrences|
  {
    if x == "" then seen
    else seen.(present := seen.present + {x},
               occurrences := seen.occurrences[s := CountUp(seen.occurrences[s], x)])
  }

  function CountUp(counts: map<string, nat>, x: string): map<string, nat> {
    var n: nat := CountIn(counts, x) + 1;
    counts[x := n]
  }

  /** The counts of one surface so far. */
  ghost predicate Tally(seen: map<string, nat>, xs: seq<string>) {
    forall x :: x != "" ==> CountIn(seen, x) == Count(xs, x)
  }

  ghost predicate PresentIsCounted(seen: Inspection) {
    && |seen.occurrences| == SURFACES
    && forall x :: x in seen.present <==>
         x != "" && exists s :: 0 <= s < SURFACES && CountIn(seen.occurrences[s], x) > 0
  }

  lemma CountAppend(xs: seq<string>, v: string, x: string)
    ensures Count(xs + [v], x) == Count(xs, x) + if v == x then 1 else 0
  {
    assert (xs + [v])[..|xs|] == xs;
  }

  lemma AddCounts(seen: Inspection, s: nat, xs: seq<string>, v: string)
    requires PresentIsCounted(seen) && s < SURFACES && Tally(seen.occurrences[s], xs)
    ensures PresentIsCounted(AddOccurrence(seen, s, v))
    ensures Tally(AddOccurrence(seen, s, v).occurrences[s], xs + [v])
    ensures forall q :: 0 <= q < SURFACES && q != s ==> AddOccurrence(seen, s, v).occurrences[q] == seen.occurrences[q]
    ensures AddOccurrence(seen, s, v).conversations == seen.conversations
  {
    var next := AddOccurrence(seen, s, v);
    forall x | x != "" ensures CountIn(next.occurrences[s], x) == Count(xs + [v], x) { CountAppend(xs, v, x); }
    forall x ensures x in next.present <==>
                       x != "" && exists q :: 0 <= q < SURFACES && CountIn(next.occurrences[q], x) > 0
    {
      if x != "" && x == v { assert CountIn(next.occurrences[s], x) > 0; }
      else {
        assert forall q :: 0 <= q < SURFACES ==> CountIn(next.occurrences[q], x) == CountIn(seen.occurrences[q], x);
      }
    }
  }

  function Untouched(conversations: seq<Conversation>): (r: seq<ConversationPlan>)
    ensures |r| == |conversations|
    ensures forall i :: 0 <= i < |r| ==>
              r[i] == ConversationPlan(conversations[i].id, conversations[i].participants, false)
  {
    seq(|conversations|, i requires 0 <= i < |conversations| =>
      ConversationPlan(conversations[i].id, conversations[i].participants, false))
  }

  /** The inspection is exactly the contents of the database. */
  ghost predicate Inspected(db: Db, seen: Inspection)
    requires Shaped(db)
  {
    && |seen.occurrences| == SURFACES
    && (forall s :: 0 <= s < SURFACES ==> Tally(seen.occurrences[s], Cells(db, s)))
    && (forall x :: x in seen.present <==> InDb(db, x))
    && seen.conversations == Untouched(db.conversations)
  }

  lemma InspectionComplete(db: Db, seen: Inspection)
    requires Shaped(db) && PresentIsCounted(seen) && seen.conversations == Untouched(db.conversations)
    requires forall s :: 0 <= s < SURFACES ==> Tally(seen.occurrences[s], Cells(db, s))
    ensures Inspected(db, seen)
  {
    hide Cells;
    forall x ensures x in seen.present <==> InDb(db, x) {
      if x != "" {
        forall s | 0 <= s < SURFACES ensures CountIn(seen.occurrences[s], x) > 0 <==> x in Cells(db, s) {
          assert Tally(seen.occurrences[s], Cells(db, s));
        }
      }
    }
  }

  method Inspect(db: Db) returns (seen: Inspection)
    requires Shaped(db)
    ensures Inspected(db, seen)
  {
    hide Tally, PresentIsCounted, AddOccurrence, InDb, Shaped;
    seen := Inspection({}, seq(SURFACES, s => map[]), []);
    NothingSeen(seen);
    var s := 0;
    while s < |COLUMNS|
      invariant 0 <= s <= |COLUMNS| && PresentIsCounted(seen) && |seen.occurrences| == SURFACES
      invariant seen.conversations == []
      invariant forall q :: 0 <= q < s ==> Tally(seen.occurrences[q], Cells(db, q))
      invariant forall q :: s <= q < SURFACES ==> Tally(seen.occurrences[q], [])
    {
      ColumnInRange(db, s);
      var cells := Cells(db, s);
      var i := 0;
      while i < |cells|
        invariant 0 <= i <= |cells| && PresentIsCounted(seen) && |seen.occurrences| == SURFACES
        invariant seen.conversations == []
        invariant forall q :: 0 <= q < s ==> Tally(seen.occurrences[q], Cells(db, q))
        invariant forall q :: s < q < SURFACES ==> Tally(seen.occurrences[q], [])
        invariant Tally(seen.occurrences[s], cells[..i])
      {
        AddCounts(seen, s, cells[..i], cells[i]);
        assert cells[..i + 1] == cells[..i] + [cells[i]];
        AddKeepsLength(seen, s, cells[i]);
        seen := AddOccurrence(seen, s, cells[i]);
        i := i + 1;
      }
      assert cells[..|cells|] == cells;
      s := s + 1;
    }
    seen := InspectConversations(db.conversations, seen);
    InspectionComplete(db, seen);
  }

  lemma AddKeepsLength(seen: Inspection, s: nat, x: string)
    requires s < |seen.occurrences|
    ensures |AddOccurrence(seen, s, x).occurrences| == |seen.occurrences|
  {
  }

  lemma NothingSeen(seen: Inspection)
    requires seen == Inspection({}, seq(SURFACES, s => map[]), [])
    ensures PresentIsCounted(seen) && forall s :: 0 <= s < SURFACES ==> Tally(seen.occurrences[s], [])
  {
  }

  method InspectConversations(conversations: seq<Conversation>, before: Inspection) returns (seen: Inspection)
    requires PresentIsCounted(before) && |before.occurrences| == SURFACES && before.conversations == []
    requires Tally(before.occurrences[PARTICIPANTS], [])
    ensures PresentIsCounted(seen) && |seen.occurrences| == SURFACES
    ensures forall q :: 0 <= q < PARTICIPANTS ==> seen.occurrences[q] == before.occurrences[q]
    ensures Tally(seen.occurrences[PARTICIPANTS], Everyone(conversations))
    ensures seen.conversations == Untouched(conversations)
  {
    hide Tally, PresentIsCounted, AddOccurrence;
    seen := before;
    var i := 0;
    while i < |conversations|
      invariant 0 <= i <= |conversations| && PresentIsCounted(seen) && |seen.occurrences| == SURFACES
      invariant forall q :: 0 <= q < PARTICIPANTS ==> seen.occurrences[q] == before.occurrences[q]
      invariant Tally(seen.occurrences[PARTICIPANTS], Everyone(conversations[..i]))
      invariant seen.conversations == Untouched(conversations[..i])
    {
      var names := conversations[i].participants;
      var p := 0;
      assert Everyone(conversations[..i]) + names[..0] == Everyone(conversations[..i]);
      while p < |names|
        invariant 0 <= p <= |names| && PresentIsCounted(seen) && |seen.occurrences| == SURFACES
        invariant forall q :: 0 <= q < PARTICIPANTS ==> seen.occurrences[q] == before.occurrences[q]
        invariant Tally(seen.occurrences[PARTICIPANTS], Everyone(conversations[..i]) + names[..p])
        invariant seen.conversations == Untouched(conversations[..i])
      {
        AddCounts(seen, PARTICIPANTS, Everyone(conversations[..i]) + names[..p], names[p]);
        assert Everyone(conversations[..i]) + names[..p + 1] == Everyone(conversations[..i]) + names[..p] + [names[p]];
        AddKeepsLength(seen, PARTICIPANTS, names[p]);
        seen := AddOccurrence(seen, PARTICIPANTS, names[p]);
        p := p + 1;
      }
      assert names[..|names|] == names;
      assert conversations[..i + 1][..i] == conversations[..i];
      var plans := seen.conversations + [ConversationPlan(conversations[i].id, names, false)];
      PresenceIgnoresPlans(seen, plans);
      seen := seen.(conversations := plans);
      i := i + 1;
    }
    assert conversations[..|conversations|] == conversations;
  }

  lemma PresenceIgnoresPlans(seen: Inspection, other: seq<ConversationPlan>)
    ensures PresentIsCounted(seen.(conversations := other)) <==> PresentIsCounted(seen)
  {
  }

  // ---- preflight ----

  /** How many cells the substitution changes. */
  function Changed(m: map<string, string>, xs: seq<string>): nat {
    if xs == [] then 0
    else Changed(m, xs[..|xs| - 1]) + if Sub(m, xs[|xs| - 1]) != xs[|xs| - 1] then 1 else 0
  }

  /** A further row of the manifest changes exactly the cells that hold its source. */
  lemma {:induction false} ChangedGrows(m: map<string, string>, source: string, target: string, xs: seq<string>)
    requires source !in m && source != target
    ensures Changed(m[source := target], xs) == Changed(m, xs) + Count(xs, source)
  {
    if xs != [] { ChangedGrows(m, source, target, xs[..|xs| - 1]); }
  }

  lemma {:induction false} ChangedNothing(xs: seq<string>)
    ensures Changed(map[], xs) == 0
  {
    if xs != [] { ChangedNothing(xs[..|xs| - 1]); }
  }

  function Total(counts: seq<nat>): nat {
    if counts == [] then 0 else Total(counts[..|counts| - 1]) + counts[|counts| - 1]
  }

  lemma {:induction false} TotalChanges(counts: seq<nat>, s: nat, n: nat)
    requires s < |counts|
    ensures Total(counts[s := n]) == Total(counts) - counts[s] + n
  {
    var k := |counts| - 1;
    if s < k {
      TotalChanges(counts[..k], s, n);
      assert counts[s := n][..k] == counts[..k][s := n];
    } else {
      assert counts[s := n][..k] == counts[..k];
    }
  }

  /** Cells changed on each surface. */
  ghost predicate RewritesAre(db: Db, m: map<string, string>, rewrites: seq<nat>)
    requires Shaped(db)
  {
    |rewrites| == SURFACES && forall s :: 0 <= s < SURFACES ==> rewrites[s] == Changed(m, Cells(db, s))
  }

  ghost function CountApplied(db: Db, rows: seq<Row>): nat
    requires Shaped(db)
  {
    if rows == [] then 0
    else CountApplied(db, rows[..|rows| - 1]) + if AlreadyApplied(db, rows[|rows| - 1]) then 1 else 0
  }

  /** The flags the preflight has set on the first k mappings, and only on them. */
  ghost predicate Flagged(db: Db, mappings: seq<Mapping>, k: nat)
    requires Shaped(db)
  {
    forall i :: 0 <= i < |mappings| ==>
      mappings[i].active == (i < k && Active(db, mappings[i].row))
      && mappings[i].alreadyApplied == (i < k && AlreadyApplied(db, mappings[i].row))
  }

  method AddRewrites(seen: Inspection, source: string, report: Report) returns (r: Report)
    requires |seen.occurrences| == SURFACES && |report.rewrites| == SURFACES && report.total == Total(report.rewrites)
    ensures |r.rewrites| == SURFACES && r.total == Total(r.rewrites)
    ensures forall s :: 0 <= s < SURFACES ==> r.rewrites[s] == report.rewrites[s] + CountIn(seen.occurrences[s], source)
    ensures r == report.(rewrites := r.rewrites, total := r.total)
  {
    r := report;
    var s := 0;
    while s < SURFACES
      invariant 0 <= s <= SURFACES && |r.rewrites| == SURFACES && r.total == Total(r.rewrites)
      invariant forall q :: 0 <= q < s ==> r.rewrites[q] == report.rewrites[q] + CountIn(seen.occurrences[q], source)
      invariant forall q :: s <= q < SURFACES ==> r.rewrites[q] == report.rewrites[q]
      invariant r == report.(rewrites := r.rewrites, total := r.total)
    {
      var count := CountIn(seen.occurrences[s], source);
      TotalChanges(r.rewrites, s, r.rewrites[s] + count);
      r := r.(rewrites := r.rewrites[s := r.rewrites[s] + count], total := r.total + count);
      s := s + 1;
    }
  }

  lemma RewritesGrow(db: Db, seen: Inspection, rows: seq<Row>, before: seq<nat>, after: seq<nat>)
    requires Shaped(db) && Sound(rows) && rows != [] && Inspected(db, seen) && Active(db, rows[|rows| - 1])
    requires RewritesAre(db, ActiveMap(db, rows[..|rows| - 1]), before) && |after| == SURFACES
    requires forall s :: 0 <= s < SURFACES ==>
               after[s] == before[s] + CountIn(seen.occurrences[s], rows[|rows| - 1].source)
    ensures RewritesAre(db, ActiveMap(db, rows), after)
  {
    hide Cells, InDb, Changed, Count;
    var k := |rows| - 1;
    var m := ActiveMap(db, rows[..k]);
    var row := rows[k];
    if row.source in m {
      OnlyActiveSources(db, rows[..k], row.source);
      var i :| 0 <= i < k && Active(db, rows[..k][i]) && rows[..k][i].source == row.source;
      assert rows[i].source == row.source;
    }
    forall s | 0 <= s < SURFACES ensures after[s] == Changed(ActiveMap(db, rows), Cells(db, s)) {
      assert Tally(seen.occurrences[s], Cells(db, s));
      ChangedGrows(m, row.source, row.target, Cells(db, s));
    }
  }
}
