/** What a migration run reports, said in terms of the two databases. */
module Reports {
  import opened Manifest
  import opened Rename
  import opened Plan
  import opened Inspector
  import opened Migrate
  import opened Preflights

  /** The places at which two lists differ. */
  function Differences(xs: seq<string>, ys: seq<string>): set<nat>
    requires |xs| == |ys|
  {
    set k: nat | k < |xs| && xs[k] != ys[k]
  }

  lemma {:induction false} ChangedIs(m: map<string, string>, xs: seq<string>)
    ensures Changed(m, xs) == |Differences(xs, SubAll(m, xs))|
  {
    if xs != [] {
      var k := |xs| - 1;
      ChangedIs(m, xs[..k]);
      var before := Differences(xs[..k], SubAll(m, xs[..k]));
      assert Differences(xs, SubAll(m, xs)) == before + if Sub(m, xs[k]) != xs[k] then {k} else {};
    }
  }

  ghost predicate AppliedBefore(db: Db, row: Row)
    requires Shaped(db)
  {
    row.source != row.target && !Present(db, row.source) && Present(db, row.target)
  }

  ghost function AppliedRows(db: Db, rows: seq<Row>): set<nat>
    requires Shaped(db)
  {
    set k: nat | k < |rows| && AppliedBefore(db, rows[k])
  }

  lemma AppliedNext(db: Db, rows: seq<Row>)
    requires Shaped(db) && rows != []
    ensures var k := |rows| - 1;
            AppliedRows(db, rows) == AppliedRows(db, rows[..k]) + if AppliedBefore(db, rows[k]) then {k} else {}
  {
    hide AppliedBefore;
  }

  lemma {:induction false} AppliedCount(db: Db, rows: seq<Row>)
    requires Shaped(db)
    ensures CountApplied(db, rows) == |AppliedRows(db, rows)|
  {
    hide AppliedBefore, AlreadyApplied;
    if rows != [] {
      var k := |rows| - 1;
      AppliedCount(db, rows[..k]);
      AppliedMeans(db, rows[k]);
      AppliedNext(db, rows);
    }
  }

  lemma AppliedMeans(db: Db, row: Row)
    requires Shaped(db)
    ensures AlreadyApplied(db, row) <==> AppliedBefore(db, row)
  {
    hide InDb, Present;
    InDbIs(db, row.source);
    InDbIs(db, row.target);
  }

  /** The report counts, surface by surface and in total, the cells in which the database that the
      run would leave differs from the one it found, and the rows whose target alone was there. */
  lemma ReportIs(db: Db, rows: seq<Row>, report: Report)
    requires Shaped(db) && Counted(db, rows, report)
    ensures |report.rewrites| == 8
    ensures forall s :: 0 <= s < 8 ==>
              && |Cells(After(db, rows), s)| == |Cells(db, s)|
              && report.rewrites[s] == |Differences(Cells(db, s), Cells(After(db, rows), s))|
    ensures var r := report.rewrites; report.total == r[0] + r[1] + r[2] + r[3] + r[4] + r[5] + r[6] + r[7]
    ensures report.alreadyApplied == |AppliedRows(db, rows)|
  {
    hide Cells, Present, ActiveMap, Changed, InDb;
    forall s | 0 <= s < 8
      ensures |Cells(After(db, rows), s)| == |Cells(db, s)|
      ensures report.rewrites[s] == |Differences(Cells(db, s), Cells(After(db, rows), s))|
    {
      CellsRenamed(db, ActiveMap(db, rows), s);
      ChangedIs(ActiveMap(db, rows), Cells(db, s));
    }
    TotalOfEight(report.rewrites);
    AppliedCount(db, rows);
  }

  lemma TotalOfEight(r: seq<nat>)
    requires |r| == 8
    ensures Total(r) == r[0] + r[1] + r[2] + r[3] + r[4] + r[5] + r[6] + r[7]
  {
    hide Total;
    TotalStep(r, 7);
    TotalStep(r, 6);
    TotalStep(r, 5);
    TotalStep(r, 4);
    TotalStep(r, 3);
    TotalStep(r, 2);
    TotalStep(r, 1);
    TotalStep(r, 0);
    assert r[..8] == r;
  }

  lemma TotalStep(r: seq<nat>, k: nat)
    requires k < |r|
    ensures Total(r[..k + 1]) == Total(r[..k]) + r[k] && Total(r[..0]) == 0
  {
    assert r[..k + 1][..k] == r[..k];
  }
}
