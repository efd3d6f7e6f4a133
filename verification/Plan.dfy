/** What the preflight decides, and what applying, re-applying and undoing a manifest do. */
module Plan {
  import opened Model
  import opened Manifest
  import opened Rename

  /** The rows of the declared authority. */
  function Selected(rows: seq<Row>, authority: Authority): seq<Row> {
    if rows == [] then []
    else
      var before := Selected(rows[..|rows| - 1], authority);
      if rows[|rows| - 1].authority == authority then before + [rows[|rows| - 1]] else before
  }

  /** What a selection from a manifest guarantees. */
  ghost predicate Sound(rows: seq<Row>) {
    && (forall i :: 0 <= i < |rows| ==> rows[i].source != "" && rows[i].target != "")
    && (forall i, j :: 0 <= i < |rows| && 0 <= j < |rows| && rows[i].source == rows[j].source ==> i == j)
    && (forall i, j :: 0 <= i < |rows| && 0 <= j < |rows| && rows[i].target == rows[j].target ==> i == j)
    && (forall i, j :: 0 <= i < |rows| && 0 <= j < |rows| && rows[i].target == rows[j].source && i != j ==>
          rows[j].target == rows[i].source)
  }

  // ---- the preflight ----

  ghost predicate Active(db: Db, row: Row)
    requires Shaped(db)
  {
    row.source != row.target && InDb(db, row.source)
  }

  ghost predicate AlreadyApplied(db: Db, row: Row)
    requires Shaped(db)
  {
    row.source != row.target && !InDb(db, row.source) && InDb(db, row.target)
  }

  ghost predicate Occupied(db: Db, row: Row)
    requires Shaped(db)
  {
    row.source != row.target && InDb(db, row.source) && InDb(db, row.target)
  }

  ghost predicate Named(rows: seq<Row>, x: string) {
    exists i :: 0 <= i < |rows| && (rows[i].source == x || rows[i].target == x)
  }

  /** The substitution of the active rows. */
  ghost function ActiveMap(db: Db, rows: seq<Row>): map<string, string>
    requires Shaped(db)
  {
    if rows == [] then map[]
    else
      var last := rows[|rows| - 1];
      var m := ActiveMap(db, rows[..|rows| - 1]);
      if Active(db, last) then m[last.source := last.target] else m
  }

  predicate Mixed(participants: seq<string>) {
    && (exists i :: 0 <= i < |participants| && ExplicitScope(participants[i]) == Some(PERSONAL))
    && (exists i :: 0 <= i < |participants| && ExplicitScope(participants[i]) == Some(UCLA_SCOPE))
  }

  ghost predicate MixedTalk(conversations: seq<Conversation>) {
    exists i :: 0 <= i < |conversations| && Mixed(conversations[i].participants)
  }

  datatype Status = ManifestAuthority | UnknownIdentity | TargetOccupied | MixedScope | ApplyFailed
                  | NoOp | DryRun | Applied

  /** The database after the active rows, all at once. */
  ghost function After(db: Db, rows: seq<Row>): (r: Db)
    requires Shaped(db)
    ensures Shaped(r)
  {
    RenameAll(db, ActiveMap(db, rows))
  }

  ghost function Outcome(db: Db, rows: seq<Row>, apply: bool): Status
    requires Shaped(db)
  {
    if rows == [] then ManifestAuthority
    else if exists x :: InDb(db, x) && !Named(rows, x) then UnknownIdentity
    else if exists i :: 0 <= i < |rows| && Occupied(db, rows[i]) then TargetOccupied
    else if MixedTalk(After(db, rows).conversations) then MixedScope
    else if ActiveMap(db, rows) == map[] then NoOp
    else if apply then Applied
    else DryRun
  }

  /** The run was not refused. */
  ghost predicate Accepted(db: Db, rows: seq<Row>)
    requires Shaped(db)
  {
    Outcome(db, rows, true).NoOp? || Outcome(db, rows, true).Applied?
  }

  // ---- the selection ----

  /** Each selected row stands somewhere in the manifest, in order. */
  lemma {:induction false} SelectedFrom(rows: seq<Row>, authority: Authority, i: nat, j: nat) returns (p: nat, q: nat)
    requires i <= j < |Selected(rows, authority)|
    ensures p <= q < |rows| && rows[p] == Selected(rows, authority)[i] && rows[q] == Selected(rows, authority)[j]
    ensures p == q <==> i == j
    ensures rows[p].authority == authority && rows[q].authority == authority
  {
    var k := |rows| - 1;
    var before := Selected(rows[..k], authority);
    if j < |before| {
      p, q := SelectedFrom(rows[..k], authority, i, j);
    } else if i < |before| {
      p, q := SelectedFrom(rows[..k], authority, i, i);
      q := k;
    } else {
      p, q := k, k;
    }
  }

  /** A selection from a manifest renames injectively in both directions, and its only chains
      are a row and its own reverse. */
  lemma SelectionIsSound(records: seq<seq<string>>, rows: seq<Row>, authority: Authority)
    requires Parses(records, rows)
    ensures Sound(Selected(rows, authority))
  {
    hide Selected, Parses, MappingError;
    var chosen := Selected(rows, authority);
    forall i | 0 <= i < |chosen| ensures chosen[i].source != "" && chosen[i].target != "" {
      var p, _ := SelectedFrom(rows, authority, i, i);
      ManifestRow(records, rows, p);
    }
    forall i, j | 0 <= i < j < |chosen|
      ensures chosen[i].source != chosen[j].source && chosen[i].target != chosen[j].target
      ensures chosen[i].target == chosen[j].source ==> chosen[j].target == chosen[i].source
      ensures chosen[j].target == chosen[i].source ==> chosen[i].target == chosen[j].source
    {
      var p, q := SelectedFrom(rows, authority, i, j);
      RowsApart(records, rows, p, q);
      if chosen[i].target == chosen[j].source { OnlyReverseChains(records, rows, p, q); }
      if chosen[j].target == chosen[i].source { OnlyReverseChains(records, rows, q, p); }
    }
  }

  lemma RowsApart(records: seq<seq<string>>, rows: seq<Row>, p: nat, q: nat)
    requires Parses(records, rows) && p < q < |rows| && rows[p].authority == rows[q].authority
    ensures rows[p].source != rows[q].source && rows[p].target != rows[q].target
  {
    hide RowsParse, SplitsPaired;
    assert !SameKey(rows[p], rows[q]) && !SameGoal(rows[p], rows[q]);
  }

  lemma {:induction false} SelectionOfInverse(rows: seq<Row>, authority: Authority)
    ensures Selected(Inverse(rows), authority) == Inverse(Selected(rows, authority))
  {
    if rows != [] {
      var k := |rows| - 1;
      SelectionOfInverse(rows[..k], authority);
      assert Inverse(rows)[..k] == Inverse(rows[..k]);
      assert Inverse(rows)[k] == Swap(rows[k]);
    }
  }

  lemma InverseIsSound(rows: seq<Row>)
    requires Sound(rows)
    ensures Sound(Inverse(rows))
  {
    var inverse := Inverse(rows);
    assert forall i :: 0 <= i < |rows| ==> inverse[i].source == rows[i].target && inverse[i].target == rows[i].source;
  }

  // ---- the substitution ----

  ghost predicate IsSource(db: Db, rows: seq<Row>, x: string)
    requires Shaped(db)
  {
    exists i :: 0 <= i < |rows| && Active(db, rows[i]) && rows[i].source == x
  }

  lemma {:induction false} OnlyActiveSources(db: Db, rows: seq<Row>, x: string)
    requires Shaped(db) && x in ActiveMap(db, rows)
    ensures IsSource(db, rows, x)
  {
    hide Active;
    var k := |rows| - 1;
    if x in ActiveMap(db, rows[..k]) {
      OnlyActiveSources(db, rows[..k], x);
      var i :| 0 <= i < k && Active(db, rows[..k][i]) && rows[..k][i].source == x;
      assert rows[i] == rows[..k][i];
    }
  }

  lemma {:induction false} EveryActiveRow(db: Db, rows: seq<Row>, i: nat)
    requires Shaped(db) && Sound(rows) && i < |rows| && Active(db, rows[i])
    ensures rows[i].source in ActiveMap(db, rows) && ActiveMap(db, rows)[rows[i].source] == rows[i].target
  {
    hide Active;
    var k := |rows| - 1;
    if i < k {
      SoundPrefix(rows, k);
      EveryActiveRow(db, rows[..k], i);
      assert rows[i].source != rows[k].source;
    }
  }

  lemma SoundPrefix(rows: seq<Row>, k: nat)
    requires Sound(rows) && k <= |rows|
    ensures Sound(rows[..k])
  {
  }

  /** The active map is exactly the active rows. */
  lemma ActiveMapIs(db: Db, rows: seq<Row>)
    requires Shaped(db) && Sound(rows)
    ensures forall i :: 0 <= i < |rows| && Active(db, rows[i]) ==>
              rows[i].source in ActiveMap(db, rows) && ActiveMap(db, rows)[rows[i].source] == rows[i].target
    ensures forall x :: x in ActiveMap(db, rows) <==> IsSource(db, rows, x)
  {
    hide Active, Sound, ActiveMap;
    forall i | 0 <= i < |rows| && Active(db, rows[i])
      ensures rows[i].source in ActiveMap(db, rows) && ActiveMap(db, rows)[rows[i].source] == rows[i].target
    {
      EveryActiveRow(db, rows, i);
    }
    forall x | x in ActiveMap(db, rows) ensures IsSource(db, rows, x) { OnlyActiveSources(db, rows, x); }
  }

  lemma ActiveRow(db: Db, rows: seq<Row>, x: string) returns (i: nat)
    requires Shaped(db) && Sound(rows) && x in ActiveMap(db, rows)
    ensures i < |rows| && Active(db, rows[i]) && rows[i].source == x && ActiveMap(db, rows)[x] == rows[i].target
  {
    hide Active;
    ActiveMapIs(db, rows);
    i :| 0 <= i < |rows| && Active(db, rows[i]) && rows[i].source == x;
  }

  /** A preflight that finds no occupied target leaves a safe renaming. */
  lemma ActiveIsSafe(db: Db, rows: seq<Row>)
    requires Shaped(db) && Sound(rows) && forall i :: 0 <= i < |rows| ==> !Occupied(db, rows[i])
    ensures Safe(db, ActiveMap(db, rows))
  {
    hide InDb;
    var m := ActiveMap(db, rows);
    forall x | x in m ensures InDb(db, x) && m[x] != "" && !InDb(db, m[x]) {
      var i := ActiveRow(db, rows, x);
      assert !Occupied(db, rows[i]);
    }
    forall x, y | x in m && y in m && m[x] == m[y] ensures x == y {
      var i := ActiveRow(db, rows, x);
      var j := ActiveRow(db, rows, y);
    }
  }

  /** What is in the database after a safe renaming: the rest, and the targets. */
  lemma PresentAfter(db: Db, m: map<string, string>, x: string)
    requires Shaped(db) && Safe(db, m)
    ensures InDb(RenameAll(db, m), x) <==> (InDb(db, x) && x !in m) || x in m.Values
  {
    if x != "" {
      assert forall k :: k in m ==> InDb(db, k);
      InRenamed(db, m, x);
      Preimage(db, m, x);
    } else {
      assert forall k :: k in m ==> m[k] != "";
    }
  }

  lemma Preimage(db: Db, m: map<string, string>, x: string)
    requires Shaped(db) && Safe(db, m)
    ensures (exists y :: InDb(db, y) && Sub(m, y) == x) <==> (InDb(db, x) && x !in m) || x in m.Values
  {
    hide InDb;
    if x in m.Values {
      var k :| k in m && m[k] == x;
      assert InDb(db, k) && Sub(m, k) == x;
    } else if InDb(db, x) && x !in m {
      assert Sub(m, x) == x;
    }
  }

  // ---- applying again ----

  /** Which identities an accepted run leaves: those it did not rename, and the active targets. */
  lemma LeftByRun(db: Db, rows: seq<Row>, x: string)
    requires Shaped(db) && Sound(rows) && Accepted(db, rows)
    ensures InDb(After(db, rows), x) <==>
              (InDb(db, x) && !(exists i :: 0 <= i < |rows| && Active(db, rows[i]) && rows[i].source == x))
              || exists i :: 0 <= i < |rows| && Active(db, rows[i]) && rows[i].target == x
  {
    hide Active, InDb, Occupied;
    ActiveIsSafe(db, rows);
    ActiveMapIs(db, rows);
    var m := ActiveMap(db, rows);
    PresentAfter(db, m, x);
    if x in m.Values {
      var k :| k in m && m[k] == x;
      var i := ActiveRow(db, rows, k);
    }
  }

  predicate Reverse(a: Row, b: Row) {
    a.source == b.target && a.target == b.source
  }

  /** After an accepted run a rename row is active exactly when it reverses a row that run
      rewrote, and no target is occupied. */
  lemma ActiveAgain(db: Db, rows: seq<Row>, j: nat)
    requires Shaped(db) && Sound(rows) && Accepted(db, rows) && j < |rows|
    ensures Active(After(db, rows), rows[j]) <==>
              exists i :: 0 <= i < |rows| && Active(db, rows[i]) && Reverse(rows[i], rows[j])
    ensures !Occupied(After(db, rows), rows[j])
  {
    hide InDb, Outcome, After;
    LeftByRun(db, rows, rows[j].source);
    LeftByRun(db, rows, rows[j].target);
    NotOccupied(db, rows);
    if rows[j].source != rows[j].target {
      if i :| 0 <= i < |rows| && Active(db, rows[i]) && rows[i].target == rows[j].source {
        assert Reverse(rows[i], rows[j]);
        assert !Occupied(db, rows[i]);
      }
    }
  }

  lemma NotOccupied(db: Db, rows: seq<Row>)
    requires Shaped(db) && Accepted(db, rows)
    ensures forall i :: 0 <= i < |rows| ==> !Occupied(db, rows[i])
    ensures forall x :: InDb(db, x) ==> Named(rows, x)
    ensures rows != [] && !MixedTalk(After(db, rows).conversations)
  {
    hide InDb, Named, MixedTalk, ActiveMap, Occupied, After;
  }

  /** Only the names of the manifest are left, so a second run knows every identity. */
  lemma StillNamed(db: Db, rows: seq<Row>, x: string)
    requires Shaped(db) && Sound(rows) && Accepted(db, rows) && InDb(After(db, rows), x)
    ensures Named(rows, x)
  {
    hide InDb, Outcome, After, Active;
    LeftByRun(db, rows, x);
    NotOccupied(db, rows);
  }

  lemma {:induction false} NothingActive(db: Db, rows: seq<Row>)
    requires Shaped(db)
    ensures ActiveMap(db, rows) == map[] <==> forall i :: 0 <= i < |rows| ==> !Active(db, rows[i])
  {
    hide Active;
    if rows != [] {
      var k := |rows| - 1;
      NothingActive(db, rows[..k]);
      if forall i :: 0 <= i < k ==> !Active(db, rows[..k][i]) {
        assert forall i :: 0 <= i < k ==> !Active(db, rows[i]) by {
          forall i | 0 <= i < k ensures !Active(db, rows[i]) { assert rows[..k][i] == rows[i]; }
        }
        if Active(db, rows[k]) { assert rows[k].source in ActiveMap(db, rows); }
      } else {
        var i :| 0 <= i < k && Active(db, rows[..k][i]);
        assert Active(db, rows[i]);
        assert ActiveMap(db, rows[..k]) != map[];
        var x :| x in ActiveMap(db, rows[..k]);
        assert x in ActiveMap(db, rows);
      }
    }
  }

  lemma RenamingNothing(db: Db)
    requires Shaped(db)
    ensures RenameAll(db, map[]) == db
  {
    var r := RenameAll(db, map[]);
    forall t | 0 <= t < 5 ensures r.tables[t] == db.tables[t] {
      forall i | 0 <= i < |db.tables[t]| ensures r.tables[t][i] == db.tables[t][i] {
        assert r.tables[t][i].ids == db.tables[t][i].ids;
      }
    }
    forall i | 0 <= i < |db.conversations| ensures r.conversations[i] == db.conversations[i] {
      assert r.conversations[i].participants == db.conversations[i].participants;
    }
  }

  /** Running an accepted manifest again does nothing, except exactly when the manifest also
      holds the reverse of a row that the first run rewrote. */
  lemma RerunIsNoOp(db: Db, rows: seq<Row>, apply: bool)
    requires Shaped(db) && Sound(rows) && Accepted(db, rows)
    ensures Outcome(After(db, rows), rows, apply).NoOp? <==>
              !exists i, j :: 0 <= i < |rows| && 0 <= j < |rows| && Active(db, rows[i]) && Reverse(rows[i], rows[j])
    ensures !Outcome(After(db, rows), rows, apply).UnknownIdentity?
    ensures !Outcome(After(db, rows), rows, apply).TargetOccupied?
  {
    hide InDb, After, Active, Occupied, Named;
    var after := After(db, rows);
    NotOccupied(db, rows);
    forall x | InDb(after, x) ensures Named(rows, x) { StillNamed(db, rows, x); }
    forall j | 0 <= j < |rows|
      ensures Active(after, rows[j]) <==>
                exists i :: 0 <= i < |rows| && Active(db, rows[i]) && Reverse(rows[i], rows[j])
      ensures !Occupied(after, rows[j])
    {
      ActiveAgain(db, rows, j);
    }
    NothingActive(after, rows);
    if ActiveMap(after, rows) == map[] {
      UnchangedTalk(after, rows);
    }
  }

  const LONE: Db := Db([[Entry(["a"], "", "")], [], [], [], []], [])
  const BOTH_WAYS: seq<Row> := [
    Row(JK, "a", "personal.a", Migrate, "o", "e", false, 2),
    Row(JK, "personal.a", "a", Migrate, "o", "e", false, 3)]

  lemma NamesInLone(x: string)
    ensures Shaped(LONE) && (InDb(LONE, x) <==> x == "a")
  {
    assert Everyone(LONE.conversations) == [];
    forall s | 0 < s < SURFACES ensures Cells(LONE, s) == [] {}
    assert Cells(LONE, 0) == ["a"];
    assert x in ["a"] <==> x == "a";
  }

  /** It happens: with a row and its reverse in the manifest, the second run rewrites back. */
  lemma ReverseRerunRewrites()
    ensures Shaped(LONE) && Sound(BOTH_WAYS) && Accepted(LONE, BOTH_WAYS)
    ensures !Outcome(After(LONE, BOTH_WAYS), BOTH_WAYS, true).NoOp?
  {
    hide InDb, Outcome, After;
    NamesInLone("a");
    NamesInLone("personal.a");
    assert Active(LONE, BOTH_WAYS[0]) && Reverse(BOTH_WAYS[0], BOTH_WAYS[1]);
    LoneIsAccepted();
    RerunIsNoOp(LONE, BOTH_WAYS, true);
  }

  lemma LoneIsAccepted()
    ensures Shaped(LONE) && Accepted(LONE, BOTH_WAYS)
  {
    hide InDb, ActiveMap;
    forall x | InDb(LONE, x) ensures Named(BOTH_WAYS, x) {
      NamesInLone(x);
      assert BOTH_WAYS[0].source == "a";
    }
    NamesInLone("personal.a");
    assert After(LONE, BOTH_WAYS).conversations == [];
  }

  lemma UnchangedTalk(db: Db, rows: seq<Row>)
    requires Shaped(db) && ActiveMap(db, rows) == map[]
    ensures After(db, rows) == db
  {
    RenamingNothing(db);
  }

  // ---- undoing ----

  /** The rows of the inverse that are active after a run: those whose target is then present. */
  lemma InverseActive(db: Db, rows: seq<Row>, j: nat)
    requires Shaped(db) && Sound(rows) && Accepted(db, rows) && j < |rows|
    ensures rows[j].source != rows[j].target ==>
              (Active(After(db, rows), Swap(rows[j])) <==>
                 Active(db, rows[j])
                 || (InDb(db, rows[j].target)
                     && !(exists i :: 0 <= i < |rows| && Active(db, rows[i]) && Reverse(rows[i], rows[j]))))
    ensures !Occupied(After(db, rows), Swap(rows[j]))
  {
    hide InDb, Outcome, After;
    NotOccupied(db, rows);
    ActiveAgain(db, rows, j);
    LeftByRun(db, rows, rows[j].target);
    if i :| 0 <= i < |rows| && Active(db, rows[i]) && rows[i].source == rows[j].target
            && rows[j].source != rows[j].target {
      assert i != j;
      assert Reverse(rows[i], rows[j]);
    }
  }

  /** Some row was already applied and the manifest does not hold its reverse. */
  ghost predicate Overshoots(db: Db, rows: seq<Row>)
    requires Shaped(db)
  {
    exists k :: Unreversed(db, rows, k)
  }

  predicate HasReverse(rows: seq<Row>, row: Row) {
    exists i :: 0 <= i < |rows| && Reverse(rows[i], row)
  }

  /** The inverse takes an identity of the first database back to itself, unless it is the
      target of a row that was already applied and is not reversed in the manifest. */
  lemma RoundTrip(db: Db, rows: seq<Row>, y: string)
    requires Shaped(db) && Sound(rows) && Accepted(db, rows) && InDb(db, y)
    ensures Sub(ActiveMap(After(db, rows), Inverse(rows)), Sub(ActiveMap(db, rows), y)) != y <==>
              exists k :: Unreversed(db, rows, k) && rows[k].target == y
  {
    hide InDb, Outcome, After, Sound, Occupied;
    var m := ActiveMap(db, rows);
    var after, inverse := After(db, rows), Inverse(rows);
    InverseIsSound(rows);
    NotOccupied(db, rows);
    ActiveMapIs(db, rows);
    ActiveMapIs(after, inverse);
    if y in m {
      var i := ActiveRow(db, rows, y);
      RoundTripActive(db, rows, i);
    } else {
      RoundTripIdle(db, rows, y);
    }
  }

  lemma RoundTripActive(db: Db, rows: seq<Row>, i: nat)
    requires Shaped(db) && Sound(rows) && Accepted(db, rows) && i < |rows| && Active(db, rows[i])
    ensures Sub(ActiveMap(After(db, rows), Inverse(rows)), rows[i].target) == rows[i].source
    ensures !exists k :: Unreversed(db, rows, k) && rows[k].target == rows[i].source
  {
    hide InDb, Outcome, After, Accepted, ActiveMap, Sound;
    InverseIsSound(rows);
    InverseActive(db, rows, i);
    assert Inverse(rows)[i] == Swap(rows[i]);
    EveryActiveRow(After(db, rows), Inverse(rows), i);
    forall k | 0 <= k < |rows| && rows[k].target == rows[i].source ensures HasReverse(rows, rows[k]) {
      ChainReverses(rows, i, k);
    }
  }

  lemma ChainReverses(rows: seq<Row>, i: nat, k: nat)
    requires Sound(rows) && i < |rows| && k < |rows|
    requires rows[k].target == rows[i].source && rows[i].source != rows[i].target
    ensures HasReverse(rows, rows[k])
  {
    assert i != k;
    assert Reverse(rows[i], rows[k]);
  }

  ghost predicate Unreversed(db: Db, rows: seq<Row>, k: int)
    requires Shaped(db)
  {
    0 <= k < |rows| && AlreadyApplied(db, rows[k]) && !HasReverse(rows, rows[k])
  }

  lemma RoundTripIdle(db: Db, rows: seq<Row>, y: string)
    requires Shaped(db) && Sound(rows) && Accepted(db, rows) && InDb(db, y) && y !in ActiveMap(db, rows)
    ensures Sub(ActiveMap(After(db, rows), Inverse(rows)), y) != y <==>
              exists k :: Unreversed(db, rows, k) && rows[k].target == y
  {
    hide InDb, Outcome, After, Sound, Active, ActiveMap, AlreadyApplied, HasReverse, Accepted;
    var after, inverse := After(db, rows), Inverse(rows);
    InverseIsSound(rows);
    if y in ActiveMap(after, inverse) {
      var j := ActiveRow(after, inverse, y);
      assert inverse[j] == Swap(rows[j]);
      IdleTarget(db, rows, j);
    }
    if k :| Unreversed(db, rows, k) && rows[k].target == y {
      UnreversedMoves(db, rows, k);
    }
  }

  lemma IdleTarget(db: Db, rows: seq<Row>, j: nat)
    requires Shaped(db) && Sound(rows) && Accepted(db, rows) && j < |rows|
    requires InDb(db, rows[j].target) && rows[j].target !in ActiveMap(db, rows)
    requires Active(After(db, rows), Swap(rows[j]))
    ensures Unreversed(db, rows, j)
  {
    hide InDb, Outcome, After, Sound, ActiveMap;
    assert rows[j].source != rows[j].target;
    NoReverseOfIdle(db, rows, j);
    NotOccupied(db, rows);
    assert !Occupied(db, rows[j]);
  }

  lemma UnreversedMoves(db: Db, rows: seq<Row>, k: int)
    requires Shaped(db) && Sound(rows) && Accepted(db, rows) && Unreversed(db, rows, k)
    ensures Sub(ActiveMap(After(db, rows), Inverse(rows)), rows[k].target) == rows[k].source
    ensures rows[k].source != rows[k].target
  {
    hide InDb, Outcome, After, Sound, ActiveMap, Accepted;
    InverseIsSound(rows);
    InverseActive(db, rows, k);
    assert Inverse(rows)[k] == Swap(rows[k]);
    EveryActiveRow(After(db, rows), Inverse(rows), k);
  }

  /** A reverse of a row whose target is present but not renamed cannot exist. */
  lemma NoReverseOfIdle(db: Db, rows: seq<Row>, j: nat)
    requires Shaped(db) && Sound(rows) && j < |rows| && rows[j].source != rows[j].target
    requires InDb(db, rows[j].target) && rows[j].target !in ActiveMap(db, rows)
    ensures !HasReverse(rows, rows[j])
  {
    hide InDb;
    if i :| 0 <= i < |rows| && Reverse(rows[i], rows[j]) {
      assert Active(db, rows[i]);
      ActiveMapIs(db, rows);
      assert false;
    }
  }

  /** Two renamings in turn are one renaming of the database when they are one on every cell. */
  lemma RenamedTwice(db: Db, m: map<string, string>, back: map<string, string>, once: map<string, string>)
    requires Shaped(db) && "" !in m && "" !in back && "" !in once
    requires forall y :: InDb(db, y) ==> Sub(back, Sub(m, y)) == Sub(once, y)
    ensures RenameAll(RenameAll(db, m), back) == RenameAll(db, once)
  {
    hide InDb;
    var r, q := RenameAll(RenameAll(db, m), back), RenameAll(db, once);
    forall t | 0 <= t < 5 ensures r.tables[t] == q.tables[t] {
      forall i | 0 <= i < |db.tables[t]| ensures r.tables[t][i] == q.tables[t][i] {
        EntryRenamedTwice(db, m, back, once, t, i);
      }
    }
    forall i | 0 <= i < |db.conversations| ensures r.conversations[i] == q.conversations[i] {
      var names := db.conversations[i].participants;
      forall p | 0 <= p < |names| ensures Sub(back, Sub(m, names[p])) == Sub(once, names[p]) {
        TalkCell(db, i, p);
      }
      assert r.conversations[i].participants == q.conversations[i].participants;
    }
  }

  lemma EntryRenamedTwice(db: Db, m: map<string, string>, back: map<string, string>, once: map<string, string>,
                          t: nat, i: nat)
    requires Shaped(db) && "" !in m && "" !in back && "" !in once && t < 5 && i < |db.tables[t]|
    requires forall y :: InDb(db, y) ==> Sub(back, Sub(m, y)) == Sub(once, y)
    ensures RenameAll(RenameAll(db, m), back).tables[t][i] == RenameAll(db, once).tables[t][i]
  {
    hide InDb;
    var e := db.tables[t][i];
    var r, q := RenameAll(RenameAll(db, m), back).tables[t][i], RenameAll(db, once).tables[t][i];
    forall c | 0 <= c < |e.ids| ensures r.ids[c] == q.ids[c] {
      EntryCell(db, t, i, c);
    }
    assert r.ids == q.ids;
  }

  lemma TalkCell(db: Db, i: nat, p: nat)
    requires Shaped(db) && i < |db.conversations| && p < |db.conversations[i].participants|
    ensures Cell(db, db.conversations[i].participants[p])
  {
    InEveryone(db.conversations, i, p);
    assert db.conversations[i].participants[p] in Cells(db, PARTICIPANTS);
  }

  lemma {:induction false} InEveryone(conversations: seq<Conversation>, i: nat, p: nat)
    requires i < |conversations| && p < |conversations[i].participants|
    ensures conversations[i].participants[p] in Everyone(conversations)
  {
    if i < |conversations| - 1 { InEveryone(conversations[..|conversations| - 1], i, p); }
  }

  lemma CellMoves(db: Db, m: map<string, string>, y: string)
    requires Shaped(db) && InDb(db, y) && Sub(m, y) != y
    ensures RenameAll(db, m) != db
  {
    var s :| 0 <= s < SURFACES && y in Cells(db, s);
    CellsRenamed(db, m, s);
    var i :| 0 <= i < |Cells(db, s)| && Cells(db, s)[i] == y;
    assert Cells(RenameAll(db, m), s)[i] != y;
  }

  /** The renaming that an undo leaves behind: the target of every row that was already applied
      before the first run, and is not reversed in the manifest, goes back to its source. */
  ghost predicate LeftBehind(db: Db, rows: seq<Row>, left: map<string, string>)
    requires Shaped(db)
  {
    && (forall k :: Unreversed(db, rows, k) ==> rows[k].target in left && left[rows[k].target] == rows[k].source)
    && (forall y :: y in left ==> exists k :: Unreversed(db, rows, k) && rows[k].target == y)
  }

  lemma RoundTripIs(db: Db, rows: seq<Row>, left: map<string, string>, y: string)
    requires Shaped(db) && Sound(rows) && Accepted(db, rows) && InDb(db, y) && LeftBehind(db, rows, left)
    ensures Sub(ActiveMap(After(db, rows), Inverse(rows)), Sub(ActiveMap(db, rows), y)) == Sub(left, y)
  {
    hide InDb, Outcome, After, Sound, Active, ActiveMap, AlreadyApplied, HasReverse, Accepted;
    RoundTrip(db, rows, y);
    if k :| Unreversed(db, rows, k) && rows[k].target == y {
      UnreversedMoves(db, rows, k);
      UnreversedIdle(db, rows, k);
    }
  }

  lemma UnreversedIdle(db: Db, rows: seq<Row>, k: nat)
    requires Shaped(db) && Sound(rows) && Unreversed(db, rows, k)
    ensures rows[k].target !in ActiveMap(db, rows)
  {
    hide InDb, Outcome, ActiveMap;
    if rows[k].target in ActiveMap(db, rows) {
      var i := ActiveRow(db, rows, rows[k].target);
      ChainReverses(rows, i, k);
    }
  }

  lemma NothingLeft(db: Db, rows: seq<Row>, left: map<string, string>)
    requires Shaped(db) && Sound(rows) && LeftBehind(db, rows, left)
    ensures "" !in left
    ensures RenameAll(db, left) == db <==> !Overshoots(db, rows)
  {
    hide InDb, HasReverse;
    if Overshoots(db, rows) {
      var k :| Unreversed(db, rows, k);
      CellMoves(db, left, rows[k].target);
    } else {
      assert left == map[];
      RenamingNothing(db);
    }
  }

  /** Running the inverse manifest after an accepted run finds every identity named and no
      target occupied; as a substitution the two runs amount to what is left behind; and the
      second is refused exactly when that would mix private scopes in a conversation. */
  lemma UndoIs(db: Db, rows: seq<Row>, left: map<string, string>, apply: bool)
    requires Shaped(db) && Sound(rows) && Accepted(db, rows) && LeftBehind(db, rows, left)
    ensures After(After(db, rows), Inverse(rows)) == RenameAll(db, left)
    ensures !Outcome(After(db, rows), Inverse(rows), apply).UnknownIdentity?
    ensures !Outcome(After(db, rows), Inverse(rows), apply).TargetOccupied?
    ensures !Outcome(After(db, rows), Inverse(rows), apply).ManifestAuthority?
    ensures Outcome(After(db, rows), Inverse(rows), apply).MixedScope? <==>
              MixedTalk(RenameTalk(left, db.conversations))
  {
    hide InDb, Active, Occupied, Named, MixedTalk, ActiveMap, LeftBehind;
    InversePreflight(db, rows);
    NotOccupied(db, rows);
    InverseIsSound(rows);
    NoEmptySource(db, rows);
    NoEmptySource(After(db, rows), Inverse(rows));
    NothingLeft(db, rows, left);
    forall y | InDb(db, y)
      ensures Sub(ActiveMap(After(db, rows), Inverse(rows)), Sub(ActiveMap(db, rows), y)) == Sub(left, y)
    {
      RoundTripIs(db, rows, left, y);
    }
    RenamedTwice(db, ActiveMap(db, rows), ActiveMap(After(db, rows), Inverse(rows)), left);
  }

  /** The rows that determine what is left behind always do so. */
  lemma SomethingLeft(db: Db, rows: seq<Row>) returns (left: map<string, string>)
    requires Shaped(db) && Sound(rows)
    ensures LeftBehind(db, rows, left)
  {
    hide InDb, AlreadyApplied, HasReverse;
    left := map[];
    var i := 0;
    while i < |rows|
      invariant 0 <= i <= |rows|
      invariant forall k :: 0 <= k < i && Unreversed(db, rows, k) ==>
                  rows[k].target in left && left[rows[k].target] == rows[k].source
      invariant forall y :: y in left ==> exists k :: Unreversed(db, rows, k) && rows[k].target == y
    {
      if Unreversed(db, rows, i) { left := left[rows[i].target := rows[i].source]; }
      i := i + 1;
    }
  }

  /** After an accepted run the inverse run is accepted and restores the whole database if and
      only if no row was already applied before the first run without its reverse in the
      manifest, and no conversation mixed the private scopes to begin with. */
  lemma UndoRestores(db: Db, rows: seq<Row>)
    requires Shaped(db) && Sound(rows) && Accepted(db, rows)
    ensures (Accepted(After(db, rows), Inverse(rows)) && After(After(db, rows), Inverse(rows)) == db)
            <==> !Overshoots(db, rows) && !MixedTalk(db.conversations)
  {
    hide InDb, After, MixedTalk, LeftBehind, Overshoots;
    var left := SomethingLeft(db, rows);
    UndoIs(db, rows, left, true);
    NothingLeft(db, rows, left);
    TalkOf(db, left);
  }

  lemma TalkOf(db: Db, m: map<string, string>)
    requires Shaped(db)
    ensures RenameAll(db, m).conversations == RenameTalk(m, db.conversations)
  {
  }

  const MIXED: Db := Db([[], [], [], [], []], [Conversation("c", ["personal.a", "ucla.b"], "")])
  const UNPREFIX: seq<Row> := [
    Row(JK, "personal.a", "a", Migrate, "o", "e", false, 2),
    Row(JK, "ucla.b", "ucla.b", Unchanged, "o", "e", false, 3)]

  lemma ScopesInMixed()
    ensures ExplicitScope("personal.a") == Some(PERSONAL) && ExplicitScope("ucla.b") == Some(UCLA_SCOPE)
    ensures ExplicitScope("a") == None
  {
    PrefixedScope(JK, "a");
    PrefixedScope(UCLA, "b");
    assert Prefixed(JK, "a") == "personal.a" && Prefixed(UCLA, "b") == "ucla.b";
    assert Dot("a", 0) == 1;
  }

  lemma NamesInMixed(x: string)
    ensures Shaped(MIXED) && (InDb(MIXED, x) <==> x == "personal.a" || x == "ucla.b")
  {
    hide Cells;
    MixedCells();
    var names := ["personal.a", "ucla.b"];
    assert x in names <==> x == names[0] || x == names[1];
  }

  lemma MixedCells()
    ensures Shaped(MIXED) && Cells(MIXED, PARTICIPANTS) == ["personal.a", "ucla.b"]
    ensures forall s :: 0 <= s < PARTICIPANTS ==> Cells(MIXED, s) == []
  {
    assert Everyone(MIXED.conversations) == ["personal.a", "ucla.b"] by { assert MIXED.conversations[..0] == []; }
  }

  lemma MixedActiveMap()
    ensures Shaped(MIXED) && ActiveMap(MIXED, UNPREFIX) == map["personal.a" := "a"]
  {
    hide InDb;
    NamesInMixed("personal.a");
    NamesInMixed("ucla.b");
    assert UNPREFIX[..1] == [UNPREFIX[0]] && UNPREFIX[..1][..0] == [];
    assert ActiveMap(MIXED, UNPREFIX[..1][..0]) == map[];
    assert ActiveMap(MIXED, UNPREFIX[..1]) == map["personal.a" := "a"];
  }

  lemma MixedRunIsAccepted()
    ensures Shaped(MIXED) && Accepted(MIXED, UNPREFIX)
  {
    hide InDb, ExplicitScope, ActiveMap;
    MixedActiveMap();
    ScopesInMixed();
    forall x | InDb(MIXED, x) ensures Named(UNPREFIX, x) {
      NamesInMixed(x);
      assert UNPREFIX[0].source == "personal.a" && UNPREFIX[1].source == "ucla.b";
    }
    NamesInMixed("a");
    assert forall i :: 0 <= i < |UNPREFIX| ==> !Occupied(MIXED, UNPREFIX[i]);
    var m := map["personal.a" := "a"];
    var names := SubAll(m, ["personal.a", "ucla.b"]);
    assert names[0] == "a" && names[1] == "ucla.b" && !Mixed(names);
    assert After(MIXED, UNPREFIX).conversations[0].participants == names;
    assert "personal.a" in m;
  }

  /** It happens: a backward row takes the prefix from one side of a mixed conversation. The run
      is accepted and nothing was already applied, and yet the undo is refused. */
  lemma MixedUndoIsRefused()
    ensures forall i :: 0 <= i < |UNPREFIX| ==> MappingError(UNPREFIX[i]).None?
    ensures Shaped(MIXED) && Sound(UNPREFIX) && Accepted(MIXED, UNPREFIX) && !Overshoots(MIXED, UNPREFIX)
    ensures Outcome(After(MIXED, UNPREFIX), Inverse(UNPREFIX), true).MixedScope?
  {
    hide InDb, ExplicitScope, Outcome, After, Dot, Accepted, Overshoots;
    ScopesInMixed();
    MixedRunIsAccepted();
    UnprefixIsValid();
    NothingLeftOfMixed();
    UndoIs(MIXED, UNPREFIX, map[], true);
    var names := RenameTalk(map[], MIXED.conversations)[0].participants;
    assert names[0] == "personal.a" && names[1] == "ucla.b";
    assert Mixed(names);
  }

  lemma UnprefixIsValid()
    ensures Sound(UNPREFIX) && forall i :: 0 <= i < |UNPREFIX| ==> MappingError(UNPREFIX[i]).None?
  {
    hide ExplicitScope, Dot;
    ScopesInMixed();
    assert UNPREFIX[0].source == Prefixed(JK, UNPREFIX[0].target) by { assert Prefixed(JK, "a") == "personal.a"; }
  }

  lemma NothingLeftOfMixed()
    ensures Shaped(MIXED) && LeftBehind(MIXED, UNPREFIX, map[]) && !Overshoots(MIXED, UNPREFIX)
  {
    hide InDb;
    NamesInMixed("a");
    NamesInMixed("personal.a");
  }

  lemma NoEmptySource(db: Db, rows: seq<Row>)
    requires Shaped(db) && Sound(rows)
    ensures "" !in ActiveMap(db, rows)
  {
    if "" in ActiveMap(db, rows) { var i := ActiveRow(db, rows, ""); }
  }

  lemma InversePreflight(db: Db, rows: seq<Row>)
    requires Shaped(db) && Sound(rows) && Accepted(db, rows)
    ensures forall x :: InDb(After(db, rows), x) ==> Named(Inverse(rows), x)
    ensures forall i :: 0 <= i < |rows| ==> !Occupied(After(db, rows), Inverse(rows)[i])
  {
    hide InDb, Active, Occupied, Outcome, After;
    var inverse := Inverse(rows);
    forall x | InDb(After(db, rows), x) ensures Named(inverse, x) {
      StillNamed(db, rows, x);
      var i :| 0 <= i < |rows| && (rows[i].source == x || rows[i].target == x);
      assert inverse[i] == Swap(rows[i]);
    }
    forall i | 0 <= i < |rows| ensures !Occupied(After(db, rows), inverse[i]) {
      InverseActive(db, rows, i);
      assert inverse[i] == Swap(rows[i]);
    }
  }

  // ---- manifests that only add prefixes ----

  ghost predicate AllForward(rows: seq<Row>) {
    forall i :: 0 <= i < |rows| ==> rows[i].source == rows[i].target || Forward(rows[i])
  }

  /** In an all-forward manifest no row is reversed, so a re-run is always a no-op, and when no
      target was present at first the inverse passes preflight and restores everything. */
  lemma ForwardRunAndUndo(db: Db, rows: seq<Row>, apply: bool)
    requires Shaped(db) && Sound(rows) && AllForward(rows) && Accepted(db, rows)
    ensures Outcome(After(db, rows), rows, apply).NoOp?
    ensures (After(After(db, rows), Inverse(rows)) == db && Accepted(After(db, rows), Inverse(rows)))
            <==> forall i :: 0 <= i < |rows| && rows[i].source != rows[i].target ==> !InDb(db, rows[i].target)
  {
    hide InDb, After, Outcome, Accepted, Occupied;
    NoReverseInForward(rows);
    RerunIsNoOp(db, rows, apply);
    UndoRestores(db, rows);
    NotOccupied(db, rows);
    if MixedTalk(db.conversations) { ForwardKeepsMixed(db, rows); }
    if Overshoots(db, rows) {
      var k :| Unreversed(db, rows, k);
      assert InDb(db, rows[k].target) && rows[k].source != rows[k].target;
    } else {
      forall i | 0 <= i < |rows| && rows[i].source != rows[i].target ensures !InDb(db, rows[i].target) {
        assert !Unreversed(db, rows, i);
        AbsentTarget(db, rows[i]);
      }
    }
  }

  /** The same for a parsed manifest and its parsed inverse, as two runs under one authority
      select their rows. */
  lemma ManifestUndo(records: seq<seq<string>>, rows: seq<Row>, authority: Authority, db: Db)
    requires Parses(records, rows) && Shaped(db)
    requires AllForward(Selected(rows, authority)) && Accepted(db, Selected(rows, authority))
    ensures var after := After(db, Selected(rows, authority));
            var undo := Selected(Inverse(rows), authority);
            && (Accepted(after, undo) && After(after, undo) == db <==>
                  forall i :: 0 <= i < |Selected(rows, authority)| ==>
                    var row := Selected(rows, authority)[i];
                    row.source != row.target ==> !InDb(db, row.target))
            && Parses(Written(Inverse(rows)), Inverse(rows))
  {
    hide InDb, After, Accepted, Parses, Selected, AllForward;
    SelectionIsSound(records, rows, authority);
    SelectionOfInverse(rows, authority);
    InverseParses(records, rows);
    ForwardRunAndUndo(db, Selected(rows, authority), true);
  }

  lemma AbsentTarget(db: Db, row: Row)
    requires Shaped(db) && row.source != row.target && !Occupied(db, row) && !AlreadyApplied(db, row)
    ensures !InDb(db, row.target)
  {
  }

  lemma NoReverseInForward(rows: seq<Row>)
    requires Sound(rows) && AllForward(rows)
    ensures forall i, j :: 0 <= i < |rows| && 0 <= j < |rows| && rows[i].source != rows[i].target ==>
              !Reverse(rows[i], rows[j])
    ensures forall i :: 0 <= i < |rows| && rows[i].source != rows[i].target ==> !HasReverse(rows, rows[i])
  {
    forall i, j | 0 <= i < |rows| && 0 <= j < |rows| && rows[i].source != rows[i].target
      ensures !Reverse(rows[i], rows[j]) && !Reverse(rows[j], rows[i])
    {
      ForwardIsNotReversed(rows[i], rows[j]);
    }
  }

  lemma ForwardIsNotReversed(a: Row, b: Row)
    requires Forward(a) && (b.source == b.target || Forward(b)) && a.source != a.target
    ensures !Reverse(a, b)
  {
    PrefixedScope(a.authority, a.source);
  }

  /** Prefixing never hides a mixed conversation, so an accepted all-forward run starts from
      conversations of one scope. */
  lemma ForwardKeepsMixed(db: Db, rows: seq<Row>)
    requires Shaped(db) && Sound(rows) && AllForward(rows) && MixedTalk(db.conversations)
    ensures MixedTalk(After(db, rows).conversations)
  {
    hide InDb, ExplicitScope, ActiveMap, Sound;
    var m := ActiveMap(db, rows);
    forall x | HasScope(x) ensures Sub(m, x) == x {
      if x in m { var i := ActiveRow(db, rows, x); }
    }
    var i :| 0 <= i < |db.conversations| && Mixed(db.conversations[i].participants);
    SubKeepsMixed(m, db.conversations[i].participants);
    assert Mixed(After(db, rows).conversations[i].participants);
  }

  lemma SubKeepsMixed(m: map<string, string>, names: seq<string>)
    requires Mixed(names) && forall x :: HasScope(x) ==> Sub(m, x) == x
    ensures Mixed(SubAll(m, names))
  {
    var p :| 0 <= p < |names| && ExplicitScope(names[p]) == Some(PERSONAL);
    var q :| 0 <= q < |names| && ExplicitScope(names[q]) == Some(UCLA_SCOPE);
    var now := SubAll(m, names);
    assert HasScope(names[p]) && HasScope(names[q]);
    assert now[p] == names[p] && now[q] == names[q];
  }
}
