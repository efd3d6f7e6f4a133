/** How a migration run ends and what it leaves, said in terms of the rows of the manifest and the
    columns of the database. */
module Preflights {
  import opened Model
  import opened Manifest
  import opened Rename
  import opened Plan
  import Rows

  // ---- what is in the database ----

  ghost predicate InColumn(rows: seq<Entry>, c: nat, x: string) {
    exists i :: 0 <= i < |rows| && c < |rows[i].ids| && rows[i].ids[c] == x
  }

  ghost predicate Participates(conversations: seq<Conversation>, x: string) {
    exists i :: 0 <= i < |conversations| && x in conversations[i].participants
  }

  /** The identity stands in an identity column: of an agent, as sender or addressee of a message,
      as target of a delivery or a cursor, as sender or addressee of a receipt, or as participant. */
  ghost predicate Present(db: Db, x: string)
    requires Shaped(db)
  {
    && x != ""
    && (InColumn(db.tables[0], 0, x) || InColumn(db.tables[1], 0, x) || InColumn(db.tables[1], 1, x)
        || InColumn(db.tables[2], 0, x) || InColumn(db.tables[3], 0, x) || InColumn(db.tables[4], 0, x)
        || InColumn(db.tables[4], 1, x) || Participates(db.conversations, x))
  }

  lemma {:induction false} EveryoneIs(conversations: seq<Conversation>, x: string)
    ensures x in Everyone(conversations) <==> Participates(conversations, x)
  {
    if conversations != [] {
      var k := |conversations| - 1;
      EveryoneIs(conversations[..k], x);
      if Participates(conversations[..k], x) {
        var i :| 0 <= i < k && x in conversations[..k][i].participants;
        assert x in conversations[i].participants;
      }
      if Participates(conversations, x) && x !in conversations[k].participants {
        var i :| 0 <= i < |conversations| && x in conversations[i].participants;
        assert x in conversations[..k][i].participants;
      }
    }
  }

  lemma CellsAre(db: Db, s: nat, x: string)
    requires Shaped(db) && s < 7
    ensures x in Cells(db, s) <==> InColumn(db.tables[COLUMNS[s].table], COLUMNS[s].column, x)
  {
    ColumnInRange(db, s);
    var t, c := COLUMNS[s].table, COLUMNS[s].column;
    if InColumn(db.tables[t], c, x) {
      var i :| 0 <= i < |db.tables[t]| && c < |db.tables[t][i].ids| && db.tables[t][i].ids[c] == x;
      assert Cells(db, s)[i] == x;
    }
  }

  /** The inspection looks at exactly these eight places. */
  lemma InDbIs(db: Db, x: string)
    requires Shaped(db)
    ensures InDb(db, x) <==> Present(db, x)
  {
    hide Cells, InColumn, Participates;
    CellsAre(db, 0, x);
    CellsAre(db, 1, x);
    CellsAre(db, 2, x);
    CellsAre(db, 3, x);
    CellsAre(db, 4, x);
    CellsAre(db, 5, x);
    CellsAre(db, 6, x);
    TalkIs(db, x);
  }

  lemma TalkIs(db: Db, x: string)
    requires Shaped(db)
    ensures x in Cells(db, 7) <==> Participates(db.conversations, x)
  {
    EveryoneIs(db.conversations, x);
  }

  // ---- how a run ends ----

  /** Row i of the manifest is one of the declared authority. */
  predicate Declares(manifest: seq<Row>, authority: Authority, i: int) {
    0 <= i < |manifest| && manifest[i].authority == authority
  }

  lemma {:induction false} SelectedIs(manifest: seq<Row>, authority: Authority, row: Row)
    ensures row in Selected(manifest, authority) <==>
              exists i :: Declares(manifest, authority, i) && manifest[i] == row
  {
    if manifest != [] {
      var k := |manifest| - 1;
      SelectedIs(manifest[..k], authority, row);
      if i :| Declares(manifest[..k], authority, i) && manifest[..k][i] == row {
        assert Declares(manifest, authority, i) && manifest[i] == row;
      }
      if i :| Declares(manifest, authority, i) && manifest[i] == row && i < k {
        assert Declares(manifest[..k], authority, i) && manifest[..k][i] == row;
      }
      if Declares(manifest, authority, k) && manifest[k] == row {}
    }
  }

  lemma SelectionIs(manifest: seq<Row>, authority: Authority)
    ensures forall i :: Declares(manifest, authority, i) ==> manifest[i] in Selected(manifest, authority)
    ensures forall row :: row in Selected(manifest, authority) ==>
              exists i :: Declares(manifest, authority, i) && manifest[i] == row
  {
    hide Selected;
    forall row | row in Selected(manifest, authority)
      ensures exists i :: Declares(manifest, authority, i) && manifest[i] == row
    {
      SelectedIs(manifest, authority, row);
    }
    forall i | Declares(manifest, authority, i) ensures manifest[i] in Selected(manifest, authority) {
      SelectedIs(manifest, authority, manifest[i]);
    }
  }

  /** The manifest names this identity, in a row of any disposition, also of the control plane. */
  ghost predicate Mentions(manifest: seq<Row>, authority: Authority, x: string) {
    exists i :: Declares(manifest, authority, i) && (manifest[i].source == x || manifest[i].target == x)
  }

  lemma MentionsIs(manifest: seq<Row>, authority: Authority, x: string)
    ensures Named(Selected(manifest, authority), x) <==> Mentions(manifest, authority, x)
  {
    hide Selected;
    SelectionIs(manifest, authority);
    var rows := Selected(manifest, authority);
    if Named(rows, x) {
      var i :| 0 <= i < |rows| && (rows[i].source == x || rows[i].target == x);
      assert rows[i] in rows;
      var j :| Declares(manifest, authority, j) && manifest[j] == rows[i];
    }
    if Mentions(manifest, authority, x) {
      var i :| Declares(manifest, authority, i) && (manifest[i].source == x || manifest[i].target == x);
      var j :| 0 <= j < |rows| && rows[j] == manifest[i];
    }
  }

  /** A run is refused for its authority exactly when the manifest has no row of it, and otherwise
      for an unknown identity exactly when some identity of the database is neither source nor
      target of any row of that authority, unchanged and control-plane rows included. */
  lemma UnknownWhen(db: Db, manifest: seq<Row>, authority: Authority, apply: bool)
    requires Shaped(db)
    ensures var status := Outcome(db, Selected(manifest, authority), apply);
            && (status.ManifestAuthority? <==> forall i :: !Declares(manifest, authority, i))
            && (status.UnknownIdentity? <==>
                  && (exists i :: Declares(manifest, authority, i))
                  && exists x :: Present(db, x) && !Mentions(manifest, authority, x))
  {
    hide Selected, InDb, Present, Named, Mentions, Occupied, MixedTalk, After, ActiveMap;
    var rows := Selected(manifest, authority);
    SelectionIs(manifest, authority);
    if rows != [] { assert rows[0] in rows; }
    forall x ensures InDb(db, x) <==> Present(db, x) { InDbIs(db, x); }
    forall x ensures Named(rows, x) <==> Mentions(manifest, authority, x) { MentionsIs(manifest, authority, x); }
    if x :| Present(db, x) && !Mentions(manifest, authority, x) { assert InDb(db, x) && !Named(rows, x); }
  }

  ghost predicate Rewrites(db: Db, manifest: seq<Row>, authority: Authority, i: int)
    requires Shaped(db)
  {
    Declares(manifest, authority, i) && manifest[i].source != manifest[i].target && Present(db, manifest[i].source)
  }

  /** Past these refusals: an occupied target when some row has both ids in the database, and
      without any refusal nothing to do exactly when no row that renames has its source there. */
  lemma OccupiedWhen(db: Db, manifest: seq<Row>, authority: Authority, apply: bool)
    requires Shaped(db)
    ensures var status := Outcome(db, Selected(manifest, authority), apply);
            && (!status.ManifestAuthority? && !status.UnknownIdentity? ==>
                  (status.TargetOccupied? <==>
                     exists i :: Rewrites(db, manifest, authority, i) && Present(db, manifest[i].target)))
            && (status.NoOp? || status.Applied? || status.DryRun? ==>
                  && (status.NoOp? <==> forall i :: !Rewrites(db, manifest, authority, i))
                  && (status.Applied? ==> apply) && (status.DryRun? ==> !apply))
  {
    hide Selected, InDb, Present, Named, MixedTalk, After, ActiveMap, Occupied, Active, Rewrites;
    var rows := Selected(manifest, authority);
    ActiveSome(db, rows);
    ActiveIs(db, manifest, authority);
    if rows != [] {
      SelectionIs(manifest, authority);
      assert rows[0] in rows;
    }
  }

  /** A row of the selection is a row of the manifest, and the other way round. */
  lemma SelectedAt(db: Db, manifest: seq<Row>, authority: Authority, i: nat) returns (j: nat)
    requires Shaped(db) && i < |Selected(manifest, authority)|
    ensures Declares(manifest, authority, j) && manifest[j] == Selected(manifest, authority)[i]
    ensures Active(db, manifest[j]) <==> Rewrites(db, manifest, authority, j)
    ensures Occupied(db, manifest[j]) <==> Rewrites(db, manifest, authority, j) && Present(db, manifest[j].target)
  {
    hide Selected, InDb, Present;
    SelectionIs(manifest, authority);
    assert Selected(manifest, authority)[i] in Selected(manifest, authority);
    j :| Declares(manifest, authority, j) && manifest[j] == Selected(manifest, authority)[i];
    InDbIs(db, manifest[j].source);
    InDbIs(db, manifest[j].target);
  }

  lemma DeclaredAt(db: Db, manifest: seq<Row>, authority: Authority, j: nat) returns (i: nat)
    requires Shaped(db) && Declares(manifest, authority, j)
    ensures i < |Selected(manifest, authority)| && Selected(manifest, authority)[i] == manifest[j]
    ensures Active(db, manifest[j]) <==> Rewrites(db, manifest, authority, j)
    ensures Occupied(db, manifest[j]) <==> Rewrites(db, manifest, authority, j) && Present(db, manifest[j].target)
  {
    hide Selected, InDb, Present;
    SelectionIs(manifest, authority);
    assert manifest[j] in Selected(manifest, authority);
    i :| 0 <= i < |Selected(manifest, authority)| && Selected(manifest, authority)[i] == manifest[j];
    InDbIs(db, manifest[j].source);
    InDbIs(db, manifest[j].target);
  }

  ghost predicate SomeActive(db: Db, rows: seq<Row>)
    requires Shaped(db)
  {
    exists i :: 0 <= i < |rows| && Active(db, rows[i])
  }

  ghost predicate SomeOccupied(db: Db, rows: seq<Row>)
    requires Shaped(db)
  {
    exists i :: 0 <= i < |rows| && Occupied(db, rows[i])
  }

  lemma ActiveIs(db: Db, manifest: seq<Row>, authority: Authority)
    requires Shaped(db)
    ensures SomeActive(db, Selected(manifest, authority)) <==> exists j :: Rewrites(db, manifest, authority, j)
    ensures SomeOccupied(db, Selected(manifest, authority)) <==>
              exists j :: Rewrites(db, manifest, authority, j) && Present(db, manifest[j].target)
  {
    hide Selected, InDb, Present, Active, Occupied;
    var rows := Selected(manifest, authority);
    if SomeActive(db, rows) {
      var i :| 0 <= i < |rows| && Active(db, rows[i]);
      var j := SelectedAt(db, manifest, authority, i);
      assert Rewrites(db, manifest, authority, j);
    }
    if SomeOccupied(db, rows) {
      var i :| 0 <= i < |rows| && Occupied(db, rows[i]);
      var j := SelectedAt(db, manifest, authority, i);
      assert Rewrites(db, manifest, authority, j);
    }
    if j :| Rewrites(db, manifest, authority, j) {
      var i := DeclaredAt(db, manifest, authority, j);
      assert Active(db, rows[i]);
    }
    if j :| Rewrites(db, manifest, authority, j) && Present(db, manifest[j].target) {
      var i := DeclaredAt(db, manifest, authority, j);
      assert Occupied(db, rows[i]);
    }
  }

  lemma {:induction false} ActiveSome(db: Db, rows: seq<Row>)
    requires Shaped(db)
    ensures ActiveMap(db, rows) != map[] <==> SomeActive(db, rows)
  {
    hide Active;
    if rows != [] {
      var k := |rows| - 1;
      ActiveSome(db, rows[..k]);
      if i :| 0 <= i < k && Active(db, rows[..k][i]) { assert Active(db, rows[i]); }
      if i :| 0 <= i < |rows| && Active(db, rows[i]) && i < k { assert Active(db, rows[..k][i]); }
      if Active(db, rows[k]) { assert rows[k].source in ActiveMap(db, rows); }
    }
  }

  // ---- what a run leaves ----

  /** Under these rows x becomes y: the target of the row whose source it is, or else itself. */
  ghost predicate Becomes(manifest: seq<Row>, authority: Authority, x: string, y: string) {
    || (exists i :: Declares(manifest, authority, i) && manifest[i].source == x && manifest[i].target == y)
    || (y == x && forall i :: Declares(manifest, authority, i) ==> manifest[i].source != x)
  }

  lemma SubBecomes(db: Db, manifest: seq<Row>, authority: Authority, x: string)
    requires Shaped(db) && Sound(Selected(manifest, authority)) && Cell(db, x)
    ensures Becomes(manifest, authority, x, Sub(ActiveMap(db, Selected(manifest, authority)), x))
  {
    hide Selected, InDb, ActiveMap;
    var rows := Selected(manifest, authority);
    var m := ActiveMap(db, rows);
    SelectionIs(manifest, authority);
    ActiveMapIs(db, rows);
    if x in m {
      var i := ActiveRow(db, rows, x);
      assert rows[i] in rows;
      var j :| Declares(manifest, authority, j) && manifest[j] == rows[i];
    } else if j :| Declares(manifest, authority, j) && manifest[j].source == x {
      var i :| 0 <= i < |rows| && rows[i] == manifest[j];
      assert !Active(db, rows[i]);
      assert manifest[j].target == x;
    }
  }

  /** The database that a run leaves when it applies: every identity in a table or a participant list
      has become what the rows of the authority say, and nothing else has changed. */
  lemma AppliedIs(db: Db, manifest: seq<Row>, authority: Authority)
    requires Shaped(db) && Sound(Selected(manifest, authority))
    ensures var r := After(db, Selected(manifest, authority));
            && (forall t :: 0 <= t < 5 ==> |r.tables[t]| == |db.tables[t]|)
            && (forall t, i :: 0 <= t < 5 && 0 <= i < |db.tables[t]| ==>
                  && r.tables[t][i].key == db.tables[t][i].key && r.tables[t][i].rest == db.tables[t][i].rest
                  && forall c :: 0 <= c < ARITY[t] ==>
                       Becomes(manifest, authority, db.tables[t][i].ids[c], r.tables[t][i].ids[c]))
            && |r.conversations| == |db.conversations|
            && (forall i :: 0 <= i < |db.conversations| ==>
                  TalkBecomes(manifest, authority, db.conversations[i], r.conversations[i]))
  {
    hide Selected, InDb, Becomes, Sound, ActiveMap, TalkBecomes, Sub;
    var rows := Selected(manifest, authority);
    var m := ActiveMap(db, rows);
    var r := After(db, rows);
    forall t, i | 0 <= t < 5 && 0 <= i < |db.tables[t]|
      ensures r.tables[t][i] == RenameEntry(t, db.tables[t][i], Same(m))
    {
    }
    forall t, i, c | 0 <= t < 5 && 0 <= i < |db.tables[t]| && 0 <= c < ARITY[t]
      ensures Becomes(manifest, authority, db.tables[t][i].ids[c], r.tables[t][i].ids[c])
    {
      EntryCell(db, t, i, c);
      SubBecomes(db, manifest, authority, db.tables[t][i].ids[c]);
    }
    forall i | 0 <= i < |db.conversations|
      ensures TalkBecomes(manifest, authority, db.conversations[i], r.conversations[i])
    {
      ConversationBecomes(db, manifest, authority, i);
    }
  }

  ghost predicate TalkBecomes(manifest: seq<Row>, authority: Authority, a: Conversation, b: Conversation) {
    && b.id == a.id && b.rest == a.rest && |b.participants| == |a.participants|
    && forall i :: 0 <= i < |a.participants| ==> Becomes(manifest, authority, a.participants[i], b.participants[i])
  }

  lemma ConversationBecomes(db: Db, manifest: seq<Row>, authority: Authority, i: nat)
    requires Shaped(db) && Sound(Selected(manifest, authority)) && i < |db.conversations|
    ensures TalkBecomes(manifest, authority, db.conversations[i],
                        After(db, Selected(manifest, authority)).conversations[i])
  {
    hide Selected, InDb, Becomes, Sound, ActiveMap, Sub, Cell;
    var a := db.conversations[i];
    forall k | 0 <= k < |a.participants| ensures Cell(db, a.participants[k]) {
      ParticipantCell(db, i, k);
    }
    forall k | 0 <= k < |a.participants|
      ensures Becomes(manifest, authority, a.participants[k],
                      Sub(ActiveMap(db, Selected(manifest, authority)), a.participants[k]))
    {
      SubBecomes(db, manifest, authority, a.participants[k]);
    }
  }

  lemma ParticipantCell(db: Db, i: nat, k: nat)
    requires Shaped(db) && i < |db.conversations| && k < |db.conversations[i].participants|
    ensures Cell(db, db.conversations[i].participants[k])
  {
    hide InDb;
    var x := db.conversations[i].participants[k];
    assert x in db.conversations[i].participants;
    if x != "" {
      assert Participates(db.conversations, x);
      InDbIs(db, x);
    }
  }

  /** Some conversation would have a participant of each private namespace. */
  ghost predicate WouldMix(db: Db, manifest: seq<Row>, authority: Authority) {
    exists i, j, k, y, z :: WouldMixAt(db, manifest, authority, i, j, k, y, z)
  }

  ghost predicate WouldMixAt(db: Db, manifest: seq<Row>, authority: Authority, i: int, j: int, k: int, y: string,
                             z: string) {
    && 0 <= i < |db.conversations|
    && 0 <= j < |db.conversations[i].participants| && 0 <= k < |db.conversations[i].participants|
    && Becomes(manifest, authority, db.conversations[i].participants[j], y) && "personal." <= y
    && Becomes(manifest, authority, db.conversations[i].participants[k], z) && "ucla." <= z
  }

  /** A run that gets so far is refused for mixed scopes exactly when some conversation, touched by
      the run or not, would then have a participant of each private namespace. */
  lemma MixedWhen(db: Db, manifest: seq<Row>, authority: Authority, apply: bool)
    requires Shaped(db) && Sound(Selected(manifest, authority))
    ensures var status := Outcome(db, Selected(manifest, authority), apply);
            !status.ManifestAuthority? && !status.UnknownIdentity? && !status.TargetOccupied? ==>
              (status.MixedScope? <==> WouldMix(db, manifest, authority))
  {
    hide Selected, InDb, Named, After, ActiveMap, Occupied, MixedTalk, Sound, WouldMix;
    MixedIs(db, manifest, authority);
  }

  lemma MixedIs(db: Db, manifest: seq<Row>, authority: Authority)
    requires Shaped(db) && Sound(Selected(manifest, authority))
    ensures MixedTalk(After(db, Selected(manifest, authority)).conversations) <==> WouldMix(db, manifest, authority)
  {
    hide Selected, Becomes, After, Sound;
    var r := After(db, Selected(manifest, authority));
    AppliedIs(db, manifest, authority);
    if MixedTalk(r.conversations) {
      var i :| 0 <= i < |r.conversations| && Mixed(r.conversations[i].participants);
      var b := r.conversations[i].participants;
      var j :| 0 <= j < |b| && ExplicitScope(b[j]) == Some(PERSONAL);
      var k :| 0 <= k < |b| && ExplicitScope(b[k]) == Some(UCLA_SCOPE);
      Rows.ScopeIs(b[j]);
      Rows.ScopeIs(b[k]);
      assert TalkBecomes(manifest, authority, db.conversations[i], r.conversations[i]);
      assert WouldMixAt(db, manifest, authority, i, j, k, b[j], b[k]);
    }
    if WouldMix(db, manifest, authority) {
      var i, j, k, y, z :| WouldMixAt(db, manifest, authority, i, j, k, y, z);
      var b := r.conversations[i].participants;
      assert TalkBecomes(manifest, authority, db.conversations[i], r.conversations[i]);
      BecomesOne(manifest, authority, db.conversations[i].participants[j], y, b[j]);
      BecomesOne(manifest, authority, db.conversations[i].participants[k], z, b[k]);
      Rows.ScopeIs(y);
      Rows.ScopeIs(z);
      assert ExplicitScope(b[j]) == Some(PERSONAL) && ExplicitScope(b[k]) == Some(UCLA_SCOPE);
      assert Mixed(b);
    }
  }

  /** An identity becomes one identity only. */
  lemma BecomesOne(manifest: seq<Row>, authority: Authority, x: string, y: string, z: string)
    requires Sound(Selected(manifest, authority))
    requires Becomes(manifest, authority, x, y) && Becomes(manifest, authority, x, z)
    ensures y == z
  {
    hide Selected;
    SelectionIs(manifest, authority);
    var rows := Selected(manifest, authority);
    if i :| Declares(manifest, authority, i) && manifest[i].source == x && manifest[i].target == y {
      var p :| 0 <= p < |rows| && rows[p] == manifest[i];
      var j :| Declares(manifest, authority, j) && manifest[j].source == x && manifest[j].target == z;
      var q :| 0 <= q < |rows| && rows[q] == manifest[j];
    }
  }

  // ---- keys ----

  predicate SameIds(a: Entry, b: Entry) {
    |a.ids| == |b.ids| && forall c :: 0 <= c < |a.ids| ==> a.ids[c] == b.ids[c]
  }

  /** What a run keeps: no two messages and no two conversations share their own id, and in every
      other table no two rows agree in all their identities and the rest of the key. */
  lemma KeysAre(db: Db)
    requires Shaped(db)
    ensures DbOk(db) <==>
              && (forall i, j :: 0 <= i < j < |db.tables[MESSAGES]| ==>
                    db.tables[MESSAGES][i].key != db.tables[MESSAGES][j].key)
              && (forall t, i, j :: 0 <= t < 5 && t != MESSAGES && 0 <= i < j < |db.tables[t]| ==>
                    !SameIds(db.tables[t][i], db.tables[t][j]) || db.tables[t][i].key != db.tables[t][j].key)
              && (forall i, j :: 0 <= i < j < |db.conversations| ==> db.conversations[i].id != db.conversations[j].id)
  {
    forall t, i, j | 0 <= t < 5 && 0 <= i < j < |db.tables[t]|
      ensures KeyOf(t, db.tables[t][i]) == KeyOf(t, db.tables[t][j]) <==>
                (t == MESSAGES || SameIds(db.tables[t][i], db.tables[t][j]))
                && db.tables[t][i].key == db.tables[t][j].key
    {
      if SameIds(db.tables[t][i], db.tables[t][j]) { assert db.tables[t][i].ids == db.tables[t][j].ids; }
    }
  }

  // ---- a run with a control-plane identity ----

  const PEOPLE: Db := Db([[Entry(["alice"], "", ""), Entry(["admin"], "", "")], [], [], [], []], [])
  const WITH_ADMIN: seq<Row> := [
    Row(JK, "alice", "personal.alice", Migrate, "o", "e", false, 2),
    Row(JK, "admin", "admin", Unchanged, "o", "e", true, 3)]

  lemma PeopleAre(x: string)
    ensures Shaped(PEOPLE) && (Present(PEOPLE, x) <==> x == "alice" || x == "admin")
  {
    var agents := PEOPLE.tables[0];
    assert agents[0].ids[0] == "alice" && agents[1].ids[0] == "admin";
    assert forall t :: 1 <= t < 5 ==> PEOPLE.tables[t] == [];
  }

  /** A database with a control-plane identity that the manifest leaves alone is known in full: both
      rows are acceptable, and the run is applied and renames the one other agent. */
  lemma ControlPlaneIsKnown()
    ensures Shaped(PEOPLE) && DbOk(PEOPLE) && Sound(Selected(WITH_ADMIN, JK))
    ensures MappingError(WITH_ADMIN[0]).None? && MappingError(WITH_ADMIN[1]).None?
    ensures Outcome(PEOPLE, Selected(WITH_ADMIN, JK), true).Applied?
    ensures After(PEOPLE, Selected(WITH_ADMIN, JK)).tables[0][0].ids == ["personal.alice"]
    ensures After(PEOPLE, Selected(WITH_ADMIN, JK)).tables[0][1].ids == ["admin"]
  {
    hide InDb, Present, Outcome, After, MappingError, Sound, Selected;
    WithAdminSelected();
    Rows.AcceptedMapping(WITH_ADMIN[0]);
    Rows.AcceptedMapping(WITH_ADMIN[1]);
    PeopleAfter();
    PeopleAccepted();
  }

  lemma PeopleActive()
    ensures Shaped(PEOPLE) && ActiveMap(PEOPLE, WITH_ADMIN) == map["alice" := "personal.alice"]
    ensures forall i :: 0 <= i < 2 ==> !Occupied(PEOPLE, WITH_ADMIN[i])
  {
    hide InDb, Present;
    PeopleAre("alice");
    PeopleAre("personal.alice");
    InDbIs(PEOPLE, "alice");
    InDbIs(PEOPLE, "personal.alice");
    var first := WITH_ADMIN[..1];
    assert first[..0] == [];
    assert ActiveMap(PEOPLE, []) == map[];
    assert ActiveMap(PEOPLE, first) == map["alice" := "personal.alice"];
  }

  lemma PeopleAfter()
    ensures Shaped(PEOPLE)
    ensures var r := After(PEOPLE, WITH_ADMIN);
            r.tables[0][0].ids == ["personal.alice"] && r.tables[0][1].ids == ["admin"] && r.conversations == []
  {
    hide ActiveMap;
    PeopleActive();
    var m := map["alice" := "personal.alice"];
    assert After(PEOPLE, WITH_ADMIN) == RenameAll(PEOPLE, m);
    assert RenameRows(0, PEOPLE.tables[0], Same(m))[0].ids[0] == "personal.alice";
    assert RenameRows(0, PEOPLE.tables[0], Same(m))[1].ids[0] == "admin";
  }

  lemma PeopleAccepted()
    ensures Shaped(PEOPLE) && Outcome(PEOPLE, WITH_ADMIN, true).Applied?
  {
    hide InDb, Present, After, ActiveMap;
    PeopleActive();
    PeopleAfter();
    forall x | InDb(PEOPLE, x) ensures Named(WITH_ADMIN, x) {
      InDbIs(PEOPLE, x);
      PeopleAre(x);
      assert WITH_ADMIN[0].source == "alice" && WITH_ADMIN[1].source == "admin";
    }
    assert "alice" in ActiveMap(PEOPLE, WITH_ADMIN);
    assert |WITH_ADMIN| == 2;
  }

  lemma WithAdminSelected()
    ensures Selected(WITH_ADMIN, JK) == WITH_ADMIN && Sound(WITH_ADMIN)
  {
    assert WITH_ADMIN[..1] == [WITH_ADMIN[0]] && WITH_ADMIN[..1][..0] == [];
    assert Selected([], JK) == [];
  }
}
