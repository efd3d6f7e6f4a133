/** Which records are rows of a manifest, which lists of records are manifests, and how a wrong
    one is blamed, said in terms of the fields. */
module Rows {
  import opened Model
  import opened Manifest
  import opened ManifestTool

  // ---- scopes ----

  /** The id is in one of the three namespaces. */
  predicate Scoped(id: string) {
    "personal." <= id || "ucla." <= id || "shared." <= id
  }

  lemma PrefixOfScope(id: string, scope: string)
    requires forall i :: 0 <= i < |scope| ==> scope[i] != '.'
    ensures scope + "." <= id <==> Dot(id, 0) < |id| && id[..Dot(id, 0)] == scope
  {
    var k := Dot(id, 0);
    if scope + "." <= id {
      assert id[|scope|] == (scope + ".")[|scope|] == '.';
      forall i | 0 <= i < |scope| ensures id[i] == scope[i] { assert id[i] == (scope + ".")[i]; }
      DotAt(id, |scope|);
    }
    if k < |id| && id[..k] == scope {
      assert id[..k + 1] == scope + ".";
    }
  }

  lemma DotAt(id: string, k: nat)
    requires k < |id| && id[k] == '.' && forall i :: 0 <= i < k ==> id[i] != '.'
    ensures Dot(id, 0) == k
  {
  }

  /** The scope of an id is the namespace that it begins with. */
  lemma ScopeIs(id: string)
    ensures ExplicitScope(id) == Some("personal") <==> "personal." <= id
    ensures ExplicitScope(id) == Some("ucla") <==> "ucla." <= id
    ensures ExplicitScope(id) == Some("shared") <==> "shared." <= id
    ensures ExplicitScope(id).None? <==> !Scoped(id)
  {
    assert "personal" + "." == "personal." && "ucla" + "." == "ucla." && "shared" + "." == "shared.";
    PrefixOfScope(id, "personal");
    PrefixOfScope(id, "ucla");
    PrefixOfScope(id, "shared");
  }

  lemma ScopedHasDot(id: string)
    ensures Scoped(id) ==> '.' in id
  {
    if "personal." <= id { assert id[8] == "personal."[8]; }
    if "ucla." <= id { assert id[4] == "ucla."[4]; }
    if "shared." <= id { assert id[6] == "shared."[6]; }
  }

  // ---- one row ----

  function PrefixOf(authority: Authority): string {
    if authority == JK then "personal." else "ucla."
  }

  /** The row renames this unscoped id to its prefixed form, or that form back to the id. */
  predicate Renames(row: Row, id: string) {
    && !Scoped(id)
    && ((row.source == id && row.target == PrefixOf(row.authority) + id)
        || (row.target == id && row.source == PrefixOf(row.authority) + id))
  }

  /** The row leaves alone an id that has a namespace, or a control-plane id without a dot. */
  predicate LeavesAlone(row: Row) {
    row.source == row.target && (if row.controlPlane then '.' !in row.source else Scoped(row.source))
  }

  /** A mapping is accepted exactly when it is a renaming in either direction, not of the control
      plane and not called unchanged, or is called unchanged and leaves its id alone. */
  lemma AcceptedMapping(row: Row)
    ensures MappingError(row).None? <==>
              if row.disposition == Unchanged then LeavesAlone(row)
              else !row.controlPlane && (Renames(row, row.source) || Renames(row, row.target))
  {
    ScopeIs(row.source);
    ScopeIs(row.target);
    ScopedHasDot(row.source);
    RenamingScopes(row);
  }

  lemma RenamingScopes(row: Row)
    ensures Renames(row, row.source) <==> Forward(row)
    ensures Renames(row, row.target) <==> Backward(row)
    ensures Renames(row, row.source) || Renames(row, row.target) ==>
              row.source != row.target && !Foreign(row.authority, row.source) && !Foreign(row.authority, row.target)
  {
    ScopeIs(row.source);
    ScopeIs(row.target);
    assert PrefixOf(row.authority) == ScopeOf(row.authority) + ".";
    PrefixedScope(row.authority, row.source);
    PrefixedScope(row.authority, row.target);
    assert PrefixOf(row.authority) + row.source == Prefixed(row.authority, row.source);
    assert PrefixOf(row.authority) + row.target == Prefixed(row.authority, row.target);
  }

  /** An id of the other private namespace. */
  predicate OtherPrivate(authority: Authority, id: string) {
    if authority == JK then "ucla." <= id else "personal." <= id
  }

  /** A mapping that is not accepted is called a foreign mutation exactly when it changes an id of
      the other private namespace and is not of the control plane; else it is a schema fault. */
  lemma MappingFault(row: Row)
    requires MappingError(row).Some?
    ensures MappingError(row) ==
              if !row.controlPlane && (row.disposition != Unchanged || row.source != row.target)
                 && (OtherPrivate(row.authority, row.source) || OtherPrivate(row.authority, row.target))
              then Some(ForeignMutation) else Some(ManifestSchema)
  {
    ScopeIs(row.source);
    ScopeIs(row.target);
  }

  // ---- one record ----

  /** None of the seven fields is empty or has spaces around it, the identities have no control
      characters, and the authority is one of the two. */
  predicate FieldsOk(record: seq<string>) {
    && |record| == 7
    && (forall i :: 0 <= i < 7 ==> record[i] != "" && !IsSpace(record[i][0]) && !IsSpace(record[i][|record[i]| - 1]))
    && (forall i, j :: 0 <= i < 3 && 0 <= j < |record[i]| ==> !IsControl(record[i][j]))
    && (record[0] == "jk" || record[0] == "ucla")
  }

  /** Spaces and controls among the ASCII characters, by code. */
  lemma AsciiClasses(c: char)
    requires c as int < 128
    ensures IsSpace(c) <==> 9 <= c as int <= 13 || c as int == 32
    ensures IsControl(c) <==> c as int < 32 || c as int == 127
  {
  }

  predicate KnownDisposition(word: string) {
    word == "migrate" || word == "retire" || word == "split" || word == "unchanged"
  }

  predicate KnownFlag(word: string) {
    word == "true" || word == "false"
  }

  /** The row says what the record says. */
  predicate Reads(record: seq<string>, line: nat, row: Row)
    requires |record| == 7
  {
    && (row.authority == JK <==> record[0] == "jk") && row.source == record[1] && row.target == record[2]
    && (row.disposition == Migrate <==> record[3] == "migrate")
    && (row.disposition == Retire <==> record[3] == "retire")
    && (row.disposition == Split <==> record[3] == "split")
    && (row.disposition == Unchanged <==> record[3] == "unchanged")
    && row.owner == record[4] && row.evidence == record[5]
    && (row.controlPlane <==> record[6] == "true") && row.line == line
  }

  /** A record is accepted exactly with sound fields, a known disposition and flag and an accepted
      mapping, and then as the row that it reads as. */
  lemma AcceptedRecord(record: seq<string>, line: nat, row: Row)
    requires |record| == 7
    ensures ParseRow(record, line) == Ok(row) <==>
              && FieldsOk(record) && KnownDisposition(record[3]) && KnownFlag(record[6])
              && Reads(record, line, row) && MappingError(row).None?
  {
    hide MappingError, IsSpace, IsControl;
  }

  /** Any other record of seven fields is blamed on its line: for its disposition when all before
      it is sound, for its mapping when all fields are, and else as a schema fault. */
  lemma RecordFault(record: seq<string>, line: nat)
    requires |record| == 7 && ParseRow(record, line).Refused?
    ensures var f := ParseRow(record, line).refusal;
            && f.line == line
            && (FieldsOk(record) && !KnownDisposition(record[3]) ==> f.code == InvalidDisposition)
            && (FieldsOk(record) && KnownDisposition(record[3]) && KnownFlag(record[6]) ==>
                  forall row :: Reads(record, line, row) ==> MappingError(row) == Some(f.code))
            && (!FieldsOk(record) || (KnownDisposition(record[3]) && !KnownFlag(record[6])) ==>
                  f.code == ManifestSchema)
  {
    hide MappingError, IsSpace, IsControl;
  }

  // ---- whole manifests ----

  /** A split row of this authority for this unscoped id. */
  predicate HalfOf(row: Row, authority: Authority, id: string) {
    row.disposition == Split && row.authority == authority && Renames(row, id)
  }

  /** Data record i, counted from zero, is acceptable and reads as this row, on its line. */
  ghost predicate RecordReads(records: seq<seq<string>>, i: nat, row: Row) {
    && i + 1 < |records| && |records[i + 1]| == 7 && FieldsOk(records[i + 1])
    && KnownDisposition(records[i + 1][3]) && KnownFlag(records[i + 1][6])
    && Reads(records[i + 1], i + 2, row) && MappingError(row).None?
  }

  ghost predicate EveryRecordReads(records: seq<seq<string>>, rows: seq<Row>) {
    forall i :: 0 <= i < |rows| ==> RecordReads(records, i, rows[i])
  }

  ghost predicate EachSplitHasBoth(rows: seq<Row>) {
    forall i, id :: 0 <= i < |rows| && HalfOf(rows[i], rows[i].authority, id) ==>
      && (exists j :: 0 <= j < |rows| && HalfOf(rows[j], JK, id))
      && (exists j :: 0 <= j < |rows| && HalfOf(rows[j], UCLA, id))
  }

  /** The manifests: the seven column names, then at least one record and only acceptable ones,
      with no source and no target twice under one authority, and for each split id a row of both
      authorities. */
  lemma ManifestIs(records: seq<seq<string>>, rows: seq<Row>)
    ensures Parses(records, rows) <==>
              && |records| == |rows| + 1 && rows != []
              && records[0] == ["source_authority", "source_id", "target_id", "disposition", "owner_repo", "evidence",
                                "control_plane"]
              && EveryRecordReads(records, rows)
              && (forall i, j :: 0 <= i < j < |rows| && rows[i].authority == rows[j].authority ==>
                    rows[i].source != rows[j].source && rows[i].target != rows[j].target)
              && EachSplitHasBoth(rows)
  {
    hide MappingError, EveryRecordReads, RowsParse, EachSplitHasBoth, SplitsPaired, SourcesUnique, TargetsUnique;
    if |records| == |rows| + 1 {
      RecordsRead(records, rows);
      if EveryRecordReads(records, rows) { PairsAre(rows); }
      UniqueIs(rows);
    } else {
      assert !RowsParse(records, rows) by { SameLength(records, rows); }
    }
  }

  lemma SameLength(records: seq<seq<string>>, rows: seq<Row>)
    ensures RowsParse(records, rows) ==> |records| == |rows| + 1
  {
  }

  lemma RecordsRead(records: seq<seq<string>>, rows: seq<Row>)
    requires |records| == |rows| + 1
    ensures RowsParse(records, rows) <==> EveryRecordReads(records, rows)
    ensures EveryRecordReads(records, rows) ==> forall i :: 0 <= i < |rows| ==> MappingError(rows[i]).None?
  {
    hide MappingError, FieldsOk, Reads, ParseRow, KnownDisposition, KnownFlag;
    forall i | 0 <= i < |rows|
      ensures ParsesAt(records, i, rows[i]) <==> RecordReads(records, i, rows[i])
    {
      if |records[i + 1]| == 7 { AcceptedRecord(records[i + 1], i + 2, rows[i]); }
    }
  }

  lemma UniqueIs(rows: seq<Row>)
    ensures SourcesUnique(rows) && TargetsUnique(rows) <==>
              forall i, j :: 0 <= i < j < |rows| && rows[i].authority == rows[j].authority ==>
                rows[i].source != rows[j].source && rows[i].target != rows[j].target
  {
    if SourcesUnique(rows) && TargetsUnique(rows) {
      forall i, j | 0 <= i < j < |rows| && rows[i].authority == rows[j].authority
        ensures rows[i].source != rows[j].source && rows[i].target != rows[j].target
      {
        assert !SameKey(rows[i], rows[j]) && !SameGoal(rows[i], rows[j]);
      }
    }
  }

  /** The one id that a row renames is its legacy id. */
  lemma LegacyIs(row: Row, id: string)
    requires MappingError(row).None? && row.disposition.Split?
    ensures Renames(row, id) <==> id == LegacyId(row)
  {
    AcceptedMapping(row);
    ScopeIs(row.source);
    ScopeIs(row.target);
    PrefixScoped(row.authority, row.source);
    PrefixScoped(row.authority, row.target);
    PrefixScoped(row.authority, id);
  }

  lemma PrefixScoped(authority: Authority, id: string)
    ensures Scoped(PrefixOf(authority) + id)
  {
  }

  lemma PairsAre(rows: seq<Row>)
    requires forall i :: 0 <= i < |rows| ==> MappingError(rows[i]).None?
    ensures SplitsPaired(rows) <==> EachSplitHasBoth(rows)
  {
    hide MappingError, LegacyId, Renames;
    forall i, id | 0 <= i < |rows| && rows[i].disposition.Split?
      ensures Renames(rows[i], id) <==> id == LegacyId(rows[i])
    {
      LegacyIs(rows[i], id);
    }
    forall id, authority
      ensures HasHalf(rows, id, authority) <==> exists j :: 0 <= j < |rows| && HalfOf(rows[j], authority, id)
    {
      if HasHalf(rows, id, authority) {
        var j :| 0 <= j < |rows| && rows[j].disposition.Split? && LegacyId(rows[j]) == id
                 && rows[j].authority == authority;
        assert HalfOf(rows[j], authority, id);
      }
    }
    if EachSplitHasBoth(rows) {
      forall i | 0 <= i < |rows| && rows[i].disposition.Split?
        ensures HasHalf(rows, LegacyId(rows[i]), JK) && HasHalf(rows, LegacyId(rows[i]), UCLA)
      {
        assert HalfOf(rows[i], rows[i].authority, LegacyId(rows[i]));
      }
    }
  }

  // ---- blame ----

  /** How a wrong list of records is blamed: too many columns are outside the surface, any other
      header is a schema fault, and the first bad record has the fault of its fields, or repeats
      the source or else the target of an earlier row of its authority. */
  lemma BlameIs(records: seq<seq<string>>, f: Refusal, k: nat, rows: seq<Row>)
    requires Blames(records, f) && records != []
    ensures |records[0]| > 7 ==> f == Refusal(OutsideSurface, 1)
    ensures |records[0]| <= 7 && records[0] != ["source_authority", "source_id", "target_id", "disposition",
                                                "owner_repo", "evidence", "control_plane"] ==>
              f == Refusal(ManifestSchema, 1)
    ensures FirstBad(records, k, rows, f) ==>
              && f.line == k + 1
              && (|records[k]| != 7 ==> f.code == ManifestSchema)
              && (|records[k]| == 7 && ParseRow(records[k], k + 1).Refused? ==>
                    f == ParseRow(records[k], k + 1).refusal)
              && (|records[k]| == 7 && ParseRow(records[k], k + 1).Ok? ==>
                    var row := ParseRow(records[k], k + 1).value;
                    f.code == if exists i :: 0 <= i < |rows| && rows[i].authority == row.authority
                                             && rows[i].source == row.source
                              then DuplicateSource else DuplicateTarget)
  {
    hide ParseRow;
    if FirstBad(records, k, rows, f) && |records[k]| == 7 && ParseRow(records[k], k + 1).Refused? {
      RefusalLine(records[k], k + 1);
    }
  }
}
