/** Parsing, writing and inverting manifests with the loops and indexes of the tool. */
module ManifestTool {
  import opened Model
  import opened Manifest

  function HeaderError(header: seq<string>): Option<Code> {
    if |header| > |HEADER| then Some(OutsideSurface)
    else if header != HEADER then Some(ManifestSchema)
    else None
  }

  /** Data record k, when it parses. */
  function RowAt(records: seq<seq<string>>, k: nat): Parsed<Row>
    requires 1 <= k < |records|
  {
    if |records[k]| != |HEADER| then Refused(Refusal(ManifestSchema, k + 1)) else ParseRow(records[k], k + 1)
  }

  function Sources(rows: seq<Row>): set<(Authority, string)> {
    set r | r in rows :: (r.authority, r.source)
  }

  function Targets(rows: seq<Row>): set<(Authority, string)> {
    set r | r in rows :: (r.authority, r.target)
  }

  /** The data records before k parse to these rows, without duplicates. */
  ghost predicate GoodPrefix(records: seq<seq<string>>, k: nat, rows: seq<Row>) {
    && 1 <= k <= |records| && |rows| + 1 == k
    && (forall i :: 0 <= i < |rows| ==> RowAt(records, i + 1) == Ok(rows[i]))
    && SourcesUnique(rows) && TargetsUnique(rows)
  }

  /** Why the next record is refused after these rows, if it is. */
  function RecordError(rows: seq<Row>, next: Parsed<Row>): Option<Code> {
    match next
    case Refused(f) => Some(f.code)
    case Ok(row) =>
      if (row.authority, row.source) in Sources(rows) then Some(DuplicateSource)
      else if (row.authority, row.target) in Targets(rows) then Some(DuplicateTarget)
      else None
  }

  ghost predicate FirstBad(records: seq<seq<string>>, k: nat, rows: seq<Row>, f: Refusal) {
    k < |records| && GoodPrefix(records, k, rows)
    && RecordError(rows, RowAt(records, k)) == Some(f.code) && f.line == k + 1
  }

  /** The line of the last split row with this legacy id and authority, or zero. */
  function HalfLine(rows: seq<Row>, id: string, authority: Authority): nat {
    if rows == [] then 0
    else
      var last := rows[|rows| - 1];
      if last.disposition.Split? && LegacyId(last) == id && last.authority == authority then last.line
      else HalfLine(rows[..|rows| - 1], id, authority)
  }

  lemma {:induction false} HalfLineFinds(rows: seq<Row>, id: string, authority: Authority)
    requires forall i :: 0 <= i < |rows| ==> rows[i].line > 0
    ensures HalfLine(rows, id, authority) != 0 <==> HasHalf(rows, id, authority)
  {
    if rows != [] {
      var k := |rows| - 1;
      HalfLineFinds(rows[..k], id, authority);
      if HasHalf(rows[..k], id, authority) {
        var j :| 0 <= j < k && rows[..k][j].disposition.Split? && LegacyId(rows[..k][j]) == id
                 && rows[..k][j].authority == authority;
        assert rows[j].disposition.Split? && LegacyId(rows[j]) == id && rows[j].authority == authority;
      }
      if HasHalf(rows, id, authority) {
        var j :| 0 <= j < |rows| && rows[j].disposition.Split? && LegacyId(rows[j]) == id
            && rows[j].authority == authority;
        if j < k { assert rows[..k][j] == rows[j]; }
      }
    }
  }

  /** The one half of this split identity is on this line and its other half is missing. */
  predicate UnpairedAt(rows: seq<Row>, id: string, line: nat) {
    && (HalfLine(rows, id, JK) == 0 || HalfLine(rows, id, UCLA) == 0)
    && line == HalfLine(rows, id, JK) + HalfLine(rows, id, UCLA) && line > 0
  }

  ghost predicate Incomplete(records: seq<seq<string>>, rows: seq<Row>, line: nat) {
    && GoodPrefix(records, |records|, rows)
    && if rows == [] then line == 0 else exists id :: UnpairedAt(rows, id, line)
  }

  /** The refusal names the first thing wrong: the header, else the first bad record, else an
      empty or unpaired manifest. */
  ghost predicate Blames(records: seq<seq<string>>, f: Refusal) {
    if records == [] then f.code == ManifestSchema
    else if HeaderError(records[0]).Some? then f == Refusal(HeaderError(records[0]).value, 1)
    else
      || (exists k: nat, rows :: FirstBad(records, k, rows, f))
      || (f.code == ManifestSchema && exists rows :: Incomplete(records, rows, f.line))
  }

  lemma PrefixOfManifest(records: seq<seq<string>>, all: seq<Row>, k: nat, rows: seq<Row>)
    requires Parses(records, all) && GoodPrefix(records, k, rows)
    ensures rows == all[..k - 1]
    ensures forall i :: 0 <= i < |all| ==> RowAt(records, i + 1) == Ok(all[i])
  {
    hide ParseRow, SourcesUnique, TargetsUnique, SplitsPaired;
    forall i | 0 <= i < |all| ensures RowAt(records, i + 1) == Ok(all[i]) {
      assert ParsesAt(records, i, all[i]);
    }
  }

  lemma UniqueStep(rows: seq<Row>, row: Row)
    requires SourcesUnique(rows) && TargetsUnique(rows)
    ensures SourcesUnique(rows + [row]) <==> (row.authority, row.source) !in Sources(rows)
    ensures TargetsUnique(rows + [row]) <==> (row.authority, row.target) !in Targets(rows)
  {
    var all := rows + [row];
    assert all[|rows|] == row;
    if (row.authority, row.source) in Sources(rows) {
      var i :| 0 <= i < |rows| && (rows[i].authority, rows[i].source) == (row.authority, row.source);
      assert all[i] == rows[i] && SameKey(all[i], all[|rows|]);
    }
    if (row.authority, row.target) in Targets(rows) {
      var i :| 0 <= i < |rows| && (rows[i].authority, rows[i].target) == (row.authority, row.target);
      assert all[i] == rows[i] && SameGoal(all[i], all[|rows|]);
    }
  }

  /** A blamed record list is no manifest, so parsing succeeds exactly on the manifests. */
  lemma BlamedIsNoManifest(records: seq<seq<string>>, f: Refusal, all: seq<Row>)
    requires Blames(records, f)
    ensures !Parses(records, all)
  {
    hide ParseRow, RowAt;
    if Parses(records, all) {
      if k: nat, rows :| FirstBad(records, k, rows, f) {
        PrefixOfManifest(records, all, k, rows);
        assert RowAt(records, (k - 1) + 1) == Ok(all[k - 1]);
        UniqueStep(rows, all[k - 1]);
        assert rows + [all[k - 1]] == all[..k];
        PrefixUnique(all, k);
      } else {
        var rows :| Incomplete(records, rows, f.line);
        PrefixOfManifest(records, all, |records|, rows);
        assert rows == all;
        var id :| UnpairedAt(rows, id, f.line);
        forall i | 0 <= i < |all| ensures all[i].line > 0 { ManifestRow(records, all, i); }
        UnpairedRefutes(rows, id, f.line);
      }
    }
  }

  lemma UnpairedRefutes(rows: seq<Row>, id: string, line: nat)
    requires forall i :: 0 <= i < |rows| ==> rows[i].line > 0
    requires UnpairedAt(rows, id, line)
    ensures !SplitsPaired(rows)
  {
    hide LegacyId;
    HalfLineFinds(rows, id, JK);
    HalfLineFinds(rows, id, UCLA);
  }

  lemma PrefixUnique(rows: seq<Row>, k: nat)
    requires k <= |rows| && SourcesUnique(rows) && TargetsUnique(rows)
    ensures SourcesUnique(rows[..k]) && TargetsUnique(rows[..k])
  {
  }

  lemma PrefixGrows(records: seq<seq<string>>, k: nat, rows: seq<Row>, row: Row)
    requires GoodPrefix(records, k, rows) && k < |records| && RowAt(records, k) == Ok(row)
    requires RecordError(rows, Ok(row)).None?
    ensures GoodPrefix(records, k + 1, rows + [row])
    ensures Sources(rows + [row]) == Sources(rows) + {(row.authority, row.source)}
    ensures Targets(rows + [row]) == Targets(rows) + {(row.authority, row.target)}
  {
    hide ParseRow, RowAt;
    UniqueStep(rows, row);
    forall i | 0 <= i < |rows + [row]| ensures RowAt(records, i + 1) == Ok((rows + [row])[i]) {}
  }

  method ParseManifest(records: seq<seq<string>>) returns (r: Parsed<seq<Row>>)
    ensures r.Ok? ==> Parses(records, r.value)
    ensures r.Refused? ==> Blames(records, r.refusal)
  {
    hide ParseRow, SourcesUnique, TargetsUnique, SplitsPaired;
    if records == [] { return Refused(Refusal(ManifestSchema, 0)); }
    var header := HeaderError(records[0]);
    if header.Some? { return Refused(Refusal(header.value, 1)); }
    var rows: seq<Row> := [];
    var seen: map<(Authority, string), nat> := map[];
    var owners: map<(Authority, string), Row> := map[];
    assert SourcesUnique(rows) && TargetsUnique(rows) by { NoRowsUnique(); }
    var k: nat := 1;
    while k < |records|
      invariant 1 <= k <= |records| && GoodPrefix(records, k, rows)
      invariant seen.Keys == Sources(rows) && owners.Keys == Targets(rows)
      invariant forall g :: g in owners ==> owners[g] in rows && (owners[g].authority, owners[g].target) == g
    {
      if |records[k]| != |HEADER| {
        assert FirstBad(records, k, rows, Refusal(ManifestSchema, k + 1));
        return Refused(Refusal(ManifestSchema, k + 1));
      }
      var parsed := ParseRow(records[k], k + 1);
      assert RowAt(records, k) == parsed;
      if parsed.Refused? {
        RefusalLine(records[k], k + 1);
        assert FirstBad(records, k, rows, parsed.refusal);
        return Refused(parsed.refusal);
      }
      var row := parsed.value;
      var goal := (row.authority, row.target);
      assert goal in owners ==> (owners[goal].authority, owners[goal].source) in Sources(rows);
      if (row.authority, row.source) in seen {
        assert FirstBad(records, k, rows, Refusal(DuplicateSource, k + 1));
        return Refused(Refusal(DuplicateSource, k + 1));
      }
      if goal in owners && owners[goal].source != row.source {
        assert FirstBad(records, k, rows, Refusal(DuplicateTarget, k + 1));
        return Refused(Refusal(DuplicateTarget, k + 1));
      }
      PrefixGrows(records, k, rows, row);
      seen := seen[(row.authority, row.source) := k + 1];
      owners := owners[goal := row];
      rows := rows + [row];
      k := k + 1;
    }
    GoodPrefixParses(records, rows);
    if rows == [] {
      assert Incomplete(records, rows, 0);
      return Refused(Refusal(ManifestSchema, 0));
    }
    var unpaired := UnpairedSplit(rows);
    if unpaired.Some? {
      assert Incomplete(records, rows, unpaired.value);
      return Refused(Refusal(ManifestSchema, unpaired.value));
    }
    return Ok(rows);
  }

  lemma NoRowsUnique()
    ensures SourcesUnique([]) && TargetsUnique([])
  {
  }

  lemma GoodPrefixParses(records: seq<seq<string>>, rows: seq<Row>)
    requires GoodPrefix(records, |records|, rows)
    ensures RowsParse(records, rows)
    ensures forall i :: 0 <= i < |rows| ==> rows[i].line > 0
  {
    hide ParseRow, SourcesUnique, TargetsUnique, SplitsPaired, RowAt;
    assert |rows| + 1 == |records|;
    forall i | 0 <= i < |rows|
      ensures ParsesAt(records, i, rows[i]) && rows[i].line > 0
    {
      assert RowAt(records, i + 1) == Ok(rows[i]);
      RowAtParses(records, i + 1, rows[i]);
    }
  }

  lemma RowAtParses(records: seq<seq<string>>, k: nat, row: Row)
    requires 1 <= k < |records| && RowAt(records, k) == Ok(row)
    ensures |records[k]| == |HEADER| && ParseRow(records[k], k + 1) == Ok(row) && row.line > 0
  {
    hide ParseRow;
    if |records[k]| == |HEADER| && ParseRow(records[k], k + 1).Ok? { ParsedLine(records[k], k + 1); }
  }

  lemma ParsedLine(record: seq<string>, line: nat)
    requires |record| == |HEADER| && ParseRow(record, line).Ok?
    ensures ParseRow(record, line).value.line == line
  {
  }

  lemma RefusalLine(record: seq<string>, line: nat)
    requires |record| == |HEADER| && ParseRow(record, line).Refused?
    ensures ParseRow(record, line).refusal.line == line
  {
  }

  datatype Lines = Lines(jk: nat, ucla: nat)

  /** The lines of the halves of each split identity, as far as read. */
  ghost predicate PairsOf(rows: seq<Row>, pairs: map<string, Lines>) {
    && (forall id :: id in pairs ==> pairs[id] == Lines(HalfLine(rows, id, JK), HalfLine(rows, id, UCLA)))
    && (forall id :: id in pairs <==> HalfLine(rows, id, JK) != 0 || HalfLine(rows, id, UCLA) != 0)
  }

  lemma PairsGrow(rows: seq<Row>, i: nat, pairs: map<string, Lines>)
    requires i < |rows| && PairsOf(rows[..i], pairs) && rows[i].line > 0
    ensures !rows[i].disposition.Split? ==> PairsOf(rows[..i + 1], pairs)
    ensures rows[i].disposition.Split? ==>
              var id := LegacyId(rows[i]);
              var lines := if id in pairs then pairs[id] else Lines(0, 0);
              PairsOf(rows[..i + 1], pairs[id := if rows[i].authority.JK? then lines.(jk := rows[i].line)
                                                 else lines.(ucla := rows[i].line)])
  {
    hide LegacyId;
    assert rows[..i + 1][..i] == rows[..i] && rows[..i + 1][i] == rows[i];
  }

  lemma UnpairedFails(rows: seq<Row>, pairs: map<string, Lines>, id: string)
    requires forall i :: 0 <= i < |rows| ==> rows[i].line > 0
    requires PairsOf(rows, pairs) && id in pairs && (pairs[id].jk == 0 || pairs[id].ucla == 0)
    ensures UnpairedAt(rows, id, if pairs[id].jk == 0 then pairs[id].ucla else pairs[id].jk)
    ensures !SplitsPaired(rows)
  {
    hide LegacyId;
    UnpairedRefutes(rows, id, if pairs[id].jk == 0 then pairs[id].ucla else pairs[id].jk);
  }

  lemma PairedHolds(rows: seq<Row>, pairs: map<string, Lines>)
    requires forall i :: 0 <= i < |rows| ==> rows[i].line > 0
    requires PairsOf(rows, pairs) && forall id :: id in pairs ==> pairs[id].jk != 0 && pairs[id].ucla != 0
    ensures SplitsPaired(rows)
  {
    hide LegacyId;
    forall i | 0 <= i < |rows| && rows[i].disposition.Split?
      ensures HasHalf(rows, LegacyId(rows[i]), JK) && HasHalf(rows, LegacyId(rows[i]), UCLA)
    {
      var id := LegacyId(rows[i]);
      HalfLineFinds(rows, id, JK);
      HalfLineFinds(rows, id, UCLA);
      assert HasHalf(rows, id, rows[i].authority);
    }
  }

  /** The line of a split row whose identity lacks a half, if there is one. */
  method UnpairedSplit(rows: seq<Row>) returns (line: Option<nat>)
    requires forall i :: 0 <= i < |rows| ==> rows[i].line > 0
    ensures line.None? <==> SplitsPaired(rows)
    ensures line.Some? ==> exists id :: UnpairedAt(rows, id, line.value)
  {
    hide SplitsPaired;
    var pairs: map<string, Lines> := map[];
    var i := 0;
    while i < |rows|
      invariant 0 <= i <= |rows| && PairsOf(rows[..i], pairs)
    {
      PairsGrow(rows, i, pairs);
      if rows[i].disposition.Split? {
        var id := LegacyId(rows[i]);
        var lines := if id in pairs then pairs[id] else Lines(0, 0);
        if rows[i].authority.JK? { lines := lines.(jk := rows[i].line); }
        else { lines := lines.(ucla := rows[i].line); }
        pairs := pairs[id := lines];
      }
      i := i + 1;
    }
    assert rows[..|rows|] == rows;
    var left := pairs.Keys;
    while left != {}
      invariant left <= pairs.Keys
      invariant forall id :: id in pairs.Keys - left ==> pairs[id].jk != 0 && pairs[id].ucla != 0
    {
      var id :| id in left;
      if pairs[id].jk == 0 || pairs[id].ucla == 0 {
        UnpairedFails(rows, pairs, id);
        return Some(if pairs[id].jk == 0 then pairs[id].ucla else pairs[id].jk);
      }
      left := left - {id};
    }
    PairedHolds(rows, pairs);
    return None;
  }

  method WriteManifest(rows: seq<Row>) returns (records: seq<seq<string>>)
    ensures records == Written(rows)
  {
    records := [HEADER];
    var i := 0;
    while i < |rows|
      invariant 0 <= i <= |rows| && records == Written(rows[..i])
    {
      records := records + [Encode(rows[i])];
      i := i + 1;
    }
    assert rows[..|rows|] == rows;
  }

  /** The undo plan of a manifest, revalidated through the parser: it never fails, and it is
      the swapped rows with their lines. */
  method InvertManifest(rows: seq<Row>) returns (r: Parsed<seq<Row>>)
    requires IsManifest(rows)
    ensures r == Ok(Inverse(rows)) && IsManifest(Inverse(rows))
  {
    hide Parses, Blames, Encode;
    var inverse: seq<Row> := [];
    var i := 0;
    while i < |rows|
      invariant 0 <= i <= |rows| && inverse == Inverse(rows[..i])
    {
      inverse := inverse + [Swap(rows[i])];
      i := i + 1;
    }
    assert rows[..|rows|] == rows;
    var written := WriteManifest(inverse);
    r := ParseManifest(written);
    ghost var records :| Parses(records, rows);
    InverseParses(records, rows);
    if r.Refused? {
      BlamedIsNoManifest(written, r.refusal, inverse);
    } else {
      ParsesOnce(written, inverse, r.value);
    }
    assert IsManifest(Inverse(rows));
  }

  lemma ParsesOnce(records: seq<seq<string>>, a: seq<Row>, b: seq<Row>)
    requires Parses(records, a) && Parses(records, b)
    ensures a == b
  {
    hide ParseRow;
    forall i | 0 <= i < |a| ensures a[i] == b[i] {
      assert ParsesAt(records, i, a[i]) && ParsesAt(records, i, b[i]);
    }
  }
}
