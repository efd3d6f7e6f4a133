/** The migration manifest: rows, their validation, parsing from records, and inversion. CSV
    text is not modelled; a manifest file is the list of its records. */
module Manifest {
  import opened Model

  datatype Authority = JK | UCLA
  datatype Disposition = Migrate | Retire | Split | Unchanged

  datatype Row = Row(
    authority: Authority,
    source: string,
    target: string,
    disposition: Disposition,
    owner: string,
    evidence: string,
    controlPlane: bool,
    line: nat)

  datatype Code = ManifestSchema | OutsideSurface | DuplicateSource | DuplicateTarget
                | InvalidDisposition | ForeignMutation

  datatype Refusal = Refusal(code: Code, line: nat)
  datatype Parsed<+T> = Ok(value: T) | Refused(refusal: Refusal)

  const HEADER: seq<string> := ["source_authority", "source_id", "target_id", "disposition",
                                "owner_repo", "evidence", "control_plane"]

  // ---- scopes ----

  /** The first dot at or after a position, or the length. */
  function Dot(id: string, i: nat): (k: nat)
    requires i <= |id|
    ensures i <= k <= |id|
    ensures k < |id| ==> id[k] == '.'
    ensures forall j :: i <= j < k ==> id[j] != '.'
    decreases |id| - i
  {
    if i == |id| || id[i] == '.' then i else Dot(id, i + 1)
  }

  const PERSONAL: string := "personal"
  const UCLA_SCOPE: string := "ucla"
  const SHARED: string := "shared"

  /** The namespace written before the first dot, if it is a known one. */
  function ExplicitScope(id: string): Option<string> {
    var k := Dot(id, 0);
    if k < |id| && (id[..k] == PERSONAL || id[..k] == UCLA_SCOPE || id[..k] == SHARED)
    then Some(id[..k]) else None
  }

  predicate HasScope(id: string) {
    ExplicitScope(id).Some?
  }

  predicate Foreign(authority: Authority, id: string) {
    || (authority.JK? && ExplicitScope(id) == Some(UCLA_SCOPE))
    || (authority.UCLA? && ExplicitScope(id) == Some(PERSONAL))
  }

  function ScopeOf(authority: Authority): string {
    if authority.JK? then PERSONAL else UCLA_SCOPE
  }

  function Prefixed(authority: Authority, id: string): string {
    ScopeOf(authority) + "." + id
  }

  /** Prefixing an id gives it exactly the scope of the authority. */
  lemma PrefixedScope(authority: Authority, id: string)
    ensures ExplicitScope(Prefixed(authority, id)) == Some(ScopeOf(authority))
  {
    var s, t := ScopeOf(authority), Prefixed(authority, id);
    assert forall j :: 0 <= j < |PERSONAL| ==> PERSONAL[j] != '.';
    assert forall j :: 0 <= j < |UCLA_SCOPE| ==> UCLA_SCOPE[j] != '.';
    assert t[|s|] == '.' && t[..|s|] == s;
    assert forall j :: 0 <= j < |s| ==> t[j] == s[j];
    assert Dot(t, 0) == |s|;
  }

  // ---- one row ----

  predicate Forward(row: Row) {
    !HasScope(row.source) && row.target == Prefixed(row.authority, row.source)
  }

  predicate Backward(row: Row) {
    !HasScope(row.target) && row.source == Prefixed(row.authority, row.target)
  }

  /** The refusal of a row's mapping, in the order of the checks. */
  function MappingError(row: Row): Option<Code> {
    if row.controlPlane && (!row.disposition.Unchanged? || row.source != row.target) then Some(ManifestSchema)
    else if row.controlPlane && '.' in row.source then Some(ManifestSchema)
    else if (Foreign(row.authority, row.source) || Foreign(row.authority, row.target))
            && (!row.disposition.Unchanged? || row.source != row.target) then Some(ForeignMutation)
    else if row.disposition.Unchanged? then
      if row.source != row.target then Some(ManifestSchema)
      else if !HasScope(row.source) && !row.controlPlane then Some(ManifestSchema)
      else None
    else if row.source == row.target then Some(ManifestSchema)
    else if !Forward(row) && !Backward(row) then Some(ManifestSchema)
    else None
  }

  predicate IsSpace(c: char) {
    || '\t' <= c <= '\r' || c == ' ' || c == '\U{85}' || c == '\U{A0}' || c == '\U{1680}'
    || '\U{2000}' <= c <= '\U{200A}' || c == '\U{2028}' || c == '\U{2029}' || c == '\U{202F}'
    || c == '\U{205F}' || c == '\U{3000}'
  }

  predicate IsControl(c: char) {
    c <= '\U{1F}' || '\U{7F}' <= c <= '\U{9F}'
  }

  predicate Trimmed(s: string) {
    |s| > 0 ==> !IsSpace(s[0]) && !IsSpace(s[|s| - 1])
  }

  predicate NoControl(s: string) {
    forall i :: 0 <= i < |s| ==> !IsControl(s[i])
  }

  function ParseDisposition(s: string): Option<Disposition> {
    if s == "migrate" then Some(Migrate)
    else if s == "retire" then Some(Retire)
    else if s == "split" then Some(Split)
    else if s == "unchanged" then Some(Unchanged)
    else None
  }

  function ParseAuthority(s: string): Option<Authority> {
    if s == "jk" then Some(JK) else if s == "ucla" then Some(UCLA) else None
  }

  /** One record of seven fields. */
  function ParseRow(record: seq<string>, line: nat): Parsed<Row>
    requires |record| == |HEADER|
  {
    if exists i :: 0 <= i < |record| && (!Trimmed(record[i]) || record[i] == "") then
      Refused(Refusal(ManifestSchema, line))
    else if !NoControl(record[0]) || !NoControl(record[1]) || !NoControl(record[2]) then
      Refused(Refusal(ManifestSchema, line))
    else if ParseAuthority(record[0]).None? then Refused(Refusal(ManifestSchema, line))
    else if ParseDisposition(record[3]).None? then Refused(Refusal(InvalidDisposition, line))
    else if record[6] != "true" && record[6] != "false" then Refused(Refusal(ManifestSchema, line))
    else
      var row := Row(ParseAuthority(record[0]).value, record[1], record[2], ParseDisposition(record[3]).value,
                     record[4], record[5], record[6] == "true", line);
      var e := MappingError(row);
      if e.Some? then Refused(Refusal(e.value, line)) else Ok(row)
  }

  function Encode(row: Row): seq<string> {
    [ if row.authority.JK? then "jk" else "ucla",
      row.source, row.target,
      match row.disposition
        case Migrate => "migrate" case Retire => "retire" case Split => "split" case Unchanged => "unchanged",
      row.owner, row.evidence,
      if row.controlPlane then "true" else "false" ]
  }

  /** A parsed row encodes back to its own record. */
  lemma EncodeInvertsParse(record: seq<string>, line: nat)
    requires |record| == |HEADER| && ParseRow(record, line).Ok?
    ensures Encode(ParseRow(record, line).value) == record
  {
    var row := ParseRow(record, line).value;
    var e := Encode(row);
    assert e[0] == record[0] && e[3] == record[3] && e[6] == record[6];
  }

  function Swap(row: Row): Row {
    row.(source := row.target, target := row.source)
  }

  /** The checks treat a row and its inverse alike. */
  lemma SwapIsValid(row: Row)
    ensures MappingError(row).None? ==> MappingError(Swap(row)).None?
  {
  }

  lemma SwapParses(record: seq<string>, line: nat)
    requires |record| == |HEADER| && ParseRow(record, line).Ok?
    ensures var row := ParseRow(record, line).value;
            |Encode(Swap(row))| == |HEADER| && ParseRow(Encode(Swap(row)), line) == Ok(Swap(row))
  {
    var row := ParseRow(record, line).value;
    EncodeInvertsParse(record, line);
    SwapIsValid(row);
    var e := Encode(Swap(row));
    assert e[0] == record[0] && e[1] == record[2] && e[2] == record[1] && e[3] == record[3]
        && e[4] == record[4] && e[5] == record[5] && e[6] == record[6];
    forall i | 0 <= i < |e| ensures Trimmed(e[i]) && e[i] != "" {
      var j := if i == 1 then 2 else if i == 2 then 1 else i;
      assert e[i] == record[j];
    }
  }

  // ---- whole manifests ----

  predicate SameKey(a: Row, b: Row) {
    a.authority == b.authority && a.source == b.source
  }

  predicate SameGoal(a: Row, b: Row) {
    a.authority == b.authority && a.target == b.target
  }

  ghost predicate SourcesUnique(rows: seq<Row>) {
    forall i, j :: 0 <= i < j < |rows| ==> !SameKey(rows[i], rows[j])
  }

  ghost predicate TargetsUnique(rows: seq<Row>) {
    forall i, j :: 0 <= i < j < |rows| ==> !SameGoal(rows[i], rows[j])
  }

  /** The unprefixed id of a split row, in either direction. */
  function LegacyId(row: Row): string {
    if HasScope(row.source) then row.target else row.source
  }

  ghost predicate HasHalf(rows: seq<Row>, id: string, authority: Authority) {
    exists i :: 0 <= i < |rows| && rows[i].disposition.Split? && LegacyId(rows[i]) == id
        && rows[i].authority == authority
  }

  /** Every split identity has a row of each authority. */
  ghost predicate SplitsPaired(rows: seq<Row>) {
    forall i :: 0 <= i < |rows| && rows[i].disposition.Split? ==>
      HasHalf(rows, LegacyId(rows[i]), JK) && HasHalf(rows, LegacyId(rows[i]), UCLA)
  }

  /** The rows of the data records, when each of them parses on its own. */
  ghost predicate RowsParse(records: seq<seq<string>>, rows: seq<Row>) {
    |rows| + 1 == |records| && forall i :: 0 <= i < |rows| ==> ParsesAt(records, i, rows[i])
  }

  /** Data record i, counted from zero, parses to this row. */
  predicate ParsesAt(records: seq<seq<string>>, i: int, row: Row) {
    && 0 <= i && i + 1 < |records| && |records[i + 1]| == |HEADER|
    && ParseRow(records[i + 1], i + 2) == Ok(row)
  }

  /** Exactly the record lists that are manifests. */
  ghost predicate Parses(records: seq<seq<string>>, rows: seq<Row>) {
    && |records| > 1 && records[0] == HEADER
    && RowsParse(records, rows) && SourcesUnique(rows) && TargetsUnique(rows) && SplitsPaired(rows)
  }

  /** Some record list parses to these rows. */
  ghost predicate IsManifest(rows: seq<Row>) {
    exists records :: Parses(records, rows)
  }

  function Inverse(rows: seq<Row>): seq<Row> {
    seq(|rows|, i requires 0 <= i < |rows| => Swap(rows[i]))
  }

  function Written(rows: seq<Row>): seq<seq<string>> {
    [HEADER] + seq(|rows|, i requires 0 <= i < |rows| => Encode(rows[i]))
  }

  lemma SwapKeepsLegacyId(row: Row)
    requires MappingError(row).None? && row.disposition.Split?
    ensures LegacyId(Swap(row)) == LegacyId(row)
  {
    if Forward(row) { PrefixedScope(row.authority, row.source); } else { PrefixedScope(row.authority, row.target); }
  }

  lemma InverseKeepsHalf(rows: seq<Row>, id: string, authority: Authority)
    requires forall i :: 0 <= i < |rows| ==> MappingError(rows[i]).None?
    requires HasHalf(rows, id, authority)
    ensures HasHalf(Inverse(rows), id, authority)
  {
    var i :| 0 <= i < |rows| && rows[i].disposition.Split? && LegacyId(rows[i]) == id && rows[i].authority == authority;
    SwapKeepsLegacyId(rows[i]);
    assert Inverse(rows)[i] == Swap(rows[i]);
  }

  lemma InverseRowsParse(records: seq<seq<string>>, rows: seq<Row>)
    requires RowsParse(records, rows)
    ensures RowsParse(Written(Inverse(rows)), Inverse(rows))
  {
    hide ParseRow, Encode;
    var inverse := Inverse(rows);
    var written := Written(inverse);
    forall i | 0 <= i < |inverse| ensures ParsesAt(written, i, inverse[i]) {
      assert ParsesAt(records, i, rows[i]);
      SwapParses(records[i + 1], i + 2);
      assert written[i + 1] == Encode(inverse[i]);
    }
  }

  lemma InverseUnique(rows: seq<Row>)
    requires SourcesUnique(rows) && TargetsUnique(rows)
    ensures SourcesUnique(Inverse(rows)) && TargetsUnique(Inverse(rows))
  {
    forall i, j | 0 <= i < j < |rows|
      ensures !SameKey(Inverse(rows)[i], Inverse(rows)[j]) && !SameGoal(Inverse(rows)[i], Inverse(rows)[j])
    {
      assert !SameKey(rows[i], rows[j]) && !SameGoal(rows[i], rows[j]);
    }
  }

  lemma InversePaired(rows: seq<Row>)
    requires forall i :: 0 <= i < |rows| ==> MappingError(rows[i]).None?
    requires SplitsPaired(rows)
    ensures SplitsPaired(Inverse(rows))
  {
    var inverse := Inverse(rows);
    forall i | 0 <= i < |inverse| && inverse[i].disposition.Split?
      ensures HasHalf(inverse, LegacyId(inverse[i]), JK) && HasHalf(inverse, LegacyId(inverse[i]), UCLA)
    {
      assert inverse[i] == Swap(rows[i]);
      SwapKeepsLegacyId(rows[i]);
      InverseKeepsHalf(rows, LegacyId(rows[i]), JK);
      InverseKeepsHalf(rows, LegacyId(rows[i]), UCLA);
    }
  }

  /** Inverting a manifest always gives a manifest: the written inverse parses, to the swapped
      rows with their line numbers. */
  lemma InverseParses(records: seq<seq<string>>, rows: seq<Row>)
    requires Parses(records, rows)
    ensures Parses(Written(Inverse(rows)), Inverse(rows))
  {
    hide Encode, ParseRow, MappingError;
    InverseRowsParse(records, rows);
    InverseUnique(rows);
    forall i | 0 <= i < |rows| ensures MappingError(rows[i]).None? { ManifestRow(records, rows, i); }
    InversePaired(rows);
  }

  /** Inverting twice gives back the same rows. */
  lemma InverseTwice(rows: seq<Row>)
    ensures Inverse(Inverse(rows)) == rows
  {
    forall i | 0 <= i < |rows| ensures Inverse(Inverse(rows))[i] == rows[i] {
      assert Inverse(rows)[i] == Swap(rows[i]);
    }
  }

  /** What every row of a manifest satisfies, whatever its line. */
  lemma ManifestRow(records: seq<seq<string>>, rows: seq<Row>, i: nat)
    requires Parses(records, rows) && i < |rows|
    ensures MappingError(rows[i]).None? && rows[i].source != "" && rows[i].target != "" && rows[i].line == i + 2
  {
    assert ParsesAt(records, i, rows[i]);
    EncodeInvertsParse(records[i + 1], i + 2);
  }

  /** The only chains are a rename and its own reverse: when the target of a row is the source
      of another row of the same authority, that row maps it straight back. */
  lemma OnlyReverseChains(records: seq<seq<string>>, rows: seq<Row>, i: nat, j: nat)
    requires Parses(records, rows) && i < |rows| && j < |rows| && i != j
    requires rows[i].authority == rows[j].authority && rows[i].target == rows[j].source
    ensures rows[j].target == rows[i].source
  {
    ManifestRow(records, rows, i);
    ManifestRow(records, rows, j);
    PrefixedScope(rows[i].authority, rows[i].source);
    PrefixedScope(rows[i].authority, rows[i].target);
    PrefixedScope(rows[j].authority, rows[j].source);
    PrefixedScope(rows[j].authority, rows[j].target);
    assert !SameGoal(rows[i], rows[j]) && !SameKey(rows[i], rows[j]) by {
      if i < j { assert !SameGoal(rows[i], rows[j]) && !SameKey(rows[i], rows[j]); }
      else { assert !SameGoal(rows[j], rows[i]) && !SameKey(rows[j], rows[i]); }
    }
    var p := ScopeOf(rows[i].authority) + ".";
    if Forward(rows[i]) && Backward(rows[j]) {
      assert rows[i].source == rows[j].source[|p|..] == rows[j].target;
    }
  }
}
