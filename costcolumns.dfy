/**
 * Column headers of the CMHC cost-report worksheets: a table per form
 * vintage, per worksheet code, per column number, with `Col n` for a
 * column the table does not name.
 */
module CostColumns {
  import opened Text

  type ColumnMap = map<int, string>
  type WorksheetMap = map<string, ColumnMap>

  /** Worksheet A000000 of form 2088-17: statement of costs by cost center. */
  const WsA000000: ColumnMap := map[
    0 := "Cost center / Description",
    100 := "Total costs (prior year)",
    200 := "Direct cost",
    400 := "Total cost",
    500 := "Adjustment",
    600 := "Net cost",
    700 := "Other adjustment",
    800 := "Total (settled/final)"]

  /** The 2088-17 worksheets; `A` is a short alias of `A000000`. */
  const Cmhc17Worksheets: WorksheetMap := map["A000000" := WsA000000, "A" := WsA000000]

  const DefaultVintage := "2088-17"
  const ByVintage: map<string, WorksheetMap> := map[DefaultVintage := Cmhc17Worksheets]

  /** The worksheet table of a form vintage; an unknown vintage uses the 2088-17 one. */
  function WorksheetsFor(vintage: string): WorksheetMap
  {
    if vintage in ByVintage then ByVintage[vintage] else Cmhc17Worksheets
  }

  /** The spellings of a worksheet code tried in turn: as given, stripped, upper-cased. */
  function KeysTried(code: string): seq<string> { [code, Trim(code), Upper(code)] }

  /** Whether `key` names a worksheet whose table gives column `n` a non-empty name. */
  predicate Names(byWs: WorksheetMap, key: string, n: int)
  {
    key in byWs && n in byWs[key] && byWs[key][n] != ""
  }

  /** The name given by the first key that names column `n`, if any does. */
  function FirstName(byWs: WorksheetMap, keys: seq<string>, n: int): (r: Option<string>)
    ensures r.None? <==> forall i :: 0 <= i < |keys| ==> !Names(byWs, keys[i], n)
    ensures r.Some? ==> exists i :: 0 <= i < |keys| && Names(byWs, keys[i], n) && r.value == byWs[keys[i]][n]
                                    && forall j :: 0 <= j < i ==> !Names(byWs, keys[j], n)
    decreases |keys|
  {
    if keys == [] then None
    else if Names(byWs, keys[0], n) then Some(byWs[keys[0]][n])
    else
      var r := FirstName(byWs, keys[1..], n);
      assert forall i :: 1 <= i < |keys| ==> keys[i] == keys[1..][i - 1];
      r
  }

  /** `str(n)` for any integer. */
  function Fallback(n: int): string { "Col " + IntToString(n) }

  /** The fallback header is `Col ` and the column number, which reads back. */
  lemma FallbackReads(n: nat)
    ensures IsPrefix("Col ", Fallback(n))
    ensures var digits := Fallback(n)[4..];
      (forall i :: 0 <= i < |digits| ==> IsDigit(digits[i])) && ParseNat(digits) == n
  {
    assert Fallback(n)[4..] == NatToString(n);
    ParseNatToString(n);
  }

  /** `get_column_name` */
  function ColumnName(code: string, n: int, vintage: string): string
  {
    match FirstName(WorksheetsFor(vintage), KeysTried(code), n)
    case Some(name) => name
    case None => Fallback(n)
  }

  /**
   * The name comes from the first of the code as given, stripped and
   * upper-cased whose table names the column; with none, it is `Col n`.
   */
  lemma ColumnNameSpec(code: string, n: int, vintage: string)
    ensures var byWs := WorksheetsFor(vintage);
      var r := ColumnName(code, n, vintage);
      (Names(byWs, code, n) ==> r == byWs[code][n])
      && (!Names(byWs, code, n) && Names(byWs, Trim(code), n) ==> r == byWs[Trim(code)][n])
      && (!Names(byWs, code, n) && !Names(byWs, Trim(code), n) && Names(byWs, Upper(code), n)
          ==> r == byWs[Upper(code)][n])
      && (!Names(byWs, code, n) && !Names(byWs, Trim(code), n) && !Names(byWs, Upper(code), n)
          ==> r == Fallback(n))
  {
    var keys := KeysTried(code);
    assert keys[0] == code && keys[1] == Trim(code) && keys[2] == Upper(code);
  }

  /** A vintage without a table of its own reads the 2088-17 table. */
  lemma UnknownVintage(code: string, n: int, vintage: string)
    requires vintage != DefaultVintage
    ensures ColumnName(code, n, vintage) == ColumnName(code, n, DefaultVintage)
  {
  }

  /** `A` and `A000000` are the same worksheet. */
  lemma ShortAlias(n: int, vintage: string)
    ensures ColumnName("A", n, vintage) == ColumnName("A000000", n, vintage)
  {
    PlainCode("A", n, vintage);
    PlainCode("A000000", n, vintage);
    OneTable(vintage);
  }

  /** Every vintage reads the 2088-17 table, where `A` and `A000000` are the same worksheet. */
  lemma OneTable(vintage: string)
    ensures WorksheetsFor(vintage) == Cmhc17Worksheets
    ensures "A" in Cmhc17Worksheets && "A000000" in Cmhc17Worksheets
    ensures Cmhc17Worksheets["A"] == Cmhc17Worksheets["A000000"] == WsA000000
  {
  }

  /** A column no table names, under a known worksheet, falls back to `Col n`. */
  lemma UnnamedColumn(n: int, vintage: string)
    requires n !in WsA000000
    ensures ColumnName("A000000", n, vintage) == "Col " + IntToString(n)
  {
    PlainCode("A000000", n, vintage);
  }

  /** A code of capitals and digits is looked up as given. */
  lemma PlainCode(code: string, n: int, vintage: string)
    requires code != [] && forall k :: 0 <= k < |code| ==> IsUpperAlpha(code[k]) || IsDigit(code[k])
    ensures var byWs := WorksheetsFor(vintage);
      ColumnName(code, n, vintage) == if Names(byWs, code, n) then byWs[code][n] else Fallback(n)
  {
    Untouched(code);
    ColumnNameSpec(code, n, vintage);
  }

  /** A code of capitals and digits is its own stripped and upper-cased spelling. */
  lemma Untouched(code: string)
    requires code != [] && forall k :: 0 <= k < |code| ==> IsUpperAlpha(code[k]) || IsDigit(code[k])
    ensures Trim(code) == code && Upper(code) == code
  {
    assert !IsSpace(code[0]) && !IsSpace(code[|code| - 1]);
    TrimLeftFixed(code);
    TrimRightFixed(code);
    assert forall k :: 0 <= k < |code| ==> Upper(code)[k] == code[k];
  }

  /** `get_column_names`: one name per column number, in the same order. */
  function ColumnNames(code: string, ns: seq<int>, vintage: string): (r: seq<string>)
    ensures |r| == |ns|
    ensures forall i :: 0 <= i < |ns| ==> r[i] == ColumnName(code, ns[i], vintage)
  {
    var f := (n: int) => ColumnName(code, n, vintage);
    var r := MapSeq(ns, f);
    forall i | 0 <= i < |ns| ensures r[i] == ColumnName(code, ns[i], vintage) { MapSeqAt(ns, f, i); }
    r
  }
}
