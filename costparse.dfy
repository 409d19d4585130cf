/**
 * The HCRIS cost-report parser: the CSV members of a CMS zip archive (RPT
 * report headers, NMRC numeric cells, Alpha text cells) turned into landing
 * rows, from files with a header row or from headerless per-year files read
 * by position. A table is a sequence of rows of `Cell`s as pandas hands
 * them over; the date, integer and float conversions are parameters.
 */
module CostParse {
  import opened Text
  import Sorting

  /** A field as pandas hands it over: `None`, the float NaN that `read_csv` makes of an empty field, or text. */
  datatype Cell = Null | NaN | Text(s: string)

  /** Python's `str(x)`. */
  function PyStr(c: Cell): string
  {
    match c
    case Null => "None"
    case NaN => "nan"
    case Text(s) => s
  }

  /** Python's truthiness: `None` and `""` are false, NaN is true. */
  predicate Truthy(c: Cell) { c.NaN? || (c.Text? && c.s != []) }

  /** The guard `x is not None and str(x).strip()`. */
  predicate Filled(c: Cell) { !c.Null? && Trim(PyStr(c)) != [] }

  /** A float: a real number or NaN. */
  datatype Float = Finite(x: real) | NotANumber

  /**
   * The library conversions: the date formats `_parse_date` tries on a
   * stripped text, `int(float(s))` and `float(s)`; `None` where they raise.
   */
  datatype Parsers = Parsers(date: string -> Option<string>, toInt: string -> Option<int>,
                             toFloat: string -> Option<Float>)

  const RptKeyCols := ["RPT_REC_NUM", "Report_Record_Number"]
  const RptCcnCols := ["PRVDR_NUM", "Provider_Number"]
  const RptFyBgnCols := ["FY_BGN_DT", "Fiscal_Year_Begin_Date"]
  const RptFyEndCols := ["FY_END_DT", "Fiscal_Year_End_Date"]
  const RptStatusCols := ["RPT_STUS_CD", "Report_Status_Code", "RPT_STUS"]
  const NmrcKeyCols := ["RPT_REC_NUM", "Report_Record_Number"]
  const NmrcWkshtCols := ["WKSHT_CD", "Worksheet_Code", "WKSHT_CD_NMBR"]
  const NmrcLineCols := ["LINE_NUM", "Line_Number"]
  const NmrcClmnCols := ["CLMN_NUM", "Column_Number"]
  const NmrcValCols := ["ITM_VAL_NUM", "ITEM_VAL", "Item_Value", "Value"]
  const AlphaFixedValCols := ["ITM_VAL_TXT", "ITEM_VAL", "Item_Value", "Value"]

  /** One row of a table read with a header: column name to field. */
  type Row = map<string, Cell>

  /** A table read with a header: its column names, in order, and its rows. */
  datatype Frame = Frame(columns: seq<string>, rows: seq<Row>)

  /** A table read without a header: its width and its rows of fields by position. */
  datatype Table = Table(width: nat, rows: seq<seq<Cell>>)

  datatype RptRow = RptRow(key: string, ccn: Option<string>, fyStart: Option<string>, fyEnd: Option<string>,
                           status: Option<string>, vintage: string)
  datatype NmrcRow = NmrcRow(key: string, worksheet: Option<string>, line: Option<int>, column: Option<int>,
                             value: Option<Float>)
  datatype AlphaRow = AlphaRow(key: string, worksheet: Option<string>, line: Option<int>, column: Option<int>,
                               value: Option<string>)

  // ------------------------------------------------------------ fields

  predicate Usable(row: Row, c: string) { c in row && Filled(row[c]) }

  /** `_pick_col`: the field of the first candidate column that is present and not blank. */
  function FirstUsable(row: Row, cands: seq<string>): (r: Option<Cell>)
    ensures r.None? <==> forall i :: 0 <= i < |cands| ==> !Usable(row, cands[i])
    ensures r.Some? ==> Filled(r.value)
    ensures r.Some? ==> exists i :: 0 <= i < |cands| && Usable(row, cands[i]) && r.value == row[cands[i]]
                                    && forall j :: 0 <= j < i ==> !Usable(row, cands[j])
    decreases |cands|
  {
    if cands == [] then None
    else if Usable(row, cands[0]) then Some(row[cands[0]])
    else
      assert forall i :: 1 <= i < |cands| ==> cands[i] == cands[1..][i - 1];
      FirstUsable(row, cands[1..])
  }

  /** `_pick_col` with its early-return loop. */
  method PickCol(row: Row, cands: seq<string>) returns (r: Option<Cell>)
    ensures r == FirstUsable(row, cands)
  {
    var i := 0;
    while i < |cands|
      invariant i <= |cands|
      invariant FirstUsable(row, cands) == FirstUsable(row, cands[i..])
    {
      if cands[i] in row && !row[cands[i]].Null? && Trim(PyStr(row[cands[i]])) != [] {
        return Some(row[cands[i]]);
      }
      assert cands[i..][1..] == cands[i + 1..];
      i := i + 1;
    }
    return None;
  }

  function OrNull(o: Option<Cell>): Cell { if o.Some? then o.value else Null }

  /** `str(x).strip() if x is not None else None` */
  function Stripped(c: Cell): (r: Option<string>)
    ensures r.None? <==> c.Null?
  {
    if c.Null? then None else Some(Trim(PyStr(c)))
  }

  /** `_parse_date`: `None`, NaN and blank give nothing; otherwise the library parse of the stripped text. */
  function ParseDate(c: Cell, p: Parsers): (r: Option<string>)
    ensures (c.Null? || c.NaN? || (c.Text? && Trim(c.s) == [])) ==> r.None?
    ensures c.Text? && Trim(c.s) != [] ==> r == p.date(Trim(c.s))
  {
    match c
    case Null => None
    case NaN => None
    case Text(s) => if Trim(s) == [] then None else p.date(Trim(s))
  }

  /** `int(float(x)) if x is not None and str(x).strip() else None`, with `None` where it raises (NaN does). */
  function IntField(c: Cell, p: Parsers): (r: Option<int>)
    ensures !c.Text? || Trim(c.s) == [] ==> r.None?
  {
    if c.Text? && Trim(c.s) != [] then p.toInt(c.s) else None
  }

  /** `float(x) if x is not None and str(x).strip() else None`: NaN stays NaN. */
  function FloatField(c: Cell, p: Parsers): (r: Option<Float>)
    ensures c.NaN? ==> r == Some(NotANumber)
    ensures c.Null? || (c.Text? && Trim(c.s) == []) ==> r.None?
  {
    match c
    case Null => None
    case NaN => Some(NotANumber)
    case Text(s) => if Trim(s) == [] then None else p.toFloat(s)
  }

  // ------------------------------------------------------------ rows as written

  /** The first column, `list(df.columns)[:1]`. */
  function FirstColumn(columns: seq<string>): seq<string> { if columns == [] then [] else [columns[0]] }

  /** One row of `parse_rpt_df`: the key columns, then the first column, give the key; no key, no row. */
  function RptRowOf(row: Row, columns: seq<string>, vintage: string, p: Parsers): (r: Option<RptRow>)
    ensures r.None? <==> FirstUsable(row, RptKeyCols).None? && FirstUsable(row, FirstColumn(columns)).None?
    ensures r.Some? ==> r.value.key != [] && r.value.vintage == vintage
  {
    var k1 := FirstUsable(row, RptKeyCols);
    var key := if k1.Some? then k1 else FirstUsable(row, FirstColumn(columns));
    if key.None? then None
    else
      Some(RptRow(Trim(PyStr(key.value)), Stripped(OrNull(FirstUsable(row, RptCcnCols))),
                  ParseDate(OrNull(FirstUsable(row, RptFyBgnCols)), p),
                  ParseDate(OrNull(FirstUsable(row, RptFyEndCols)), p),
                  Stripped(OrNull(FirstUsable(row, RptStatusCols))), vintage))
  }

  /** One row of `parse_nmrc_df`: no key, no row; unreadable numbers become `None`. */
  function NmrcRowOf(row: Row, p: Parsers): (r: Option<NmrcRow>)
    ensures r.None? <==> FirstUsable(row, NmrcKeyCols).None?
    ensures r.Some? ==> r.value.key != []
  {
    var key := FirstUsable(row, NmrcKeyCols);
    if key.None? then None
    else
      Some(NmrcRow(Trim(PyStr(key.value)), Stripped(OrNull(FirstUsable(row, NmrcWkshtCols))),
                   IntField(OrNull(FirstUsable(row, NmrcLineCols)), p),
                   IntField(OrNull(FirstUsable(row, NmrcClmnCols)), p),
                   FloatField(OrNull(FirstUsable(row, NmrcValCols)), p)))
  }

  predicate IsValueColumn(c: string) { Contains(Upper(c), "VAL") || Contains(Upper(c), "TEXT") }

  /** `val_cols[:5]`: the four fixed value columns, then the first table column that looks like one. */
  function AlphaValCols(columns: seq<string>): (r: seq<string>)
    ensures 4 <= |r| <= 5 && r[..4] == AlphaFixedValCols
    ensures |r| == 4 <==> Filter(columns, IsValueColumn) == []
    ensures |r| == 5 ==> r[4] == Filter(columns, IsValueColumn)[0]
  {
    var extra := Filter(columns, IsValueColumn);
    AlphaFixedValCols + (if extra == [] then [] else [extra[0]])
  }

  /** One row of `parse_alpha_df`: as NMRC, with the value kept as stripped text. */
  function AlphaRowOf(row: Row, columns: seq<string>, p: Parsers): (r: Option<AlphaRow>)
    ensures r.None? <==> FirstUsable(row, NmrcKeyCols).None?
    ensures r.Some? ==> r.value.key != []
  {
    var key := FirstUsable(row, NmrcKeyCols);
    if key.None? then None
    else
      Some(AlphaRow(Trim(PyStr(key.value)), Stripped(OrNull(FirstUsable(row, NmrcWkshtCols))),
                    IntField(OrNull(FirstUsable(row, NmrcLineCols)), p),
                    IntField(OrNull(FirstUsable(row, NmrcClmnCols)), p),
                    Stripped(OrNull(FirstUsable(row, AlphaValCols(columns))))))
  }

  /** One row of `parse_rpt_positional`: fields 0 key, 1 status, 2 CCN, 5 and 6 fiscal-year dates. */
  function RptPositional(parts: seq<Cell>, vintage: string, p: Parsers): (r: Option<RptRow>)
    ensures r.None? <==> |parts| < 7 || !Filled(parts[0])
    ensures r.Some? ==> r.value.key == Trim(PyStr(parts[0])) && r.value.key != [] && r.value.vintage == vintage
  {
    if |parts| < 7 || !Filled(parts[0]) then None
    else
      Some(RptRow(Trim(PyStr(parts[0])), if Truthy(parts[2]) then Some(Trim(PyStr(parts[2]))) else None,
                  ParseDate(parts[5], p), ParseDate(parts[6], p),
                  if Truthy(parts[1]) then Some(Trim(PyStr(parts[1]))) else None, vintage))
  }

  /** One row of `parse_nmrc_positional`: fields 0 key, 1 worksheet, 2 line, 3 column, 4 value. */
  function NmrcPositional(parts: seq<Cell>, p: Parsers): (r: Option<NmrcRow>)
    ensures r.None? <==> |parts| < 5 || !Filled(parts[0])
    ensures r.Some? ==> r.value.key == Trim(PyStr(parts[0])) && r.value.key != []
  {
    if |parts| < 5 || !Filled(parts[0]) then None
    else
      Some(NmrcRow(Trim(PyStr(parts[0])), Stripped(parts[1]), IntField(parts[2], p), IntField(parts[3], p),
                   FloatField(parts[4], p)))
  }

  /** One row of `parse_alpha_positional`: as NMRC, with the value kept as stripped text. */
  function AlphaPositional(parts: seq<Cell>, p: Parsers): (r: Option<AlphaRow>)
    ensures r.None? <==> |parts| < 5 || !Filled(parts[0])
    ensures r.Some? ==> r.value.key == Trim(PyStr(parts[0])) && r.value.key != []
  {
    if |parts| < 5 || !Filled(parts[0]) then None
    else
      Some(AlphaRow(Trim(PyStr(parts[0])), Stripped(parts[1]), IntField(parts[2], p), IntField(parts[3], p),
                    Stripped(parts[4])))
  }

  /**
   * As written, an empty key field is not skipped: pandas reads it as NaN,
   * which passes the `is not None` test and prints as "nan".
   */
  lemma NanKeyKept(vintage: string, p: Parsers)
    ensures var r := RptPositional([NaN, Null, Null, Null, Null, Null, Null], vintage, p);
      r.Some? && r.value.key == "nan"
    ensures var r := NmrcPositional([NaN, Null, Null, Null, NaN], p);
      r.Some? && r.value.key == "nan" && r.value.value == Some(NotANumber)
    ensures FirstUsable(map["RPT_REC_NUM" := NaN], NmrcKeyCols) == Some(NaN)
  {
    assert Trim("nan") == "nan" by { TrimLeftFixed("nan"); TrimRightFixed("nan"); }
    assert Usable(map["RPT_REC_NUM" := NaN], NmrcKeyCols[0]);
  }

  // ------------------------------------------------------------ missing fields

  /** NaN is a missing field, as `_parse_date` already treats it. */
  function Clean(c: Cell): (r: Cell)
    ensures !r.NaN?
    ensures c.Text? ==> r == c
  {
    if c.NaN? then Null else c
  }

  function CleanRow(row: Row): (r: Row)
    ensures r.Keys == row.Keys
    ensures forall k :: k in r ==> r[k] == Clean(row[k])
  {
    map k | k in row :: Clean(row[k])
  }

  function CleanParts(parts: seq<Cell>): (r: seq<Cell>)
    ensures |r| == |parts|
    ensures forall i :: 0 <= i < |parts| ==> r[i] == Clean(parts[i])
  {
    seq(|parts|, i requires 0 <= i < |parts| => Clean(parts[i]))
  }

  /** With NaN read as missing, a headerless row is kept exactly when its key field holds non-blank text. */
  lemma CleanKeyKept(parts: seq<Cell>, vintage: string, p: Parsers)
    ensures var r := RptPositional(CleanParts(parts), vintage, p);
      (r.Some? <==> |parts| >= 7 && parts[0].Text? && Trim(parts[0].s) != [])
      && (r.Some? ==> r.value.key == Trim(parts[0].s))
    ensures var r := NmrcPositional(CleanParts(parts), p);
      (r.Some? <==> |parts| >= 5 && parts[0].Text? && Trim(parts[0].s) != [])
      && (r.Some? ==> r.value.key == Trim(parts[0].s) && (parts[4].NaN? ==> r.value.value.None?))
  {
  }

  // ------------------------------------------------------------ tables

  /** The values a row function keeps, in row order: the `for … continue … append` shape of every parser. */
  function Collect<A, B>(xs: seq<A>, f: A -> Option<B>): (r: seq<B>)
    ensures |r| == CountIf(xs, (x: A) => f(x).Some?)
    decreases |xs|
  {
    if xs == [] then []
    else
      var init := Collect(xs[..|xs| - 1], f);
      var last := f(xs[|xs| - 1]);
      if last.Some? then init + [last.value] else init
  }

  /** The loop every parser runs over its rows. */
  method KeepRows<A, B>(xs: seq<A>, f: A -> Option<B>) returns (out: seq<B>)
    ensures out == Collect(xs, f)
  {
    out := [];
    var i := 0;
    while i < |xs|
      invariant i <= |xs|
      invariant out == Collect(xs[..i], f)
    {
      assert xs[..i + 1][..i] == xs[..i];
      var r := f(xs[i]);
      if r.Some? {
        out := out + [r.value];
      }
      i := i + 1;
    }
    assert xs[..i] == xs;
  }

  /** Parsing two runs of rows one after the other is parsing their concatenation. */
  lemma {:induction false} CollectAppend<A, B>(a: seq<A>, b: seq<A>, f: A -> Option<B>)
    ensures Collect(a + b, f) == Collect(a, f) + Collect(b, f)
    decreases |b|
  {
    if b == [] {
      assert a + b == a;
    } else {
      var n := |b| - 1;
      assert (a + b)[..|a + b| - 1] == a + b[..n];
      assert (a + b)[|a + b| - 1] == b[n];
      CollectAppend(a, b[..n], f);
    }
  }

  /** Every value kept comes from some row, and every row the function accepts gives one. */
  lemma {:induction false} CollectFrom<A, B>(xs: seq<A>, f: A -> Option<B>, y: B)
    ensures y in Collect(xs, f) <==> exists i :: 0 <= i < |xs| && f(xs[i]) == Some(y)
    decreases |xs|
  {
    if xs != [] {
      var n := |xs| - 1;
      var init := xs[..n];
      CollectFrom(init, f, y);
      if y in Collect(xs, f) {
        if y in Collect(init, f) {
          var i :| 0 <= i < |init| && f(init[i]) == Some(y);
          assert xs[i] == init[i];
        } else {
          assert f(xs[n]) == Some(y);
        }
      }
      if exists i :: 0 <= i < |xs| && f(xs[i]) == Some(y) {
        var i :| 0 <= i < |xs| && f(xs[i]) == Some(y);
        if i < n {
          assert init[i] == xs[i];
        }
      }
    }
  }

  function RptOf(columns: seq<string>, vintage: string, p: Parsers): Row -> Option<RptRow>
  {
    (r: Row) => RptRowOf(CleanRow(r), columns, vintage, p)
  }

  function NmrcOf(p: Parsers): Row -> Option<NmrcRow>
  {
    (r: Row) => NmrcRowOf(CleanRow(r), p)
  }

  function AlphaOf(columns: seq<string>, p: Parsers): Row -> Option<AlphaRow>
  {
    (r: Row) => AlphaRowOf(CleanRow(r), columns, p)
  }

  function RptPos(vintage: string, p: Parsers): seq<Cell> -> Option<RptRow>
  {
    (parts: seq<Cell>) => RptPositional(CleanParts(parts), vintage, p)
  }

  function NmrcPos(p: Parsers): seq<Cell> -> Option<NmrcRow>
  {
    (parts: seq<Cell>) => NmrcPositional(CleanParts(parts), p)
  }

  function AlphaPos(p: Parsers): seq<Cell> -> Option<AlphaRow>
  {
    (parts: seq<Cell>) => AlphaPositional(CleanParts(parts), p)
  }

  /** `parse_rpt_df` */
  method ParseRptDf(df: Frame, vintage: string, p: Parsers) returns (rows: seq<RptRow>)
    ensures rows == Collect(df.rows, RptOf(df.columns, vintage, p))
  {
    rows := KeepRows(df.rows, RptOf(df.columns, vintage, p));
  }

  /** `parse_nmrc_df` */
  method ParseNmrcDf(df: Frame, p: Parsers) returns (rows: seq<NmrcRow>)
    ensures rows == Collect(df.rows, NmrcOf(p))
  {
    rows := KeepRows(df.rows, NmrcOf(p));
  }

  /** `parse_alpha_df`: the value columns are fixed once for the whole table. */
  method ParseAlphaDf(df: Frame, p: Parsers) returns (rows: seq<AlphaRow>)
    ensures rows == Collect(df.rows, AlphaOf(df.columns, p))
  {
    rows := KeepRows(df.rows, AlphaOf(df.columns, p));
  }

  /** `parse_rpt_positional` */
  method ParseRptPositional(t: Table, vintage: string, p: Parsers) returns (rows: seq<RptRow>)
    ensures rows == Collect(t.rows, RptPos(vintage, p))
  {
    rows := KeepRows(t.rows, RptPos(vintage, p));
  }

  /** `parse_nmrc_positional` */
  method ParseNmrcPositional(t: Table, p: Parsers) returns (rows: seq<NmrcRow>)
    ensures rows == Collect(t.rows, NmrcPos(p))
  {
    rows := KeepRows(t.rows, NmrcPos(p));
  }

  /** `parse_alpha_positional` */
  method ParseAlphaPositional(t: Table, p: Parsers) returns (rows: seq<AlphaRow>)
    ensures rows == Collect(t.rows, AlphaPos(p))
  {
    rows := KeepRows(t.rows, AlphaPos(p));
  }

  /** A table read with a header keeps one RPT row per row with a key, each carrying the form vintage. */
  lemma RptDfRows(df: Frame, vintage: string, p: Parsers, y: RptRow)
    requires y in Collect(df.rows, RptOf(df.columns, vintage, p))
    ensures y.key != [] && y.vintage == vintage
    ensures exists i :: 0 <= i < |df.rows| && RptRowOf(CleanRow(df.rows[i]), df.columns, vintage, p) == Some(y)
  {
    CollectFrom(df.rows, RptOf(df.columns, vintage, p), y);
  }

  /**
   * A headerless NMRC table keeps exactly its rows of at least five fields
   * whose first field holds non-blank text, and each kept row's key is that
   * text stripped.
   */
  lemma NmrcPositionalRows(t: Table, p: Parsers, y: NmrcRow)
    ensures y in Collect(t.rows, NmrcPos(p)) <==>
      exists i :: 0 <= i < |t.rows| && NmrcPositional(CleanParts(t.rows[i]), p) == Some(y)
    ensures y in Collect(t.rows, NmrcPos(p)) ==>
      exists i :: 0 <= i < |t.rows| && |t.rows[i]| >= 5 && t.rows[i][0].Text? && y.key == Trim(t.rows[i][0].s)
  {
    CollectFrom(t.rows, NmrcPos(p), y);
    if y in Collect(t.rows, NmrcPos(p)) {
      var i :| 0 <= i < |t.rows| && NmrcPositional(CleanParts(t.rows[i]), p) == Some(y);
      CleanKeyKept(t.rows[i], "", p);
    }
  }

  // ------------------------------------------------------------ the archive

  /** `pattern` occurs in the name, and none of `exclude` does, ignoring case. */
  predicate MemberMatches(name: string, pattern: string, exclude: seq<string>)
  {
    Contains(Lower(name), Lower(pattern)) && forall e :: e in exclude ==> !Contains(Lower(name), Lower(e))
  }

  /** `find_in_zip`: the first member name that matches. */
  method FindInZip(names: seq<string>, pattern: string, exclude: seq<string>) returns (r: Option<string>)
    ensures r.None? <==> forall i :: 0 <= i < |names| ==> !MemberMatches(names[i], pattern, exclude)
    ensures r.Some? ==> exists i :: 0 <= i < |names| && names[i] == r.value && MemberMatches(names[i], pattern, exclude)
                                    && forall j :: 0 <= j < i ==> !MemberMatches(names[j], pattern, exclude)
  {
    var i := 0;
    while i < |names|
      invariant i <= |names|
      invariant forall j :: 0 <= j < i ==> !MemberMatches(names[j], pattern, exclude)
    {
      var nlower := Lower(names[i]);
      if Contains(nlower, Lower(pattern)) && !(exists e :: e in exclude && Contains(nlower, Lower(e))) {
        return Some(names[i]);
      }
      i := i + 1;
    }
    return None;
  }

  /** `_find_all_in_zip`: the matching member names, in archive order. */
  function FindAllInZip(names: seq<string>, pattern: string, exclude: seq<string>): (r: seq<string>)
    ensures forall n :: n in r <==> n in names && MemberMatches(n, pattern, exclude)
  {
    Filter(names, (n: string) => MemberMatches(n, pattern, exclude))
  }

  /** `df.empty or len(df.columns) < width`: a member read as nothing, or too narrow, is skipped. */
  predicate Skipped(t: Table, minWidth: nat) { t.rows == [] || t.width == 0 || t.width < minWidth }

  /** The rows of the members, taken in the order given, skipping empty or narrow members. */
  function FromFiles<B>(files: seq<string>, read: string -> Table, minWidth: nat, f: seq<Cell> -> Option<B>): seq<B>
    decreases |files|
  {
    if files == [] then []
    else
      var t := read(files[|files| - 1]);
      FromFiles(files[..|files| - 1], read, minWidth, f) + (if Skipped(t, minWidth) then [] else Collect(t.rows, f))
  }

  /** One of the three loops of `parse_hcris_zip`: read each member without a header and extend. */
  method ParseFiles<B>(files: seq<string>, read: string -> Table, minWidth: nat, f: seq<Cell> -> Option<B>)
    returns (out: seq<B>)
    ensures out == FromFiles(files, read, minWidth, f)
  {
    out := [];
    var i := 0;
    while i < |files|
      invariant i <= |files|
      invariant out == FromFiles(files[..i], read, minWidth, f)
    {
      assert files[..i + 1][..i] == files[..i];
      var t := read(files[i]);
      if !(t.rows == [] || t.width == 0 || t.width < minWidth) {
        var rows := KeepRows(t.rows, f);
        out := out + rows;
      }
      i := i + 1;
    }
    assert files[..i] == files;
  }

  function RptMembers(names: seq<string>): seq<string> { Sorting.SortStrings(FindAllInZip(names, "rpt", ["nmrc", "alpha"])) }
  function NmrcMembers(names: seq<string>): seq<string> { Sorting.SortStrings(FindAllInZip(names, "nmrc", [])) }
  function AlphaMembers(names: seq<string>): seq<string> { Sorting.SortStrings(FindAllInZip(names, "alpha", [])) }

  /**
   * `parse_hcris_zip`: the archive is its member names and `read`, which
   * reads a member without a header. RPT members (not NMRC or Alpha ones)
   * narrower than seven fields, and NMRC and Alpha members narrower than
   * five, are skipped; the rest are parsed by position in name order.
   */
  method ParseHcrisZip(names: seq<string>, read: string -> Table, vintage: string, p: Parsers)
    returns (rpt: seq<RptRow>, nmrc: seq<NmrcRow>, alpha: seq<AlphaRow>)
    ensures rpt == FromFiles(RptMembers(names), read, 7, RptPos(vintage, p))
    ensures nmrc == FromFiles(NmrcMembers(names), read, 5, NmrcPos(p))
    ensures alpha == FromFiles(AlphaMembers(names), read, 5, AlphaPos(p))
  {
    rpt := ParseFiles(RptMembers(names), read, 7, RptPos(vintage, p));
    nmrc := ParseFiles(NmrcMembers(names), read, 5, NmrcPos(p));
    alpha := ParseFiles(AlphaMembers(names), read, 5, AlphaPos(p));
  }

  /** Member `k` is read, not skipped, and gives the row `y`. */
  ghost predicate YieldsAt<B>(files: seq<string>, read: string -> Table, minWidth: nat, f: seq<Cell> -> Option<B>, y: B, k: int)
  {
    0 <= k < |files| && !Skipped(read(files[k]), minWidth) && y in Collect(read(files[k]).rows, f)
  }

  /** Rows come only from members that are not skipped, and every row of such a member that is kept appears. */
  lemma {:induction false} FromFilesFrom<B>(files: seq<string>, read: string -> Table, minWidth: nat,
                                            f: seq<Cell> -> Option<B>, y: B)
    ensures y in FromFiles(files, read, minWidth, f) <==> exists k :: YieldsAt(files, read, minWidth, f, y, k)
    decreases |files|
  {
    if files != [] {
      var n := |files| - 1;
      var init := files[..n];
      var t := read(files[n]);
      var tail := if Skipped(t, minWidth) then [] else Collect(t.rows, f);
      var whole := FromFiles(files, read, minWidth, f);
      assert whole == FromFiles(init, read, minWidth, f) + tail;
      FromFilesFrom(init, read, minWidth, f, y);
      if y in whole {
        if y in FromFiles(init, read, minWidth, f) {
          var k :| YieldsAt(init, read, minWidth, f, y, k);
          assert init[k] == files[k];
          assert YieldsAt(files, read, minWidth, f, y, k);
        } else {
          assert y in tail;
          assert YieldsAt(files, read, minWidth, f, y, n);
        }
      }
      if exists k :: YieldsAt(files, read, minWidth, f, y, k) {
        var k :| YieldsAt(files, read, minWidth, f, y, k);
        if k < n {
          assert init[k] == files[k];
          assert YieldsAt(init, read, minWidth, f, y, k);
        } else {
          assert y in tail;
        }
        assert y in whole;
      }
    }
  }

  /** Every RPT row of the archive comes from a member whose name holds `rpt` but neither `nmrc` nor `alpha`, ignoring case. */
  lemma RptRowsFromRptMembers(names: seq<string>, read: string -> Table, vintage: string, p: Parsers, y: RptRow)
    requires y in FromFiles(RptMembers(names), read, 7, RptPos(vintage, p))
    ensures exists name :: (name in names && MemberMatches(name, "rpt", ["nmrc", "alpha"])
      && !Skipped(read(name), 7) && y in Collect(read(name).rows, RptPos(vintage, p)))
  {
    var members := RptMembers(names);
    FromFilesFrom(members, read, 7, RptPos(vintage, p), y);
    var k :| YieldsAt(members, read, 7, RptPos(vintage, p), y, k);
    var all := FindAllInZip(names, "rpt", ["nmrc", "alpha"]);
    Sorting.SortStringsSpec(all);
    assert members[k] in multiset(all);
    assert members[k] in all;
  }

  /** Archives listing the same member names select the same members, in the same order. */
  lemma SameMembers(names1: seq<string>, names2: seq<string>, pattern: string, exclude: seq<string>)
    requires multiset(names1) == multiset(names2)
    ensures Sorting.SortStrings(FindAllInZip(names1, pattern, exclude))
         == Sorting.SortStrings(FindAllInZip(names2, pattern, exclude))
  {
    var m := (n: string) => MemberMatches(n, pattern, exclude);
    var a := FindAllInZip(names1, pattern, exclude);
    var b := FindAllInZip(names2, pattern, exclude);
    forall x ensures multiset(a)[x] == multiset(b)[x] {
      FilterCounts(names1, m, x);
      FilterCounts(names2, m, x);
    }
    assert multiset(a) == multiset(b);
    Sorting.SortStringsSpec(a);
    Sorting.SortStringsSpec(b);
    Sorting.SortedStringsUnique(Sorting.SortStrings(a), Sorting.SortStrings(b));
  }

  /** The rows parsed from an archive do not depend on the order in which it lists its members. */
  lemma ArchiveOrderIrrelevant(names1: seq<string>, names2: seq<string>, read: string -> Table, vintage: string,
                               p: Parsers)
    requires multiset(names1) == multiset(names2)
    ensures FromFiles(RptMembers(names1), read, 7, RptPos(vintage, p))
         == FromFiles(RptMembers(names2), read, 7, RptPos(vintage, p))
    ensures FromFiles(NmrcMembers(names1), read, 5, NmrcPos(p)) == FromFiles(NmrcMembers(names2), read, 5, NmrcPos(p))
    ensures FromFiles(AlphaMembers(names1), read, 5, AlphaPos(p)) == FromFiles(AlphaMembers(names2), read, 5, AlphaPos(p))
  {
    SameMembers(names1, names2, "rpt", ["nmrc", "alpha"]);
    SameMembers(names1, names2, "nmrc", []);
    SameMembers(names1, names2, "alpha", []);
  }
}
