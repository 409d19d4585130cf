/**
 * The CMHC cost-report skills over landed HCRIS rows: the state to CCN
 * range table, a worksheet as a line-by-column grid, one cell, the rank of
 * a report among its state's peers, and the choice of a report found by
 * name. The rows each BigQuery query returns are inputs.
 */
module CostSkills {
  import opened Text
  import Sorting
  import CostColumns

  // ------------------------------------------------------------ states

  /** `STATE_CCN_RANGES`: the first four CCN digits of a state's community mental health centers. */
  const StateCcnRanges: map<string, (int, int)> := map["FL" := (4600, 4999), "FLORIDA" := (4600, 4999)]

  /** The range every CCN falls in. */
  const AllCcns := (0, 99999)

  /** `STATE_CCN_RANGES.get(state.upper(), (0, 99999))` */
  function CcnRange(state: string): (int, int)
  {
    if Upper(state) in StateCcnRanges then StateCcnRanges[Upper(state)] else AllCcns
  }

  /** Florida, by code or name in any case, is 4600-4999; any other state covers every CCN. */
  lemma CcnRangeSpec(state: string)
    ensures Upper(state) == "FL" || Upper(state) == "FLORIDA" ==> CcnRange(state) == (4600, 4999)
    ensures Upper(state) != "FL" && Upper(state) != "FLORIDA" ==> CcnRange(state) == (0, 99999)
    ensures CcnRange(state) == CcnRange(Upper(state))
  {
    var u := Upper(state);
    assert Upper(u) == u by { assert forall i :: 0 <= i < |u| ==> Upper(u)[i] == u[i]; }
  }

  /** The range `compare_to_peers` uses, with its second test for an unknown state. */
  function PeerRange(state: string): (int, int)
  {
    var r := CcnRange(state);
    if Upper(state) !in ["FL", "FLORIDA"] && Upper(state) !in StateCcnRanges then AllCcns else r
  }

  /** The second test changes nothing: peers are drawn from the same range as elsewhere. */
  lemma PeerRangeSame(state: string)
    ensures PeerRange(state) == CcnRange(state)
  {
  }

  // ------------------------------------------------------------ the grid

  /** A stored value as BigQuery returns it: NULL, a number or text. */
  datatype Val = Null | Num(x: real) | Txt(s: string)

  /** One landed row of a worksheet: its line, its column (either may be NULL) and its value. */
  datatype CellRow = CellRow(line: Option<int>, column: Option<int>, value: Val)

  /** `x or 0` */
  function OrZero(o: Option<int>): int { if o.Some? then o.value else 0 }

  /** The grid key of a row: a NULL line or column counts as 0. */
  function Pos(r: CellRow): (int, int) { (OrZero(r.line), OrZero(r.column)) }

  type Grid = map<(int, int), Val>

  /** The NMRC rows stored in turn, so the last row at a key wins. */
  function NumericGrid(rows: seq<CellRow>): Grid
    decreases |rows|
  {
    if rows == [] then map[]
    else
      var n := |rows| - 1;
      NumericGrid(rows[..n])[Pos(rows[n]) := rows[n].value]
  }

  /** The Alpha rows stored in turn, each only where the key is still free. */
  function AlphaFilled(g: Grid, rows: seq<CellRow>): Grid
    decreases |rows|
  {
    if rows == [] then g
    else
      var n := |rows| - 1;
      var g' := AlphaFilled(g, rows[..n]);
      if Pos(rows[n]) in g' then g' else g'[Pos(rows[n]) := rows[n].value]
  }

  function WorksheetGrid(nmrc: seq<CellRow>, alpha: seq<CellRow>, includeAlpha: bool): Grid
  {
    if includeAlpha then AlphaFilled(NumericGrid(nmrc), alpha) else NumericGrid(nmrc)
  }

  /** The two loops of `get_worksheet` that fill `grid`. */
  method FillGrid(nmrc: seq<CellRow>, alpha: seq<CellRow>, includeAlpha: bool) returns (grid: Grid)
    ensures grid == WorksheetGrid(nmrc, alpha, includeAlpha)
  {
    grid := map[];
    var i := 0;
    while i < |nmrc|
      invariant i <= |nmrc|
      invariant grid == NumericGrid(nmrc[..i])
    {
      assert nmrc[..i + 1][..i] == nmrc[..i];
      grid := grid[Pos(nmrc[i]) := nmrc[i].value];
      i := i + 1;
    }
    assert nmrc[..i] == nmrc;
    if includeAlpha {
      var numeric := grid;
      var j := 0;
      while j < |alpha|
        invariant j <= |alpha|
        invariant grid == AlphaFilled(numeric, alpha[..j])
      {
        assert alpha[..j + 1][..j] == alpha[..j];
        var k := Pos(alpha[j]);
        if k !in grid {
          grid := grid[k := alpha[j].value];
        }
        j := j + 1;
      }
      assert alpha[..j] == alpha;
    }
  }

  /** Row `i` is the last one at key `k`. */
  predicate LastAt(rows: seq<CellRow>, k: (int, int), i: int)
  {
    0 <= i < |rows| && Pos(rows[i]) == k && forall j :: i < j < |rows| ==> Pos(rows[j]) != k
  }

  /** Row `i` is the first one at key `k`. */
  predicate FirstAt(rows: seq<CellRow>, k: (int, int), i: int)
  {
    0 <= i < |rows| && Pos(rows[i]) == k && forall j :: 0 <= j < i ==> Pos(rows[j]) != k
  }

  /** The numeric grid holds the keys of the NMRC rows, each with the value of the last row at it. */
  lemma {:induction false} NumericGridLast(rows: seq<CellRow>, k: (int, int))
    ensures k in NumericGrid(rows) <==> exists i :: 0 <= i < |rows| && Pos(rows[i]) == k
    ensures k in NumericGrid(rows) ==> exists i :: LastAt(rows, k, i) && NumericGrid(rows)[k] == rows[i].value
    decreases |rows|
  {
    if rows != [] {
      var n := |rows| - 1;
      var init := rows[..n];
      var g0 := NumericGrid(init);
      var g := NumericGrid(rows);
      assert g == g0[Pos(rows[n]) := rows[n].value];
      NumericGridLast(init, k);
      if Pos(rows[n]) == k {
        assert LastAt(rows, k, n) && g[k] == rows[n].value;
      } else {
        assert (k in g) == (k in g0);
        if k in g0 {
          var i :| LastAt(init, k, i) && g0[k] == init[i].value;
          assert init[i] == rows[i];
          forall j | i < j < |rows| ensures Pos(rows[j]) != k {
            if j < n { assert rows[j] == init[j]; }
          }
          assert LastAt(rows, k, i) && g[k] == rows[i].value;
        }
        if exists i :: 0 <= i < |rows| && Pos(rows[i]) == k {
          var i :| 0 <= i < |rows| && Pos(rows[i]) == k;
          assert init[i] == rows[i];
        }
      }
    }
  }

  /** Alpha rows never change a key already present, and a free key takes the first Alpha row at it. */
  lemma {:induction false} AlphaFilledFirst(g: Grid, rows: seq<CellRow>, k: (int, int))
    ensures k in AlphaFilled(g, rows) <==> k in g || exists i :: 0 <= i < |rows| && Pos(rows[i]) == k
    ensures k in g ==> AlphaFilled(g, rows)[k] == g[k]
    ensures k !in g && k in AlphaFilled(g, rows) ==>
      exists i :: FirstAt(rows, k, i) && AlphaFilled(g, rows)[k] == rows[i].value
    decreases |rows|
  {
    if rows != [] {
      var n := |rows| - 1;
      var init := rows[..n];
      AlphaFilledFirst(g, init, k);
      assert forall i :: 0 <= i < n ==> init[i] == rows[i];
      var g' := AlphaFilled(g, init);
      if k !in g && k in g' {
        var i :| FirstAt(init, k, i) && g'[k] == init[i].value;
        assert FirstAt(rows, k, i);
      } else if k !in g && Pos(rows[n]) == k {
        assert FirstAt(rows, k, n);
      }
    }
  }

  /**
   * The worksheet grid: its keys are those of the NMRC rows and, with Alpha
   * included, of the Alpha rows; an NMRC key holds its last NMRC value, and
   * any other key its first Alpha value.
   */
  lemma GridSpec(nmrc: seq<CellRow>, alpha: seq<CellRow>, includeAlpha: bool, k: (int, int))
    ensures var g := WorksheetGrid(nmrc, alpha, includeAlpha);
      (k in g <==> (exists i :: 0 <= i < |nmrc| && Pos(nmrc[i]) == k)
                   || (includeAlpha && exists i :: 0 <= i < |alpha| && Pos(alpha[i]) == k))
      && ((exists i :: 0 <= i < |nmrc| && Pos(nmrc[i]) == k) ==> exists i :: LastAt(nmrc, k, i) && g[k] == nmrc[i].value)
      && (k in g && !(exists i :: 0 <= i < |nmrc| && Pos(nmrc[i]) == k) ==>
            exists i :: FirstAt(alpha, k, i) && g[k] == alpha[i].value)
  {
    NumericGridLast(nmrc, k);
    AlphaFilledFirst(NumericGrid(nmrc), alpha, k);
  }

  // ------------------------------------------------------------ the sheet

  function LineSet(g: Grid): set<int> { set k | k in g :: k.0 }
  function ColSet(g: Grid): set<int> { set k | k in g :: k.1 }

  /** `grid.get(k)` */
  function At(g: Grid, k: (int, int)): Val { if k in g then g[k] else Null }

  /** A worksheet as `get_worksheet` returns it: nothing stored, or the grid with its labels and headers. */
  datatype Sheet = NoCells | Sheet(grid: seq<seq<Val>>, lines: seq<int>, cols: seq<int>, names: seq<string>)

  /** `rows` */
  function RowCount(w: Sheet): nat { if w.NoCells? then 0 else |w.lines| }

  /** `cols` */
  function ColCount(w: Sheet): nat { if w.NoCells? then 0 else |w.cols| }

  /** `[grid.get((line, c)) for c in cols]` */
  function SheetRow(g: Grid, line: int, cols: seq<int>): (r: seq<Val>)
    ensures |r| == |cols| && forall j :: 0 <= j < |cols| ==> r[j] == At(g, (line, cols[j]))
  {
    seq(|cols|, j requires 0 <= j < |cols| => At(g, (line, cols[j])))
  }

  /**
   * The sheet of a filled grid: lines and columns are the sorted distinct
   * keys; cell (i, j) holds the value at (line i, column j), or nothing; the
   * headers are those of the columns under the form vintage, 2088-17 when
   * none is given.
   */
  function SheetOf(g: Grid, code: string, vintage: Option<string>): (w: Sheet)
    ensures w.NoCells? <==> g == map[]
    ensures w.Sheet? ==> |w.grid| == |w.lines| && forall i :: 0 <= i < |w.grid| ==> |w.grid[i]| == |w.cols|
    ensures w.Sheet? ==> forall i, j :: 0 <= i < |w.lines| && 0 <= j < |w.cols| ==>
      w.grid[i][j] == At(g, (w.lines[i], w.cols[j]))
  {
    if g == map[] then NoCells
    else
      var lines := Sorting.SortedSet(LineSet(g));
      var cols := Sorting.SortedSet(ColSet(g));
      Sheet(SheetRows(g, lines, cols), lines, cols, CostColumns.ColumnNames(code, cols, OrElse(vintage, CostColumns.DefaultVintage)))
  }

  function SheetRows(g: Grid, lines: seq<int>, cols: seq<int>): (r: seq<seq<Val>>)
    ensures |r| == |lines| && forall i :: 0 <= i < |lines| ==> r[i] == SheetRow(g, lines[i], cols)
  {
    seq(|lines|, i requires 0 <= i < |lines| => SheetRow(g, lines[i], cols))
  }

  /** The loop of `get_worksheet` that lays the grid out line by line. */
  method AssembleSheet(g: Grid, code: string, vintage: Option<string>) returns (w: Sheet)
    ensures w == SheetOf(g, code, vintage)
  {
    if g == map[] {
      return NoCells;
    }
    var lines := Sorting.SortedSet(LineSet(g));
    var cols := Sorting.SortedSet(ColSet(g));
    var rows: seq<seq<Val>> := [];
    var i := 0;
    while i < |lines|
      invariant i <= |lines|
      invariant rows == SheetRows(g, lines[..i], cols)
    {
      rows := rows + [SheetRow(g, lines[i], cols)];
      i := i + 1;
    }
    assert lines[..i] == lines;
    w := Sheet(rows, lines, cols, CostColumns.ColumnNames(code, cols, OrElse(vintage, CostColumns.DefaultVintage)));
  }

  /**
   * Every stored value appears in the sheet exactly once, at its line and
   * column; there are as many rows as distinct lines and as many columns as
   * distinct columns, one header each.
   */
  lemma SheetCells(g: Grid, code: string, vintage: Option<string>, k: (int, int))
    requires k in g
    ensures var w := SheetOf(g, code, vintage);
      w.Sheet? && RowCount(w) == |LineSet(g)| && ColCount(w) == |ColSet(g)| && |w.names| == ColCount(w)
      && (exists i, j :: 0 <= i < |w.lines| && 0 <= j < |w.cols| && w.lines[i] == k.0 && w.cols[j] == k.1
                         && w.grid[i][j] == g[k])
      && (forall i, j :: 0 <= i < |w.lines| && 0 <= j < |w.cols| && w.lines[i] == k.0 && w.cols[j] == k.1 ==>
                         w.grid[i][j] == g[k])
  {
    var w := SheetOf(g, code, vintage);
    assert k.0 in LineSet(g) && k.1 in ColSet(g);
    var i :| 0 <= i < |w.lines| && w.lines[i] == k.0;
    var j :| 0 <= j < |w.cols| && w.cols[j] == k.1;
    assert w.grid[i][j] == g[k];
  }

  // ------------------------------------------------------------ one cell

  datatype CellKind = Numeric | Alphanumeric

  /** `get_cell`'s answer: the value, and which table it came from (`None` when neither has it). */
  datatype CellAnswer = CellAnswer(value: Val, kind: Option<CellKind>)

  /** The SQL match `line = @line AND column = @col`: a NULL line or column never matches. */
  predicate AtCell(r: CellRow, line: int, column: int) { r.line == Some(line) && r.column == Some(column) }

  /** `LIMIT 1`: the value of the first row at the cell. */
  function FirstValue(rows: seq<CellRow>, line: int, column: int): (r: Option<Val>)
    ensures r.None? <==> forall i :: 0 <= i < |rows| ==> !AtCell(rows[i], line, column)
    ensures r.Some? ==> exists i :: 0 <= i < |rows| && AtCell(rows[i], line, column) && r.value == rows[i].value
                                    && forall j :: 0 <= j < i ==> !AtCell(rows[j], line, column)
    decreases |rows|
  {
    if rows == [] then None
    else if AtCell(rows[0], line, column) then Some(rows[0].value)
    else
      assert forall i :: 1 <= i < |rows| ==> rows[i] == rows[1..][i - 1];
      FirstValue(rows[1..], line, column)
  }

  /** `get_cell`: the NMRC rows of the worksheet first, then the Alpha rows. */
  function GetCell(nmrc: seq<CellRow>, alpha: seq<CellRow>, line: int, column: int): (r: CellAnswer)
    ensures r.kind == Some(Numeric) <==> exists i :: 0 <= i < |nmrc| && AtCell(nmrc[i], line, column)
    ensures r.kind == Some(Alphanumeric) <==>
      (forall i :: 0 <= i < |nmrc| ==> !AtCell(nmrc[i], line, column))
      && exists i :: 0 <= i < |alpha| && AtCell(alpha[i], line, column)
    ensures r.kind.None? ==> r.value == Null
  {
    match FirstValue(nmrc, line, column)
    case Some(v) => CellAnswer(v, Some(Numeric))
    case None =>
      match FirstValue(alpha, line, column)
      case Some(v) => CellAnswer(v, Some(Alphanumeric))
      case None => CellAnswer(Null, None)
  }

  predicate Keyed(rows: seq<CellRow>) { forall i :: 0 <= i < |rows| ==> rows[i].line.Some? && rows[i].column.Some? }

  predicate OnePerCell(rows: seq<CellRow>) { forall i, j :: 0 <= i < j < |rows| ==> Pos(rows[i]) != Pos(rows[j]) }

  /**
   * `get_cell` and `get_worksheet` agree: when every row has a line and a
   * column and no cell has two NMRC rows, one cell reads as the grid holds it,
   * and it is found exactly when the grid has it.
   */
  lemma CellMatchesSheet(nmrc: seq<CellRow>, alpha: seq<CellRow>, line: int, column: int)
    requires Keyed(nmrc) && Keyed(alpha) && OnePerCell(nmrc)
    ensures var g := WorksheetGrid(nmrc, alpha, true);
      var c := GetCell(nmrc, alpha, line, column);
      c.value == At(g, (line, column)) && (c.kind.Some? <==> (line, column) in g)
  {
    var k := (line, column);
    assert forall i :: 0 <= i < |nmrc| ==> (AtCell(nmrc[i], line, column) <==> Pos(nmrc[i]) == k);
    assert forall i :: 0 <= i < |alpha| ==> (AtCell(alpha[i], line, column) <==> Pos(alpha[i]) == k);
    GridSpec(nmrc, alpha, true, k);
    var g := WorksheetGrid(nmrc, alpha, true);
    var c := GetCell(nmrc, alpha, line, column);
    var fn := FirstValue(nmrc, line, column);
    var fa := FirstValue(alpha, line, column);
    if exists i :: 0 <= i < |nmrc| && Pos(nmrc[i]) == k {
      var i :| LastAt(nmrc, k, i) && g[k] == nmrc[i].value;
      var i0 :| 0 <= i0 < |nmrc| && AtCell(nmrc[i0], line, column) && fn.value == nmrc[i0].value;
      assert i0 == i;
      assert c == CellAnswer(fn.value, Some(Numeric));
    } else if k in g {
      var i :| FirstAt(alpha, k, i) && g[k] == alpha[i].value;
      var i0 :| 0 <= i0 < |alpha| && AtCell(alpha[i0], line, column) && fa.value == alpha[i0].value
                && forall j :: 0 <= j < i0 ==> !AtCell(alpha[j], line, column);
      assert i0 == i;
      assert c == CellAnswer(fa.value, Some(Alphanumeric));
    } else {
      assert fn.None? && fa.None?;
      assert c == CellAnswer(Null, None);
    }
  }

  // ------------------------------------------------------------ peers

  /** One row of the metric query: a peer report's key and its value at the cell. */
  datatype PeerValue = PeerValue(key: string, value: Option<real>)

  /** The keys of `values_by_key`, in the order a dict keeps them: first insertion. */
  function PeerKeys(rows: seq<PeerValue>): seq<string>
  {
    Dedup(MapSeq(rows, (r: PeerValue) => r.key))
  }

  /** `values_by_key.get(k)`: the value of the last row with that key. */
  function ValueOf(rows: seq<PeerValue>, k: string): Option<real>
    decreases |rows|
  {
    if rows == [] then None
    else if rows[|rows| - 1].key == k then rows[|rows| - 1].value
    else ValueOf(rows[..|rows| - 1], k)
  }

  /** `values_by_key.get(k) or 0`: a missing or NULL value counts as 0. */
  function Score(rows: seq<PeerValue>, k: string): real
  {
    var v := ValueOf(rows, k);
    if v.Some? then v.value else 0.0
  }

  /** The order of `sorted(..., reverse=True)`: higher scores first, equal scores in their earlier order. */
  function Descending(rows: seq<PeerValue>): (string, string) -> bool
  {
    (a: string, b: string) => Score(rows, a) >= Score(rows, b)
  }

  function SortedPeers(rows: seq<PeerValue>): seq<string>
  {
    Sorting.SortBy(PeerKeys(rows), Descending(rows))
  }

  /** The rank as written: the 1-based position of the target in the descending order. */
  function RankAsWritten(rows: seq<PeerValue>, target: string): Option<nat>
  {
    var sorted := SortedPeers(rows);
    if target in sorted then Some(IndexOf(sorted, target) + 1) else None
  }

  /** The peers scoring strictly higher than the target. */
  function Above(rows: seq<PeerValue>, target: string): string -> bool
  {
    (k: string) => Score(rows, k) > Score(rows, target)
  }

  /** The rank as the comment at the sort intends it: one more than the number of peers scoring strictly higher. */
  function Rank(rows: seq<PeerValue>, target: string): Option<nat>
  {
    if target in PeerKeys(rows) then Some(1 + CountIf(PeerKeys(rows), Above(rows, target))) else None
  }

  /** The sort lists the peers, each once: a key is in the order exactly when it is a peer. */
  lemma SortedPeersPerm(rows: seq<PeerValue>)
    ensures multiset(SortedPeers(rows)) == multiset(PeerKeys(rows))
    ensures forall k :: k in SortedPeers(rows) <==> k in PeerKeys(rows)
  {
    Sorting.SortBySpec(PeerKeys(rows), Descending(rows));
    var s := SortedPeers(rows);
    forall k ensures k in s <==> k in PeerKeys(rows) {
      assert k in s <==> k in multiset(s);
      assert k in PeerKeys(rows) <==> k in multiset(PeerKeys(rows));
    }
  }

  /** The sort puts higher scores first. */
  lemma SortedPeersOrder(rows: seq<PeerValue>)
    ensures forall i, j :: 0 <= i < j < |SortedPeers(rows)| ==>
      Score(rows, SortedPeers(rows)[i]) >= Score(rows, SortedPeers(rows)[j])
  {
    Sorting.SortBySpec(PeerKeys(rows), Descending(rows));
  }

  /** A report has a rank exactly when the metric query returned a row for it. */
  lemma {:induction false} PeerKeysSpec(rows: seq<PeerValue>, k: string)
    ensures k in PeerKeys(rows) <==> exists i :: 0 <= i < |rows| && rows[i].key == k
  {
    var ks := MapSeq(rows, (r: PeerValue) => r.key);
    forall i | 0 <= i < |rows| ensures ks[i] == rows[i].key { MapSeqAt(rows, (r: PeerValue) => r.key, i); }
  }

  /**
   * As written, peers with the same value get different ranks: two peers
   * never share a rank, so of two peers tied on value one is ranked below the
   * other.
   */
  lemma TiesSplit(rows: seq<PeerValue>, a: string, b: string)
    requires a in PeerKeys(rows) && b in PeerKeys(rows) && a != b
    ensures RankAsWritten(rows, a).Some? && RankAsWritten(rows, b).Some?
    ensures RankAsWritten(rows, a) != RankAsWritten(rows, b)
  {
    SortedPeersPerm(rows);
    var sorted := SortedPeers(rows);
    var ia := IndexOf(sorted, a);
    var ib := IndexOf(sorted, b);
    assert sorted[ia] != sorted[ib];
  }

  /** Two peers with the value 5 are ranked 1 and 2 as written, and both 1 as intended. */
  lemma TieExample()
    ensures var rows := [PeerValue("a", Some(5.0)), PeerValue("b", Some(5.0))];
      RankAsWritten(rows, "a") == Some(1) && RankAsWritten(rows, "b") == Some(2)
      && Rank(rows, "a") == Some(1) && Rank(rows, "b") == Some(1)
  {
    var rows := [PeerValue("a", Some(5.0)), PeerValue("b", Some(5.0))];
    assert MapSeq(rows, (r: PeerValue) => r.key) == ["a", "b"];
    var ab: seq<string> := ["a", "b"];
    assert ab[..1] == ["a"] && ab[..0] == [];
    assert Dedup(ab[..1]) == ["a"];
    assert PeerKeys(rows) == ["a", "b"];
    assert SortedPeers(rows) == ["a", "b"];
  }

  /**
   * The intended rank: only peers have one; equal values share a rank; a
   * strictly higher value ranks strictly better; the top value ranks 1; and
   * it is never worse than the position the code reports.
   */
  lemma RankSpec(rows: seq<PeerValue>, a: string, b: string)
    ensures Rank(rows, a).Some? <==> exists i :: 0 <= i < |rows| && rows[i].key == a
    ensures Rank(rows, a).Some? && Rank(rows, b).Some? && Score(rows, a) == Score(rows, b) ==>
      Rank(rows, a) == Rank(rows, b)
    ensures Rank(rows, a).Some? && Rank(rows, b).Some? && Score(rows, a) > Score(rows, b) ==>
      Rank(rows, a).value < Rank(rows, b).value
    ensures Rank(rows, a).Some? ==>
      (Rank(rows, a) == Some(1) <==> forall k :: k in PeerKeys(rows) ==> Score(rows, k) <= Score(rows, a))
    ensures Rank(rows, a).Some? ==> RankAsWritten(rows, a).Some? && Rank(rows, a).value <= RankAsWritten(rows, a).value
  {
    PeerKeysSpec(rows, a);
    var keys := PeerKeys(rows);
    if a in keys && b in keys && Score(rows, a) == Score(rows, b) {
      RankShared(rows, a, b);
    }
    if a in keys && b in keys && Score(rows, a) > Score(rows, b) {
      RankBetter(rows, a, b);
    }
    if a in keys {
      RankTop(rows, a);
      RankNotWorse(rows, a);
    }
  }

  lemma RankShared(rows: seq<PeerValue>, a: string, b: string)
    requires a in PeerKeys(rows) && b in PeerKeys(rows) && Score(rows, a) == Score(rows, b)
    ensures Rank(rows, a) == Rank(rows, b)
  {
    var keys := PeerKeys(rows);
    CountIfSame(keys, Above(rows, a), Above(rows, b));
  }

  lemma RankBetter(rows: seq<PeerValue>, a: string, b: string)
    requires a in PeerKeys(rows) && b in PeerKeys(rows) && Score(rows, a) > Score(rows, b)
    ensures Rank(rows, a).value < Rank(rows, b).value
  {
    var keys := PeerKeys(rows);
    var i := IndexOf(keys, a);
    assert Above(rows, b)(keys[i]) && !Above(rows, a)(keys[i]);
    CountIfStrict(keys, Above(rows, a), Above(rows, b), i);
  }

  lemma RankTop(rows: seq<PeerValue>, a: string)
    requires a in PeerKeys(rows)
    ensures Rank(rows, a) == Some(1) <==> forall k :: k in PeerKeys(rows) ==> Score(rows, k) <= Score(rows, a)
  {
    var keys := PeerKeys(rows);
    if exists k :: k in keys && Score(rows, k) > Score(rows, a) {
      var k :| k in keys && Score(rows, k) > Score(rows, a);
      CountIfStrict(keys, (x: string) => false, Above(rows, a), IndexOf(keys, k));
    } else {
      CountIfBefore(keys, Above(rows, a), 0);
    }
  }

  /** Every peer scoring higher sits before the target in the sorted order, so it is counted in the position. */
  lemma RankNotWorse(rows: seq<PeerValue>, a: string)
    requires a in PeerKeys(rows)
    ensures RankAsWritten(rows, a).Some? && Rank(rows, a).value <= RankAsWritten(rows, a).value
  {
    var keys := PeerKeys(rows);
    var sorted := SortedPeers(rows);
    SortedPeersPerm(rows);
    SortedPeersOrder(rows);
    var m := IndexOf(sorted, a);
    forall j | m <= j < |sorted| ensures !Above(rows, a)(sorted[j]) {
      if j > m {
        assert Score(rows, sorted[m]) >= Score(rows, sorted[j]);
      }
    }
    CountIfBefore(sorted, Above(rows, a), m);
    CountIfPerm(sorted, keys, Above(rows, a));
  }

  /** What `compare_to_peers` answers. */
  datatype Comparison =
    | NoReport
    | NoMetric(targetKey: string, peerCount: nat)
    | Ranked(targetKey: string, value: Option<real>, rank: Option<nat>, peerCount: nat)

  /**
   * `compare_to_peers`, given the target report keys (best status first),
   * the number of peer reports in the state's CCN range for the fiscal year,
   * the metric cell if one was given in full, and the metric query's rows.
   */
  function ComparePeers(targets: seq<string>, peerCount: nat, worksheet: Option<string>, line: Option<int>,
                        column: Option<int>, values: seq<PeerValue>): (c: Comparison)
    ensures targets == [] <==> c.NoReport?
    ensures c.NoMetric? <==> targets != [] && (worksheet.None? || worksheet.value == [] || line.None? || column.None?)
    ensures !c.NoReport? ==> c.targetKey == targets[0] && c.peerCount == peerCount
    ensures c.Ranked? ==> c.value == ValueOf(values, targets[0])
    ensures c.Ranked? ==> (c.rank.Some? <==> exists i :: 0 <= i < |values| && values[i].key == targets[0])
  {
    if targets == [] then NoReport
    else if worksheet.None? || worksheet.value == [] || line.None? || column.None? then NoMetric(targets[0], peerCount)
    else
      RankSpec(values, targets[0], targets[0]);
      Ranked(targets[0], ValueOf(values, targets[0]), Rank(values, targets[0]), peerCount)
  }

  // ------------------------------------------------------------ a report by name

  /** One report found by name, newest fiscal year first. */
  datatype Match = Match(key: string, fiscalYearEnd: Option<string>, vintage: Option<string>)

  /** `get_full_report_by_name`: a message when nothing matched, else the report to load and its vintage. */
  datatype Choice = NotFound(message: string) | Load(key: string, vintage: string)

  function NotFoundMessage(name: string, state: Option<string>): string
  {
    "No cost report found for name containing '" + name + "'"
      + (if state.Some? && state.value != [] then " in state " + state.value else "") + "."
  }

  /** Whether a match is for the fiscal year asked for, compared after stripping. */
  predicate ForYear(m: Match, fy: string) { m.fiscalYearEnd.Some? && m.fiscalYearEnd.value != [] && m.fiscalYearEnd.value == Trim(fy) }

  function FirstForYear(matches: seq<Match>, fy: string): (r: Option<Match>)
    ensures r.None? <==> forall i :: 0 <= i < |matches| ==> !ForYear(matches[i], fy)
    ensures r.Some? ==> exists i :: 0 <= i < |matches| && matches[i] == r.value && ForYear(matches[i], fy)
                                    && forall j :: 0 <= j < i ==> !ForYear(matches[j], fy)
    decreases |matches|
  {
    if matches == [] then None
    else if ForYear(matches[0], fy) then Some(matches[0])
    else
      assert forall i :: 1 <= i < |matches| ==> matches[i] == matches[1..][i - 1];
      FirstForYear(matches[1..], fy)
  }

  function ChooseReport(matches: seq<Match>, name: string, state: Option<string>, fy: Option<string>): Choice
  {
    if matches == [] then NotFound(NotFoundMessage(name, state))
    else
      var m := if fy.Some? && fy.value != [] && FirstForYear(matches, fy.value).Some?
               then FirstForYear(matches, fy.value).value else matches[0];
      Load(m.key, OrElse(m.vintage, CostColumns.DefaultVintage))
  }

  /**
   * No match gives the message naming the search (and the state, if one was
   * given); a fiscal year picks the first match for that year; otherwise, or
   * with no match for the year, the first (newest) match; the vintage
   * defaults to 2088-17.
   */
  lemma ChooseReportSpec(matches: seq<Match>, name: string, state: Option<string>, fy: Option<string>)
    ensures var c := ChooseReport(matches, name, state, fy);
      (c.NotFound? <==> matches == [])
      && (c.NotFound? ==> IsPrefix("No cost report found for name containing '" + name + "'", c.message))
      && (c.Load? ==> exists i :: 0 <= i < |matches| && c.key == matches[i].key
                                  && c.vintage == OrElse(matches[i].vintage, "2088-17")
                                  && ((fy.Some? && fy.value != [] && ForYear(matches[i], fy.value))
                                      || forall j :: 0 <= j < |matches| ==> !(fy.Some? && fy.value != [] && ForYear(matches[j], fy.value)))
                                  && forall j :: 0 <= j < i ==> !(fy.Some? && fy.value != [] && ForYear(matches[j], fy.value)))
  {
    var c := ChooseReport(matches, name, state, fy);
    if c.NotFound? {
      var p := "No cost report found for name containing '" + name + "'";
      assert c.message[..|p|] == p;
    } else if fy.Some? && fy.value != [] && FirstForYear(matches, fy.value).Some? {
      var i :| 0 <= i < |matches| && matches[i] == FirstForYear(matches, fy.value).value && ForYear(matches[i], fy.value)
               && forall j :: 0 <= j < i ==> !ForYear(matches[j], fy.value);
    } else {
      assert c.key == matches[0].key;
    }
  }
}
