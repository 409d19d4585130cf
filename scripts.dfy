/**
 * The repository-level maintenance scripts: the Markdown report of the
 * chat/RAG inventory, the per-document tag listing, and the `.env` reader
 * and URL rewrite of the connection clean-up script. Their database queries
 * are inputs here; the URL fallback and guard the first two share are in
 * DbUrl.
 */
module MaintScripts {
  import opened Text
  import LexConfig

  // ------------------------------------------------------- keyed updates

  /**
   * `d = {}; for x in xs: d[k] = v` for the items `x` that give a pair
   * `(k, v)`: a later item overrides an earlier one.
   */
  function LastWins<A, K, V>(xs: seq<A>, f: A -> Option<(K, V)>): map<K, V>
    decreases |xs|
  {
    if xs == [] then map[]
    else
      var d := LastWins(xs[..|xs| - 1], f);
      match f(xs[|xs| - 1])
      case None => d
      case Some(p) => d[p.0 := p.1]
  }

  /** `x` gives a pair for key `k`. */
  predicate Gives<A, K(==), V>(f: A -> Option<(K, V)>, x: A, k: K)
  {
    f(x).Some? && f(x).value.0 == k
  }

  /**
   * A key is in the dictionary iff some item gives it, and its value is
   * that of the last item giving it.
   */
  lemma {:induction false} LastWinsSpec<A, K, V>(xs: seq<A>, f: A -> Option<(K, V)>, k: K)
    ensures k in LastWins(xs, f) <==> exists i :: 0 <= i < |xs| && Gives(f, xs[i], k)
    ensures k in LastWins(xs, f) ==>
      exists i :: 0 <= i < |xs| && f(xs[i]) == Some((k, LastWins(xs, f)[k])) &&
        forall j :: i < j < |xs| ==> !Gives(f, xs[j], k)
    decreases |xs|
  {
    if xs != [] {
      var n := |xs|;
      var init := xs[..n - 1];
      LastWinsSpec(init, f, k);
      assert forall i :: 0 <= i < n - 1 ==> init[i] == xs[i];
      if !Gives(f, xs[n - 1], k) && k in LastWins(xs, f) {
        assert LastWins(xs, f)[k] == LastWins(init, f)[k];
        var i :| 0 <= i < n - 1 && f(init[i]) == Some((k, LastWins(init, f)[k])) &&
          forall j :: i < j < n - 1 ==> !Gives(f, init[j], k);
        assert f(xs[i]) == Some((k, LastWins(xs, f)[k]));
      }
    }
  }

  // ------------------------------------------------------ `{:,}` numerals

  /** `f"{r:03d}"` for `r < 1000`: exactly three digits. */
  function Group3(r: nat): (g: string)
    requires r < 1000
    ensures |g| == 3 && forall i :: 0 <= i < 3 ==> IsDigit(g[i])
  {
    [DigitChar(r / 100), DigitChar(r / 10 % 10), DigitChar(r % 10)]
  }

  /** `f"{n:,}"`: the decimal numeral with a comma before every group of three digits. */
  function Thousands(n: nat): (r: string)
    ensures r != [] && r[0] != ','
    ensures n < 1000 ==> r == NatToString(n)
    decreases n
  {
    if n < 1000 then NatToString(n) else Thousands(n / 1000) + "," + Group3(n % 1000)
  }

  /** `s.replace(",", "")` */
  function DropCommas(s: string): (r: string)
    decreases |s|
  {
    if s == [] then []
    else DropCommas(s[..|s| - 1]) + (if s[|s| - 1] == ',' then [] else [s[|s| - 1]])
  }

  lemma {:induction false} DropCommasAppend(a: string, b: string)
    ensures DropCommas(a + b) == DropCommas(a) + DropCommas(b)
    decreases |b|
  {
    if b != [] {
      var b' := b[..|b| - 1];
      assert (a + b)[..|a + b| - 1] == a + b';
      assert (a + b)[|a + b| - 1] == b[|b| - 1];
      DropCommasAppend(a, b');
    } else {
      assert a + b == a;
    }
  }

  lemma {:induction false} DropCommasDigits(s: string)
    requires forall i :: 0 <= i < |s| ==> IsDigit(s[i])
    ensures DropCommas(s) == s
    decreases |s|
  {
    if s != [] { DropCommasDigits(s[..|s| - 1]); }
  }

  /** Peeling the last three digits off a numeral of at least four digits. */
  lemma NatToStringGroups(n: nat)
    requires n >= 1000
    ensures NatToString(n) == NatToString(n / 1000) + Group3(n % 1000)
  {
    var a := n / 10;
    var b := a / 10;
    var c := b / 10;
    var d0, d1, d2 := n % 10, a % 10, b % 10;
    assert n == 10 * a + d0 && a == 10 * b + d1 && b == 10 * c + d2;
    assert n == 1000 * c + (100 * d2 + 10 * d1 + d0);
    assert n / 1000 == c && n % 1000 == 100 * d2 + 10 * d1 + d0;
    var r := n % 1000;
    assert r / 100 == d2 && r / 10 == 10 * d2 + d1 && r / 10 % 10 == d1 && r % 10 == d0;
    assert NatToString(b) == NatToString(c) + [DigitChar(b % 10)];
    assert NatToString(a) == NatToString(b) + [DigitChar(a % 10)];
    assert NatToString(n) == NatToString(a) + [DigitChar(n % 10)];
  }

  /** The separators are only decoration: without the commas the numeral is `str(n)`. */
  lemma {:induction false} ThousandsDigits(n: nat)
    ensures DropCommas(Thousands(n)) == NatToString(n)
    decreases n
  {
    if n < 1000 {
      DropCommasDigits(NatToString(n));
    } else {
      var g := Group3(n % 1000);
      ThousandsDigits(n / 1000);
      DropCommasAppend(Thousands(n / 1000) + ",", g);
      DropCommasAppend(Thousands(n / 1000), ",");
      assert DropCommas(",") == DropCommas([]) + [];
      DropCommasDigits(g);
      NatToStringGroups(n);
    }
  }

  // ------------------------------------------------- the inventory report

  const Dash := "—"
  const Ellipsis := "..."

  /** A `(label, cnt)` row of a grouped count: by source type or by lexicon kind. */
  datatype CountRow = CountRow(group: string, count: nat)

  /** A row of the top-documents query. */
  datatype DocEntry = DocEntry(displayName: Option<string>, documentId: string, chunks: nat)

  /**
   * A row of `sync_runs`; `startedAt` is the text of the timestamp and
   * `status` is missing when the row has no such column.
   */
  datatype SyncRun = SyncRun(runId: string, startedAt: Option<string>, vectorRows: Option<nat>,
                             postgresRows: Option<nat>, status: Option<string>)

  /** The dictionary `run_inventory` fills; a count it could not read is 0. */
  datatype Inventory = Inventory(
    generatedAt: string,
    metadataRows: nat, metadataDocuments: nat,
    bySourceType: seq<CountRow>, documentList: seq<DocEntry>,
    lexiconMeta: nat, lexiconEntries: nat,
    tagRows: nat, tagDocuments: nat, lineTagRows: nat, lineTagDocuments: nat,
    lexiconByKind: seq<CountRow>, syncRuns: seq<SyncRun>)

  function CountLine(r: CountRow): string
  {
    "| " + r.group + " | " + Thousands(r.count) + " |"
  }

  /** The name cell: the display name, or a dash, cut to 60 characters. */
  function DocNameCell(d: DocEntry): string { Take(OrElse(d.displayName, Dash), 60) }

  /** The id cell: the document id cut to 36 characters. */
  function DocIdCell(d: DocEntry): string { Take(d.documentId, 36) }

  function DocLine(d: DocEntry): string
  {
    "| " + DocNameCell(d) + " | " + DocIdCell(d) + " | " + Thousands(d.chunks) + " |"
  }

  /** `x or "—"` for a count: a missing or zero count shows a dash. */
  function CountCell(x: Option<nat>): string
  {
    if x.Some? && x.value != 0 then NatToString(x.value) else Dash
  }

  function StartedCell(r: SyncRun): string
  {
    if r.startedAt.Some? && r.startedAt.value != [] then Take(r.startedAt.value, 19) else Dash
  }

  function SyncLine(r: SyncRun): string
  {
    "| " + Take(r.runId, 8) + Ellipsis + " | " + StartedCell(r) + " | " + CountCell(r.vectorRows) +
    " | " + CountCell(r.postgresRows) + " | " + (if r.status.Some? then r.status.value else Dash) + " |"
  }

  /**
   * The document list shows at most 60 characters of a name and 36 of an
   * id, each a prefix of the full value; a missing or empty name shows a
   * dash.
   */
  lemma DocCells(d: DocEntry)
    ensures |DocNameCell(d)| <= 60 && |DocIdCell(d)| <= 36
    ensures IsPrefix(DocIdCell(d), d.documentId)
    ensures |d.documentId| <= 36 ==> DocIdCell(d) == d.documentId
    ensures d.displayName.None? || d.displayName.value == [] ==> DocNameCell(d) == Dash
    ensures d.displayName.Some? && d.displayName.value != [] ==>
      IsPrefix(DocNameCell(d), d.displayName.value) &&
      (|d.displayName.value| <= 60 ==> DocNameCell(d) == d.displayName.value)
  {
  }

  /**
   * A sync run row shows at most the first 8 characters of the run id
   * followed by "...", at most 19 characters of the start time, and a dash
   * for a missing or zero count.
   */
  lemma SyncCells(r: SyncRun)
    ensures var line := SyncLine(r); var id := Take(r.runId, 8);
      IsPrefix("| " + id + Ellipsis + " | ", line) && |id| <= 8 && IsPrefix(id, r.runId)
    ensures |StartedCell(r)| <= 19
    ensures CountCell(r.vectorRows) == Dash <==> r.vectorRows.None? || r.vectorRows.value == 0
    ensures r.vectorRows.Some? && r.vectorRows.value != 0 ==>
      ParseNat(CountCell(r.vectorRows)) == r.vectorRows.value
  {
    if r.vectorRows.Some? && r.vectorRows.value != 0 {
      ParseNatToString(r.vectorRows.value);
      assert CountCell(r.vectorRows)[0] != '\U{2014}';
    }
  }

  /** The report's fixed lines. */
  datatype Fixed =
    | Title | Blank | Source | Rule | DocsSection | MetricHead | MetricRule
    | SourceTypeTitle | SourceTypeHead | SourceTypeRule
    | TopDocsTitle | TopDocsHead | TopDocsRule
    | TagsSection | TagTableHead | TagTableRule | KindTitle | KindHead | KindRule
    | SyncSection | SyncTableHead | SyncTableRule | SummaryTitle
    | Generated | RowsMetric | DocumentsMetric
    | LexiconMetaTable | LexiconEntriesTable | DocumentTagsTable | LineTagsTable
    | PublishedChunks | PublishedDocuments | TaggedDocuments | LineTaggedDocuments | LineTagRows
    | LastUpsertLabel

  function FixedText(f: Fixed): string
  {
    match f
    case Title => "# Chat/RAG State Inventory"
    case Blank => ""
    case Source => "**Source:** Chat Postgres (mobius_chat)"
    case Rule => "---"
    case DocsSection => "## 1. Documents Available to Chat"
    case MetricHead => "| Metric | Value |"
    case MetricRule => "|--------|-------|"
    case SourceTypeTitle => "### By source_type"
    case SourceTypeHead => "| source_type | Count |"
    case SourceTypeRule => "|-------------|-------|"
    case TopDocsTitle => "### Top documents (by chunk count)"
    case TopDocsHead => "| Document | document_id | Chunks |"
    case TopDocsRule => "|----------|-------------|--------|"
    case TagsSection => "## 2. Tags Available"
    case TagTableHead => "| Table | Rows | Distinct documents |"
    case TagTableRule => "|-------|------|-------------------|"
    case KindTitle => "### Lexicon by kind"
    case KindHead => "| kind | Count |"
    case KindRule => "|------|-------|"
    case SyncSection => "## 3. Vertex AI Vector Search (from sync_runs)"
    case SyncTableHead => "| Run | Started | vector_rows_upserted | postgres_rows_written | status |"
    case SyncTableRule => "|-----|---------|----------------------|------------------------|--------|"
    case SummaryTitle => "## Summary"
    case Generated => "Generated"
    case RowsMetric => "Rows (chunks/facts)"
    case DocumentsMetric => "Distinct documents"
    case LexiconMetaTable => "policy_lexicon_meta"
    case LexiconEntriesTable => "policy_lexicon_entries (active)"
    case DocumentTagsTable => "document_tags"
    case LineTagsTable => "policy_line_tags"
    case PublishedChunks => "Published chunks/facts"
    case PublishedDocuments => "Documents with published content"
    case TaggedDocuments => "Documents with document_tags"
    case LineTaggedDocuments => "Documents with policy_line_tags"
    case LineTagRows => "Line-level tag rows"
    case LastUpsertLabel => "Last Vertex upsert"
  }

  function Texts(fs: seq<Fixed>): (r: seq<string>)
    ensures |r| == |fs|
  {
    seq(|fs|, i requires 0 <= i < |fs| => FixedText(fs[i]))
  }

  /** `f"| {label} | {a:,} | {b} |"`-style table row. */
  function Cells(cells: seq<string>): string
  {
    "| " + Join(cells, " | ") + " |"
  }

  /** `f"- **{name}:** {value}"` */
  function Bullet(name: Fixed, value: string): string
  {
    "- **" + FixedText(name) + ":** " + value
  }

  function ReportHead(inv: Inventory): seq<string>
  {
    Texts([Title, Blank]) + ["**" + FixedText(Generated) + ":** " + inv.generatedAt] +
    Texts([Source, Blank, Rule, Blank, DocsSection, Blank, MetricHead, MetricRule]) +
    [Cells([FixedText(RowsMetric), Thousands(inv.metadataRows)]),
     Cells([FixedText(DocumentsMetric), Thousands(inv.metadataDocuments)])] +
    Texts([Blank, SourceTypeTitle, Blank, SourceTypeHead, SourceTypeRule])
  }

  function DocListHead(): seq<string>
  {
    Texts([Blank, TopDocsTitle, Blank, TopDocsHead, TopDocsRule])
  }

  function TagsHead(inv: Inventory): seq<string>
  {
    Texts([Blank, Rule, Blank, TagsSection, Blank, TagTableHead, TagTableRule]) +
    [Cells([FixedText(LexiconMetaTable), Thousands(inv.lexiconMeta), Dash]),
     Cells([FixedText(LexiconEntriesTable), Thousands(inv.lexiconEntries), Dash]),
     Cells([FixedText(DocumentTagsTable), Thousands(inv.tagRows), Thousands(inv.tagDocuments)]),
     Cells([FixedText(LineTagsTable), Thousands(inv.lineTagRows), Thousands(inv.lineTagDocuments)])] +
    Texts([Blank, KindTitle, Blank, KindHead, KindRule])
  }

  function SyncHead(): seq<string>
  {
    Texts([Blank, Rule, Blank, SyncSection, Blank, SyncTableHead, SyncTableRule])
  }

  function SummaryLines(inv: Inventory): (r: seq<string>)
    ensures r != [] && r[|r| - 1] == ""
  {
    Texts([Blank, Rule, Blank, SummaryTitle, Blank]) +
    [Bullet(PublishedChunks, Thousands(inv.metadataRows)),
     Bullet(PublishedDocuments, Thousands(inv.metadataDocuments)),
     Bullet(TaggedDocuments, Thousands(inv.tagDocuments)),
     Bullet(LineTaggedDocuments, Thousands(inv.lineTagDocuments)),
     Bullet(LineTagRows, Thousands(inv.lineTagRows)), FixedText(Blank)]
  }

  /** The closing line about the latest sync run, when its vector count is known. */
  function LastUpsert(runs: seq<SyncRun>): seq<string>
  {
    if runs != [] && runs[0].vectorRows.Some? then [UpsertLine(runs[0].vectorRows.value)] else []
  }

  function UpsertLine(vectors: nat): string
  {
    Bullet(LastUpsertLabel, Thousands(vectors) + " vectors")
  }

  /** Section 1: the published documents, by source type and the top documents. */
  function Section1(inv: Inventory): seq<string>
  {
    ReportHead(inv) + MapSeq(inv.bySourceType, CountLine) + DocListHead() + MapSeq(inv.documentList, DocLine)
  }

  /** Section 2: the tag tables and the lexicon by kind. */
  function Section2(inv: Inventory): seq<string>
  {
    TagsHead(inv) + MapSeq(inv.lexiconByKind, CountLine)
  }

  /** Section 3: the vector-search sync runs. */
  function Section3(inv: Inventory): seq<string>
  {
    SyncHead() + MapSeq(inv.syncRuns, SyncLine)
  }

  /** Everything up to the summary's closing blank line. */
  function ReportBody(inv: Inventory): (r: seq<string>)
    ensures r != [] && r[|r| - 1] == ""
  {
    Section1(inv) + Section2(inv) + Section3(inv) + SummaryLines(inv)
  }

  /** The lines `to_markdown` joins. */
  function ReportLines(inv: Inventory): seq<string>
  {
    ReportBody(inv) + LastUpsert(inv.syncRuns)
  }

  /** `for r in rows: lines.append(line(r))` */
  method AppendLines<A>(lines: seq<string>, rows: seq<A>, line: A -> string) returns (r: seq<string>)
    ensures r == lines + MapSeq(rows, line)
  {
    r := lines;
    var i := 0;
    while i < |rows|
      invariant i <= |rows|
      invariant r == lines + MapSeq(rows[..i], line)
    {
      assert rows[..i + 1][..i] == rows[..i];
      r := r + [line(rows[i])];
      i := i + 1;
    }
    assert rows[..i] == rows;
  }

  /** `to_markdown(inv)` */
  method ToMarkdown(inv: Inventory) returns (text: string)
    ensures text == Join(ReportLines(inv), "\n")
  {
    var lines := BodyLines(inv);
    var latest := inv.syncRuns;
    if latest != [] {
      var vec := latest[0].vectorRows;
      if vec.Some? {
        lines := lines + [UpsertLine(vec.value)];
      }
    }
    assert lines == ReportLines(inv);
    text := Join(lines, "\n");
  }

  /** The lines of `to_markdown` up to the summary. */
  method BodyLines(inv: Inventory) returns (lines: seq<string>)
    ensures lines == ReportBody(inv)
  {
    var one := AppendLines(ReportHead(inv), inv.bySourceType, CountLine);
    one := AppendLines(one + DocListHead(), inv.documentList, DocLine);
    var two := AppendLines(TagsHead(inv), inv.lexiconByKind, CountLine);
    var three := AppendLines(SyncHead(), inv.syncRuns, SyncLine);
    lines := one + two + three + SummaryLines(inv);
    assert lines == ReportBody(inv);
  }

  /**
   * The report ends with the "Last Vertex upsert" line exactly when the
   * latest run has a vector count, zero included (the run table shows a
   * zero count as a dash); otherwise it ends with the blank line closing
   * the summary.
   */
  lemma LastUpsertSpec(inv: Inventory)
    ensures var lines := ReportLines(inv); var runs := inv.syncRuns;
      lines != [] &&
      (runs != [] && runs[0].vectorRows.Some? ==>
        lines[|lines| - 1] == UpsertLine(runs[0].vectorRows.value)) &&
      (runs == [] || runs[0].vectorRows.None? ==> lines[|lines| - 1] == "")
  {
    var body := ReportBody(inv);
    assert ReportLines(inv) == body + LastUpsert(inv.syncRuns);
  }

  // ---------------------------------------------- documents and their tags

  /** A JSON column value: NULL, an object with these keys, or any other sized value. */
  datatype Tags = TNull | TObject(keys: seq<string>) | TOther(size: nat)

  /** Python truthiness of the column value. */
  predicate Truthy(t: Tags)
  {
    match t
    case TNull => false
    case TObject(keys) => keys != []
    case TOther(size) => size > 0
  }

  /** `t or {}` */
  function OrEmpty(t: Tags): (r: Tags)
    ensures Truthy(r) == Truthy(t)
  {
    if Truthy(t) then t else TObject([])
  }

  /** `len(t or {})` */
  function TagCount(t: Tags): (n: nat)
    ensures n > 0 <==> Truthy(t)
  {
    match t
    case TNull => 0
    case TObject(keys) => |keys|
    case TOther(size) => size
  }

  /** A row of `document_tags`. */
  datatype TagRow = TagRow(documentId: string, p: Tags, d: Tags, j: Tags)

  /** The per-document maps, each with `or {}` applied. */
  datatype DocTags = DocTags(p: Tags, d: Tags, j: Tags)

  /** A row's entry, each map with `or {}` applied. */
  function Normalised(r: TagRow): Option<(string, DocTags)>
  {
    Some((r.documentId, DocTags(OrEmpty(r.p), OrEmpty(r.d), OrEmpty(r.j))))
  }

  /** `doc_tags_by_id`: the last row of a document wins. */
  function TagsById(rows: seq<TagRow>): map<string, DocTags>
  {
    LastWins(rows, Normalised)
  }

  /** The loop that fills `doc_tags_by_id`. */
  method CollectTags(rows: seq<TagRow>) returns (byId: map<string, DocTags>)
    ensures byId == TagsById(rows)
  {
    byId := map[];
    var i := 0;
    while i < |rows|
      invariant i <= |rows|
      invariant byId == LastWins(rows[..i], Normalised)
    {
      var r := rows[i];
      assert rows[..i + 1][..i] == rows[..i];
      byId := byId[r.documentId := DocTags(OrEmpty(r.p), OrEmpty(r.d), OrEmpty(r.j))];
      i := i + 1;
    }
    assert rows[..i] == rows;
  }

  /**
   * A document has an entry iff some row names it, and the entry holds the
   * maps of the last such row, each with `or {}` applied (so their
   * truthiness is the row's).
   */
  lemma TagsByIdSpec(rows: seq<TagRow>, id: string)
    ensures id in TagsById(rows) <==> exists i :: 0 <= i < |rows| && rows[i].documentId == id
    ensures id in TagsById(rows) ==>
      exists i :: 0 <= i < |rows| && rows[i].documentId == id &&
        TagsById(rows)[id] == DocTags(OrEmpty(rows[i].p), OrEmpty(rows[i].d), OrEmpty(rows[i].j)) &&
        forall j :: i < j < |rows| ==> rows[j].documentId != id
  {
    LastWinsSpec(rows, Normalised, id);
    if id in TagsById(rows) {
      var i :| 0 <= i < |rows| && Normalised(rows[i]) == Some((id, TagsById(rows)[id])) &&
        forall j :: i < j < |rows| ==> !Gives(Normalised, rows[j], id);
      assert forall j :: i < j < |rows| ==> rows[j].documentId != id by {
        forall j | i < j < |rows| ensures rows[j].documentId != id { assert !Gives(Normalised, rows[j], id); }
      }
    }
    if exists i :: 0 <= i < |rows| && rows[i].documentId == id {
      var i :| 0 <= i < |rows| && rows[i].documentId == id;
      assert Gives(Normalised, rows[i], id);
    }
  }

  /** A row of the documents query. */
  datatype Doc = Doc(documentId: string, displayName: Option<string>, payer: Option<string>, chunks: nat)

  /** A row of the listing. */
  datatype DocRow = DocRow(documentId: string, displayName: string, payer: string, chunks: nat,
                           hasDocumentTags: bool, dTags: nat, pTags: nat, jTags: nat, lineTags: nat,
                           sampleDTags: seq<string>)

  /** The first eight keys of `d_tags` when it is an object. */
  function SampleKeys(t: Tags): (r: seq<string>)
    ensures |r| <= 8
  {
    match OrEmpty(t)
    case TObject(keys) => if |keys| <= 8 then keys else keys[..8]
    case _ => []
  }

  /** The row built for one document. */
  function DocRowOf(d: Doc, byId: map<string, DocTags>, lineCounts: map<string, nat>): DocRow
  {
    var dt := if d.documentId in byId then byId[d.documentId] else DocTags(TNull, TNull, TNull);
    var nd, np, nj := TagCount(dt.d), TagCount(dt.p), TagCount(dt.j);
    DocRow(d.documentId, OrElse(d.displayName, Dash), OrElse(d.payer, Dash), d.chunks,
           nd > 0 || np > 0 || nj > 0, nd, np, nj,
           if d.documentId in lineCounts then lineCounts[d.documentId] else 0,
           SampleKeys(dt.d))
  }

  /**
   * A document has document tags iff its `document_tags` row has a
   * non-empty p, d or j value; a document without a row has none and no
   * sample. The line-tag count defaults to 0, and the sample is the first
   * eight keys of an object-valued d_tags.
   */
  lemma DocRowSpec(d: Doc, byId: map<string, DocTags>, lineCounts: map<string, nat>)
    ensures DocRowOf(d, byId, lineCounts).hasDocumentTags <==>
      d.documentId in byId &&
      (Truthy(byId[d.documentId].p) || Truthy(byId[d.documentId].d) || Truthy(byId[d.documentId].j))
    ensures DocRowOf(d, byId, lineCounts).lineTags ==
      if d.documentId in lineCounts then lineCounts[d.documentId] else 0
    ensures d.documentId !in byId ==> DocRowOf(d, byId, lineCounts).sampleDTags == []
    ensures d.documentId in byId && byId[d.documentId].d.TObject? ==>
      var keys := byId[d.documentId].d.keys;
      var n := if |keys| < 8 then |keys| else 8;
      DocRowOf(d, byId, lineCounts).sampleDTags == keys[..n]
    ensures d.documentId in byId && !byId[d.documentId].d.TObject? ==>
      DocRowOf(d, byId, lineCounts).sampleDTags == []
  {
  }

  /** The loop that builds the listing's rows, one per document, in query order. */
  method BuildRows(docs: seq<Doc>, byId: map<string, DocTags>, lineCounts: map<string, nat>)
    returns (rows: seq<DocRow>)
    ensures |rows| == |docs|
    ensures forall i :: 0 <= i < |docs| ==> rows[i] == DocRowOf(docs[i], byId, lineCounts)
  {
    rows := [];
    for i := 0 to |docs|
      invariant |rows| == i
      invariant forall k :: 0 <= k < i ==> rows[k] == DocRowOf(docs[k], byId, lineCounts)
    {
      rows := rows + [DocRowOf(docs[i], byId, lineCounts)];
    }
  }

  /** The id cell: ids longer than 8 characters are cut to 8 and marked "...". */
  function ShortId(id: string): string
  {
    if |id| > 8 then id[..8] + Ellipsis else id
  }

  /** The sample cell: up to four keys joined by ", ", cut to 32 + "..." past 35 characters. */
  function SampleCell(keys: seq<string>): string
  {
    var s := if keys == [] then Dash else Join(if |keys| <= 4 then keys else keys[..4], ", ");
    if |s| > 35 then s[..32] + Ellipsis else s
  }

  function TableLine(r: DocRow): string
  {
    "| " + Take(OrElse(Some(r.displayName), Dash), 40) + " | " + ShortId(r.documentId) + " | " +
    NatToString(r.chunks) + " | " + (if r.hasDocumentTags then "✓" else Dash) + " | " +
    NatToString(r.dTags) + " | " + NatToString(r.lineTags) + " | " + SampleCell(r.sampleDTags) + " |"
  }

  /**
   * Every cell fits its width: the id cell is at most 11 characters and
   * starts with the id's first 8 (a short id is shown whole), and the
   * sample cell is at most 35 characters, a dash when there are no keys,
   * and otherwise a prefix of the joined first four keys marked "..." when
   * it was cut.
   */
  lemma TableCells(r: DocRow)
    ensures var id := ShortId(r.documentId);
      |id| <= 11 && IsPrefix(Take(r.documentId, 8), id) && (|r.documentId| <= 8 ==> id == r.documentId)
    ensures var cell := SampleCell(r.sampleDTags); var keys := r.sampleDTags;
      var joined := Join(if |keys| <= 4 then keys else keys[..4], ", ");
      |cell| <= 35 &&
      (keys == [] ==> cell == Dash) &&
      (keys != [] && |joined| <= 35 ==> cell == joined) &&
      (keys != [] && |joined| > 35 ==> cell == joined[..32] + Ellipsis)
  {
  }

  // ------------------------------------------------- connection clean-up

  /** `s.lstrip(c)` */
  function StripLeft(s: string, c: char): (r: string)
    ensures |r| <= |s| && r == s[|s| - |r|..]
    ensures r == [] || r[0] != c
    ensures forall k :: 0 <= k < |s| - |r| ==> s[k] == c
    decreases |s|
  {
    if s != [] && s[0] == c then StripLeft(s[1..], c) else s
  }

  /** `s.rstrip(c)` */
  function StripRight(s: string, c: char): (r: string)
    ensures |r| <= |s| && r == s[..|r|]
    ensures r == [] || r[|r| - 1] != c
    ensures forall k :: |r| <= k < |s| ==> s[k] == c
    decreases |s|
  {
    if s != [] && s[|s| - 1] == c then StripRight(s[..|s| - 1], c) else s
  }

  /** `s.strip(c)` */
  function StripChar(s: string, c: char): string { StripRight(StripLeft(s, c), c) }

  /**
   * `strip(c)` removes runs of `c` at both ends and nothing else: the result
   * sits in `s` between two runs of `c` and neither starts nor ends with `c`.
   */
  lemma StripCharSpec(s: string, c: char)
    ensures var r := StripChar(s, c);
      (r == [] || (r[0] != c && r[|r| - 1] != c)) &&
      exists i: nat :: OccursAt(s, r, i) &&
        (forall k :: 0 <= k < i ==> s[k] == c) && (forall k :: i + |r| <= k < |s| ==> s[k] == c)
  {
    var l := StripLeft(s, c);
    var r := StripRight(l, c);
    var i := |s| - |l|;
    assert l == s[i..] && r == l[..|r|];
    assert s[i..i + |r|] == l[..|r|];
    assert OccursAt(s, r, i);
    if r != [] {
      assert r[0] == l[0];
    }
    forall k | i + |r| <= k < |s| ensures s[k] == c {
      assert s[k] == l[k - i];
    }
  }

  /**
   * `k, v = line.split("=", 1)` with the key trimmed and the value trimmed
   * and then stripped of `"` and of `'`: the key has no `=` and no
   * surrounding spaces, and the value does not start or end with `'`.
   */
  function SplitSetting(line: string): (kv: (string, string))
    requires '=' in line
    ensures '=' !in kv.0 && Trim(kv.0) == kv.0
    ensures kv.1 == [] || (kv.1[0] != '\'' && kv.1[|kv.1| - 1] != '\'')
  {
    var i := IndexOf(line, '=');
    var key := Trim(line[..i]);
    TrimChars(line[..i]);
    TrimIdempotent(line[..i]);
    assert forall k :: 0 <= k < |key| ==> key[k] in line[..i];
    var quoted := StripChar(Trim(line[i + 1..]), '"');
    StripCharSpec(quoted, '\'');
    (key, StripChar(quoted, '\''))
  }

  /**
   * One line of the `.env` loop: once trimmed, a blank line, a comment or a
   * line without `=` gives nothing, any other line a setting.
   */
  function ParseEnvLine(raw: string): (r: Option<(string, string)>)
    ensures r.Some? <==> Trim(raw) != [] && Trim(raw)[0] != '#' && '=' in Trim(raw)
  {
    var line := Trim(raw);
    if line == [] || line[0] == '#' || '=' !in line then None else Some(SplitSetting(line))
  }

  /**
   * Writing `key=value` and reading it back gives the setting, for a key
   * that is not a comment and has no `=` or surrounding spaces, and a
   * value with no surrounding spaces or quotes.
   */
  lemma ParseEnvLineRoundTrip(key: string, value: string)
    requires key != [] && key[0] != '#' && '=' !in key && !IsSpace(key[0]) && !IsSpace(key[|key| - 1])
    requires value == [] ||
      (!IsSpace(value[0]) && !IsSpace(value[|value| - 1]) && value[0] != '"' && value[0] != '\'' &&
       value[|value| - 1] != '"' && value[|value| - 1] != '\'')
    ensures ParseEnvLine(key + "=" + value) == Some((key, value))
  {
    var line := key + "=" + value;
    TrimFixed(line);
    assert line[0] == key[0];
    assert line[|key|] == '=' && line[..|key|] == key;
    IndexOfUnique(line, '=', |key|);
    var i := IndexOf(line, '=');
    assert line[..i] == key && line[i + 1..] == value;
    TrimFixed(key);
    TrimFixed(value);
    assert Trim(line[..i]) == key && Trim(line[i + 1..]) == value;
    StripCharFixed(value, '"');
    StripCharFixed(value, '\'');
    assert StripChar(StripChar(Trim(line[i + 1..]), '"'), '\'') == value;
    assert SplitSetting(line) == (key, value);
  }

  lemma TrimFixed(s: string)
    requires s == [] || (!IsSpace(s[0]) && !IsSpace(s[|s| - 1]))
    ensures Trim(s) == s
  {
    TrimLeftFixed(s);
    TrimRightFixed(s);
  }

  lemma StripCharFixed(s: string, c: char)
    requires s == [] || (s[0] != c && s[|s| - 1] != c)
    ensures StripChar(s, c) == s
  {
  }

  /** The `env` dictionary after the loop: a later line overrides an earlier one. */
  function EnvOf(lines: seq<string>): map<string, string> { LastWins(lines, ParseEnvLine) }

  /** The `.env` loop. */
  method ParseEnv(lines: seq<string>) returns (env: map<string, string>)
    ensures env == EnvOf(lines)
  {
    env := map[];
    var i := 0;
    while i < |lines|
      invariant i <= |lines|
      invariant env == LastWins(lines[..i], ParseEnvLine)
    {
      assert lines[..i + 1][..i] == lines[..i];
      var setting := ParseEnvLine(lines[i]);
      if setting.Some? {
        env := env[setting.value.0 := setting.value.1];
      }
      i := i + 1;
    }
    assert lines[..i] == lines;
  }

  /**
   * A variable is set iff some line sets it, and it holds the value of the
   * last line that does.
   */
  lemma EnvOfSpec(lines: seq<string>, key: string)
    ensures key in EnvOf(lines) <==> exists i :: 0 <= i < |lines| && Gives(ParseEnvLine, lines[i], key)
    ensures key in EnvOf(lines) ==>
      exists i :: 0 <= i < |lines| && ParseEnvLine(lines[i]) == Some((key, EnvOf(lines)[key])) &&
        forall j :: i < j < |lines| ==> !Gives(ParseEnvLine, lines[j], key)
  {
    LastWinsSpec(lines, ParseEnvLine, key);
  }

  const UrlKey := "CHAT_RAG_DATABASE_URL"
  const ChatDbPath := "/mobius_chat"
  const AdminDbPath := "/postgres"

  /** The two rewrites that point the async chat URL at the admin database. */
  function RewriteUrl(url: string): (r: string)
    ensures !Contains(url, LexConfig.AsyncScheme) && !Contains(url, ChatDbPath) ==> r == url
  {
    Replace(Replace(url, LexConfig.AsyncScheme, LexConfig.Scheme), ChatDbPath, AdminDbPath)
  }

  lemma OccursShift(s: string, pat: string, i: nat)
    requires |s| > 0
    ensures OccursAt(s[1..], pat, i) <==> OccursAt(s, pat, i + 1)
  {
    if i + |pat| <= |s[1..]| {
      assert s[1..][i..i + |pat|] == s[i + 1..i + 1 + |pat|];
    }
  }

  /** `s.replace` leaves alone a prefix in which no occurrence starts. */
  lemma {:induction false} ReplaceSkips(s: string, n: nat, pat: string, rep: string)
    requires |pat| > 0 && n <= |s|
    requires forall i :: 0 <= i < n ==> !OccursAt(s, pat, i)
    ensures Replace(s, pat, rep) == s[..n] + Replace(s[n..], pat, rep)
    decreases n
  {
    if n == 0 {
      assert s[..0] + s[0..] == s;
    } else if |s| < |pat| {
      assert Replace(s[n..], pat, rep) == s[n..];
      assert s[..n] + s[n..] == s;
    } else {
      assert !OccursAt(s, pat, 0);
      var t := s[1..];
      assert s[..|pat|] != pat;
      assert Replace(s, pat, rep) == [s[0]] + Replace(t, pat, rep);
      forall i | 0 <= i < n - 1 ensures !OccursAt(t, pat, i) {
        OccursShift(s, pat, i);
      }
      ReplaceSkips(t, n - 1, pat, rep);
      assert t[n - 1..] == s[n..];
      assert s[..n] == [s[0]] + t[..n - 1];
    }
  }

  /** `s.replace` of a text that starts with the pattern. */
  lemma ReplaceHead(pat: string, t: string, rep: string)
    requires |pat| > 0
    ensures Replace(pat + t, pat, rep) == rep + Replace(t, pat, rep)
  {
    assert (pat + t)[..|pat|] == pat;
    assert (pat + t)[|pat|..] == t;
  }

  /** No asynchronous scheme occurs in a text with a single `/`. */
  lemma NoSchemeIn(u: string, slash: nat)
    requires slash < |u| && forall k :: 0 <= k < |u| && u[k] == '/' ==> k == slash
    ensures !Contains(u, LexConfig.AsyncScheme)
  {
    var pat := LexConfig.AsyncScheme;
    assert pat[19] == '/' && pat[20] == '/';
    forall i: nat ensures !OccursAt(u, pat, i) {
      if i + |pat| <= |u| {
        assert u[i + 19] != '/' || u[i + 20] != '/';
        assert u[i..i + |pat|][19] == u[i + 19] && u[i..i + |pat|][20] == u[i + 20];
      }
    }
    ContainsAt(u, pat);
  }

  /** The first rewrite turns the asynchronous scheme of the usual URL into the plain one. */
  lemma SchemeRewrite(authority: string)
    requires '/' !in authority
    ensures Replace(LexConfig.AsyncScheme + authority + ChatDbPath, LexConfig.AsyncScheme, LexConfig.Scheme) ==
      LexConfig.Scheme + authority + ChatDbPath
  {
    var u := authority + ChatDbPath;
    forall k | 0 <= k < |u| && k != |authority| ensures u[k] != '/' {
      if k < |authority| {
        assert u[k] == authority[k];
        assert authority[k] in authority;
      } else {
        assert u[k] == ChatDbPath[k - |authority|];
      }
    }
    NoSchemeIn(u, |authority|);
    assert LexConfig.AsyncScheme + authority + ChatDbPath == LexConfig.AsyncScheme + u;
    ReplaceHead(LexConfig.AsyncScheme, u, LexConfig.Scheme);
    assert LexConfig.Scheme + u == LexConfig.Scheme + authority + ChatDbPath;
  }

  /** Before the path, `/mobius_chat` occurs nowhere in the usual URL. */
  lemma NoChatPathBefore(authority: string, i: nat)
    requires '/' !in authority && !IsPrefix(ChatDbPath[1..], authority)
    requires i < 13 + |authority|
    ensures !OccursAt(LexConfig.Scheme + authority + ChatDbPath, ChatDbPath, i)
  {
    var s := LexConfig.Scheme + authority + ChatDbPath;
    if i + 12 <= |s| {
      var w := s[i..i + 12];
      assert w[0] == s[i] && w[1] == s[i + 1];
      if i >= 13 {
        assert s[i] == authority[i - 13];
        assert authority[i - 13] in authority;
        assert w[0] != ChatDbPath[0];
      } else if i == 12 {
        if |authority| >= 11 {
          assert authority[..11] == s[13..24] == w[1..];
          assert w[1..] != ChatDbPath[1..];
        } else {
          assert s[13 + |authority|] == '/';
          assert w[1 + |authority|] == s[13 + |authority|];
          assert w[1 + |authority|] != ChatDbPath[1 + |authority|];
        }
      } else if i == 11 {
        assert s[12] == '/';
        assert w[1] != ChatDbPath[1];
      } else {
        assert s[i] == LexConfig.Scheme[i];
        assert w[0] != ChatDbPath[0];
      }
    }
  }

  /**
   * For the usual `postgresql+asyncpg://<authority>/mobius_chat` the script
   * connects to `postgresql://<authority>/postgres`, provided the authority
   * has no `/` and does not itself start with `mobius_chat` (one that does
   * is rewritten too, since `//mobius_chat` holds `/mobius_chat`).
   */
  lemma RewriteTypical(authority: string)
    requires '/' !in authority && !IsPrefix(ChatDbPath[1..], authority)
    ensures RewriteUrl(LexConfig.AsyncScheme + authority + ChatDbPath) == LexConfig.Scheme + authority + AdminDbPath
  {
    SchemeRewrite(authority);
    var s := LexConfig.Scheme + authority + ChatDbPath;
    var n := 13 + |authority|;
    forall i | 0 <= i < n ensures !OccursAt(s, ChatDbPath, i) {
      NoChatPathBefore(authority, i);
    }
    ReplaceSkips(s, n, ChatDbPath, AdminDbPath);
    assert s[..n] == LexConfig.Scheme + authority && s[n..] == ChatDbPath + [];
    ReplaceHead(ChatDbPath, [], AdminDbPath);
    assert AdminDbPath + [] == AdminDbPath;
  }

  /** What the clean-up script does before touching the database. */
  datatype Cleanup = MissingEnvFile | MissingUrl | Connect(url: string)

  /**
   * No `.env` file, or no non-empty CHAT_RAG_DATABASE_URL in it, stops the
   * script before any connection; otherwise it connects to the rewritten
   * URL.
   */
  function CleanupOf(envFile: Option<seq<string>>): (c: Cleanup)
    ensures c == MissingEnvFile <==> envFile.None?
    ensures envFile.Some? ==>
      (c == MissingUrl <==> UrlKey !in EnvOf(envFile.value) || EnvOf(envFile.value)[UrlKey] == [])
    ensures c.Connect? ==> c.url == RewriteUrl(EnvOf(envFile.value)[UrlKey])
  {
    match envFile
    case None => MissingEnvFile
    case Some(lines) =>
      var env := EnvOf(lines);
      var url := if UrlKey in env then env[UrlKey] else "";
      if url == [] then MissingUrl else Connect(RewriteUrl(url))
  }

  /** The script up to its connection. */
  method PlanCleanup(envFile: Option<seq<string>>) returns (c: Cleanup)
    ensures c == CleanupOf(envFile)
  {
    if envFile.None? {
      return MissingEnvFile;
    }
    var env := ParseEnv(envFile.value);
    var url := if UrlKey in env then env[UrlKey] else "";
    if url == [] {
      return MissingUrl;
    }
    c := Connect(RewriteUrl(url));
  }
}
