// What the evaluation studio does around an LLM that writes a question set:
// it picks evidence paragraphs for the prompt (`_fetch_evidence_candidates`)
// and pulls the YAML out of the model's reply (`_extract_yaml_block`).

module QuestionGen {
  import opened Text
  import opened Ranking
  import opened Segment
  import opened Sorting

  // ------------------------------------------------------------ searching

  /** The first index at or after `from` where `pat` occurs in `s`. */
  function FindFrom(s: string, pat: string, from: nat): (r: Option<nat>)
    ensures r.Some? ==> from <= r.value && OccursAt(s, pat, r.value)
    decreases |s| - from
  {
    if from + |pat| > |s| then None
    else if OccursAt(s, pat, from) then Some(from)
    else FindFrom(s, pat, from + 1)
  }

  /** `FindFrom` reports the first occurrence, and `None` only when there is none. */
  lemma {:induction false} FindFromFirst(s: string, pat: string, from: nat, j: nat)
    requires from <= j && OccursAt(s, pat, j)
    ensures FindFrom(s, pat, from).Some? && FindFrom(s, pat, from).value <= j
    decreases |s| - from
  {
    if from + |pat| <= |s| && !OccursAt(s, pat, from) {
      FindFromFirst(s, pat, from + 1, j);
    }
  }

  /** No occurrence in `s` means no occurrence in a slice of it. */
  lemma NotContainsSlice(s: string, pat: string, a: nat, b: nat)
    requires a <= b <= |s| && !Contains(s, pat)
    ensures !Contains(s[a..b], pat)
  {
    ContainsAt(s, pat);
    ContainsAt(s[a..b], pat);
    OccursInSlice(s, pat, a, b);
  }

  /** An occurrence in a slice is an occurrence in the whole string, shifted by the slice's start. */
  lemma OccursInSlice(s: string, pat: string, a: nat, b: nat)
    requires a <= b <= |s|
    ensures forall i: nat :: OccursAt(s[a..b], pat, i) ==> OccursAt(s, pat, a + i)
  {
    forall i: nat | OccursAt(s[a..b], pat, i) ensures OccursAt(s, pat, a + i) {
      assert a + i + |pat| <= b;
      var u, v := s[a..b][i..i + |pat|], s[a + i..a + i + |pat|];
      assert forall m :: 0 <= m < |pat| ==> u[m] == v[m];
      assert u == v;
    }
  }

  /** `strip()` keeps a slice of its input. */
  lemma TrimIsSlice(s: string) returns (a: nat, b: nat)
    ensures a <= b <= |s| && Trim(s) == s[a..b]
  {
    TrimLeftSpec(s);
    var l := TrimLeft(s);
    TrimRightSpec(l);
    a := |s| - |l|;
    b := a + |TrimRight(l)|;
    assert l == s[a..];
  }

  /** The index of the first non-whitespace character at or after `k` (`\s*`). */
  function SkipSpace(t: string, k: nat): (j: nat)
    ensures j == k + SpaceRun(t, k)
  {
    k + SpaceRun(t, k)
  }

  // ---------------------------------------------------- _extract_yaml_block

  const Fence: string := "```"
  const YamlFence: string := "```yaml"
  const QuestionsKey: string := "questions:"

  /**
   * `re.search(r"```yaml\s*([\s\S]*?)```", t, IGNORECASE)`: the group runs
   * from after the first case-insensitive "```yaml" and its whitespace to the
   * next fence. When that first opener has no fence after it, no later one
   * has either.
   */
  function YamlFenced(t: string): Option<string>
  {
    match FindFrom(Lower(t), YamlFence, 0)
    case None => None
    case Some(i) =>
      var j := SkipSpace(t, i + |YamlFence|);
      match FindFrom(t, Fence, j)
      case None => None
      case Some(k) => Some(t[j..k])
  }

  /** `re.search(r"```\s*([\s\S]*?)```", t)`: the same, opened by any fence. */
  function AnyFenced(t: string): Option<string>
  {
    match FindFrom(t, Fence, 0)
    case None => None
    case Some(i) =>
      var j := SkipSpace(t, i + |Fence|);
      match FindFrom(t, Fence, j)
      case None => None
      case Some(k) => Some(t[j..k])
  }

  /** The group of either search holds no fence: it stops at the first one. */
  lemma {:induction false} GroupHasNoFence(t: string, j: nat, k: nat)
    requires FindFrom(t, Fence, j) == Some(k)
    ensures j <= k && !Contains(t[j..k], Fence)
  {
    var g := t[j..k];
    ContainsAt(g, Fence);
    if Contains(g, Fence) {
      var p: nat :| OccursAt(g, Fence, p);
      assert t[j + p..j + p + |Fence|] == g[p..p + |Fence|];
      FindFromFirst(t, Fence, j, j + p);
      assert false;
    }
  }

  predicate FenceLine(line: string) { IsPrefix(Fence, Trim(line)) }

  /** The index of the first fence line. */
  function FirstFenceLine(lines: seq<string>): (r: Option<nat>)
    ensures r.Some? ==> (r.value < |lines| && FenceLine(lines[r.value])
                         && forall i :: 0 <= i < r.value ==> !FenceLine(lines[i]))
    ensures r.None? ==> forall i :: 0 <= i < |lines| ==> !FenceLine(lines[i])
  {
    if lines == [] then None
    else if FenceLine(lines[0]) then Some(0)
    else match FirstFenceLine(lines[1..])
      case None => None
      case Some(i) => Some(i + 1)
  }

  /**
   * An unclosed or oddly closed fence: the lines after the first fence line,
   * up to the next fence line if there is one. `None` when no line opens
   * with a fence.
   */
  function FencedLines(t: string): (r: Option<seq<string>>)
    ensures r.Some? ==> forall i :: 0 <= i < |r.value| ==> !FenceLine(r.value[i])
  {
    var lines := Lines(t);
    match FirstFenceLine(lines)
    case None => None
    case Some(start) =>
      var body := lines[start + 1..];
      match FirstFenceLine(body)
      case None => Some(body)
      case Some(end) => Some(body[..end])
  }

  /**
   * `_extract_yaml_block`: blank replies give "", a ```yaml block gives its
   * stripped content, another fenced block does so only when it mentions
   * `questions:`, an unclosed fence gives the lines after it when they are
   * not blank, and anything else is returned stripped.
   */
  function ExtractYamlBlock(text: string): (r: string)
  {
    var t := Trim(text);
    if t == [] then []
    else if YamlFenced(t).Some? then Trim(YamlFenced(t).value)
    else if AnyFenced(t).Some? && Contains(AnyFenced(t).value, QuestionsKey) then Trim(AnyFenced(t).value)
    else if Contains(t, Fence) && FencedLines(t).Some? && Trim(Join(FencedLines(t).value, "\n")) != [] then
      Trim(Join(FencedLines(t).value, "\n"))
    else t
  }

  /** Lower-casing keeps backticks, so a case-insensitive "```yaml" starts with a fence. */
  lemma LowerKeepsFence(t: string)
    ensures forall i: nat :: OccursAt(Lower(t), YamlFence, i) ==> OccursAt(t, Fence, i)
  {
    forall i: nat | OccursAt(Lower(t), YamlFence, i) ensures OccursAt(t, Fence, i) {
      forall m | 0 <= m < |Fence| ensures t[i + m] == Fence[m] {
        assert Lower(t)[i + m] == YamlFence[m];
      }
    }
  }

  /** A reply without any fence is raw YAML: it comes back stripped. */
  lemma RawYamlPassesThrough(text: string)
    requires !Contains(text, Fence)
    ensures ExtractYamlBlock(text) == Trim(text)
  {
    var t := Trim(text);
    var a, b := TrimIsSlice(text);
    NotContainsSlice(text, Fence, a, b);
    ContainsAt(t, Fence);
    LowerKeepsFence(t);
  }

  /**
   * A closed ```yaml block yields its stripped content, which holds no fence,
   * so extracting again changes nothing.
   */
  lemma YamlBlockContent(text: string, g: string)
    requires Trim(text) != [] && YamlFenced(Trim(text)) == Some(g)
    ensures ExtractYamlBlock(text) == Trim(g)
    ensures !Contains(ExtractYamlBlock(text), Fence)
    ensures ExtractYamlBlock(ExtractYamlBlock(text)) == ExtractYamlBlock(text)
  {
    var t := Trim(text);
    var i := FindFrom(Lower(t), YamlFence, 0).value;
    var j := SkipSpace(t, i + |YamlFence|);
    GroupHasNoFence(t, j, FindFrom(t, Fence, j).value);
    var a, b := TrimIsSlice(g);
    NotContainsSlice(g, Fence, a, b);
    RawYamlPassesThrough(Trim(g));
    TrimIdempotent(g);
  }

  // -------------------------------------------- _fetch_evidence_candidates

  /** A `published_rag_metadata` row of a hierarchical paragraph. */
  datatype EvidenceRow = EvidenceRow(
    id: string,
    documentId: Option<string>,
    documentName: Option<string>,
    page: Option<int>,
    sectionPath: Option<string>,
    chapterPath: Option<string>,
    text: Option<string>)

  const EvidenceTocWindow: nat := 220
  const EvidenceMinLen: nat := 200
  const EvidenceMaxText: nat := 1200
  const DotLeader: string := "......"
  const Ellipsis: char := '…'

  function OrEmpty(s: Option<string>): string { if s.Some? then s.value else [] }

  function TextOf(r: EvidenceRow): string { OrEmpty(r.text) }
  function DocOf(r: EvidenceRow): string { OrEmpty(r.documentId) }

  /** Not blank, no table-of-contents dot leader early on, at least 200 characters once stripped. */
  predicate OkText(s: string)
  {
    !IsBlank(s) && !Contains(Take(s, EvidenceTocWindow), DotLeader) && |Trim(s)| >= EvidenceMinLen
  }

  /** The paragraph carries a section or chapter label. */
  predicate Labelled(r: EvidenceRow) { OrEmpty(r.sectionPath) != [] || OrEmpty(r.chapterPath) != [] }

  function LabelRank(r: EvidenceRow): nat { if Labelled(r) then 0 else 1 }

  /** The sort key `(0 if labelled else 1, -len(text))`, compared as a pair. */
  predicate KeyLe(a: EvidenceRow, b: EvidenceRow)
  {
    LabelRank(a) < LabelRank(b) || (LabelRank(a) == LabelRank(b) && |TextOf(a)| >= |TextOf(b)|)
  }

  function EvidenceLe(): (EvidenceRow, EvidenceRow) -> bool { (a: EvidenceRow, b: EvidenceRow) => KeyLe(a, b) }

  /** The key order is total and transitive. */
  lemma EvidenceOrder()
    ensures TotalPreorder(EvidenceLe())
  {
  }

  /** Python's stable `list.sort` by the key. */
  function SortByKey(s: seq<EvidenceRow>): (r: seq<EvidenceRow>)
    ensures |r| == |s|
  {
    SortBy(s, EvidenceLe())
  }

  /** The rows of one document whose text is usable, in query order. */
  function Usable(rows: seq<EvidenceRow>, did: string): (r: seq<EvidenceRow>)
    ensures forall i :: 0 <= i < |r| ==> r[i] in rows && OkText(TextOf(r[i])) && DocOf(r[i]) == did
  {
    if rows == [] then []
    else
      var n := |rows|;
      var last := rows[n - 1];
      Usable(rows[..n - 1], did) + (if OkText(TextOf(last)) && DocOf(last) == did then [last] else [])
  }

  /** The usable rows of one document, best first, at most `max(0, maxPerDoc)` of them. */
  function DocPick(rows: seq<EvidenceRow>, did: string, maxPerDoc: int): seq<EvidenceRow>
  {
    SliceTo(SortByKey(Usable(rows, did)), if maxPerDoc < 0 then 0 else maxPerDoc)
  }

  /** Document by document, in the order the ids were given. */
  function Picked(rows: seq<EvidenceRow>, ids: seq<string>, maxPerDoc: int): seq<EvidenceRow>
  {
    if ids == [] then []
    else Picked(rows, ids[..|ids| - 1], maxPerDoc) + DocPick(rows, ids[|ids| - 1], maxPerDoc)
  }

  /** The text after `rsplit(" ", 1)[0]`: everything before the last space, if any. */
  function BeforeLastSpace(s: string): (r: string)
    ensures |r| <= |s| && r == s[..|r|]
  {
    if s == [] then []
    else if s[|s| - 1] == ' ' then s[..|s| - 1]
    else if ' ' in s[..|s| - 1] then BeforeLastSpace(s[..|s| - 1])
    else s
  }

  /** Stripped text, cut at a word boundary before 1200 characters with an ellipsis. */
  function Shorten(s: string): (r: string)
  {
    var t := Trim(s);
    if |t| > EvidenceMaxText then BeforeLastSpace(t[..EvidenceMaxText]) + [Ellipsis] else t
  }

  /** Shortened text never exceeds 1201 characters and short text is only stripped. */
  lemma ShortenSpec(s: string)
    ensures |Shorten(s)| <= EvidenceMaxText + 1
    ensures |Trim(s)| <= EvidenceMaxText ==> Shorten(s) == Trim(s)
    ensures |Trim(s)| > EvidenceMaxText ==>
              (Shorten(s)[|Shorten(s)| - 1] == Ellipsis && IsPrefix(Shorten(s)[..|Shorten(s)| - 1], Trim(s)))
  {
  }

  function ShortenRow(r: EvidenceRow): EvidenceRow { r.(text := Some(Shorten(TextOf(r)))) }

  function ShortenFn(): EvidenceRow -> EvidenceRow { (r: EvidenceRow) => ShortenRow(r) }

  /** `[str(x).strip() for x in ids if str(x).strip()]` */
  function CleanDocIds(ids: seq<string>): (r: seq<string>)
    ensures forall i :: 0 <= i < |r| ==> r[i] != []
  {
    if ids == [] then []
    else
      var n := |ids|;
      CleanDocIds(ids[..n - 1]) + (if Trim(ids[n - 1]) != [] then [Trim(ids[n - 1])] else [])
  }

  /**
   * `_fetch_evidence_candidates`: no ids, no evidence; otherwise the picked
   * rows, capped by `picked[:max_total]`, with their text shortened. `rows`
   * is what the metadata query returns for the cleaned ids, in its order.
   */
  function EvidenceCandidates(ids: seq<string>, rows: seq<EvidenceRow>, maxPerDoc: int, maxTotal: int)
    : (r: seq<EvidenceRow>)
  {
    var docIds := CleanDocIds(ids);
    if docIds == [] then [] else MapSeq(SliceTo(Picked(rows, docIds, maxPerDoc), maxTotal), ShortenFn())
  }

  function CountDoc(s: seq<EvidenceRow>, did: string): nat
  {
    if s == [] then 0 else CountDoc(s[..|s| - 1], did) + (if DocOf(s[|s| - 1]) == did then 1 else 0)
  }

  lemma {:induction false} CountDocAppend(a: seq<EvidenceRow>, b: seq<EvidenceRow>, did: string)
    ensures CountDoc(a + b, did) == CountDoc(a, did) + CountDoc(b, did)
    decreases |b|
  {
    if b != [] {
      CountDocAppend(a, b[..|b| - 1], did);
      assert (a + b)[..|a + b| - 1] == a + b[..|b| - 1];
      assert (a + b)[|a + b| - 1] == b[|b| - 1];
    } else {
      assert a + b == a;
    }
  }

  lemma {:induction false} CountDocBound(s: seq<EvidenceRow>, did: string)
    ensures CountDoc(s, did) <= |s|
    ensures (forall i :: 0 <= i < |s| ==> DocOf(s[i]) != did) ==> CountDoc(s, did) == 0
  {
    if s != [] {
      CountDocBound(s[..|s| - 1], did);
    }
  }

  /** A document's pick is usable text of that document, ordered best first, within the cap. */
  lemma DocPickSpec(rows: seq<EvidenceRow>, did: string, maxPerDoc: int)
    ensures SortedBy(DocPick(rows, did, maxPerDoc), EvidenceLe())
    ensures |DocPick(rows, did, maxPerDoc)| <= (if maxPerDoc < 0 then 0 else maxPerDoc)
    ensures forall i :: 0 <= i < |DocPick(rows, did, maxPerDoc)| ==>
      DocPick(rows, did, maxPerDoc)[i] in rows && OkText(TextOf(DocPick(rows, did, maxPerDoc)[i]))
      && DocOf(DocPick(rows, did, maxPerDoc)[i]) == did
  {
    var u := Usable(rows, did);
    var s := SortByKey(u);
    EvidenceOrder();
    SortBySpec(u, EvidenceLe());
    var p := DocPick(rows, did, maxPerDoc);
    forall i | 0 <= i < |p| ensures p[i] in rows && OkText(TextOf(p[i])) && DocOf(p[i]) == did {
      assert p[i] == s[i];
      assert s[i] in multiset(u);
      var m :| 0 <= m < |u| && u[m] == s[i];
    }
  }

  /** Every picked row is a usable paragraph of a requested document. */
  lemma {:induction false} PickedSound(rows: seq<EvidenceRow>, ids: seq<string>, maxPerDoc: int)
    ensures forall i :: 0 <= i < |Picked(rows, ids, maxPerDoc)| ==>
      Picked(rows, ids, maxPerDoc)[i] in rows && OkText(TextOf(Picked(rows, ids, maxPerDoc)[i]))
      && DocOf(Picked(rows, ids, maxPerDoc)[i]) in ids
  {
    if ids != [] {
      var n := |ids|;
      var front := ids[..n - 1];
      PickedSound(rows, front, maxPerDoc);
      DocPickSpec(rows, ids[n - 1], maxPerDoc);
      var a := Picked(rows, front, maxPerDoc);
      var b := DocPick(rows, ids[n - 1], maxPerDoc);
      assert Picked(rows, ids, maxPerDoc) == a + b;
      forall i | 0 <= i < |a + b| ensures (a + b)[i] in rows && OkText(TextOf((a + b)[i])) && DocOf((a + b)[i]) in ids {
        if i < |a| {
          assert (a + b)[i] == a[i];
          assert DocOf(a[i]) in front;
        } else {
          assert (a + b)[i] == b[i - |a|];
        }
      }
    }
  }

  /**
   * With distinct ids no document contributes more than `max(0, max_per_doc)`
   * rows, and a document that was not asked for contributes none.
   */
  lemma {:induction false} PickedPerDoc(rows: seq<EvidenceRow>, ids: seq<string>, maxPerDoc: int, did: string)
    ensures (forall a, b :: 0 <= a < b < |ids| ==> ids[a] != ids[b]) ==>
      CountDoc(Picked(rows, ids, maxPerDoc), did) <= (if maxPerDoc < 0 then 0 else maxPerDoc)
    ensures did !in ids ==> CountDoc(Picked(rows, ids, maxPerDoc), did) == 0
  {
    if ids != [] {
      var n := |ids|;
      var front := ids[..n - 1];
      PickedPerDoc(rows, front, maxPerDoc, did);
      DocPickSpec(rows, ids[n - 1], maxPerDoc);
      var a := Picked(rows, front, maxPerDoc);
      var b := DocPick(rows, ids[n - 1], maxPerDoc);
      CountDocAppend(a, b, did);
      CountDocBound(b, did);
      if did == ids[n - 1] {
        if forall x, y :: 0 <= x < y < n ==> ids[x] != ids[y] {
          forall x | 0 <= x < n - 1 ensures front[x] != did {
            assert ids[x] != ids[n - 1];
          }
        }
      }
    }
  }

  /** Capping and shortening keep each candidate tied to a usable row. */
  lemma {:induction false} CappedSound(p: seq<EvidenceRow>, rows: seq<EvidenceRow>, docIds: seq<string>, maxTotal: int)
    requires forall i :: 0 <= i < |p| ==> p[i] in rows && OkText(TextOf(p[i])) && DocOf(p[i]) in docIds
    ensures var r := MapSeq(SliceTo(p, maxTotal), ShortenFn());
      forall i :: 0 <= i < |r| ==>
        exists q :: q in rows && OkText(TextOf(q)) && DocOf(q) in docIds && r[i] == ShortenRow(q)
  {
    var s := SliceTo(p, maxTotal);
    var r := MapSeq(s, ShortenFn());
    forall i | 0 <= i < |r|
      ensures exists q :: q in rows && OkText(TextOf(q)) && DocOf(q) in docIds && r[i] == ShortenRow(q)
    {
      MapSeqAt(s, ShortenFn(), i);
      assert s[i] == p[i];
      var q := p[i];
      assert q in rows && OkText(TextOf(q)) && DocOf(q) in docIds && r[i] == ShortenRow(q);
    }
  }

  /**
   * The candidates: at most `max_total` of them when that is not negative,
   * each a usable paragraph of a requested document with its text shortened.
   */
  lemma EvidenceSpec(ids: seq<string>, rows: seq<EvidenceRow>, maxPerDoc: int, maxTotal: int)
    ensures var r := EvidenceCandidates(ids, rows, maxPerDoc, maxTotal);
      (CleanDocIds(ids) == [] ==> r == [])
      && (maxTotal >= 0 ==> |r| <= maxTotal)
      && forall i :: 0 <= i < |r| ==>
        exists p :: p in rows && OkText(TextOf(p)) && DocOf(p) in CleanDocIds(ids) && r[i] == ShortenRow(p)
  {
    var docIds := CleanDocIds(ids);
    if docIds != [] {
      var p := Picked(rows, docIds, maxPerDoc);
      PickedSound(rows, docIds, maxPerDoc);
      assert forall i :: 0 <= i < |p| ==> p[i] in rows && OkText(TextOf(p[i])) && DocOf(p[i]) in docIds;
      CappedSound(p, rows, docIds, maxTotal);
      assert EvidenceCandidates(ids, rows, maxPerDoc, maxTotal) == MapSeq(SliceTo(p, maxTotal), ShortenFn());
    }
  }
}
