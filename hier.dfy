/**
 * The vector ("hier") path of the studio evaluation: similarity from a
 * neighbour distance, the document allow-list post-filter, matching by
 * gold parent id only, the answer decision on the top-1 similarity, and
 * the hit@k flags shared with the summary.
 *
 * The embedding call and the neighbour search are external: the
 * neighbours of each question and the metadata rows are inputs.
 */
module Hier {
  import opened Text
  import opened Gold
  import opened Ranking

  /** `max(0, min(1, 1 - d/2))`; no similarity without a distance. */
  function Similarity(distance: Option<real>): (r: Option<real>)
    ensures r.None? <==> distance.None?
    ensures r.Some? ==> 0.0 <= r.value <= 1.0
    ensures distance.Some? && 0.0 <= distance.value <= 2.0 ==> r == Some(1.0 - distance.value / 2.0)
    ensures distance.Some? && distance.value < 0.0 ==> r == Some(1.0)
    ensures distance.Some? && distance.value > 2.0 ==> r == Some(0.0)
  {
    if distance.None? then None
    else
      var s := 1.0 - distance.value / 2.0;
      Some(if s < 0.0 then 0.0 else if s > 1.0 then 1.0 else s)
  }

  /** A closer neighbour is never less similar. */
  lemma SimilarityAntitone(d1: real, d2: real)
    requires d1 <= d2
    ensures Similarity(Some(d2)).value <= Similarity(Some(d1)).value
  {
  }

  /** A neighbour as the search service returns it (ids are never empty). */
  datatype Neighbor = Neighbor(id: string, distance: Option<real>)

  /** The published metadata row of a neighbour. */
  datatype MetaRow = MetaRow(documentId: Option<string>, text: Option<string>, page: Option<int>, sourceType: Option<string>)

  /** `meta.get(id) or {}` */
  function MetaOf(meta: map<string, MetaRow>, id: string): MetaRow
  {
    if id in meta then meta[id] else MetaRow(None, None, None, None)
  }

  /**
   * `{str(x) for x in document_ids if str(x).strip()} if document_ids else None`;
   * filtering is on only when the set is non-empty.
   */
  function DocAllow(documentIds: Option<seq<string>>): (r: Option<set<string>>)
    ensures r.Some? ==> documentIds.Some? && forall d :: d in r.value <==> d in documentIds.value && !IsBlank(d)
    ensures r.None? <==> documentIds.None? || documentIds.value == []
  {
    if documentIds.None? || documentIds.value == [] then None
    else Some(set d | d in documentIds.value && !IsBlank(d))
  }

  predicate Filtering(allow: Option<set<string>>) { allow.Some? && allow.value != {} }

  /** How many neighbours to ask for: more when they will be filtered by document. */
  function FetchK(topK: int, allow: Option<set<string>>): (k: int)
    ensures !Filtering(allow) ==> k == topK
    ensures Filtering(allow) ==> 50 <= k <= 200 && (k == 200 || k == 50 || k == 8 * topK)
    ensures Filtering(allow) && topK >= 1 && topK <= 25 ==> k >= topK
  {
    if Filtering(allow) then
      var k := if 8 * topK > 50 then 8 * topK else 50;
      if k < 200 then k else 200
    else topK
  }

  /** The neighbour's document is in the allow-list (an absent or empty document id never is). */
  predicate Allowed(meta: map<string, MetaRow>, allow: set<string>, n: Neighbor)
  {
    var m := MetaOf(meta, n.id);
    m.documentId.Some? && m.documentId.value != [] && m.documentId.value in allow
  }

  /** The allowed neighbours in service order. */
  function Kept(meta: map<string, MetaRow>, allow: set<string>, ns: seq<Neighbor>): (r: seq<Neighbor>)
    ensures |r| <= |ns|
    decreases |ns|
  {
    if ns == [] then []
    else
      var k := |ns|;
      Kept(meta, allow, ns[..k - 1]) + (if Allowed(meta, allow, ns[k - 1]) then [ns[k - 1]] else [])
  }

  /**
   * What the filter loop keeps: it checks the count after every neighbour,
   * so with `top_k >= 1` it keeps the first `top_k` allowed neighbours, and
   * with `top_k <= 0` it stops after looking at the first neighbour.
   */
  function FilterSpec(meta: map<string, MetaRow>, allow: set<string>, ns: seq<Neighbor>, topK: int): seq<Neighbor>
  {
    var all := Kept(meta, allow, ns);
    if topK >= 1 then (if |all| <= topK then all else all[..topK])
    else Kept(meta, allow, ns[..if |ns| < 1 then |ns| else 1])
  }

  /** Filtering a prefix of the neighbours yields a prefix of the filtered list. */
  lemma {:induction false} KeptPrefix(meta: map<string, MetaRow>, allow: set<string>, ns: seq<Neighbor>, j: nat)
    requires j <= |ns|
    ensures IsPrefixOf(Kept(meta, allow, ns[..j]), Kept(meta, allow, ns))
    decreases |ns|
  {
    if j == |ns| {
      assert ns[..j] == ns;
    } else {
      var init := ns[..|ns| - 1];
      KeptPrefix(meta, allow, init, j);
      assert init[..j] == ns[..j];
      var p, a := Kept(meta, allow, ns[..j]), Kept(meta, allow, init);
      var all := Kept(meta, allow, ns);
      assert all[..|a|] == a;
      assert all[..|p|] == a[..|p|];
    }
  }

  lemma {:induction false} KeptAllowed(meta: map<string, MetaRow>, allow: set<string>, ns: seq<Neighbor>)
    ensures forall n :: n in Kept(meta, allow, ns) ==> n in ns && Allowed(meta, allow, n)
    decreases |ns|
  {
    if ns != [] {
      var k := |ns|;
      KeptAllowed(meta, allow, ns[..k - 1]);
      assert forall n :: n in ns[..k - 1] ==> n in ns;
    }
  }

  /**
   * The post-filter keeps only allowed neighbours, in service order (it is
   * a prefix of all allowed neighbours), and at most `top_k` of them when
   * `top_k >= 1` (at most one otherwise).
   */
  lemma FilterSpecProps(meta: map<string, MetaRow>, allow: set<string>, ns: seq<Neighbor>, topK: int)
    ensures var r := FilterSpec(meta, allow, ns, topK);
      (forall n :: n in r ==> n in ns && Allowed(meta, allow, n))
      && IsPrefixOf(r, Kept(meta, allow, ns))
      && |r| <= (if topK >= 1 then topK else 1)
  {
    var all := Kept(meta, allow, ns);
    KeptAllowed(meta, allow, ns);
    if topK < 1 {
      var j := if |ns| < 1 then |ns| else 1;
      KeptPrefix(meta, allow, ns, j);
      KeptAllowed(meta, allow, ns[..j]);
      assert forall n :: n in ns[..j] ==> n in ns;
    }
  }

  predicate IsPrefixOf<T(==)>(p: seq<T>, s: seq<T>) { |p| <= |s| && s[..|p|] == p }

  /** The allow-list loop of `_run_hier_eval`: append allowed neighbours, stop once `top_k` are kept. */
  method FilterNeighbors(meta: map<string, MetaRow>, allow: set<string>, ns: seq<Neighbor>, topK: int)
    returns (filtered: seq<Neighbor>)
    ensures filtered == FilterSpec(meta, allow, ns, topK)
  {
    filtered := [];
    var i := 0;
    while i < |ns|
      invariant 0 <= i <= |ns|
      invariant filtered == Kept(meta, allow, ns[..i])
      invariant i > 0 ==> |filtered| < topK
    {
      assert ns[..i + 1][..i] == ns[..i];
      if Allowed(meta, allow, ns[i]) {
        filtered := filtered + [ns[i]];
      }
      if |filtered| >= topK {
        FilterStop(meta, allow, ns, topK, i, filtered);
        return;
      }
      i := i + 1;
    }
    assert ns[..i] == ns;
    FilterDone(meta, allow, ns, topK, filtered);
  }

  lemma FilterStop(meta: map<string, MetaRow>, allow: set<string>, ns: seq<Neighbor>, topK: int, i: nat,
                   filtered: seq<Neighbor>)
    requires i < |ns| && filtered == Kept(meta, allow, ns[..i + 1]) && |filtered| >= topK
    requires i > 0 ==> |Kept(meta, allow, ns[..i])| < topK
    ensures filtered == FilterSpec(meta, allow, ns, topK)
  {
    KeptPrefix(meta, allow, ns, i + 1);
    if topK >= 1 {
      assert i > 0 ==> ns[..i + 1][..i] == ns[..i];
      assert |filtered| == topK;
    }
  }

  lemma FilterDone(meta: map<string, MetaRow>, allow: set<string>, ns: seq<Neighbor>, topK: int, filtered: seq<Neighbor>)
    requires filtered == Kept(meta, allow, ns)
    requires |ns| > 0 ==> |filtered| < topK
    ensures filtered == FilterSpec(meta, allow, ns, topK)
  {
    if |ns| == 0 {
      assert ns[..0] == ns;
    }
  }

  /** `_run_hier_eval`'s gold set: `{str(x) for x in parent_ids if str(x).strip()}`, a lone string as a one-element list. */
  function HierGoldSet(q: Question): (r: set<string>)
    ensures q.gold.NotDict? ==> r == {}
    ensures forall p :: p in r ==> !IsBlank(p)
  {
    if q.gold.NotDict? then {}
    else
      match q.gold.fields.parentIds
      case Str(s) => if IsBlank(s) then {} else {s}
      case List(items) => set x | x in items && !IsBlank(x.text) :: x.text
      case _ => {}
  }

  /**
   * Unlike the BM25 matcher's parent set, the vector path keys on the text
   * of an element, not its truthiness: a falsy element such as `0` still
   * counts, a blank string does not.
   */
  lemma HierGoldSetVsParentSet(q: Question, x: Elem)
    requires q.gold.Dict? && q.gold.fields.parentIds.List? && x in q.gold.fields.parentIds.items
    ensures x.text in HierGoldSet(q) <== !IsBlank(x.text)
    ensures x.text in ParentSet(q.gold.fields.parentIds) <== x.truthy
  {
  }

  datatype HierVerdict = HierVerdict(
    qid: string,
    intent: string,
    bucket: string,
    question: string,
    expectInManual: bool,
    goldBestRank: Option<nat>,
    top1Similarity: Option<real>,
    wouldAnswer: bool,
    falsePositive: bool)

  datatype HierRow = HierRow(
    qid: string,
    rank: nat,
    neighborId: string,
    similarity: Option<real>,
    page: Option<int>,
    sourceType: Option<string>,
    snippet: string,
    matched: bool,
    why: Option<Why>)

  function InGold(gold: set<string>, ns: seq<Neighbor>): (m: seq<bool>)
    ensures |m| == |ns|
  {
    seq(|ns|, i requires 0 <= i < |ns| => ns[i].id in gold)
  }

  /** The first rank whose neighbour id is a gold parent; none without gold. */
  function HierBestRank(gold: set<string>, ns: seq<Neighbor>): Option<nat>
  {
    if gold == {} then None else FirstRank(InGold(gold, ns))
  }

  lemma HierBestRankSpec(gold: set<string>, ns: seq<Neighbor>)
    ensures var r := HierBestRank(gold, ns);
      (r.Some? ==> gold != {} && 1 <= r.value <= |ns| && ns[r.value - 1].id in gold
                   && forall j :: 0 <= j < r.value - 1 ==> ns[j].id !in gold)
      && (r.None? <==> gold == {} || forall j :: 0 <= j < |ns| ==> ns[j].id !in gold)
  {
    var m := InGold(gold, ns);
    FirstRankSpec(m);
    assert forall j :: 0 <= j < |ns| ==> m[j] == (ns[j].id in gold);
  }

  /** `txt[:220].replace("\n", " ").strip()` */
  function Snippet(txt: string): string
  {
    Trim(ReplaceChar(Take(txt, 220), '\n', " "))
  }

  /** A snippet has at most 220 characters, no line break and no surrounding white space. */
  lemma SnippetSpec(txt: string)
    ensures var r := Snippet(txt);
      |r| <= 220 && (forall k :: 0 <= k < |r| ==> r[k] != '\n')
      && (r == [] || (!IsSpace(r[0]) && !IsSpace(r[|r| - 1])))
  {
    var t := Take(txt, 220);
    ReplaceCharSpec(t, '\n', " ");
    var u := ReplaceChar(t, '\n', " ");
    TrimChars(u);
    TrimSpec(u);
  }

  function HierRowOf(qid: string, gold: set<string>, rank: nat, n: Neighbor, meta: map<string, MetaRow>): HierRow
  {
    var r := MetaOf(meta, n.id);
    var txt := if r.text.Some? then r.text.value else "";
    var hit := gold != {} && n.id in gold;
    HierRow(qid, rank, n.id, Similarity(n.distance), r.page, r.sourceType, Snippet(txt), hit,
            if hit then Some(ByParent) else None)
  }

  function HierRows(qid: string, gold: set<string>, ns: seq<Neighbor>, meta: map<string, MetaRow>): (rows: seq<HierRow>)
  {
    seq(|ns|, i requires 0 <= i < |ns| => HierRowOf(qid, gold, i + 1, ns[i], meta))
  }

  /** Rows have contiguous ranks and match exactly the neighbours whose id is a gold parent. */
  lemma HierRowsSpec(qid: string, gold: set<string>, ns: seq<Neighbor>, meta: map<string, MetaRow>)
    ensures var rows := HierRows(qid, gold, ns, meta);
      |rows| == |ns|
      && forall i :: 0 <= i < |rows| ==>
        rows[i].rank == i + 1 && rows[i].neighborId == ns[i].id
        && (rows[i].matched <==> gold != {} && ns[i].id in gold)
        && (rows[i].why.Some? <==> rows[i].matched)
  {
  }

  /** The neighbours of one question after the allow-list filter. */
  function Scoped(meta: map<string, MetaRow>, allow: Option<set<string>>, ns: seq<Neighbor>, topK: int): seq<Neighbor>
  {
    if Filtering(allow) then FilterSpec(meta, allow.value, ns, topK) else ns
  }

  /** The verdict on one question from its (already filtered) neighbours. */
  function HierVerdictOf(q: Question, ns: seq<Neighbor>, threshold: real): HierVerdict
  {
    var gold := HierGoldSet(q);
    var top1 := if ns != [] then Similarity(ns[0].distance) else None;
    var inManual := ExpectInManual(q);
    var would := WouldAnswer(top1, threshold);
    HierVerdict(Qid(q), NormField(q.intent), Bucket(q), QuestionText(q), inManual,
                HierBestRank(gold, ns), top1, would, FalsePositive(inManual, would))
  }

  /**
   * The vector decision looks only at the first neighbour's similarity: it
   * answers iff that similarity exists and reaches the threshold, and a
   * false positive is an answer to a question not expected in the manual.
   */
  lemma HierDecision(q: Question, ns: seq<Neighbor>, threshold: real)
    ensures var v := HierVerdictOf(q, ns, threshold);
      (v.wouldAnswer <==> ns != [] && ns[0].distance.Some? && Similarity(ns[0].distance).value >= threshold)
      && (v.falsePositive <==> !ExpectInManual(q) && v.wouldAnswer)
      && (v.top1Similarity.Some? ==> 0.0 <= v.top1Similarity.value <= 1.0)
  {
  }

  /** The per-question body of `_run_hier_eval`. */
  method EvalHierQuestion(q: Question, ns: seq<Neighbor>, meta: map<string, MetaRow>, allow: Option<set<string>>,
                          topK: int, threshold: real)
    returns (v: HierVerdict, rows: seq<HierRow>)
    ensures v == HierVerdictOf(q, Scoped(meta, allow, ns, topK), threshold)
    ensures rows == HierRows(Qid(q), HierGoldSet(q), Scoped(meta, allow, ns, topK), meta)
  {
    var neigh := ns;
    if Filtering(allow) {
      neigh := FilterNeighbors(meta, allow.value, ns, topK);
    }
    v := HierVerdictOf(q, neigh, threshold);
    rows := EmitHierRows(Qid(q), HierGoldSet(q), neigh, meta);
  }

  method EmitHierRows(qid: string, gold: set<string>, ns: seq<Neighbor>, meta: map<string, MetaRow>)
    returns (rows: seq<HierRow>)
    ensures rows == HierRows(qid, gold, ns, meta)
  {
    rows := [];
    var i := 0;
    while i < |ns|
      invariant 0 <= i <= |ns|
      invariant |rows| == i
      invariant forall j :: 0 <= j < i ==> rows[j] == HierRowOf(qid, gold, j + 1, ns[j], meta)
    {
      rows := rows + [HierRowOf(qid, gold, i + 1, ns[i], meta)];
      i := i + 1;
    }
  }

  /** A question with what the neighbour search returned for it. */
  datatype Probe = Probe(q: Question, neighbors: seq<Neighbor>)

  datatype HierOut = HierOut(perQuestion: seq<HierVerdict>, rows: seq<HierRow>)

  function HierVerdictFor(meta: map<string, MetaRow>, allow: Option<set<string>>, topK: int, threshold: real)
    : (Probe) -> HierVerdict
  {
    (pr: Probe) => HierVerdictOf(pr.q, Scoped(meta, allow, pr.neighbors, topK), threshold)
  }

  function AllHierRows(items: seq<Probe>, meta: map<string, MetaRow>, allow: Option<set<string>>, topK: int)
    : seq<HierRow>
    decreases |items|
  {
    if items == [] then []
    else
      var k := |items|;
      var q := items[k - 1].q;
      AllHierRows(items[..k - 1], meta, allow, topK)
        + HierRows(Qid(q), HierGoldSet(q), Scoped(meta, allow, items[k - 1].neighbors, topK), meta)
  }

  const MissingVertex := "Missing Vertex config: set VERTEX_PROJECT, VERTEX_INDEX_ENDPOINT_ID, VERTEX_DEPLOYED_INDEX_ID"

  /**
   * The specification of `_run_hier_eval`, each question paired with its
   * neighbour search; `vertexReady` says whether the project, endpoint and
   * deployed-index settings are all present.
   */
  function HierEval(dbUrl: string, vertexReady: bool, items: seq<Probe>, meta: map<string, MetaRow>,
                    documentIds: Option<seq<string>>, topK: int, threshold: real): Outcome<HierOut>
  {
    if dbUrl == [] then Failed("CHAT_RAG_DATABASE_URL (or CHAT_DATABASE_URL) must be set to fetch metadata")
    else if !vertexReady then Failed(MissingVertex)
    else
      var allow := DocAllow(documentIds);
      Done(HierOut(MapSeq(items, HierVerdictFor(meta, allow, topK, threshold)),
                   AllHierRows(items, meta, allow, topK)))
  }

  /** One verdict per question, the i-th for the i-th question. */
  lemma HierEvalAt(dbUrl: string, items: seq<Probe>, meta: map<string, MetaRow>,
                   documentIds: Option<seq<string>>, topK: int, threshold: real, i: nat)
    requires dbUrl != [] && i < |items|
    ensures var out := HierEval(dbUrl, true, items, meta, documentIds, topK, threshold).value.perQuestion;
      |out| == |items|
      && out[i] == HierVerdictOf(items[i].q, Scoped(meta, DocAllow(documentIds), items[i].neighbors, topK), threshold)
  {
    MapSeqAt(items, HierVerdictFor(meta, DocAllow(documentIds), topK, threshold), i);
  }

  /** `_run_hier_eval`. */
  method RunHierEval(dbUrl: string, vertexReady: bool, items: seq<Probe>, meta: map<string, MetaRow>,
                     documentIds: Option<seq<string>>, topK: int, threshold: real)
    returns (out: Outcome<HierOut>)
    ensures out == HierEval(dbUrl, vertexReady, items, meta, documentIds, topK, threshold)
  {
    if dbUrl == [] {
      return Failed("CHAT_RAG_DATABASE_URL (or CHAT_DATABASE_URL) must be set to fetch metadata");
    }
    if !vertexReady {
      return Failed(MissingVertex);
    }
    var allow := DocAllow(documentIds);
    var perQ: seq<HierVerdict> := [];
    var rows: seq<HierRow> := [];
    var i := 0;
    while i < |items|
      invariant 0 <= i <= |items|
      invariant perQ == MapSeq(items[..i], HierVerdictFor(meta, allow, topK, threshold))
      invariant rows == AllHierRows(items[..i], meta, allow, topK)
    {
      assert items[..i + 1][..i] == items[..i];
      var v, rs := EvalHierQuestion(items[i].q, items[i].neighbors, meta, allow, topK, threshold);
      perQ := perQ + [v];
      rows := rows + rs;
      i := i + 1;
    }
    assert items[..i] == items;
    return Done(HierOut(perQ, rows));
  }

  // ------------------------------------------------------------- hit@k

  datatype Hits = Hits(at1: bool, at3: bool, at5: bool, at10: bool)

  /** `_hit_flags`: no flags without a rank, else `at_k <=> rank <= k`. */
  function HitFlags(rank: Option<nat>): (h: Option<Hits>)
    ensures h.None? <==> rank.None?
  {
    if rank.None? then None
    else Some(Hits(rank.value <= 1, rank.value <= 3, rank.value <= 5, rank.value <= 10))
  }

  /** A hit at a smaller cut-off is a hit at every larger one. */
  lemma HitFlagsMonotone(rank: Option<nat>)
    requires rank.Some?
    ensures var h := HitFlags(rank).value;
      (h.at1 ==> h.at3) && (h.at3 ==> h.at5) && (h.at5 ==> h.at10)
      && (h.at1 <==> rank.value <= 1) && (h.at10 <==> rank.value <= 10)
  {
  }
}
