// The side-by-side report of mobius-qa/retrieval-eval/compare_bm25_vs_hier.py:
// for every question, where the gold paragraph appears in the BM25 run and in
// the hierarchical vector run, whether each would answer, and the summary
// counts over all questions.

module Compare {
  import opened Text
  import opened Sorting
  import opened Gold

  // ------------------------------------------------------------ helpers

  /** A loosely typed YAML value: null or absent, a string, a list, or anything else (with `str(x)`). */
  datatype Loose = LNone | LStr(s: string) | LList(items: seq<Elem>) | LOther(text: string)

  /** `_as_list`: null gives nothing, a string itself, a list its truthy items, anything else its text. */
  function AsList(x: Loose): (r: seq<string>)
  {
    match x
    case LNone => []
    case LStr(s) => [s]
    case LList(items) => ListTexts(items)
    case LOther(t) => [t]
  }

  function ListTexts(items: seq<Elem>): (r: seq<string>)
    ensures |r| <= |items|
    decreases |items|
  {
    if items == [] then []
    else
      var init := ListTexts(items[..|items| - 1]);
      var last := items[|items| - 1];
      if last.truthy then init + [last.text] else init
  }

  lemma {:induction false} ListTextsSpec(items: seq<Elem>)
    ensures forall t :: t in ListTexts(items) <==> exists x :: x in items && x.truthy && x.text == t
    decreases |items|
  {
    if items != [] {
      var init := items[..|items| - 1];
      ListTextsSpec(init);
      assert items == init + [items[|items| - 1]];
    }
  }

  /** Every input shape gives the strings the source takes from it; a string is kept even when empty. */
  lemma AsListSpec(x: Loose)
    ensures x.LNone? ==> AsList(x) == []
    ensures x.LStr? ==> AsList(x) == [x.s]
    ensures x.LOther? ==> AsList(x) == [x.text]
    ensures x.LList? ==> forall t :: t in AsList(x) <==> exists e :: e in x.items && e.truthy && e.text == t
  {
    if x.LList? {
      ListTextsSpec(x.items);
    }
  }

  /** `_hit_rank`: the 1-based position of the first id in `gold`. */
  function HitRankOf(ids: seq<string>, gold: set<string>): (r: Option<nat>)
    ensures r.Some? ==> 1 <= r.value <= |ids|
    decreases |ids|
  {
    if ids == [] then None
    else if ids[0] in gold then Some(1)
    else match HitRankOf(ids[1..], gold)
      case None => None
      case Some(i) => Some(i + 1)
  }

  /** The rank found is the first gold id; none is found only when no id is gold. */
  lemma {:induction false} HitRankSpec(ids: seq<string>, gold: set<string>)
    ensures HitRankOf(ids, gold).Some? ==>
      ids[HitRankOf(ids, gold).value - 1] in gold
      && forall j :: 0 <= j < HitRankOf(ids, gold).value - 1 ==> ids[j] !in gold
    ensures HitRankOf(ids, gold).None? <==> forall j :: 0 <= j < |ids| ==> ids[j] !in gold
    decreases |ids|
  {
    if ids != [] && ids[0] !in gold {
      HitRankSpec(ids[1..], gold);
      assert forall j :: 1 <= j < |ids| ==> ids[j] == ids[1..][j - 1];
    }
  }

  /** The loop of `_hit_rank`, returning at the first id found in `gold`. */
  method HitRank(ids: seq<string>, gold: set<string>) returns (r: Option<nat>)
    ensures r == HitRankOf(ids, gold)
  {
    HitRankAfterStart(ids, gold);
    var i := 0;
    while i < |ids|
      invariant 0 <= i <= |ids|
      invariant HitRankOf(ids, gold) == HitRankAfter(ids, gold, i)
    {
      if ids[i] in gold {
        return Some(i + 1);
      }
      i := i + 1;
    }
    return None;
  }

  /** The rank of the first gold id at or after position `i`, counted from the start. */
  function HitRankAfter(ids: seq<string>, gold: set<string>, i: nat): Option<nat>
    requires i <= |ids|
    decreases |ids| - i
  {
    if i == |ids| then None
    else if ids[i] in gold then Some(i + 1)
    else HitRankAfter(ids, gold, i + 1)
  }

  lemma {:induction false} HitRankAfterShift(ids: seq<string>, gold: set<string>, i: nat)
    requires 1 <= i <= |ids|
    ensures HitRankAfter(ids, gold, i) == match HitRankAfter(ids[1..], gold, i - 1)
      case None => None
      case Some(j) => Some(j + 1)
    decreases |ids| - i
  {
    if i < |ids| && ids[i] !in gold {
      HitRankAfterShift(ids, gold, i + 1);
    }
  }

  /** Scanning from the start finds exactly the rank `HitRankOf` defines. */
  lemma {:induction false} HitRankAfterStart(ids: seq<string>, gold: set<string>)
    ensures HitRankOf(ids, gold) == HitRankAfter(ids, gold, 0)
    decreases |ids|
  {
    if ids != [] && ids[0] !in gold {
      HitRankAfterStart(ids[1..], gold);
      HitRankAfterShift(ids, gold, 1);
    }
  }

  /** `_md_escape`: a pipe becomes `\|`, a newline a space. */
  function MdEscape(s: string): (r: string)
  {
    ReplaceChar(ReplaceChar(s, '|', "\\|"), '\n', " ")
  }

  lemma {:induction false} ReplaceOneAt(s: string, c: char, d: char, k: nat)
    requires k < |s|
    ensures |ReplaceChar(s, c, [d])| == |s|
    ensures ReplaceChar(s, c, [d])[k] == if s[k] == c then d else s[k]
    decreases |s|
  {
    ReplaceCharSpec(s, c, [d]);
    ReplaceCharSpec(s[1..], c, [d]);
    if k > 0 {
      ReplaceOneAt(s[1..], c, d, k - 1);
    }
  }

  /** A pipe at position `k`. */
  predicate PipeAt(r: string, k: int) { 0 <= k < |r| && r[k] == '|' }

  /** A backslash right before position `k`. */
  predicate EscapedAt(r: string, k: int) { 0 < k <= |r| && r[k - 1] == '\\' }

  /** Every pipe sits right after a backslash. */
  ghost predicate PipesEscapedIn(r: string) { forall k :: PipeAt(r, k) ==> EscapedAt(r, k) }

  /** After escaping pipes, each pipe sits right after a backslash. */
  lemma {:induction false} PipesEscaped(s: string)
    ensures PipesEscapedIn(ReplaceChar(s, '|', "\\|"))
    decreases |s|
  {
    if s != [] {
      PipesEscaped(s[1..]);
      var head := if s[0] == '|' then "\\|" else [s[0]];
      var t := ReplaceChar(s[1..], '|', "\\|");
      var r := ReplaceChar(s, '|', "\\|");
      assert r == head + t;
      forall k | PipeAt(r, k) ensures EscapedAt(r, k) {
        if k >= |head| {
          assert r[k] == t[k - |head|];
          assert PipeAt(t, k - |head|);
          if k - |head| > 0 {
            assert r[k - 1] == t[k - |head| - 1];
          }
        }
      }
    }
  }

  /** The escaped text has no newline, and every pipe in it is escaped by a backslash. */
  lemma MdEscapeSpec(s: string)
    ensures forall k :: 0 <= k < |MdEscape(s)| ==> MdEscape(s)[k] != '\n'
    ensures PipesEscapedIn(MdEscape(s))
  {
    var u := ReplaceChar(s, '|', "\\|");
    ReplaceCharSpec(u, '\n', " ");
    PipesEscaped(s);
    forall k | PipeAt(MdEscape(s), k) ensures EscapedAt(MdEscape(s), k) {
      ReplaceOneAt(u, '\n', ' ', k);
      ReplaceOneAt(u, '\n', ' ', k - 1);
      assert PipeAt(u, k);
    }
  }

  // ------------------------------------------------------------- inputs

  /** `q.get("gold") or {}`: empty, a dict, or a truthy non-dict (whose `.get` fails). */
  datatype CGold = GEmpty | GDict(parentIds: Loose, expectInManual: Option<bool>) | GNotDict

  /** One YAML question: its raw id, intent and bucket, and its gold. */
  datatype CQuestion = CQuestion(id: Elem, intent: Option<string>, bucket: Option<string>, gold: CGold)

  /** An entry of `questions:`; a non-mapping entry makes `q.get` fail. */
  datatype QEntry = QNotMapping | QMapping(q: CQuestion)

  /** The questions file: not a mapping, or the (truthy or empty) value of `questions`. */
  datatype QFile = FileNotMapping | FileQuestions(questions: QField)
  datatype QField = QFalsy | QNotList | QList(entries: seq<QEntry>)

  /** A row of the BM25 run's results.csv. */
  datatype BmRow = BmRow(qid: string, rank: int, parentId: string)

  /** A row of the BM25 run's per_question.csv; a NaN score is `None`. */
  datatype BmPerQ = BmPerQ(qid: string, maxNorm: Option<real>)

  /** A row of the hierarchical run's results.csv; a NaN or unparsable similarity is `None`. */
  datatype HiRow = HiRow(qid: string, mode: string, rank: int, neighborId: string, similarity: Option<real>)

  datatype Runs = Runs(
    bmRows: seq<BmRow>,
    bmPerQ: seq<BmPerQ>,
    hiRows: seq<HiRow>,
    hiHasMode: bool,        // results.csv has a `mode` column
    hiHasSimilarity: bool)  // results.csv has a `similarity` column

  /** `--k`, `--hit-k` and the two answer thresholds. */
  datatype Config = Config(k: int, hitK: int, bmThreshold: real, hiThreshold: real)

  const DefaultConfig := Config(10, 3, 0.65, 0.88)
  const HierOnly := "hier_only"
  const MissingQuestions := "questions file missing `questions: [...]`"

  // ----------------------------------------------------- grouped views

  function BmRankLe(): (BmRow, BmRow) -> bool { (a: BmRow, b: BmRow) => a.rank <= b.rank }
  function HiRankLe(): (HiRow, HiRow) -> bool { (a: HiRow, b: HiRow) => a.rank <= b.rank }

  lemma RankOrders()
    ensures TotalPreorder(BmRankLe()) && TotalPreorder(HiRankLe())
  {
  }

  /** `bm25_group.get(qid)`: the question's rows ranked within `k`, by rank. */
  function BmGroup(rows: seq<BmRow>, qid: string, k: int): seq<BmRow>
  {
    SortBy(Filter(rows, (r: BmRow) => r.qid == qid && r.rank <= k), BmRankLe())
  }

  /** `hier_group.get(qid)`: as for BM25, and only `hier_only` rows when the mode is recorded. */
  function HiGroup(rows: seq<HiRow>, hasMode: bool, qid: string, k: int): seq<HiRow>
  {
    SortBy(Filter(rows, (r: HiRow) => r.qid == qid && r.rank <= k && (!hasMode || r.mode == HierOnly)), HiRankLe())
  }

  /** The grouped views keep only this question's rows ranked within `k`, vector rows in `hier_only` mode, ordered by rank. */
  lemma GroupSpec(runs: Runs, qid: string, k: int)
    ensures forall i :: 0 <= i < |BmGroup(runs.bmRows, qid, k)| ==>
      BmGroup(runs.bmRows, qid, k)[i] in runs.bmRows
      && BmGroup(runs.bmRows, qid, k)[i].qid == qid && BmGroup(runs.bmRows, qid, k)[i].rank <= k
    ensures forall i :: 0 <= i < |HiGroup(runs.hiRows, runs.hiHasMode, qid, k)| ==>
      HiGroup(runs.hiRows, runs.hiHasMode, qid, k)[i] in runs.hiRows
      && HiGroup(runs.hiRows, runs.hiHasMode, qid, k)[i].qid == qid
      && HiGroup(runs.hiRows, runs.hiHasMode, qid, k)[i].rank <= k
      && (runs.hiHasMode ==> HiGroup(runs.hiRows, runs.hiHasMode, qid, k)[i].mode == HierOnly)
    ensures SortedBy(BmGroup(runs.bmRows, qid, k), BmRankLe())
    ensures SortedBy(HiGroup(runs.hiRows, runs.hiHasMode, qid, k), HiRankLe())
  {
    var bp := (r: BmRow) => r.qid == qid && r.rank <= k;
    var hp := (r: HiRow) => r.qid == qid && r.rank <= k && (!runs.hiHasMode || r.mode == HierOnly);
    SortBySpec(Filter(runs.bmRows, bp), BmRankLe());
    SortBySpec(Filter(runs.hiRows, hp), HiRankLe());
    var bg := BmGroup(runs.bmRows, qid, k);
    var hg := HiGroup(runs.hiRows, runs.hiHasMode, qid, k);
    forall i | 0 <= i < |bg| ensures bg[i] in runs.bmRows && bg[i].qid == qid && bg[i].rank <= k {
      assert bg[i] in multiset(bg);
    }
    forall i | 0 <= i < |hg| ensures hg[i] in runs.hiRows && hg[i].qid == qid && hg[i].rank <= k
      && (runs.hiHasMode ==> hg[i].mode == HierOnly) {
      assert hg[i] in multiset(hg);
    }
  }

  function BmIds(g: seq<BmRow>): seq<string> { MapSeq(g, (r: BmRow) => r.parentId) }
  function HiIds(g: seq<HiRow>): seq<string> { MapSeq(g, (r: HiRow) => r.neighborId) }

  /** `bm25_pq[qid]["max_norm_score"]`: the last per-question row of that id wins. */
  function BmScore(pq: seq<BmPerQ>, qid: string): Option<real>
    decreases |pq|
  {
    if pq == [] then None
    else if pq[|pq| - 1].qid == qid then pq[|pq| - 1].maxNorm
    else BmScore(pq[..|pq| - 1], qid)
  }

  /** `hdf.iloc[0]["similarity"]`: the similarity of the best-ranked vector row, if there is a column for it. */
  function HiTop1(g: seq<HiRow>, hasSimilarity: bool): Option<real>
  {
    if g != [] && hasSimilarity then g[0].similarity else None
  }

  // ------------------------------------------------- per-question rows

  /** What one retrieval method scored for one question. */
  datatype Side = Side(
    goldRank: Option<nat>,
    hitTop1: Option<bool>,
    hitTopK: Option<bool>,
    score: Option<real>,
    wouldAnswer: bool,
    falsePositive: bool)

  /** One line of per_question_metrics.csv. */
  datatype CmpRow = CmpRow(
    qid: string,
    intent: Option<string>,
    bucket: Option<string>,
    expectInManual: bool,
    goldParentIds: string,
    bm25: Side,
    hier: Side)

  function SideOf(ids: seq<string>, gold: set<string>, hitK: int, score: Option<real>, threshold: real, expectIn: bool): (s: Side)
  {
    var rank := if gold != {} then HitRankOf(ids, gold) else None;
    var would := score.Some? && score.value >= threshold;
    Side(rank,
         if rank.Some? then Some(rank.value == 1) else None,
         if rank.Some? then Some(rank.value <= hitK) else None,
         score, would, !expectIn && would)
  }

  /**
   * A rank exists only for a non-empty gold set and is the first gold id
   * retrieved; the hit flags are absent exactly when the rank is; a method
   * would answer when its own score reaches its own threshold, and it is a
   * false positive exactly when the question expects no answer.
   */
  lemma SideSpec(ids: seq<string>, gold: set<string>, hitK: int, score: Option<real>, threshold: real, expectIn: bool)
    ensures var s := SideOf(ids, gold, hitK, score, threshold, expectIn);
      (gold == {} ==> s.goldRank.None?)
      && (s.goldRank.Some? ==>
            1 <= s.goldRank.value <= |ids| && ids[s.goldRank.value - 1] in gold
            && forall j :: 0 <= j < s.goldRank.value - 1 ==> ids[j] !in gold)
      && (gold != {} && (exists j :: 0 <= j < |ids| && ids[j] in gold) ==> s.goldRank.Some?)
      && (s.hitTop1.None? <==> s.goldRank.None?) && (s.hitTopK.None? <==> s.goldRank.None?)
      && (s.hitTop1 == Some(true) <==> s.goldRank == Some(1))
      && (s.hitTopK == Some(true) <==> s.goldRank.Some? && s.goldRank.value <= hitK)
      && (s.wouldAnswer <==> score.Some? && score.value >= threshold)
      && (s.falsePositive <==> !expectIn && s.wouldAnswer)
  {
    HitRankSpec(ids, gold);
  }

  /** The gold set of a question and whether it expects an answer; `None` when `gold.get` fails. */
  function GoldOf(q: CQuestion): Option<(set<string>, bool)>
  {
    var byBucket := q.bucket != Some(OutOfManual);
    match q.gold
    case GNotDict => None
    case GEmpty => Some(({}, byBucket))
    case GDict(p, e) =>
      var parents := set t | t in AsList(p);
      Some((parents, if e.Some? then e.value else byBucket))
  }

  /** `";".join(sorted(gold_parents))` */
  function GoldIdsText(gold: seq<string>): string
  {
    Join(SortStrings(Dedup(gold)), ";")
  }

  function RowOf(qid: string, q: CQuestion, runs: Runs, cfg: Config): Option<CmpRow>
  {
    match GoldOf(q)
    case None => None
    case Some(ge) =>
      var hg := HiGroup(runs.hiRows, runs.hiHasMode, qid, cfg.k);
      Some(RowWith(qid, q, ge.0, ge.1, BmIds(BmGroup(runs.bmRows, qid, cfg.k)), BmScore(runs.bmPerQ, qid),
                   HiIds(hg), HiTop1(hg, runs.hiHasSimilarity), cfg))
  }

  /** The row of one question from its gold set and expectation and each side's ids and score. */
  function RowWith(qid: string, q: CQuestion, gold: set<string>, expectIn: bool, bIds: seq<string>, bScore: Option<real>,
                   hIds: seq<string>, hTop1: Option<real>, cfg: Config): CmpRow
  {
    var goldList := if q.gold.GDict? then AsList(q.gold.parentIds) else [];
    CmpRow(qid, q.intent, q.bucket, expectIn, GoldIdsText(goldList),
           SideOf(bIds, gold, cfg.hitK, bScore, cfg.bmThreshold, expectIn),
           SideOf(hIds, gold, cfg.hitK, hTop1, cfg.hiThreshold, expectIn))
  }

  /** The expectation defaults to "not the out-of-manual bucket" and an explicit value overrides it. */
  lemma ExpectationSpec(q: CQuestion)
    ensures q.gold.GDict? && q.gold.expectInManual.Some? ==>
      GoldOf(q).Some? && GoldOf(q).value.1 == q.gold.expectInManual.value
    ensures q.gold.GEmpty? || (q.gold.GDict? && q.gold.expectInManual.None?) ==>
      GoldOf(q).Some? && (GoldOf(q).value.1 <==> q.bucket != Some(OutOfManual))
    ensures q.gold.GNotDict? <==> GoldOf(q).None?
  {
  }

  /**
   * A question's row carries its own id, intent and bucket; each side's
   * rank points at a gold id among that side's rows for this question; each
   * side answers on its own score and threshold; and a false positive is
   * always an out-of-manual question.
   */
  lemma RowSpec(qid: string, q: CQuestion, runs: Runs, cfg: Config)
    requires RowOf(qid, q, runs, cfg).Some?
    ensures var r := RowOf(qid, q, runs, cfg).value;
      var gold := GoldOf(q).value.0;
      var bIds := BmIds(BmGroup(runs.bmRows, qid, cfg.k));
      var hIds := HiIds(HiGroup(runs.hiRows, runs.hiHasMode, qid, cfg.k));
      var top1 := HiTop1(HiGroup(runs.hiRows, runs.hiHasMode, qid, cfg.k), runs.hiHasSimilarity);
      r.qid == qid && r.intent == q.intent && r.bucket == q.bucket
      && r.expectInManual == GoldOf(q).value.1
      && (r.bm25.goldRank.Some? ==> gold != {} && bIds[r.bm25.goldRank.value - 1] in gold)
      && (r.hier.goldRank.Some? ==> gold != {} && hIds[r.hier.goldRank.value - 1] in gold)
      && (r.bm25.wouldAnswer <==> BmScore(runs.bmPerQ, qid).Some? && BmScore(runs.bmPerQ, qid).value >= cfg.bmThreshold)
      && (r.hier.wouldAnswer <==> top1.Some? && top1.value >= cfg.hiThreshold)
      && (r.bm25.falsePositive ==> !r.expectInManual) && (r.hier.falsePositive ==> !r.expectInManual)
  {
    var bg := BmGroup(runs.bmRows, qid, cfg.k);
    var hg := HiGroup(runs.hiRows, runs.hiHasMode, qid, cfg.k);
    RowWithSpec(qid, q, GoldOf(q).value.0, GoldOf(q).value.1, BmIds(bg), BmScore(runs.bmPerQ, qid),
                HiIds(hg), HiTop1(hg, runs.hiHasSimilarity), cfg);
  }

  lemma RowWithSpec(qid: string, q: CQuestion, gold: set<string>, expectIn: bool, bIds: seq<string>, bScore: Option<real>,
                    hIds: seq<string>, hTop1: Option<real>, cfg: Config)
    ensures var r := RowWith(qid, q, gold, expectIn, bIds, bScore, hIds, hTop1, cfg);
      r.qid == qid && r.intent == q.intent && r.bucket == q.bucket && r.expectInManual == expectIn
      && (r.bm25.goldRank.Some? ==> gold != {} && 1 <= r.bm25.goldRank.value <= |bIds| && bIds[r.bm25.goldRank.value - 1] in gold)
      && (r.hier.goldRank.Some? ==> gold != {} && 1 <= r.hier.goldRank.value <= |hIds| && hIds[r.hier.goldRank.value - 1] in gold)
      && (r.bm25.wouldAnswer <==> bScore.Some? && bScore.value >= cfg.bmThreshold)
      && (r.hier.wouldAnswer <==> hTop1.Some? && hTop1.value >= cfg.hiThreshold)
      && (r.bm25.falsePositive ==> !expectIn) && (r.hier.falsePositive ==> !expectIn)
  {
    SideBasics(bIds, gold, cfg.hitK, bScore, cfg.bmThreshold, expectIn);
    SideBasics(hIds, gold, cfg.hitK, hTop1, cfg.hiThreshold, expectIn);
  }

  /** The part of `SideSpec` a row needs: a rank points at a gold id, and the answer flags. */
  lemma SideBasics(ids: seq<string>, gold: set<string>, hitK: int, score: Option<real>, threshold: real, expectIn: bool)
    ensures var s := SideOf(ids, gold, hitK, score, threshold, expectIn);
      (s.goldRank.Some? ==> gold != {} && 1 <= s.goldRank.value <= |ids| && ids[s.goldRank.value - 1] in gold)
      && (s.wouldAnswer <==> score.Some? && score.value >= threshold)
      && (s.falsePositive ==> !expectIn)
  {
    SideSpec(ids, gold, hitK, score, threshold, expectIn);
  }

  // ---------------------------------------------------- the question map

  /** `{str(q.get("id")): q for q in qs if q.get("id")}`: a later question replaces an earlier one of the same id. */
  function QById(qs: seq<CQuestion>): (m: map<string, CQuestion>)
    decreases |qs|
  {
    if qs == [] then map[]
    else
      var last := qs[|qs| - 1];
      if last.id.truthy then QById(qs[..|qs| - 1])[last.id.text := last] else QById(qs[..|qs| - 1])
  }

  function IdTexts(qs: seq<CQuestion>): seq<string>
  {
    MapSeq(Filter(qs, (q: CQuestion) => q.id.truthy), (q: CQuestion) => q.id.text)
  }

  lemma {:induction false} QByIdSpec(qs: seq<CQuestion>)
    ensures forall t :: t in QById(qs) <==> t in IdTexts(qs)
    ensures forall t :: t in QById(qs) ==> QById(qs)[t] in qs && QById(qs)[t].id.truthy && QById(qs)[t].id.text == t
    decreases |qs|
  {
    var p := (q: CQuestion) => q.id.truthy;
    var f := (q: CQuestion) => q.id.text;
    if qs != [] {
      var init := qs[..|qs| - 1];
      var last := qs[|qs| - 1];
      QByIdSpec(init);
      assert qs == init + [last];
      if last.id.truthy {
        assert Filter(qs, p) == Filter(init, p) + [last];
      } else {
        assert Filter(qs, p) == Filter(init, p);
      }
      MapSeqAppend(Filter(init, p), f, if last.id.truthy then [last] else []);
    }
  }

  lemma {:induction false} MapSeqAppend<A, B>(xs: seq<A>, f: A -> B, ys: seq<A>)
    requires |ys| <= 1
    ensures MapSeq(xs + ys, f) == MapSeq(xs, f) + MapSeq(ys, f)
    ensures forall t :: t in MapSeq(xs, f) <==> exists i :: 0 <= i < |xs| && f(xs[i]) == t
  {
    if ys != [] {
      assert (xs + ys)[..|xs + ys| - 1] == xs;
      assert ys[..0] == [];
    } else {
      assert xs + ys == xs;
    }
    forall t ensures t in MapSeq(xs, f) <==> exists i :: 0 <= i < |xs| && f(xs[i]) == t {
      if t in MapSeq(xs, f) {
        var i :| 0 <= i < |xs| && MapSeq(xs, f)[i] == t;
        MapSeqAt(xs, f, i);
      }
      if exists i :: 0 <= i < |xs| && f(xs[i]) == t {
        var i :| 0 <= i < |xs| && f(xs[i]) == t;
        MapSeqAt(xs, f, i);
      }
    }
  }

  /** `sorted(q_by_id.keys())` */
  function SortedIds(qs: seq<CQuestion>): seq<string>
  {
    SortStrings(Dedup(IdTexts(qs)))
  }

  /** The report visits every id once, in string order, and nothing else. */
  lemma SortedIdsSpec(qs: seq<CQuestion>)
    ensures forall t :: t in SortedIds(qs) <==> t in QById(qs)
    ensures SortedBy(SortedIds(qs), StrLeFn())
    ensures NoRepeats(SortedIds(qs))
  {
    var d := Dedup(IdTexts(qs));
    SortStringsSpec(d);
    QByIdSpec(qs);
    PermutationKeepsMembers(SortedIds(qs), d);
    PermutationKeepsNoRepeats(SortedIds(qs), d);
  }

  lemma PermutationKeepsMembers(s: seq<string>, d: seq<string>)
    requires multiset(s) == multiset(d)
    ensures forall t :: t in s <==> t in d
  {
    forall t ensures t in s <==> t in d {
      assert t in s <==> t in multiset(s);
      assert t in d <==> t in multiset(d);
    }
  }

  lemma PermutationKeepsNoRepeats(s: seq<string>, d: seq<string>)
    requires multiset(s) == multiset(d) && NoRepeats(d)
    ensures NoRepeats(s)
  {
    forall i, j | 0 <= i < j < |s| ensures s[i] != s[j] {
      if s[i] == s[j] {
        assert multiset(s)[s[i]] >= 2 by {
          assert s == s[..i] + [s[i]] + s[i + 1..j] + [s[j]] + s[j + 1..];
        }
        DistinctOnce(d, s[i]);
      }
    }
  }

  lemma {:induction false} DistinctOnce<T>(xs: seq<T>, x: T)
    requires NoRepeats(xs)
    ensures multiset(xs)[x] <= 1
    decreases |xs|
  {
    if xs != [] {
      var init := xs[..|xs| - 1];
      assert xs == init + [xs[|xs| - 1]];
      assert NoRepeats(init);
      DistinctOnce(init, x);
      if x == xs[|xs| - 1] {
        assert x !in init;
      }
    }
  }

  // ------------------------------------------------------------ summary

  /** `gold_parent_ids` that is neither blank nor the text "nan" (in any case). */
  predicate HasGold(r: CmpRow) { Trim(r.goldParentIds) != [] && Lower(r.goldParentIds) != "nan" }

  datatype Method = Bm25 | Hier

  function SideFor(r: CmpRow, m: Method): Side { if m == Bm25 then r.bm25 else r.hier }

  function GoldPred(): CmpRow -> bool { (r: CmpRow) => HasGold(r) }
  function NoGoldPred(): CmpRow -> bool { (r: CmpRow) => !HasGold(r) }
  function Hit1Pred(m: Method): CmpRow -> bool { (r: CmpRow) => HasGold(r) && SideFor(r, m).goldRank == Some(1) }
  function HitKPred(m: Method, hitK: int): CmpRow -> bool
  {
    (r: CmpRow) => HasGold(r) && SideFor(r, m).goldRank.Some? && SideFor(r, m).goldRank.value <= hitK
  }
  function MissedPred(m: Method): CmpRow -> bool { (r: CmpRow) => HasGold(r) && SideFor(r, m).goldRank.None? }
  function OutPred(): CmpRow -> bool { (r: CmpRow) => !r.expectInManual }
  function FpPred(m: Method): CmpRow -> bool { (r: CmpRow) => !r.expectInManual && SideFor(r, m).falsePositive }

  /** `rate(mask, denom)`: 0 for an empty denominator. */
  function Rate(n: nat, d: nat): real
  {
    if d == 0 then 0.0 else n as real / d as real
  }

  datatype MethodStats = MethodStats(hit1: nat, hitK: nat, missed: nat, rate1: real, rateK: real)

  datatype CmpSummary = CmpSummary(
    total: nat, withGold: nat, withoutGold: nat,
    bm25: MethodStats, hier: MethodStats,
    outOfManual: nat, bm25Fp: nat, hierFp: nat)

  function StatsOf(rows: seq<CmpRow>, m: Method, hitK: int): MethodStats
  {
    var g := CountIf(rows, GoldPred());
    var h1 := CountIf(rows, Hit1Pred(m));
    var hk := CountIf(rows, HitKPred(m, hitK));
    MethodStats(h1, hk, CountIf(rows, MissedPred(m)), Rate(h1, g), Rate(hk, g))
  }

  function SummaryOf(rows: seq<CmpRow>, hitK: int): CmpSummary
  {
    CmpSummary(|rows|, CountIf(rows, GoldPred()), CountIf(rows, NoGoldPred()),
               StatsOf(rows, Bm25, hitK), StatsOf(rows, Hier, hitK),
               CountIf(rows, OutPred()), CountIf(rows, FpPred(Bm25)), CountIf(rows, FpPred(Hier)))
  }

  lemma RateBounds(n: nat, d: nat)
    requires n <= d
    ensures 0.0 <= Rate(n, d) <= 1.0
  {
    if d > 0 {
      assert n as real / d as real <= d as real / d as real;
    }
  }

  /**
   * Over the questions with gold ids: hits at 1 never exceed hits at
   * `hit_k` for `hit_k >= 1`, hits at `hit_k` and misses never exceed the
   * questions with gold, and both rates lie in [0, 1] (0 without gold).
   */
  lemma StatsSpec(rows: seq<CmpRow>, m: Method, hitK: int)
    ensures var st := StatsOf(rows, m, hitK);
      var g := CountIf(rows, GoldPred());
      (hitK >= 1 ==> st.hit1 <= st.hitK)
      && st.hit1 <= g && st.hitK + st.missed <= g
      && 0.0 <= st.rate1 <= 1.0 && 0.0 <= st.rateK <= 1.0
      && (g == 0 ==> st.rate1 == 0.0 && st.rateK == 0.0)
  {
    var g := CountIf(rows, GoldPred());
    CountIfImplies(rows, Hit1Pred(m), GoldPred());
    CountIfImplies(rows, HitKPred(m, hitK), GoldPred());
    if hitK >= 1 {
      CountIfImplies(rows, Hit1Pred(m), HitKPred(m, hitK));
    }
    HitOrMissed(rows, m, hitK);
    RateBounds(CountIf(rows, Hit1Pred(m)), g);
    RateBounds(CountIf(rows, HitKPred(m, hitK)), g);
  }

  lemma {:induction false} HitOrMissed(rows: seq<CmpRow>, m: Method, hitK: int)
    ensures CountIf(rows, HitKPred(m, hitK)) + CountIf(rows, MissedPred(m)) <= CountIf(rows, GoldPred())
    decreases |rows|
  {
    if rows != [] {
      HitOrMissed(rows[..|rows| - 1], m, hitK);
    }
  }

  /** Rows are split between those with and without gold; false positives are out-of-manual questions only. */
  lemma SummarySpec(rows: seq<CmpRow>, hitK: int)
    ensures SummaryOf(rows, hitK).withGold + SummaryOf(rows, hitK).withoutGold == SummaryOf(rows, hitK).total
    ensures SummaryOf(rows, hitK).bm25Fp <= SummaryOf(rows, hitK).outOfManual
    ensures SummaryOf(rows, hitK).hierFp <= SummaryOf(rows, hitK).outOfManual
  {
    CountIfSplit(rows, GoldPred(), NoGoldPred());
    CountIfImplies(rows, FpPred(Bm25), OutPred());
    CountIfImplies(rows, FpPred(Hier), OutPred());
  }

  /** For rows built by `RowOf`, the out-of-manual mask adds nothing: every false positive is out of manual. */
  lemma {:induction false} FalsePositivesAreOutOfManual(rows: seq<CmpRow>, m: Method)
    requires forall i :: 0 <= i < |rows| ==> (SideFor(rows[i], m).falsePositive ==> !rows[i].expectInManual)
    ensures CountIf(rows, FpPred(m)) == CountIf(rows, (r: CmpRow) => SideFor(r, m).falsePositive)
  {
    CountIfSame(rows, FpPred(m), (r: CmpRow) => SideFor(r, m).falsePositive);
  }

  /** A question without gold parent ids never enters the Hit@k denominator. */
  lemma NoParentsNoGold(r: CmpRow)
    requires r.goldParentIds == []
    ensures !HasGold(r)
  {
  }

  // ---------------------------------------------------------- the report

  datatype CmpOutcome = CmpFailed(reason: string) | CmpReport(rows: seq<CmpRow>, summary: CmpSummary)

  const AttributeError := "AttributeError"
  const KeyError := "KeyError"

  /** The mapping entries, or `None` when one is not a mapping. */
  function Mappings(es: seq<QEntry>): (r: Option<seq<CQuestion>>)
    ensures r.Some? ==> |r.value| == |es|
    ensures r.Some? <==> forall i :: 0 <= i < |es| ==> es[i].QMapping?
    decreases |es|
  {
    if es == [] then Some([])
    else match Mappings(es[..|es| - 1])
      case None => None
      case Some(qs) =>
        if es[|es| - 1].QMapping? then Some(qs + [es[|es| - 1].q]) else None
  }

  /** Each id with its question. */
  function Lookups(ids: seq<string>, m: map<string, CQuestion>): (r: seq<(string, CQuestion)>)
    requires forall i :: 0 <= i < |ids| ==> ids[i] in m
    ensures |r| == |ids| && forall i :: 0 <= i < |ids| ==> r[i] == (ids[i], m[ids[i]])
  {
    seq(|ids|, i requires 0 <= i < |ids| => (ids[i], m[ids[i]]))
  }

  function RowFn(runs: Runs, cfg: Config): ((string, CQuestion)) -> Option<CmpRow>
  {
    (p: (string, CQuestion)) => RowOf(p.0, p.1, runs, cfg)
  }

  /** The rows in report order, or `None` when some question's gold is not a mapping. */
  function RowsOf(ids: seq<string>, m: map<string, CQuestion>, runs: Runs, cfg: Config): Option<seq<CmpRow>>
    requires forall i :: 0 <= i < |ids| ==> ids[i] in m
  {
    AllSome(Lookups(ids, m), RowFn(runs, cfg))
  }

  /** The whole comparison: per-question rows in id order and the summary. */
  function Report(file: QFile, runs: Runs, cfg: Config): CmpOutcome
  {
    match file
    case FileNotMapping => CmpFailed(AttributeError)
    case FileQuestions(f) =>
      if !f.QList? || f.entries == [] then CmpFailed(MissingQuestions)
      else match Mappings(f.entries)
        case None => CmpFailed(AttributeError)
        case Some(qs) =>
          var m := QById(qs);
          var ids := SortedIds(qs);
          SortedIdsSpec(qs);
          match RowsOf(ids, m, runs, cfg)
          case None => CmpFailed(AttributeError)
          case Some(rows) =>
            // with no row the frame has no columns and the gold column lookup raises
            if rows == [] then CmpFailed(KeyError) else CmpReport(rows, SummaryOf(rows, cfg.hitK))
  }

  /** Rows come out one per id, each that id's own row; they fail exactly when some gold is a truthy non-mapping. */
  lemma RowsOfSpec(ids: seq<string>, m: map<string, CQuestion>, runs: Runs, cfg: Config)
    requires forall i :: 0 <= i < |ids| ==> ids[i] in m
    ensures RowsOf(ids, m, runs, cfg).Some? ==>
      |RowsOf(ids, m, runs, cfg).value| == |ids|
      && forall i :: 0 <= i < |ids| ==> RowOf(ids[i], m[ids[i]], runs, cfg) == Some(RowsOf(ids, m, runs, cfg).value[i])
    ensures RowsOf(ids, m, runs, cfg).None? <==> exists i :: 0 <= i < |ids| && m[ids[i]].gold.GNotDict?
  {
    var ps := Lookups(ids, m);
    AllSomeSpec(ps, RowFn(runs, cfg));
    forall i | 0 <= i < |ids| ensures RowFn(runs, cfg)(ps[i]) == RowOf(ids[i], m[ids[i]], runs, cfg) { }
    forall i | 0 <= i < |ids| ensures RowOf(ids[i], m[ids[i]], runs, cfg).None? <==> m[ids[i]].gold.GNotDict? { }
  }

  /**
   * An empty, missing or non-list `questions` stops the report with its
   * message; otherwise there is one row per distinct question id, in id
   * order, each row the question's own (the last one with that id). When
   * no question has a truthy id there is no row, and the summary fails.
   */
  lemma ReportSpec(file: QFile, runs: Runs, cfg: Config)
    ensures file.FileQuestions? && (!file.questions.QList? || file.questions.entries == []) ==>
      Report(file, runs, cfg) == CmpFailed(MissingQuestions)
    ensures (file.FileQuestions? && file.questions.QList? && file.questions.entries != []
             && Mappings(file.questions.entries).Some? && QById(Mappings(file.questions.entries).value) == map[]) ==>
      Report(file, runs, cfg) == CmpFailed(KeyError)
    ensures Report(file, runs, cfg).CmpReport? ==> Report(file, runs, cfg).rows != []
    ensures Report(file, runs, cfg).CmpReport? ==>
      file.FileQuestions? && file.questions.QList? && Mappings(file.questions.entries).Some?
      && var qs := Mappings(file.questions.entries).value;
      var rows := Report(file, runs, cfg).rows;
      |rows| == |QById(qs)|
      && (forall i :: 0 <= i < |rows| ==>
            rows[i].qid in QById(qs) && RowOf(rows[i].qid, QById(qs)[rows[i].qid], runs, cfg) == Some(rows[i]))
      && (forall i, j :: 0 <= i < j < |rows| ==> StrLe(rows[i].qid, rows[j].qid) && rows[i].qid != rows[j].qid)
  {
    if Report(file, runs, cfg).CmpReport? {
      ReportRows(file, runs, cfg);
    }
    if file.FileQuestions? && file.questions.QList? && file.questions.entries != []
       && Mappings(file.questions.entries).Some? && QById(Mappings(file.questions.entries).value) == map[] {
      var qs := Mappings(file.questions.entries).value;
      SortedIdsSpec(qs);
      var ids := SortedIds(qs);
      HeadIn(ids);
    }
  }

  /** The rows of a report that was produced: the sorted distinct ids, each with its question's row. */
  lemma ReportRows(file: QFile, runs: Runs, cfg: Config)
    requires Report(file, runs, cfg).CmpReport?
    ensures file.FileQuestions? && file.questions.QList? && Mappings(file.questions.entries).Some?
    ensures var qs := Mappings(file.questions.entries).value;
      var rows := Report(file, runs, cfg).rows;
      |rows| == |QById(qs)|
      && (forall i :: 0 <= i < |rows| ==>
            rows[i].qid in QById(qs) && RowOf(rows[i].qid, QById(qs)[rows[i].qid], runs, cfg) == Some(rows[i]))
      && (forall i, j :: 0 <= i < j < |rows| ==> StrLe(rows[i].qid, rows[j].qid) && rows[i].qid != rows[j].qid)
  {
    var qs := Mappings(file.questions.entries).value;
    SortedIdsSpec(qs);
    assert RowsOf(SortedIds(qs), QById(qs), runs, cfg) == Some(Report(file, runs, cfg).rows);
    SortedIdsCount(qs);
    RowsForIds(SortedIds(qs), QById(qs), runs, cfg, Report(file, runs, cfg).rows);
  }

  /** Rows built over sorted distinct ids: one per id, in id order, each that id's own row. */
  lemma RowsForIds(ids: seq<string>, m: map<string, CQuestion>, runs: Runs, cfg: Config, rows: seq<CmpRow>)
    requires forall t :: t in ids <==> t in m
    requires SortedBy(ids, StrLeFn()) && NoRepeats(ids)
    requires RowsOf(ids, m, runs, cfg) == Some(rows)
    ensures |rows| == |ids|
    ensures forall i :: 0 <= i < |rows| ==> rows[i].qid in m && RowOf(rows[i].qid, m[rows[i].qid], runs, cfg) == Some(rows[i])
    ensures forall i, j :: 0 <= i < j < |rows| ==> StrLe(rows[i].qid, rows[j].qid) && rows[i].qid != rows[j].qid
  {
    RowsOfSpec(ids, m, runs, cfg);
    forall i | 0 <= i < |rows| ensures rows[i].qid == ids[i] {
      assert RowOf(ids[i], m[ids[i]], runs, cfg) == Some(rows[i]);
    }
    forall i, j | 0 <= i < j < |rows| ensures StrLe(rows[i].qid, rows[j].qid) {
      assert StrLeFn()(ids[i], ids[j]);
    }
  }

  /** There are as many sorted ids as distinct question ids. */
  lemma SortedIdsCount(qs: seq<CQuestion>)
    ensures |SortedIds(qs)| == |QById(qs)|
  {
    SortedIdsSpec(qs);
    DistinctCard(SortedIds(qs), QById(qs).Keys);
  }

  lemma {:induction false} DistinctCard(xs: seq<string>, s: set<string>)
    requires NoRepeats(xs)
    requires forall t :: t in xs <==> t in s
    ensures |xs| == |s|
    decreases |xs|
  {
    if xs != [] {
      var init := xs[..|xs| - 1];
      var last := xs[|xs| - 1];
      assert xs == init + [last];
      assert last !in init;
      DistinctCard(init, s - {last});
    }
  }

  /** The report's main loop: one row appended per question, stopping at a gold that is not a mapping. */
  method BuildRows(ps: seq<(string, CQuestion)>, runs: Runs, cfg: Config) returns (out: Option<seq<CmpRow>>)
    ensures out == AllSome(ps, RowFn(runs, cfg))
  {
    var rows: seq<CmpRow> := [];
    var i := 0;
    while i < |ps|
      invariant 0 <= i <= |ps|
      invariant AllSome(ps[..i], RowFn(runs, cfg)) == Some(rows)
    {
      var r := RowOf(ps[i].0, ps[i].1, runs, cfg);
      assert r == RowFn(runs, cfg)(ps[i]);
      if r.None? {
        AllSomeFails(ps, RowFn(runs, cfg), i);
        return None;
      }
      AllSomeStep(ps, RowFn(runs, cfg), i, rows);
      rows := rows + [r.value];
      i := i + 1;
    }
    assert ps[..i] == ps;
    return Some(rows);
  }
}
