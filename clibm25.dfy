// The command-line BM25 evaluation: per-question ranking with one of three
// sigmoid modes, the candidate rows it writes, and the action and retrieval
// quality figures of its summary. It shares the tokenizer, the sentence
// splitter, the gold matcher and the top-k order with the studio, but not
// its corpus builder or its calibration.

module CliBm25 {
  import opened Text
  import opened Gold
  import opened Corpus
  import opened Calibration
  import opened Ranking

  /** `--sigmoid-mode`: `global_max_raw`, `auto_topk` or `fixed` with `--sigmoid-k` / `--sigmoid-x0`. */
  datatype SigmoidMode = GlobalMaxRaw | AutoTopk | FixedParams(k: real, x0: real)

  /** `logit(0.95) = ln 19` as a double, and `logit(0.5) = 0`. */
  const LogitTop: real := 2.9444389791664403
  const LogitHalf: real := 0.0

  const DefaultTopK: int := 20
  const DefaultAbstain: real := 0.65
  const TextMax: nat := 360

  /** `float(max(raw)) if len(raw) else 0.0` for every question. */
  function CliMaxRaws(questions: seq<Question>, score: Scorer, n: nat): (m: seq<real>)
    ensures |m| == |questions|
  {
    seq(|questions|, i requires 0 <= i < |questions| =>
      if n == 0 then 0.0 else MaxOf(RawScores(score, questions[i], n)))
  }

  /** `float(global_k or 1.0), float(global_x0 or 0.0)`: a zero slope would become 1. */
  function GlobalParams(questions: seq<Question>, score: Scorer, n: nat): Params
  {
    var p := CliMaxRawParams(CliMaxRaws(questions, score, n));
    Params(if p.k == 0.0 then 1.0 else p.k, p.x0)
  }

  /** The global fit never has a zero slope, so the `or 1.0` fallback never fires. */
  lemma GlobalParamsIsFit(questions: seq<Question>, score: Scorer, n: nat)
    ensures CliMaxRawParams(CliMaxRaws(questions, score, n)).k > 0.0
    ensures GlobalParams(questions, score, n) == CliMaxRawParams(CliMaxRaws(questions, score, n))
  {
    var scores := CliMaxRaws(questions, score, n);
    var xs := Sort(scores);
    if |xs| >= 4 && Abs(Quantile(xs, 3) - Quantile(xs, 1)) >= Tiny {
      SortedFitQuartiles(xs);
      QuartileFit(Quantile(xs, 1), Quantile(xs, 3));
    }
  }

  /** The parameters used for one question. */
  function ParamsFor(mode: SigmoidMode, rawTop: seq<real>, global: Params): Params
  {
    match mode
    case AutoTopk => TopkParams(rawTop, LogitTop, LogitHalf)
    case GlobalMaxRaw => global
    case FixedParams(k, x0) => Params(k, x0)
  }

  datatype CliVerdict = CliVerdict(
    qid: Option<string>,
    intent: string,
    bucket: string,
    question: string,
    expectInManual: bool,
    params: Params,
    maxRaw: Option<real>,
    maxNorm: Option<real>,
    predictedAnswer: bool,
    goldBestRank: Option<nat>,
    goldWhy: Option<Why>)

  datatype CliRow = CliRow(
    qid: Option<string>,
    rank: nat,
    sentenceId: string,
    parent: string,
    raw: real,
    norm: real,
    page: Option<int>,
    text: string,
    matched: bool,
    why: Option<Why>)

  /** `t[:360] + ("…" if len(t) > 360 else "")` */
  function Clip(t: string): string
  {
    Take(t, TextMax) + (if |t| > TextMax then "…" else "")
  }

  lemma ClipSpec(t: string)
    ensures |t| <= TextMax ==> Clip(t) == t
    ensures |t| > TextMax ==> |Clip(t)| == TextMax + 1 && Clip(t)[..TextMax] == t[..TextMax]
  {
  }

  /** The ranked sentences of one question, the parameters fitted for it and its normalised scores. */
  datatype CliRanked = CliRanked(docs: seq<SentenceDoc>, rawTop: seq<real>, params: Params, normTop: seq<real>)

  function CliRank(q: Question, corpus: seq<SentenceDoc>, score: Scorer, mode: SigmoidMode, global: Params,
                   sigmoid: Sigmoid, topK: int): (r: CliRanked)
    ensures |r.docs| == |r.rawTop| == |r.normTop|
  {
    var raw := RawScores(score, q, |corpus|);
    var idxs := TopIndices(raw, topK);
    var rawTop := seq(|idxs|, i requires 0 <= i < |idxs| => raw[idxs[i]]);
    var p := ParamsFor(mode, rawTop, global);
    CliRanked(TopDocs(corpus, idxs), rawTop, p, seq(|idxs|, i requires 0 <= i < |idxs| => sigmoid(p, rawTop[i])))
  }

  /** The per-question record of the CLI. */
  function CliVerdictOf(q: Question, r: CliRanked, threshold: real, search: RegexSearch): CliVerdict
    requires |r.docs| == |r.rawTop| == |r.normTop|
  {
    var maxNorm := if r.normTop != [] then Some(r.normTop[0]) else None;
    var best := BestGold(q, r.docs, search);
    CliVerdict(q.id, NormField(q.intent), Bucket(q), QuestionText(q), ExpectInManual(q), r.params,
               if r.rawTop != [] then Some(r.rawTop[0]) else None, maxNorm, WouldAnswer(maxNorm, threshold),
               best.0, best.1)
  }

  function CliRowOf(q: Question, rank: nat, d: SentenceDoc, raw: real, norm: real, search: RegexSearch): CliRow
  {
    var m := GoldMatch(q, d, search);
    CliRow(q.id, rank, d.sid, d.parent, raw, norm, d.page, Clip(d.text), m.Some?, m)
  }

  function CliRows(q: Question, r: CliRanked, search: RegexSearch): (rows: seq<CliRow>)
    requires |r.docs| == |r.rawTop| == |r.normTop|
  {
    seq(|r.docs|, i requires 0 <= i < |r.docs| => CliRowOf(q, i + 1, r.docs[i], r.rawTop[i], r.normTop[i], search))
  }

  /** Everything the CLI needs besides the questions. */
  datatype Setup = Setup(corpus: seq<SentenceDoc>, score: Scorer, mode: SigmoidMode, global: Params,
                         sigmoid: Sigmoid, topK: int, threshold: real, search: RegexSearch)

  function Ranked1(s: Setup, q: Question): (r: CliRanked)
    ensures |r.docs| == |r.rawTop| == |r.normTop|
  {
    CliRank(q, s.corpus, s.score, s.mode, s.global, s.sigmoid, s.topK)
  }

  function VerdictFor(s: Setup): Question -> CliVerdict
  {
    q => CliVerdictOf(q, Ranked1(s, q), s.threshold, s.search)
  }

  function AllCliRows(s: Setup, questions: seq<Question>): seq<CliRow>
    decreases |questions|
  {
    if questions == [] then []
    else
      var n := |questions|;
      AllCliRows(s, questions[..n - 1]) + CliRows(questions[n - 1], Ranked1(s, questions[n - 1]), s.search)
  }

  /**
   * The answer decision looks only at the top normalised score, the best
   * gold rank is the first matching rank and lies within the kept
   * sentences, so with a non-negative `--top-k` it never exceeds it.
   */
  lemma CliVerdictSpec(s: Setup, q: Question)
    ensures var r := Ranked1(s, q);
      var v := VerdictFor(s)(q);
      (v.predictedAnswer <==> r.normTop != [] && r.normTop[0] >= s.threshold)
      && (v.goldBestRank.Some? ==>
            1 <= v.goldBestRank.value <= |r.docs|
            && GoldMatch(q, r.docs[v.goldBestRank.value - 1], s.search).Some?
            && forall j :: 0 <= j < v.goldBestRank.value - 1 ==> GoldMatch(q, r.docs[j], s.search).None?)
      && (s.topK >= 0 && v.goldBestRank.Some? ==> v.goldBestRank.value <= s.topK)
  {
    var raw := RawScores(s.score, q, |s.corpus|);
    TopIndicesSpec(raw, s.topK);
    BestGoldSpec(q, Ranked1(s, q).docs, s.search);
  }

  /** Candidate rows carry ranks 1..n, the sentence's parent, and the matcher's verdict. */
  lemma CliRowsSpec(s: Setup, q: Question)
    ensures var r := Ranked1(s, q);
      var rows := CliRows(q, r, s.search);
      |rows| == |r.docs|
      && forall i :: 0 <= i < |rows| ==>
           rows[i].rank == i + 1 && rows[i].parent == r.docs[i].parent && rows[i].sentenceId == r.docs[i].sid
           && rows[i].matched == GoldMatch(q, r.docs[i], s.search).Some? && |rows[i].text| <= TextMax + 1
  {
    var r := Ranked1(s, q);
    forall i | 0 <= i < |r.docs| ensures |Clip(r.docs[i].text)| <= TextMax + 1 {
      ClipSpec(r.docs[i].text);
    }
  }

  /** The question loop of `main`. */
  method EvalQuestions(s: Setup, questions: seq<Question>) returns (perQ: seq<CliVerdict>, rows: seq<CliRow>)
    ensures perQ == MapSeq(questions, VerdictFor(s))
    ensures rows == AllCliRows(s, questions)
  {
    perQ := [];
    rows := [];
    var i := 0;
    while i < |questions|
      invariant 0 <= i <= |questions|
      invariant perQ == MapSeq(questions[..i], VerdictFor(s))
      invariant rows == AllCliRows(s, questions[..i])
    {
      EvalStep(s, questions, i);
      var q := questions[i];
      var r := CliRank(q, s.corpus, s.score, s.mode, s.global, s.sigmoid, s.topK);
      perQ := perQ + [CliVerdictOf(q, r, s.threshold, s.search)];
      rows := rows + CliRows(q, r, s.search);
      i := i + 1;
    }
    assert questions[..i] == questions;
  }

  /** One more question appends its verdict and its rows. */
  lemma EvalStep(s: Setup, questions: seq<Question>, i: nat)
    requires i < |questions|
    ensures MapSeq(questions[..i + 1], VerdictFor(s))
      == MapSeq(questions[..i], VerdictFor(s)) + [CliVerdictOf(questions[i], Ranked1(s, questions[i]), s.threshold, s.search)]
    ensures AllCliRows(s, questions[..i + 1])
      == AllCliRows(s, questions[..i]) + CliRows(questions[i], Ranked1(s, questions[i]), s.search)
  {
    assert questions[..i + 1][..i] == questions[..i];
  }

  // ------------------------------------------------------------ summary

  predicate FalsePositiveAnswer(v: CliVerdict) { !v.expectInManual && v.predictedAnswer }
  predicate FalseNegativeAbstain(v: CliVerdict) { v.expectInManual && !v.predictedAnswer }

  function FpPred(): CliVerdict -> bool { (v: CliVerdict) => FalsePositiveAnswer(v) }
  function FnPred(): CliVerdict -> bool { (v: CliVerdict) => FalseNegativeAbstain(v) }
  function LabeledPred(): CliVerdict -> bool { (v: CliVerdict) => v.goldBestRank.Some? }
  function WithinPred(c: int): CliVerdict -> bool { (v: CliVerdict) => v.goldBestRank.Some? && v.goldBestRank.value <= c }

  /** Recall@1, @5 and @top_k over the questions with a gold match; absent when there are none. */
  datatype Recall = Recall(at1: real, at5: real, atK: real)

  datatype CliSummary = CliSummary(falsePositives: nat, falseNegatives: nat, recall: Option<Recall>)

  function CliSummaryOf(perQ: seq<CliVerdict>, topK: int): CliSummary
  {
    var labeled := CountIf(perQ, LabeledPred());
    CliSummary(CountIf(perQ, FpPred()), CountIf(perQ, FnPred()),
               if labeled == 0 then None
               else Some(Recall(CountIf(perQ, WithinPred(1)) as real / labeled as real,
                                CountIf(perQ, WithinPred(5)) as real / labeled as real,
                                CountIf(perQ, WithinPred(topK)) as real / labeled as real)))
  }

  /** A question is never both a false positive and a false negative, so the two counts add up to at most the total. */
  lemma {:induction false} FpFnDisjoint(perQ: seq<CliVerdict>)
    ensures CountIf(perQ, FpPred()) + CountIf(perQ, FnPred()) <= |perQ|
    decreases |perQ|
  {
    if perQ != [] {
      FpFnDisjoint(perQ[..|perQ| - 1]);
    }
  }

  lemma RatioMonotone(a: nat, b: nat, l: nat)
    requires a <= b && l > 0
    ensures a as real / l as real <= b as real / l as real
  {
  }

  /** Every gold rank of the CLI's own verdicts lies within a non-negative top_k. */
  lemma RanksWithinTopK(s: Setup, questions: seq<Question>)
    requires s.topK >= 0
    ensures forall i :: 0 <= i < |MapSeq(questions, VerdictFor(s))| ==>
      WithinPred(s.topK)(MapSeq(questions, VerdictFor(s))[i]) == LabeledPred()(MapSeq(questions, VerdictFor(s))[i])
  {
    var perQ := MapSeq(questions, VerdictFor(s));
    forall i | 0 <= i < |perQ| ensures WithinPred(s.topK)(perQ[i]) == LabeledPred()(perQ[i]) {
      MapSeqAt(questions, VerdictFor(s), i);
      CliVerdictSpec(s, questions[i]);
    }
  }

  /** When no gold rank exceeds the cut-off, Recall at that cut-off is 1. */
  lemma RecallAtCutIsOne(perQ: seq<CliVerdict>, topK: int)
    requires forall i :: 0 <= i < |perQ| ==> WithinPred(topK)(perQ[i]) == LabeledPred()(perQ[i])
    ensures var sm := CliSummaryOf(perQ, topK);
      sm.recall.Some? ==> sm.recall.value.atK == 1.0
  {
    CountIfSame(perQ, WithinPred(topK), LabeledPred());
    var labeled := CountIf(perQ, LabeledPred());
    if labeled > 0 {
      assert labeled as real / labeled as real == 1.0;
    }
  }

  lemma RatiosOrdered(c1: nat, c5: nat, l: nat)
    requires c1 <= c5 <= l && l > 0
    ensures 0.0 <= c1 as real / l as real <= c5 as real / l as real <= 1.0
  {
    var L := l as real;
    assert 0.0 <= c1 as real / L by { assert 0.0 <= c1 as real && 0.0 < L; }
    RatioMonotone(c1, c5, l);
    RatioMonotone(c5, l, l);
    assert L / L == 1.0;
  }

  /** Recall grows with the cut-off and stays in [0, 1]. */
  lemma RecallOrdered(perQ: seq<CliVerdict>, topK: int)
    ensures var sm := CliSummaryOf(perQ, topK);
      sm.recall.Some? ==> 0.0 <= sm.recall.value.at1 <= sm.recall.value.at5 <= 1.0
  {
    var labeled := CountIf(perQ, LabeledPred());
    if labeled > 0 {
      var c1 := CountIf(perQ, WithinPred(1));
      var c5 := CountIf(perQ, WithinPred(5));
      forall i | 0 <= i < |perQ| ensures WithinPred(1)(perQ[i]) ==> WithinPred(5)(perQ[i]) { }
      CountIfImplies(perQ, WithinPred(1), WithinPred(5));
      forall i | 0 <= i < |perQ| ensures WithinPred(5)(perQ[i]) ==> LabeledPred()(perQ[i]) { }
      CountIfImplies(perQ, WithinPred(5), LabeledPred());
      RatiosOrdered(c1, c5, labeled);
    }
  }

  /**
   * For the CLI's own verdicts with a non-negative `--top-k` every gold
   * rank is within top_k, so Recall@top_k is exactly 1 whenever some
   * question matched: the figure carries no information.
   */
  lemma RecallAtTopKIsOne(s: Setup, questions: seq<Question>)
    requires s.topK >= 0
    ensures var sm := CliSummaryOf(MapSeq(questions, VerdictFor(s)), s.topK);
      sm.recall.Some? ==> sm.recall.value.atK == 1.0
  {
    RanksWithinTopK(s, questions);
    RecallAtCutIsOne(MapSeq(questions, VerdictFor(s)), s.topK);
  }
}
