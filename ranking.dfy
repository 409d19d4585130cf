/**
 * Per-question ranking of the BM25 path: the top-k sentence indices by
 * descending raw score (ties in corpus order, as Python's stable sort
 * gives), the first rank whose sentence matches the gold, and the
 * answer/abstain decision on the top normalised score.
 *
 * Raw BM25 scores come from an external library and are a parameter
 * (`score(tokens, j)` is the score of corpus sentence j); so is the
 * floating-point sigmoid that normalises them.
 */
module Ranking {
  import opened Text
  import opened Segment
  import opened Corpus
  import opened Gold
  import opened Calibration

  /** Python's `s[:k]` for any integer k (a negative k drops |k| items from the end). */
  function SliceTo<T>(s: seq<T>, k: int): (r: seq<T>)
    ensures k >= 0 ==> |r| == (if k <= |s| then k else |s|)
    ensures k < 0 ==> |r| == (if -k <= |s| then |s| + k else 0)
    ensures r == s[..|r|]
  {
    if k >= 0 then (if k <= |s| then s[..k] else s)
    else if -k <= |s| then s[..|s| + k] else []
  }

  // ------------------------------------------------------------ top-k

  /** Index i precedes j: higher score first, equal scores in index order. */
  predicate Before(raw: seq<real>, i: nat, j: nat)
    requires i < |raw| && j < |raw|
  {
    raw[i] > raw[j] || (raw[i] == raw[j] && i < j)
  }

  predicate InRange(raw: seq<real>, s: seq<nat>) { forall i :: 0 <= i < |s| ==> s[i] < |raw| }

  /** Consecutive indices are in `Before` order. */
  predicate Chain(raw: seq<real>, s: seq<nat>)
    requires InRange(raw, s)
  {
    forall i :: 0 <= i < |s| - 1 ==> Before(raw, s[i], s[i + 1])
  }

  function InsertIdx(raw: seq<real>, x: nat, s: seq<nat>): (r: seq<nat>)
    requires x < |raw| && InRange(raw, s) && Chain(raw, s) && x !in s
    ensures InRange(raw, r) && Chain(raw, r) && |r| == |s| + 1
    ensures forall y :: y in r <==> y == x || y in s
    ensures r[0] == x || (s != [] && r[0] == s[0])
    decreases |s|
  {
    if s == [] || Before(raw, x, s[0]) then [x] + s
    else
      var t := InsertIdx(raw, x, s[1..]);
      assert forall y :: y in s <==> y == s[0] || y in s[1..];
      [s[0]] + t
  }

  /** `sorted(range(n), key=raw, reverse=True)` */
  function AllByScore(raw: seq<real>, n: nat): (r: seq<nat>)
    requires n <= |raw|
    ensures InRange(raw, r) && Chain(raw, r) && |r| == n
    ensures forall y: nat :: y in r <==> y < n
  {
    if n == 0 then []
    else
      var prev := AllByScore(raw, n - 1);
      var r := InsertIdx(raw, n - 1, prev);
      assert forall y :: y in r <==> y == n - 1 || y in prev;
      r
  }

  /** `sorted(range(len(raw)), key=lambda j: raw[j], reverse=True)[:top_k]` */
  function TopIndices(raw: seq<real>, topK: int): (r: seq<nat>)
    ensures InRange(raw, r)
  {
    SliceTo(AllByScore(raw, |raw|), topK)
  }

  lemma {:induction false} ChainPairwise(raw: seq<real>, s: seq<nat>)
    requires InRange(raw, s) && Chain(raw, s)
    ensures forall i, j :: 0 <= i < j < |s| ==> Before(raw, s[i], s[j])
    decreases |s|
  {
    if |s| > 1 {
      var t := s[1..];
      assert InRange(raw, t);
      assert Chain(raw, t) by {
        forall i | 0 <= i < |t| - 1 ensures Before(raw, t[i], t[i + 1]) {
          assert t[i] == s[i + 1] && t[i + 1] == s[i + 2];
        }
      }
      ChainPairwise(raw, t);
      forall i, j | 0 <= i < j < |s| ensures Before(raw, s[i], s[j]) {
        if i > 0 {
          assert Before(raw, t[i - 1], t[j - 1]);
        } else if j > 1 {
          assert Before(raw, t[0], t[j - 1]);
        }
      }
    }
  }

  /**
   * The top-k list: its length is Python's slice length, its indices are
   * distinct corpus positions in descending score order (ties by corpus
   * order), and every sentence kept comes before every sentence left out:
   * it scores higher, or the same and earlier in the corpus.
   */
  lemma TopIndicesSpec(raw: seq<real>, topK: int)
    ensures var top := TopIndices(raw, topK);
      (topK >= 0 ==> |top| == (if topK <= |raw| then topK else |raw|))
      && (topK < 0 ==> |top| == (if -topK <= |raw| then |raw| + topK else 0))
      && (forall i, j :: 0 <= i < j < |top| ==> Before(raw, top[i], top[j]))
      && (forall j, t :: 0 <= j < |raw| && j !in top && t in top ==> t < |raw| && Before(raw, t, j))
  {
    var all := AllByScore(raw, |raw|);
    var top := TopIndices(raw, topK);
    ChainPairwise(raw, all);
    forall j, t | 0 <= j < |raw| && j !in top && t in top ensures t < |raw| && Before(raw, t, j) {
      assert j in all;
      var pj :| 0 <= pj < |all| && all[pj] == j;
      var pt :| 0 <= pt < |top| && top[pt] == t;
      assert all[pt] == t;
      assert forall k :: 0 <= k < |top| ==> top[k] == all[k];
      if pj < |top| { assert false; }
      assert pt < pj;
      assert Before(raw, all[pt], all[pj]);
    }
  }

  /** With at least one kept sentence, the first one has the highest score in the corpus. */
  lemma TopIsMax(raw: seq<real>, topK: int)
    requires |TopIndices(raw, topK)| > 0
    ensures forall j :: 0 <= j < |raw| ==> raw[TopIndices(raw, topK)[0]] >= raw[j]
  {
    var top := TopIndices(raw, topK);
    TopIndicesSpec(raw, topK);
    forall j | 0 <= j < |raw| ensures raw[top[0]] >= raw[j] {
      if j in top {
        var p :| 0 <= p < |top| && top[p] == j;
        if p > 0 { assert Before(raw, top[0], top[p]); }
      } else {
        assert top[0] in top;
      }
    }
  }

  // --------------------------------------------------- first gold rank

  /** The 1-based position of the first true flag. */
  function FirstRank(flags: seq<bool>): (r: Option<nat>)
    ensures r.Some? ==> 1 <= r.value <= |flags|
    decreases |flags|
  {
    if flags == [] then None
    else if flags[0] then Some(1)
    else
      var r := FirstRank(flags[1..]);
      if r.Some? then Some(r.value + 1) else None
  }

  /** The rank found is a true flag with only false flags before it; none is found iff all are false. */
  lemma {:induction false} FirstRankSpec(flags: seq<bool>)
    ensures var r := FirstRank(flags);
      (r.Some? ==> 1 <= r.value <= |flags| && flags[r.value - 1]
                   && forall j :: 0 <= j < r.value - 1 ==> !flags[j])
      && (r.None? <==> forall j :: 0 <= j < |flags| ==> !flags[j])
    decreases |flags|
  {
    if flags != [] && !flags[0] {
      FirstRankSpec(flags[1..]);
      assert forall j :: 1 <= j < |flags| ==> flags[j] == flags[1..][j - 1];
    }
  }

  /** Whether the matcher accepts each ranked sentence. */
  function Matched(q: Question, docs: seq<SentenceDoc>, search: RegexSearch): (m: seq<bool>)
    ensures |m| == |docs|
  {
    seq(|docs|, i requires 0 <= i < |docs| => GoldMatch(q, docs[i], search).Some?)
  }

  /** `gold_best_rank` and `gold_match_why`: the first matching rank and its reason. */
  function BestGold(q: Question, docs: seq<SentenceDoc>, search: RegexSearch): (Option<nat>, Option<Why>)
  {
    var r := FirstRank(Matched(q, docs, search));
    if r.Some? then (r, GoldMatch(q, docs[r.value - 1], search)) else (None, None)
  }

  /**
   * The reported rank is a matching rank with no match before it, and the
   * reason is the matcher's for that sentence; no rank iff nothing matches.
   */
  lemma BestGoldSpec(q: Question, docs: seq<SentenceDoc>, search: RegexSearch)
    ensures var b := BestGold(q, docs, search);
      (b.0.Some? ==>
         1 <= b.0.value <= |docs|
         && GoldMatch(q, docs[b.0.value - 1], search).Some?
         && b.1 == GoldMatch(q, docs[b.0.value - 1], search)
         && forall j :: 0 <= j < b.0.value - 1 ==> GoldMatch(q, docs[j], search).None?)
      && (b.0.None? <==> forall j :: 0 <= j < |docs| ==> GoldMatch(q, docs[j], search).None?)
  {
    var flags := Matched(q, docs, search);
    FirstRankSpec(flags);
    assert forall j :: 0 <= j < |docs| ==> flags[j] == GoldMatch(q, docs[j], search).Some?;
  }

  /** The rank loop: match each ranked sentence in turn and stop at the first match. */
  method BestGoldRank(q: Question, docs: seq<SentenceDoc>, search: RegexSearch) returns (rank: Option<nat>, why: Option<Why>)
    ensures (rank, why) == BestGold(q, docs, search)
  {
    ghost var flags := Matched(q, docs, search);
    var i := 0;
    while i < |docs|
      invariant 0 <= i <= |docs|
      invariant forall j :: 0 <= j < i ==> !flags[j]
    {
      var m := MatchCandidate(q, docs[i], search);
      if m.Some? {
        BestGoldAt(q, docs, search, i);
        return Some(i + 1), m;
      }
      i := i + 1;
    }
    BestGoldNone(q, docs, search);
    return None, None;
  }

  lemma BestGoldAt(q: Question, docs: seq<SentenceDoc>, search: RegexSearch, i: nat)
    requires i < |docs| && Matched(q, docs, search)[i]
    requires forall j :: 0 <= j < i ==> !Matched(q, docs, search)[j]
    ensures BestGold(q, docs, search).0 == Some(i + 1) && BestGold(q, docs, search).1 == GoldMatch(q, docs[i], search)
  {
    FirstRankAt(Matched(q, docs, search), i);
  }

  lemma BestGoldNone(q: Question, docs: seq<SentenceDoc>, search: RegexSearch)
    requires forall j :: 0 <= j < |docs| ==> !Matched(q, docs, search)[j]
    ensures BestGold(q, docs, search).0.None? && BestGold(q, docs, search).1.None?
  {
    FirstRankSpec(Matched(q, docs, search));
  }

  lemma {:induction false} FirstRankAt(flags: seq<bool>, i: nat)
    requires i < |flags| && flags[i] && forall j :: 0 <= j < i ==> !flags[j]
    ensures FirstRank(flags) == Some(i + 1)
  {
    FirstRankSpec(flags);
    var r := FirstRank(flags);
    assert r.Some?;
  }

  // --------------------------------------------------------- decisions

  /** `max_norm is not None and max_norm >= threshold` */
  predicate WouldAnswer(maxNorm: Option<real>, threshold: real)
  {
    maxNorm.Some? && maxNorm.value >= threshold
  }

  /** Answering a question the manual does not cover is a false positive. */
  predicate FalsePositive(expectInManual: bool, wouldAnswer: bool) { !expectInManual && wouldAnswer }

  // ---------------------------------------------------- studio BM25 path

  /** The scores BM25 gives each corpus sentence for the tokens of a query. */
  type Scorer = (seq<string>, nat) -> real

  /** The floating-point sigmoid with fitted parameters. */
  type Sigmoid = (Params, real) -> real

  function QuestionText(q: Question): string { if q.question.Some? then q.question.value else "" }

  /** `str(q.get("id") or "").strip()` */
  function Qid(q: Question): string { if q.id.Some? then Trim(q.id.value) else "" }

  /** `bm25.get_scores(_tokenize(question))` */
  function RawScores(score: Scorer, q: Question, n: nat): (raw: seq<real>)
    ensures |raw| == n
  {
    var toks := Tokenize(QuestionText(q));
    seq(n, j requires 0 <= j < n => score(toks, j))
  }

  function MaxOf(s: seq<real>): (m: real)
    requires s != []
    ensures m in s && forall x :: x in s ==> x <= m
    decreases |s|
  {
    if |s| == 1 then s[0]
    else
      var rest := MaxOf(s[1..]);
      assert forall x :: x in s ==> x == s[0] || x in s[1..];
      if s[0] >= rest then s[0] else rest
  }

  datatype Bm25Verdict = Bm25Verdict(
    qid: string,
    intent: string,
    bucket: string,
    question: string,
    expectInManual: bool,
    goldBestRank: Option<nat>,
    goldWhy: Option<Why>,
    maxNorm: Option<real>,
    wouldAnswer: bool,
    falsePositive: bool)

  datatype Bm25Row = Bm25Row(
    qid: string,
    rank: nat,
    parent: string,
    text: string,
    page: Option<int>,
    raw: real,
    norm: real,
    matched: bool,
    why: Option<Why>)

  function TopDocs(corpus: seq<SentenceDoc>, idxs: seq<nat>): (docs: seq<SentenceDoc>)
    requires forall i :: 0 <= i < |idxs| ==> idxs[i] < |corpus|
    ensures |docs| == |idxs|
  {
    seq(|idxs|, i requires 0 <= i < |idxs| => corpus[idxs[i]])
  }

  /** The kept sentences of one question with their raw and normalised scores, rank 1 first. */
  datatype Ranked = Ranked(docs: seq<SentenceDoc>, rawTop: seq<real>, normTop: seq<real>)

  function RankQuestion(q: Question, corpus: seq<SentenceDoc>, score: Scorer, p: Params, sigmoid: Sigmoid,
                        topK: int): (r: Ranked)
    ensures |r.docs| == |r.rawTop| == |r.normTop|
  {
    var raw := RawScores(score, q, |corpus|);
    var idxs := TopIndices(raw, topK);
    var rawTop := seq(|idxs|, i requires 0 <= i < |idxs| => raw[idxs[i]]);
    Ranked(TopDocs(corpus, idxs), rawTop, seq(|idxs|, i requires 0 <= i < |idxs| => sigmoid(p, rawTop[i])))
  }

  /** The verdict on one question, from its ranked sentences. */
  function Bm25VerdictOf(q: Question, r: Ranked, threshold: real, search: RegexSearch): Bm25Verdict
  {
    var maxNorm := if r.normTop != [] then Some(r.normTop[0]) else None;
    var inManual := ExpectInManual(q);
    var would := WouldAnswer(maxNorm, threshold);
    var best := BestGold(q, r.docs, search);
    Bm25Verdict(Qid(q), NormField(q.intent), Bucket(q), QuestionText(q), inManual,
                best.0, best.1, maxNorm, would, FalsePositive(inManual, would))
  }

  function Bm25RowOf(q: Question, rank: nat, d: SentenceDoc, raw: real, norm: real, search: RegexSearch): Bm25Row
  {
    var m := GoldMatch(q, d, search);
    Bm25Row(Qid(q), rank, d.parent, d.text, d.page, raw, norm, m.Some?, m)
  }

  /** The candidate rows of one question, rank 1 first. */
  function Bm25Rows(q: Question, docs: seq<SentenceDoc>, rawTop: seq<real>, normTop: seq<real>,
                    search: RegexSearch): (rows: seq<Bm25Row>)
    requires |docs| == |rawTop| == |normTop|
    ensures |rows| == |docs|
    decreases |docs|
  {
    if docs == [] then []
    else
      var n := |docs|;
      Bm25Rows(q, docs[..n - 1], rawTop[..n - 1], normTop[..n - 1], search)
        + [Bm25RowOf(q, n, docs[n - 1], rawTop[n - 1], normTop[n - 1], search)]
  }

  /** The studio's verdict on one question. */
  function StudioVerdict(q: Question, corpus: seq<SentenceDoc>, score: Scorer, p: Params,
                         sigmoid: Sigmoid, topK: int, threshold: real, search: RegexSearch): Bm25Verdict
  {
    Bm25VerdictOf(q, RankQuestion(q, corpus, score, p, sigmoid, topK), threshold, search)
  }

  /** The studio's candidate rows for one question. */
  function StudioRows(q: Question, corpus: seq<SentenceDoc>, score: Scorer, p: Params,
                      sigmoid: Sigmoid, topK: int, search: RegexSearch): seq<Bm25Row>
  {
    var r := RankQuestion(q, corpus, score, p, sigmoid, topK);
    Bm25Rows(q, r.docs, r.rawTop, r.normTop, search)
  }

  /**
   * Rows carry contiguous ranks 1..n and each row's match flag and reason
   * are the gold matcher's verdict on that row's sentence.
   */
  lemma {:induction false} Bm25RowsRanks(q: Question, docs: seq<SentenceDoc>, rawTop: seq<real>, normTop: seq<real>,
                                          search: RegexSearch)
    requires |docs| == |rawTop| == |normTop|
    ensures var rows := Bm25Rows(q, docs, rawTop, normTop, search);
      forall i :: 0 <= i < |rows| ==>
        rows[i].rank == i + 1 && rows[i].parent == docs[i].parent
        && rows[i].matched == GoldMatch(q, docs[i], search).Some? && rows[i].why == GoldMatch(q, docs[i], search)
    decreases |docs|
  {
    if docs != [] {
      var n := |docs|;
      Bm25RowsRanks(q, docs[..n - 1], rawTop[..n - 1], normTop[..n - 1], search);
    }
  }

  /**
   * The decision does not look at the gold: two questions with the same
   * text get the same top score and the same would-answer verdict; a false
   * positive is exactly an answered question not expected in the manual.
   */
  lemma StudioDecisionIgnoresGold(q1: Question, q2: Question, corpus: seq<SentenceDoc>, score: Scorer, p: Params,
                                  sigmoid: Sigmoid, topK: int, threshold: real, search: RegexSearch)
    requires QuestionText(q1) == QuestionText(q2)
    ensures var v1 := StudioVerdict(q1, corpus, score, p, sigmoid, topK, threshold, search);
      var v2 := StudioVerdict(q2, corpus, score, p, sigmoid, topK, threshold, search);
      v1.maxNorm == v2.maxNorm && v1.wouldAnswer == v2.wouldAnswer
      && (v1.falsePositive <==> !ExpectInManual(q1) && v1.wouldAnswer)
  {
  }

  /**
   * An explicit `expect_in_manual` decides the verdict's expectation; without
   * one, an out-of-manual question is never expected in the manual, so it is
   * a false positive exactly when the service would answer it, and any other
   * question is expected and never a false positive.
   */
  lemma ExpectationOfVerdict(q: Question, r: Ranked, threshold: real, search: RegexSearch)
    ensures var v := Bm25VerdictOf(q, r, threshold, search);
      (q.gold.Dict? && q.gold.fields.expectInManual.Some? ==>
         v.expectInManual == q.gold.fields.expectInManual.value)
      && (!(q.gold.Dict? && q.gold.fields.expectInManual.Some?) && Bucket(q) == OutOfManual ==>
            !v.expectInManual && (v.falsePositive <==> v.wouldAnswer))
      && (!(q.gold.Dict? && q.gold.fields.expectInManual.Some?) && Bucket(q) != OutOfManual ==>
            v.expectInManual && !v.falsePositive)
  {
  }

  /**
   * The normalised top score is the sigmoid of the highest raw score in the
   * corpus, and it is absent only when no sentence is kept.
   */
  lemma StudioTopScoreIsMax(q: Question, corpus: seq<SentenceDoc>, score: Scorer, p: Params,
                            sigmoid: Sigmoid, topK: int, threshold: real, search: RegexSearch)
    ensures var v := StudioVerdict(q, corpus, score, p, sigmoid, topK, threshold, search);
      var raw := RawScores(score, q, |corpus|);
      (v.maxNorm.None? <==> |TopIndices(raw, topK)| == 0)
      && (v.maxNorm.Some? ==> exists t :: (0 <= t < |raw| && v.maxNorm.value == sigmoid(p, raw[t])
                                           && forall j :: 0 <= j < |raw| ==> raw[j] <= raw[t]))
  {
    var raw := RawScores(score, q, |corpus|);
    var top := TopIndices(raw, topK);
    if |top| > 0 {
      TopIsMax(raw, topK);
      var t := top[0];
      assert forall j :: 0 <= j < |raw| ==> raw[j] <= raw[t];
    }
  }

  /**
   * The gold rank is the first rank, within the top k, whose sentence the
   * matcher accepts; none is reported when no kept sentence matches.
   */
  lemma StudioBestRankIsFirstMatch(q: Question, corpus: seq<SentenceDoc>, score: Scorer, p: Params,
                                   sigmoid: Sigmoid, topK: int, threshold: real, search: RegexSearch)
    ensures var docs := RankQuestion(q, corpus, score, p, sigmoid, topK).docs;
      var v := StudioVerdict(q, corpus, score, p, sigmoid, topK, threshold, search);
      (v.goldBestRank.Some? ==>
         1 <= v.goldBestRank.value <= |docs|
         && GoldMatch(q, docs[v.goldBestRank.value - 1], search).Some?
         && v.goldWhy == GoldMatch(q, docs[v.goldBestRank.value - 1], search)
         && forall j :: 0 <= j < v.goldBestRank.value - 1 ==> GoldMatch(q, docs[j], search).None?)
      && (v.goldBestRank.None? <==> forall j :: 0 <= j < |docs| ==> GoldMatch(q, docs[j], search).None?)
  {
    BestGoldSpec(q, RankQuestion(q, corpus, score, p, sigmoid, topK).docs, search);
  }

  /** The per-question part of `_run_bm25_eval`: rank, decide, and emit one row per kept sentence. */
  method EvalStudioQuestion(q: Question, corpus: seq<SentenceDoc>, score: Scorer, p: Params,
                            sigmoid: Sigmoid, topK: int, threshold: real, search: RegexSearch)
    returns (verdict: Bm25Verdict, rows: seq<Bm25Row>)
    ensures verdict == StudioVerdict(q, corpus, score, p, sigmoid, topK, threshold, search)
    ensures rows == StudioRows(q, corpus, score, p, sigmoid, topK, search)
  {
    var r := RankQuestion(q, corpus, score, p, sigmoid, topK);
    var maxNorm := if r.normTop != [] then Some(r.normTop[0]) else None;
    var inManual := ExpectInManual(q);
    var would := WouldAnswer(maxNorm, threshold);
    var rank, why := BestGoldRank(q, r.docs, search);
    verdict := Bm25Verdict(Qid(q), NormField(q.intent), Bucket(q), QuestionText(q), inManual,
                           rank, why, maxNorm, would, FalsePositive(inManual, would));
    rows := EmitRows(q, r.docs, r.rawTop, r.normTop, search);
  }

  /** One candidate row per kept sentence, each matched against the gold. */
  method EmitRows(q: Question, docs: seq<SentenceDoc>, rawTop: seq<real>, normTop: seq<real>, search: RegexSearch)
    returns (rows: seq<Bm25Row>)
    requires |docs| == |rawTop| == |normTop|
    ensures rows == Bm25Rows(q, docs, rawTop, normTop, search)
  {
    rows := [];
    var i := 0;
    while i < |docs|
      invariant 0 <= i <= |docs|
      invariant rows == Bm25Rows(q, docs[..i], rawTop[..i], normTop[..i], search)
    {
      var m := MatchCandidate(q, docs[i], search);
      rows := rows + [Bm25Row(Qid(q), i + 1, docs[i].parent, docs[i].text, docs[i].page, rawTop[i], normTop[i], m.Some?, m)];
      assert docs[..i + 1][..i] == docs[..i];
      assert rawTop[..i + 1][..i] == rawTop[..i];
      assert normTop[..i + 1][..i] == normTop[..i];
      i := i + 1;
    }
    assert docs[..i] == docs && rawTop[..i] == rawTop && normTop[..i] == normTop;
  }

  datatype Outcome<T> = Done(value: T) | Failed(error: string)

  /** `max(raw)` for every question, in question order. */
  function MaxRaws(questions: seq<Question>, score: Scorer, n: nat): (m: seq<Option<real>>)
    requires n > 0
    ensures |m| == |questions|
  {
    seq(|questions|, i requires 0 <= i < |questions| => Some(MaxOf(RawScores(score, questions[i], n))))
  }

  /** Every question's rows, concatenated in question order. */
  function AllStudioRows(questions: seq<Question>, corpus: seq<SentenceDoc>, score: Scorer, p: Params,
                         sigmoid: Sigmoid, topK: int, search: RegexSearch): seq<Bm25Row>
    decreases |questions|
  {
    if questions == [] then []
    else
      var k := |questions|;
      AllStudioRows(questions[..k - 1], corpus, score, p, sigmoid, topK, search)
        + StudioRows(questions[k - 1], corpus, score, p, sigmoid, topK, search)
  }

  datatype StudioBm25Out = StudioBm25Out(perQuestion: seq<Bm25Verdict>, rows: seq<Bm25Row>)

  /** Where the corpus comes from: the chat database URL and the suite's scope. */
  datatype Scope = Scope(dbUrl: string, authority: Option<string>, documentIds: seq<string>)

  /** The scope checks of `_run_bm25_eval`, in source order; `None` when the corpus can be fetched. */
  function Bm25ScopeError(sc: Scope): (e: Option<string>)
    ensures e.None? <==> sc.dbUrl != [] && (sc.documentIds != [] || (sc.authority.Some? && sc.authority.value != []))
  {
    if sc.dbUrl == [] then Some("CHAT_RAG_DATABASE_URL (or CHAT_DATABASE_URL) must be set for BM25 corpus")
    else if sc.documentIds == [] && (sc.authority.None? || sc.authority.value == []) then
      Some("BM25 eval requires either authority_level or document_ids")
    else None
  }

  /**
   * The specification of `_run_bm25_eval`. `paras` is what the database
   * returns for the scope (by document ids when any are given, else by
   * authority level). The sigmoid is fitted with the corrected "p90" index
   * (`Calibration.StudioMaxRawParamsFixed`), which differs from the code as
   * written only when exactly two questions have a maximum.
   */
  function StudioBm25Eval(sc: Scope, paras: seq<Paragraph>, questions: seq<Question>, score: Scorer, sigmoid: Sigmoid,
                          topK: int, threshold: real, search: RegexSearch): Outcome<StudioBm25Out>
  {
    if Bm25ScopeError(sc).Some? then Failed(Bm25ScopeError(sc).value)
    else
      var corpus := StudioCorpus(paras);
      if corpus == [] then Failed("No corpus sentences found for authority_level")
      else
        var p := StudioMaxRawParamsFixed(MaxRaws(questions, score, |corpus|));
        Done(StudioBm25Out(StudioVerdicts(questions, corpus, score, p, sigmoid, topK, threshold, search),
                           AllStudioRows(questions, corpus, score, p, sigmoid, topK, search)))
  }

  function StudioVerdictOf(corpus: seq<SentenceDoc>, score: Scorer, p: Params, sigmoid: Sigmoid, topK: int,
                           threshold: real, search: RegexSearch): Question -> Bm25Verdict
  {
    q => StudioVerdict(q, corpus, score, p, sigmoid, topK, threshold, search)
  }

  /** Every question's verdict, in question order. */
  function StudioVerdicts(questions: seq<Question>, corpus: seq<SentenceDoc>, score: Scorer, p: Params,
                          sigmoid: Sigmoid, topK: int, threshold: real, search: RegexSearch): (vs: seq<Bm25Verdict>)
    ensures |vs| == |questions|
  {
    MapSeq(questions, StudioVerdictOf(corpus, score, p, sigmoid, topK, threshold, search))
  }

  /** The i-th verdict is the i-th question's: questions are evaluated independently and kept in order. */
  lemma StudioVerdictsAt(questions: seq<Question>, i: nat, corpus: seq<SentenceDoc>, score: Scorer,
                         p: Params, sigmoid: Sigmoid, topK: int, threshold: real, search: RegexSearch)
    requires i < |questions|
    ensures StudioVerdicts(questions, corpus, score, p, sigmoid, topK, threshold, search)[i]
         == StudioVerdict(questions[i], corpus, score, p, sigmoid, topK, threshold, search)
  {
    MapSeqAt(questions, StudioVerdictOf(corpus, score, p, sigmoid, topK, threshold, search), i);
  }

  /**
   * A missing database URL or scope, or an empty corpus, fails the
   * evaluation before any per-question output; otherwise there is one
   * verdict per question.
   */
  lemma StudioBm25EvalShape(sc: Scope, paras: seq<Paragraph>, questions: seq<Question>, score: Scorer,
                            sigmoid: Sigmoid, topK: int, threshold: real, search: RegexSearch)
    ensures var out := StudioBm25Eval(sc, paras, questions, score, sigmoid, topK, threshold, search);
      (out.Failed? <==> Bm25ScopeError(sc).Some? || StudioCorpus(paras) == [])
      && (out.Done? ==> |out.value.perQuestion| == |questions|)
  {
  }

  /** The sigmoid fit of `_run_bm25_eval`: the maximum raw score of every question. */
  method CollectMaxRaws(questions: seq<Question>, score: Scorer, n: nat) returns (maxes: seq<Option<real>>)
    requires n > 0
    ensures maxes == MaxRaws(questions, score, n)
  {
    maxes := [];
    var i := 0;
    while i < |questions|
      invariant 0 <= i <= |questions|
      invariant maxes == MaxRaws(questions[..i], score, n)
    {
      maxes := maxes + [Some(MaxOf(RawScores(score, questions[i], n)))];
      i := i + 1;
    }
    assert questions[..i] == questions;
  }

  /** The question loop of `_run_bm25_eval`, once the corpus and the sigmoid fit are known. */
  method EvalStudioQuestions(questions: seq<Question>, corpus: seq<SentenceDoc>, score: Scorer, p: Params,
                             sigmoid: Sigmoid, topK: int, threshold: real, search: RegexSearch)
    returns (out: StudioBm25Out)
    ensures out.perQuestion == StudioVerdicts(questions, corpus, score, p, sigmoid, topK, threshold, search)
    ensures out.rows == AllStudioRows(questions, corpus, score, p, sigmoid, topK, search)
  {
    var perQ: seq<Bm25Verdict> := [];
    var rows: seq<Bm25Row> := [];
    var i := 0;
    while i < |questions|
      invariant 0 <= i <= |questions|
      invariant perQ == StudioVerdicts(questions[..i], corpus, score, p, sigmoid, topK, threshold, search)
      invariant rows == AllStudioRows(questions[..i], corpus, score, p, sigmoid, topK, search)
    {
      assert questions[..i + 1][..i] == questions[..i];
      var v, rs := EvalStudioQuestion(questions[i], corpus, score, p, sigmoid, topK, threshold, search);
      perQ := perQ + [v];
      rows := rows + rs;
      i := i + 1;
    }
    assert questions[..i] == questions;
    return StudioBm25Out(perQ, rows);
  }

  /** `_run_bm25_eval`: check the scope, build the corpus, fit the sigmoid on all questions' maxima, then rank each question. */
  method RunStudioBm25(sc: Scope, paras: seq<Paragraph>, questions: seq<Question>, score: Scorer, sigmoid: Sigmoid,
                       topK: int, threshold: real, search: RegexSearch)
    returns (out: Outcome<StudioBm25Out>)
    ensures out == StudioBm25Eval(sc, paras, questions, score, sigmoid, topK, threshold, search)
  {
    var err := Bm25ScopeError(sc);
    if err.Some? {
      return Failed(err.value);
    }
    var corpus := BuildStudioCorpus(paras);
    if corpus == [] {
      return Failed("No corpus sentences found for authority_level");
    }
    var maxes := CollectMaxRaws(questions, score, |corpus|);
    var p := StudioMaxRawParamsFixed(maxes);
    var res := EvalStudioQuestions(questions, corpus, score, p, sigmoid, topK, threshold, search);
    return Done(res);
  }
}
