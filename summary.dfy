// The rows and the summary the evaluation studio stores after a run: the
// question table keyed by id, the per-question metric rows that join both
// methods' verdicts, the retrieval rows, and the hit@k / false-positive
// counters with their rates.

module RunSummary {
  import opened Text
  import opened Gold
  import opened Ranking
  import opened Hier

  // ------------------------------------------------------ keyed tables

  /** `str(q["id"])`, the key of the question table. */
  function RawId(q: Question): string { if q.id.Some? then q.id.value else "None" }

  /** The position of the entry with id `k`, if any. */
  function IndexOfId(t: seq<Question>, k: string): (r: Option<nat>)
    ensures r.Some? ==> r.value < |t| && RawId(t[r.value]) == k
    ensures r.None? ==> forall i :: 0 <= i < |t| ==> RawId(t[i]) != k
    decreases |t|
  {
    if t == [] then None
    else if RawId(t[|t| - 1]) == k then Some(|t| - 1)
    else IndexOfId(t[..|t| - 1], k)
  }

  predicate DistinctIds(t: seq<Question>)
  {
    forall i, j :: 0 <= i < j < |t| ==> RawId(t[i]) != RawId(t[j])
  }

  /**
   * `{str(q["id"]): q for q in questions}`: one entry per id, in the order
   * the ids first occur, each holding the last question with that id.
   */
  function QTable(qs: seq<Question>): seq<Question>
    decreases |qs|
  {
    if qs == [] then []
    else
      var t := QTable(qs[..|qs| - 1]);
      var q := qs[|qs| - 1];
      match IndexOfId(t, RawId(q))
      case Some(i) => t[i := q]
      case None => t + [q]
  }

  /** The question table has distinct ids, exactly the ids of the input, and at most as many entries. */
  lemma QTableSpec(qs: seq<Question>)
    ensures var t := QTable(qs);
      DistinctIds(t) && |t| <= |qs|
      && (forall i :: 0 <= i < |t| ==> t[i] in qs)
      && (forall q :: q in qs ==> IndexOfId(t, RawId(q)).Some?)
  {
    QTableShape(qs);
    QTableCovers(qs);
  }

  lemma {:induction false} QTableShape(qs: seq<Question>)
    ensures var t := QTable(qs);
      DistinctIds(t) && |t| <= |qs| && (forall i :: 0 <= i < |t| ==> t[i] in qs)
    decreases |qs|
  {
    if qs != [] {
      var init := qs[..|qs| - 1];
      var t0 := QTable(init);
      var q := qs[|qs| - 1];
      QTableShape(init);
      var t := QTable(qs);
      assert forall x :: x in init ==> x in qs;
      match IndexOfId(t0, RawId(q))
      case Some(i) =>
        assert t == t0[i := q];
        forall a, b | 0 <= a < b < |t| ensures RawId(t[a]) != RawId(t[b]) {
          assert RawId(t[a]) == RawId(t0[a]) && RawId(t[b]) == RawId(t0[b]);
        }
      case None =>
        assert t == t0 + [q];
    }
  }

  lemma {:induction false} QTableCovers(qs: seq<Question>)
    ensures forall q :: q in qs ==> IndexOfId(QTable(qs), RawId(q)).Some?
    decreases |qs|
  {
    if qs != [] {
      var init := qs[..|qs| - 1];
      var t0 := QTable(init);
      var q := qs[|qs| - 1];
      QTableCovers(init);
      var t := QTable(qs);
      forall p | p in qs ensures IndexOfId(t, RawId(p)).Some? {
        var k := RawId(p);
        var j: nat;
        if p == q {
          j := if IndexOfId(t0, k).Some? then IndexOfId(t0, k).value else |t0|;
        } else {
          assert p in init;
          j := IndexOfId(t0, k).value;
        }
        QTableKeeps(init, q, k, j);
      }
    }
  }

  /** After one more question, the id of an old entry or of the new question is still present. */
  lemma QTableKeeps(init: seq<Question>, q: Question, k: string, j: nat)
    requires var t0 := QTable(init);
      (j < |t0| && RawId(t0[j]) == k) || (j == |t0| && k == RawId(q) && IndexOfId(t0, k).None?)
    ensures IndexOfId(QTable(init + [q]), k).Some?
  {
    var qs := init + [q];
    assert qs[..|qs| - 1] == init && qs[|qs| - 1] == q;
    var t0 := QTable(init);
    var t := QTable(qs);
    match IndexOfId(t0, RawId(q))
    case Some(i) =>
      assert t == t0[i := q];
      if i == j { assert RawId(t[j]) == k; } else { assert RawId(t[j]) == RawId(t0[j]); }
    case None =>
      assert t == t0 + [q];
      assert RawId(t[j]) == k;
  }

  /** `{key(x): x for x in xs}.get(k)`: the last entry with that key wins. */
  function LastWith<T>(xs: seq<T>, key: T -> string, k: string): Option<T>
    decreases |xs|
  {
    if xs == [] then None
    else if key(xs[|xs| - 1]) == k then Some(xs[|xs| - 1])
    else LastWith(xs[..|xs| - 1], key, k)
  }

  /** A lookup finds the last entry with the key, and nothing exactly when no entry has it. */
  lemma {:induction false} LastWithSpec<T>(xs: seq<T>, key: T -> string, k: string)
    ensures var r := LastWith(xs, key, k);
      (r.None? <==> forall i :: 0 <= i < |xs| ==> key(xs[i]) != k)
      && (r.Some? ==> key(r.value) == k && r.value in xs)
    decreases |xs|
  {
    if xs != [] {
      var n := |xs|;
      LastWithSpec(xs[..n - 1], key, k);
      if key(xs[n - 1]) != k {
        assert forall i :: 0 <= i < n - 1 ==> xs[..n - 1][i] == xs[i];
        var r := LastWith(xs[..n - 1], key, k);
        if r.Some? {
          assert r.value in xs[..n - 1];
        }
      }
    }
  }

  /** A later entry with the same key hides an earlier one. */
  lemma LastWithLaterWins<T>(xs: seq<T>, key: T -> string, x: T)
    ensures LastWith(xs + [x], key, key(x)) == Some(x)
  {
    assert (xs + [x])[|xs + [x]| - 1] == x;
  }

  function IdKey(): Question -> string { (q: Question) => RawId(q) }

  /** Each entry of the question table is the last question with its id. */
  lemma {:induction false} QTableLastWins(qs: seq<Question>, i: nat)
    requires i < |QTable(qs)|
    ensures LastWith(qs, IdKey(), RawId(QTable(qs)[i])) == Some(QTable(qs)[i])
    decreases |qs|
  {
    var init := qs[..|qs| - 1];
    var t0 := QTable(init);
    var q := qs[|qs| - 1];
    var t := QTable(qs);
    var k := RawId(t[i]);
    QTableShape(init);
    match IndexOfId(t0, RawId(q))
    case Some(j) =>
      assert t == t0[j := q];
      if i == j {
        assert t[i] == q;
      } else {
        assert RawId(t0[i]) != RawId(t0[j]);
        QTableLastWins(init, i);
      }
    case None =>
      assert t == t0 + [q];
      if i < |t0| {
        assert t[i] == t0[i];
        QTableLastWins(init, i);
      }
  }

  function BmKey(): Bm25Verdict -> string { (v: Bm25Verdict) => v.qid }
  function HiKey(): HierVerdict -> string { (v: HierVerdict) => v.qid }

  // --------------------------------------------------------- the join

  /** The gold parent ids stored with a metric row: `[str(x) for x in parents if str(x).strip()]`. */
  function SummaryParentIds(q: Question): (r: seq<string>)
    ensures forall i :: 0 <= i < |r| ==> !IsBlank(r[i])
  {
    if q.gold.NotDict? then []
    else
      match q.gold.fields.parentIds
      case Str(s) => if IsBlank(s) then [] else [s]
      case List(items) => NonBlankTexts(items)
      case _ => []
  }

  function NonBlankTexts(items: seq<Elem>): (r: seq<string>)
    ensures |r| <= |items|
    ensures forall i :: 0 <= i < |r| ==> !IsBlank(r[i])
    decreases |items|
  {
    if items == [] then []
    else
      var n := |items|;
      NonBlankTexts(items[..n - 1]) + (if IsBlank(items[n - 1].text) then [] else [items[n - 1].text])
  }

  /** `expect_in_manual` of the BM25 verdict when there is one, else of the vector verdict, else false. */
  function ExpectOf(bm: Option<Bm25Verdict>, hi: Option<HierVerdict>): bool
  {
    if bm.Some? then bm.value.expectInManual else hi.Some? && hi.value.expectInManual
  }

  function BmRank(bm: Option<Bm25Verdict>): Option<nat> { if bm.Some? then bm.value.goldBestRank else None }
  function HiRank(hi: Option<HierVerdict>): Option<nat> { if hi.Some? then hi.value.goldBestRank else None }

  datatype MetricRow = MetricRow(
    runId: string,
    suiteId: string,
    qid: string,
    intent: Option<string>,
    bucket: Option<string>,
    question: Option<string>,
    expectInManual: bool,
    goldParentIds: Option<seq<string>>,
    bmRank: Option<nat>,
    bmHits: Option<Hits>,
    bmMaxNorm: Option<real>,
    bmWouldAnswer: Option<bool>,
    bmFalsePositive: Option<bool>,
    hiRank: Option<nat>,
    hiHits: Option<Hits>,
    hiTop1: Option<real>,
    hiWouldAnswer: Option<bool>,
    hiFalsePositive: Option<bool>)

  /** One `retrieval_eval_run_question_metrics` row. */
  function MetricRowOf(runId: string, suiteId: string, q: Question, bmPerQ: seq<Bm25Verdict>,
                       hiPerQ: seq<HierVerdict>): MetricRow
  {
    var k := RawId(q);
    var b := LastWith(bmPerQ, BmKey(), k);
    var h := LastWith(hiPerQ, HiKey(), k);
    var parents := SummaryParentIds(q);
    MetricRow(runId, suiteId, k, q.intent, q.bucket, q.question, ExpectOf(b, h),
              if parents == [] then None else Some(parents),
              BmRank(b), HitFlags(BmRank(b)),
              if b.Some? then b.value.maxNorm else None,
              if b.Some? then Some(b.value.wouldAnswer) else None,
              if b.Some? then Some(b.value.falsePositive) else None,
              HiRank(h), HitFlags(HiRank(h)),
              if h.Some? then h.value.top1Similarity else None,
              if h.Some? then Some(h.value.wouldAnswer) else None,
              if h.Some? then Some(h.value.falsePositive) else None)
  }

  function MetricRows(runId: string, suiteId: string, table: seq<Question>, bmPerQ: seq<Bm25Verdict>,
                      hiPerQ: seq<HierVerdict>): (rows: seq<MetricRow>)
  {
    seq(|table|, i requires 0 <= i < |table| => MetricRowOf(runId, suiteId, table[i], bmPerQ, hiPerQ))
  }

  /**
   * One metric row per question id, all tagged with the run; hit flags are
   * absent exactly when the method found no gold rank, and the stored
   * parent list is absent rather than empty.
   */
  lemma MetricRowsSpec(runId: string, suiteId: string, table: seq<Question>, bmPerQ: seq<Bm25Verdict>,
                       hiPerQ: seq<HierVerdict>)
    ensures var rows := MetricRows(runId, suiteId, table, bmPerQ, hiPerQ);
      |rows| == |table|
      && forall i :: 0 <= i < |rows| ==>
           rows[i].runId == runId && rows[i].qid == RawId(table[i])
           && (rows[i].bmHits.None? <==> rows[i].bmRank.None?)
           && (rows[i].hiHits.None? <==> rows[i].hiRank.None?)
           && (rows[i].goldParentIds.Some? ==> rows[i].goldParentIds.value != [])
  {
  }

  /** A question the BM25 pass did not see takes `expect_in_manual` from the vector pass. */
  lemma ExpectFallsBackToHier(runId: string, suiteId: string, q: Question, bmPerQ: seq<Bm25Verdict>,
                              hiPerQ: seq<HierVerdict>, h: HierVerdict)
    requires forall i :: 0 <= i < |bmPerQ| ==> bmPerQ[i].qid != RawId(q)
    requires LastWith(hiPerQ, HiKey(), RawId(q)) == Some(h)
    ensures MetricRowOf(runId, suiteId, q, bmPerQ, hiPerQ).expectInManual == h.expectInManual
    ensures MetricRowOf(runId, suiteId, q, bmPerQ, hiPerQ).bmWouldAnswer.None?
  {
    LastWithSpec(bmPerQ, BmKey(), RawId(q));
  }

  // ---------------------------------------------------- retrieval rows

  datatype StoredRow = StoredRow(
    runId: string,
    suiteId: string,
    qid: string,
    via: string,
    rank: nat,
    itemId: string,
    parentId: string,
    score: Option<real>,
    rawScore: Option<real>,
    matched: bool,
    why: Option<string>,
    page: Option<int>,
    sourceType: Option<string>,
    snippet: string)

  const SnippetMax: nat := 240

  function WhyOpt(w: Option<Why>): Option<string> { if w.Some? then Some(WhyText(w.value)) else None }

  /** A BM25 row as stored: the parent id is both item and parent, the source type is fixed. */
  function Bm25Stored(runId: string, suiteId: string, r: Bm25Row): StoredRow
  {
    StoredRow(runId, suiteId, r.qid, "bm25", r.rank, r.parent, r.parent, Some(r.norm), Some(r.raw), r.matched,
              WhyOpt(r.why), r.page, Some("hierarchical"), Take(r.text, SnippetMax))
  }

  /** A vector row as stored: the neighbour id is both item and parent, there is no raw score. */
  function HierStored(runId: string, suiteId: string, r: HierRow): StoredRow
  {
    StoredRow(runId, suiteId, r.qid, "hier", r.rank, r.neighborId, r.neighborId, r.similarity, None, r.matched,
              WhyOpt(r.why), r.page, r.sourceType, Take(r.snippet, SnippetMax))
  }

  function StoredRows(runId: string, suiteId: string, bmRows: seq<Bm25Row>, hiRows: seq<HierRow>): seq<StoredRow>
  {
    seq(|bmRows|, i requires 0 <= i < |bmRows| => Bm25Stored(runId, suiteId, bmRows[i]))
      + seq(|hiRows|, i requires 0 <= i < |hiRows| => HierStored(runId, suiteId, hiRows[i]))
  }

  /** BM25 rows come first, then vector rows; every row carries the run id and a snippet of at most 240 characters. */
  lemma StoredRowsSpec(runId: string, suiteId: string, bmRows: seq<Bm25Row>, hiRows: seq<HierRow>)
    ensures var rows := StoredRows(runId, suiteId, bmRows, hiRows);
      |rows| == |bmRows| + |hiRows|
      && (forall i :: 0 <= i < |rows| ==> rows[i].runId == runId && |rows[i].snippet| <= SnippetMax)
      && (forall i :: 0 <= i < |bmRows| ==>
            rows[i].via == "bm25" && rows[i].rank == bmRows[i].rank && rows[i].matched == bmRows[i].matched)
      && (forall i :: |bmRows| <= i < |rows| ==> rows[i].via == "hier" && rows[i].rawScore.None?)
  {
  }

  // ----------------------------------------------------------- summary

  datatype HitCounts = HitCounts(at1: nat, at3: nat, at5: nat, at10: nat)

  datatype Tally = Tally(withGold: nat, outOfManual: nat, bm: HitCounts, hi: HitCounts, bmFp: nat, hiFp: nat)

  function Bump(b: bool): nat { if b then 1 else 0 }

  function CountHits(c: HitCounts, rank: Option<nat>): HitCounts
  {
    HitCounts(c.at1 + Bump(rank.Some? && rank.value <= 1), c.at3 + Bump(rank.Some? && rank.value <= 3),
              c.at5 + Bump(rank.Some? && rank.value <= 5), c.at10 + Bump(rank.Some? && rank.value <= 10))
  }

  /** One turn of the summary loop. */
  function TallyStep(t: Tally, q: Question, bmPerQ: seq<Bm25Verdict>, hiPerQ: seq<HierVerdict>): Tally
  {
    var b := LastWith(bmPerQ, BmKey(), RawId(q));
    var h := LastWith(hiPerQ, HiKey(), RawId(q));
    var out := !ExpectOf(b, h);
    var t1 := if out then
        t.(outOfManual := t.outOfManual + 1,
           bmFp := t.bmFp + Bump(b.Some? && b.value.falsePositive),
           hiFp := t.hiFp + Bump(h.Some? && h.value.falsePositive))
      else t;
    if SummaryParentIds(q) != [] then
      t1.(withGold := t1.withGold + 1, bm := CountHits(t1.bm, BmRank(b)), hi := CountHits(t1.hi, HiRank(h)))
    else t1
  }

  const NoTally := Tally(0, 0, HitCounts(0, 0, 0, 0), HitCounts(0, 0, 0, 0), 0, 0)

  /** The counters after the summary loop has seen every entry of the question table. */
  function TallyOf(table: seq<Question>, bmPerQ: seq<Bm25Verdict>, hiPerQ: seq<HierVerdict>): Tally
    decreases |table|
  {
    if table == [] then NoTally
    else TallyStep(TallyOf(table[..|table| - 1], bmPerQ, hiPerQ), table[|table| - 1], bmPerQ, hiPerQ)
  }

  predicate Ordered(c: HitCounts, bound: nat) { c.at1 <= c.at3 <= c.at5 <= c.at10 <= bound }

  /**
   * The counters are consistent: hit@1 <= hit@3 <= hit@5 <= hit@10 <=
   * questions with gold <= questions, and false positives are counted only
   * among out-of-manual questions.
   */
  lemma {:induction false} TallyBounds(table: seq<Question>, bmPerQ: seq<Bm25Verdict>, hiPerQ: seq<HierVerdict>)
    ensures var t := TallyOf(table, bmPerQ, hiPerQ);
      Ordered(t.bm, t.withGold) && Ordered(t.hi, t.withGold) && t.withGold <= |table|
      && t.bmFp <= t.outOfManual && t.hiFp <= t.outOfManual && t.outOfManual <= |table|
    decreases |table|
  {
    if table != [] {
      TallyBounds(table[..|table| - 1], bmPerQ, hiPerQ);
    }
  }

  /**
   * Hits are counted only for questions with gold parent ids: a question
   * whose gold is a substring or a pattern alone adds nothing to any hit
   * counter, even when the BM25 pass found a gold rank for it.
   */
  lemma {:induction false} HitsNeedParentIds(table: seq<Question>, bmPerQ: seq<Bm25Verdict>, hiPerQ: seq<HierVerdict>)
    requires forall i :: 0 <= i < |table| ==> SummaryParentIds(table[i]) == []
    ensures var t := TallyOf(table, bmPerQ, hiPerQ);
      t.withGold == 0 && t.bm == HitCounts(0, 0, 0, 0) && t.hi == HitCounts(0, 0, 0, 0)
    decreases |table|
  {
    if table != [] {
      HitsNeedParentIds(table[..|table| - 1], bmPerQ, hiPerQ);
    }
  }

  /** The summary loop of `_insert_run_outputs`. */
  method CountSummary(table: seq<Question>, bmPerQ: seq<Bm25Verdict>, hiPerQ: seq<HierVerdict>) returns (t: Tally)
    ensures t == TallyOf(table, bmPerQ, hiPerQ)
  {
    t := NoTally;
    var i := 0;
    while i < |table|
      invariant 0 <= i <= |table|
      invariant t == TallyOf(table[..i], bmPerQ, hiPerQ)
    {
      assert table[..i + 1][..i] == table[..i];
      t := TallyStep(t, table[i], bmPerQ, hiPerQ);
      i := i + 1;
    }
    assert table[..i] == table;
  }

  /** `float(num) / float(denom) if denom else 0.0` */
  function Rate(num: nat, den: nat): (r: real)
    ensures num <= den ==> 0.0 <= r <= 1.0
  {
    if den == 0 then 0.0 else (num as real) / (den as real)
  }

  /** More hits never give a lower rate, and no questions with gold give a zero rate. */
  lemma RateMonotone(a: nat, b: nat, den: nat)
    requires a <= b
    ensures Rate(a, den) <= Rate(b, den)
    ensures den == 0 ==> Rate(b, den) == 0.0
  {
    if den > 0 {
      assert (a as real) / (den as real) <= (b as real) / (den as real);
    }
  }

  datatype MethodSummary = MethodSummary(hitAt1: real, hitAt3: real, hitAt5: real, hitAt10: real, falsePositives: nat)

  datatype Summary = Summary(
    runId: string,
    questionsTotal: nat,
    questionsWithGold: nat,
    questionsOutOfManual: nat,
    bm25: MethodSummary,
    hier: MethodSummary)

  function MethodOf(c: HitCounts, fp: nat, withGold: nat): MethodSummary
  {
    MethodSummary(Rate(c.at1, withGold), Rate(c.at3, withGold), Rate(c.at5, withGold), Rate(c.at10, withGold), fp)
  }

  /** The summary `_insert_run_outputs` returns; the total counts every question, duplicates included. */
  function SummaryOf(runId: string, questions: seq<Question>, bmPerQ: seq<Bm25Verdict>, hiPerQ: seq<HierVerdict>)
    : Summary
  {
    var t := TallyOf(QTable(questions), bmPerQ, hiPerQ);
    Summary(runId, |questions|, t.withGold, t.outOfManual, MethodOf(t.bm, t.bmFp, t.withGold),
            MethodOf(t.hi, t.hiFp, t.withGold))
  }

  /** The summary part of `_insert_run_outputs`: tally the question table, then turn the counts into rates. */
  method Summarize(runId: string, questions: seq<Question>, bmPerQ: seq<Bm25Verdict>, hiPerQ: seq<HierVerdict>)
    returns (s: Summary)
    ensures s == SummaryOf(runId, questions, bmPerQ, hiPerQ)
  {
    var t := CountSummary(QTable(questions), bmPerQ, hiPerQ);
    s := Summary(runId, |questions|, t.withGold, t.outOfManual, MethodOf(t.bm, t.bmFp, t.withGold),
                 MethodOf(t.hi, t.hiFp, t.withGold));
  }

  predicate RatesOrdered(m: MethodSummary)
  {
    0.0 <= m.hitAt1 <= m.hitAt3 <= m.hitAt5 <= m.hitAt10 <= 1.0
  }

  /**
   * Every rate lies in [0, 1] and grows with the cut-off; the counts of
   * questions with gold and out of the manual never exceed the total, and
   * the false-positive counts never exceed the out-of-manual count.
   */
  lemma SummarySpec(runId: string, questions: seq<Question>, bmPerQ: seq<Bm25Verdict>, hiPerQ: seq<HierVerdict>)
    ensures var s := SummaryOf(runId, questions, bmPerQ, hiPerQ);
      RatesOrdered(s.bm25) && RatesOrdered(s.hier)
      && s.questionsWithGold <= s.questionsTotal && s.questionsOutOfManual <= s.questionsTotal
      && s.bm25.falsePositives <= s.questionsOutOfManual && s.hier.falsePositives <= s.questionsOutOfManual
      && (s.questionsWithGold == 0 ==> s.bm25.hitAt10 == 0.0 && s.hier.hitAt10 == 0.0)
  {
    var table := QTable(questions);
    QTableSpec(questions);
    TallyBounds(table, bmPerQ, hiPerQ);
    var t := TallyOf(table, bmPerQ, hiPerQ);
    RateMonotone(t.bm.at1, t.bm.at3, t.withGold);
    RateMonotone(t.bm.at3, t.bm.at5, t.withGold);
    RateMonotone(t.bm.at5, t.bm.at10, t.withGold);
    RateMonotone(t.hi.at1, t.hi.at3, t.withGold);
    RateMonotone(t.hi.at3, t.hi.at5, t.withGold);
    RateMonotone(t.hi.at5, t.hi.at10, t.withGold);
  }
}
