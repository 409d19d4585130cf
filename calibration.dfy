/**
 * Parameters (k, x0) of the sigmoid that turns raw BM25 scores into
 * confidences `1 / (1 + e^(-k (s - x0)))`. Only the parameter algebra is
 * modelled, exactly over `real`; the exponential itself is floating point
 * and is not part of this model. Logarithms that the source computes with
 * `math.log` are named constants or parameters.
 *
 * Three fits exist and differ: the studio's global fit from the median and
 * a "p90" of per-question maxima, the CLI's global fit from the quartiles,
 * and the CLI's per-question fit from the top and k-th score.
 */
module Calibration {
  import opened Text

  datatype Params = Params(k: real, x0: real)

  const Identity: Params := Params(1.0, 0.0)

  function Abs(x: real): real { if x < 0.0 then -x else x }

  predicate Sorted(s: seq<real>) { forall i, j :: 0 <= i <= j < |s| ==> s[i] <= s[j] }

  /** Insert into a sorted sequence. */
  function Insert(x: real, s: seq<real>): (r: seq<real>)
    requires Sorted(s)
    ensures Sorted(r) && multiset(r) == multiset(s) + multiset{x}
    ensures |r| == |s| + 1 && (r[0] == x || (s != [] && r[0] == s[0]))
    decreases |s|
  {
    if s == [] || x <= s[0] then [x] + s
    else
      var t := Insert(x, s[1..]);
      assert s == [s[0]] + s[1..];
      [s[0]] + t
  }

  /** `sorted(xs)` / `xs.sort()`: ascending, a permutation of the input. */
  function Sort(s: seq<real>): (r: seq<real>)
    ensures Sorted(r) && multiset(r) == multiset(s) && |r| == |s|
    decreases |s|
  {
    if s == [] then []
    else
      assert s == [s[0]] + s[1..];
      Insert(s[0], Sort(s[1..]))
  }

  // ------------------------------------------------------------ studio

  /** `1e-6`, added to |p50| when the two percentiles coincide. */
  const StudioEps: real := 0.000001
  const StudioSlope: real := 2.2

  /** `[float(x) for x in scores if x is not None]` */
  function Present(scores: seq<Option<real>>): (r: seq<real>)
    ensures |r| <= |scores|
    decreases |scores|
  {
    if scores == [] then []
    else (if scores[0].Some? then [scores[0].value] else []) + Present(scores[1..])
  }

  /** `max(0, int(n * 0.9) - 1)`, with the product taken exactly. */
  function StudioP90Index(n: nat): nat { if (9 * n) / 10 >= 1 then (9 * n) / 10 - 1 else 0 }

  /** The fit from sorted values, given the index used for the "p90". */
  function MedianFit(xs: seq<real>, i90: nat): Params
    requires |xs| > 0 && i90 < |xs|
  {
    var p50 := xs[|xs| / 2];
    var p90 := xs[i90];
    var denom := if p90 != p50 then p90 - p50 else Abs(p50) + StudioEps;
    Params(StudioSlope / denom, p50)
  }

  /** `_sigmoid_params_from_max_raw` of the studio service, as written. */
  function StudioMaxRawParams(scores: seq<Option<real>>): (p: Params)
    ensures Present(scores) == [] ==> p == Identity
  {
    var xs := Sort(Present(scores));
    if xs == [] then Identity
    else
      StudioP90IndexInRange(|xs|);
      MedianFit(xs, StudioP90Index(|xs|))
  }

  lemma StudioP90IndexInRange(n: nat)
    requires n > 0
    ensures StudioP90Index(n) < n
  {
  }

  /** The "p90" index reaches the median index once there are at least three values. */
  lemma StudioP90NotBelowMedian(n: nat)
    requires n >= 3
    ensures n / 2 <= StudioP90Index(n) < n
  {
  }

  /** A median fit whose "p90" index is not below the median index has a positive slope. */
  lemma MedianFitPositive(xs: seq<real>, i90: nat)
    requires Sorted(xs) && |xs| > 0 && |xs| / 2 <= i90 < |xs|
    ensures MedianFit(xs, i90).k > 0.0 && MedianFit(xs, i90).x0 == xs[|xs| / 2]
  {
    var p50 := xs[|xs| / 2];
    var p90 := xs[i90];
    assert p50 <= p90;
    var denom := if p90 != p50 then p90 - p50 else Abs(p50) + StudioEps;
    assert denom > 0.0;
    PositiveQuotient(StudioSlope, denom);
  }

  lemma PositiveQuotient(x: real, y: real)
    requires x > 0.0 && y > 0.0
    ensures x / y > 0.0
  {
  }

  /** The centre is the median, and with at least three values (or one) the slope is positive. */
  lemma StudioSlopePositive(scores: seq<Option<real>>)
    requires |Present(scores)| >= 3 || |Present(scores)| == 1
    ensures var xs := Sort(Present(scores));
      StudioMaxRawParams(scores).x0 == xs[|xs| / 2] && StudioMaxRawParams(scores).k > 0.0
  {
    var xs := Sort(Present(scores));
    var n := |xs|;
    StudioP90IndexInRange(n);
    if n >= 3 { StudioP90NotBelowMedian(n); }
    MedianFitPositive(xs, StudioP90Index(n));
  }

  /**
   * With exactly two distinct maxima the "p90" index is 0 and the median
   * index is 1, so the p90 value lies below the median and the slope is
   * negative: higher raw scores get lower confidences.
   */
  lemma StudioTwoScoresNegativeSlope(lo: real, hi: real)
    requires lo < hi
    ensures StudioMaxRawParams([Some(lo), Some(hi)]).k < 0.0
  {
    SortTwo(lo, hi);
    assert StudioP90Index(2) == 0;
    assert MedianFit([lo, hi], 0).k == StudioSlope / (lo - hi);
    NegativeQuotient(StudioSlope, lo - hi);
  }

  lemma SortTwo(lo: real, hi: real)
    requires lo < hi
    ensures Sort(Present([Some(lo), Some(hi)])) == [lo, hi]
  {
    var s := [Some(lo), Some(hi)];
    assert Present(s) == [lo, hi] by { assert Present(s[1..]) == [hi]; }
    assert Sort([hi]) == [hi] by { assert [hi][1..] == []; }
    assert [lo, hi][1..] == [hi];
    assert Insert(lo, [hi]) == [lo, hi];
  }

  lemma NegativeQuotient(x: real, y: real)
    requires x > 0.0 && y < 0.0
    ensures x / y < 0.0
  {
  }

  /** The "p90" index with the evident intent: never below the median index. */
  function StudioP90IndexFixed(n: nat): nat
  {
    if StudioP90Index(n) < n / 2 then n / 2 else StudioP90Index(n)
  }

  /** The studio fit with the "p90" index clamped to the median index. */
  function StudioMaxRawParamsFixed(scores: seq<Option<real>>): (p: Params)
    ensures Present(scores) == [] ==> p == Identity
  {
    var xs := Sort(Present(scores));
    if xs == [] then Identity
    else
      StudioP90IndexInRange(|xs|);
      MedianFit(xs, StudioP90IndexFixed(|xs|))
  }

  /** With the clamped index the slope is positive for every non-empty input, and it agrees with the original from three values on. */
  lemma StudioFixedSlopePositive(scores: seq<Option<real>>)
    requires Present(scores) != []
    ensures StudioMaxRawParamsFixed(scores).k > 0.0
    ensures |Present(scores)| >= 3 ==> StudioMaxRawParamsFixed(scores) == StudioMaxRawParams(scores)
  {
    var xs := Sort(Present(scores));
    var n := |xs|;
    StudioP90IndexInRange(n);
    if n >= 3 { StudioP90NotBelowMedian(n); }
    MedianFitPositive(xs, StudioP90IndexFixed(n));
  }

  // ------------------------------------------------- CLI, per question

  /** `1e-9`: below this spread the two reference scores count as equal. */
  const Tiny: real := 0.000000001

  /**
   * `_sigmoid_params_from_topk` with the logits of the two targets given
   * (`a = logit(target_top)`, `b = logit(target_k)`): maps the top score to
   * `a` and the last kept score to `b` on the logit scale.
   */
  function TopkParams(rawTop: seq<real>, a: real, b: real): (p: Params)
    requires a != b
  {
    if rawTop == [] then Identity
    else
      var hi := rawTop[0];
      var lo := rawTop[|rawTop| - 1];
      if Abs(hi - lo) < Tiny then Params(1.0, hi)
      else
        var k := (a - b) / (hi - lo);
        assert k != 0.0 by { NonZeroQuotient(a - b, hi - lo); }
        Params(k, hi - a / k)
  }

  lemma NonZeroQuotient(x: real, y: real)
    requires x != 0.0 && y != 0.0
    ensures x / y != 0.0
  {
  }

  /** Fallbacks: no scores gives (1, 0); a flat list centres on its top score with slope 1. */
  lemma TopkFallbacks(rawTop: seq<real>, a: real, b: real)
    requires a != b
    ensures rawTop == [] ==> TopkParams(rawTop, a, b) == Identity
    ensures rawTop != [] && Abs(rawTop[0] - rawTop[|rawTop| - 1]) < Tiny ==>
      TopkParams(rawTop, a, b) == Params(1.0, rawTop[0])
  {
  }

  /** Away from the fallbacks the fit is exact: k (hi - x0) = a and k (lo - x0) = b. */
  lemma TopkHitsTargets(rawTop: seq<real>, a: real, b: real)
    requires a != b && rawTop != []
    requires Abs(rawTop[0] - rawTop[|rawTop| - 1]) >= Tiny
    ensures var p := TopkParams(rawTop, a, b);
      p.k * (rawTop[0] - p.x0) == a && p.k * (rawTop[|rawTop| - 1] - p.x0) == b
  {
    var hi := rawTop[0];
    var lo := rawTop[|rawTop| - 1];
    var k := (a - b) / (hi - lo);
    NonZeroQuotient(a - b, hi - lo);
    var x0 := hi - a / k;
    assert k * (hi - x0) == k * (a / k) == a;
    assert k * (lo - x0) == k * (lo - hi) + a;
    assert k * (lo - hi) == -(a - b);
  }

  /** Scores arrive best first; with a higher top target the slope is positive. */
  lemma TopkSlopePositive(rawTop: seq<real>, a: real, b: real)
    requires a > b && rawTop != [] && rawTop[0] - rawTop[|rawTop| - 1] >= Tiny
    ensures TopkParams(rawTop, a, b).k > 0.0
  {
  }

  // ------------------------------------------------- CLI, global fit

  /** `math.log(0.75 / 0.25)`, the logit of 0.75, as the double the source computes. */
  const Ln3: real := 1.0986122886681098

  /** Python's `round(n / 4)`: nearest integer, ties to the even neighbour. */
  function RoundQuarter(n: nat): (r: nat)
    ensures 4 * r <= n + 2 && n <= 4 * r + 2
  {
    var q := n / 4;
    var rem := n % 4;
    if rem < 2 then q
    else if rem > 2 then q + 1
    else if q % 2 == 0 then q else q + 1
  }

  /** `num * m` for the quarter numerators used (0 to 4), written linearly. */
  function Times(num: nat, m: nat): (r: nat)
    requires num <= 4
    ensures r <= 4 * m
  {
    if num == 0 then 0 else if num == 1 then m else if num == 2 then 2 * m else if num == 3 then 3 * m else 4 * m
  }

  /** `int(round(p * (n - 1)))` for p = num / 4, taken exactly (quarters are exact in binary floating point). */
  function QuantileIndex(n: nat, num: nat): (r: nat)
    requires n > 0 && num <= 4
    ensures r < n
  {
    RoundQuarter(Times(num, n - 1))
  }

  lemma QuantileIndexMonotone(n: nat, a: nat, b: nat)
    requires n > 0 && a <= b <= 4
    ensures QuantileIndex(n, a) <= QuantileIndex(n, b)
  {
    RoundMonotone(Times(a, n - 1), Times(b, n - 1));
  }

  lemma RoundMonotone(x: nat, y: nat)
    requires x <= y
    ensures RoundQuarter(x) <= RoundQuarter(y)
  {
  }

  function Quantile(xs: seq<real>, num: nat): real
    requires xs != [] && num <= 4
  {
    xs[QuantileIndex(|xs|, num)]
  }

  /** The quartile fit: centre at the midpoint, slope 2 ln 3 over the spread. */
  function QuartileParams(q25: real, q75: real): Params
    requires q25 != q75
  {
    Params(2.0 * Ln3 / (q75 - q25), (q25 + q75) / 2.0)
  }

  /** The CLI's global fit from the sorted maxima. */
  function SortedFit(xs: seq<real>): Params
  {
    if xs == [] then Identity
    else if |xs| < 4 then Params(1.0, xs[|xs| / 2])
    else
      var q25 := Quantile(xs, 1);
      var q75 := Quantile(xs, 3);
      if Abs(q75 - q25) < Tiny then Params(1.0, Quantile(xs, 2))
      else QuartileParams(q25, q75)
  }

  /** `_sigmoid_params_from_max_raw` of the CLI. */
  function CliMaxRawParams(scores: seq<real>): Params
  {
    SortedFit(Sort(scores))
  }

  /**
   * The CLI fit of any scores: empty gives (1, 0); fewer than four are
   * centred on the middle value; flat quartiles are centred on the median;
   * otherwise the quartiles are distinct and give the quartile fit
   * (`QuartileFit`: +ln 3 and -ln 3 on the logit scale, positive slope).
   */
  lemma CliMaxRawSpec(scores: seq<real>)
    ensures scores == [] ==> CliMaxRawParams(scores) == Identity
    ensures 0 < |scores| < 4 ==> CliMaxRawParams(scores) == Params(1.0, Sort(scores)[|scores| / 2])
    ensures |scores| >= 4 && Abs(Quantile(Sort(scores), 3) - Quantile(Sort(scores), 1)) < Tiny ==>
      CliMaxRawParams(scores) == Params(1.0, Quantile(Sort(scores), 2))
    ensures |scores| >= 4 && Abs(Quantile(Sort(scores), 3) - Quantile(Sort(scores), 1)) >= Tiny ==>
      var q25 := Quantile(Sort(scores), 1);
      var q75 := Quantile(Sort(scores), 3);
      q25 < q75 && CliMaxRawParams(scores) == QuartileParams(q25, q75)
  {
    var xs := Sort(scores);
    if |xs| >= 4 && Abs(Quantile(xs, 3) - Quantile(xs, 1)) >= Tiny {
      SortedFitQuartiles(xs);
    }
  }

  /**
   * Away from the fallbacks the fit of the sorted scores is the quartile
   * fit, and the upper quartile lies above the lower one.
   */
  lemma SortedFitQuartiles(xs: seq<real>)
    requires Sorted(xs) && |xs| >= 4
    requires Abs(Quantile(xs, 3) - Quantile(xs, 1)) >= Tiny
    ensures Quantile(xs, 1) < Quantile(xs, 3)
    ensures SortedFit(xs) == QuartileParams(Quantile(xs, 1), Quantile(xs, 3))
  {
    var n := |xs|;
    QuantileIndexMonotone(n, 1, 3);
    SortedAt(xs, QuantileIndex(n, 1), QuantileIndex(n, 3));
  }

  lemma SortedAt(xs: seq<real>, i: nat, j: nat)
    requires Sorted(xs) && i <= j < |xs|
    ensures xs[i] <= xs[j]
  {
  }

  /**
   * The quartile fit maps the upper quartile to +ln 3 and the lower quartile
   * to -ln 3 on the logit scale (confidences 0.75 and 0.25), and its slope
   * is positive.
   */
  lemma QuartileFit(q25: real, q75: real)
    requires q25 < q75
    ensures var p := QuartileParams(q25, q75);
      p.k > 0.0 && p.k * (q75 - p.x0) == Ln3 && p.k * (q25 - p.x0) == -Ln3
  {
    var w := q75 - q25;
    var k := 2.0 * Ln3 / w;
    var x0 := (q25 + q75) / 2.0;
    PositiveQuotient(2.0 * Ln3, w);
    assert k * w == 2.0 * Ln3;
    assert q75 - x0 == w / 2.0;
    assert q25 - x0 == -(w / 2.0);
  }
}
