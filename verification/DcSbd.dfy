/**
 * The delay-based congestion estimator: per-interval statistics in a ring buffer,
 * and the summary formulas over the most recent of them. Delays are reals.
 */
module DcSbd {

  const N: nat := 50
  const M: nat := 30
  const F: nat := 20
  const FULL_HISTORY: nat := 2 * N
  const CROSSING_THRESHOLD: real := 0.7

  datatype Interval = Interval(count: nat, mean: real, skewBase: real, varBase: real)

  datatype Summary = Summary(
    intervals: nat, samples: nat, readyAfter: nat, fullHistoryAfter: nat,
    skew: real, variation: real, frequency: real,
    meanDelay: real, minDelay: real, maxDelay: real, measurementValid: bool)

  // ---- The formulas on the plain list of intervals -----------------------------------

  function Min(a: nat, b: nat): nat {
    if a < b then a else b
  }

  function Weight(age: nat): nat
    requires age < M
  {
    if age < F then M - F + 1 else M - age
  }

  function Weighted(age: nat, x: real): real
    requires age < M
  {
    Weight(age) as real * x
  }

  function Abs(x: real): real {
    if x < 0.0 then -x else x
  }

  function Sum(xs: seq<real>): real {
    if |xs| == 0 then 0.0 else Sum(xs[..|xs| - 1]) + xs[|xs| - 1]
  }

  function MinOf(xs: seq<real>): (m: real)
    requires |xs| > 0
    ensures m in xs && forall i :: 0 <= i < |xs| ==> m <= xs[i]
  {
    if |xs| == 1 then xs[0]
    else
      var m := MinOf(xs[..|xs| - 1]);
      if xs[|xs| - 1] < m then xs[|xs| - 1] else m
  }

  function MaxOf(xs: seq<real>): (m: real)
    requires |xs| > 0
    ensures m in xs && forall i :: 0 <= i < |xs| ==> m >= xs[i]
  {
    if |xs| == 1 then xs[0]
    else
      var m := MaxOf(xs[..|xs| - 1]);
      if xs[|xs| - 1] > m then xs[|xs| - 1] else m
  }

  // -1, 0 or 1 as a delay lies above, at or below the earlier mean.
  function SkewSign(delay: real, mean: real): real {
    if delay < mean then 1.0 else if delay > mean then -1.0 else 0.0
  }

  function SkewSum(xs: seq<real>, mean: real): real {
    if |xs| == 0 then 0.0 else SkewSum(xs[..|xs| - 1], mean) + SkewSign(xs[|xs| - 1], mean)
  }

  function VarSum(xs: seq<real>, mean: real): real {
    if |xs| == 0 then 0.0 else VarSum(xs[..|xs| - 1], mean) + Abs(xs[|xs| - 1] - mean)
  }

  // The sum of the means of the last k intervals.
  function MeanSum(h: seq<Interval>, k: nat): real
    requires k <= |h|
  {
    if k == 0 then 0.0 else MeanSum(h, k - 1) + h[|h| - k].mean
  }

  function MeanOfMeans(h: seq<Interval>): real {
    var k := Min(|h|, M);
    if k == 0 then 0.0 else MeanSum(h, k) / k as real
  }

  // The statistics of an interval that follows the intervals h.
  function IntervalOf(xs: seq<real>, h: seq<Interval>): Interval
    requires |xs| > 0
  {
    var mean := Sum(xs) / |xs| as real;
    Interval(|xs|, mean, if |h| == 0 then 0.0 else SkewSum(xs, MeanOfMeans(h)), VarSum(xs, mean))
  }

  function WeightedSkew(h: seq<Interval>, ages: nat): real
    requires ages <= |h| && ages <= M
  {
    if ages == 0 then 0.0 else WeightedSkew(h, ages - 1) + Weighted(ages - 1, h[|h| - ages].skewBase)
  }

  function WeightedVariation(h: seq<Interval>, ages: nat): real
    requires ages <= |h| && ages <= M
  {
    if ages == 0 then 0.0 else WeightedVariation(h, ages - 1) + Weighted(ages - 1, h[|h| - ages].varBase)
  }

  function WeightedCount(h: seq<Interval>, ages: nat): real
    requires ages <= |h| && ages <= M
  {
    if ages == 0 then 0.0 else WeightedCount(h, ages - 1) + Weighted(ages - 1, h[|h| - ages].count as real)
  }

  function Skew(h: seq<Interval>): real {
    var k := Min(|h|, M);
    if WeightedCount(h, k) == 0.0 then 0.0 else WeightedSkew(h, k) / WeightedCount(h, k)
  }

  function Variation(h: seq<Interval>): real {
    var k := Min(|h|, M);
    if WeightedCount(h, k) == 0.0 then 0.0 else WeightedVariation(h, k) / WeightedCount(h, k)
  }

  // Which side of the band around the centre a mean lies on.
  function Side(mean: real, centre: real, band: real): int {
    if mean > centre + band then 1 else if mean < centre - band then -1 else 0
  }

  // How often the means of the last `age` intervals, oldest first, cross the band, coming
  // from side `previous`.
  function Crossings(h: seq<Interval>, age: nat, centre: real, band: real, previous: int): nat
    requires age <= |h|
  {
    if age == 0 then 0
    else
      var side := Side(h[|h| - age].mean, centre, band);
      if side == 0 then Crossings(h, age - 1, centre, band, previous)
      else (if previous != 0 && side != previous then 1 else 0) + Crossings(h, age - 1, centre, band, side)
  }

  function Frequency(h: seq<Interval>): real {
    Crossings(h, Min(|h|, N), MeanOfMeans(h), CROSSING_THRESHOLD * Variation(h), 0) as real / N as real
  }

  // ---- Bounds -----------------------------------------------------------------------------

  // Every interval has samples, each of which moves the skew by at most one.
  ghost predicate Sane(h: seq<Interval>) {
    forall i :: 0 <= i < |h| ==> h[i].count > 0 && Abs(h[i].skewBase) <= h[i].count as real && h[i].varBase >= 0.0
  }

  lemma {:induction false} SkewSumBound(xs: seq<real>, mean: real)
    ensures Abs(SkewSum(xs, mean)) <= |xs| as real
  {
    if |xs| > 0 {
      SkewSumBound(xs[..|xs| - 1], mean);
    }
  }

  lemma {:induction false} VarSumBound(xs: seq<real>, mean: real)
    ensures VarSum(xs, mean) >= 0.0
  {
    if |xs| > 0 {
      VarSumBound(xs[..|xs| - 1], mean);
    }
  }

  lemma IntervalIsSane(xs: seq<real>, h: seq<Interval>)
    requires |xs| > 0 && Sane(h)
    ensures Sane(h + [IntervalOf(xs, h)])
  {
    SkewSumBound(xs, MeanOfMeans(h));
    VarSumBound(xs, Sum(xs) / |xs| as real);
  }

  lemma Scale(w: real, x: real, c: real)
    requires w > 0.0 && Abs(x) <= c
    ensures Abs(w * x) <= w * c
  {
    Product(w, c - x);
    Product(w, c + x);
    assert w * (c - x) == w * c - w * x && w * (c + x) == w * c + w * x;
  }

  lemma Product(w: real, x: real)
    requires w > 0.0 && x >= 0.0
    ensures w * x >= 0.0 && (x > 0.0 ==> w * x > 0.0)
  {
  }

  // One interval's share of the weighted sums.
  lemma Share(age: nat, e: Interval)
    requires age < M && e.count > 0 && Abs(e.skewBase) <= e.count as real && e.varBase >= 0.0
    ensures Abs(Weighted(age, e.skewBase)) <= Weighted(age, e.count as real)
    ensures Weighted(age, e.varBase) >= 0.0 && Weighted(age, e.count as real) > 0.0
  {
    var w, c := Weight(age) as real, e.count as real;
    assert c > 0.0;
    Scale(w, e.skewBase, c);
    Product(w, e.varBase);
    Product(w, c);
    assert Weighted(age, c) == w * c;
  }

  lemma {:induction false} WeightedBounds(h: seq<Interval>, ages: nat)
    requires Sane(h) && ages <= |h| && ages <= M
    ensures Abs(WeightedSkew(h, ages)) <= WeightedCount(h, ages)
    ensures WeightedVariation(h, ages) >= 0.0
    ensures ages > 0 ==> WeightedCount(h, ages) > 0.0
  {
    if ages > 0 {
      WeightedBounds(h, ages - 1);
      Share(ages - 1, h[|h| - ages]);
    }
  }

  lemma {:induction false} CrossingsBound(h: seq<Interval>, age: nat, centre: real, band: real, previous: int)
    requires age <= |h|
    ensures Crossings(h, age, centre, band, previous) <= age
    ensures previous == 0 && age > 0 ==> Crossings(h, age, centre, band, previous) < age
    decreases age
  {
    if age > 0 {
      var side := Side(h[|h| - age].mean, centre, band);
      CrossingsBound(h, age - 1, centre, band, if side == 0 then previous else side);
    }
  }

  /** Over the reals, skew stays in [-1, 1], variation is not negative and frequency is in [0, 1). */
  lemma SummaryBounds(h: seq<Interval>)
    requires Sane(h)
    ensures -1.0 <= Skew(h) <= 1.0 && Variation(h) >= 0.0 && 0.0 <= Frequency(h) < 1.0
  {
    var k := Min(|h|, M);
    WeightedBounds(h, k);
    CrossingsBound(h, Min(|h|, N), MeanOfMeans(h), CROSSING_THRESHOLD * Variation(h), 0);
    if |h| > 0 {
      var c, s, v := WeightedCount(h, k), WeightedSkew(h, k), WeightedVariation(h, k);
      Quotient(s, c);
      assert v / c >= 0.0;
    }
  }

  lemma Quotient(s: real, c: real)
    requires c > 0.0 && Abs(s) <= c
    ensures -1.0 <= s / c <= 1.0
  {
    assert s / c * c == s;
  }

  // ---- What the formulas tell of the delays ----------------------------------------------------

  /** The newest intervals weigh the same, older ones less and less. */
  lemma WeightsFade(a: nat, b: nat)
    requires a <= b < M
    ensures Weight(a) >= Weight(b) > 0
    ensures b < F ==> Weight(a) == Weight(b)
    ensures F <= b && a < b ==> Weight(a) > Weight(b)
    ensures F <= b ==> Weight(b) == M - b
  {
  }

  // All samples lie above a mean, or all below it.
  ghost predicate AllBeyond(xs: seq<real>, mean: real, above: bool) {
    forall i :: 0 <= i < |xs| ==> if above then xs[i] > mean else xs[i] < mean
  }

  lemma {:induction false} SkewOfBeyond(xs: seq<real>, mean: real, above: bool)
    requires AllBeyond(xs, mean, above)
    ensures SkewSum(xs, mean) == if above then -(|xs| as real) else |xs| as real
  {
    if |xs| > 0 {
      SkewOfBeyond(xs[..|xs| - 1], mean, above);
    }
  }

  // From the second one on, every sample of an interval is above (or below) what went before.
  ghost predicate Drifting(h: seq<Interval>, above: bool) {
    forall i :: 0 <= i < |h| ==>
      && h[i].count > 0
      && h[i].skewBase == if i == 0 then 0.0 else if above then -(h[i].count as real) else h[i].count as real
  }

  lemma {:induction false} DriftWeighs(h: seq<Interval>, ages: nat, above: bool)
    requires Drifting(h, above) && ages <= |h| && ages <= M
    ensures var s, c := WeightedSkew(h, ages), WeightedCount(h, ages);
      && (if above then -c <= s <= 0.0 else 0.0 <= s <= c) && (ages > 0 ==> c > 0.0)
      && (ages > 0 && |h| > 1 ==> if above then s < 0.0 else s > 0.0)
      && (ages < |h| ==> s == if above then -c else c)
  {
    if ages > 0 {
      DriftWeighs(h, ages - 1, above);
      var e, w := h[|h| - ages], Weight(ages - 1) as real;
      Product(w, e.count as real);
      assert Weighted(ages - 1, e.count as real) == w * (e.count as real) > 0.0;
      assert Weighted(ages - 1, -(e.count as real)) == -(w * (e.count as real));
      assert Weighted(ages - 1, 0.0) == 0.0;
    }
  }

  lemma QuotientSign(s: real, c: real)
    requires c > 0.0
    ensures (s / c > 0.0 <==> s > 0.0) && (s / c < 0.0 <==> s < 0.0)
    ensures (s == c ==> s / c == 1.0) && (s == -c ==> s / c == -1.0)
  {
    var q := s / c;
    assert q * c == s;
    if s == -c {
      assert (q + 1.0) * c == 0.0;
    }
  }

  /** Rising delays skew the summary towards -1, which a full history reaches; falling ones towards 1. */
  lemma DriftSkews(h: seq<Interval>, above: bool)
    requires Drifting(h, above) && |h| > 1
    ensures if above then -1.0 <= Skew(h) < 0.0 else 0.0 < Skew(h) <= 1.0
    ensures |h| > M ==> Skew(h) == if above then -1.0 else 1.0
  {
    var k := Min(|h|, M);
    DriftWeighs(h, k, above);
    var s, c := WeightedSkew(h, k), WeightedCount(h, k);
    Quotient(s, c);
    QuotientSign(s, c);
  }

  // The samples of every interval but the first lie beyond the mean of the intervals before.
  ghost predicate AllDrift(past: seq<seq<real>>, above: bool)
    requires AllSampled(past)
  {
    forall i :: 0 < i < |past| ==> AllBeyond(past[i], MeanOfMeans(Intervals(past[..i])), above)
  }

  lemma {:induction false} DriftIsSeen(past: seq<seq<real>>, above: bool)
    requires AllSampled(past) && AllDrift(past, above)
    ensures |Intervals(past)| == |past| && Drifting(Intervals(past), above)
  {
    if |past| > 0 {
      var rest, xs := past[..|past| - 1], past[|past| - 1];
      assert forall i :: 0 <= i < |rest| ==> rest[..i] == past[..i];
      DriftIsSeen(rest, above);
      if |rest| > 0 {
        SkewOfBeyond(xs, MeanOfMeans(Intervals(rest)), above);
      }
    }
  }

  /** The same of the samples themselves. */
  lemma DriftIsReported(past: seq<seq<real>>, above: bool)
    requires AllSampled(past) && AllDrift(past, above) && |past| > 1
    ensures var skew := SummaryOf(past).skew;
      && (if above then -1.0 <= skew < 0.0 else 0.0 < skew <= 1.0)
      && (|past| > M ==> skew == if above then -1.0 else 1.0)
  {
    DriftIsSeen(past, above);
    DriftSkews(Intervals(past), above);
  }

  // Not on the other side of the band.
  ghost predicate OnSide(mean: real, centre: real, band: real, side: int) {
    if side == 1 then mean >= centre - band else mean <= centre + band
  }

  ghost predicate AllOnSide(h: seq<Interval>, age: nat, centre: real, band: real, side: int)
    requires age <= |h|
  {
    forall i :: |h| - age <= i < |h| ==> OnSide(h[i].mean, centre, band, side)
  }

  ghost predicate StartsOn(previous: int, side: int) {
    (side == -1 || side == 1) && (previous == 0 || previous == side)
  }

  /** There is no crossing iff no mean is on the other side of the band than another, or than `previous`. */
  lemma {:induction false} NoCrossing(h: seq<Interval>, age: nat, centre: real, band: real, previous: int)
    requires age <= |h| && -1 <= previous <= 1 && band >= 0.0
    ensures Crossings(h, age, centre, band, previous) == 0 <==>
      exists side :: StartsOn(previous, side) && AllOnSide(h, age, centre, band, side)
    decreases age
  {
    if age == 0 {
      var side := if previous == 0 then 1 else previous;
      assert StartsOn(previous, side) && AllOnSide(h, age, centre, band, side);
    } else {
      var mean := h[|h| - age].mean;
      var next := Side(mean, centre, band);
      var after := if next == 0 then previous else next;
      NoCrossing(h, age - 1, centre, band, after);
      forall side | side == -1 || side == 1
        ensures AllOnSide(h, age, centre, band, side) <==> next != -side && AllOnSide(h, age - 1, centre, band, side)
      {
      }
      if Crossings(h, age, centre, band, previous) == 0 {
        var side :| StartsOn(after, side) && AllOnSide(h, age - 1, centre, band, side);
        assert StartsOn(previous, side) && AllOnSide(h, age, centre, band, side);
      }
      if side :| StartsOn(previous, side) && AllOnSide(h, age, centre, band, side) {
        assert StartsOn(after, side);
      }
    }
  }

  lemma {:induction false} SteadySums(xs: seq<real>, d: real)
    requires forall i :: 0 <= i < |xs| ==> xs[i] == d
    ensures Sum(xs) == |xs| as real * d && SkewSum(xs, d) == 0.0 && VarSum(xs, d) == 0.0
  {
    if |xs| > 0 {
      SteadySums(xs[..|xs| - 1], d);
    }
  }

  // Every interval measured the same delay throughout.
  ghost predicate Steady(h: seq<Interval>, d: real) {
    forall i :: 0 <= i < |h| ==> h[i].mean == d && h[i].skewBase == 0.0 && h[i].varBase == 0.0
  }

  lemma {:induction false} SteadyMeanSum(h: seq<Interval>, d: real, k: nat)
    requires Steady(h, d) && k <= |h|
    ensures MeanSum(h, k) == k as real * d
  {
    if k > 0 {
      SteadyMeanSum(h, d, k - 1);
    }
  }

  lemma SteadyMean(h: seq<Interval>, d: real)
    requires Steady(h, d) && |h| > 0
    ensures MeanOfMeans(h) == d
  {
    var k := Min(|h|, M);
    SteadyMeanSum(h, d, k);
    EqualShares(MeanSum(h, k), k as real, d);
  }

  lemma EqualShares(sum: real, k: real, d: real)
    requires k > 0.0 && sum == k * d
    ensures sum / k == d
  {
  }

  lemma {:induction false} SteadyWeighted(h: seq<Interval>, d: real, ages: nat)
    requires Steady(h, d) && ages <= |h| && ages <= M
    ensures WeightedSkew(h, ages) == 0.0 && WeightedVariation(h, ages) == 0.0
  {
    if ages > 0 {
      SteadyWeighted(h, d, ages - 1);
    }
  }

  lemma SteadyMetrics(h: seq<Interval>, d: real)
    requires Steady(h, d) && |h| > 0
    ensures Skew(h) == 0.0 && Variation(h) == 0.0 && Frequency(h) == 0.0
  {
    SteadyWeighted(h, d, Min(|h|, M));
    SteadyMean(h, d);
    assert AllOnSide(h, Min(|h|, N), d, 0.0, 1) && StartsOn(0, 1);
    NoCrossing(h, Min(|h|, N), d, 0.0, 0);
  }

  lemma {:induction false} SteadyIntervals(past: seq<seq<real>>, d: real)
    requires AllSampled(past) && forall i, k :: 0 <= i < |past| && 0 <= k < |past[i]| ==> past[i][k] == d
    ensures |Intervals(past)| == |past| && Steady(Intervals(past), d)
  {
    if |past| > 0 {
      var rest, xs := past[..|past| - 1], past[|past| - 1];
      SteadyIntervals(rest, d);
      SteadySums(xs, d);
      EqualShares(Sum(xs), |xs| as real, d);
      if |rest| > 0 {
        SteadyMean(Intervals(rest), d);
      }
    }
  }

  /** A delay that never changes shows as no skew, no variation and no oscillation. */
  lemma SteadyIsQuiet(past: seq<seq<real>>, d: real)
    requires AllSampled(past) && |past| > 0
    requires forall i, k :: 0 <= i < |past| && 0 <= k < |past[i]| ==> past[i][k] == d
    ensures var s := SummaryOf(past);
      && s.skew == 0.0 && s.variation == 0.0 && s.frequency == 0.0
      && s.meanDelay == d && s.minDelay == d && s.maxDelay == d
  {
    var xs := past[|past| - 1];
    SteadyIntervals(past, d);
    SteadyMetrics(Intervals(past), d);
    SteadySums(xs, d);
    EqualShares(Sum(xs), |xs| as real, d);
  }

  // ---- Clock offset ------------------------------------------------------------------------------

  // The samples as a clock that is off by c measures them.
  ghost function Offset(xs: seq<real>, c: real): seq<real> {
    seq(|xs|, i requires 0 <= i < |xs| => xs[i] + c)
  }

  ghost function AllOffset(past: seq<seq<real>>, c: real): (r: seq<seq<real>>)
    ensures |r| == |past|
  {
    seq(|past|, i requires 0 <= i < |past| => Offset(past[i], c))
  }

  lemma OffsetInit(xs: seq<real>, c: real)
    requires |xs| > 0
    ensures Offset(xs, c)[..|xs| - 1] == Offset(xs[..|xs| - 1], c) && Offset(xs, c)[|xs| - 1] == xs[|xs| - 1] + c
  {
  }

  lemma {:induction false} OffsetSum(xs: seq<real>, c: real)
    ensures Sum(Offset(xs, c)) == Sum(xs) + |xs| as real * c
  {
    if |xs| > 0 {
      OffsetInit(xs, c);
      OffsetSum(xs[..|xs| - 1], c);
    }
  }

  lemma {:induction false} OffsetSums(xs: seq<real>, c: real, mean: real)
    ensures SkewSum(Offset(xs, c), mean + c) == SkewSum(xs, mean)
    ensures VarSum(Offset(xs, c), mean + c) == VarSum(xs, mean)
  {
    if |xs| > 0 {
      OffsetInit(xs, c);
      OffsetSums(xs[..|xs| - 1], c, mean);
    }
  }

  lemma {:induction false} OffsetExtremes(xs: seq<real>, c: real)
    requires |xs| > 0
    ensures MinOf(Offset(xs, c)) == MinOf(xs) + c && MaxOf(Offset(xs, c)) == MaxOf(xs) + c
  {
    if |xs| > 1 {
      OffsetInit(xs, c);
      OffsetExtremes(xs[..|xs| - 1], c);
    }
  }

  // The same intervals but for their means.
  ghost predicate MeansOffset(h: seq<Interval>, g: seq<Interval>, c: real) {
    |g| == |h| && forall i :: 0 <= i < |h| ==> g[i] == h[i].(mean := h[i].mean + c)
  }

  lemma Average(total: real, sum: real, k: real, c: real)
    requires k > 0.0 && total == sum + k * c
    ensures total / k == sum / k + c
  {
    assert (sum / k + c) * k == sum + k * c;
  }

  lemma OffsetAverage(xs: seq<real>, c: real)
    requires |xs| > 0
    ensures Sum(Offset(xs, c)) / |xs| as real == Sum(xs) / |xs| as real + c
  {
    OffsetSum(xs, c);
    Average(Sum(Offset(xs, c)), Sum(xs), |xs| as real, c);
  }

  lemma {:induction false} OffsetMeanSum(h: seq<Interval>, g: seq<Interval>, c: real, k: nat)
    requires MeansOffset(h, g, c) && k <= |h|
    ensures MeanSum(g, k) == MeanSum(h, k) + k as real * c
  {
    if k > 0 {
      OffsetMeanSum(h, g, c, k - 1);
    }
  }

  lemma OffsetMean(h: seq<Interval>, g: seq<Interval>, c: real)
    requires MeansOffset(h, g, c) && |h| > 0
    ensures MeanOfMeans(g) == MeanOfMeans(h) + c
  {
    var k := Min(|h|, M);
    OffsetMeanSum(h, g, c, k);
    Average(MeanSum(g, k), MeanSum(h, k), k as real, c);
  }

  lemma {:induction false} OffsetWeighted(h: seq<Interval>, g: seq<Interval>, c: real, ages: nat)
    requires MeansOffset(h, g, c) && ages <= |h| && ages <= M
    ensures WeightedSkew(g, ages) == WeightedSkew(h, ages) && WeightedVariation(g, ages) == WeightedVariation(h, ages)
    ensures WeightedCount(g, ages) == WeightedCount(h, ages)
  {
    if ages > 0 {
      OffsetWeighted(h, g, c, ages - 1);
    }
  }

  lemma {:induction false} OffsetCrossings(
    h: seq<Interval>, g: seq<Interval>, c: real, age: nat, centre: real, band: real, previous: int
  )
    requires MeansOffset(h, g, c) && age <= |h|
    ensures Crossings(g, age, centre + c, band, previous) == Crossings(h, age, centre, band, previous)
    decreases age
  {
    if age > 0 {
      var side := Side(h[|h| - age].mean, centre, band);
      OffsetCrossings(h, g, c, age - 1, centre, band, if side == 0 then previous else side);
    }
  }

  lemma OffsetMetrics(h: seq<Interval>, g: seq<Interval>, c: real)
    requires MeansOffset(h, g, c) && |h| > 0
    ensures Skew(g) == Skew(h) && Variation(g) == Variation(h) && Frequency(g) == Frequency(h)
  {
    OffsetWeighted(h, g, c, Min(|h|, M));
    OffsetMean(h, g, c);
    OffsetCrossings(h, g, c, Min(|h|, N), MeanOfMeans(h), CROSSING_THRESHOLD * Variation(h), 0);
  }

  lemma OffsetInterval(xs: seq<real>, h: seq<Interval>, g: seq<Interval>, c: real)
    requires |xs| > 0 && MeansOffset(h, g, c)
    ensures MeansOffset(h + [IntervalOf(xs, h)], g + [IntervalOf(Offset(xs, c), g)], c)
  {
    OffsetAverage(xs, c);
    OffsetSums(xs, c, Sum(xs) / |xs| as real);
    if |h| > 0 {
      OffsetMean(h, g, c);
      OffsetSums(xs, c, MeanOfMeans(h));
    }
  }

  lemma {:induction false} OffsetIntervals(past: seq<seq<real>>, c: real)
    requires AllSampled(past)
    ensures AllSampled(AllOffset(past, c)) && MeansOffset(Intervals(past), Intervals(AllOffset(past, c)), c)
  {
    if |past| > 0 {
      var rest, xs := past[..|past| - 1], past[|past| - 1];
      OffsetIntervals(rest, c);
      OffsetInterval(xs, Intervals(rest), Intervals(AllOffset(rest, c)), c);
      assert AllOffset(past, c)[..|past| - 1] == AllOffset(rest, c);
    }
  }

  /** A clock offset moves the delays of the summary and leaves skew, variation and frequency alone. */
  lemma OffsetIsIrrelevant(past: seq<seq<real>>, c: real)
    requires AllSampled(past) && |past| > 0
    ensures AllSampled(AllOffset(past, c))
    ensures var s := SummaryOf(past);
      SummaryOf(AllOffset(past, c)) ==
        s.(meanDelay := s.meanDelay + c, minDelay := s.minDelay + c, maxDelay := s.maxDelay + c)
  {
    var xs := past[|past| - 1];
    IntervalsSane(past);
    OffsetIntervals(past, c);
    OffsetMetrics(Intervals(past), Intervals(AllOffset(past, c)), c);
    OffsetAverage(xs, c);
    OffsetExtremes(xs, c);
    assert AllOffset(past, c)[|past| - 1] == Offset(xs, c);
  }

  // ---- The ring buffer ------------------------------------------------------------------

  // The place of the interval of a given age, the cursor being at age zero.
  function Slot(cursor: nat, age: nat): (k: nat)
    requires cursor < N && age <= N
    ensures k < N
  {
    (cursor + N - age) % N
  }

  // Ages count back from the interval number n.
  lemma SlotOfAge(n: nat, age: nat)
    requires age <= n && age <= N
    ensures Slot(n % N, age) == (n - age) % N
  {
    var q, r := n / N, n % N;
    assert n == q * N + r;
    if age <= r {
      assert n - age == q * N + (r - age);
      assert (r + N - age) % N == r - age;
      assert (n - age) % N == r - age;
    } else {
      assert n - age == (q - 1) * N + (r + N - age);
      assert (n - age) % N == r + N - age;
    }
  }

  lemma NextSlot(n: nat)
    ensures (n % N + 1) % N == (n + 1) % N
  {
    var q, r := n / N, n % N;
    assert n + 1 == q * N + (r + 1);
    if r + 1 == N {
      assert n + 1 == (q + 1) * N;
    }
  }

  // The ring holds the last `size` intervals of h, each at its number modulo N.
  ghost predicate RingHolds(ring: seq<Interval>, h: seq<Interval>, size: nat) {
    |ring| == N && size <= |h| && size <= N && forall k {:trigger h[k]} :: |h| - size <= k < |h| ==> ring[k % N] == h[k]
  }

  lemma ReadRing(ring: seq<Interval>, h: seq<Interval>, size: nat, n: nat, age: nat)
    requires RingHolds(ring, h, size) && age <= n < |h| + age && age <= N && |h| - size <= n - age
    ensures ring[Slot(n % N, age)] == h[n - age]
  {
    SlotOfAge(n, age);
  }

  // Writing the next interval overwrites the oldest once the ring is full.
  lemma StoreRing(ring: seq<Interval>, h: seq<Interval>, x: Interval)
    requires RingHolds(ring, h, Min(|h|, N))
    ensures RingHolds(ring[|h| % N := x], h + [x], Min(|h| + 1, N))
  {
    forall k | |h| + 1 - Min(|h| + 1, N) <= k < |h| ensures k % N != |h| % N {
      SlotOfAge(|h|, |h| - k);
      assert 0 < |h| - k < N;
    }
  }

  // The interval of a given age, counted back from interval n at the cursor.
  method ReadAge(ring: array<Interval>, cursor: nat, age: nat, ghost h: seq<Interval>, ghost n: nat) returns (r: Interval)
    requires RingHolds(ring[..], h, Min(|h|, N)) && cursor == n % N
    requires age <= n < |h| + age && age <= N && |h| - Min(|h|, N) <= n - age
    ensures r == h[n - age]
  {
    ReadRing(ring[..], h, Min(|h|, N), n, age);
    r := ring[Slot(cursor, age)];
  }

  // The sum of the means of the last k intervals; the newest has age `first`.
  method SumMeans(ring: array<Interval>, cursor: nat, first: nat, k: nat, ghost h: seq<Interval>) returns (sum: real)
    requires first <= 1 && k <= M && k <= |h| && |h| + first > 0 && cursor == (|h| - 1 + first) % N
    requires RingHolds(ring[..], h, Min(|h|, N))
    ensures sum == MeanSum(h, k)
  {
    sum := 0.0;
    for i := 0 to k
      invariant sum == MeanSum(h, i)
    {
      var interval := ReadAge(ring, cursor, i + first, h, |h| - 1 + first);
      sum := sum + interval.mean;
    }
  }

  // The three weighted sums over the last k intervals, the newest at the cursor.
  method WeightedSums(ring: array<Interval>, cursor: nat, k: nat, ghost h: seq<Interval>)
    returns (skew: real, variation: real, count: real)
    requires k <= M && k <= |h| && |h| > 0 && cursor == (|h| - 1) % N
    requires RingHolds(ring[..], h, Min(|h|, N))
    ensures skew == WeightedSkew(h, k) && variation == WeightedVariation(h, k) && count == WeightedCount(h, k)
  {
    skew, variation, count := 0.0, 0.0, 0.0;
    for age := 0 to k
      invariant skew == WeightedSkew(h, age) && variation == WeightedVariation(h, age) && count == WeightedCount(h, age)
    {
      var interval := ReadAge(ring, cursor, age, h, |h| - 1);
      skew := skew + Weighted(age, interval.skewBase);
      variation := variation + Weighted(age, interval.varBase);
      count := count + Weighted(age, interval.count as real);
    }
  }

  // Crossings over all intervals in the ring, oldest first.
  method CountCrossings(ring: array<Interval>, cursor: nat, size: nat, centre: real, band: real, ghost h: seq<Interval>)
    returns (count: nat)
    requires |h| > 0 && size == Min(|h|, N) && cursor == (|h| - 1) % N
    requires RingHolds(ring[..], h, size)
    ensures count == Crossings(h, size, centre, band, 0)
  {
    count := 0;
    var previous, age := 0, size;
    while age > 0
      invariant 0 <= age <= size
      invariant count + Crossings(h, age, centre, band, previous) == Crossings(h, size, centre, band, 0)
    {
      var interval := ReadAge(ring, cursor, age - 1, h, |h| - 1);
      var side := Side(interval.mean, centre, band);
      if side != 0 {
        count := count + if previous != 0 && side != previous then 1 else 0;
        previous := side;
      }
      age := age - 1;
    }
  }

  // Sum, smallest and largest of the samples.
  method Scan(xs: seq<real>) returns (sum: real, lo: real, hi: real)
    requires |xs| > 0
    ensures sum == Sum(xs) && lo == MinOf(xs) && hi == MaxOf(xs)
  {
    assert xs[..1][..0] == [];
    sum, lo, hi := xs[0], xs[0], xs[0];
    for i := 1 to |xs|
      invariant sum == Sum(xs[..i]) && lo == MinOf(xs[..i]) && hi == MaxOf(xs[..i])
    {
      assert xs[..i + 1][..i] == xs[..i];
      sum := sum + xs[i];
      lo := if xs[i] < lo then xs[i] else lo;
      hi := if xs[i] > hi then xs[i] else hi;
    }
    assert xs[..|xs|] == xs;
  }

  // The statistics of the samples of one interval.
  method Measure(xs: seq<real>, hasPrevious: bool, previousMean: real) returns (r: Interval, lo: real, hi: real)
    requires |xs| > 0
    ensures var mean := Sum(xs) / |xs| as real;
      r == Interval(|xs|, mean, if hasPrevious then SkewSum(xs, previousMean) else 0.0, VarSum(xs, mean))
    ensures lo == MinOf(xs) && hi == MaxOf(xs)
  {
    var sum;
    sum, lo, hi := Scan(xs);
    var mean := sum / |xs| as real;
    var skewBase, varBase := 0.0, 0.0;
    for i := 0 to |xs|
      invariant skewBase == if hasPrevious then SkewSum(xs[..i], previousMean) else 0.0
      invariant varBase == VarSum(xs[..i], mean)
    {
      assert xs[..i + 1][..i] == xs[..i];
      if hasPrevious {
        skewBase := skewBase + SkewSign(xs[i], previousMean);
      }
      varBase := varBase + Abs(xs[i] - mean);
    }
    assert xs[..|xs|] == xs;
    r := Interval(|xs|, mean, skewBase, varBase);
  }

  // ---- The estimator ------------------------------------------------------------------------

  // All intervals since the last reset, from their raw samples.
  ghost function Intervals(past: seq<seq<real>>): seq<Interval>
    requires forall i :: 0 <= i < |past| ==> |past[i]| > 0
  {
    if |past| == 0 then []
    else
      var earlier := Intervals(past[..|past| - 1]);
      earlier + [IntervalOf(past[|past| - 1], earlier)]
  }

  lemma {:induction false} IntervalsSane(past: seq<seq<real>>)
    requires forall i :: 0 <= i < |past| ==> |past[i]| > 0
    ensures |Intervals(past)| == |past| && Sane(Intervals(past))
  {
    if |past| > 0 {
      IntervalsSane(past[..|past| - 1]);
      IntervalIsSane(past[|past| - 1], Intervals(past[..|past| - 1]));
    }
  }

  lemma IntervalsAppend(past: seq<seq<real>>, xs: seq<real>)
    requires (forall i :: 0 <= i < |past| ==> |past[i]| > 0) && |xs| > 0
    ensures Intervals(past + [xs]) == Intervals(past) + [IntervalOf(xs, Intervals(past))]
  {
    assert (past + [xs])[..|past|] == past;
  }

  method Record(ring: array<Interval>, cursor: nat, x: Interval, ghost h: seq<Interval>)
    requires ring.Length == N && cursor == |h| % N && RingHolds(ring[..], h, Min(|h|, N))
    modifies ring
    ensures RingHolds(ring[..], h + [x], Min(|h| + 1, N))
  {
    ghost var before := ring[..];
    StoreRing(before, h, x);
    ring[cursor] := x;
    assert ring[..] == before[cursor := x];
  }

  // The statistics of the interval that follows those in the ring.
  method NextInterval(ring: array<Interval>, cursor: nat, size: nat, xs: seq<real>, ghost h: seq<Interval>)
    returns (r: Interval, lo: real, hi: real)
    requires |xs| > 0 && size == Min(|h|, N) && cursor == |h| % N && RingHolds(ring[..], h, size)
    ensures r == IntervalOf(xs, h) && lo == MinOf(xs) && hi == MaxOf(xs)
  {
    var k := Min(size, M);
    var previousMean := SumMeans(ring, cursor, 1, k, h);
    if k > 0 {
      previousMean := previousMean / k as real;
    }
    r, lo, hi := Measure(xs, k > 0, previousMean);
  }

  // Skew, variation and frequency of the intervals in the ring, the newest at the cursor.
  method Metrics(ring: array<Interval>, cursor: nat, size: nat, ghost h: seq<Interval>)
    returns (skew: real, variation: real, frequency: real)
    requires |h| > 0 && size == Min(|h|, N) && cursor == (|h| - 1) % N
    requires RingHolds(ring[..], h, size) && Sane(h)
    ensures skew == Skew(h) && variation == Variation(h) && frequency == Frequency(h)
    ensures -1.0 <= skew <= 1.0 && variation >= 0.0 && 0.0 <= frequency < 1.0
  {
    SummaryBounds(h);
    var k := Min(size, M);
    var weightedSkew, weightedVariation, weightedSamples := WeightedSums(ring, cursor, k, h);
    skew, variation := 0.0, 0.0;
    if weightedSamples != 0.0 {
      skew, variation := weightedSkew / weightedSamples, weightedVariation / weightedSamples;
    }
    var centre := SumMeans(ring, cursor, 0, k, h);
    centre := centre / k as real;
    var crossings := CountCrossings(ring, cursor, size, centre, CROSSING_THRESHOLD * variation, h);
    frequency := crossings as real / N as real;
  }

  ghost predicate AllSampled(past: seq<seq<real>>) {
    forall i :: 0 <= i < |past| ==> |past[i]| > 0
  }

  // The summary that the plain list of intervals, newest last, calls for.
  ghost function SummaryOf(past: seq<seq<real>>): Summary
    requires AllSampled(past) && |past| > 0
  {
    var h, xs := Intervals(past), past[|past| - 1];
    Summary(|past|, |xs|, M, FULL_HISTORY, Skew(h), Variation(h), Frequency(h),
            Sum(xs) / |xs| as real, MinOf(xs), MaxOf(xs), |past| > 1)
  }

  ghost predicate Bounded(r: Summary) {
    -1.0 <= r.skew <= 1.0 && r.variation >= 0.0 && 0.0 <= r.frequency < 1.0
  }

  // The ring with its cursor and counters describes the intervals so far.
  ghost predicate RingState(ring: seq<Interval>, cursor: nat, size: nat, intervals: nat, past: seq<seq<real>>) {
    && AllSampled(past)
    && intervals == |past| && |Intervals(past)| == |past|
    && cursor == |past| % N && size == Min(|past|, N)
    && RingHolds(ring, Intervals(past), size)
  }

  // Measures the samples, puts the interval into the ring and sums up.
  method CloseInterval(ring: array<Interval>, cursor: nat, size: nat, intervals: nat, xs: seq<real>, ghost past: seq<seq<real>>)
    returns (r: Summary)
    requires |xs| > 0 && ring.Length == N && RingState(ring[..], cursor, size, intervals, past)
    modifies ring
    ensures RingState(ring[..], (cursor + 1) % N, Min(size + 1, N), intervals + 1, past + [xs])
    ensures r == SummaryOf(past + [xs]) && Bounded(r)
  {
    ghost var before, h := Intervals(past), Intervals(past + [xs]);
    IntervalsAppend(past, xs);
    IntervalsSane(past + [xs]);
    NextSlot(|past|);
    var current, lo, hi := NextInterval(ring, cursor, size, xs, before);
    Record(ring, cursor, current, before);
    var skew, variation, frequency := Metrics(ring, cursor, Min(size + 1, N), h);
    r := Summary(intervals + 1, |xs|, M, FULL_HISTORY, skew, variation, frequency, current.mean, lo, hi, size > 0);
  }

  const NO_SUMMARY := Summary(0, 0, N, FULL_HISTORY, 0.0, 0.0, 0.0, 0.0, 0.0, 0.0, false)

  class DcEstimator {
    const history: array<Interval>
    var samples: seq<real>
    var cursor: nat
    var size: nat
    var intervals: nat
    ghost var past: seq<seq<real>>

    ghost predicate Valid()
      reads this, history
    {
      history.Length == N && RingState(history[..], cursor, size, intervals, past)
    }

    constructor ()
      ensures Valid() && past == [] && samples == [] && fresh(history)
    {
      history := new Interval[N](_ => Interval(0, 0.0, 0.0, 0.0));
      samples, cursor, size, intervals, past := [], 0, 0, 0, [];
    }

    method Sample(delay: real)
      requires Valid()
      modifies this`samples
      ensures Valid() && samples == old(samples) + [delay]
    {
      samples := samples + [delay];
    }

    method Reset()
      requires Valid()
      modifies this
      ensures Valid() && past == [] && samples == []
    {
      samples, cursor, size, intervals, past := [], 0, 0, 0, [];
    }

    // Ends an interval that has samples.
    method Close() returns (r: Summary)
      requires Valid() && samples != []
      modifies this, history
      ensures Valid() && samples == [] && Bounded(r)
      ensures past == old(past) + [old(samples)] && r == SummaryOf(past)
    {
      r := CloseInterval(history, cursor, size, intervals, samples, past);
      past := past + [samples];
      cursor, size, intervals, samples := (cursor + 1) % N, Min(size + 1, N), intervals + 1, [];
    }

    /**
     * Ends an interval. The summary read off the ring is that of the plain list of
     * intervals since the last reset; an interval without samples resets everything.
     */
    method FinishInterval() returns (r: Summary)
      requires Valid()
      modifies this, history
      ensures Valid() && samples == [] && Bounded(r)
      ensures old(samples) == [] ==> past == [] && r == NO_SUMMARY
      ensures old(samples) != [] ==> past == old(past) + [old(samples)] && r == SummaryOf(past)
    {
      if samples == [] {
        Reset();
        r := NO_SUMMARY;
      } else {
        r := Close();
      }
    }
  }
}
