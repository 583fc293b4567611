/**
 The explicit aggregation port: generalised product of experts over three contributions, and the leave-one-out
 aggregates used to train each Agent's surrogate.
 */
module Aggregation {
  import opened Outcomes
  import opened Sums
  import opened Distances

  // ---------------------------------------------------------------- product of experts

  function Total(values: seq<real>): real {
    Sum(0, |values|, Samples(values))
  }

  function Normalize(values: seq<real>): Result<seq<real>> {
    var total := Total(values);
    if total <= 0.0 then Failed("VALUE_ERROR")
    else Ok(seq(|values|, i requires 0 <= i < |values| => values[i] / total))
  }

  function Guarded(variances: seq<real>, floor: real): (g: seq<real>)
    ensures |g| == |variances| && forall i :: 0 <= i < |g| ==> g[i] == MaxReal(variances[i], floor)
  {
    seq(|variances|, i requires 0 <= i < |variances| => MaxReal(variances[i], floor))
  }

  function PrecisionTerms(weights: seq<real>, guarded: seq<real>): int -> real {
    i => if At(guarded, i) > 0.0 then At(weights, i) / At(guarded, i) else 0.0
  }

  function MeanTerms(weights: seq<real>, means: seq<real>, guarded: seq<real>): int -> real {
    i => if At(guarded, i) > 0.0 then At(weights, i) * At(means, i) / At(guarded, i) else 0.0
  }

  function Precision(weights: seq<real>, guarded: seq<real>): real {
    Sum(0, |weights|, PrecisionTerms(weights, guarded))
  }

  /** The fused variance, from the precision. */
  function FusedVariance(precision: real, floor: real): real {
    MaxReal(1.0 / MaxReal(precision, EPSILON), floor)
  }

  function WeightedMeans(weights: seq<real>, means: seq<real>, guarded: seq<real>): real {
    Sum(0, |weights|, MeanTerms(weights, means, guarded))
  }

  /** Mean and variance of the weighted product of Gaussians. */
  function Fuse(weights: seq<real>, means: seq<real>, guarded: seq<real>, floor: real): (real, real) {
    var variance := FusedVariance(Precision(weights, guarded), floor);
    (variance * WeightedMeans(weights, means, guarded), variance)
  }

  /** The generalised product of experts of the given means and variances. */
  function GpoeAggregate(means: seq<real>, variances: seq<real>, beta: seq<real>, floor: real): Result<(real, real)>
    requires |means| == |variances| == |beta| && floor > 0.0
  {
    match Normalize(beta)
    case Failed(code) => Failed(code)
    case Ok(weights) => Ok(Fuse(weights, means, Guarded(variances, floor), floor))
  }

  ghost predicate Weights(w: seq<real>) {
    Total(w) == 1.0 && forall i :: 0 <= i < |w| ==> w[i] >= 0.0
  }

  /** Nonnegative values with a positive total normalise to weights. */
  lemma NormalizeGivesWeights(values: seq<real>)
    requires Total(values) > 0.0 && forall i :: 0 <= i < |values| ==> values[i] >= 0.0
    ensures Normalize(values).Ok? && |Normalize(values).value| == |values| && Weights(Normalize(values).value)
  {
    hide Sum;
    var total, w := Total(values), Normalize(values).value;
    forall i | 0 <= i < |values| ensures Samples(w)(i) == (1.0 / total) * Samples(values)(i) {
      assert values[i] / total == (1.0 / total) * values[i];
    }
    SumScale(0, |values|, 1.0 / total, Samples(values), Samples(w));
    forall i | 0 <= i < |w| ensures w[i] >= 0.0 {
      NonnegativeQuotient(values[i], total);
    }
  }

  lemma NonnegativeQuotient(x: real, y: real)
    requires x >= 0.0 && y > 0.0
    ensures x / y >= 0.0
  {
  }

  /** The weighted mean of the reciprocals of variances between low and high lies between the reciprocals. */
  lemma PrecisionBounds(weights: seq<real>, guarded: seq<real>, low: real, high: real)
    requires Weights(weights) && |guarded| == |weights| && 0.0 < low <= high
    requires forall i :: 0 <= i < |guarded| ==> low <= guarded[i] <= high
    ensures 1.0 / high <= Precision(weights, guarded) <= 1.0 / low
    ensures Precision(weights, guarded) > 0.0
  {
    hide Sum, PrecisionTerms, Scaled;
    var n, p, w := |weights|, PrecisionTerms(weights, guarded), Samples(weights);
    forall i | 0 <= i < n ensures Scaled(1.0 / high, w)(i) <= p(i) <= Scaled(1.0 / low, w)(i) {
      PrecisionTermAt(weights, guarded, low, high, i);
    }
    SumLe(0, n, p, Scaled(1.0 / low, w));
    SumLe(0, n, Scaled(1.0 / high, w), p);
    SumScaled(0, n, 1.0 / low, w);
    SumScaled(0, n, 1.0 / high, w);
    ReciprocalOrder(high, high);
  }

  lemma PrecisionTermAt(weights: seq<real>, guarded: seq<real>, low: real, high: real, i: nat)
    requires i < |weights| == |guarded| && weights[i] >= 0.0 && 0.0 < low <= guarded[i] <= high
    ensures Scaled(1.0 / high, Samples(weights))(i) <= PrecisionTerms(weights, guarded)(i)
    ensures PrecisionTerms(weights, guarded)(i) <= Scaled(1.0 / low, Samples(weights))(i)
  {
    ReciprocalBounds(weights[i], guarded[i], low, high);
  }

  lemma ReciprocalBounds(w: real, g: real, low: real, high: real)
    requires w >= 0.0 && 0.0 < low <= g <= high
    ensures (1.0 / high) * w <= w / g <= (1.0 / low) * w
  {
    ReciprocalOrder(low, g);
    ReciprocalOrder(g, high);
    assert w / g == (1.0 / g) * w;
    ScaleOrder(w, 1.0 / high, 1.0 / g);
    ScaleOrder(w, 1.0 / g, 1.0 / low);
  }

  lemma ReciprocalOrder(a: real, b: real)
    requires 0.0 < a <= b
    ensures 0.0 < 1.0 / b <= 1.0 / a
  {
    var x, y := 1.0 / a, 1.0 / b;
    assert x * a == 1.0 && y * b == 1.0;
    ProductSign(y, b, 1.0);
    assert (x - y) * a == y * (b - a);
  }

  lemma ScaleOrder(w: real, x: real, y: real)
    requires w >= 0.0 && x <= y
    ensures x * w <= y * w
  {
  }

  /** A weighted sum of means between a and b lies between a and b times the precision. */
  lemma MeanBounds(weights: seq<real>, means: seq<real>, guarded: seq<real>, a: real, b: real)
    requires |weights| == |means| == |guarded|
    requires forall i :: 0 <= i < |weights| ==> weights[i] >= 0.0 && guarded[i] > 0.0 && a <= means[i] <= b
    ensures a * Precision(weights, guarded) <= WeightedMeans(weights, means, guarded)
    ensures WeightedMeans(weights, means, guarded) <= b * Precision(weights, guarded)
  {
    hide Sum, PrecisionTerms, MeanTerms, Scaled;
    var n, p, m := |weights|, PrecisionTerms(weights, guarded), MeanTerms(weights, means, guarded);
    forall i | 0 <= i < n ensures Scaled(a, p)(i) <= m(i) <= Scaled(b, p)(i) {
      MeanTermAt(weights, means, guarded, a, b, i);
    }
    SumLe(0, n, Scaled(a, p), m);
    SumLe(0, n, m, Scaled(b, p));
    SumScaled(0, n, a, p);
    SumScaled(0, n, b, p);
  }

  lemma MeanTermAt(weights: seq<real>, means: seq<real>, guarded: seq<real>, a: real, b: real, i: nat)
    requires i < |weights| == |means| == |guarded|
    requires weights[i] >= 0.0 && guarded[i] > 0.0 && a <= means[i] <= b
    ensures Scaled(a, PrecisionTerms(weights, guarded))(i) <= MeanTerms(weights, means, guarded)(i)
    ensures MeanTerms(weights, means, guarded)(i) <= Scaled(b, PrecisionTerms(weights, guarded))(i)
  {
    MeanTermBounds(weights[i], means[i], guarded[i], a, b);
  }

  lemma MeanTermBounds(w: real, m: real, g: real, a: real, b: real)
    requires w >= 0.0 && g > 0.0 && a <= m <= b
    ensures a * (w / g) <= w * m / g <= b * (w / g)
  {
    var q := w / g;
    NonnegativeQuotient(w, g);
    assert w * m / g == m * q;
    ScaleOrder(q, a, m);
    ScaleOrder(q, m, b);
  }

  /**
   While the largest guarded variance is at most 1 / EPSILON, the fused variance lies between the smallest and the
   largest guarded variance, and the fused mean in the hull of the means.
   */
  lemma FusedInHull(means: seq<real>, variances: seq<real>, beta: seq<real>, floor: real,
                    low: real, high: real, a: real, b: real)
    requires |means| == |variances| == |beta| && floor > 0.0
    requires Total(beta) > 0.0 && forall i :: 0 <= i < |beta| ==> beta[i] >= 0.0
    requires forall i :: 0 <= i < |beta| ==> low <= MaxReal(variances[i], floor) <= high && a <= means[i] <= b
    requires floor <= low && high <= 1.0 / EPSILON
    ensures GpoeAggregate(means, variances, beta, floor).Ok?
    ensures a <= GpoeAggregate(means, variances, beta, floor).value.0 <= b
    ensures low <= GpoeAggregate(means, variances, beta, floor).value.1 <= high
  {
    NormalizeGivesWeights(beta);
    NonemptyTotal(beta);
    hide Fuse, Total;
    FuseInHull(Normalize(beta).value, means, Guarded(variances, floor), floor, low, high, a, b);
  }

  lemma FuseInHull(weights: seq<real>, means: seq<real>, guarded: seq<real>, floor: real,
                   low: real, high: real, a: real, b: real)
    requires Weights(weights) && 0 < |weights| == |means| == |guarded|
    requires forall i :: 0 <= i < |weights| ==> low <= guarded[i] <= high && a <= means[i] <= b
    requires 0.0 < floor <= low && high <= 1.0 / EPSILON
    ensures a <= Fuse(weights, means, guarded, floor).0 <= b && low <= Fuse(weights, means, guarded, floor).1 <= high
  {
    hide FusedVariance, Precision, WeightedMeans, Total;
    assert low <= guarded[0] <= high;
    PrecisionBounds(weights, guarded, low, high);
    MeanBounds(weights, means, guarded, a, b);
    hide Weights, EPSILON;
    FusedFromBounds(Precision(weights, guarded), WeightedMeans(weights, means, guarded), floor, low, high, a, b);
  }

  lemma NonemptyTotal(values: seq<real>)
    requires Total(values) > 0.0
    ensures |values| > 0
  {
  }

  lemma FusedFromBounds(p: real, n: real, floor: real, low: real, high: real, a: real, b: real)
    requires 0.0 < floor <= low <= high <= 1.0 / EPSILON && 1.0 / high <= p <= 1.0 / low && a * p <= n <= b * p
    ensures low <= FusedVariance(p, floor) <= high && a <= FusedVariance(p, floor) * n <= b
  {
    ReciprocalPrecision(p, floor, low, high);
    hide FusedVariance;
    Quotient(FusedVariance(p, floor), p, n, a, b);
  }

  lemma ReciprocalPrecision(p: real, floor: real, low: real, high: real)
    requires 0.0 < floor <= low <= high <= 1.0 / EPSILON && 1.0 / high <= p <= 1.0 / low
    ensures p > 0.0 && FusedVariance(p, floor) == 1.0 / p && low <= 1.0 / p <= high
  {
    ReciprocalOrder(high, 1.0 / EPSILON);
    assert 1.0 / (1.0 / EPSILON) == EPSILON;
    ReciprocalOrder(1.0 / high, p);
    ReciprocalOrder(p, 1.0 / low);
    assert 1.0 / (1.0 / high) == high && 1.0 / (1.0 / low) == low;
  }

  lemma Quotient(v: real, p: real, n: real, a: real, b: real)
    requires p > 0.0 && v == 1.0 / p && a * p <= n <= b * p
    ensures a <= v * n <= b
  {
    var m := v * n;
    assert m * p == n;
    Unscale(a, m, p);
    Unscale(m, b, p);
  }

  lemma Unscale(x: real, y: real, p: real)
    requires p > 0.0 && x * p <= y * p
    ensures x <= y
  {
    ProductSign(x - y, p, (x - y) * p);
  }

  /**
   The fused variance is the reciprocal of the precision exactly when the guard on small precisions does not bite:
   the precision reaches EPSILON, or the floor is that reciprocal anyway.
   */
  lemma ReciprocalExactlyWhen(weights: seq<real>, guarded: seq<real>, floor: real)
    requires Weights(weights) && |guarded| == |weights| && floor > 0.0
    requires forall i :: 0 <= i < |guarded| ==> floor <= guarded[i]
    ensures var p := Precision(weights, guarded);
      p > 0.0 && (FusedVariance(p, floor) == 1.0 / p <==> p >= EPSILON || floor * p == 1.0)
  {
    var high := UpperBound(guarded, floor);
    PrecisionBounds(weights, guarded, floor, high);
    hide Precision;
    GuardBites(Precision(weights, guarded), floor);
  }

  lemma GuardBites(p: real, floor: real)
    requires 0.0 < floor && 0.0 < p <= 1.0 / floor
    ensures FusedVariance(p, floor) == 1.0 / p <==> p >= EPSILON || floor * p == 1.0
  {
    ReciprocalOrder(p, 1.0 / floor);
    assert 1.0 / (1.0 / floor) == floor;
    assert floor <= 1.0 / p;
    assert 1.0 / p * p == 1.0;
    if p < EPSILON {
      StrictReciprocal(p, EPSILON);
      if floor * p == 1.0 {
        assert floor == 1.0 / p;
      }
    }
  }

  lemma StrictReciprocal(a: real, b: real)
    requires 0.0 < a < b
    ensures 1.0 / b < 1.0 / a
  {
    var x, y := 1.0 / a, 1.0 / b;
    assert x * a == 1.0 && y * b == 1.0;
    ReciprocalOrder(a, b);
    if x == y {
      assert x * b == 1.0 && x * (b - a) == 0.0;
      ProductSign(x, b - a, x * (b - a));
      assert false;
    }
  }

  // ---------------------------------------------------------------- when the hulls hold

  /** low and high are the smallest and the largest of the values. */
  ghost predicate IsRange(values: seq<real>, low: real, high: real) {
    && low in values && high in values
    && forall i :: 0 <= i < |values| ==> low <= values[i] <= high
  }

  /**
   The fused variance never exceeds the largest guarded variance; it stays above the smallest exactly when the
   smallest is at most 1 / EPSILON or is the floor itself.
   */
  lemma VarianceInHullExactlyWhen(means: seq<real>, variances: seq<real>, beta: seq<real>, floor: real, low: real,
                                  high: real)
    requires |means| == |variances| == |beta| && floor > 0.0
    requires Total(beta) > 0.0 && forall i :: 0 <= i < |beta| ==> beta[i] >= 0.0
    requires IsRange(Guarded(variances, floor), low, high)
    ensures GpoeAggregate(means, variances, beta, floor).Ok?
    ensures var variance := GpoeAggregate(means, variances, beta, floor).value.1;
      && variance <= high
      && (low <= variance <==> low <= 1.0 / EPSILON || low == floor)
  {
    NormalizeGivesWeights(beta);
    var guarded, w := Guarded(variances, floor), Normalize(beta).value;
    hide Total, Precision, FusedVariance, WeightedMeans;
    PrecisionBounds(w, guarded, low, high);
    GuardedHull(Precision(w, guarded), floor, low, high);
  }

  lemma GuardedHull(p: real, floor: real, low: real, high: real)
    requires 0.0 < floor <= low <= high && 1.0 / high <= p <= 1.0 / low
    ensures FusedVariance(p, floor) <= high
    ensures low <= FusedVariance(p, floor) <==> low <= 1.0 / EPSILON || low == floor
  {
    var guard := MaxReal(p, EPSILON);
    ReciprocalOrder(high, high);
    ReciprocalOrder(p, guard);
    ReciprocalOrder(1.0 / high, p);
    assert 1.0 / (1.0 / high) == high && 1.0 / (1.0 / low) == low;
    assert 1.0 / (1.0 / EPSILON) == EPSILON;
    if low <= 1.0 / EPSILON {
      ReciprocalOrder(low, 1.0 / EPSILON);
      ReciprocalOrder(guard, 1.0 / low);
    } else {
      StrictReciprocal(1.0 / EPSILON, low);
    }
  }

  /** The value lies between two of the means. */
  ghost predicate InHull(means: seq<real>, value: real) {
    exists i, j :: 0 <= i < |means| && 0 <= j < |means| && means[i] <= value <= means[j]
  }

  ghost predicate MeanInHull(means: seq<real>, variances: seq<real>, beta: seq<real>, floor: real)
    requires |means| == |variances| == |beta| && floor > 0.0
  {
    var fused := GpoeAggregate(means, variances, beta, floor);
    fused.Ok? && InHull(means, fused.value.0)
  }

  /**
   Whatever the means, the fused mean lies among them exactly when the guard on small precisions does not bite: the
   precision reaches EPSILON, or its reciprocal is the floor.
   */
  lemma MeansInHullExactlyWhen(variances: seq<real>, beta: seq<real>, floor: real)
    requires |variances| == |beta| && floor > 0.0
    requires Total(beta) > 0.0 && forall i :: 0 <= i < |beta| ==> beta[i] >= 0.0
    ensures Normalize(beta).Ok?
    ensures var p := Precision(Normalize(beta).value, Guarded(variances, floor));
      (forall means: seq<real> :: |means| == |beta| ==> MeanInHull(means, variances, beta, floor))
      <==> p >= EPSILON || floor * p == 1.0
  {
    NormalizeGivesWeights(beta);
    NonemptyTotal(beta);
    var guarded, w := Guarded(variances, floor), Normalize(beta).value;
    hide Normalize, Precision, FusedVariance, Fuse, InHull, Total, Weights;
    ReciprocalExactlyWhen(w, guarded, floor);
    var p := Precision(w, guarded);
    if FusedVariance(p, floor) == 1.0 / p {
      forall means: seq<real> | |means| == |beta| ensures MeanInHull(means, variances, beta, floor) {
        UnguardedInHull(w, means, guarded, floor);
      }
    } else {
      GuardedOutsideHull(w, guarded, floor);
      assert !MeanInHull(Ones(|beta|), variances, beta, floor);
    }
  }

  function Ones(n: nat): seq<real> {
    seq(n, _ => 1.0)
  }

  lemma GuardedOutsideHull(weights: seq<real>, guarded: seq<real>, floor: real)
    requires Weights(weights) && |weights| == |guarded| && floor > 0.0
    requires forall i :: 0 <= i < |guarded| ==> guarded[i] > 0.0
    requires var p := Precision(weights, guarded); p > 0.0 && FusedVariance(p, floor) != 1.0 / p
    ensures !InHull(Ones(|weights|), Fuse(weights, Ones(|weights|), guarded, floor).0)
  {
    hide Precision, FusedVariance, WeightedMeans, Total, InHull;
    var ones, p := Ones(|weights|), Precision(weights, guarded);
    MeanBounds(weights, ones, guarded, 1.0, 1.0);
    OnlyOne(ones, Fuse(weights, ones, guarded, floor).0);
    SameProduct(FusedVariance(p, floor), WeightedMeans(weights, ones, guarded), p);
    NotReciprocal(FusedVariance(p, floor), p);
  }

  lemma NotReciprocal(v: real, p: real)
    requires p > 0.0 && v != 1.0 / p
    ensures v * p != 1.0
  {
    assert (1.0 / p) * p == 1.0;
    if v * p == 1.0 {
      Unscale(v, 1.0 / p, p);
      Unscale(1.0 / p, v, p);
    }
  }

  lemma OnlyOne(ones: seq<real>, value: real)
    requires forall i :: 0 <= i < |ones| ==> ones[i] == 1.0
    ensures InHull(ones, value) ==> value == 1.0
  {
  }

  lemma UnguardedInHull(weights: seq<real>, means: seq<real>, guarded: seq<real>, floor: real)
    requires Weights(weights) && 0 < |weights| == |means| == |guarded| && floor > 0.0
    requires forall i :: 0 <= i < |guarded| ==> guarded[i] > 0.0
    requires var p := Precision(weights, guarded); p > 0.0 && FusedVariance(p, floor) == 1.0 / p
    ensures InHull(means, Fuse(weights, means, guarded, floor).0)
  {
    hide Precision, FusedVariance, WeightedMeans;
    ArgMinIsFirstSmallest(means);
    ArgMaxIsFirstLargest(means);
    var least, largest := means[ArgMin(means)], means[ArgMax(means)];
    var p := Precision(weights, guarded);
    MeanBounds(weights, means, guarded, least, largest);
    Quotient(FusedVariance(p, floor), p, WeightedMeans(weights, means, guarded), least, largest);
  }

  /** Both hulls do fail: two experts that agree on mean one and variance 2 / EPSILON fuse to half of each. */
  lemma HugeVariancesEscape()
    ensures GpoeAggregate([1.0, 1.0], [2.0 / EPSILON, 2.0 / EPSILON], [1.0, 1.0], 1.0) == Ok((0.5, 1.0 / EPSILON))
  {
    var beta, g := [1.0, 1.0], 2.0 / EPSILON;
    var w, guarded := [0.5, 0.5], [g, g];
    assert Sum(0, 1, Samples(beta)) == 1.0 && Total(beta) == 2.0;
    assert Normalize(beta).value == w;
    assert Guarded([g, g], 1.0) == guarded;
    var p, m := PrecisionTerms(w, guarded), MeanTerms(w, [1.0, 1.0], guarded);
    var term := 0.5 / g;
    assert term == EPSILON / 4.0;
    assert p(0) == term && p(1) == term && m(0) == term && m(1) == term;
    assert Sum(0, 1, p) == term && Sum(0, 2, p) == EPSILON / 2.0;
    assert Sum(0, 1, m) == term && Sum(0, 2, m) == EPSILON / 2.0;
  }

  lemma {:induction false} UpperBound(values: seq<real>, start: real) returns (high: real)
    ensures high >= start && forall i :: 0 <= i < |values| ==> values[i] <= high
  {
    high := start;
    for k := 0 to |values|
      invariant high >= start && forall i :: 0 <= i < k ==> values[i] <= high
    {
      high := MaxReal(high, values[k]);
    }
  }

  // ---------------------------------------------------------------- one anchor, three Agents

  /**
   The supports used at an anchor: negatives count as zero, and if nothing is left the best raw support counts one.
   */
  function EffectiveSupport(raw: seq<real>): (s: seq<real>)
    requires |raw| == 3
    ensures |s| == 3
  {
    var support := [MaxReal(0.0, raw[0]), MaxReal(0.0, raw[1]), MaxReal(0.0, raw[2])];
    if support[0] + support[1] + support[2] <= 0.0 then support[ArgMax(raw) := 1.0] else support
  }

  function Others(leaveOut: nat): (o: (nat, nat))
    requires leaveOut < 3
    ensures o.0 < o.1 < 3 && o.0 != leaveOut && o.1 != leaveOut
  {
    if leaveOut == 0 then (1, 2) else if leaveOut == 1 then (0, 2) else (0, 1)
  }

  /** The supports of the two remaining Agents, taken from the effective supports of all three, as the source does. */
  function RemainingSupport(raw: seq<real>, leaveOut: nat): (s: seq<real>)
    requires |raw| == 3 && leaveOut < 3
    ensures |s| == 2
  {
    var (a, b) := Others(leaveOut);
    var support := EffectiveSupport(raw);
    if support[a] + support[b] > 0.0 then [support[a], support[b]]
    else if 1.0 - raw[a] <= 1.0 - raw[b] then [1.0, support[b]] else [support[a], 1.0]
  }

  /** The same supports computed from the two remaining Agents alone. */
  function IndependentSupport(a: real, b: real): (s: seq<real>)
    ensures |s| == 2
  {
    var x, y := MaxReal(0.0, a), MaxReal(0.0, b);
    if x + y > 0.0 then [x, y] else if a >= b then [1.0, 0.0] else [0.0, 1.0]
  }

  /**
   Although the fallback that gives one Agent full support is decided over all three, what reaches the other two
   does not depend on the Agent left out, whatever the ties.
   */
  lemma RemainingIgnoresLeftOut(raw: seq<real>, leaveOut: nat)
    requires |raw| == 3 && leaveOut < 3
    ensures RemainingSupport(raw, leaveOut) == IndependentSupport(raw[Others(leaveOut).0], raw[Others(leaveOut).1])
  {
    hide ArgMax;
    ArgMaxIsFirstLargest(raw);
  }

  lemma SumOfTwo(s: seq<real>)
    requires |s| == 2
    ensures Total(s) == s[0] + s[1]
  {
    var f := Samples(s);
    assert Sum(0, 2, f) == Sum(0, 1, f) + f(1);
    assert Sum(0, 1, f) == Sum(0, 0, f) + f(0);
  }

  lemma SumOfThree(s: seq<real>)
    requires |s| == 3
    ensures Total(s) == s[0] + s[1] + s[2]
  {
    var f := Samples(s);
    assert Sum(0, 3, f) == Sum(0, 2, f) + f(2);
    assert Sum(0, 2, f) == Sum(0, 1, f) + f(1);
    assert Sum(0, 1, f) == Sum(0, 0, f) + f(0);
  }

  /** The effective supports can always be normalised. */
  lemma EffectiveIsPositive(raw: seq<real>)
    requires |raw| == 3
    ensures Total(EffectiveSupport(raw)) > 0.0
    ensures forall i :: 0 <= i < 3 ==> EffectiveSupport(raw)[i] >= 0.0
  {
    SumOfThree(EffectiveSupport(raw));
  }

  lemma IndependentIsPositive(a: real, b: real)
    ensures Total(IndependentSupport(a, b)) > 0.0
    ensures forall i :: 0 <= i < 2 ==> IndependentSupport(a, b)[i] >= 0.0
  {
    SumOfTwo(IndependentSupport(a, b));
  }

  // ---------------------------------------------------------------- all anchors

  datatype Contribution = Contribution(means: seq<real>, variances: seq<real>, support: seq<real>)

  datatype Aggregates = Aggregates(means: seq<real>, variances: seq<real>, betas: seq<seq<real>>,
                                   looMeans: seq<seq<real>>, looVariances: seq<seq<real>>)

  /** A contribution gives a mean, a variance and a support for each of its anchors. */
  ghost predicate WellFormed(c: Contribution) {
    |c.means| == |c.variances| == |c.support|
  }

  function Triple(a: real, b: real, c: real): (t: seq<real>)
    ensures |t| == 3
  {
    [a, b, c]
  }

  function Means(cs: seq<Contribution>, anchor: nat): (t: seq<real>)
    requires |cs| == 3
    ensures |t| == 3
  {
    Triple(At(cs[0].means, anchor), At(cs[1].means, anchor), At(cs[2].means, anchor))
  }

  function Variances(cs: seq<Contribution>, anchor: nat): (t: seq<real>)
    requires |cs| == 3
    ensures |t| == 3
  {
    Triple(At(cs[0].variances, anchor), At(cs[1].variances, anchor), At(cs[2].variances, anchor))
  }

  function Supports(cs: seq<Contribution>, anchor: nat): (t: seq<real>)
    requires |cs| == 3
    ensures |t| == 3
  {
    Triple(At(cs[0].support, anchor), At(cs[1].support, anchor), At(cs[2].support, anchor))
  }

  /** The aggregate of two Agents by themselves: what leaving the third one out has to mean. */
  function PairAggregate(a: Contribution, b: Contribution, anchor: nat, floor: real): Result<(real, real)>
    requires floor > 0.0
  {
    match Normalize(IndependentSupport(At(a.support, anchor), At(b.support, anchor)))
    case Failed(code) => Failed(code)
    case Ok(beta) =>
      GpoeAggregate([At(a.means, anchor), At(b.means, anchor)], [At(a.variances, anchor), At(b.variances, anchor)],
        beta, floor)
  }

  /** The weights of all three Agents at an anchor, normalised once. */
  function Betas(cs: seq<Contribution>, anchor: nat): (beta: seq<real>)
    requires |cs| == 3
    ensures |beta| == 3
  {
    match Normalize(EffectiveSupport(Supports(cs, anchor)))
    case Ok(beta) => beta
    case Failed(_) => [0.0, 0.0, 0.0]
  }

  ghost predicate AnchorAggregated(cs: seq<Contribution>, anchor: nat, floor: real, out: Aggregates)
    requires |cs| == 3 && floor > 0.0
  {
    && anchor < |out.means| && anchor < |out.variances| && anchor < |out.betas|
    && anchor < |out.looMeans| && anchor < |out.looVariances|
    && out.betas[anchor] == Betas(cs, anchor)
    && GpoeAggregate(Means(cs, anchor), Variances(cs, anchor), Betas(cs, anchor), floor)
       == Ok((out.means[anchor], out.variances[anchor]))
    && |out.looMeans[anchor]| == |out.looVariances[anchor]| == 3
    && forall i :: 0 <= i < 3 ==>
         PairAggregate(cs[Others(i).0], cs[Others(i).1], anchor, floor)
           == Ok((out.looMeans[anchor][i], out.looVariances[anchor][i]))
  }

  lemma NormalizedTwice(values: seq<real>)
    requires Total(values) > 0.0 && forall i :: 0 <= i < |values| ==> values[i] >= 0.0
    ensures Normalize(values).Ok? && |Normalize(values).value| == |values| && Normalize(Normalize(values).value).Ok?
  {
    NormalizeGivesWeights(values);
  }

  /** One leave-one-out aggregate, computed from the supports of all three Agents. */
  method LeaveOneOut(cs: seq<Contribution>, anchor: nat, leaveOut: nat, floor: real) returns (r: Result<(real, real)>)
    requires |cs| == 3 && leaveOut < 3 && floor > 0.0
    ensures r.Ok? && r == PairAggregate(cs[Others(leaveOut).0], cs[Others(leaveOut).1], anchor, floor)
  {
    var (a, b) := Others(leaveOut);
    var raw := Supports(cs, anchor);
    var otherSupport := RemainingSupport(raw, leaveOut);
    RemainingIgnoresLeftOut(raw, leaveOut);
    IndependentIsPositive(raw[a], raw[b]);
    hide IndependentSupport, RemainingSupport, Total, GpoeAggregate;
    NormalizedTwice(otherSupport);
    var beta := Normalize(otherSupport).value;
    var means, variances := Means(cs, anchor), Variances(cs, anchor);
    r := GpoeAggregate([means[a], means[b]], [variances[a], variances[b]], beta, floor);
    GpoeSucceeds([means[a], means[b]], [variances[a], variances[b]], beta, floor);
  }

  lemma GpoeSucceeds(means: seq<real>, variances: seq<real>, beta: seq<real>, floor: real)
    requires |means| == |variances| == |beta| && floor > 0.0 && Normalize(beta).Ok?
    ensures GpoeAggregate(means, variances, beta, floor).Ok?
  {
  }

  /** Every anchor aggregated over the three contributions, and again with each of them left out. */
  method Aggregate(cs: seq<Contribution>, floor: real) returns (r: Result<Aggregates>)
    requires floor > 0.0 && forall c :: c in cs ==> WellFormed(c)
    ensures r.Failed? <==> |cs| != 3 || |cs[1].means| != |cs[0].means| || |cs[2].means| != |cs[0].means|
    ensures r.Failed? ==> r.code == "VALUE_ERROR"
    ensures r.Ok? ==> AllAggregated(cs, |cs[0].means|, floor, r.value)
  {
    if |cs| != 3 {
      return Failed("VALUE_ERROR");
    }
    var anchors := |cs[0].means|;
    if |cs[1].means| != anchors || |cs[2].means| != anchors {
      return Failed("VALUE_ERROR");
    }
    hide AnchorAggregated, Prefix, WellFormed;
    var out := Aggregates([], [], [], [], []);
    for anchor := 0 to anchors
      invariant AllAggregated(cs, anchor, floor, out)
    {
      ghost var before := out;
      out := AddAnchor(cs, anchor, floor, out);
      KeepAll(cs, anchor, floor, before, out);
    }
    return Ok(out);
  }

  ghost predicate Prefix(before: Aggregates, out: Aggregates) {
    && before.means <= out.means && before.variances <= out.variances && before.betas <= out.betas
    && before.looMeans <= out.looMeans && before.looVariances <= out.looVariances
  }

  ghost predicate AllAggregated(cs: seq<Contribution>, n: nat, floor: real, out: Aggregates) {
    && |cs| == 3 && floor > 0.0
    && |out.means| == |out.variances| == |out.betas| == |out.looMeans| == |out.looVariances| == n
    && forall k: nat :: k < n ==> AnchorAggregated(cs, k, floor, out)
  }

  lemma KeepAll(cs: seq<Contribution>, n: nat, floor: real, before: Aggregates, out: Aggregates)
    requires AllAggregated(cs, n, floor, before) && Prefix(before, out)
    requires |out.means| == |out.variances| == |out.betas| == |out.looMeans| == |out.looVariances| == n + 1
    requires AnchorAggregated(cs, n, floor, out)
    ensures AllAggregated(cs, n + 1, floor, out)
  {
    hide AnchorAggregated;
    forall k: nat | k < n ensures AnchorAggregated(cs, k, floor, out) {
      KeptAnchor(cs, k, floor, before, out);
    }
  }

  lemma KeptAnchor(cs: seq<Contribution>, k: nat, floor: real, before: Aggregates, out: Aggregates)
    requires |cs| == 3 && floor > 0.0 && AnchorAggregated(cs, k, floor, before)
    requires Prefix(before, out)
    ensures AnchorAggregated(cs, k, floor, out)
  {
    hide Betas, GpoeAggregate, PairAggregate;
  }

  /** The body of the anchor loop. */
  method AddAnchor(cs: seq<Contribution>, anchor: nat, floor: real, out: Aggregates) returns (next: Aggregates)
    requires |cs| == 3 && floor > 0.0
    requires |out.means| == |out.variances| == |out.betas| == |out.looMeans| == |out.looVariances| == anchor
    ensures |next.means| == |next.variances| == |next.betas| == |next.looMeans| == |next.looVariances| == anchor + 1
    ensures Prefix(out, next)
    ensures AnchorAggregated(cs, anchor, floor, next)
  {
    hide Betas, GpoeAggregate, PairAggregate;
    var beta := Betas(cs, anchor);
    BetasNormalise(cs, anchor);
    GpoeSucceeds(Means(cs, anchor), Variances(cs, anchor), beta, floor);
    var fused := GpoeAggregate(Means(cs, anchor), Variances(cs, anchor), beta, floor);
    var currentMeans, currentVariances := [], [];
    for leaveOut := 0 to 3
      invariant |currentMeans| == |currentVariances| == leaveOut
      invariant forall i :: 0 <= i < leaveOut ==>
        PairAggregate(cs[Others(i).0], cs[Others(i).1], anchor, floor) == Ok((currentMeans[i], currentVariances[i]))
    {
      var loo := LeaveOneOut(cs, anchor, leaveOut, floor);
      currentMeans := currentMeans + [loo.value.0];
      currentVariances := currentVariances + [loo.value.1];
    }
    next := Aggregates(out.means + [fused.value.0], out.variances + [fused.value.1], out.betas + [beta],
                       out.looMeans + [currentMeans], out.looVariances + [currentVariances]);
  }

  lemma BetasNormalise(cs: seq<Contribution>, anchor: nat)
    requires |cs| == 3
    ensures Normalize(Betas(cs, anchor)).Ok?
  {
    var support := EffectiveSupport(Supports(cs, anchor));
    EffectiveIsPositive(Supports(cs, anchor));
    hide EffectiveSupport, Total;
    NormalizedTwice(support);
  }

  /** What an Agent contributes never enters the aggregate that trains its own surrogate. */
  lemma LeftOutNeverMatters(cs: seq<Contribution>, cs': seq<Contribution>, anchor: nat, floor: real,
                            out: Aggregates, out': Aggregates, i: nat)
    requires |cs| == |cs'| == 3 && i < 3 && floor > 0.0
    requires forall j :: 0 <= j < 3 && j != i ==> cs[j] == cs'[j]
    requires AnchorAggregated(cs, anchor, floor, out) && AnchorAggregated(cs', anchor, floor, out')
    ensures out.looMeans[anchor][i] == out'.looMeans[anchor][i]
    ensures out.looVariances[anchor][i] == out'.looVariances[anchor][i]
  {
    hide PairAggregate, GpoeAggregate, Betas;
    assert PairAggregate(cs[Others(i).0], cs[Others(i).1], anchor, floor)
      == PairAggregate(cs'[Others(i).0], cs'[Others(i).1], anchor, floor);
  }
}
