/**
 What the aggregates are, without their weights: the fused mean is where the pulls of the experts balance, each pulling
 with its support over its variance, and the supports decide who pulls at all.
 */
module AggregationLaws {
  import opened Outcomes
  import opened Sums
  import opened Distances
  import opened Aggregation

  /** The pull of expert i towards its own mean. */
  function Pulls(supports: seq<real>, means: seq<real>, guarded: seq<real>, m: real): int -> real {
    i => if At(guarded, i) > 0.0 then At(supports, i) * (m - At(means, i)) / At(guarded, i) else 0.0
  }

  /** The pulls cancel at the mean, and the variance is the total support over the total of support per variance. */
  ghost predicate Balanced(supports: seq<real>, means: seq<real>, guarded: seq<real>, fused: (real, real)) {
    && Sum(0, |supports|, Pulls(supports, means, guarded, fused.0)) == 0.0
    && fused.1 * Sum(0, |supports|, PrecisionTerms(supports, guarded)) == Total(supports)
  }

  /** Normalising keeps the proportions, and the total becomes one. */
  lemma NormalizeKeepsProportions(values: seq<real>)
    requires Total(values) > 0.0 && forall i :: 0 <= i < |values| ==> values[i] >= 0.0
    ensures Normalize(values).Ok?
    ensures var w := Normalize(values).value;
      && |w| == |values| && Total(w) == 1.0
      && (forall i :: 0 <= i < |w| ==> w[i] * Total(values) == values[i])
      && (forall i, j :: 0 <= i < |w| && 0 <= j < |w| ==> w[i] * values[j] == w[j] * values[i])
  {
    NormalizeGivesWeights(values);
    var w, total := Normalize(values).value, Total(values);
    hide Sum, Total;
    forall i | 0 <= i < |w| ensures w[i] * total == values[i] {
    }
    forall i, j | 0 <= i < |w| && 0 <= j < |w| ensures w[i] * values[j] == w[j] * values[i] {
      CrossProportion(w[i], w[j], values[i], values[j], total);
    }
  }

  lemma CrossProportion(w: real, u: real, x: real, y: real, total: real)
    requires w * total == x && u * total == y
    ensures w * y == u * x
  {
  }

  lemma PullTerm(s: real, w: real, x: real, g: real, m: real, total: real, k: real,
                 pull: real, precision: real, q: real, mean: real)
    requires g > 0.0 && w * total == s && k == total * m
    requires pull == s * (m - x) / g && precision == s / g && q == w / g && mean == w * x / g
    ensures pull == k * q + (0.0 - total) * mean && precision == total * q
  {
    assert q * g == w;
    assert mean == q * x;
    assert precision == total * q;
    assert pull == (total * q) * (m - x);
  }

  lemma TermsAre(supports: seq<real>, w: seq<real>, means: seq<real>, guarded: seq<real>, m: real, i: nat)
    requires i < |supports| == |w| == |means| == |guarded| && guarded[i] > 0.0
    ensures Pulls(supports, means, guarded, m)(i) == supports[i] * (m - means[i]) / guarded[i]
    ensures PrecisionTerms(supports, guarded)(i) == supports[i] / guarded[i]
    ensures PrecisionTerms(w, guarded)(i) == w[i] / guarded[i]
    ensures MeanTerms(w, means, guarded)(i) == w[i] * means[i] / guarded[i]
  {
  }

  /**
   As long as the guard on small precisions does not bite, the aggregate of any experts balances: whatever weights the
   code goes through, the supports alone, over the variances raised to the floor, decide mean and variance.
   */
  lemma AggregateBalances(means: seq<real>, variances: seq<real>, supports: seq<real>, floor: real)
    requires |means| == |variances| == |supports| && floor > 0.0
    requires Total(supports) > 0.0 && forall i :: 0 <= i < |supports| ==> supports[i] >= 0.0
    requires forall i :: 0 <= i < |variances| ==> MaxReal(variances[i], floor) <= 1.0 / EPSILON
    ensures GpoeAggregate(means, variances, supports, floor).Ok?
    ensures Balanced(supports, means, Guarded(variances, floor),
                     GpoeAggregate(means, variances, supports, floor).value)
  {
    NormalizeKeepsProportions(supports);
    NormalizeGivesWeights(supports);
    NonemptyTotal(supports);
    var w, guarded := Normalize(supports).value, Guarded(variances, floor);
    assert GpoeAggregate(means, variances, supports, floor) == Ok(Fuse(w, means, guarded, floor));
    hide Normalize, Total, Sum, Fuse, EPSILON, Balanced, Weights, GpoeAggregate;
    BalancedFromWeights(supports, w, means, guarded, floor, Fuse(w, means, guarded, floor), Total(supports));
  }

  lemma BalancedFromWeights(supports: seq<real>, w: seq<real>, means: seq<real>, guarded: seq<real>, floor: real,
                            fused: (real, real), total: real)
    requires Weights(w) && 0 < |supports| == |w| == |means| == |guarded| && total == Total(supports)
    requires floor > 0.0 && forall i :: 0 <= i < |guarded| ==> floor <= guarded[i] <= 1.0 / EPSILON
    requires forall i :: 0 <= i < |w| ==> w[i] * total == supports[i]
    requires fused == Fuse(w, means, guarded, floor)
    ensures Balanced(supports, means, guarded, fused)
  {
    FuseUnguarded(w, means, guarded, floor, fused);
    FloorsArePositive(guarded, floor);
    hide *;
    PullSum(supports, w, means, guarded, fused.0, total);
    BalanceAt(total, fused, Precision(w, guarded), WeightedMeans(w, means, guarded),
              Sum(0, |supports|, Pulls(supports, means, guarded, fused.0)),
              Sum(0, |supports|, PrecisionTerms(supports, guarded)));
    IsBalanced(supports, means, guarded, fused, total);
  }

  lemma FloorsArePositive(guarded: seq<real>, floor: real)
    requires floor > 0.0 && forall i :: 0 <= i < |guarded| ==> floor <= guarded[i] <= 1.0 / EPSILON
    ensures forall i :: 0 <= i < |guarded| ==> guarded[i] > 0.0
  {
  }

  /** How the sums over supports come from those over weights. */
  ghost predicate AreScaled(total: real, m: real, p: real, x: real, pull: real, precision: real) {
    pull == (total * m) * p + (0.0 - total) * x && precision == total * p
  }

  /** The fused values, when no guard bites. */
  ghost predicate IsQuotient(fused: (real, real), p: real, x: real) {
    fused.1 * p == 1.0 && fused.0 == fused.1 * x
  }

  lemma PullSum(supports: seq<real>, w: seq<real>, means: seq<real>, guarded: seq<real>, m: real, total: real)
    requires |supports| == |w| == |means| == |guarded|
    requires forall i :: 0 <= i < |w| ==> w[i] * total == supports[i]
    requires forall i :: 0 <= i < |guarded| ==> guarded[i] > 0.0
    ensures AreScaled(total, m, Precision(w, guarded), WeightedMeans(w, means, guarded),
                      Sum(0, |supports|, Pulls(supports, means, guarded, m)),
                      Sum(0, |supports|, PrecisionTerms(supports, guarded)))
  {
    hide Sum, Pulls, PrecisionTerms, MeanTerms;
    var n, k := |supports|, total * m;
    PullsAre(supports, w, means, guarded, m, total, k);
    SumLinear(0, n, k, PrecisionTerms(w, guarded), 0.0 - total, MeanTerms(w, means, guarded),
              Pulls(supports, means, guarded, m));
    SumScale(0, n, total, PrecisionTerms(w, guarded), PrecisionTerms(supports, guarded));
  }

  lemma BalanceAt(total: real, fused: (real, real), p: real, x: real, pull: real, precision: real)
    requires IsQuotient(fused, p, x) && AreScaled(total, fused.0, p, x, pull, precision)
    ensures Cancels(pull, precision, fused.1, total)
  {
    var m := fused.0;
    assert m * p == x;
    assert (total * m) * p == total * (m * p);
  }

  ghost predicate Cancels(pull: real, precision: real, variance: real, total: real) {
    pull == 0.0 && variance * precision == total
  }

  lemma IsBalanced(supports: seq<real>, means: seq<real>, guarded: seq<real>, fused: (real, real), total: real)
    requires total == Total(supports)
    requires Cancels(Sum(0, |supports|, Pulls(supports, means, guarded, fused.0)),
                     Sum(0, |supports|, PrecisionTerms(supports, guarded)), fused.1, total)
    ensures Balanced(supports, means, guarded, fused)
  {
  }

  lemma FuseUnguarded(w: seq<real>, means: seq<real>, guarded: seq<real>, floor: real, fused: (real, real))
    requires Weights(w) && 0 < |w| == |means| == |guarded| && fused == Fuse(w, means, guarded, floor)
    requires floor > 0.0 && forall i :: 0 <= i < |guarded| ==> floor <= guarded[i] <= 1.0 / EPSILON
    ensures IsQuotient(fused, Precision(w, guarded), WeightedMeans(w, means, guarded))
  {
    PrecisionBounds(w, guarded, floor, 1.0 / EPSILON);
    hide Precision, WeightedMeans;
    ReciprocalPrecision(Precision(w, guarded), floor, floor, 1.0 / EPSILON);
  }

  lemma PullsAre(supports: seq<real>, w: seq<real>, means: seq<real>, guarded: seq<real>, m: real, total: real, k: real)
    requires |supports| == |w| == |means| == |guarded| && k == total * m
    requires forall i :: 0 <= i < |w| ==> w[i] * total == supports[i]
    requires forall i :: 0 <= i < |guarded| ==> guarded[i] > 0.0
    ensures forall i :: 0 <= i < |w| ==>
      Pulls(supports, means, guarded, m)(i)
      == k * PrecisionTerms(w, guarded)(i) + (0.0 - total) * MeanTerms(w, means, guarded)(i)
    ensures forall i :: 0 <= i < |w| ==>
      PrecisionTerms(supports, guarded)(i) == total * PrecisionTerms(w, guarded)(i)
  {
    hide Pulls, PrecisionTerms, MeanTerms;
    forall i | 0 <= i < |w|
      ensures Pulls(supports, means, guarded, m)(i)
        == k * PrecisionTerms(w, guarded)(i) + (0.0 - total) * MeanTerms(w, means, guarded)(i)
      ensures PrecisionTerms(supports, guarded)(i) == total * PrecisionTerms(w, guarded)(i)
    {
      TermsAre(supports, w, means, guarded, m, i);
      PullTerm(supports[i], w[i], means[i], guarded[i], m, total, k, Pulls(supports, means, guarded, m)(i),
               PrecisionTerms(supports, guarded)(i), PrecisionTerms(w, guarded)(i),
               MeanTerms(w, means, guarded)(i));
    }
  }

  // ---------------------------------------------------------------- the anchors of three Agents

  /** Balance does not depend on the scale of the supports. */
  lemma ScaledBalance(weights: seq<real>, supports: seq<real>, means: seq<real>, guarded: seq<real>,
                      fused: (real, real), total: real)
    requires |weights| == |supports| == |means| == |guarded| && Balanced(weights, means, guarded, fused)
    requires Total(weights) == 1.0 && Total(supports) == total
    requires forall i :: 0 <= i < |weights| ==> weights[i] * total == supports[i] && guarded[i] > 0.0
    ensures Balanced(supports, means, guarded, fused)
  {
    hide Sum, Pulls, PrecisionTerms;
    var n := |weights|;
    forall i | 0 <= i < n
      ensures Pulls(supports, means, guarded, fused.0)(i) == total * Pulls(weights, means, guarded, fused.0)(i)
      ensures PrecisionTerms(supports, guarded)(i) == total * PrecisionTerms(weights, guarded)(i)
    {
      ScaledTerm(weights, supports, means, guarded, fused.0, total, i);
    }
    SumScale(0, n, total, Pulls(weights, means, guarded, fused.0), Pulls(supports, means, guarded, fused.0));
    SumScale(0, n, total, PrecisionTerms(weights, guarded), PrecisionTerms(supports, guarded));
    hide Total;
    ScaledEquation(fused.1, Sum(0, n, PrecisionTerms(weights, guarded)), total);
  }

  lemma ScaledEquation(v: real, p: real, total: real)
    requires v * p == 1.0
    ensures v * (total * p) == total
  {
  }

  lemma ScaledTerm(weights: seq<real>, supports: seq<real>, means: seq<real>, guarded: seq<real>, m: real, total: real,
                   i: nat)
    requires i < |weights| == |supports| == |means| == |guarded|
    requires weights[i] * total == supports[i] && guarded[i] > 0.0
    ensures Pulls(supports, means, guarded, m)(i) == total * Pulls(weights, means, guarded, m)(i)
    ensures PrecisionTerms(supports, guarded)(i) == total * PrecisionTerms(weights, guarded)(i)
  {
    ScaledQuotient(weights[i], supports[i], m - means[i], guarded[i], total);
  }

  lemma ScaledQuotient(w: real, s: real, d: real, g: real, total: real)
    requires w * total == s && g > 0.0
    ensures s * d / g == total * (w * d / g) && s / g == total * (w / g)
  {
    var q := w / g;
    assert q * g == w;
    assert w * d / g == q * d;
    assert s / g == total * q;
    assert s * d / g == (total * q) * d;
  }

  /** Supports that count: the positive ones as they are; if none is, the first of the largest counts alone. */
  lemma EffectiveMeans(raw: seq<real>)
    requires |raw| == 3
    ensures var s := EffectiveSupport(raw);
      && (forall i :: 0 <= i < 3 && raw[i] > 0.0 ==> s[i] == raw[i])
      && (forall i, k :: 0 <= i < 3 && 0 <= k < 3 && raw[i] <= 0.0 < raw[k] ==> s[i] == 0.0)
      && ((forall i :: 0 <= i < 3 ==> raw[i] <= 0.0) ==>
            exists k :: 0 <= k < 3 && s[k] == 1.0 && (forall i :: 0 <= i < 3 && i != k ==> s[i] == 0.0)
              && (forall i :: 0 <= i < 3 ==> raw[i] <= raw[k]) && (forall i :: 0 <= i < k ==> raw[i] < raw[k]))
  {
    hide ArgMax;
    ArgMaxIsFirstLargest(raw);
    var k := ArgMax(raw);
    assert 0 <= k < 3;
  }

  /** Each weight is its support's share of the total. */
  ghost predicate AreShares(w: seq<real>, supports: seq<real>) {
    |w| == |supports| && forall i :: 0 <= i < |w| ==> w[i] * Total(supports) == supports[i]
  }

  /** No variance is so large that the guard on small precisions could bite. */
  ghost predicate AreModest(variances: seq<real>, floor: real) {
    forall i :: 0 <= i < |variances| ==> MaxReal(variances[i], floor) <= 1.0 / EPSILON
  }

  lemma GuardedIsPositive(variances: seq<real>, floor: real)
    requires floor > 0.0
    ensures forall i :: 0 <= i < |variances| ==> Guarded(variances, floor)[i] > 0.0
  {
  }

  /** Normalising the supports before they are aggregated changes nothing. */
  lemma NormalizedBalances(means: seq<real>, variances: seq<real>, supports: seq<real>, floor: real)
    requires |means| == |variances| == |supports| && floor > 0.0 && AreModest(variances, floor)
    requires Total(supports) > 0.0 && forall i :: 0 <= i < |supports| ==> supports[i] >= 0.0
    ensures Normalize(supports).Ok? && AreShares(Normalize(supports).value, supports)
    ensures GpoeAggregate(means, variances, Normalize(supports).value, floor).Ok?
    ensures Balanced(supports, means, Guarded(variances, floor),
                     GpoeAggregate(means, variances, Normalize(supports).value, floor).value)
  {
    NormalizeKeepsProportions(supports);
    NormalizeGivesWeights(supports);
    GuardedIsPositive(variances, floor);
    var w := Normalize(supports).value;
    assert AreShares(w, supports) && Total(w) == 1.0;
    hide GpoeAggregate, Normalize, Balanced, Total, EPSILON, Guarded, MaxReal;
    AggregateBalances(means, variances, w, floor);
    ScaledBalance(w, supports, means, Guarded(variances, floor), GpoeAggregate(means, variances, w, floor).value,
                  Total(supports));
  }

  /** At every anchor: the weights are the supports that count, scaled, and the aggregate balances them. */
  lemma AnchorBalances(cs: seq<Contribution>, anchor: nat, floor: real, out: Aggregates)
    requires |cs| == 3 && floor > 0.0 && AnchorAggregated(cs, anchor, floor, out)
    requires AreModest(Variances(cs, anchor), floor)
    ensures var s := EffectiveSupport(Supports(cs, anchor));
      && AreShares(out.betas[anchor], s)
      && Balanced(s, Means(cs, anchor), Guarded(Variances(cs, anchor), floor),
                  (out.means[anchor], out.variances[anchor]))
  {
    EffectiveIsPositive(Supports(cs, anchor));
    hide EffectiveSupport, Means, Variances, Supports, GpoeAggregate, PairAggregate, Normalize, Balanced, Total,
      AreModest, AreShares, Guarded;
    NormalizedBalances(Means(cs, anchor), Variances(cs, anchor), EffectiveSupport(Supports(cs, anchor)), floor);
  }

  /** The aggregate of a pair balances too. */
  lemma PairBalances(a: Contribution, b: Contribution, anchor: nat, floor: real)
    requires floor > 0.0 && AreModest([At(a.variances, anchor), At(b.variances, anchor)], floor)
    ensures PairAggregate(a, b, anchor, floor).Ok?
    ensures Balanced(IndependentSupport(At(a.support, anchor), At(b.support, anchor)),
                     [At(a.means, anchor), At(b.means, anchor)],
                     Guarded([At(a.variances, anchor), At(b.variances, anchor)], floor),
                     PairAggregate(a, b, anchor, floor).value)
  {
    IndependentIsPositive(At(a.support, anchor), At(b.support, anchor));
    hide IndependentSupport, GpoeAggregate, Normalize, Balanced, Total, At, AreModest, Guarded;
    NormalizedBalances([At(a.means, anchor), At(b.means, anchor)], [At(a.variances, anchor), At(b.variances, anchor)],
                       IndependentSupport(At(a.support, anchor), At(b.support, anchor)), floor);
  }

  // ---------------------------------------------------------------- who decides

  /** Where one expert alone has support, the aggregate is that expert's. */
  lemma SoleSupportDecides(supports: seq<real>, means: seq<real>, guarded: seq<real>, fused: (real, real), k: nat)
    requires k < |supports| == |means| == |guarded| && Balanced(supports, means, guarded, fused)
    requires supports[k] > 0.0 && forall i :: 0 <= i < |supports| && i != k ==> supports[i] == 0.0
    requires forall i :: 0 <= i < |guarded| ==> guarded[i] > 0.0
    ensures fused.0 == means[k] && fused.1 == guarded[k]
  {
    SoleTerm(supports, means, guarded, fused, k);
    hide *;
    SoleEquations(supports[k], means[k], guarded[k], fused.0, fused.1);
  }

  ghost predicate AreSole(s: real, x: real, g: real, m: real, v: real)
    requires g > 0.0
  {
    s * (m - x) / g == 0.0 && v * (s / g) == s
  }

  lemma SoleTerm(supports: seq<real>, means: seq<real>, guarded: seq<real>, fused: (real, real), k: nat)
    requires k < |supports| == |means| == |guarded| && Balanced(supports, means, guarded, fused)
    requires forall i :: 0 <= i < |supports| && i != k ==> supports[i] == 0.0
    requires forall i :: 0 <= i < |guarded| ==> guarded[i] > 0.0
    ensures AreSole(supports[k], means[k], guarded[k], fused.0, fused.1)
  {
    var n := |supports|;
    OnlyTerm(n, k, Pulls(supports, means, guarded, fused.0));
    OnlyTerm(n, k, PrecisionTerms(supports, guarded));
    OnlyTerm(n, k, Samples(supports));
    hide Sum;
  }

  lemma SoleEquations(s: real, x: real, g: real, m: real, v: real)
    requires s > 0.0 && g > 0.0 && AreSole(s, x, g, m, v)
    ensures m == x && v == g
  {
    var q := s / g;
    assert q * g == s;
    ProductSign(q, g, s);
    assert s * (m - x) / g == q * (m - x);
    ProductSign(q, m - x, q * (m - x));
    assert (v - g) * q == 0.0;
    ProductSign(v - g, q, (v - g) * q);
  }

  lemma {:induction false} OnlyTerm(n: nat, k: nat, f: int -> real)
    requires k < n && forall i :: 0 <= i < n && i != k ==> f(i) == 0.0
    ensures Sum(0, n, f) == f(k)
  {
    if n - 1 == k {
      SumZero(0, n - 1, f);
    } else {
      OnlyTerm(n - 1, k, f);
    }
  }

  /** An Agent that alone has positive support decides the anchor: its mean, and its variance raised to the floor. */
  lemma SoleSupporterDecides(cs: seq<Contribution>, anchor: nat, floor: real, out: Aggregates, k: nat)
    requires |cs| == 3 && floor > 0.0 && AnchorAggregated(cs, anchor, floor, out) && k < 3
    requires AreModest(Variances(cs, anchor), floor)
    requires At(cs[k].support, anchor) > 0.0
    requires forall i :: 0 <= i < 3 && i != k ==> At(cs[i].support, anchor) <= 0.0
    ensures out.means[anchor] == At(cs[k].means, anchor)
    ensures out.variances[anchor] == MaxReal(At(cs[k].variances, anchor), floor)
  {
    AnchorBalances(cs, anchor, floor, out);
    EffectiveMeans(Supports(cs, anchor));
    hide AnchorAggregated, EffectiveSupport, Balanced, At, AreModest;
    SoleSupportDecides(EffectiveSupport(Supports(cs, anchor)), Means(cs, anchor),
                       Guarded(Variances(cs, anchor), floor), (out.means[anchor], out.variances[anchor]), k);
  }

  lemma PairSums(f: int -> real)
    ensures Sum(0, 2, f) == f(0) + f(1)
  {
    assert Sum(0, 1, f) == f(0);
  }

  /** Of two experts, the mean moves towards the one whose support grows, and never leaves the interval between them. */
  lemma MeanFollowsSupport(s: seq<real>, s': seq<real>, means: seq<real>, guarded: seq<real>,
                           fused: (real, real), fused': (real, real))
    requires |s| == |s'| == |means| == |guarded| == 2 && guarded[0] > 0.0 && guarded[1] > 0.0
    requires Balanced(s, means, guarded, fused) && Balanced(s', means, guarded, fused')
    requires s[0] == s'[0] > 0.0 && 0.0 <= s[1] <= s'[1]
    ensures means[0] <= means[1] ==> means[0] <= fused.0 <= fused'.0 <= means[1]
    ensures means[1] <= means[0] ==> means[1] <= fused'.0 <= fused.0 <= means[0]
  {
    hide Balanced;
    var a, b := PairPull(s, means, guarded, fused);
    var a', b' := PairPull(s', means, guarded, fused');
    PullGrows(s[1], s'[1], guarded[1], b, b');
    SamePull(s[0], guarded[0], a, a');
    OnePull(a, b, means[0], means[1], fused.0);
    OnePull(a, b', means[0], means[1], fused'.0);
    MoreStays(a, b, b', means[0], means[1], fused.0, fused'.0);
  }

  /** The two pulls on a mean m cancel. */
  ghost predicate Cancel(a: real, b: real, x: real, y: real, m: real) {
    a * (m - x) + b * (m - y) == 0.0
  }

  lemma PairPull(s: seq<real>, means: seq<real>, guarded: seq<real>, fused: (real, real)) returns (a: real, b: real)
    requires |s| == |means| == |guarded| == 2 && guarded[0] > 0.0 && guarded[1] > 0.0
    requires Balanced(s, means, guarded, fused) && s[0] > 0.0 && s[1] >= 0.0
    ensures IsPull(s[0], guarded[0], a) && IsPull(s[1], guarded[1], b) && a > 0.0 && b >= 0.0
    ensures Cancel(a, b, means[0], means[1], fused.0)
  {
    PairSums(Pulls(s, means, guarded, fused.0));
    hide Sum;
    a, b := s[0] / guarded[0], s[1] / guarded[1];
    PullIs(s[0], guarded[0], fused.0 - means[0]);
    PullIs(s[1], guarded[1], fused.0 - means[1]);
  }

  ghost predicate IsPull(s: real, g: real, a: real) {
    a * g == s
  }

  lemma PullIs(s: real, g: real, d: real)
    requires g > 0.0 && s >= 0.0
    ensures s * d / g == (s / g) * d && s / g >= 0.0 && (s > 0.0 ==> s / g > 0.0) && IsPull(s, g, s / g)
  {
    var q := s / g;
    assert q * g == s;
    ProductSign(q, g, s);
  }

  lemma PullGrows(s: real, s': real, g: real, b: real, b': real)
    requires g > 0.0 && s <= s' && IsPull(s, g, b) && IsPull(s', g, b')
    ensures b <= b'
  {
    ProductSign(b' - b, g, s' - s);
  }

  lemma SamePull(s: real, g: real, a: real, a': real)
    requires g > 0.0 && IsPull(s, g, a) && IsPull(s, g, a')
    ensures a == a'
  {
    PullGrows(s, s, g, a, a');
    PullGrows(s, s, g, a', a);
  }

  lemma OnePull(a: real, b: real, x: real, y: real, m: real)
    requires a > 0.0 && 0.0 <= b && Cancel(a, b, x, y, m)
    ensures x <= y ==> x <= m <= y
    ensures y <= x ==> y <= m <= x
  {
    ProductSign(a, m - x, a * (m - x));
    ProductSign(b, m - y, b * (m - y));
  }

  lemma MoreStays(a: real, b: real, b': real, x: real, y: real, m: real, m': real)
    requires a > 0.0 && 0.0 <= b <= b' && Cancel(a, b, x, y, m) && Cancel(a, b', x, y, m')
    requires (x <= y ==> m' <= y) && (y <= x ==> m' >= y)
    ensures x <= y ==> m <= m'
    ensures y <= x ==> m' <= m
  {
    assert (a + b) * (m' - m) == (b' - b) * (y - m');
    ProductSign(a + b, m' - m, (a + b) * (m' - m));
    ProductSign(b' - b, y - m', (b' - b) * (y - m'));
  }

  /** The same of the aggregates that train a surrogate: more support of one Agent moves the pair's mean towards it. */
  lemma PairFollowsSupport(a: Contribution, b: Contribution, b': Contribution, anchor: nat, floor: real)
    requires floor > 0.0 && AreModest([At(a.variances, anchor), At(b.variances, anchor)], floor)
    requires At(b'.means, anchor) == At(b.means, anchor) && At(b'.variances, anchor) == At(b.variances, anchor)
    requires At(a.support, anchor) > 0.0 && At(b.support, anchor) <= At(b'.support, anchor)
    ensures PairAggregate(a, b, anchor, floor).Ok? && PairAggregate(a, b', anchor, floor).Ok?
    ensures var x, y := At(a.means, anchor), At(b.means, anchor);
      var m, m' := PairAggregate(a, b, anchor, floor).value.0, PairAggregate(a, b', anchor, floor).value.0;
      (x <= y ==> x <= m <= m' <= y) && (y <= x ==> y <= m' <= m <= x)
  {
    PairBalances(a, b, anchor, floor);
    PairBalances(a, b', anchor, floor);
    var s := IndependentSupport(At(a.support, anchor), At(b.support, anchor));
    var s' := IndependentSupport(At(a.support, anchor), At(b'.support, anchor));
    hide Balanced, PairAggregate, At, AreModest;
    MeanFollowsSupport(s, s', [At(a.means, anchor), At(b.means, anchor)],
                       Guarded([At(a.variances, anchor), At(b.variances, anchor)], floor),
                       PairAggregate(a, b, anchor, floor).value, PairAggregate(a, b', anchor, floor).value);
  }
}
