/** The calibrated global weight: the clamped least-squares quotient, and exactly when it is the best weight. */
module Blend {
  import opened Sums

  function Difference(a: seq<real>, b: seq<real>): int -> real {
    i => At(a, i) - At(b, i)
  }

  /** What is left of the target after blending local and global predictions with weight a. */
  function Miss(target: seq<real>, local: seq<real>, global: seq<real>, a: real): int -> real {
    i => At(target, i) - ((1.0 - a) * At(local, i) + a * At(global, i))
  }

  /** The squared error of the blend with weight a. */
  function Loss(target: seq<real>, local: seq<real>, global: seq<real>, a: real): real {
    var miss := Miss(target, local, global, a);
    Dot(|target|, miss, miss)
  }

  /** The blend weight calibration chooses. */
  function OptimizeAlpha(target: seq<real>, local: seq<real>, global: seq<real>, maximum: real): real
    requires |target| == |local| == |global|
  {
    var delta, residual := Difference(global, local), Difference(target, local);
    var denominator := Dot(|target|, delta, delta);
    if denominator > EPSILON then Clamp(Dot(|target|, delta, residual) / denominator, 0.0, maximum) else 0.0
  }

  /** No weight in [0, maximum] gives a smaller error. */
  ghost predicate Minimises(target: seq<real>, local: seq<real>, global: seq<real>, maximum: real, alpha: real) {
    && 0.0 <= alpha <= maximum
    && forall a :: 0.0 <= a <= maximum ==> Loss(target, local, global, alpha) <= Loss(target, local, global, a)
  }

  lemma LossTerm(t: real, l: real, g: real, a: real, r: real, d: real, miss: real)
    requires r == t - l && d == g - l && miss == t - ((1.0 - a) * l + a * g)
    ensures miss * miss == r * r + (-2.0 * a) * (d * r) + (a * a) * (d * d)
  {
    assert miss == r - a * d;
    assert miss * miss == r * r - 2.0 * (a * (d * r)) + (a * a) * (d * d);
  }

  /** The error is a quadratic in the weight. */
  lemma LossIsQuadratic(target: seq<real>, local: seq<real>, global: seq<real>, a: real)
    requires |target| == |local| == |global|
    ensures var delta, residual, n := Difference(global, local), Difference(target, local), |target|;
      Loss(target, local, global, a)
      == Dot(n, residual, residual) + (-2.0 * a) * Dot(n, delta, residual) + (a * a) * Dot(n, delta, delta)
  {
    hide *;
    var delta, residual, n := Difference(global, local), Difference(target, local), |target|;
    var miss := Miss(target, local, global, a);
    LossSum(target, local, global, a, n, -2.0 * a, a * a);
    LossUnfolds(target, local, global, a);
  }

  lemma LossUnfolds(target: seq<real>, local: seq<real>, global: seq<real>, a: real)
    ensures Loss(target, local, global, a)
      == Dot(|target|, Miss(target, local, global, a), Miss(target, local, global, a))
  {
  }

  lemma {:induction false} LossSum(target: seq<real>, local: seq<real>, global: seq<real>, a: real, n: nat, p: real,
                                   q: real)
    requires p == -2.0 * a && q == a * a
    ensures var delta, residual, miss :=
      Difference(global, local), Difference(target, local), Miss(target, local, global, a);
      Dot(n, miss, miss) == Dot(n, residual, residual) + p * Dot(n, delta, residual) + q * Dot(n, delta, delta)
  {
    if n > 0 {
      hide *;
      LossSum(target, local, global, a, n - 1, p, q);
      var delta, residual, miss := Difference(global, local), Difference(target, local), Miss(target, local, global, a);
      DotStep(n, miss, miss);
      DotStep(n, residual, residual);
      DotStep(n, delta, residual);
      DotStep(n, delta, delta);
      LossTermAt(target, local, global, a, n - 1, p, q);
      Distribute(p, Dot(n - 1, delta, residual), delta(n - 1) * residual(n - 1));
      Distribute(q, Dot(n - 1, delta, delta), delta(n - 1) * delta(n - 1));
    }
  }

  lemma LossTermAt(target: seq<real>, local: seq<real>, global: seq<real>, a: real, i: int, p: real, q: real)
    requires p == -2.0 * a && q == a * a
    ensures var d, r, miss :=
      Difference(global, local)(i), Difference(target, local)(i), Miss(target, local, global, a)(i);
      miss * miss == r * r + p * (d * r) + q * (d * d)
  {
    LossTerm(At(target, i), At(local, i), At(global, i), a,
             Difference(target, local)(i), Difference(global, local)(i), Miss(target, local, global, a)(i));
  }

  lemma NoSpreadNoSlope(n: nat, delta: int -> real, residual: int -> real)
    requires Dot(n, delta, delta) <= 0.0
    ensures Dot(n, delta, residual) == 0.0
  {
    SquaresSum(n, delta);
    SumZero(0, n, Products(delta, residual));
  }

  /** A convex quadratic is smallest on an interval at the clamped vertex, and nowhere else. */
  lemma ClampedVertex(slope: real, curvature: real, maximum: real, alpha: real, a: real)
    requires curvature > 0.0 && 0.0 <= maximum && 0.0 <= a <= maximum
    requires alpha == Clamp(slope / curvature, 0.0, maximum)
    ensures (-2.0 * alpha) * slope + (alpha * alpha) * curvature <= (-2.0 * a) * slope + (a * a) * curvature
    ensures a != alpha ==>
      (-2.0 * alpha) * slope + (alpha * alpha) * curvature < (-2.0 * a) * slope + (a * a) * curvature
  {
    var vertex := slope / curvature;
    assert vertex * curvature == slope;
    Completed(vertex, curvature, slope, alpha);
    Completed(vertex, curvature, slope, a);
    Farther(vertex, alpha, a, maximum);
    ScaledOrder(curvature, (alpha - vertex) * (alpha - vertex), (a - vertex) * (a - vertex));
  }

  lemma Completed(vertex: real, curvature: real, slope: real, a: real)
    requires vertex * curvature == slope
    ensures (-2.0 * a) * slope + (a * a) * curvature
         == curvature * ((a - vertex) * (a - vertex)) - curvature * (vertex * vertex)
  {
  }

  lemma Farther(vertex: real, alpha: real, a: real, maximum: real)
    requires 0.0 <= a <= maximum && alpha == Clamp(vertex, 0.0, maximum)
    ensures (alpha - vertex) * (alpha - vertex) <= (a - vertex) * (a - vertex)
    ensures a != alpha ==> (alpha - vertex) * (alpha - vertex) < (a - vertex) * (a - vertex)
  {
    var near, far := alpha - vertex, a - vertex;
    var gap := far * far - near * near;
    assert gap == (far - near) * (far + near);
    ProductSign(far - near, far + near, gap);
    SquareSign(far, far * far);
  }

  lemma ScaledOrder(k: real, x: real, y: real)
    requires k > 0.0
    ensures x <= y ==> k * x <= k * y
    ensures x < y ==> k * x < k * y
  {
  }

  /** When the two predictions differ enough, the returned weight is the unique minimiser over [0, maximum]. */
  lemma OptimalWhenSpread(target: seq<real>, local: seq<real>, global: seq<real>, maximum: real, a: real)
    requires |target| == |local| == |global| && 0.0 <= a <= maximum
    requires Dot(|target|, Difference(global, local), Difference(global, local)) > EPSILON
    ensures var alpha := OptimizeAlpha(target, local, global, maximum);
      && 0.0 <= alpha <= maximum
      && Loss(target, local, global, alpha) <= Loss(target, local, global, a)
      && (a != alpha ==> Loss(target, local, global, alpha) < Loss(target, local, global, a))
  {
    hide Dot, Loss;
    var delta, residual, n := Difference(global, local), Difference(target, local), |target|;
    var alpha := OptimizeAlpha(target, local, global, maximum);
    LossIsQuadratic(target, local, global, a);
    LossIsQuadratic(target, local, global, alpha);
    ClampedVertex(Dot(n, delta, residual), Dot(n, delta, delta), maximum, alpha, a);
  }

  /** Below the threshold the weight is zero, whether or not zero is best. */
  lemma ZeroIsBest(slope: real, curvature: real, a: real)
    requires slope <= 0.0 <= curvature && 0.0 <= a
    ensures 0.0 <= (-2.0 * a) * slope + (a * a) * curvature
  {
    assert a * (-slope) >= 0.0;
    assert (-2.0 * a) * slope == 2.0 * (a * (-slope));
    assert (a * a) * curvature >= 0.0;
  }

  /**
   The returned weight is the best one exactly when the predictions differ by more than the threshold, or zero
   is the best weight anyway: the slope at zero is not downhill, or there is nowhere to go.
   */
  lemma OptimalExactlyWhen(target: seq<real>, local: seq<real>, global: seq<real>, maximum: real)
    requires |target| == |local| == |global| && maximum >= 0.0
    ensures var delta, residual, n := Difference(global, local), Difference(target, local), |target|;
      Minimises(target, local, global, maximum, OptimizeAlpha(target, local, global, maximum))
      <==> (Dot(n, delta, delta) > EPSILON || Dot(n, delta, residual) <= 0.0 || maximum == 0.0)
  {
    hide Dot, Loss;
    var delta, residual, n := Difference(global, local), Difference(target, local), |target|;
    var alpha := OptimizeAlpha(target, local, global, maximum);
    var slope, curvature := Dot(n, delta, residual), Dot(n, delta, delta);
    SquaresSum(n, delta);
    if curvature > EPSILON {
      OptimalWhenSpread(target, local, global, maximum, 0.0);
      forall a | 0.0 <= a <= maximum ensures Loss(target, local, global, alpha) <= Loss(target, local, global, a) {
        OptimalWhenSpread(target, local, global, maximum, a);
      }
    } else {
      LossIsQuadratic(target, local, global, 0.0);
      if slope <= 0.0 || maximum == 0.0 {
        forall a | 0.0 <= a <= maximum ensures Loss(target, local, global, alpha) <= Loss(target, local, global, a) {
          LossIsQuadratic(target, local, global, a);
          if slope <= 0.0 {
            ZeroIsBest(slope, curvature, a);
          }
        }
      } else {
        if curvature == 0.0 {
          NoSpreadNoSlope(n, delta, residual);
        }
        var better := Clamp(slope / curvature, 0.0, maximum);
        LossIsQuadratic(target, local, global, better);
        ClampedVertex(slope, curvature, maximum, better, 0.0);
        PositiveQuotient(slope, curvature);
        assert Loss(target, local, global, better) < Loss(target, local, global, 0.0);
      }
    }
  }

  /**
   The condition is needed: predictions a hundred-millionth apart get weight zero where weight one has no error at
   all.
   */
  lemma TinySpreadIsMissed()
    ensures var near := [0.00000001];
      && OptimizeAlpha(near, [0.0], near, 1.0) == 0.0
      && Loss(near, [0.0], near, 1.0) == 0.0
      && Loss(near, [0.0], near, 0.0) > 0.0
      && !Minimises(near, [0.0], near, 1.0, 0.0)
  {
    var near := [0.00000001];
    var delta := Difference(near, [0.0]);
    DotStep(1, delta, delta);
    var none, all := Miss(near, [0.0], near, 0.0), Miss(near, [0.0], near, 1.0);
    DotStep(1, none, none);
    DotStep(1, all, all);
    assert delta(0) == none(0) == 0.00000001 && all(0) == 0.0;
    assert Dot(0, delta, delta) == 0.0 && Dot(0, none, none) == 0.0 && Dot(0, all, all) == 0.0;
  }

  lemma PositiveQuotient(slope: real, curvature: real)
    requires slope > 0.0 && curvature > 0.0
    ensures slope / curvature > 0.0
  {
  }

  /** A fused prediction with a weight in [0, 1] lies between its two parts. */
  lemma BlendIsBetween(local: real, global: real, alpha: real)
    requires 0.0 <= alpha <= 1.0
    ensures var fused := (1.0 - alpha) * local + alpha * global;
      MinReal(local, global) <= fused <= MaxReal(local, global)
  {
    var fused := (1.0 - alpha) * local + alpha * global;
    assert fused - local == alpha * (global - local);
    assert global - fused == (1.0 - alpha) * (global - local);
    ProductSign(alpha, global - local, fused - local);
    ProductSign(1.0 - alpha, global - local, global - fused);
  }
}
