/** What the parts of the surrogate's system mean: the kernel, its guarded diagonal, the jitter and the fit. */
module SurrogateLaws {
  import opened Outcomes
  import opened Sums
  import opened Distances
  import opened Cholesky
  import opened Surrogate
  import Fusion

  // ---------------------------------------------------------------- the kernel

  /** The covariance of two points at a given squared distance, for a squared length scale. */
  function Covariance(variance: real, scale: real, squared: real, exp: real -> real): real
    requires scale > 0.0
  {
    variance * exp(-(squared / (2.0 * scale)))
  }

  lemma SquareIsPositive(x: real, s: real)
    requires x != 0.0 && s == x * x
    ensures s > 0.0
  {
    ProductSign(x, x, s);
  }

  lemma HalfOf(d: real, s: real)
    requires s > 0.0
    ensures -0.5 * d / s == -(d / (2.0 * s))
  {
    var x, y := d / (2.0 * s), -0.5 * d / s;
    SameQuotient(y, -x, s);
  }

  lemma SameQuotient(x: real, y: real, s: real)
    requires s > 0.0 && x * s == y * s
    ensures x == y
  {
    ProductSign(x - y, s, (x - y) * s);
  }

  /** Every entry is the covariance of its two points. */
  lemma KernelAt(points: seq<seq<real>>, sigma: real, ell: real, exp: real -> real, i: nat, j: nat,
                 variance: real, scale: real)
    requires ell != 0.0 && i < |points| && j < |points| && variance == sigma * sigma && scale == ell * ell
    ensures scale > 0.0 && Square(KernelMatrix(points, sigma, ell, exp), |points|)
    ensures KernelMatrix(points, sigma, ell, exp)[i][j]
      == Covariance(variance, scale, SquaredDistance(points[i], points[j]), exp)
  {
    SquareIsPositive(ell, scale);
    hide SquaredDistance;
    HalfOf(SquaredDistance(points[i], points[j]), scale);
  }

  lemma NoDistanceToItself(p: Point)
    ensures SquaredDistance(p, p) == 0.0
  {
    SumZero(0, |p|, Products(Gap(p, p), Gap(p, p)));
  }

  lemma CovarianceFalls(variance: real, scale: real, near: real, far: real, exp: real -> real)
    requires variance > 0.0 && scale > 0.0 && Fusion.IsExp(exp) && near <= far
    ensures 0.0 < Covariance(variance, scale, far, exp) <= Covariance(variance, scale, near, exp)
    ensures Covariance(variance, scale, 0.0, exp) == variance
  {
    QuotientGrows(near, far, 2.0 * scale);
    var x, y := exp(-(far / (2.0 * scale))), exp(-(near / (2.0 * scale)));
    ProductSign(variance, x, variance * x);
    ProductGrows(variance, x, y);
  }

  lemma QuotientGrows(near: real, far: real, s: real)
    requires s > 0.0 && near <= far
    ensures near / s <= far / s && 0.0 / s == 0.0
  {
  }

  lemma ProductGrows(v: real, x: real, y: real)
    requires v >= 0.0 && x <= y
    ensures v * x <= v * y
  {
  }

  /** The kernel is the signal variance at one point, falls with the distance of two, and stays positive. */
  lemma KernelFallsWithDistance(points: seq<seq<real>>, sigma: real, ell: real, exp: real -> real, i: nat, j: nat,
                                k: nat, variance: real)
    requires ell != 0.0 && sigma != 0.0 && Fusion.IsExp(exp) && i < |points| && j < |points| && k < |points|
    requires variance == sigma * sigma
    ensures Square(KernelMatrix(points, sigma, ell, exp), |points|)
    ensures var a := KernelMatrix(points, sigma, ell, exp);
      && a[i][i] == variance && 0.0 < a[i][j] <= variance
      && (SquaredDistance(points[i], points[j]) <= SquaredDistance(points[i], points[k]) ==> a[i][k] <= a[i][j])
  {
    var scale, near, far := ell * ell, SquaredDistance(points[i], points[j]), SquaredDistance(points[i], points[k]);
    SquareIsPositive(sigma, variance);
    KernelAt(points, sigma, ell, exp, i, i, variance, scale);
    KernelAt(points, sigma, ell, exp, i, j, variance, scale);
    KernelAt(points, sigma, ell, exp, i, k, variance, scale);
    NoDistanceToItself(points[i]);
    SquaredDistanceNonnegative(points[i], points[j]);
    hide *;
    CovarianceFalls(variance, scale, 0.0, near, exp);
    if near <= far {
      CovarianceFalls(variance, scale, near, far, exp);
    }
  }

  // ---------------------------------------------------------------- the guarded diagonal and the jitter

  /** What is added to the variance of one anchor. */
  function Guard(noise: real, floor: real, regularisation: real, jitter: real): real {
    (if noise < floor then floor else noise) + regularisation + jitter
  }

  /** The diagonal is raised by the guard of its own anchor, and nothing else changes. */
  lemma RegularisedAt(base: Matrix, noise: seq<real>, floor: real, regularisation: real, jitter: real, i: nat, j: nat)
    requires Square(base, |base|) && |noise| == |base| && i < |base| && j < |base|
    ensures Square(Regularised(base, noise, floor, regularisation, jitter), |base|)
    ensures Regularised(base, noise, floor, regularisation, jitter)[i][j]
      == base[i][j] + if i == j then Guard(noise[i], floor, regularisation, jitter) else 0.0
  {
  }

  /** Ten to the power of n. */
  function Tens(n: nat): real {
    if n == 0 then 1.0 else 10.0 * Tens(n - 1)
  }

  /** No jitter at first, and then tenfold steps from a thousandth of the regularisation, or from 1e-10. */
  lemma {:induction false} JitterGrowsTenfold(regularisation: real, attempt: nat)
    ensures Jitter(regularisation, 0) == 0.0
    ensures Jitter(regularisation, attempt + 1) == MaxReal(0.0000000001, regularisation / 1000.0) * Tens(attempt)
  {
    assert regularisation * 0.001 == regularisation / 1000.0;
    if attempt > 0 {
      JitterGrowsTenfold(regularisation, attempt - 1);
      TimesTen(MaxReal(0.0000000001, regularisation / 1000.0), Tens(attempt - 1));
    }
  }

  lemma TimesTen(x: real, y: real)
    ensures x * y * 10.0 == x * (10.0 * y)
  {
  }

  // ---------------------------------------------------------------- the fit

  lemma DiagonalSum(n: nat, f: int -> real, g: int -> real, i: nat, extra: real)
    requires i < n && g(i) == f(i) + extra && forall k :: 0 <= k < n && k != i ==> g(k) == f(k)
    ensures Sum(0, n, g) == Sum(0, n, f) + extra
  {
    SumSplit(0, i, n, f);
    SumSplit(0, i, n, g);
    SumFirst(i, n, f);
    SumFirst(i, n, g);
    SumEq(0, i, f, g);
    SumEq(i + 1, n, f, g);
  }

  lemma GuardedProduct(a: real, guard: real, x: real)
    ensures (a + guard) * x == a * x + guard * x
  {
  }

  /**
   What a solution of the guarded system predicts at its own anchors: the kernel times the solution misses the target
   of each anchor by exactly that anchor's guard times its coefficient.
   */
  lemma FitMissesByGuard(base: Matrix, noise: seq<real>, floor: real, regularisation: real, jitter: real,
                         alpha: seq<real>, targets: seq<real>, i: nat)
    requires Square(base, |base|) && |noise| == |base| && i < |base|
    requires Solves(Regularised(base, noise, floor, regularisation, jitter), |base|, alpha, targets)
    ensures Apply(base, |base|, Samples(alpha))(i)
      == targets[i] - Guard(noise[i], floor, regularisation, jitter) * alpha[i]
  {
    var extra := Guard(noise[i], floor, regularisation, jitter) * alpha[i];
    RowGains(base, noise, floor, regularisation, jitter, alpha, i, extra);
    hide Regularised, Guard, Apply;
    assert Apply(Regularised(base, noise, floor, regularisation, jitter), |base|, Samples(alpha))(i) == targets[i];
  }

  lemma RowGains(base: Matrix, noise: seq<real>, floor: real, regularisation: real, jitter: real, alpha: seq<real>,
                 i: nat, extra: real)
    requires Square(base, |base|) && |noise| == |base| == |alpha| && i < |base|
    requires extra == Guard(noise[i], floor, regularisation, jitter) * alpha[i]
    ensures Apply(Regularised(base, noise, floor, regularisation, jitter), |base|, Samples(alpha))(i)
      == Apply(base, |base|, Samples(alpha))(i) + extra
  {
    hide Regularised, Guard, Sum;
    var n, x, system := |base|, Samples(alpha), Regularised(base, noise, floor, regularisation, jitter);
    var f, g := Products(RowVector(base, i), x), Products(RowVector(system, i), x);
    forall k | 0 <= k < n ensures g(k) == f(k) + if k == i then extra else 0.0 {
      RegularisedTerm(base, noise, floor, regularisation, jitter, alpha, i, k, extra);
      hide *;
    }
    hide RowVector, Products;
    DiagonalSum(n, f, g, i, extra);
  }

  lemma RegularisedTerm(base: Matrix, noise: seq<real>, floor: real, regularisation: real, jitter: real,
                        alpha: seq<real>, i: nat, k: nat, extra: real)
    requires Square(base, |base|) && |noise| == |base| == |alpha| && i < |base| && k < |base|
    requires extra == Guard(noise[i], floor, regularisation, jitter) * alpha[i]
    ensures Products(RowVector(Regularised(base, noise, floor, regularisation, jitter), i), Samples(alpha))(k)
      == Products(RowVector(base, i), Samples(alpha))(k) + if k == i then extra else 0.0
  {
    RegularisedAt(base, noise, floor, regularisation, jitter, i, k);
    hide Regularised, Guard;
    if k == i {
      GuardedProduct(base[i][i], Guard(noise[i], floor, regularisation, jitter), alpha[i]);
    }
  }
}
