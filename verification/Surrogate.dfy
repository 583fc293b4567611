/**
 The triangular solves, the jitter schedule around the factorisation, and the trained surrogate model.
 */
module Surrogate {
  import opened Outcomes
  import opened Sums
  import opened Cholesky
  import opened Distances

  // ---------------------------------------------------------------- triangular solves

  ghost predicate Solves(a: Matrix, n: nat, x: seq<real>, b: seq<real>) {
    |x| == |b| == n && forall i :: 0 <= i < n ==> Apply(a, n, Samples(x))(i) == b[i]
  }

  ghost predicate SolvesT(a: Matrix, n: nat, x: seq<real>, b: seq<real>) {
    |x| == |b| == n && forall i :: 0 <= i < n ==> ApplyT(a, n, Samples(x))(i) == b[i]
  }

  /** l y = values, one row after the other. */
  method ForwardSolve(lower: Matrix, values: seq<real>) returns (output: seq<real>)
    requires LowerTriangular(lower, |values|) && PositiveDiagonal(lower, |values|)
    ensures Solves(lower, |values|, output, values)
  {
    output := [];
    var n := |values|;
    for row := 0 to n
      invariant |output| == row
      invariant forall i :: 0 <= i < row ==> Apply(lower, n, Samples(output))(i) == values[i]
    {
      hide Dot;
      var value := values[row];
      var partial := Dot(row, RowVector(lower, row), Samples(output));
      var next := (value - partial) / lower[row][row];
      ghost var before := output;
      output := output + [next];
      forall i | 0 <= i < row ensures Apply(lower, n, Samples(output))(i) == values[i] {
        assert Apply(lower, n, Samples(before))(i) == values[i];
        LaterEntryIgnored(lower, n, before, next, i);
      }
      RowCompleted(lower, n, before, next, row);
      QuotientTimes(value - partial, lower[row][row]);
    }
  }

  lemma QuotientTimes(x: real, d: real)
    requires d != 0.0
    ensures d * (x / d) == x
  {
  }

  /** An entry beyond the diagonal of a row does not change that row's product. */
  lemma LaterEntryIgnored(lower: Matrix, n: nat, output: seq<real>, next: real, i: nat)
    requires LowerTriangular(lower, n) && i < |output| < n
    ensures Apply(lower, n, Samples(output + [next]))(i) == Apply(lower, n, Samples(output))(i)
  {
    var x, y := Samples(output + [next]), Samples(output);
    var f, g := Products(RowVector(lower, i), x), Products(RowVector(lower, i), y);
    forall k | 0 <= k < n ensures f(k) == g(k) {
      assert k <= i ==> x(k) == y(k);
      assert k > i ==> Entry(lower, i, k) == 0.0;
    }
    SumEq(0, n, f, g);
  }

  /** The product of a row stops at the diagonal. */
  lemma RowCompleted(lower: Matrix, n: nat, output: seq<real>, next: real, row: nat)
    requires LowerTriangular(lower, n) && row == |output| < n
    ensures Apply(lower, n, Samples(output + [next]))(row)
         == Dot(row, RowVector(lower, row), Samples(output)) + Entry(lower, row, row) * next
  {
    var x := Samples(output + [next]);
    DotCommutes(n, RowVector(lower, row), x);
    DotPadded(row + 1, n, x, RowVector(lower, row));
    DotCommutes(row + 1, RowVector(lower, row), x);
    DotStep(row + 1, RowVector(lower, row), x);
    DotEq(row, RowVector(lower, row), x, RowVector(lower, row), Samples(output));
  }

  /** The sum of a column below `row`, as the backward sweep computes it. */
  function Below(lower: Matrix, row: nat, n: nat, x: seq<real>): real {
    Sum(row + 1, n, Products(ColumnVector(lower, row), Samples(x)))
  }

  /** lT x = y, from the last row up. */
  method BackwardSolve(lower: Matrix, forward: seq<real>) returns (output: seq<real>)
    requires LowerTriangular(lower, |forward|) && PositiveDiagonal(lower, |forward|)
    ensures SolvesT(lower, |forward|, output, forward)
  {
    var n := |forward|;
    output := seq(n, _ => 0.0);
    for row := n downto 0
      invariant |output| == n
      invariant forall k :: row <= k < n ==> ApplyT(lower, n, Samples(output))(k) == forward[k]
      invariant forall k :: 0 <= k < row ==> output[k] == 0.0
    {
      hide Dot;
      var total := Below(lower, row, n, output);
      var next := (forward[row] - total) / lower[row][row];
      ghost var before := output;
      output := output[row := next];
      forall k | row < k < n ensures ApplyT(lower, n, Samples(output))(k) == forward[k] {
        assert ApplyT(lower, n, Samples(before))(k) == forward[k];
        IgnoresEntry(n, ColumnVector(lower, k), before, row, next);
      }
      ColumnCompleted(lower, n, before, row);
      ReplacedEntry(n, ColumnVector(lower, row), before, row, next);
      QuotientTimes(forward[row] - total, lower[row][row]);
    }
  }

  lemma ColumnCompleted(lower: Matrix, n: nat, x: seq<real>, row: nat)
    requires LowerTriangular(lower, n) && row < n == |x| && x[row] == 0.0
    ensures ApplyT(lower, n, Samples(x))(row) == Below(lower, row, n, x)
  {
    var f := Products(ColumnVector(lower, row), Samples(x));
    SumSplit(0, row + 1, n, f);
    SumZero(0, row + 1, f);
  }

  /** The two sweeps together solve the factored system. */
  method SolveCholesky(lower: Matrix, values: seq<real>) returns (output: seq<real>)
    requires LowerTriangular(lower, |values|) && PositiveDiagonal(lower, |values|)
    ensures |output| == |values|
    ensures forall a :: Gram(a, lower, |values|) ==> Solves(a, |values|, output, values)
  {
    var forward := ForwardSolve(lower, values);
    output := BackwardSolve(lower, forward);
    forall a | Gram(a, lower, |values|) ensures Solves(a, |values|, output, values) {
      SweepsSolve(a, lower, values, forward, output);
    }
  }

  lemma SweepsSolve(a: Matrix, lower: Matrix, values: seq<real>, forward: seq<real>, x: seq<real>)
    requires Gram(a, lower, |values|)
    requires Solves(lower, |values|, forward, values) && SolvesT(lower, |values|, x, forward)
    ensures Solves(a, |values|, x, values)
  {
    hide Dot;
    var n := |values|;
    forall i | 0 <= i < n ensures Apply(a, n, Samples(x))(i) == values[i] {
      GramApply(a, lower, n, Samples(x), i);
      DotEq(n, RowVector(lower, i), ApplyT(lower, n, Samples(x)), RowVector(lower, i), Samples(forward));
      assert Apply(lower, n, Samples(forward))(i) == values[i];
    }
  }

  /** A positive definite system has one solution. */
  lemma SolutionIsUnique(a: Matrix, n: nat, x: seq<real>, y: seq<real>, b: seq<real>)
    requires PositiveDefinite(a, n) && Solves(a, n, x, b) && Solves(a, n, y, b)
    ensures x == y
  {
    hide Dot;
    var d := seq(n, i requires 0 <= i < n => x[i] - y[i]);
    forall i | 0 <= i < n ensures Apply(a, n, Samples(d))(i) == 0.0 {
      assert Apply(a, n, Samples(x))(i) == b[i] && Apply(a, n, Samples(y))(i) == b[i];
      DotLinear(n, RowVector(a, i), 1.0, Samples(x), -1.0, Samples(y), Samples(d));
    }
    DotCommutes(n, Samples(d), Apply(a, n, Samples(d)));
    DotVanishes(n, Samples(d), Apply(a, n, Samples(d)));
    if exists i :: 0 <= i < n && d[i] != 0.0 {
      assert false;
    }
    forall i | 0 <= i < n ensures x[i] == y[i] {
      assert d[i] == 0.0;
    }
  }

  lemma DotVanishes(n: nat, x: Vector, z: Vector)
    requires forall k :: 0 <= k < n ==> z(k) == 0.0
    ensures Dot(n, x, z) == 0.0
  {
    SumZero(0, n, Products(x, z));
  }

  /**
   The local model subtracts v . x where a x = v; the surrogate subtracts the squared norm of the forward solve
   of v. The two are the same number.
   */
  lemma VarianceFormulasAgree(a: Matrix, lower: Matrix, n: nat, v: seq<real>, forward: seq<real>, x: seq<real>)
    requires Gram(a, lower, n) && PositiveDefinite(a, n) && LowerTriangular(lower, n) && PositiveDiagonal(lower, n)
    requires Solves(lower, n, forward, v) && Solves(a, n, x, v)
    ensures Dot(n, Samples(v), Samples(x)) == Dot(n, Samples(forward), Samples(forward))
  {
    hide Dot;
    var y := BackwardSolution(lower, forward);
    SweepsSolve(a, lower, v, forward, y);
    SolutionIsUnique(a, n, x, y, v);
    DotEq(n, Samples(v), Samples(x), Apply(lower, n, Samples(forward)), Samples(x));
    DotCommutes(n, Apply(lower, n, Samples(forward)), Samples(x));
    AdjointLaw(lower, n, Samples(x), Samples(forward));
    DotEq(n, ApplyT(lower, n, Samples(x)), Samples(forward), Samples(forward), Samples(forward));
  }

  /** The transposed system always has a solution. */
  lemma {:induction false} BackwardSolutionFrom(lower: Matrix, forward: seq<real>, row: nat) returns (x: seq<real>)
    requires LowerTriangular(lower, |forward|) && PositiveDiagonal(lower, |forward|) && row <= |forward|
    ensures |x| == |forward| && forall k :: 0 <= k < row ==> x[k] == 0.0
    ensures forall k :: row <= k < |forward| ==> ApplyT(lower, |forward|, Samples(x))(k) == forward[k]
    decreases |forward| - row
  {
    var n := |forward|;
    if row == n {
      x := seq(n, _ => 0.0);
    } else {
      hide Dot;
      var before := BackwardSolutionFrom(lower, forward, row + 1);
      var total := ApplyT(lower, n, Samples(before))(row);
      var next := (forward[row] - total) / lower[row][row];
      x := before[row := next];
      forall k | row < k < n ensures ApplyT(lower, n, Samples(x))(k) == forward[k] {
        assert ApplyT(lower, n, Samples(before))(k) == forward[k];
        IgnoresEntry(n, ColumnVector(lower, k), before, row, next);
      }
      ReplacedEntry(n, ColumnVector(lower, row), before, row, next);
      QuotientTimes(forward[row] - total, lower[row][row]);
    }
  }

  lemma BackwardSolution(lower: Matrix, forward: seq<real>) returns (x: seq<real>)
    requires LowerTriangular(lower, |forward|) && PositiveDiagonal(lower, |forward|)
    ensures SolvesT(lower, |forward|, x, forward)
  {
    x := BackwardSolutionFrom(lower, forward, 0);
  }

  // ---------------------------------------------------------------- the jitter schedule

  function KernelMatrix(points: seq<seq<real>>, sigma: real, ell: real, exp: real -> real): (a: Matrix)
    requires ell != 0.0
  {
    seq(|points|, i requires 0 <= i < |points| =>
      seq(|points|, j requires 0 <= j < |points| =>
        sigma * sigma * exp(-0.5 * SquaredDistance(points[i], points[j]) / (ell * ell))))
  }

  lemma KernelIsSymmetric(points: seq<seq<real>>, sigma: real, ell: real, exp: real -> real)
    requires ell != 0.0
    ensures Square(KernelMatrix(points, sigma, ell, exp), |points|) && Symmetric(KernelMatrix(points, sigma, ell, exp))
  {
    var a := KernelMatrix(points, sigma, ell, exp);
    hide SquaredDistance;
    forall i, j | 0 <= i < |a| && 0 <= j < |a| ensures Entry(a, i, j) == Entry(a, j, i) {
      SquaredDistanceSymmetric(points[i], points[j]);
    }
  }

  /** The kernel with the guarded noise, the regularisation and the jitter on its diagonal. */
  function Regularised(base: Matrix, noise: seq<real>, floor: real, regularisation: real, jitter: real): (a: Matrix)
    requires Square(base, |base|) && |noise| == |base|
  {
    seq(|base|, i requires 0 <= i < |base| =>
      base[i][i := base[i][i] + (MaxReal(noise[i], floor) + regularisation + jitter)])
  }

  lemma RegularisedIsSymmetric(base: Matrix, noise: seq<real>, floor: real, regularisation: real, jitter: real)
    requires Square(base, |base|) && |noise| == |base| && Symmetric(base)
    ensures Square(Regularised(base, noise, floor, regularisation, jitter), |base|)
    ensures Symmetric(Regularised(base, noise, floor, regularisation, jitter))
  {
    var a := Regularised(base, noise, floor, regularisation, jitter);
    forall i, j | 0 <= i < |a| && 0 <= j < |a| ensures Entry(a, i, j) == Entry(a, j, i) {
      assert Entry(base, i, j) == Entry(base, j, i);
      assert i != j ==> a[i][j] == base[i][j] && a[j][i] == base[j][i];
    }
  }

  /** The jitter tried at each attempt: none, then a small start that grows tenfold. */
  function Jitter(regularisation: real, attempt: nat): real {
    if attempt == 0 then 0.0
    else if attempt == 1 then MaxReal(0.0000000001, regularisation * 0.001)
    else Jitter(regularisation, attempt - 1) * 10.0
  }

  lemma {:induction false} JitterPositive(regularisation: real, attempt: nat)
    ensures Jitter(regularisation, attempt) == 0.0 <==> attempt == 0
    ensures attempt > 0 ==> Jitter(regularisation, attempt) > 0.0
  {
    if attempt > 1 {
      JitterPositive(regularisation, attempt - 1);
    }
  }

  ghost predicate Works(base: Matrix, noise: seq<real>, floor: real, regularisation: real, attempt: nat)
    requires Square(base, |base|) && |noise| == |base|
  {
    PositiveDefinite(Regularised(base, noise, floor, regularisation, Jitter(regularisation, attempt)), |base|)
  }

  /** One attempt of the retry loop. */
  method TryJitter(base: Matrix, noise: seq<real>, floor: real, regularisation: real, jitter: real, sqrt: real -> real,
                   ghost attempt: nat)
    returns (r: Result<Matrix>)
    requires Square(base, |base|) && Symmetric(base) && |noise| == |base| && IsRoot(sqrt)
    requires jitter == Jitter(regularisation, attempt)
    ensures r.Ok? <==> Works(base, noise, floor, regularisation, attempt)
    ensures r.Ok? ==> IsFactor(Regularised(base, noise, floor, regularisation, jitter), r.value)
  {
    var candidate := Regularised(base, noise, floor, regularisation, jitter);
    RegularisedIsSymmetric(base, noise, floor, regularisation, jitter);
    hide PositiveDefinite, Gram, IsFactor, Regularised, Symmetric;
    r := FactoriseSymmetric(candidate, sqrt);
  }

  /** The retry loop: the first jitter of the schedule that works is the one factored and reported. */
  method FactorWithJitter(base: Matrix, noise: seq<real>, floor: real, regularisation: real, attempts: nat,
                          sqrt: real -> real)
    returns (r: Result<(Matrix, real)>, ghost used: nat)
    requires Square(base, |base|) && Symmetric(base) && |noise| == |base| && IsRoot(sqrt)
    ensures r.Failed? ==> r.code == "NUMERICAL_FAILURE"
    ensures r.Failed? <==> forall k: nat :: k < attempts ==> !Works(base, noise, floor, regularisation, k)
    ensures r.Ok? ==>
      && used < attempts && r.value.1 == Jitter(regularisation, used)
      && Works(base, noise, floor, regularisation, used)
      && (forall k: nat :: k < used ==> !Works(base, noise, floor, regularisation, k))
      && IsFactor(Regularised(base, noise, floor, regularisation, r.value.1), r.value.0)
  {
    hide Works, IsFactor, Regularised, Symmetric, IsRoot;
    var jitter := 0.0;
    used := 0;
    for attempt := 0 to attempts
      invariant jitter == Jitter(regularisation, attempt)
      invariant forall k: nat :: k < attempt ==> !Works(base, noise, floor, regularisation, k)
    {
      var factored := TryJitter(base, noise, floor, regularisation, jitter, sqrt, attempt);
      if factored.Ok? {
        used := attempt;
        return Ok((factored.value, jitter)), attempt;
      }
      JitterPositive(regularisation, attempt);
      jitter := if jitter == 0.0 then MaxReal(0.0000000001, regularisation * 0.001) else jitter * 10.0;
    }
    return Failed("NUMERICAL_FAILURE"), 0;
  }

  lemma WorksUnfolds(base: Matrix, noise: seq<real>, floor: real, regularisation: real, attempt: nat)
    requires Square(base, |base|) && |noise| == |base| && Works(base, noise, floor, regularisation, attempt)
    ensures PositiveDefinite(Regularised(base, noise, floor, regularisation, Jitter(regularisation, attempt)), |base|)
  {
  }

  datatype SurrogateModel = SurrogateModel(lower: Matrix, alpha: seq<real>, jitter: real)

  /** Factor the regularised kernel of the anchors and solve it for the centred targets. */
  method TrainSurrogate(points: seq<seq<real>>, centred: seq<real>, noise: seq<real>, sigma: real, ell: real,
                        regularisation: real, floor: real, attempts: nat, sqrt: real -> real, exp: real -> real)
    returns (r: Result<SurrogateModel>)
    requires |points| == |centred| == |noise| && ell != 0.0 && IsRoot(sqrt)
    ensures Square(KernelMatrix(points, sigma, ell, exp), |points|)
    ensures r.Ok? ==>
      var system := Regularised(KernelMatrix(points, sigma, ell, exp), noise, floor, regularisation, r.value.jitter);
      && IsFactor(system, r.value.lower)
      && PositiveDefinite(system, |points|)
      && Solves(system, |points|, r.value.alpha, centred)
    ensures r.Failed? <==> forall k: nat :: k < attempts ==>
      !Works(KernelMatrix(points, sigma, ell, exp), noise, floor, regularisation, k)
  {
    var base := KernelMatrix(points, sigma, ell, exp);
    KernelIsSymmetric(points, sigma, ell, exp);
    hide Works, PositiveDefinite, KernelMatrix, Regularised, Symmetric;
    var factored, used := FactorWithJitter(base, noise, floor, regularisation, attempts, sqrt);
    if factored.Failed? {
      return Failed(factored.code);
    }
    var (lower, jitter) := factored.value;
    RegularisedIsSymmetric(base, noise, floor, regularisation, jitter);
    FactorIsGram(Regularised(base, noise, floor, regularisation, jitter), lower);
    WorksUnfolds(base, noise, floor, regularisation, used);
    var alpha := SolveCholesky(lower, centred);
    return Ok(SurrogateModel(lower, alpha, jitter));
  }
}
