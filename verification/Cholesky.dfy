/**
 The hand-written Cholesky factorisation and its two triangular solves.

 Over the reals the factorisation succeeds on a symmetric matrix exactly when the matrix is positive definite,
 and the solves then invert it.
 */
module Cholesky {
  import opened Outcomes
  import opened Sums

  type Matrix = seq<seq<real>>
  type Vector = int -> real

  /** The square root the platform library supplies. */
  ghost predicate IsRoot(sqrt: real -> real) {
    forall v: real :: v >= 0.0 ==> sqrt(v) >= 0.0 && sqrt(v) * sqrt(v) == v
  }

  ghost predicate Square(a: Matrix, n: nat) {
    |a| == n && forall i :: 0 <= i < n ==> |a[i]| == n
  }

  function Entry(a: Matrix, i: int, j: int): real {
    if 0 <= i < |a| then At(a[i], j) else 0.0
  }

  ghost predicate Symmetric(a: Matrix) {
    forall i, j :: 0 <= i < |a| && 0 <= j < |a| ==> Entry(a, i, j) == Entry(a, j, i)
  }

  // ---------------------------------------------------------------- products

  function RowVector(a: Matrix, i: int): Vector {
    k => Entry(a, i, k)
  }

  function ColumnVector(a: Matrix, k: int): Vector {
    i => Entry(a, i, k)
  }

  /** a x */
  function Apply(a: Matrix, n: nat, x: Vector): Vector {
    i => Dot(n, RowVector(a, i), x)
  }

  /** The transpose of a, times x. */
  function ApplyT(a: Matrix, n: nat, x: Vector): Vector {
    k => Dot(n, ColumnVector(a, k), x)
  }

  /** x a x */
  function Quadratic(a: Matrix, n: nat, x: Vector): real {
    Dot(n, x, Apply(a, n, x))
  }

  ghost predicate PositiveDefinite(a: Matrix, n: nat) {
    forall x: seq<real> :: |x| == n && (exists i :: 0 <= i < n && x[i] != 0.0) ==> Quadratic(a, n, Samples(x)) > 0.0
  }

  /** a is l times its own transpose on the leading n rows and columns. */
  ghost predicate Gram(a: Matrix, l: Matrix, n: nat) {
    forall i, j :: 0 <= i < n && 0 <= j < n ==> Dot(n, RowVector(l, i), RowVector(l, j)) == Entry(a, i, j)
  }

  /** The terms of x (m y), one for every entry of m. */
  function Bilinear(m: Matrix, x: Vector, y: Vector): (int, int) -> real {
    (i, k) => x(i) * (Entry(m, i, k) * y(k))
  }

  /** x (m y) == (mT x) y */
  lemma AdjointLaw(m: Matrix, n: nat, x: Vector, y: Vector)
    ensures Dot(n, x, Apply(m, n, y)) == Dot(n, ApplyT(m, n, x), y)
  {
    var f := Bilinear(m, x, y);
    hide Dot, Bilinear, Sum;
    forall i | 0 <= i < n ensures Products(x, Apply(m, n, y))(i) == RowSums(0, n, f)(i) {
      RowFactor(m, n, x, y, i);
    }
    forall k | 0 <= k < n ensures Products(ApplyT(m, n, x), y)(k) == RowSums(0, n, Transposed(f))(k) {
      ColumnFactor(m, n, x, y, k);
    }
    SumEq(0, n, Products(x, Apply(m, n, y)), RowSums(0, n, f));
    SumEq(0, n, Products(ApplyT(m, n, x), y), RowSums(0, n, Transposed(f)));
    SumExchange(0, n, 0, n, f);
    DotUnfolds(n, x, Apply(m, n, y));
    DotUnfolds(n, ApplyT(m, n, x), y);
  }

  lemma DotUnfolds(n: nat, x: Vector, y: Vector)
    ensures Dot(n, x, y) == Sum(0, n, Products(x, y))
  {
  }

  lemma RowFactor(m: Matrix, n: nat, x: Vector, y: Vector, i: int)
    ensures x(i) * Apply(m, n, y)(i) == Sum(0, n, Row(Bilinear(m, x, y), i))
  {
    SumScale(0, n, x(i), Products(RowVector(m, i), y), Row(Bilinear(m, x, y), i));
  }

  lemma ColumnFactor(m: Matrix, n: nat, x: Vector, y: Vector, k: int)
    ensures ApplyT(m, n, x)(k) * y(k) == Sum(0, n, Row(Transposed(Bilinear(m, x, y)), k))
  {
    var column, terms := Products(ColumnVector(m, k), x), Row(Transposed(Bilinear(m, x, y)), k);
    hide Sum, Products, Bilinear;
    forall i | 0 <= i < n ensures terms(i) == y(k) * column(i) {
      Rotate(m, x, y, i, k);
    }
    SumScale(0, n, y(k), column, terms);
    DotUnfolds(n, ColumnVector(m, k), x);
    assert ApplyT(m, n, x)(k) == Sum(0, n, column);
  }

  lemma Rotate(m: Matrix, x: Vector, y: Vector, i: int, k: int)
    ensures Row(Transposed(Bilinear(m, x, y)), k)(i) == y(k) * Products(ColumnVector(m, k), x)(i)
  {
  }

  /** If a is l times its transpose, then a x is l applied to the transpose of l applied to x. */
  lemma GramApply(a: Matrix, l: Matrix, n: nat, x: Vector, i: nat)
    requires Gram(a, l, n) && i < n
    ensures Apply(a, n, x)(i) == Apply(l, n, ApplyT(l, n, x))(i)
  {
    hide Dot;
    AdjointLaw(l, n, x, RowVector(l, i));
    forall j | 0 <= j < n ensures Apply(l, n, RowVector(l, i))(j) == RowVector(a, i)(j) {
      DotCommutes(n, RowVector(l, j), RowVector(l, i));
    }
    DotEq(n, x, Apply(l, n, RowVector(l, i)), x, RowVector(a, i));
    DotCommutes(n, x, RowVector(a, i));
    DotCommutes(n, ApplyT(l, n, x), RowVector(l, i));
  }

  /** The quadratic form is a sum of squares. */
  lemma QuadraticIsSquares(a: Matrix, l: Matrix, n: nat, x: Vector)
    requires Gram(a, l, n)
    ensures Quadratic(a, n, x) == Dot(n, ApplyT(l, n, x), ApplyT(l, n, x))
  {
    hide Dot;
    var z := ApplyT(l, n, x);
    forall i | 0 <= i < n ensures Apply(a, n, x)(i) == Apply(l, n, z)(i) {
      GramApply(a, l, n, x, i);
    }
    DotEq(n, x, Apply(a, n, x), x, Apply(l, n, z));
    AdjointLaw(l, n, x, z);
  }

  // ---------------------------------------------------------------- factors

  ghost predicate LowerTriangular(l: Matrix, n: nat) {
    && Square(l, n)
    && (forall i, k :: 0 <= i < k < n ==> Entry(l, i, k) == 0.0)
  }

  ghost predicate PositiveDiagonal(l: Matrix, n: nat) {
    forall i :: 0 <= i < n ==> Entry(l, i, i) > 0.0
  }

  /** The product of rows i and j of l, truncated at column j, is the entry of a. */
  ghost predicate FactoredAt(a: Matrix, l: Matrix, i: int, j: int)
    requires 0 <= j
  {
    Dot(j + 1, RowVector(l, i), RowVector(l, j)) == Entry(a, i, j)
  }

  /** Rows before `row`, and the columns before `column` of that row, are factored; the rest is still zero. */
  ghost predicate FactoredUpTo(a: Matrix, l: Matrix, row: nat, column: nat) {
    && LowerTriangular(l, |a|)
    && PositiveDiagonal(l, row)
    && (forall i, j :: 0 <= j <= i < row ==> FactoredAt(a, l, i, j))
    && (forall j :: 0 <= j < column ==> FactoredAt(a, l, row, j))
    && (forall k :: column <= k < |a| ==> Entry(l, row, k) == 0.0)
    && (forall i, k :: row < i < |a| && 0 <= k < |a| ==> Entry(l, i, k) == 0.0)
  }

  /** l is a lower triangular factor of a with positive diagonal. */
  ghost predicate IsFactor(a: Matrix, l: Matrix) {
    && LowerTriangular(l, |a|)
    && PositiveDiagonal(l, |a|)
    && forall i, j :: 0 <= j <= i < |a| ==> FactoredAt(a, l, i, j)
  }

  /** The remaining pivot of a row whose other columns are factored. */
  function Pivot(a: Matrix, l: Matrix, row: nat, column: nat): real {
    Entry(a, row, column) - Dot(column, RowVector(l, row), RowVector(l, column))
  }

  /** The factorisation of a cannot go past `row`: what is left for the diagonal is not positive. */
  ghost predicate Stuck(a: Matrix, l: Matrix, row: nat) {
    row < |a| && FactoredUpTo(a, l, row, row) && Pivot(a, l, row, row) <= 0.0
  }

  function WithEntry(l: Matrix, row: nat, column: nat, value: real): (l': Matrix)
    requires row < |l| && column < |l[row]|
    ensures |l'| == |l| && forall i :: 0 <= i < |l| ==> |l'[i]| == |l[i]|
    ensures forall i, k :: Entry(l', i, k) == if i == row && k == column then value else Entry(l, i, k)
  {
    l[row := l[row][column := value]]
  }

  lemma PrefixUnchanged(l: Matrix, row: nat, column: nat, value: real, n: nat, i: int, j: int)
    requires row < |l| && column < |l[row]|
    requires i != row || n <= column
    requires j != row || n <= column
    ensures Dot(n, RowVector(WithEntry(l, row, column, value), i), RowVector(WithEntry(l, row, column, value), j))
         == Dot(n, RowVector(l, i), RowVector(l, j))
  {
    var l' := WithEntry(l, row, column, value);
    DotEq(n, RowVector(l', i), RowVector(l', j), RowVector(l, i), RowVector(l, j));
  }

  /** Storing the right value extends the factored part by one entry. */
  lemma StoreEntry(a: Matrix, l: Matrix, row: nat, column: nat, value: real)
    requires Square(a, |a|) && column <= row < |a| && FactoredUpTo(a, l, row, column)
    requires if column == row then value > 0.0 && value * value == Pivot(a, l, row, column)
             else value * Entry(l, column, column) == Pivot(a, l, row, column)
    ensures var l' := WithEntry(l, row, column, value);
      if column == row then FactoredUpTo(a, l', row + 1, 0) else FactoredUpTo(a, l', row, column + 1)
  {
    hide Dot;
    var l' := WithEntry(l, row, column, value);
    forall i, j | 0 <= j <= i < row ensures FactoredAt(a, l', i, j) {
      assert FactoredAt(a, l, i, j);
      PrefixUnchanged(l, row, column, value, j + 1, i, j);
    }
    forall j | 0 <= j < column ensures FactoredAt(a, l', row, j) {
      assert FactoredAt(a, l, row, j);
      PrefixUnchanged(l, row, column, value, j + 1, row, j);
    }
    assert FactoredAt(a, l', row, column) by {
      PrefixUnchanged(l, row, column, value, column, row, column);
      DotStep(column + 1, RowVector(l', row), RowVector(l', column));
    }
  }

  /** Row-by-row factorisation; a pivot that is not positive is the source's ValueError. */
  method Factorise(matrix: Matrix, sqrt: real -> real) returns (r: Result<Matrix>)
    requires Square(matrix, |matrix|) && IsRoot(sqrt)
    ensures r.Ok? ==> IsFactor(matrix, r.value)
    ensures r.Failed? ==> exists l, row :: Stuck(matrix, l, row)
  {
    var count := |matrix|;
    var lower := seq(count, _ => seq(count, _ => 0.0));
    for row := 0 to count
      invariant FactoredUpTo(matrix, lower, row, 0)
    {
      for column := 0 to row + 1
        invariant if column <= row then FactoredUpTo(matrix, lower, row, column)
          else FactoredUpTo(matrix, lower, row + 1, 0)
      {
        hide Dot;
        var value := matrix[row][column] - Dot(column, RowVector(lower, row), RowVector(lower, column));
        if row == column {
          if value <= 0.0 {
            assert Stuck(matrix, lower, row);
            return Failed("VALUE_ERROR");
          }
          RootOfPositive(sqrt, value);
          StoreEntry(matrix, lower, row, column, sqrt(value));
          lower := WithEntry(lower, row, column, sqrt(value));
        } else {
          var quotient := value / lower[column][column];
          StoreEntry(matrix, lower, row, column, quotient);
          lower := WithEntry(lower, row, column, quotient);
        }
      }
    }
    return Ok(lower);
  }

  lemma RootOfPositive(sqrt: real -> real, value: real)
    requires IsRoot(sqrt) && value > 0.0
    ensures sqrt(value) > 0.0 && sqrt(value) * sqrt(value) == value
  {
    SquareSign(sqrt(value), value);
  }

  // ---------------------------------------------------------------- success means positive definite

  /** Columns beyond the diagonal of either row add nothing to a product of rows. */
  lemma {:induction false} TailVanishes(l: Matrix, i: int, j: int, from: nat, n: nat)
    requires from <= n && forall k :: from <= k < n ==> Entry(l, j, k) == 0.0
    ensures Dot(n, RowVector(l, i), RowVector(l, j)) == Dot(from, RowVector(l, i), RowVector(l, j))
  {
    if from < n {
      TailVanishes(l, i, j, from, n - 1);
    }
  }

  lemma FactorIsGram(a: Matrix, l: Matrix)
    requires IsFactor(a, l) && Symmetric(a)
    ensures Gram(a, l, |a|)
  {
    hide Dot;
    forall i, j | 0 <= i < |a| && 0 <= j < |a|
      ensures Dot(|a|, RowVector(l, i), RowVector(l, j)) == Entry(a, i, j)
    {
      var high, low := if i < j then j else i, if i < j then i else j;
      assert FactoredAt(a, l, high, low);
      TailVanishes(l, high, low, low + 1, |a|);
      DotCommutes(|a|, RowVector(l, i), RowVector(l, j));
      assert Entry(a, i, j) == Entry(a, high, low);
    }
  }

  /** A triangular matrix with a nonzero diagonal maps only the zero vector to zero. */
  lemma {:induction false} OnlyZeroMapsToZero(l: Matrix, n: nat, x: Vector, from: nat)
    requires from <= n && LowerTriangular(l, n) && PositiveDiagonal(l, n)
    requires forall k :: 0 <= k < n ==> ApplyT(l, n, x)(k) == 0.0
    ensures forall k :: from <= k < n ==> x(k) == 0.0
    decreases n - from
  {
    if from < n {
      OnlyZeroMapsToZero(l, n, x, from + 1);
      SingleTerm(n, ColumnVector(l, from), x, from);
      assert ApplyT(l, n, x)(from) == 0.0;
      NonzeroFactor(Entry(l, from, from), x(from));
    }
  }

  lemma NonzeroFactor(d: real, v: real)
    requires d != 0.0 && d * v == 0.0
    ensures v == 0.0
  {
  }

  /** A product whose terms all vanish but one is that term. */
  lemma SingleTerm(n: nat, f: Vector, g: Vector, at: nat)
    requires at < n && forall k :: 0 <= k < n && k != at ==> f(k) == 0.0 || g(k) == 0.0
    ensures Dot(n, f, g) == f(at) * g(at)
  {
    SumSplit(0, at, n, Products(f, g));
    SumZero(0, at, Products(f, g));
    SumFirst(at, n, Products(f, g));
    SumZero(at + 1, n, Products(f, g));
  }

  /** A factored symmetric matrix is positive definite. */
  lemma FactorIsPositiveDefinite(a: Matrix, l: Matrix)
    requires IsFactor(a, l) && Symmetric(a)
    ensures PositiveDefinite(a, |a|)
  {
    var n := |a|;
    FactorIsGram(a, l);
    hide Dot, Quadratic;
    forall x: seq<real> | |x| == n && exists i :: 0 <= i < n && x[i] != 0.0 ensures Quadratic(a, n, Samples(x)) > 0.0 {
      var z := ApplyT(l, n, Samples(x));
      QuadraticIsSquares(a, l, n, Samples(x));
      SquaresSum(n, z);
      var i :| 0 <= i < n && x[i] != 0.0;
      assert Samples(x)(i) != 0.0;
      if Dot(n, z, z) == 0.0 {
        OnlyZeroMapsToZero(l, n, Samples(x), 0);
        assert false;
      }
    }
  }

  // ---------------------------------------------------------------- failure means not positive definite

  /** A vector with x[row] = 1 that the transposed partial factor sends to zero on columns [from, row). */
  lemma {:induction false} NullVector(l: Matrix, row: nat, m: nat, from: nat) returns (x: seq<real>)
    requires from <= row < |l| && m == row + 1 && LowerTriangular(l, |l|) && PositiveDiagonal(l, row)
    ensures |x| == m && x[row] == 1.0
    ensures forall k :: from <= k < row ==> ApplyT(l, m, Samples(x))(k) == 0.0
    decreases row - from
  {
    if from == row {
      x := seq(row, _ => 0.0) + [1.0];
    } else {
      var y := NullVector(l, row, m, from + 1);
      hide Dot;
      var pivot := Entry(l, from, from);
      var rest := ApplyT(l, m, Samples(y[from := 0.0]))(from);
      x := y[from := -rest / pivot];
      forall k | from < k < row ensures ApplyT(l, m, Samples(x))(k) == 0.0 {
        assert ApplyT(l, m, Samples(y))(k) == 0.0;
        IgnoresEntry(m, ColumnVector(l, k), y, from, x[from]);
      }
      ReplacedEntry(m, ColumnVector(l, from), y[from := 0.0], from, x[from]);
      assert x == y[from := 0.0][from := x[from]];
      Cancels(pivot, rest);
    }
  }

  lemma Cancels(pivot: real, rest: real)
    requires pivot != 0.0
    ensures rest + pivot * (-rest / pivot) == 0.0
  {
  }

  lemma IgnoresEntry(n: nat, f: Vector, y: seq<real>, at: nat, value: real)
    requires at < |y| && f(at) == 0.0
    ensures Dot(n, f, Samples(y[at := value])) == Dot(n, f, Samples(y))
  {
    var x := y[at := value];
    forall i | 0 <= i < n ensures Products(f, Samples(x))(i) == Products(f, Samples(y))(i) {
      assert i == at || Samples(x)(i) == Samples(y)(i);
    }
    SumEq(0, n, Products(f, Samples(x)), Products(f, Samples(y)));
  }

  lemma ReplacedEntry(n: nat, f: Vector, y: seq<real>, at: nat, value: real)
    requires at < n == |y| && y[at] == 0.0
    ensures Dot(n, f, Samples(y[at := value])) == Dot(n, f, Samples(y)) + f(at) * value
  {
    hide Dot;
    DotLinear(n, f, 1.0, Samples(y), value, Unit(at), Samples(y[at := value]));
    SingleTerm(n, f, Unit(at), at);
  }

  function Unit(at: int): Vector {
    i => if i == at then 1.0 else 0.0
  }

  /** Lowering the last diagonal entry by the pivot makes the leading block a product of the partial factor. */
  lemma StuckIsGram(a: Matrix, l: Matrix, row: nat)
    requires Square(a, |a|) && Symmetric(a) && row < |a| && FactoredUpTo(a, l, row, row)
    ensures Gram(WithEntry(a, row, row, a[row][row] - Pivot(a, l, row, row)), l, row + 1)
  {
    hide Dot;
    var b := WithEntry(a, row, row, a[row][row] - Pivot(a, l, row, row));
    forall i, j | 0 <= i <= row && 0 <= j <= row
      ensures Dot(row + 1, RowVector(l, i), RowVector(l, j)) == Entry(b, i, j)
    {
      var high, low := if i < j then j else i, if i < j then i else j;
      DotCommutes(row + 1, RowVector(l, i), RowVector(l, j));
      if low < row {
        assert FactoredAt(a, l, high, low);
        TailVanishes(l, high, low, low + 1, row + 1);
        assert Entry(a, i, j) == Entry(a, high, low);
      } else {
        TailVanishes(l, row, row, row, row + 1);
      }
    }
  }

  /** Changing one diagonal entry changes the quadratic form by that change times the square of the coordinate. */
  lemma QuadraticAfterDiagonal(a: Matrix, n: nat, row: nat, delta: real, x: Vector)
    requires Square(a, |a|) && row < |a| && row < n && x(row) == 1.0
    ensures Quadratic(WithEntry(a, row, row, a[row][row] - delta), n, x) == Quadratic(a, n, x) - delta
  {
    var b := WithEntry(a, row, row, a[row][row] - delta);
    var unit := Unit(row);
    hide Dot;
    forall i | 0 <= i < n ensures Apply(b, n, x)(i) == 1.0 * Apply(a, n, x)(i) + (-delta) * unit(i) {
      RowAfterDiagonal(a, n, row, delta, x, i);
    }
    DotLinear(n, x, 1.0, Apply(a, n, x), -delta, unit, Apply(b, n, x));
    SingleTerm(n, x, unit, row);
  }

  lemma RowAfterDiagonal(a: Matrix, n: nat, row: nat, delta: real, x: Vector, i: nat)
    requires Square(a, |a|) && row < |a| && row < n && x(row) == 1.0
    ensures Apply(WithEntry(a, row, row, a[row][row] - delta), n, x)(i)
      == Apply(a, n, x)(i) - (if i == row then delta else 0.0)
  {
    var b := WithEntry(a, row, row, a[row][row] - delta);
    var f, g := RowVector(b, i), RowVector(a, i);
    if i != row {
      DotEq(n, f, x, g, x);
    } else {
      var unit := Unit(row);
      DotCommutes(n, f, x);
      DotCommutes(n, g, x);
      DotLinear(n, x, 1.0, g, -delta, unit, f);
      SingleTerm(n, x, unit, row);
    }
  }

  lemma DotLinear(n: nat, x: Vector, p: real, f: Vector, q: real, g: Vector, h: Vector)
    requires forall i :: 0 <= i < n ==> h(i) == p * f(i) + q * g(i)
    ensures Dot(n, x, h) == p * Dot(n, x, f) + q * Dot(n, x, g)
  {
    hide Sum;
    forall i | 0 <= i < n ensures Products(x, h)(i) == p * Products(x, f)(i) + q * Products(x, g)(i) {
      LinearTerm(x(i), p, f(i), q, g(i), h(i), Products(x, f)(i), Products(x, g)(i));
    }
    SumLinear(0, n, p, Products(x, f), q, Products(x, g), Products(x, h));
  }

  lemma LinearTerm(x: real, p: real, f: real, q: real, g: real, h: real, xf: real, xg: real)
    requires h == p * f + q * g && xf == x * f && xg == x * g
    ensures x * h == p * xf + q * xg
  {
  }

  /** A vector with zeros beyond the leading block has the same quadratic form there and on the whole matrix. */
  lemma QuadraticOfPadded(a: Matrix, m: nat, n: nat, x: Vector)
    requires m <= n && forall k :: m <= k < n ==> x(k) == 0.0
    ensures Quadratic(a, n, x) == Quadratic(a, m, x)
  {
    forall i | 0 <= i < m ensures Apply(a, n, x)(i) == Apply(a, m, x)(i) {
      DotPadded(m, n, RowVector(a, i), x);
    }
    DotPadded(m, n, Apply(a, n, x), x);
    DotCommutes(n, Apply(a, n, x), x);
    DotCommutes(m, Apply(a, n, x), x);
    DotEq(m, x, Apply(a, n, x), x, Apply(a, m, x));
  }

  lemma {:induction false} DotPadded(m: nat, n: nat, f: Vector, x: Vector)
    requires m <= n && forall k :: m <= k < n ==> x(k) == 0.0
    ensures Dot(n, f, x) == Dot(m, f, x)
  {
    if m < n {
      DotPadded(m, n - 1, f, x);
    }
  }

  /** A matrix on which the factorisation gets stuck is not positive definite. */
  lemma StuckIsNotPositiveDefinite(a: Matrix, l: Matrix, row: nat)
    requires Square(a, |a|) && Symmetric(a) && Stuck(a, l, row)
    ensures !PositiveDefinite(a, |a|)
  {
    hide Dot, Quadratic, Apply;
    var x := NullVector(l, row, row + 1, 0);
    var m, n, pivot := row + 1, |a|, Pivot(a, l, row, row);
    var b := WithEntry(a, row, row, a[row][row] - pivot);
    StuckIsGram(a, l, row);
    QuadraticIsSquares(b, l, m, Samples(x));
    LastColumnVanishes(l, row, x);
    var z := ApplyT(l, m, Samples(x));
    VanishingSquares(m, z);
    QuadraticAfterDiagonal(a, m, row, pivot, Samples(x));
    var padded := x + seq(n - m, _ => 0.0);
    QuadraticOfPadded(a, m, n, Samples(padded));
    QuadraticSame(a, m, Samples(padded), Samples(x));
    assert padded[row] != 0.0;
  }

  lemma QuadraticSame(a: Matrix, n: nat, x: Vector, y: Vector)
    requires forall i :: 0 <= i < n ==> x(i) == y(i)
    ensures Quadratic(a, n, x) == Quadratic(a, n, y)
  {
    forall i | 0 <= i < n ensures Apply(a, n, x)(i) == Apply(a, n, y)(i) {
      DotEq(n, RowVector(a, i), x, RowVector(a, i), y);
    }
    DotEq(n, x, Apply(a, n, x), y, Apply(a, n, y));
  }

  lemma VanishingSquares(n: nat, z: Vector)
    requires forall k :: 0 <= k < n ==> z(k) == 0.0
    ensures Dot(n, z, z) == 0.0
  {
    SumZero(0, n, Products(z, z));
  }

  lemma LastColumnVanishes(l: Matrix, row: nat, x: seq<real>)
    requires row < |l| && LowerTriangular(l, |l|) && Entry(l, row, row) == 0.0
    ensures ApplyT(l, row + 1, Samples(x))(row) == 0.0
  {
    SumZero(0, row + 1, Products(ColumnVector(l, row), Samples(x)));
  }

  /** The factorisation of a symmetric matrix succeeds exactly when the matrix is positive definite. */
  method FactoriseSymmetric(matrix: Matrix, sqrt: real -> real) returns (r: Result<Matrix>)
    requires Square(matrix, |matrix|) && Symmetric(matrix) && IsRoot(sqrt)
    ensures r.Ok? <==> PositiveDefinite(matrix, |matrix|)
    ensures r.Ok? ==> IsFactor(matrix, r.value) && Gram(matrix, r.value, |matrix|)
  {
    r := Factorise(matrix, sqrt);
    if r.Ok? {
      FactorIsGram(matrix, r.value);
      FactorIsPositiveDefinite(matrix, r.value);
    } else {
      ghost var l, row :| Stuck(matrix, l, row);
      StuckIsNotPositiveDefinite(matrix, l, row);
    }
  }
}
