/** Finite sums of reals over integer ranges, and the few laws about them that the numerical modules share. */
module Sums {

  /** The element at i, and zero outside the sequence, so that it may be summed over any range. */
  function At(s: seq<real>, i: int): real {
    if 0 <= i < |s| then s[i] else 0.0
  }

  /** A sequence seen as a function on all integers. */
  function Samples(s: seq<real>): int -> real {
    i => At(s, i)
  }

  function Abs(x: int): nat {
    if x < 0 then -x else x
  }

  /** The constant below which the source treats a number as zero. */
  const EPSILON := 0.0000000000000002220446049250313

  function AbsReal(v: real): real {
    if v < 0.0 then 0.0 - v else v
  }

  function MaxReal(a: real, b: real): real {
    if a < b then b else a
  }

  function MinReal(a: real, b: real): real {
    if b < a then b else a
  }

  /** min(max(v, low), high), the clamp every component writes. */
  function Clamp(v: real, low: real, high: real): real {
    MinReal(MaxReal(v, low), high)
  }

  /** f(lo) + ... + f(hi - 1). */
  function Sum(lo: int, hi: int, f: int -> real): real
    decreases hi - lo
  {
    if hi <= lo then 0.0 else Sum(lo, hi - 1, f) + f(hi - 1)
  }

  lemma {:induction false} SumEq(lo: int, hi: int, f: int -> real, g: int -> real)
    requires forall i :: lo <= i < hi ==> f(i) == g(i)
    ensures Sum(lo, hi, f) == Sum(lo, hi, g)
    decreases hi - lo
  {
    if lo < hi {
      SumEq(lo, hi - 1, f, g);
    }
  }

  lemma {:induction false} SumSplit(lo: int, mid: int, hi: int, f: int -> real)
    requires lo <= mid <= hi
    ensures Sum(lo, hi, f) == Sum(lo, mid, f) + Sum(mid, hi, f)
    decreases hi - mid
  {
    if mid < hi {
      SumSplit(lo, mid, hi - 1, f);
    }
  }

  lemma SumFirst(lo: int, hi: int, f: int -> real)
    requires lo < hi
    ensures Sum(lo, hi, f) == f(lo) + Sum(lo + 1, hi, f)
  {
    SumSplit(lo, lo + 1, hi, f);
    assert Sum(lo, lo + 1, f) == Sum(lo, lo, f) + f(lo);
  }

  lemma {:induction false} SumAdd(lo: int, hi: int, f: int -> real, g: int -> real, h: int -> real)
    requires forall i :: lo <= i < hi ==> h(i) == f(i) + g(i)
    ensures Sum(lo, hi, h) == Sum(lo, hi, f) + Sum(lo, hi, g)
    decreases hi - lo
  {
    if lo < hi {
      SumAdd(lo, hi - 1, f, g, h);
    }
  }

  lemma {:induction false} SumScale(lo: int, hi: int, k: real, f: int -> real, g: int -> real)
    requires forall i :: lo <= i < hi ==> g(i) == k * f(i)
    ensures Sum(lo, hi, g) == k * Sum(lo, hi, f)
    decreases hi - lo
  {
    if lo < hi {
      SumScale(lo, hi - 1, k, f, g);
      Distribute(k, Sum(lo, hi - 1, f), f(hi - 1));
    }
  }

  /** A sum is linear in its terms. */
  lemma {:induction false} SumLinear(lo: int, hi: int, p: real, f: int -> real, q: real, g: int -> real, h: int -> real)
    requires forall i :: lo <= i < hi ==> h(i) == p * f(i) + q * g(i)
    ensures Sum(lo, hi, h) == p * Sum(lo, hi, f) + q * Sum(lo, hi, g)
    decreases hi - lo
  {
    if lo < hi {
      SumLinear(lo, hi - 1, p, f, q, g, h);
      Distribute(p, Sum(lo, hi - 1, f), f(hi - 1));
      Distribute(q, Sum(lo, hi - 1, g), g(hi - 1));
    }
  }

  lemma Distribute(k: real, x: real, y: real)
    ensures k * (x + y) == k * x + k * y
  {
  }

  /** The sign of a product p, given as a value of its own. */
  lemma ProductSign(x: real, y: real, p: real)
    requires p == x * y
    ensures (x > 0.0 && y > 0.0) || (x < 0.0 && y < 0.0) ==> p > 0.0
    ensures x == 0.0 || y == 0.0 ==> p == 0.0
    ensures (x > 0.0 && y < 0.0) || (x < 0.0 && y > 0.0) ==> p < 0.0
  {
    if x > 0.0 && y > 0.0 {
      assert x * y > 0.0;
    } else if x < 0.0 && y < 0.0 {
      assert x * y > 0.0;
    } else if x > 0.0 && y < 0.0 {
      assert x * y < 0.0;
    } else if x < 0.0 && y > 0.0 {
      assert x * y < 0.0;
    }
  }

  lemma SquareSign(x: real, s: real)
    requires s == x * x
    ensures s >= 0.0
    ensures s <= 0.0 <==> x == 0.0
  {
    ProductSign(x, x, s);
  }

  lemma SameProduct(k: real, x: real, y: real)
    requires x == y
    ensures k * x == k * y
  {
  }

  lemma {:induction false} SumLe(lo: int, hi: int, f: int -> real, g: int -> real)
    requires forall i :: lo <= i < hi ==> f(i) <= g(i)
    ensures Sum(lo, hi, f) <= Sum(lo, hi, g)
    decreases hi - lo
  {
    if lo < hi {
      SumLe(lo, hi - 1, f, g);
    }
  }

  function Scaled(k: real, f: int -> real): int -> real {
    i => k * f(i)
  }

  lemma SumScaled(lo: int, hi: int, k: real, f: int -> real)
    ensures Sum(lo, hi, Scaled(k, f)) == k * Sum(lo, hi, f)
  {
    SumScale(lo, hi, k, f, Scaled(k, f));
  }

  lemma {:induction false} SumZero(lo: int, hi: int, f: int -> real)
    requires forall i :: lo <= i < hi ==> f(i) == 0.0
    ensures Sum(lo, hi, f) == 0.0
    decreases hi - lo
  {
    if lo < hi {
      SumZero(lo, hi - 1, f);
    }
  }

  lemma {:induction false} SumShift(lo: int, hi: int, k: int, f: int -> real, g: int -> real)
    requires forall i :: lo <= i < hi ==> f(i) == g(i + k)
    ensures Sum(lo, hi, f) == Sum(lo + k, hi + k, g)
    decreases hi - lo
  {
    if lo < hi {
      SumShift(lo, hi - 1, k, f, g);
    }
  }

  lemma {:induction false} SumReverse(lo: int, hi: int, k: int, f: int -> real, g: int -> real)
    requires lo <= hi
    requires forall i :: lo <= i < hi ==> f(i) == g(k - i)
    ensures Sum(lo, hi, f) == Sum(k - hi + 1, k - lo + 1, g)
    decreases hi - lo
  {
    if lo < hi {
      SumReverse(lo, hi - 1, k, f, g);
      SumFirst(k - hi + 1, k - lo + 1, g);
    }
  }

  /** Row i of a doubly indexed family, and the sum of that row. */
  function Row(f: (int, int) -> real, i: int): int -> real {
    j => f(i, j)
  }

  function RowSums(lo: int, hi: int, f: (int, int) -> real): int -> real {
    i => Sum(lo, hi, Row(f, i))
  }

  function Transposed(f: (int, int) -> real): (int, int) -> real {
    (j, i) => f(i, j)
  }

  /** The order of a double sum may be exchanged. */
  lemma {:induction false} SumExchange(lo: int, hi: int, lo': int, hi': int, f: (int, int) -> real)
    ensures Sum(lo, hi, RowSums(lo', hi', f)) == Sum(lo', hi', RowSums(lo, hi, Transposed(f)))
    decreases hi - lo
  {
    if hi <= lo {
      SumZero(lo', hi', RowSums(lo, hi, Transposed(f)));
    } else {
      SumExchange(lo, hi - 1, lo', hi', f);
      var whole, shorter := RowSums(lo, hi, Transposed(f)), RowSums(lo, hi - 1, Transposed(f));
      forall j | lo' <= j < hi' ensures whole(j) == shorter(j) + Row(f, hi - 1)(j) {
        var column := Row(Transposed(f), j);
        assert whole(j) == Sum(lo, hi, column) && shorter(j) == Sum(lo, hi - 1, column);
        assert column(hi - 1) == f(hi - 1, j);
      }
      SumAdd(lo', hi', shorter, Row(f, hi - 1), whole);
    }
  }

  // ---------------------------------------------------------------- inner products

  function Products(f: int -> real, g: int -> real): int -> real {
    i => f(i) * g(i)
  }

  function Dot(n: nat, f: int -> real, g: int -> real): real {
    Sum(0, n, Products(f, g))
  }

  lemma DotStep(n: nat, f: int -> real, g: int -> real)
    requires n > 0
    ensures Dot(n, f, g) == Dot(n - 1, f, g) + f(n - 1) * g(n - 1)
  {
  }

  /** A sum of squares is never negative, and zero only for the zero vector. */
  lemma {:induction false} SquaresSum(n: nat, f: int -> real)
    ensures Dot(n, f, f) >= 0.0
    ensures Dot(n, f, f) == 0.0 ==> forall i :: 0 <= i < n ==> f(i) == 0.0
  {
    if n > 0 {
      SquaresSum(n - 1, f);
      SquareSign(f(n - 1), f(n - 1) * f(n - 1));
      DotStep(n, f, f);
    }
  }

  lemma DotEq(n: nat, f: int -> real, g: int -> real, f': int -> real, g': int -> real)
    requires forall i :: 0 <= i < n ==> f(i) == f'(i) && g(i) == g'(i)
    ensures Dot(n, f, g) == Dot(n, f', g')
  {
    SumEq(0, n, Products(f, g), Products(f', g'));
  }

  lemma DotCommutes(n: nat, f: int -> real, g: int -> real)
    ensures Dot(n, f, g) == Dot(n, g, f)
  {
    SumEq(0, n, Products(f, g), Products(g, f));
  }
}
