/** Integer quotients: their uniqueness, and how they change when the dividend grows. */
module Quotients {

  /** Adding a multiple to a dividend adds a quotient that is rounded down or up. */
  lemma QuotientStep(a: nat, step: nat, d: nat)
    requires d > 0
    ensures a / d + step / d <= (a + step) / d <= a / d + step / d + 1
    ensures step % d == 0 ==> (a + step) / d == a / d + step / d
  {
    var q, r, k, m := a / d, a % d, step / d, step % d;
    QuotientSum(a, step, d, q, r, k, m);
    if r + m < d {
      QuotientIs(a + step, d, q + k, r + m);
    } else {
      QuotientIs(a + step, d, q + k + 1, r + m - d);
    }
  }

  lemma QuotientSum(a: nat, step: nat, d: nat, q: nat, r: nat, k: nat, m: nat)
    requires a == d * q + r && step == d * k + m
    ensures a + step == d * (q + k) + (r + m)
    ensures a + step == d * (q + k + 1) + (r + m - d)
  {
  }

  lemma QuotientIs(n: nat, d: nat, q: nat, r: nat)
    requires d > 0 && n == d * q + r && r < d
    ensures n / d == q
  {
    var x, m := n / d, n % d;
    assert n == d * x + m;
    SameQuotient(d, x, m, q, r);
  }

  lemma SameQuotient(d: nat, x: nat, m: nat, q: nat, r: nat)
    requires d * x + m == d * q + r && m < d && r < d
    ensures x == q
  {
    if x > q {
      FarApart(d, x, q);
    } else if q > x {
      FarApart(d, q, x);
    }
  }

  lemma FarApart(d: nat, x: nat, q: nat)
    requires x > q
    ensures d * x >= d * q + d
  {
    var gap := x - q - 1;
    assert d * x == d * q + d + d * gap;
  }

  lemma NextMultiple(d: nat, q: nat)
    ensures d * (q + 1) == d * q + d
  {
  }

  lemma CeilAfterMultiple(d: nat, q: nat, n: nat)
    requires d > 0 && n == d * q + 1
    ensures (n + d - 1) / d == q + 1 && (n - 1 + d - 1) / d == q
  {
    NextMultiple(d, q);
    QuotientIs(n + d - 1, d, q + 1, 0);
    QuotientIs(n - 1 + d - 1, d, q, d - 1);
  }

  lemma CeilBetweenMultiples(d: nat, q: nat, r: nat, n: nat)
    requires 0 < r < d && n == d * q + r + 1
    ensures (n + d - 1) / d == q + 1 && (n - 1 + d - 1) / d == q + 1
  {
    NextMultiple(d, q);
    QuotientIs(n + d - 1, d, q + 1, r);
    QuotientIs(n - 1 + d - 1, d, q + 1, r - 1);
  }

  /** The quotient rounded up grows by one exactly past a multiple. */
  lemma CeilStep(d: nat, n: nat)
    requires d > 0 && n > 0
    ensures (n + d - 1) / d == (n - 1 + d - 1) / d + if (n - 1) % d == 0 then 1 else 0
  {
    var q, r := (n - 1) / d, (n - 1) % d;
    assert n == d * q + r + 1;
    if r == 0 {
      CeilAfterMultiple(d, q, n);
    } else {
      CeilBetweenMultiples(d, q, r, n);
    }
  }

  lemma CeilAtMost(n: nat, d: nat, bound: nat)
    requires d > 0 && d * bound >= n
    ensures (n + d - 1) / d <= bound
  {
    var x, m := (n + d - 1) / d, (n + d - 1) % d;
    assert n + d - 1 == d * x + m;
    if x > bound {
      FarApart(d, x, bound);
    }
  }

  /** The quotient rounded up, times the divisor, is enough. */
  lemma CeilIsEnough(n: nat, d: nat)
    requires d > 0
    ensures ((n + d - 1) / d) * d >= n
  {
    var x, m := (n + d - 1) / d, (n + d - 1) % d;
    assert n + d - 1 == d * x + m;
    assert d * x == x * d;
  }
}
