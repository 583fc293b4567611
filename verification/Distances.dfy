/** Squared Euclidean distances between points of one width, and distances to the nearest of several centres. */
module Distances {
  import opened Sums

  type Point = seq<real>

  function Gap(a: Point, b: Point): int -> real {
    k => At(a, k) - At(b, k)
  }

  function SquaredDistance(a: Point, b: Point): real {
    Dot(if |a| < |b| then |a| else |b|, Gap(a, b), Gap(a, b))
  }

  lemma SquaredDistanceSymmetric(a: Point, b: Point)
    ensures SquaredDistance(a, b) == SquaredDistance(b, a)
  {
    var n := if |a| < |b| then |a| else |b|;
    var d, e := Products(Gap(a, b), Gap(a, b)), Products(Gap(b, a), Gap(b, a));
    forall k | 0 <= k < n ensures d(k) == e(k) {
      SquareOfNegation(Gap(a, b)(k), Gap(b, a)(k));
    }
    SumEq(0, n, d, e);
  }

  lemma SquareOfNegation(x: real, y: real)
    requires x == -y
    ensures x * x == y * y
  {
  }

  lemma SquaredDistanceNonnegative(a: Point, b: Point)
    ensures SquaredDistance(a, b) >= 0.0
  {
    SquaresSum(if |a| < |b| then |a| else |b|, Gap(a, b));
  }

  /** What is left of the triangle inequality on squared distances. */
  lemma RelaxedTriangle(a: Point, b: Point, c: Point)
    requires |a| == |b| == |c|
    ensures SquaredDistance(a, c) <= 2.0 * SquaredDistance(a, b) + 2.0 * SquaredDistance(b, c)
  {
    hide Sum;
    var n := |a|;
    var ab, bc, ac := Products(Gap(a, b), Gap(a, b)), Products(Gap(b, c), Gap(b, c)), Products(Gap(a, c), Gap(a, c));
    var bound := (k: int) => 2.0 * ab(k) + 2.0 * bc(k);
    forall k | 0 <= k < n ensures ac(k) <= bound(k) {
      SquareOfSum(Gap(a, b)(k), Gap(b, c)(k), Gap(a, c)(k), ab(k), bc(k), ac(k));
    }
    SumLe(0, n, ac, bound);
    SumLinear(0, n, 2.0, ab, 2.0, bc, bound);
  }

  lemma SquareOfSum(u: real, v: real, w: real, uu: real, vv: real, ww: real)
    requires w == u + v && uu == u * u && vv == v * v && ww == w * w
    ensures ww <= 2.0 * uu + 2.0 * vv
  {
    var d := u - v;
    var dd := d * d;
    SquareSign(d, dd);
    assert 2.0 * uu + 2.0 * vv - ww == dd;
  }

  // ---------------------------------------------------------------- the nearest of several centres

  /** The smallest squared distance from p to a centre. */
  function Nearest(p: Point, centers: seq<Point>): real
    requires |centers| > 0
  {
    var last := |centers| - 1;
    if last == 0 then SquaredDistance(p, centers[0])
    else MinReal(Nearest(p, centers[..last]), SquaredDistance(p, centers[last]))
  }

  lemma {:induction false} NearestIsLeast(p: Point, centers: seq<Point>)
    requires |centers| > 0
    ensures forall c :: 0 <= c < |centers| ==> Nearest(p, centers) <= SquaredDistance(p, centers[c])
    ensures exists c :: 0 <= c < |centers| && Nearest(p, centers) == SquaredDistance(p, centers[c])
  {
    hide SquaredDistance;
    var last := |centers| - 1;
    if last == 0 {
      assert Nearest(p, centers) == SquaredDistance(p, centers[0]);
    } else {
      var before := centers[..last];
      NearestIsLeast(p, before);
      var c :| 0 <= c < last && Nearest(p, before) == SquaredDistance(p, before[c]);
      assert before[c] == centers[c];
      forall k | 0 <= k < |centers| ensures Nearest(p, centers) <= SquaredDistance(p, centers[k]) {
        assert k < last ==> before[k] == centers[k];
      }
      assert Nearest(p, centers)
        == SquaredDistance(p, centers[if Nearest(p, centers) == Nearest(p, before) then c else last]);
    }
  }

  /** The lowest position of the largest value. */
  function ArgMax(values: seq<real>): (best: nat)
    requires |values| > 0
    ensures best < |values|
  {
    var last := |values| - 1;
    if last == 0 then 0
    else
      var before := ArgMax(values[..last]);
      if values[last] > values[before] then last else before
  }

  lemma {:induction false} ArgMaxIsFirstLargest(values: seq<real>)
    requires |values| > 0
    ensures forall k :: 0 <= k < |values| ==> values[k] <= values[ArgMax(values)]
    ensures forall k :: 0 <= k < ArgMax(values) ==> values[k] < values[ArgMax(values)]
  {
    var last := |values| - 1;
    if last > 0 {
      ArgMaxIsFirstLargest(values[..last]);
      assert forall k :: 0 <= k < last ==> values[..last][k] == values[k];
    }
  }

  /** The lowest position of the smallest value. */
  function ArgMin(values: seq<real>): (best: nat)
    requires |values| > 0
    ensures best < |values|
  {
    var last := |values| - 1;
    if last == 0 then 0
    else
      var before := ArgMin(values[..last]);
      if values[last] < values[before] then last else before
  }

  lemma {:induction false} ArgMinIsFirstSmallest(values: seq<real>)
    requires |values| > 0
    ensures forall k :: 0 <= k < |values| ==> values[ArgMin(values)] <= values[k]
    ensures forall k :: 0 <= k < ArgMin(values) ==> values[ArgMin(values)] < values[k]
  {
    var last := |values| - 1;
    if last > 0 {
      ArgMinIsFirstSmallest(values[..last]);
      assert forall k :: 0 <= k < last ==> values[..last][k] == values[k];
    }
  }

  /** Distances from every point to its nearest centre. */
  function NearestAll(points: seq<Point>, centers: seq<Point>): (d: seq<real>)
    requires |centers| > 0
    ensures |d| == |points| && forall i :: 0 <= i < |points| ==> d[i] == Nearest(points[i], centers)
  {
    seq(|points|, i requires 0 <= i < |points| => Nearest(points[i], centers))
  }

  ghost predicate SameWidth(points: seq<Point>, width: nat) {
    forall i :: 0 <= i < |points| ==> |points[i]| == width
  }
}
