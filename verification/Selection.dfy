/**
 Farthest-first selection, and its guarantee: no other choice of as many centres covers the points better than
 within a factor two of the distance, which is a factor four of the squared distance the source compares.
 */
module Selection {
  import opened Outcomes
  import opened Sums
  import opened Distances
  import opened Twister

  /** The points at the given positions. */
  function Pick(points: seq<Point>, chosen: seq<nat>): (picked: seq<Point>)
    requires forall k :: 0 <= k < |chosen| ==> chosen[k] < |points|
    ensures |picked| == |chosen| && forall k :: 0 <= k < |chosen| ==> picked[k] == points[chosen[k]]
  {
    seq(|chosen|, k requires 0 <= k < |chosen| => points[chosen[k]])
  }

  ghost predicate InRange(points: seq<Point>, chosen: seq<nat>) {
    forall k :: 0 <= k < |chosen| ==> chosen[k] < |points|
  }

  /** Every choice after the first is the first point farthest from the ones chosen before it. */
  ghost predicate FarthestFirst(points: seq<Point>, chosen: seq<nat>) {
    && |points| > 0
    && InRange(points, chosen)
    && forall k :: 1 <= k < |chosen| ==> IsNext(points, chosen[..k], chosen[k])
  }

  ghost predicate IsNext(points: seq<Point>, before: seq<nat>, next: nat) {
    && |points| > 0 && |before| > 0 && InRange(points, before)
    && next == ArgMax(NearestAll(points, Pick(points, before)))
  }

  /** Every point has a centre within the given squared distance. */
  ghost predicate Covers(points: seq<Point>, centers: seq<Point>, squared: real) {
    |centers| > 0 && forall i :: 0 <= i < |points| ==> Nearest(points[i], centers) <= squared
  }

  /** Any two chosen points are at least `bound` apart. */
  ghost predicate Separated(centers: seq<Point>, bound: real) {
    forall a, b :: 0 <= a < b < |centers| ==> SquaredDistance(centers[b], centers[a]) >= bound
  }

  lemma NearestShrinks(p: Point, centers: seq<Point>, next: Point)
    requires |centers| > 0
    ensures Nearest(p, centers + [next]) == MinReal(Nearest(p, centers), SquaredDistance(p, next))
  {
    assert (centers + [next])[..|centers|] == centers;
  }

  lemma PrefixIsFarthestFirst(points: seq<Point>, chosen: seq<nat>)
    requires FarthestFirst(points, chosen) && |chosen| > 0
    ensures FarthestFirst(points, chosen[..|chosen| - 1])
  {
    hide IsNext;
    var shorter := chosen[..|chosen| - 1];
    forall k | 1 <= k < |shorter| ensures IsNext(points, shorter[..k], shorter[k]) {
      assert shorter[..k] == chosen[..k];
    }
  }

  /** The next choice is at least as far from the earlier ones as any other point. */
  lemma NextIsFarthest(points: seq<Point>, before: seq<nat>, next: nat, i: nat)
    requires IsNext(points, before, next) && i < |points|
    ensures next < |points|
    ensures Nearest(points[i], Pick(points, before)) <= Nearest(points[next], Pick(points, before))
  {
    hide Nearest;
    ArgMaxIsFirstLargest(NearestAll(points, Pick(points, before)));
  }

  /** Chosen points are at least as far apart as any point is from them. */
  lemma {:induction false} ChosenAreSeparated(points: seq<Point>, chosen: seq<nat>, i: nat)
    requires FarthestFirst(points, chosen) && |chosen| > 0 && i < |points|
    ensures Separated(Pick(points, chosen), Nearest(points[i], Pick(points, chosen)))
  {
    hide Nearest, SquaredDistance, IsNext;
    var last := |chosen| - 1;
    var picked := Pick(points, chosen);
    if last > 0 {
      var before := Pick(points, chosen[..last]);
      assert picked == before + [points[chosen[last]]];
      PrefixIsFarthestFirst(points, chosen);
      ChosenAreSeparated(points, chosen[..last], i);
      NearestShrinks(points[i], before, points[chosen[last]]);
      assert IsNext(points, chosen[..last], chosen[last]);
      NextIsFarthest(points, chosen[..last], chosen[last], i);
      NearestIsLeast(points[chosen[last]], before);
      SeparatedStep(before, picked[last], Nearest(points[i], before), Nearest(points[i], picked));
    }
  }

  lemma SeparatedStep(before: seq<Point>, next: Point, wide: real, bound: real)
    requires Separated(before, wide) && bound <= wide
    requires forall a :: 0 <= a < |before| ==> wide <= SquaredDistance(next, before[a])
    ensures Separated(before + [next], bound)
  {
    hide SquaredDistance;
    var picked := before + [next];
    forall a, b | 0 <= a < b < |picked| ensures SquaredDistance(picked[b], picked[a]) >= bound {
      assert picked[a] == before[a];
      assert b < |before| ==> picked[b] == before[b];
    }
  }

  /** Among more values than there are names, two share a name. */
  lemma {:induction false} Pigeonhole(names: seq<nat>, count: nat) returns (a: nat, b: nat)
    requires |names| > count && forall k :: 0 <= k < |names| ==> names[k] < count
    ensures a < b < |names| && names[a] == names[b]
    decreases count
  {
    var last := |names| - 1;
    if k :| 0 <= k < last && names[k] == names[last] {
      return k, last;
    }
    var top := count - 1;
    var renamed := seq(last, k requires 0 <= k < last => if names[k] == top then names[last] else names[k]);
    a, b := Pigeonhole(renamed, top);
  }

  /** The centre a point is covered by. */
  lemma CoveringCentre(p: Point, centers: seq<Point>, squared: real) returns (c: nat)
    requires |centers| > 0 && Nearest(p, centers) <= squared
    ensures c < |centers| && SquaredDistance(p, centers[c]) <= squared
  {
    hide Nearest, SquaredDistance;
    NearestIsLeast(p, centers);
    c :| 0 <= c < |centers| && Nearest(p, centers) == SquaredDistance(p, centers[c]);
  }

  ghost predicate AssignedWithin(points: seq<Point>, centers: seq<Point>, squared: real, names: seq<nat>) {
    && |names| <= |points|
    && forall k :: 0 <= k < |names| ==> names[k] < |centers| && SquaredDistance(points[k], centers[names[k]]) <= squared
  }

  lemma CoveringCentres(points: seq<Point>, centers: seq<Point>, squared: real) returns (names: seq<nat>)
    requires Covers(points, centers, squared)
    ensures |names| == |points| && AssignedWithin(points, centers, squared, names)
  {
    hide Nearest, SquaredDistance;
    names := [];
    while |names| < |points|
      invariant AssignedWithin(points, centers, squared, names)
    {
      var c := CoveringCentre(points[|names|], centers, squared);
      names := names + [c];
    }
  }

  /** Two points covered by one centre are within twice its distance of each other. */
  lemma SharedCentre(p: Point, q: Point, centre: Point, squared: real)
    requires |p| == |q| == |centre|
    requires SquaredDistance(p, centre) <= squared && SquaredDistance(q, centre) <= squared
    ensures SquaredDistance(p, q) <= 4.0 * squared
  {
    SquaredDistanceSymmetric(q, centre);
    RelaxedTriangle(p, centre, q);
  }

  /**
   The two-approximation: whatever squared radius some other `count` centres reach, anywhere in the space, the
   selected points reach four times it, so twice the radius.
   */
  lemma SelectionIsTwoApproximation(points: seq<Point>, width: nat, chosen: seq<nat>, other: seq<Point>, squared: real)
    requires SameWidth(points, width) && SameWidth(other, width)
    requires FarthestFirst(points, chosen) && 0 < |other| <= |chosen|
    requires Covers(points, other, squared)
    ensures Covers(points, Pick(points, chosen), 4.0 * squared)
  {
    hide Nearest, SquaredDistance, FarthestFirst;
    assert InRange(points, chosen) by {
      InRangeIfFarthestFirst(points, chosen);
    }
    forall i | 0 <= i < |points| ensures Nearest(points[i], Pick(points, chosen)) <= 4.0 * squared {
      WithinTwice(points, width, chosen, other, squared, i);
    }
  }

  lemma InRangeIfFarthestFirst(points: seq<Point>, chosen: seq<nat>)
    requires FarthestFirst(points, chosen)
    ensures InRange(points, chosen)
  {
  }

  lemma WithinTwice(points: seq<Point>, width: nat, chosen: seq<nat>, other: seq<Point>, squared: real, i: nat)
    requires SameWidth(points, width) && SameWidth(other, width)
    requires FarthestFirst(points, chosen) && 0 < |other| <= |chosen|
    requires Covers(points, other, squared) && i < |points|
    ensures Nearest(points[i], Pick(points, chosen)) <= 4.0 * squared
  {
    InRangeIfFarthestFirst(points, chosen);
    hide Nearest, SquaredDistance, FarthestFirst;
    var picked := Pick(points, chosen);
    var suspects := picked + [points[i]];
    SuspectsCovered(points, chosen, other, squared, i);
    var names := CoveringCentres(suspects, other, squared);
    var a, b := Pigeonhole(names, |other|);
    assert |suspects[a]| == |suspects[b]| == |other[names[a]]|;
    SharedCentre(suspects[b], suspects[a], other[names[a]], squared);
    assert suspects[a] == picked[a];
    if b < |picked| {
      ChosenAreSeparated(points, chosen, i);
      assert suspects[b] == picked[b];
    } else {
      NearestIsLeast(points[i], picked);
    }
  }

  lemma SuspectsCovered(points: seq<Point>, chosen: seq<nat>, other: seq<Point>, squared: real, i: nat)
    requires InRange(points, chosen) && i < |points| && Covers(points, other, squared)
    ensures Covers(Pick(points, chosen) + [points[i]], other, squared)
  {
    hide Nearest;
    var suspects := Pick(points, chosen) + [points[i]];
    forall k | 0 <= k < |suspects| ensures Nearest(suspects[k], other) <= squared {
      assert k < |chosen| ==> suspects[k] == points[chosen[k]];
    }
  }

  // ---------------------------------------------------------------- the two selection loops

  /** Positions chosen farthest first from a seeded random start. */
  method FarthestPointSubset(points: seq<Point>, count: int, seed: int)
    returns (subset: seq<Point>, ghost chosen: seq<nat>)
    ensures |points| == 0 || count <= 0 ==> subset == []
    ensures |points| > 0 && count > 0 ==>
      && |subset| == (if count < |points| then count else |points|)
      && FarthestFirst(points, chosen) && subset == Pick(points, chosen)
      && chosen[0] == ScaledFloor(UniformAt(seed, 0), |points|)
  {
    chosen := [];
    if |points| == 0 || count <= 0 {
      return [], [];
    }
    var wanted := if count < |points| then count else |points|;
    var stream := new ReferenceTwister(seed);
    var start := stream.Randi(|points|);
    var picks := [start.value];
    var minimum := seq(|points|, i requires 0 <= i < |points| => SquaredDistance(points[i], points[start.value]));
    assert Pick(points, picks) == [points[start.value]];
    hide SquaredDistance, Nearest, ArgMax, FarthestFirst, RunningMinimum, UniformAt;
    while |picks| < wanted
      invariant 1 <= |picks| <= wanted && picks[0] == start.value
      invariant InRange(points, picks) && FarthestFirst(points, picks)
      invariant minimum == NearestAll(points, Pick(points, picks))
    {
      var next := ArgMax(minimum);
      Extend(points, picks, next, minimum);
      picks := picks + [next];
      minimum := RunningMinimum(points, minimum, next);
    }
    return Pick(points, picks), picks;
  }

  /** One more choice keeps the selection farthest first and the running minima exact. */
  lemma Extend(points: seq<Point>, picks: seq<nat>, next: nat, minimum: seq<real>)
    requires FarthestFirst(points, picks) && |picks| > 0
    requires minimum == NearestAll(points, Pick(points, picks)) && next == ArgMax(minimum)
    ensures FarthestFirst(points, picks + [next])
    ensures RunningMinimum(points, minimum, next) == NearestAll(points, Pick(points, picks + [next]))
  {
    hide SquaredDistance, Nearest, ArgMax;
    var longer := picks + [next];
    assert IsNext(points, picks, next);
    assert FarthestFirst(points, longer) by {
      hide IsNext;
      forall k | 1 <= k < |longer| ensures IsNext(points, longer[..k], longer[k]) {
        assert longer[..k] == if k < |picks| then picks[..k] else picks;
      }
    }
    assert Pick(points, longer) == Pick(points, picks) + [points[next]];
    forall i | 0 <= i < |points|
      ensures MinReal(minimum[i], SquaredDistance(points[i], points[next])) == Nearest(points[i], Pick(points, longer))
    {
      NearestShrinks(points[i], Pick(points, picks), points[next]);
    }
  }

  /** The minima after one more choice, as the source updates them. */
  function RunningMinimum(points: seq<Point>, minimum: seq<real>, next: nat): seq<real>
    requires |minimum| == |points| && next < |points|
  {
    seq(|points|, i requires 0 <= i < |points| => MinReal(minimum[i], SquaredDistance(points[i], points[next])))
  }
}
