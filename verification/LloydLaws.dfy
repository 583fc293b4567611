/** What one Lloyd step does to each cluster, and how many steps the loop takes. */
module LloydLaws {
  import opened Outcomes
  import opened Sums
  import opened Distances
  import opened Selection
  import opened Lloyd

  // ---------------------------------------------------------------- the members of a cluster

  /** Where the points of cluster c are, in increasing order. */
  function Places(assignment: seq<nat>, c: nat): seq<nat> {
    if assignment == [] then []
    else
      var last := |assignment| - 1;
      Places(assignment[..last], c) + if assignment[last] == c then [last] else []
  }

  ghost predicate ArePlaces(assignment: seq<nat>, c: nat, places: seq<nat>) {
    && (forall k :: 0 <= k < |places| ==> places[k] < |assignment| && assignment[places[k]] == c)
    && (forall i, j :: 0 <= i < j < |places| ==> places[i] < places[j])
    && (forall i :: 0 <= i < |assignment| && assignment[i] == c ==> i in places)
  }

  lemma {:induction false} PlacesAre(assignment: seq<nat>, c: nat)
    ensures ArePlaces(assignment, c, Places(assignment, c))
  {
    if assignment != [] {
      var last := |assignment| - 1;
      PlacesAre(assignment[..last], c);
    }
  }

  /** The members of a cluster are exactly the points assigned to it, each once and in order. */
  lemma {:induction false} MembersAreThoseAssigned(points: seq<Point>, assignment: seq<nat>, c: nat)
    requires |points| == |assignment|
    ensures ArePlaces(assignment, c, Places(assignment, c))
    ensures Members(points, assignment, c) == Pick(points, Places(assignment, c))
  {
    PlacesAre(assignment, c);
    if points != [] {
      var last := |points| - 1;
      MembersAreThoseAssigned(points[..last], assignment[..last], c);
      PlacesAre(assignment[..last], c);
      var before := Places(assignment[..last], c);
      assert Pick(points[..last], before) == Pick(points, before);
    }
  }

  // ---------------------------------------------------------------- one step

  /** The lowest of the centres nearest to the point. */
  ghost predicate IsFirstNearest(p: Point, centers: seq<Point>, c: nat) {
    && c < |centers|
    && (forall k :: 0 <= k < |centers| ==> SquaredDistance(p, centers[c]) <= SquaredDistance(p, centers[k]))
    && (forall k :: 0 <= k < c ==> SquaredDistance(p, centers[c]) < SquaredDistance(p, centers[k]))
  }

  lemma AssignedToFirstNearest(points: seq<Point>, centers: seq<Point>, i: nat)
    requires |centers| > 0 && i < |points|
    ensures IsFirstNearest(points[i], centers, Assign(points, centers)[i])
  {
    var row := DistanceRow(points[i], centers);
    ArgMinIsFirstSmallest(row);
    hide SquaredDistance, ArgMin;
    assert forall k :: 0 <= k < |centers| ==> row[k] == SquaredDistance(points[i], centers[k]);
  }

  /** The point is the first of those farthest from all the centres. */
  ghost predicate IsFirstFarthest(points: seq<Point>, centers: seq<Point>, i: nat)
    requires |centers| > 0
  {
    && i < |points|
    && (forall k :: 0 <= k < |points| ==> Nearest(points[k], centers) <= Nearest(points[i], centers))
    && (forall k :: 0 <= k < i ==> Nearest(points[k], centers) < Nearest(points[i], centers))
  }

  /** Each coordinate of the centre, times the number of points picked, is their total in that coordinate. */
  ghost predicate IsCentroid(points: seq<Point>, places: seq<nat>, center: Point, width: nat)
    requires InRange(points, places)
  {
    && |center| == width
    && forall k :: 0 <= k < width ==>
      center[k] * |places| as real == Sum(0, |places|, Column(Pick(points, places), k))
  }

  lemma MeanBalances(members: seq<Point>, width: nat, k: nat)
    requires |members| > 0 && k < width
    ensures Mean(members, width)[k] * |members| as real == Sum(0, |members|, Column(members, k))
  {
    hide Sum, Column;
    TimesQuotient(Sum(0, |members|, Column(members, k)), |members| as real);
  }

  lemma TimesQuotient(x: real, n: real)
    requires n > 0.0
    ensures x / n * n == x
  {
  }

  /**
   One step, in the terms of the points: a cluster that some point is nearest to moves to the centroid of exactly those
   points, ties going to the lower cluster; one that no point is nearest to moves to the first of the points farthest
   from all the old centres.
   */
  lemma StepMoves(points: seq<Point>, width: nat, centers: seq<Point>, c: nat)
    requires |points| > 0 && c < |centers| && SameWidth(centers, width)
    ensures forall i :: 0 <= i < |points| ==> IsFirstNearest(points[i], centers, Assign(points, centers)[i])
    ensures var places, moved := Places(Assign(points, centers), c), Step(points, centers)[c];
      && ArePlaces(Assign(points, centers), c, places)
      && (places != [] ==> IsCentroid(points, places, moved, width))
      && (places == [] ==> exists i: nat :: IsFirstFarthest(points, centers, i) && moved == points[i])
  {
    var assignment := Assign(points, centers);
    MembersAreThoseAssigned(points, assignment, c);
    forall i | 0 <= i < |points| ensures IsFirstNearest(points[i], centers, assignment[i]) {
      AssignedToFirstNearest(points, centers, i);
    }
    Recentres(points, width, centers, assignment, c);
    hide *;
    StepAt(points, centers, c);
  }

  lemma StepAt(points: seq<Point>, centers: seq<Point>, c: nat)
    requires |points| > 0 && c < |centers|
    ensures Step(points, centers)[c] == Recentred(points, centers, Assign(points, centers), c)
  {
    hide Recentred;
  }

  lemma Recentres(points: seq<Point>, width: nat, centers: seq<Point>, assignment: seq<nat>, c: nat)
    requires |points| == |assignment| > 0 && c < |centers| && SameWidth(centers, width)
    requires ArePlaces(assignment, c, Places(assignment, c))
    requires Members(points, assignment, c) == Pick(points, Places(assignment, c))
    ensures var places, moved := Places(assignment, c), Recentred(points, centers, assignment, c);
      && (places != [] ==> IsCentroid(points, places, moved, width))
      && (places == [] ==> exists i: nat :: IsFirstFarthest(points, centers, i) && moved == points[i])
  {
    hide Places, Members, Nearest, ArgMax, Mean;
    var members := Members(points, assignment, c);
    if members != [] {
      forall k | 0 <= k < width
        ensures Mean(members, width)[k] * |members| as real == Sum(0, |members|, Column(members, k))
      {
        MeanBalances(members, width, k);
      }
    } else {
      var far := NearestAll(points, centers);
      ArgMaxIsFirstLargest(far);
      assert IsFirstFarthest(points, centers, ArgMax(far));
    }
  }

  // ---------------------------------------------------------------- the loop

  /** The centres after m steps. */
  function Stepped(points: seq<Point>, centers: seq<Point>, m: nat): (after: seq<Point>)
    requires |points| > 0 && |centers| > 0
    ensures |after| == |centers|
  {
    if m == 0 then centers else Step(points, Stepped(points, centers, m - 1))
  }

  /** The assignment after m steps is the one they were computed from. */
  ghost predicate Repeats(points: seq<Point>, centers: seq<Point>, m: nat)
    requires |points| > 0 && |centers| > 0
  {
    m > 0 && Assign(points, Stepped(points, centers, m)) == Assign(points, Stepped(points, centers, m - 1))
  }

  /** The assignment the m-th step was computed from. */
  function Before(points: seq<Point>, centers: seq<Point>, m: nat): Option<seq<nat>>
    requires |points| > 0 && |centers| > 0
  {
    if m == 0 then None else Some(Assign(points, Stepped(points, centers, m - 1)))
  }

  /** From step k on, m is the first step that repeats its assignment, or the last one allowed. */
  ghost predicate IsLastStep(points: seq<Point>, centers: seq<Point>, k: nat, iterations: nat, m: nat)
    requires |points| > 0 && |centers| > 0
  {
    && k <= m <= iterations
    && (forall j :: k <= j < m ==> !Repeats(points, centers, j))
    && (m < iterations ==> Repeats(points, centers, m))
  }

  lemma {:induction false} IterateFrom(points: seq<Point>, centers: seq<Point>, k: nat, iterations: nat)
    returns (m: nat)
    requires |points| > 0 && |centers| > 0 && k <= iterations
    ensures IsLastStep(points, centers, k, iterations, m)
    ensures Iterate(points, Stepped(points, centers, k), Before(points, centers, k), iterations - k)
      == Stepped(points, centers, m)
    ensures StopsEarly(points, Stepped(points, centers, k), Before(points, centers, k), iterations - k)
      <==> m < iterations
    decreases iterations - k
  {
    hide Step, Assign;
    if k == iterations || Repeats(points, centers, k) {
      m := k;
    } else {
      m := IterateFrom(points, centers, k + 1, iterations);
    }
  }

  /**
   The loop takes exactly the steps up to the first that repeats its assignment, or all it is allowed; it stops early
   exactly in the first case.
   */
  lemma IterateStopsAtFirstRepeat(points: seq<Point>, centers: seq<Point>, iterations: nat) returns (m: nat)
    requires |points| > 0 && |centers| > 0
    ensures IsLastStep(points, centers, 0, iterations, m)
    ensures Iterate(points, centers, None, iterations) == Stepped(points, centers, m)
    ensures StopsEarly(points, centers, None, iterations) <==> m < iterations
  {
    hide *;
    m := IterateFrom(points, centers, 0, iterations);
    StartsAt(points, centers);
  }

  lemma StartsAt(points: seq<Point>, centers: seq<Point>)
    requires |points| > 0 && |centers| > 0
    ensures Stepped(points, centers, 0) == centers && Before(points, centers, 0).None?
  {
    hide Step, Assign;
  }
}
