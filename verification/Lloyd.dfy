/**
 Lloyd's iteration over farthest-first seeds.

 Every iteration, re-seeding of empty clusters included, never increases the sum of squared distances to the
 nearest centre; and a loop that stops early stops at a fixed point of the non-empty clusters.
 */
module Lloyd {
  import opened Outcomes
  import opened Sums
  import opened Distances
  import opened Selection
  import opened Twister

  // ---------------------------------------------------------------- one iteration

  function DistanceRow(p: Point, centers: seq<Point>): (row: seq<real>)
    ensures |row| == |centers|
  {
    seq(|centers|, c requires 0 <= c < |centers| => SquaredDistance(p, centers[c]))
  }

  /** The index of the nearest centre of every point, the lowest index on a tie. */
  function Assign(points: seq<Point>, centers: seq<Point>): (assignment: seq<nat>)
    requires |centers| > 0
    ensures |assignment| == |points|
  {
    seq(|points|, i requires 0 <= i < |points| => ArgMin(DistanceRow(points[i], centers)))
  }

  /** The points assigned to cluster c, in order. */
  function Members(points: seq<Point>, assignment: seq<nat>, c: nat): seq<Point>
    requires |points| == |assignment|
  {
    if points == [] then []
    else
      var last := |points| - 1;
      Members(points[..last], assignment[..last], c) + if assignment[last] == c then [points[last]] else []
  }

  function Column(points: seq<Point>, k: int): int -> real {
    i => if 0 <= i < |points| then At(points[i], k) else 0.0
  }

  /** The mean of the members, coordinate by coordinate. */
  function Mean(members: seq<Point>, width: nat): (mean: Point)
    requires |members| > 0
    ensures |mean| == width
  {
    seq(width, k => Sum(0, |members|, Column(members, k)) / |members| as real)
  }

  /** The new centre of cluster c: the mean of its members, or the point farthest from all old centres. */
  function Recentred(points: seq<Point>, centers: seq<Point>, assignment: seq<nat>, c: nat): Point
    requires |points| > 0 && |centers| > 0 && |assignment| == |points|
  {
    var members := Members(points, assignment, c);
    if members != [] then Mean(members, |centers[0]|)
    else points[ArgMax(NearestAll(points, centers))]
  }

  function Step(points: seq<Point>, centers: seq<Point>): (next: seq<Point>)
    requires |points| > 0 && |centers| > 0
    ensures |next| == |centers|
  {
    var assignment := Assign(points, centers);
    seq(|centers|, c requires 0 <= c < |centers| => Recentred(points, centers, assignment, c))
  }

  /** At most `iterations` steps, cut short when the assignment repeats. */
  function Iterate(points: seq<Point>, centers: seq<Point>, previous: Option<seq<nat>>,
                   iterations: nat): (final: seq<Point>)
    requires |points| > 0 && |centers| > 0
    ensures |final| == |centers|
    decreases iterations
  {
    if iterations == 0 || previous == Some(Assign(points, centers)) then centers
    else Iterate(points, Step(points, centers), Some(Assign(points, centers)), iterations - 1)
  }

  /** The loop comes to an assignment it has just had, before it has used up its iterations. */
  predicate StopsEarly(points: seq<Point>, centers: seq<Point>, previous: Option<seq<nat>>, iterations: nat)
    requires |points| > 0 && |centers| > 0
    decreases iterations
  {
    iterations > 0
    && (previous == Some(Assign(points, centers))
        || StopsEarly(points, Step(points, centers), Some(Assign(points, centers)), iterations - 1))
  }

  /** Sum of squared distances to the nearest centre. */
  function NearestCosts(points: seq<Point>, centers: seq<Point>): int -> real
    requires |centers| > 0
  {
    i => if 0 <= i < |points| then Nearest(points[i], centers) else 0.0
  }

  function Cost(points: seq<Point>, centers: seq<Point>): real
    requires |centers| > 0
  {
    Sum(0, |points|, NearestCosts(points, centers))
  }

  // ---------------------------------------------------------------- the mean is the best single centre

  function Deviation(x: int -> real, y: real): int -> real {
    i => x(i) - y
  }

  /** In one coordinate, no value is closer to the samples in total squares than their mean. */
  lemma MeanIsBestInColumn(n: nat, x: int -> real, mean: real, y: real)
    requires n > 0 && mean == Sum(0, n, x) / n as real
    ensures Dot(n, Deviation(x, mean), Deviation(x, mean)) <= Dot(n, Deviation(x, y), Deviation(x, y))
  {
    SumOfExcess(n, x, mean, y);
    LossDifference(n, x, mean, y);
    hide *;
    MeanGain(n as real, mean - y, Sum(0, n, Excess(x, mean + y)), Dot(n, Deviation(x, mean), Deviation(x, mean)),
             Dot(n, Deviation(x, y), Deviation(x, y)));
  }

  lemma LossDifference(n: nat, x: int -> real, mean: real, y: real)
    ensures Dot(n, Deviation(x, y), Deviation(x, y))
         == 1.0 * Dot(n, Deviation(x, mean), Deviation(x, mean)) + (mean - y) * Sum(0, n, Excess(x, mean + y))
  {
    var g, h := Products(Deviation(x, mean), Deviation(x, mean)), Products(Deviation(x, y), Deviation(x, y));
    var e := Excess(x, mean + y);
    hide Sum, Products, Deviation, Excess;
    forall i | 0 <= i < n ensures h(i) == 1.0 * g(i) + (mean - y) * e(i) {
      ExcessTerm(x, mean, y, i);
    }
    SumLinear(0, n, 1.0, g, mean - y, e, h);
  }

  function Excess(x: int -> real, k: real): int -> real {
    i => 2.0 * x(i) - k
  }

  lemma ExcessTerm(x: int -> real, mean: real, y: real, i: int)
    ensures Products(Deviation(x, y), Deviation(x, y))(i)
         == 1.0 * Products(Deviation(x, mean), Deviation(x, mean))(i) + (mean - y) * Excess(x, mean + y)(i)
  {
    DifferenceOfSquares(x(i), mean, y);
  }

  lemma DifferenceOfSquares(x: real, m: real, y: real)
    ensures (x - y) * (x - y) == 1.0 * ((x - m) * (x - m)) + (m - y) * (2.0 * x - (m + y))
  {
  }

  lemma SumOfExcess(n: nat, x: int -> real, mean: real, y: real)
    requires n > 0 && mean == Sum(0, n, x) / n as real
    ensures Sum(0, n, Excess(x, mean + y)) == n as real * (mean - y)
  {
    SumOfShifted(n, x, mean + y);
    hide Excess;
    assert Sum(0, n, x) == n as real * mean;
    assert n as real * (mean - y) == 2.0 * (n as real * mean) - n as real * (mean + y);
  }

  lemma {:induction false} SumOfShifted(n: nat, x: int -> real, k: real)
    ensures Sum(0, n, Excess(x, k)) == 2.0 * Sum(0, n, x) - n as real * k
  {
    if n > 0 {
      SumOfShifted(n - 1, x, k);
      assert n as real * k == (n - 1) as real * k + k;
    }
  }

  lemma MeanGain(n: real, d: real, s: real, least: real, other: real)
    requires n > 0.0 && s == n * d && other == 1.0 * least + d * s
    ensures least <= other
  {
    var dd := d * d;
    SquareSign(d, dd);
    assert d * s == n * dd;
    ProductSign(n, dd, n * dd);
  }

  /** The sum of squared distances from all members to y. */
  function SpreadTerms(members: seq<Point>, y: Point): int -> real {
    i => if 0 <= i < |members| then SquaredDistance(members[i], y) else 0.0
  }

  function Spread(members: seq<Point>, y: Point): real {
    Sum(0, |members|, SpreadTerms(members, y))
  }

  function CoordinateTerms(members: seq<Point>, y: Point): (int, int) -> real {
    (i, k) => (Column(members, k)(i) - At(y, k)) * (Column(members, k)(i) - At(y, k))
  }

  /** The spread, summed coordinate by coordinate. */
  lemma SpreadByColumns(members: seq<Point>, width: nat, y: Point, columns: int -> real)
    requires SameWidth(members, width) && |y| == width
    requires forall k :: 0 <= k < width ==>
      columns(k) == Dot(|members|, Deviation(Column(members, k), At(y, k)), Deviation(Column(members, k), At(y, k)))
    ensures Spread(members, y) == Sum(0, width, columns)
  {
    var n, f := |members|, CoordinateTerms(members, y);
    SpreadByRows(members, width, y);
    hide Spread, CoordinateTerms, Column;
    SumExchange(0, n, 0, width, f);
    forall k | 0 <= k < width ensures columns(k) == RowSums(0, n, Transposed(f))(k) {
      ColumnOfSpread(members, y, k);
    }
    SumEq(0, width, columns, RowSums(0, n, Transposed(f)));
  }

  lemma SpreadByRows(members: seq<Point>, width: nat, y: Point)
    requires SameWidth(members, width) && |y| == width
    ensures Spread(members, y) == Sum(0, |members|, RowSums(0, width, CoordinateTerms(members, y)))
  {
    var n, f := |members|, CoordinateTerms(members, y);
    forall i | 0 <= i < n ensures SpreadTerms(members, y)(i) == RowSums(0, width, f)(i) {
      RowOfSpread(members, width, y, i);
    }
    SumEq(0, n, SpreadTerms(members, y), RowSums(0, width, f));
  }

  lemma RowOfSpread(members: seq<Point>, width: nat, y: Point, i: nat)
    requires SameWidth(members, width) && |y| == width && i < |members|
    ensures SquaredDistance(members[i], y) == RowSums(0, width, CoordinateTerms(members, y))(i)
  {
    var f, gap := CoordinateTerms(members, y), Gap(members[i], y);
    forall k | 0 <= k < width ensures Products(gap, gap)(k) == Row(f, i)(k) {
      var v := gap(k);
      assert Column(members, k)(i) - At(y, k) == v;
      assert f(i, k) == v * v;
    }
    SumEq(0, width, Products(gap, gap), Row(f, i));
  }

  lemma ColumnOfSpread(members: seq<Point>, y: Point, k: nat)
    ensures Dot(|members|, Deviation(Column(members, k), At(y, k)), Deviation(Column(members, k), At(y, k)))
         == RowSums(0, |members|, Transposed(CoordinateTerms(members, y)))(k)
  {
    var n, f, d := |members|, CoordinateTerms(members, y), Deviation(Column(members, k), At(y, k));
    SumEq(0, n, Products(d, d), Row(Transposed(f), k));
  }

  function ColumnSpreads(members: seq<Point>, y: Point): int -> real {
    k => Dot(|members|, Deviation(Column(members, k), At(y, k)), Deviation(Column(members, k), At(y, k)))
  }

  /** No centre is closer to the members in total than their mean. */
  lemma MeanIsBest(members: seq<Point>, width: nat, y: Point)
    requires |members| > 0 && SameWidth(members, width) && |y| == width
    ensures Spread(members, Mean(members, width)) <= Spread(members, y)
  {
    hide Sum, Dot, Spread;
    var mean := Mean(members, width);
    forall k | 0 <= k < width ensures ColumnSpreads(members, mean)(k) <= ColumnSpreads(members, y)(k) {
      MeanIsBestInColumn(|members|, Column(members, k), At(mean, k), At(y, k));
    }
    SumLe(0, width, ColumnSpreads(members, mean), ColumnSpreads(members, y));
    SpreadByColumns(members, width, mean, ColumnSpreads(members, mean));
    SpreadByColumns(members, width, y, ColumnSpreads(members, y));
  }

  // ---------------------------------------------------------------- costs by cluster

  ghost predicate NamesCenters(assignment: seq<nat>, count: nat) {
    forall i :: 0 <= i < |assignment| ==> assignment[i] < count
  }

  /** The distance of each point to the centre it is assigned to. */
  function AssignedTerms(points: seq<Point>, assignment: seq<nat>, centers: seq<Point>): int -> real
    requires |assignment| == |points|
  {
    i => if 0 <= i < |points| && assignment[i] < |centers|
      then SquaredDistance(points[i], centers[assignment[i]]) else 0.0
  }

  function AssignedCost(points: seq<Point>, assignment: seq<nat>, centers: seq<Point>): real
    requires |assignment| == |points|
  {
    Sum(0, |points|, AssignedTerms(points, assignment, centers))
  }

  /** The distance of point i to y if i belongs to cluster c. */
  function ClusterTerms(points: seq<Point>, assignment: seq<nat>, c: int, y: Point): int -> real
    requires |assignment| == |points|
  {
    i => if 0 <= i < |points| && assignment[i] == c then SquaredDistance(points[i], y) else 0.0
  }

  /** The spread of every cluster about its centre. */
  function ClusterSpreads(points: seq<Point>, assignment: seq<nat>, centers: seq<Point>): int -> real
    requires |assignment| == |points|
  {
    c => if 0 <= c < |centers| then Spread(Members(points, assignment, c), centers[c]) else 0.0
  }

  lemma SumAppend(members: seq<Point>, p: Point, y: Point)
    ensures Spread(members + [p], y) == Spread(members, y) + SquaredDistance(p, y)
  {
    hide SquaredDistance;
    SumEq(0, |members|, SpreadTerms(members + [p], y), SpreadTerms(members, y));
  }

  lemma {:induction false} MembersSpread(points: seq<Point>, assignment: seq<nat>, c: nat, y: Point)
    requires |assignment| == |points|
    ensures Sum(0, |points|, ClusterTerms(points, assignment, c, y)) == Spread(Members(points, assignment, c), y)
  {
    if points != [] {
      hide SquaredDistance, Spread;
      var last := |points| - 1;
      var shorter := ClusterTerms(points[..last], assignment[..last], c, y);
      MembersSpread(points[..last], assignment[..last], c, y);
      SumEq(0, last, ClusterTerms(points, assignment, c, y), shorter);
      if assignment[last] == c {
        SumAppend(Members(points[..last], assignment[..last], c), points[last], y);
      } else {
        assert Members(points, assignment, c) == Members(points[..last], assignment[..last], c);
      }
    } else {
      SpreadOfNone(y);
    }
  }

  lemma SpreadOfNone(y: Point)
    ensures Spread([], y) == 0.0
  {
  }

  lemma SumOfOne(n: nat, f: int -> real, at: nat)
    requires at < n && forall k :: 0 <= k < n && k != at ==> f(k) == 0.0
    ensures Sum(0, n, f) == f(at)
  {
    SumSplit(0, at, n, f);
    SumZero(0, at, f);
    SumFirst(at, n, f);
    SumZero(at + 1, n, f);
  }

  function ByCluster(points: seq<Point>, assignment: seq<nat>, centers: seq<Point>): (int, int) -> real
    requires |assignment| == |points|
  {
    (i, c) => if 0 <= c < |centers| then ClusterTerms(points, assignment, c, centers[c])(i) else 0.0
  }

  /** A point counts in its own cluster only. */
  lemma RowOfCluster(points: seq<Point>, assignment: seq<nat>, centers: seq<Point>, i: nat)
    requires |assignment| == |points| && NamesCenters(assignment, |centers|) && i < |points|
    ensures Sum(0, |centers|, Row(ByCluster(points, assignment, centers), i))
      == AssignedTerms(points, assignment, centers)(i)
  {
    hide SquaredDistance, Sum;
    var row := Row(ByCluster(points, assignment, centers), i);
    forall c | 0 <= c < |centers| && c != assignment[i] ensures row(c) == 0.0 {
      assert row(c) == ClusterTerms(points, assignment, c, centers[c])(i);
    }
    assert row(assignment[i]) == ClusterTerms(points, assignment, assignment[i], centers[assignment[i]])(i);
    SumOfOne(|centers|, row, assignment[i]);
  }

  /** The assigned cost is the sum of the clusters' spreads. */
  lemma AssignedCostByCluster(points: seq<Point>, assignment: seq<nat>, centers: seq<Point>)
    requires |assignment| == |points| && NamesCenters(assignment, |centers|)
    ensures AssignedCost(points, assignment, centers) == Sum(0, |centers|, ClusterSpreads(points, assignment, centers))
  {
    hide SquaredDistance, Sum, Spread, Members;
    var n, count, f := |points|, |centers|, ByCluster(points, assignment, centers);
    forall i | 0 <= i < n ensures AssignedTerms(points, assignment, centers)(i) == RowSums(0, count, f)(i) {
      RowOfCluster(points, assignment, centers, i);
    }
    SumEq(0, n, AssignedTerms(points, assignment, centers), RowSums(0, count, f));
    SumExchange(0, n, 0, count, f);
    forall c | 0 <= c < count
      ensures RowSums(0, n, Transposed(f))(c) == ClusterSpreads(points, assignment, centers)(c)
    {
      MembersSpread(points, assignment, c, centers[c]);
      SumEq(0, n, Row(Transposed(f), c), ClusterTerms(points, assignment, c, centers[c]));
    }
    SumEq(0, count, RowSums(0, n, Transposed(f)), ClusterSpreads(points, assignment, centers));
  }

  // ---------------------------------------------------------------- descent

  /** Points are assigned to a centre at their nearest distance. */
  lemma AssignIsNearest(points: seq<Point>, centers: seq<Point>)
    requires |centers| > 0
    ensures NamesCenters(Assign(points, centers), |centers|)
    ensures AssignedCost(points, Assign(points, centers), centers) == Cost(points, centers)
  {
    hide SquaredDistance, Nearest, ArgMin;
    var assignment := Assign(points, centers);
    forall i | 0 <= i < |points|
      ensures AssignedTerms(points, assignment, centers)(i) == NearestCosts(points, centers)(i)
    {
      ArgMinIsNearest(points[i], centers);
    }
    SumEq(0, |points|, AssignedTerms(points, assignment, centers), NearestCosts(points, centers));
  }

  lemma ArgMinIsNearest(p: Point, centers: seq<Point>)
    requires |centers| > 0
    ensures SquaredDistance(p, centers[ArgMin(DistanceRow(p, centers))]) == Nearest(p, centers)
  {
    hide SquaredDistance, Nearest, ArgMin;
    var row := DistanceRow(p, centers);
    ArgMinIsFirstSmallest(row);
    NearestIsLeast(p, centers);
    var c :| 0 <= c < |centers| && Nearest(p, centers) == SquaredDistance(p, centers[c]);
    assert row[ArgMin(row)] <= row[c];
  }

  /** No assignment does better than the nearest centre. */
  lemma CostIsLeast(points: seq<Point>, assignment: seq<nat>, centers: seq<Point>)
    requires |centers| > 0 && |assignment| == |points| && NamesCenters(assignment, |centers|)
    ensures Cost(points, centers) <= AssignedCost(points, assignment, centers)
  {
    hide SquaredDistance, Nearest, Sum;
    forall i | 0 <= i < |points|
      ensures NearestCosts(points, centers)(i) <= AssignedTerms(points, assignment, centers)(i)
    {
      NearestIsLeast(points[i], centers);
    }
    SumLe(0, |points|, NearestCosts(points, centers), AssignedTerms(points, assignment, centers));
  }

  lemma {:induction false} MembersWidth(points: seq<Point>, width: nat, assignment: seq<nat>, c: nat)
    requires |assignment| == |points| && SameWidth(points, width)
    ensures SameWidth(Members(points, assignment, c), width)
  {
    if points != [] {
      MembersWidth(points[..|points| - 1], width, assignment[..|points| - 1], c);
    }
  }

  /** Moving one cluster's centre does not increase that cluster's spread. */
  lemma ClusterImproves(points: seq<Point>, width: nat, centers: seq<Point>, c: nat)
    requires |points| > 0 && SameWidth(points, width) && SameWidth(centers, width) && c < |centers|
    ensures var members := Members(points, Assign(points, centers), c);
      Spread(members, Step(points, centers)[c]) <= Spread(members, centers[c])
  {
    hide Spread, Members, Nearest, ArgMax;
    var members := Members(points, Assign(points, centers), c);
    if members != [] {
      MembersWidth(points, width, Assign(points, centers), c);
      MeanIsBest(members, width, centers[c]);
    } else {
      SpreadOfNone(centers[c]);
      SpreadOfNone(Step(points, centers)[c]);
    }
  }

  /** An iteration never increases the cost. */
  lemma StepDescends(points: seq<Point>, width: nat, centers: seq<Point>)
    requires |points| > 0 && |centers| > 0 && SameWidth(points, width) && SameWidth(centers, width)
    ensures Cost(points, Step(points, centers)) <= Cost(points, centers)
  {
    hide Sum, Spread, Members, Recentred, SquaredDistance, Nearest, ArgMin;
    var assignment, next := Assign(points, centers), Step(points, centers);
    AssignIsNearest(points, centers);
    AssignedCostByCluster(points, assignment, centers);
    AssignedCostByCluster(points, assignment, next);
    forall c | 0 <= c < |centers|
      ensures ClusterSpreads(points, assignment, next)(c) <= ClusterSpreads(points, assignment, centers)(c)
    {
      ClusterImproves(points, width, centers, c);
    }
    SumLe(0, |centers|, ClusterSpreads(points, assignment, next), ClusterSpreads(points, assignment, centers));
    CostIsLeast(points, assignment, next);
  }

  lemma StepKeepsWidth(points: seq<Point>, width: nat, centers: seq<Point>)
    requires |points| > 0 && |centers| > 0 && SameWidth(points, width) && SameWidth(centers, width)
    ensures SameWidth(Step(points, centers), width)
  {
    hide Members, Nearest, ArgMax;
  }

  /** The whole run never ends with a higher cost than it started from. */
  lemma {:induction false} IterateDescends(points: seq<Point>, width: nat, centers: seq<Point>,
                                           previous: Option<seq<nat>>, iterations: nat)
    requires |points| > 0 && |centers| > 0 && SameWidth(points, width) && SameWidth(centers, width)
    ensures Cost(points, Iterate(points, centers, previous, iterations)) <= Cost(points, centers)
    decreases iterations
  {
    hide Step, Assign, Cost;
    if iterations > 0 && previous != Some(Assign(points, centers)) {
      StepDescends(points, width, centers);
      StepKeepsWidth(points, width, centers);
      IterateDescends(points, width, Step(points, centers), Some(Assign(points, centers)), iterations - 1);
    }
  }

  /** Every non-empty cluster is centred on the mean of exactly the points nearest to it. */
  ghost predicate IsFixed(points: seq<Point>, centers: seq<Point>)
    requires |points| > 0 && |centers| > 0
  {
    forall c :: 0 <= c < |centers| ==>
      var members := Members(points, Assign(points, centers), c);
      members != [] ==> centers[c] == Mean(members, |centers[0]|)
  }

  /** Centres that repeat the assignment they were computed from are fixed. */
  lemma RepeatedAssignmentIsFixed(points: seq<Point>, width: nat, before: seq<Point>)
    requires |points| > 0 && |before| > 0 && SameWidth(points, width) && SameWidth(before, width)
    requires Assign(points, Step(points, before)) == Assign(points, before)
    ensures IsFixed(points, Step(points, before))
  {
    StepKeepsWidth(points, width, before);
    hide Members, Mean, Nearest, ArgMax, ArgMin;
  }

  /** A run that stops early ends with fixed centres. */
  lemma {:induction false} EarlyStopIsFixed(points: seq<Point>, width: nat, centers: seq<Point>,
                                            previous: Option<seq<nat>>, before: seq<Point>, iterations: nat)
    requires |points| > 0 && |centers| > 0 && SameWidth(points, width) && SameWidth(centers, width)
    requires |before| > 0 && SameWidth(before, width)
    requires previous.Some? ==> previous.value == Assign(points, before) && centers == Step(points, before)
    requires StopsEarly(points, centers, previous, iterations)
    ensures IsFixed(points, Iterate(points, centers, previous, iterations))
    decreases iterations
  {
    hide Step, Assign, IsFixed;
    if previous == Some(Assign(points, centers)) {
      RepeatedAssignmentIsFixed(points, width, before);
    } else {
      StepKeepsWidth(points, width, centers);
      EarlyStopIsFixed(points, width, Step(points, centers), Some(Assign(points, centers)), centers, iterations - 1);
    }
  }

  /** The cost that the iterations lower is never negative. */
  lemma CostIsNonnegative(points: seq<Point>, centers: seq<Point>)
    requires |centers| > 0
    ensures Cost(points, centers) >= 0.0
  {
    var zero := (i: int) => 0.0;
    forall i | 0 <= i < |points| ensures zero(i) <= NearestCosts(points, centers)(i) {
      NearestIsLeast(points[i], centers);
      var c :| 0 <= c < |centers| && Nearest(points[i], centers) == SquaredDistance(points[i], centers[c]);
      SquaredDistanceNonnegative(points[i], centers[c]);
    }
    SumLe(0, |points|, zero, NearestCosts(points, centers));
    SumZero(0, |points|, zero);
  }

  // ---------------------------------------------------------------- the loop

  /** Farthest-first seeds followed by at most `iterations` Lloyd steps. */
  method SimpleKMeans(points: seq<Point>, width: nat, count: int, iterations: nat, seed: int)
    returns (centers: seq<Point>, ghost seeds: seq<Point>, ghost chosen: seq<nat>)
    requires SameWidth(points, width)
    ensures |points| == 0 || count <= 0 ==> centers == []
    ensures |points| > 0 && count > 0 ==>
      && |centers| == |seeds| == (if count < |points| then count else |points|)
      && FarthestFirst(points, chosen) && seeds == Pick(points, chosen)
      && chosen[0] == ScaledFloor(UniformAt(seed, 0), |points|)
      && centers == Iterate(points, seeds, None, iterations)
      && Cost(points, centers) <= Cost(points, seeds)
      && (StopsEarly(points, seeds, None, iterations) ==> IsFixed(points, centers))
  {
    seeds, chosen := [], [];
    if |points| == 0 || count <= 0 {
      return [], [], [];
    }
    hide Nearest, SquaredDistance, FarthestFirst, UniformAt, Step, Assign, Cost, IsFixed, ScaledFloor, StopsEarly,
      Iterate;
    centers, chosen := FarthestPointSubset(points, count, seed);
    seeds := centers;
    var assignment: Option<seq<nat>> := None;
    for iteration := 0 to iterations
      invariant |centers| == |seeds| && SameWidth(centers, width)
      invariant Iterate(points, centers, assignment, iterations - iteration) == Iterate(points, seeds, None, iterations)
    {
      var current := Assign(points, centers);
      IterateUnfolds(points, centers, assignment, iterations - iteration);
      if assignment == Some(current) {
        break;
      }
      assignment := Some(current);
      StepKeepsWidth(points, width, centers);
      centers := Update(points, centers, current);
    }
    IterateUnfolds(points, centers, assignment, 0);
    IterateDescends(points, width, seeds, None, iterations);
    if StopsEarly(points, seeds, None, iterations) {
      EarlyStopIsFixed(points, width, seeds, None, seeds, iterations);
    }
  }

  lemma IterateUnfolds(points: seq<Point>, centers: seq<Point>, previous: Option<seq<nat>>, iterations: nat)
    requires |points| > 0 && |centers| > 0
    ensures iterations == 0 || previous == Some(Assign(points, centers)) ==>
      Iterate(points, centers, previous, iterations) == centers
    ensures iterations > 0 && previous != Some(Assign(points, centers)) ==>
      Iterate(points, centers, previous, iterations)
      == Iterate(points, Step(points, centers), Some(Assign(points, centers)), iterations - 1)
  {
  }

  /** The update of all centres in place, from the old distances. */
  method Update(points: seq<Point>, earlier: seq<Point>, assignment: seq<nat>) returns (centers: seq<Point>)
    requires |points| > 0 && |earlier| > 0 && assignment == Assign(points, earlier)
    ensures centers == Step(points, earlier)
  {
    hide Nearest, SquaredDistance, Assign, ArgMax, Members, Mean;
    centers := earlier;
    for c := 0 to |earlier|
      invariant |centers| == |earlier|
      invariant forall k :: 0 <= k < c ==> centers[k] == Recentred(points, earlier, assignment, k)
      invariant forall k :: c <= k < |earlier| ==> centers[k] == earlier[k]
    {
      centers := centers[c := Recentred(points, earlier, assignment, c)];
    }
  }
}
