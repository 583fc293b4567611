/** Sliding windows of recent scores and errors: their update, their quantile and their winsorised mean. */
module Windows {
  import opened Outcomes
  import opened Sums

  // ---------------------------------------------------------------- the last entries

  /** The last n entries. */
  function LastN(s: seq<real>, n: nat): (r: seq<real>)
    ensures |s| <= n ==> r == s
  {
    if |s| <= n then s else s[|s| - n..]
  }

  /** Appends and drops from the front; with a maximum of zero the source's slice drops nothing. */
  function UpdateWindow(values: seq<real>, value: real, maximum: nat): seq<real> {
    var appended := values + [value];
    if |appended| <= maximum || maximum == 0 then appended else appended[|appended| - maximum..]
  }

  /** The window after all the values have been appended in turn. */
  function Appended(window: seq<real>, values: seq<real>, maximum: nat): seq<real> {
    if values == [] then window
    else UpdateWindow(Appended(window, values[..|values| - 1], maximum), values[|values| - 1], maximum)
  }

  lemma UpdateIsLast(history: seq<real>, value: real, maximum: nat)
    requires maximum > 0
    ensures UpdateWindow(LastN(history, maximum), value, maximum) == LastN(history + [value], maximum)
  {
    var window, longer := LastN(history, maximum), history + [value];
    if |history| >= maximum {
      var drop := |history| - maximum;
      assert window + [value] == longer[drop..];
      assert UpdateWindow(window, value, maximum) == longer[drop..][1..];
      assert longer[drop..][1..] == longer[drop + 1..];
    }
  }

  /** A window holds exactly the last entries of everything it was ever given. */
  lemma {:induction false} WindowIsLast(initial: seq<real>, values: seq<real>, maximum: nat)
    requires 0 < maximum && |initial| <= maximum
    ensures Appended(initial, values, maximum) == LastN(initial + values, maximum)
  {
    if values == [] {
      assert initial + values == initial;
    } else {
      var before := values[..|values| - 1];
      WindowIsLast(initial, before, maximum);
      UpdateIsLast(initial + before, values[|values| - 1], maximum);
      assert initial + before + [values[|values| - 1]] == initial + values;
    }
  }

  /** The window calibration starts from, unless it has too few scores. */
  function InitialWindow(values: seq<real>, maximum: nat, minimum: nat): Result<seq<real>>
    requires maximum > 0
  {
    if |LastN(values, maximum)| < minimum then Failed("INSUFFICIENT_SAMPLES") else Ok(LastN(values, maximum))
  }

  /** Calibration succeeds exactly when there are enough scores and the window may hold enough. */
  lemma InitialWindowExactlyWhen(values: seq<real>, maximum: nat, minimum: nat)
    requires maximum > 0
    ensures InitialWindow(values, maximum, minimum).Ok? <==> minimum <= |values| && minimum <= maximum
    ensures InitialWindow(values, maximum, minimum).Ok? ==>
      minimum <= |InitialWindow(values, maximum, minimum).value| <= maximum
  {
  }

  // ---------------------------------------------------------------- order statistics

  ghost predicate Ordered(s: seq<real>) {
    forall i, j :: 0 <= i <= j < |s| ==> s[i] <= s[j]
  }

  function Insert(v: real, s: seq<real>): seq<real> {
    if s == [] || v <= s[0] then [v] + s else [s[0]] + Insert(v, s[1..])
  }

  function Sorted(s: seq<real>): seq<real> {
    if s == [] then [] else Insert(s[0], Sorted(s[1..]))
  }

  function CountAtMost(s: seq<real>, x: real): nat {
    if s == [] then 0 else (if s[0] <= x then 1 else 0) + CountAtMost(s[1..], x)
  }

  function CountBelow(s: seq<real>, x: real): nat {
    if s == [] then 0 else (if s[0] < x then 1 else 0) + CountBelow(s[1..], x)
  }

  lemma {:induction false} InsertKeeps(v: real, s: seq<real>, x: real)
    ensures |Insert(v, s)| == |s| + 1
    ensures CountAtMost(Insert(v, s), x) == CountAtMost([v] + s, x)
    ensures CountBelow(Insert(v, s), x) == CountBelow([v] + s, x)
  {
    assert ([v] + s)[1..] == s;
    if s != [] && v > s[0] {
      InsertKeeps(v, s[1..], x);
      assert ([v] + s[1..])[1..] == s[1..];
      assert ([s[0]] + Insert(v, s[1..]))[1..] == Insert(v, s[1..]);
    }
  }

  lemma {:induction false} InsertOrders(v: real, s: seq<real>, low: real)
    requires Ordered(s) && low <= v && (s != [] ==> low <= s[0])
    ensures Ordered(Insert(v, s)) && Insert(v, s) != [] && low <= Insert(v, s)[0]
  {
    if s != [] && v > s[0] {
      InsertOrders(v, s[1..], s[0]);
      var rest := Insert(v, s[1..]);
      assert Insert(v, s) == [s[0]] + rest;
      forall i, j | 0 <= i <= j < |rest| + 1 ensures ([s[0]] + rest)[i] <= ([s[0]] + rest)[j] {
        if i > 0 {
          assert rest[i - 1] <= rest[j - 1];
        } else if j > 0 {
          assert s[0] <= rest[0] <= rest[j - 1];
        }
      }
    }
  }

  lemma {:induction false} SortedOrders(s: seq<real>)
    ensures Ordered(Sorted(s)) && |Sorted(s)| == |s|
  {
    if s != [] {
      SortedOrders(s[1..]);
      InsertKeeps(s[0], Sorted(s[1..]), 0.0);
      InsertOrders(s[0], Sorted(s[1..]), if s[1..] == [] then s[0] else MinReal(s[0], Sorted(s[1..])[0]));
    }
  }

  lemma {:induction false} SortedCounts(s: seq<real>, x: real)
    ensures CountAtMost(Sorted(s), x) == CountAtMost(s, x)
    ensures CountBelow(Sorted(s), x) == CountBelow(s, x)
  {
    if s != [] {
      SortedCounts(s[1..], x);
      InsertKeeps(s[0], Sorted(s[1..]), x);
      assert ([s[0]] + Sorted(s[1..]))[1..] == Sorted(s[1..]);
    }
  }

  lemma {:induction false} CountsWhenOrdered(s: seq<real>, k: nat, x: real)
    requires Ordered(s) && k < |s| && x == s[k]
    ensures CountAtMost(s, x) >= k + 1 && CountBelow(s, x) <= k
  {
    assert s[0] <= s[k];
    if k == 0 {
      NoneBelow(s, x);
    } else {
      assert s[1..][k - 1] == s[k];
      CountsWhenOrdered(s[1..], k - 1, x);
    }
  }

  lemma {:induction false} NoneBelow(s: seq<real>, x: real)
    requires forall i :: 0 <= i < |s| ==> x <= s[i]
    ensures CountBelow(s, x) == 0
  {
    if s != [] {
      NoneBelow(s[1..], x);
    }
  }

  lemma {:induction false} CountsAppend(s: seq<real>, v: real, x: real)
    ensures CountAtMost(s + [v], x) == CountAtMost(s, x) + if v <= x then 1 else 0
    ensures CountBelow(s + [v], x) == CountBelow(s, x) + if v < x then 1 else 0
  {
    if s != [] {
      CountsAppend(s[1..], v, x);
      assert (s + [v])[1..] == s[1..] + [v];
    }
  }

  function PositionsAtMost(s: seq<real>, x: real): set<int> {
    set i | 0 <= i < |s| && s[i] <= x
  }

  function PositionsBelow(s: seq<real>, x: real): set<int> {
    set i | 0 <= i < |s| && s[i] < x
  }

  lemma PositionsAppend(s: seq<real>, v: real, x: real)
    ensures PositionsAtMost(s + [v], x) == PositionsAtMost(s, x) + if v <= x then {|s|} else {}
    ensures PositionsBelow(s + [v], x) == PositionsBelow(s, x) + if v < x then {|s|} else {}
    ensures |s| !in PositionsAtMost(s, x) && |s| !in PositionsBelow(s, x)
  {
  }

  /** The two counts are numbers of positions. */
  lemma {:induction false} CountsArePositions(s: seq<real>, x: real)
    ensures CountAtMost(s, x) == |PositionsAtMost(s, x)| && CountBelow(s, x) == |PositionsBelow(s, x)|
  {
    if s != [] {
      var last := |s| - 1;
      CountsArePositions(s[..last], x);
      hide *;
      CountsAppend(s[..last], s[last], x);
      PositionsAppend(s[..last], s[last], x);
      assert s == s[..last] + [s[last]];
    }
  }

  function Ceil(v: real): int {
    0 - (0.0 - v).Floor
  }

  /** min(max(rank - 1, 0), n - 1): the position of the rank-th smallest of n, kept inside. */
  function Position(rank: int, n: nat): nat
    requires n > 0
  {
    if rank < 1 then 0 else if rank > n then n - 1 else rank - 1
  }

  /** At least rank entries (or all) are at most x, and fewer than rank (or none) are below it. */
  ghost predicate IsRanked(values: seq<real>, rank: int, x: real) {
    && (CountAtMost(values, x) >= rank || CountAtMost(values, x) >= |values|)
    && (CountBelow(values, x) < rank || CountBelow(values, x) == 0)
  }

  lemma SortedIsRanked(values: seq<real>, rank: int)
    requires values != []
    ensures |Sorted(values)| == |values|
    ensures IsRanked(values, rank, Sorted(values)[Position(rank, |values|)])
  {
    SortedOrders(values);
    var k := Position(rank, |values|);
    var x := Sorted(values)[k];
    CountsWhenOrdered(Sorted(values), k, x);
    SortedCounts(values, x);
  }

  // ---------------------------------------------------------------- the calibration scale

  /** The conformal rank of a window of n scores. */
  function QuantileRank(n: nat, confidence: real): int {
    Ceil((n as real + 1.0) * confidence)
  }

  function ScoreQuantile(values: seq<real>, confidence: real, low: real, high: real): Result<real> {
    if values == [] then Failed("NUMERICAL_FAILURE")
    else
      SortedOrders(values);
      Ok(Clamp(Sorted(values)[Position(QuantileRank(|values|, confidence), |values|)], low, high))
  }

  lemma CeilBounds(v: real)
    ensures v <= Ceil(v) as real < v + 1.0
  {
  }

  /**
   The calibration scale covers the window: as long as the upper bound does not bind, at least the fraction
   `confidence` of n + 1 scores (or every score) is at most it; as long as the lower bound does not bind, fewer than
   that are below it.
   */
  lemma QuantileCovers(values: seq<real>, confidence: real, low: real, high: real)
    requires values != [] && low <= high
    ensures ScoreQuantile(values, confidence, low, high).Ok?
    ensures var q, wanted := ScoreQuantile(values, confidence, low, high).value, (|values| as real + 1.0) * confidence;
      && low <= q <= high
      && (q < high ==> CountAtMost(values, q) as real >= wanted || CountAtMost(values, q) >= |values|)
      && (q > low ==> CountBelow(values, q) as real < wanted || CountBelow(values, q) == 0)
  {
    var rank := QuantileRank(|values|, confidence);
    SortedIsRanked(values, rank);
    var x, q := Sorted(values)[Position(rank, |values|)], ScoreQuantile(values, confidence, low, high).value;
    CeilBounds((|values| as real + 1.0) * confidence);
    CountsGrow(values, x, q);
    CountsGrow(values, q, x);
  }

  lemma {:induction false} CountsGrow(s: seq<real>, x: real, y: real)
    ensures x <= y ==> CountAtMost(s, x) <= CountAtMost(s, y) && CountBelow(s, x) <= CountBelow(s, y)
  {
    if s != [] {
      CountsGrow(s[1..], x, y);
    }
  }

  // ---------------------------------------------------------------- the winsorised mean

  function NonNegative(values: seq<real>): seq<real> {
    if values == [] then []
    else (if values[0] >= 0.0 then [values[0]] else []) + NonNegative(values[1..])
  }

  ghost predicate AllNonNegative(values: seq<real>) {
    forall k :: 0 <= k < |values| ==> values[k] >= 0.0
  }

  lemma {:induction false} NonNegativeKeeps(values: seq<real>)
    requires AllNonNegative(values)
    ensures NonNegative(values) == values
  {
    if values != [] {
      NonNegativeKeeps(values[1..]);
      assert [values[0]] + values[1..] == values;
    }
  }

  function Capped(values: seq<real>, cap: real): int -> real {
    i => MinReal(At(values, i), cap)
  }

  function CappedMean(values: seq<real>, cap: real): real
    requires values != []
  {
    Sum(0, |values|, Capped(values, cap)) / (|values| as real)
  }

  /** The rank of the winsorising value among n entries. */
  function WinsorRank(n: nat, quantile: real): int {
    Ceil(Clamp(quantile, 0.0, 1.0) * (n as real))
  }

  /** None stands for the infinity of an empty window. */
  function RobustRecentMean(values: seq<real>, quantile: real): Option<real> {
    var filtered := Sorted(NonNegative(values));
    if filtered == [] then None
    else
      Some(CappedMean(filtered, filtered[Position(WinsorRank(|filtered|, quantile), |filtered|)]))
  }

  lemma {:induction false} InsertMembers(v: real, s: seq<real>)
    requires AllNonNegative(s) && v >= 0.0
    ensures AllNonNegative(Insert(v, s))
  {
    if s != [] && v > s[0] {
      InsertMembers(v, s[1..]);
    }
  }

  lemma {:induction false} SortedMembers(s: seq<real>)
    requires AllNonNegative(s)
    ensures AllNonNegative(Sorted(s))
  {
    if s != [] {
      SortedMembers(s[1..]);
      InsertMembers(s[0], Sorted(s[1..]));
    }
  }

  function Constant(v: real): int -> real {
    i => v
  }

  lemma {:induction false} ConstantSum(n: nat, v: real)
    ensures Sum(0, n, Constant(v)) == v * (n as real)
  {
    if n > 0 {
      ConstantSum(n - 1, v);
      assert v * (n as real) == v * ((n - 1) as real) + v;
    }
  }

  lemma Quotient(total: real, low: real, high: real, n: real)
    requires n > 0.0 && low * n <= total <= high * n
    ensures low <= total / n <= high
  {
    var q := total / n;
    assert q * n == total;
    if q < low {
      ProductSign(low - q, n, (low - q) * n);
    }
    if q > high {
      ProductSign(q - high, n, (q - high) * n);
    }
  }

  lemma CappedMeanBounds(values: seq<real>, cap: real)
    requires values != [] && AllNonNegative(values) && cap >= 0.0
    ensures 0.0 <= CappedMean(values, cap) <= cap
  {
    var n := |values|;
    ConstantSum(n, 0.0);
    ConstantSum(n, cap);
    SumLe(0, n, Constant(0.0), Capped(values, cap));
    SumLe(0, n, Capped(values, cap), Constant(cap));
    Quotient(Sum(0, n, Capped(values, cap)), 0.0, cap, n as real);
  }

  /** A non-empty window of squared errors has a recent mean, between zero and the value it is winsorised at. */
  lemma RecentIsDefined(values: seq<real>, quantile: real)
    requires values != [] && AllNonNegative(values)
    ensures RobustRecentMean(values, quantile).Some? && RobustRecentMean(values, quantile).value >= 0.0
    ensures |Sorted(values)| == |values|
    ensures RobustRecentMean(values, quantile).value
         <= Sorted(values)[Position(WinsorRank(|values|, quantile), |values|)]
  {
    hide CappedMean, WinsorRank, Sorted, NonNegative;
    NonNegativeKeeps(values);
    SortedOrders(values);
    SortedMembers(values);
    var sorted := Sorted(values);
    var cap := sorted[Position(WinsorRank(|values|, quantile), |values|)];
    assert cap >= 0.0;
    CappedMeanBounds(sorted, cap);
  }

  /** The recent mean is undefined exactly when no entry is non-negative. */
  lemma {:induction false} RecentUndefinedExactlyWhen(values: seq<real>, quantile: real)
    ensures RobustRecentMean(values, quantile).None? <==> forall k :: 0 <= k < |values| ==> values[k] < 0.0
  {
    hide CappedMean, WinsorRank;
    SortedOrders(NonNegative(values));
    NoneNonNegative(values);
  }

  lemma {:induction false} NoneNonNegative(values: seq<real>)
    ensures NonNegative(values) == [] <==> forall k :: 0 <= k < |values| ==> values[k] < 0.0
  {
    if values != [] {
      NoneNonNegative(values[1..]);
      assert forall k :: 0 < k < |values| ==> values[k] == values[1..][k - 1];
    }
  }

  lemma {:induction false} InsertedFrom(v: real, s: seq<real>)
    ensures forall x :: x in Insert(v, s) ==> x == v || x in s
  {
    if s != [] && v > s[0] {
      InsertedFrom(v, s[1..]);
    }
  }

  lemma {:induction false} SortedFrom(s: seq<real>)
    ensures forall x :: x in Sorted(s) ==> x in s
  {
    if s != [] {
      SortedFrom(s[1..]);
      InsertedFrom(s[0], Sorted(s[1..]));
    }
  }

  /** Entries between low and high have a recent mean between low and high. */
  lemma RecentBetween(values: seq<real>, quantile: real, low: real, high: real)
    requires values != [] && 0.0 <= low <= high && forall k :: 0 <= k < |values| ==> low <= values[k] <= high
    ensures RobustRecentMean(values, quantile).Some? && low <= RobustRecentMean(values, quantile).value <= high
  {
    NonNegativeKeeps(values);
    SortedOrders(values);
    SortedFrom(values);
    hide WinsorRank, Sorted, NonNegative, CappedMean, Capped, Position;
    var sorted, n := Sorted(values), |values|;
    forall k | 0 <= k < n ensures low <= sorted[k] <= high {
      assert sorted[k] in sorted;
      assert sorted[k] in values;
    }
    PositionIsInside(WinsorRank(n, quantile), n);
    CappedBetween(sorted, sorted[Position(WinsorRank(n, quantile), n)], low, high);
  }

  lemma PositionIsInside(rank: int, n: nat)
    requires n > 0
    ensures 0 <= Position(rank, n) < n
  {
  }

  lemma CappedBetween(values: seq<real>, cap: real, low: real, high: real)
    requires values != [] && low <= cap && forall k :: 0 <= k < |values| ==> low <= values[k] <= high
    ensures low <= CappedMean(values, cap) <= high
  {
    hide Sum;
    var n := |values|;
    ConstantSum(n, low);
    ConstantSum(n, high);
    SumLe(0, n, Constant(low), Capped(values, cap));
    SumLe(0, n, Capped(values, cap), Constant(high));
    Quotient(Sum(0, n, Capped(values, cap)), low, high, n as real);
  }

  function CappedTotal(s: seq<real>, cap: real): real {
    if s == [] then 0.0 else MinReal(s[0], cap) + CappedTotal(s[1..], cap)
  }

  lemma {:induction false} CappedTotalIsSum(s: seq<real>, cap: real)
    ensures Sum(0, |s|, Capped(s, cap)) == CappedTotal(s, cap)
    decreases |s|
  {
    if s != [] {
      var rest := s[1..];
      CappedTotalIsSum(rest, cap);
      SumFirst(0, |s|, Capped(s, cap));
      SumShift(0, |rest|, 1, Capped(rest, cap), Capped(s, cap));
    }
  }

  lemma {:induction false} CappedInsert(v: real, s: seq<real>, cap: real)
    ensures CappedTotal(Insert(v, s), cap) == MinReal(v, cap) + CappedTotal(s, cap)
  {
    hide MinReal;
    assert ([v] + s)[1..] == s;
    if s != [] && v > s[0] {
      CappedInsert(v, s[1..], cap);
      assert ([s[0]] + Insert(v, s[1..]))[1..] == Insert(v, s[1..]);
    }
  }

  lemma {:induction false} CappedSorted(s: seq<real>, cap: real)
    ensures CappedTotal(Sorted(s), cap) == CappedTotal(s, cap)
  {
    if s != [] {
      CappedSorted(s[1..], cap);
      CappedInsert(s[0], Sorted(s[1..]), cap);
    }
  }

  /** How many of n entries the asked fraction is. */
  function Wanted(quantile: real, n: nat): real {
    Clamp(quantile, 0.0, 1.0) * (n as real)
  }

  /** The least entry that at least the asked fraction of the entries do not exceed. */
  ghost predicate IsCap(values: seq<real>, quantile: real, cap: real) {
    && cap in values && CountAtMost(values, cap) as real >= Wanted(quantile, |values|)
    && (CountBelow(values, cap) as real < Wanted(quantile, |values|) || CountBelow(values, cap) == 0)
  }

  lemma WinsorRankIs(n: nat, quantile: real)
    ensures Wanted(quantile, n) <= WinsorRank(n, quantile) as real < Wanted(quantile, n) + 1.0
    ensures Wanted(quantile, n) <= n as real
  {
    var share := Clamp(quantile, 0.0, 1.0);
    CeilBounds(share * (n as real));
    ProductSign(1.0 - share, n as real, (1.0 - share) * (n as real));
  }

  lemma RankIsCap(values: seq<real>, quantile: real)
    requires values != []
    ensures |Sorted(values)| == |values|
    ensures IsCap(values, quantile, Sorted(values)[Position(WinsorRank(|values|, quantile), |values|)])
  {
    hide Wanted, WinsorRank, Sorted, CountAtMost, CountBelow, Position;
    var n, rank := |values|, WinsorRank(|values|, quantile);
    SortedFrom(values);
    SortedIsRanked(values, rank);
    PositionIsInside(rank, n);
    var cap := Sorted(values)[Position(rank, n)];
    assert cap in Sorted(values);
    WinsorRankIs(n, quantile);
  }

  lemma CappedMeanIs(values: seq<real>, cap: real)
    requires values != []
    ensures CappedMean(values, cap) * (|values| as real) == Sum(0, |values|, Capped(values, cap))
  {
    hide Sum;
  }

  /** The recent mean is the mean of the entries, in any order, each taken at most as large as the cap. */
  lemma RecentIsWinsorised(values: seq<real>, quantile: real) returns (cap: real)
    requires values != [] && AllNonNegative(values)
    ensures IsCap(values, quantile, cap) && RobustRecentMean(values, quantile).Some?
    ensures RobustRecentMean(values, quantile).value * (|values| as real) == Sum(0, |values|, Capped(values, cap))
  {
    hide Sorted, NonNegative, WinsorRank, Sum, IsCap, CappedMean, CappedTotal, Position;
    NonNegativeKeeps(values);
    RankIsCap(values, quantile);
    var sorted := Sorted(values);
    PositionIsInside(WinsorRank(|values|, quantile), |values|);
    cap := sorted[Position(WinsorRank(|values|, quantile), |values|)];
    CappedTotalIsSum(values, cap);
    CappedTotalIsSum(sorted, cap);
    CappedSorted(values, cap);
    CappedMeanIs(sorted, cap);
  }
}
