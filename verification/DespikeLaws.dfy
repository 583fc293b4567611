/** What the median, the filters and the threshold of the spike removal mean, apart from how they are computed. */
module DespikeLaws {
  import opened Outcomes
  import opened Sums
  import opened Windows
  import opened Repair
  import opened Despike

  /** Twice the median is the sum of the two middle values; there is one middle value where their number is odd. */
  lemma MedianIsMiddle(values: seq<real>)
    requires values != []
    ensures exists a, b :: AreMiddle(values, a, b) && 2.0 * Median(values) == a + b
  {
    var low, high := (|values| + 1) / 2, |values| / 2 + 1;
    hide Sorted, IsRanked;
    SortedOrders(values);
    SortedIsRanked(values, low);
    SortedIsRanked(values, high);
    assert AreMiddle(values, Sorted(values)[low - 1], Sorted(values)[high - 1]);
  }

  ghost predicate AreMiddle(values: seq<real>, a: real, b: real) {
    IsRanked(values, (|values| + 1) / 2, a) && IsRanked(values, |values| / 2 + 1, b)
  }

  /** There is only one value of a rank. */
  lemma RankedOnce(values: seq<real>, rank: int, x: real, y: real)
    requires 1 <= rank <= |values| && IsRanked(values, rank, x) && IsRanked(values, rank, y)
    ensures x == y
  {
    AtMostIsBelow(values, x, y);
    AtMostIsBelow(values, y, x);
  }

  /** What is at most x is below anything larger. */
  lemma {:induction false} AtMostIsBelow(values: seq<real>, x: real, y: real)
    ensures x < y ==> CountAtMost(values, x) <= CountBelow(values, y)
  {
    if values != [] {
      AtMostIsBelow(values[1..], x, y);
    }
  }

  /** The filter at i sees the samples at most half away, in order; beyond the ends it sees nothing, or zeros. */
  lemma AroundSees(values: seq<real>, half: nat, i: nat)
    requires i < |values|
    ensures var low, high := if i < half then 0 else i - half, if |values| <= i + half then |values| else i + half + 1;
      Around(values, half, Clipped, i) == values[low..high]
    ensures |Around(values, half, ZeroPadded, i)| == 2 * half + 1
    ensures forall k :: 0 <= k <= 2 * half ==> Around(values, half, ZeroPadded, i)[k] == At(values, i - half + k)
  {
  }

  // ---------------------------------------------------------------- the spread of the residual

  lemma {:induction false} DeviationsRaised(residual: seq<real>, center: real, level: real)
    ensures Deviations(Raised(residual, level), center + level) == Deviations(residual, center)
  {
  }

  /** A constant added to the residual is not spread, as long as the sample deviation does not see it either. */
  lemma SpreadIgnoresLevel(residual: seq<real>, deviation: seq<real> -> real, level: real)
    requires residual != [] && deviation(Raised(residual, level)) == deviation(residual)
    ensures Spread(Raised(residual, level), deviation) == Spread(residual, deviation)
  {
    hide Median;
    MedianRaised(residual, level);
    DeviationsRaised(residual, Median(residual), level);
  }

  /** At least half of the residual is within the median deviation, and at most half of it is nearer. */
  lemma SpreadHalves(residual: seq<real>, deviation: seq<real> -> real)
    requires residual != []
    ensures var distances := Deviations(residual, Median(residual));
      var spread := Spread(residual, deviation);
      || 2 * CountAtMost(distances, spread) >= |residual| >= 2 * CountBelow(distances, spread)
      || (spread == deviation(residual) && 2 * CountAtMost(distances, EPSILON) >= |residual|)
  {
    hide Median, CountAtMost, CountBelow;
    var distances := Deviations(residual, Median(residual));
    MedianHalves(distances);
    CountsGrow(distances, Median(distances), EPSILON);
  }

  /**
   Which samples are marked: those with a residual of more than 1.4826 spreads times the factor, at their own place or
   beside it; none where the residual has no spread.
   */
  lemma MarksMean(values: seq<real>, half: nat, filter: Filter, factor: real, deviation: seq<real> -> real,
                  repaired: seq<real>, spikes: seq<bool>, i: nat)
    requires values != [] && IsDespiked(values, half, filter, factor, deviation, repaired, spikes) && i < |values|
    ensures var residual := Residual(values, half, filter);
      var spread := Spread(residual, deviation);
      i < |spikes| && (spikes[i] <==>
        spread >= EPSILON
        && exists j: nat :: j < |values| && i - 1 <= j <= i + 1 && AbsReal(residual[j]) > factor * spread * 1.4826)
  {
    var residual := Residual(values, half, filter);
    var spread := Spread(residual, deviation);
    hide Residual, Spread, IsRepair, TwoGood, Threshold, NearSpike;
    SameThreshold(factor, spread);
    NearMeans(residual, factor * spread * 1.4826, i);
  }

  lemma NearMeans(residual: seq<real>, threshold: real, i: nat)
    requires i < |residual|
    ensures NearSpike(residual, threshold, i)
      <==> exists j: nat :: j < |residual| && i - 1 <= j <= i + 1 && AbsReal(residual[j]) > threshold
  {
    hide AbsReal;
    if NearSpike(residual, threshold, i) {
      var j := if Exceeds(residual, threshold, i - 1) then i - 1
               else if Exceeds(residual, threshold, i) then i else i + 1;
      assert Exceeds(residual, threshold, j);
    }
  }

  lemma SameThreshold(factor: real, spread: real)
    ensures Threshold(factor, spread) == factor * spread * 1.4826
  {
  }

  /** The filter looks at an odd number of samples: the window, or one more where it is even. */
  lemma FilterIsOdd(window: nat)
    ensures 2 * Half(window) + 1 == if window % 2 == 1 then window else window + 1
  {
  }
}
