/**
 Removing spikes from one signal: a running median, a threshold from the residual's own spread, and the repair.

 The sample deviation, which replaces a vanishing median deviation, is a parameter.
 */
module Despike {
  import opened Outcomes
  import opened Sums
  import opened Windows
  import opened Repair

  // ---------------------------------------------------------------- medians

  /** The middle value, or the mean of the two middle values. */
  function Median(values: seq<real>): real
    requires values != []
  {
    SortedOrders(values);
    var sorted, middle := Sorted(values), |values| / 2;
    if |values| % 2 == 1 then sorted[middle] else (sorted[middle - 1] + sorted[middle]) / 2.0
  }

  /** At least half of the values are at most the median, and at most half of them are below it. */
  lemma MedianHalves(values: seq<real>)
    requires values != []
    ensures 2 * CountAtMost(values, Median(values)) >= |values| >= 2 * CountBelow(values, Median(values))
  {
    hide Sorted, CountAtMost, CountBelow;
    SortedOrders(values);
    var sorted, middle, m := Sorted(values), |values| / 2, Median(values);
    var lower := if |values| % 2 == 1 then middle else middle - 1;
    assert sorted[lower] <= m <= sorted[middle];
    CountsWhenOrdered(sorted, lower, sorted[lower]);
    CountsWhenOrdered(sorted, middle, sorted[middle]);
    SortedCounts(values, sorted[lower]);
    SortedCounts(values, sorted[middle]);
    CountsGrow(values, sorted[lower], m);
    CountsGrow(values, m, sorted[middle]);
  }

  /** The samples around one position: what the ends cut off is left out, or read as zeros. */
  datatype Filter = Clipped | ZeroPadded

  function Named(path: string): Option<Filter> {
    if path == "moving_median_compat_v1" then Some(Clipped)
    else if path == "median_filter_zero_padded_v1" then Some(ZeroPadded)
    else None
  }

  function Zeros(n: nat): seq<real> {
    seq(n, _ => 0.0)
  }

  function Around(values: seq<real>, half: nat, filter: Filter, i: nat): (r: seq<real>)
    requires i < |values|
    ensures r != []
  {
    match filter
    case Clipped => values[if i < half then 0 else i - half..if |values| < i + half + 1 then |values| else i + half + 1]
    case ZeroPadded => (Zeros(half) + values + Zeros(half))[i..i + 2 * half + 1]
  }

  function Residual(values: seq<real>, half: nat, filter: Filter): (r: seq<real>)
    ensures |r| == |values|
  {
    seq(|values|, i requires 0 <= i < |values| => values[i] - Median(Around(values, half, filter, i)))
  }

  function Deviations(values: seq<real>, center: real): (r: seq<real>)
    ensures |r| == |values|
  {
    seq(|values|, i requires 0 <= i < |values| => AbsReal(values[i] - center))
  }

  /** The median absolute deviation, or the sample deviation where that vanishes. */
  function Spread(residual: seq<real>, deviation: seq<real> -> real): real
    requires residual != []
  {
    var mad := Median(Deviations(residual, Median(residual)));
    if mad < EPSILON then deviation(residual) else mad
  }

  /** The multiple of the spread, as that of a normal distribution with the same median deviation. */
  function Threshold(factor: real, spread: real): real {
    factor * 1.4826 * spread
  }

  // ---------------------------------------------------------------- the whole step

  function Unmarked(n: nat): seq<bool> {
    seq(n, _ => false)
  }

  ghost predicate IsMarking(residual: seq<real>, threshold: real, spikes: seq<bool>) {
    && |spikes| == |residual|
    && forall i :: 0 <= i < |residual| ==> (spikes[i] <==> NearSpike(residual, threshold, i))
  }

  /**
   What a signal long enough for the filter becomes. Nothing is marked when the residual has no spread; otherwise the
   marks are the residuals over the threshold, widened, and the marked samples are repaired if two others remain.
   */
  ghost predicate IsDespiked(values: seq<real>, half: nat, filter: Filter, factor: real,
                             deviation: seq<real> -> real, repaired: seq<real>, spikes: seq<bool>)
    requires values != []
  {
    var residual := Residual(values, half, filter);
    var spread := Spread(residual, deviation);
    if spread < EPSILON then repaired == values && spikes == Unmarked(|values|)
    else
      && IsMarking(residual, Threshold(factor, spread), spikes)
      && (if TwoGood(spikes) then IsRepair(values, spikes, repaired) else repaired == values)
  }

  /** Half the width of the filter; an even width is widened by one. */
  function Half(window: nat): nat {
    window / 2
  }

  method DespikeAndRepair(values: seq<real>, window: nat, factor: real, path: string, deviation: seq<real> -> real)
    returns (r: Result<(seq<real>, seq<bool>)>)
    ensures |values| < window + 5 ==> r == Ok((values, Unmarked(|values|)))
    ensures |values| >= window + 5 && path !in ["moving_median_compat_v1", "median_filter_zero_padded_v1"] ==>
      r == Failed("INPUT_INVALID")
    ensures |values| >= window + 5 && path == "moving_median_compat_v1" ==>
      r.Ok? && IsDespiked(values, Half(window), Clipped, factor, deviation, r.value.0, r.value.1)
    ensures |values| >= window + 5 && path == "median_filter_zero_padded_v1" ==>
      r.Ok? && IsDespiked(values, Half(window), ZeroPadded, factor, deviation, r.value.0, r.value.1)
  {
    if |values| < window + 5 {
      return Ok((values, Unmarked(|values|)));
    }
    var odd := if window % 2 == 0 then window + 1 else window;
    match Named(path) {
      case None =>
        return Failed("INPUT_INVALID");
      case Some(filter) =>
        assert odd / 2 == Half(window);
        var repaired, spikes := DespikeFiltered(values, odd / 2, filter, factor, deviation);
        return Ok((repaired, spikes));
    }
  }

  method DespikeFiltered(values: seq<real>, half: nat, filter: Filter, factor: real, deviation: seq<real> -> real)
    returns (repaired: seq<real>, spikes: seq<bool>)
    requires values != []
    ensures IsDespiked(values, half, filter, factor, deviation, repaired, spikes)
  {
    hide Spread, Residual, IsRepair, TwoGood, NearSpike, Threshold;
    var residual := Residual(values, half, filter);
    var spread := Spread(residual, deviation);
    if spread < EPSILON {
      return values, Unmarked(|values|);
    }
    repaired, spikes := MarkAndRepair(values, residual, Threshold(factor, spread));
  }

  // ---------------------------------------------------------------- the level of a signal

  /** Every value raised by the same amount. */
  function Raised(values: seq<real>, level: real): (r: seq<real>)
    ensures |r| == |values|
    ensures forall i :: 0 <= i < |values| ==> r[i] == values[i] + level
  {
    seq(|values|, i requires 0 <= i < |values| => values[i] + level)
  }

  lemma {:induction false} InsertRaised(v: real, s: seq<real>, level: real)
    ensures Insert(v + level, Raised(s, level)) == Raised(Insert(v, s), level)
  {
    if s == [] || v <= s[0] {
      assert [v + level] + Raised(s, level) == Raised([v] + s, level);
    } else {
      InsertRaised(v, s[1..], level);
      assert Raised(s, level)[1..] == Raised(s[1..], level);
      assert [s[0] + level] + Raised(Insert(v, s[1..]), level) == Raised([s[0]] + Insert(v, s[1..]), level);
    }
  }

  lemma {:induction false} SortedRaised(s: seq<real>, level: real)
    ensures Sorted(Raised(s, level)) == Raised(Sorted(s), level)
  {
    if s != [] {
      SortedRaised(s[1..], level);
      InsertRaised(s[0], Sorted(s[1..]), level);
      assert Raised(s, level)[1..] == Raised(s[1..], level);
    }
  }

  lemma MedianRaised(s: seq<real>, level: real)
    requires s != []
    ensures Median(Raised(s, level)) == Median(s) + level
  {
    SortedOrders(s);
    SortedRaised(s, level);
  }

  lemma AroundRaised(values: seq<real>, half: nat, i: nat, level: real)
    requires i < |values|
    ensures Around(Raised(values, level), half, Clipped, i) == Raised(Around(values, half, Clipped, i), level)
  {
    var lo := if i < half then 0 else i - half;
    var hi := if |values| < i + half + 1 then |values| else i + half + 1;
    assert Raised(values, level)[lo..hi] == Raised(values[lo..hi], level);
  }

  lemma ResidualRaised(values: seq<real>, half: nat, level: real)
    ensures Residual(Raised(values, level), half, Clipped) == Residual(values, half, Clipped)
  {
    hide Median, Around;
    forall i | 0 <= i < |values|
      ensures Residual(Raised(values, level), half, Clipped)[i] == Residual(values, half, Clipped)[i]
    {
      AroundRaised(values, half, i, level);
      MedianRaised(Around(values, half, Clipped, i), level);
    }
  }

  lemma RepairRaised(values: seq<real>, spikes: seq<bool>, repaired: seq<real>, level: real)
    requires IsRepair(values, spikes, repaired)
    ensures IsRepair(Raised(values, level), spikes, Raised(repaired, level))
  {
    hide Anchors;
    var raised := Raised(values, level);
    forall i | 0 <= i < |values| ensures RepairedAt(raised, spikes, i, repaired[i] + level) {
      assert RepairedAt(values, spikes, i, repaired[i]);
      if spikes[i] {
        var l, r :| Anchors(spikes, i, l, r) && OnLine(values, l, r, i, repaired[i]);
        assert OnLine(raised, l, r, i, repaired[i] + level);
      }
    }
  }

  lemma MarkingIsUnique(residual: seq<real>, threshold: real, a: seq<bool>, b: seq<bool>)
    requires IsMarking(residual, threshold, a) && IsMarking(residual, threshold, b)
    ensures a == b
  {
  }

  /** The clipped filter sees no level: a raised signal gets the same marks and the raised repair. */
  lemma LevelDoesNotMatter(values: seq<real>, half: nat, factor: real, deviation: seq<real> -> real, level: real,
                           x: seq<real>, marks: seq<bool>, y: seq<real>, marks': seq<bool>)
    requires values != []
    requires IsDespiked(values, half, Clipped, factor, deviation, x, marks)
    requires IsDespiked(Raised(values, level), half, Clipped, factor, deviation, y, marks')
    ensures marks' == marks && y == Raised(x, level)
  {
    hide Residual, Spread, IsRepair, NearSpike, Threshold;
    ResidualRaised(values, half, level);
    var residual := Residual(values, half, Clipped);
    if Spread(residual, deviation) >= EPSILON {
      MarkingIsUnique(residual, Threshold(factor, Spread(residual, deviation)), marks, marks');
    }
    if IsRepair(values, marks, x) && IsRepair(Raised(values, level), marks, y) {
      RepairRaised(values, marks, x, level);
      SpikesLeaveNoTrace(Raised(values, level), Raised(values, level), marks, y, Raised(x, level));
    }
  }

  // ---------------------------------------------------------------- trends

  /** Away from the ends both filters see the same samples. */
  lemma FiltersAgreeInside(values: seq<real>, half: nat, i: nat)
    requires half <= i < |values| - half
    ensures forall filter :: Around(values, half, filter, i) == values[i - half..i + half + 1]
  {
    assert (Zeros(half) + values + Zeros(half))[i..i + 2 * half + 1] == values[i - half..i + half + 1];
  }

  lemma {:induction false} OrderedIsSorted(s: seq<real>)
    requires Ordered(s)
    ensures Sorted(s) == s
  {
    if s != [] {
      assert Ordered(s[1..]) by {
        forall i, j | 0 <= i <= j < |s[1..]| ensures s[1..][i] <= s[1..][j] {
          assert s[i + 1] <= s[j + 1];
        }
      }
      OrderedIsSorted(s[1..]);
    }
  }

  lemma TrendHasNoResidual(values: seq<real>, half: nat, filter: Filter, i: nat)
    requires Ordered(values) && half <= i < |values| - half
    ensures Residual(values, half, filter)[i] == 0.0
  {
    var window := values[i - half..i + half + 1];
    FiltersAgreeInside(values, half, i);
    assert Ordered(window);
    OrderedIsSorted(window);
    assert window[half] == values[i];
  }

  /** A trend is not a spike: of a signal that never falls, nothing away from the ends is marked or changed. */
  lemma TrendsAreKept(values: seq<real>, half: nat, filter: Filter, factor: real, deviation: seq<real> -> real,
                      repaired: seq<real>, spikes: seq<bool>, i: nat)
    requires values != [] && IsDespiked(values, half, filter, factor, deviation, repaired, spikes)
    requires Ordered(values) && factor >= 0.0 && half < i < |values| - half - 1
    ensures !spikes[i] && repaired[i] == values[i]
  {
    hide Residual, Spread, Anchors, OnLine, Threshold;
    var residual := Residual(values, half, filter);
    var spread := Spread(residual, deviation);
    TrendHasNoResidual(values, half, filter, i - 1);
    TrendHasNoResidual(values, half, filter, i);
    TrendHasNoResidual(values, half, filter, i + 1);
    if spread >= EPSILON {
      ThresholdIsNonnegative(factor, spread);
      assert !NearSpike(residual, Threshold(factor, spread), i);
      if TwoGood(spikes) {
        assert RepairedAt(values, spikes, i, repaired[i]);
      }
    }
  }

  lemma ThresholdIsNonnegative(factor: real, spread: real)
    requires factor >= 0.0 && spread >= 0.0
    ensures Threshold(factor, spread) >= 0.0
  {
  }
}
