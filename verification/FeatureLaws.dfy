/** What the features of a row say about the signals, by their places in the row. */
module FeatureLaws {
  import opened Sums
  import opened Features

  // ---------------------------------------------------------------- the window statistics

  /** Rounding goes to a nearest whole number, and between two of them to the one farther from zero. */
  lemma RoundIsNearest(v: real)
    ensures var distance := AbsReal(RoundHalfAwayFromZero(v) as real - v);
      && distance <= 0.5
      && (distance == 0.5 ==> AbsReal(RoundHalfAwayFromZero(v) as real) > AbsReal(v))
  {
  }

  /** The slope is the rise from the first entry to the last, per step. */
  lemma SlopeIsRise(w: seq<real>)
    requires |w| >= 2
    ensures Slope(w) * ((|w| - 1) as real) == w[|w| - 1] - w[0]
  {
  }

  /** The acceleration is what the last step gained on the step before it. */
  lemma AccelerationIsGain(w: seq<real>)
    requires |w| >= 3
    ensures Acceleration(w) == Difference(w) - Difference(w[..|w| - 1])
    ensures Difference(w) == w[|w| - 1] - w[|w| - 2]
  {
  }

  /** How far entry k is from the one before it. */
  function StepAt(w: seq<real>, k: int): real {
    if 1 <= k < |w| then AbsReal(w[k] - w[k - 1]) else 0.0
  }

  /** The largest step: none is larger, and some step is that large. */
  lemma {:induction false} MaxAdjacentIsLargest(w: seq<real>)
    requires |w| >= 2
    ensures forall k :: 1 <= k < |w| ==> StepAt(w, k) <= MaxAdjacentDifference(w)
    ensures exists k :: 1 <= k < |w| && StepAt(w, k) == MaxAdjacentDifference(w)
  {
    var n := |w| - 1;
    assert StepAt(w, n) == AbsReal(w[|w| - 1] - w[|w| - 2]);
    if |w| > 2 {
      var before := w[..n];
      MaxAdjacentIsLargest(before);
      assert forall j :: 1 <= j < n ==> StepAt(w, j) == StepAt(before, j);
      hide StepAt, AbsReal;
      var k :| 1 <= k < |before| && StepAt(before, k) == MaxAdjacentDifference(before);
      assert StepAt(w, k) == MaxAdjacentDifference(before);
    }
  }

  /** The range is between two entries that bound all others. */
  lemma {:induction false} RangeIsSpanned(w: seq<real>)
    requires |w| >= 1
    ensures Highest(w) in w && Lowest(w) in w
    ensures forall k :: 0 <= k < |w| ==> Lowest(w) <= w[k] <= Highest(w)
  {
    if |w| > 1 {
      var before := w[..|w| - 1];
      RangeIsSpanned(before);
      assert forall k :: 0 <= k < |before| ==> w[k] == before[k];
    }
  }

  // ---------------------------------------------------------------- what the features say of a ramp

  /** Every entry is the one before it plus the rate. */
  ghost predicate IsRamp(w: seq<real>, rate: real) {
    forall k :: 1 <= k < |w| ==> w[k] == w[k - 1] + rate
  }

  lemma {:induction false} RampAt(w: seq<real>, rate: real, k: nat)
    requires IsRamp(w, rate) && k < |w|
    ensures w[k] == w[0] + rate * (k as real)
  {
    if k > 0 {
      RampAt(w, rate, k - 1);
      assert rate * (k as real) == rate * ((k - 1) as real) + rate;
    }
  }

  lemma {:induction false} RampSteps(w: seq<real>, rate: real)
    requires IsRamp(w, rate) && |w| >= 2
    ensures MaxAdjacentDifference(w) == AbsReal(rate)
  {
    if |w| > 2 {
      RampSteps(w[..|w| - 1], rate);
    }
  }

  lemma RampBounds(w: seq<real>, rate: real, k: nat)
    requires IsRamp(w, rate) && k < |w|
    ensures rate >= 0.0 ==> w[0] <= w[k] <= w[|w| - 1]
    ensures rate <= 0.0 ==> w[0] >= w[k] >= w[|w| - 1]
  {
    var n := |w| - 1;
    RampAt(w, rate, k);
    RampAt(w, rate, n);
    ProductSign(rate, k as real, rate * (k as real));
    ProductSign(rate, (n - k) as real, rate * ((n - k) as real));
    assert rate * ((n - k) as real) == rate * (n as real) - rate * (k as real);
  }

  lemma RampRange(w: seq<real>, rate: real)
    requires IsRamp(w, rate) && |w| >= 2
    ensures Highest(w) - Lowest(w) == AbsReal(w[|w| - 1] - w[0])
  {
    RangeIsSpanned(w);
    hide IsRamp, Highest, Lowest;
    var h :| 0 <= h < |w| && w[h] == Highest(w);
    var l :| 0 <= l < |w| && w[l] == Lowest(w);
    RampBounds(w, rate, h);
    RampBounds(w, rate, l);
  }

  lemma RampRise(w: seq<real>, rate: real)
    requires IsRamp(w, rate) && |w| >= 2
    ensures Slope(w) == rate && AbsReal(w[|w| - 1] - w[0]) == AbsReal(rate) * ((|w| - 1) as real)
  {
    var n := (|w| - 1) as real;
    RampAt(w, rate, |w| - 1);
    SlopeIsRise(w);
    hide IsRamp, Slope;
    SameSlope(Slope(w), rate, n, w[|w| - 1] - w[0]);
  }

  lemma SameSlope(slope: real, rate: real, n: real, rise: real)
    requires n > 0.0 && slope * n == rise && rise == rate * n
    ensures slope == rate && AbsReal(rise) == AbsReal(rate) * n
  {
    ProductSign(slope - rate, n, (slope - rate) * n);
    ProductSign(rate, n, rise);
  }

  /** How far a ramp of this many entries goes. */
  function Span(rate: real, entries: nat): real {
    AbsReal(rate) * ((entries - 1) as real)
  }

  /** What the statistics of a window are, if it is a ramp of length lag that ends at `last`. */
  ghost predicate ReadsRamp(w: seq<real>, rate: real, lag: nat)
    requires |w| >= 3
  {
    && Difference(w) == rate && Slope(w) == rate && Acceleration(w) == 0.0
    && MaxAdjacentDifference(w) == AbsReal(rate)
    && Highest(w) - Lowest(w) == Span(rate, lag)
    && Trend(w, 1.0) == w[|w| - 1] + rate
  }

  lemma RampIsRead(w: seq<real>, rate: real)
    requires IsRamp(w, rate) && |w| >= 3
    ensures ReadsRamp(w, rate, |w|)
  {
    RampSteps(w, rate);
    RampRange(w, rate);
    RampRise(w, rate);
    hide MaxAdjacentDifference, Highest, Lowest, Slope;
    assert w[|w| - 1] == w[|w| - 2] + rate && w[|w| - 2] == w[|w| - 3] + rate;
  }

  /** Over the lag rows every signal rises by its own rate per row. */
  ghost predicate AreRamps(rows: seq<RunningRow>, current: nat, lag: nat, rates: RunningRow)
    requires lag <= current < |rows|
  {
    var w := WindowsAt(rows, current, lag);
    IsRamp(w.sd, rates.sd) && IsRamp(w.zl, rates.zl) && IsRamp(w.iavg, rates.iavg) && IsRamp(w.isum, rates.isum)
  }

  /** The signals one, two, up to lag rows ago. */
  function Ago(rows: seq<RunningRow>, current: nat, lag: nat): (a: seq<RunningRow>)
    requires lag <= current < |rows|
    ensures |a| == lag
  {
    seq(lag, k requires 0 <= k < lag => rows[current - 1 - k])
  }

  function Each(rows: seq<RunningRow>, signal: RunningRow -> real): (w: seq<real>)
    ensures |w| == |rows|
  {
    seq(|rows|, k requires 0 <= k < |rows| => signal(rows[k]))
  }

  lemma LagsAreAgo(rows: seq<RunningRow>, current: nat, lag: nat)
    requires lag <= current < |rows|
    ensures Lags(rows, current, lag, Sd) == Each(Ago(rows, current, lag), (row: RunningRow) => row.sd)
    ensures Lags(rows, current, lag, Zl) == Each(Ago(rows, current, lag), (row: RunningRow) => row.zl)
    ensures Lags(rows, current, lag, Iavg) == Each(Ago(rows, current, lag), (row: RunningRow) => row.iavg)
    ensures Lags(rows, current, lag, Isum) == Each(Ago(rows, current, lag), (row: RunningRow) => row.isum)
  {
    LagIsAgo(rows, current, lag, Sd, (row: RunningRow) => row.sd);
    LagIsAgo(rows, current, lag, Zl, (row: RunningRow) => row.zl);
    LagIsAgo(rows, current, lag, Iavg, (row: RunningRow) => row.iavg);
    LagIsAgo(rows, current, lag, Isum, (row: RunningRow) => row.isum);
  }

  lemma LagIsAgo(rows: seq<RunningRow>, current: nat, lag: nat, signal: Signal, field: RunningRow -> real)
    requires lag <= current < |rows| && forall row :: field(row) == ValueOf(row, signal)
    ensures Lags(rows, current, lag, signal) == Each(Ago(rows, current, lag), field)
  {
    forall k | 0 <= k < lag ensures Lags(rows, current, lag, signal)[k] == Each(Ago(rows, current, lag), field)[k] {
      assert field(rows[current - 1 - k]) == ValueOf(rows[current - 1 - k], signal);
    }
  }

  /** The features of four ramps: rates, no acceleration, steps, deviations, spans, and what is next. */
  function RampFeatures(rates: RunningRow, last: RunningRow, lag: nat, w: Windows, deviation: seq<real> -> real)
    : seq<real>
  {
    [rates.isum,
     rates.iavg, rates.isum, rates.zl, rates.sd,
     0.0, 0.0, 0.0, 0.0,
     AbsReal(rates.iavg), AbsReal(rates.isum), AbsReal(rates.zl), AbsReal(rates.sd),
     deviation(w.iavg), deviation(w.isum), deviation(w.zl), deviation(w.sd),
     Span(rates.iavg, lag), Span(rates.isum, lag), Span(rates.zl, lag), Span(rates.sd, lag),
     last.iavg + rates.iavg, last.isum + rates.isum]
  }

  lemma LastOfWindow(rows: seq<RunningRow>, current: nat, lag: nat)
    requires 1 <= lag <= current <= |rows|
    ensures var w := WindowsAt(rows, current, lag);
      && w.iavg[|w.iavg| - 1] == rows[current - 1].iavg && w.isum[|w.isum| - 1] == rows[current - 1].isum
      && |w.iavg| == |w.isum| == |w.zl| == |w.sd| == lag
  {
    assert Window(rows, current, lag, Iavg)[lag - 1] == ValueOf(rows[current - 1], Iavg);
    assert Window(rows, current, lag, Isum)[lag - 1] == ValueOf(rows[current - 1], Isum);
  }

  lemma WindowsAreRead(rows: seq<RunningRow>, current: nat, lag: nat, deviation: seq<real> -> real, rates: RunningRow)
    requires 5 <= lag <= current < |rows| && AreRamps(rows, current, lag, rates)
    ensures var w := WindowsAt(rows, current, lag);
      && WindowFeatures(w, 1.0, deviation) == RampFeatures(rates, rows[current - 1], lag, w, deviation)
      && Difference(w.iavg) == rates.iavg && Difference(w.zl) == rates.zl && Difference(w.sd) == rates.sd
      && TransitionScore(w, deviation) == 3.0 * AbsReal(rates.iavg) + 0.5 * deviation(w.iavg)
  {
    var w := WindowsAt(rows, current, lag);
    RampIsRead(w.sd, rates.sd);
    RampIsRead(w.zl, rates.zl);
    RampIsRead(w.iavg, rates.iavg);
    RampIsRead(w.isum, rates.isum);
    LastOfWindow(rows, current, lag);
    hide Difference, Slope, Acceleration, MaxAdjacentDifference, Highest, Lowest, Trend, IsRamp, AbsReal, WindowsAt;
    RampFeaturesAre(w, rates, rows[current - 1], lag, deviation);
  }

  lemma RampFeaturesAre(w: Windows, rates: RunningRow, last: RunningRow, lag: nat, deviation: seq<real> -> real)
    requires LongEnough(w) && |w.iavg| == |w.isum| == lag
    requires ReadsRamp(w.sd, rates.sd, lag) && ReadsRamp(w.zl, rates.zl, lag)
    requires ReadsRamp(w.iavg, rates.iavg, lag) && ReadsRamp(w.isum, rates.isum, lag)
    requires w.iavg[lag - 1] == last.iavg && w.isum[lag - 1] == last.isum
    ensures WindowFeatures(w, 1.0, deviation) == RampFeatures(rates, last, lag, w, deviation)
    ensures Difference(w.iavg) == rates.iavg && Difference(w.zl) == rates.zl && Difference(w.sd) == rates.sd
    ensures TransitionScore(w, deviation) == 3.0 * AbsReal(rates.iavg) + 0.5 * deviation(w.iavg)
  {
    hide Difference, Slope, Acceleration, MaxAdjacentDifference, Highest, Lowest, Trend, AbsReal, Span;
    var a, b := WindowFeatures(w, 1.0, deviation), RampFeatures(rates, last, lag, w, deviation);
    assert a[..5] == b[..5];
    assert a[5..9] == b[5..9];
    assert a[9..13] == b[9..13];
    assert a[13..17] == b[13..17];
    assert a[17..21] == b[17..21];
    assert a[21..] == b[21..];
  }

  /**
   The whole row, when every signal is a ramp over the lag rows: the present drives, each signal's lags newest first,
   then the rate of the right signal at every place, and with gain one the next values as the trends.
   */
  lemma RampsAreRead(rows: seq<RunningRow>, current: nat, lag: nat, deviation: seq<real> -> real, rates: RunningRow)
    requires 5 <= lag <= current < |rows| && AreRamps(rows, current, lag, rates)
    ensures var ago, last := Ago(rows, current, lag), rows[current - 1];
      var w := WindowsAt(rows, current, lag);
      FeatureRow(rows, current, lag, 1.0, deviation)
      == [rows[current].sd, rows[current].zl]
         + Each(ago, (row: RunningRow) => row.sd) + Each(ago, (row: RunningRow) => row.zl)
         + Each(ago, (row: RunningRow) => row.iavg) + Each(ago, (row: RunningRow) => row.isum)
         + [last.iimb, rates.iavg, rates.zl, rates.sd]
         + RampFeatures(rates, last, lag, w, deviation)
         + [rows[current].zl - last.zl, rows[current].sd - last.sd,
            3.0 * AbsReal(rates.iavg) + 0.5 * deviation(w.iavg)]
  {
    LagsAreAgo(rows, current, lag);
    WindowsAreRead(rows, current, lag, deviation, rates);
    hide Lags, Each, Ago, WindowFeatures, RampFeatures, Difference, TransitionScore, WindowsAt;
  }
}
