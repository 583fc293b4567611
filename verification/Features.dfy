/** Partitioning, chronological splitting and the transition features: balanced, in order, and blind to the present. */
module Features {
  import opened Outcomes
  import opened Quotients
  import opened Sums

  // ---------------------------------------------------------------- partitions

  function RoundHalfAwayFromZero(v: real): int {
    if v >= 0.0 then (v + 0.5).Floor else 0 - (0.0 - (v - 0.5)).Floor
  }

  /** The one-based edge before part index. */
  function Edge(total: nat, parts: nat, index: nat): int
    requires parts > 0
  {
    RoundHalfAwayFromZero(1.0 + (index * total) as real / parts as real)
  }

  lemma RealQuotient(a: nat, b: nat, q: int, x: real)
    requires b > 0 && q == (2 * a + b) / (2 * b) && x == a as real / b as real
    ensures q as real <= x + 0.5 < (q + 1) as real
  {
    var r := (2 * a + b) % (2 * b);
    RealDivision(2 * a + b, 2 * b, q, r);
    BackFromQuotient(a as real, b as real, x);
    RoundedQuotient(a as real, b as real, q as real, x, r as real);
  }

  lemma RealDivision(n: nat, d: nat, q: int, r: nat)
    requires d > 0 && q == n / d && r == n % d
    ensures n as real == (d as real) * (q as real) + r as real && r < d
  {
    assert n == d * q + r;
  }

  lemma BackFromQuotient(a: real, b: real, x: real)
    requires b > 0.0 && x == a / b
    ensures x * b == a
  {
  }

  lemma RoundedQuotient(a: real, b: real, q: real, x: real, r: real)
    requires b > 0.0 && x * b == a && 2.0 * a + b == (2.0 * b) * q + r && 0.0 <= r < 2.0 * b
    ensures q <= x + 0.5 < q + 1.0
  {
    QuotientGap(a, b, q, x, r);
    ProductSign(x + 0.5 - q, 2.0 * b, r);
    ProductSign(q + 1.0 - x - 0.5, 2.0 * b, 2.0 * b - r);
  }

  lemma QuotientGap(a: real, b: real, q: real, x: real, r: real)
    requires x * b == a && 2.0 * a + b == (2.0 * b) * q + r
    ensures (x + 0.5 - q) * (2.0 * b) == r
    ensures (q + 1.0 - x - 0.5) * (2.0 * b) == 2.0 * b - r
  {
    assert (x + 0.5 - q) * (2.0 * b) == 2.0 * (x * b) + b - (2.0 * b) * q;
    assert (q + 1.0 - x - 0.5) * (2.0 * b) == 2.0 * b - (2.0 * (x * b) + b - (2.0 * b) * q);
  }

  /** The edges are the integer quotients of the rounding, plus one. */
  lemma EdgeIs(total: nat, parts: nat, index: nat)
    requires parts > 0
    ensures Edge(total, parts, index) == 1 + (2 * (index * total) + parts) / (2 * parts)
  {
    var a := index * total;
    var x, q := a as real / parts as real, (2 * a + parts) / (2 * parts);
    RealQuotient(a, parts, q, x);
    assert x >= 0.0 by {
      assert x * parts as real == a as real;
      if x < 0.0 {
        ProductSign(x, parts as real, x * parts as real);
      }
    }
    assert (1.0 + x + 0.5).Floor == 1 + q;
  }

  lemma DoubledQuotient(total: nat, parts: nat)
    requires parts > 0
    ensures (2 * total) / (2 * parts) == total / parts
    ensures (2 * total) % (2 * parts) == 0 <==> total % parts == 0
  {
    var q, r := total / parts, total % parts;
    assert 2 * total == (2 * parts) * q + 2 * r;
    QuotientIs(2 * total, 2 * parts, q, 2 * r);
  }

  /** Every part holds the even share, rounded down or up. */
  lemma PartsAreBalanced(total: nat, parts: nat, index: nat)
    requires parts > 0 && index < parts
    ensures var size := Edge(total, parts, index + 1) - Edge(total, parts, index);
      total / parts <= size <= total / parts + 1 && (total % parts == 0 ==> size == total / parts)
  {
    EdgeIs(total, parts, index);
    EdgeIs(total, parts, index + 1);
    assert (index + 1) * total == index * total + total;
    QuotientStep(2 * (index * total) + parts, 2 * total, 2 * parts);
    DoubledQuotient(total, parts);
  }

  lemma FirstAndLastEdge(total: nat, parts: nat)
    requires parts > 0
    ensures Edge(total, parts, 0) == 1 && Edge(total, parts, parts) == total + 1
  {
    EdgeIs(total, parts, 0);
    EdgeIs(total, parts, parts);
    QuotientIs(parts, 2 * parts, 0, parts);
    assert 2 * (parts * total) + parts == (2 * parts) * total + parts;
    QuotientIs((2 * parts) * total + parts, 2 * parts, total, parts);
  }

  /** The half-open range a part covers. */
  datatype Part = Part(start: int, end: int)

  function PartAt(total: nat, parts: nat, index: nat): Part
    requires parts > 0
  {
    Part(Edge(total, parts, index) - 1, Edge(total, parts, index + 1) - 1)
  }

  /** Were every part larger than the even share, the parts would hold more than there is. */
  lemma {:induction false} EdgesClimb(total: nat, parts: nat, index: nat, share: nat)
    requires parts > 0 && index <= parts
    requires forall k :: 0 <= k < index ==> Edge(total, parts, k + 1) - Edge(total, parts, k) >= share
    ensures Edge(total, parts, index) >= 1 + index * share
  {
    hide Edge;
    FirstAndLastEdge(total, parts);
    if index > 0 {
      EdgesClimb(total, parts, index - 1, share);
      assert Edge(total, parts, (index - 1) + 1) - Edge(total, parts, index - 1) >= share;
      assert index * share == (index - 1) * share + share;
    }
  }

  ghost predicate AllPartsHold(total: nat, parts: nat, share: nat)
    requires parts > 0
  {
    forall k :: 0 <= k < parts ==> PartAt(total, parts, k).end - PartAt(total, parts, k).start >= share
  }

  /** The parts are all long enough exactly when the even share, rounded down, is. */
  lemma PartsHoldExactlyWhen(total: nat, parts: nat, share: nat)
    requires parts > 0
    ensures AllPartsHold(total, parts, share) <==> share <= total / parts
  {
    if share <= total / parts {
      forall k | 0 <= k < parts ensures PartAt(total, parts, k).end - PartAt(total, parts, k).start >= share {
        PartsAreBalanced(total, parts, k);
      }
    } else {
      if AllPartsHold(total, parts, share) {
        forall k | 0 <= k < parts ensures Edge(total, parts, k + 1) - Edge(total, parts, k) >= share {
          assert PartAt(total, parts, k).end - PartAt(total, parts, k).start >= share;
        }
        hide Edge, PartAt;
        EdgesClimb(total, parts, parts, share);
        FirstAndLastEdge(total, parts);
        TooMuch(total, parts, share);
      }
    }
  }

  lemma TooMuch(total: nat, parts: nat, share: nat)
    requires parts > 0 && share > total / parts
    ensures parts * share > total
  {
    assert total == parts * (total / parts) + total % parts;
    assert parts * share >= parts * (total / parts + 1);
  }

  /** None stands for the source's value error. */
  method PartitionContiguousIndices(total: nat, parts: int, minimum: nat) returns (r: Option<seq<Part>>)
    ensures r.Some? <==> parts > 0 && minimum <= total / parts
    ensures r.Some? ==>
      && |r.value| == parts && r.value[0].start == 0 && r.value[parts - 1].end == total
      && (forall k :: 0 <= k < parts - 1 ==> r.value[k].end == r.value[k + 1].start)
      && (forall k :: 0 <= k < parts ==> total / parts <= r.value[k].end - r.value[k].start <= total / parts + 1)
  {
    hide Edge;
    if parts <= 0 {
      return None;
    }
    var partitions := seq(parts, k requires 0 <= k < parts => PartAt(total, parts, k));
    PartsHoldExactlyWhen(total, parts, minimum);
    FirstAndLastEdge(total, parts);
    forall k | 0 <= k < parts ensures total / parts <= partitions[k].end - partitions[k].start <= total / parts + 1 {
      PartsAreBalanced(total, parts, k);
    }
    for k := 0 to parts
      invariant forall j :: 0 <= j < k ==> partitions[j].end - partitions[j].start >= minimum
    {
      if partitions[k].end - partitions[k].start < minimum {
        assert PartAt(total, parts, k) == partitions[k];
        return None;
      }
    }
    assert forall k :: 0 <= k < parts ==> PartAt(total, parts, k) == partitions[k];
    return Some(partitions);
  }

  // ---------------------------------------------------------------- the chronological split

  datatype Split = Split(train: Part, calibration: Part, test: Part)

  /** Floors of the two ratios, and the rest. */
  function ChronologicalSplit(total: int, train: real, calibration: real): Option<Split> {
    if total <= 0 || train <= 0.0 || calibration <= 0.0 || train + calibration >= 1.0 then None
    else
      var first := (train * total as real).Floor;
      var second := first + (calibration * total as real).Floor;
      Some(Split(Part(0, first), Part(first, second), Part(second, total)))
  }

  /** The three parts follow each other and cover everything; no ratio is exceeded, and something is left to test on. */
  lemma SplitIsChronological(total: int, train: real, calibration: real)
    ensures ChronologicalSplit(total, train, calibration).Some?
      <==> total > 0 && train > 0.0 && calibration > 0.0 && train + calibration < 1.0
    ensures ChronologicalSplit(total, train, calibration).Some? ==>
      var s := ChronologicalSplit(total, train, calibration).value;
      && 0 == s.train.start <= s.train.end == s.calibration.start <= s.calibration.end
      && s.calibration.end == s.test.start < s.test.end == total
      && (s.train.end - s.train.start) as real <= train * total as real
      && (s.calibration.end - s.calibration.start) as real <= calibration * total as real
  {
    if total > 0 && train > 0.0 && calibration > 0.0 && train + calibration < 1.0 {
      var n := total as real;
      ProductSign(train, n, train * n);
      ProductSign(calibration, n, calibration * n);
      ProductSign(1.0 - (train + calibration), n, (1.0 - (train + calibration)) * n);
      assert (1.0 - (train + calibration)) * n == n - train * n - calibration * n;
    }
  }

  // ---------------------------------------------------------------- features

  /** The signals a feature row reads: the two drives, and what is derived from the motor currents. */
  datatype RunningRow = RunningRow(sd: real, zl: real, iavg: real, isum: real, iimb: real)

  datatype Signal = Sd | Zl | Iavg | Isum

  function ValueOf(row: RunningRow, signal: Signal): real {
    match signal
    case Sd => row.sd
    case Zl => row.zl
    case Iavg => row.iavg
    case Isum => row.isum
  }

  /** The lag rows before the current one, oldest first. */
  function Window(rows: seq<RunningRow>, current: nat, lag: nat, signal: Signal): (w: seq<real>)
    requires lag <= current <= |rows|
    ensures |w| == lag
  {
    seq(lag, k requires 0 <= k < lag => ValueOf(rows[current - lag + k], signal))
  }

  /** The same values, newest first. */
  function Lags(rows: seq<RunningRow>, current: nat, lag: nat, signal: Signal): (w: seq<real>)
    requires lag <= current <= |rows|
    ensures |w| == lag
  {
    seq(lag, k requires 0 <= k < lag => ValueOf(rows[current - 1 - k], signal))
  }

  function Slope(w: seq<real>): real
    requires |w| >= 2
  {
    (w[|w| - 1] - w[0]) / (|w| - 1) as real
  }

  function Difference(w: seq<real>): real
    requires |w| >= 2
  {
    w[|w| - 1] - w[|w| - 2]
  }

  function Acceleration(w: seq<real>): real
    requires |w| >= 3
  {
    w[|w| - 1] - 2.0 * w[|w| - 2] + w[|w| - 3]
  }

  function MaxAdjacentDifference(w: seq<real>): real
    requires |w| >= 2
  {
    var last := AbsReal(w[|w| - 1] - w[|w| - 2]);
    if |w| == 2 then last else MaxReal(MaxAdjacentDifference(w[..|w| - 1]), last)
  }

  function Highest(w: seq<real>): real
    requires |w| >= 1
  {
    if |w| == 1 then w[0] else MaxReal(Highest(w[..|w| - 1]), w[|w| - 1])
  }

  function Lowest(w: seq<real>): real
    requires |w| >= 1
  {
    if |w| == 1 then w[0] else MinReal(Lowest(w[..|w| - 1]), w[|w| - 1])
  }

  /** The four windows of a feature row. */
  datatype Windows = Windows(iavg: seq<real>, isum: seq<real>, zl: seq<real>, sd: seq<real>)

  ghost predicate LongEnough(w: Windows) {
    |w.iavg| >= 3 && |w.isum| >= 3 && |w.zl| >= 3 && |w.sd| >= 3
  }

  function TransitionScore(w: Windows, deviation: seq<real> -> real): real
    requires LongEnough(w)
  {
    AbsReal(Difference(w.iavg)) + AbsReal(Slope(w.iavg)) + MaxAdjacentDifference(w.iavg) + 0.5 * deviation(w.iavg)
  }

  function Trend(w: seq<real>, gain: real): real
    requires |w| >= 2
  {
    w[|w| - 1] + gain * Difference(w)
  }

  /** The part of a feature row that its windows alone decide. */
  function WindowFeatures(w: Windows, gain: real, deviation: seq<real> -> real): (f: seq<real>)
    requires LongEnough(w)
    ensures |f| == 23
  {
    [Difference(w.isum),
     Slope(w.iavg), Slope(w.isum), Slope(w.zl), Slope(w.sd),
     Acceleration(w.iavg), Acceleration(w.isum), Acceleration(w.zl), Acceleration(w.sd),
     MaxAdjacentDifference(w.iavg), MaxAdjacentDifference(w.isum), MaxAdjacentDifference(w.zl),
     MaxAdjacentDifference(w.sd),
     deviation(w.iavg), deviation(w.isum), deviation(w.zl), deviation(w.sd),
     Highest(w.iavg) - Lowest(w.iavg), Highest(w.isum) - Lowest(w.isum),
     Highest(w.zl) - Lowest(w.zl), Highest(w.sd) - Lowest(w.sd),
     Trend(w.iavg, gain), Trend(w.isum, gain)]
  }

  function WindowsAt(rows: seq<RunningRow>, current: nat, lag: nat): Windows
    requires lag <= current <= |rows|
  {
    Windows(Window(rows, current, lag, Iavg), Window(rows, current, lag, Isum),
            Window(rows, current, lag, Zl), Window(rows, current, lag, Sd))
  }

  /** The row of features at current; deviation is the library's sample standard deviation. */
  function FeatureRow(rows: seq<RunningRow>, current: nat, lag: nat, gain: real,
                      deviation: seq<real> -> real): (f: seq<real>)
    requires 5 <= lag <= current < |rows|
    ensures |f| == 4 * lag + 32
  {
    var w := WindowsAt(rows, current, lag);
    [rows[current].sd, rows[current].zl]
    + Lags(rows, current, lag, Sd) + Lags(rows, current, lag, Zl) + Lags(rows, current, lag, Iavg)
      + Lags(rows, current, lag, Isum)
    + [rows[current - 1].iimb, Difference(w.iavg), Difference(w.zl), Difference(w.sd)]
    + WindowFeatures(w, gain, deviation)
    + [rows[current].zl - rows[current - 1].zl, rows[current].sd - rows[current - 1].sd, TransitionScore(w, deviation)]
  }

  /**
   A feature row never sees the present currents or anything later: two recordings that agree on the lag rows before
   current, and on the two drives at current, have the same features, trend and score there.
   */
  lemma FeaturesDoNotAnticipate(a: seq<RunningRow>, b: seq<RunningRow>, current: nat, lag: nat, gain: real,
                                deviation: seq<real> -> real)
    requires 5 <= lag <= current && current < |a| && current < |b|
    requires forall j :: current - lag <= j < current ==> a[j] == b[j]
    requires a[current].sd == b[current].sd && a[current].zl == b[current].zl
    ensures FeatureRow(a, current, lag, gain, deviation) == FeatureRow(b, current, lag, gain, deviation)
    ensures WindowsAt(a, current, lag) == WindowsAt(b, current, lag)
  {
    forall signal: Signal ensures Window(a, current, lag, signal) == Window(b, current, lag, signal)
      && Lags(a, current, lag, signal) == Lags(b, current, lag, signal)
    {
      forall k | 0 <= k < lag
        ensures Window(a, current, lag, signal)[k] == Window(b, current, lag, signal)[k]
        ensures Lags(a, current, lag, signal)[k] == Lags(b, current, lag, signal)[k]
      {
      }
    }
    assert WindowsAt(a, current, lag) == WindowsAt(b, current, lag);
    assert a[current - 1] == b[current - 1];
    hide Window, Lags, WindowFeatures, TransitionScore, Difference, WindowsAt;
  }

  datatype FeatureDataset = FeatureDataset(values: seq<seq<real>>, targets: seq<real>, trends: seq<real>,
                                           scores: seq<real>, sourceRows: seq<RunningRow>)

  /** The dataset has one aligned entry for every row that has enough rows before it. */
  ghost predicate IsDataset(rows: seq<RunningRow>, lag: nat, gain: real, deviation: seq<real> -> real,
                            d: FeatureDataset, n: nat)
    requires 5 <= lag && lag + n <= |rows|
  {
    && |d.values| == |d.targets| == |d.trends| == |d.scores| == |d.sourceRows| == n
    && forall k :: 0 <= k < n ==>
         && d.values[k] == FeatureRow(rows, lag + k, lag, gain, deviation)
         && d.targets[k] == rows[lag + k].iavg
         && d.trends[k] == Trend(Window(rows, lag + k, lag, Iavg), gain)
         && d.scores[k] == TransitionScore(WindowsAt(rows, lag + k, lag), deviation)
         && d.sourceRows[k] == rows[lag + k]
  }

  /** None stands for the source's value error: too few lags, or no row with enough rows before it. */
  method BuildTransitionDataset(rows: seq<RunningRow>, lag: nat, gain: real, deviation: seq<real> -> real)
    returns (r: Option<FeatureDataset>)
    ensures r.Some? <==> 5 <= lag < |rows|
    ensures r.Some? ==> IsDataset(rows, lag, gain, deviation, r.value, |rows| - lag)
  {
    hide FeatureRow, TransitionScore, Trend;
    if lag < 5 || |rows| <= lag {
      return None;
    }
    var d := FeatureDataset([], [], [], [], []);
    for current := lag to |rows|
      invariant IsDataset(rows, lag, gain, deviation, d, current - lag)
    {
      d := FeatureDataset(
        d.values + [FeatureRow(rows, current, lag, gain, deviation)],
        d.targets + [rows[current].iavg],
        d.trends + [Trend(Window(rows, current, lag, Iavg), gain)],
        d.scores + [TransitionScore(WindowsAt(rows, current, lag), deviation)],
        d.sourceRows + [rows[current]]);
    }
    return Some(d);
  }

  /** A steady current has no transition score and its own level as its trend. */
  lemma ConstantSignalHasNoTransition(w: Windows, deviation: seq<real> -> real, gain: real, level: real)
    requires LongEnough(w) && (forall k :: 0 <= k < |w.iavg| ==> w.iavg[k] == level) && deviation(w.iavg) == 0.0
    ensures TransitionScore(w, deviation) == 0.0 && Trend(w.iavg, gain) == level
  {
    assert Slope(w.iavg) == 0.0;
    FlatDifferences(w.iavg, level);
    assert gain * 0.0 == 0.0;
  }

  lemma {:induction false} FlatDifferences(w: seq<real>, level: real)
    requires |w| >= 2 && forall k :: 0 <= k < |w| ==> w[k] == level
    ensures MaxAdjacentDifference(w) == 0.0
  {
    if |w| > 2 {
      FlatDifferences(w[..|w| - 1], level);
    }
  }
}
