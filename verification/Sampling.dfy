/** The chart sample of a results file: every stride-th row, every alarm, and the last row, each index once. */
module Sampling {
  import opened Outcomes
  import opened Quotients

  /** A parsed row: its index, whether it alarms, and the width of its interval when both bounds are numbers. */
  datatype Sample = Sample(index: nat, alarm: bool, width: Option<real>)

  datatype CsvRow = Row(sample: Sample) | InvalidRow

  /** Wide enough that at most maximum multiples of it number rows below count. */
  function Stride(count: nat, maximum: nat): nat
    requires maximum > 0
  {
    if count > maximum then (count + maximum - 1) / maximum else 1
  }

  predicate Picks(samples: seq<Sample>, k: nat, stride: nat)
    requires k < |samples| && stride > 0
  {
    k % stride == 0 || samples[k].alarm
  }

  predicate HasIndex(points: seq<Sample>, index: nat) {
    exists k :: 0 <= k < |points| && points[k].index == index
  }

  /** The points picked from the first rows: a row whose index has been picked already is passed over. */
  function Picked(samples: seq<Sample>, stride: nat, n: nat): seq<Sample>
    requires n <= |samples| && stride > 0
  {
    if n == 0 then []
    else
      var before := Picked(samples, stride, n - 1);
      if Picks(samples, n - 1, stride) && !HasIndex(before, samples[n - 1].index) then before + [samples[n - 1]]
      else before
  }

  function Sampled(samples: seq<Sample>, stride: nat): seq<Sample>
    requires stride > 0
  {
    var picked := Picked(samples, stride, |samples|);
    if samples != [] && !HasIndex(picked, samples[|samples| - 1].index) then picked + [samples[|samples| - 1]]
    else picked
  }

  function Width(sample: Sample): real {
    if sample.width.Some? then sample.width.value else 0.0
  }

  function TotalWidth(samples: seq<Sample>): real {
    if samples == [] then 0.0 else TotalWidth(samples[..|samples| - 1]) + Width(samples[|samples| - 1])
  }

  function CountWidths(samples: seq<Sample>): nat {
    if samples == [] then 0
    else CountWidths(samples[..|samples| - 1]) + if samples[|samples| - 1].width.Some? then 1 else 0
  }

  ghost predicate AllRows(rows: seq<CsvRow>) {
    forall k :: 0 <= k < |rows| ==> rows[k].Row?
  }

  function SamplesOf(rows: seq<CsvRow>): (s: seq<Sample>)
    requires AllRows(rows)
    ensures |s| == |rows|
  {
    seq(|rows|, k requires 0 <= k < |rows| => rows[k].sample)
  }

  datatype Chart = Chart(points: seq<Sample>, widthSum: real, widthCount: nat)

  /** One pass over the file, whose rows have been counted before. */
  method ReadSampledResultCsv(rows: seq<CsvRow>, count: nat, maximum: nat) returns (r: Result<Chart>)
    requires maximum > 0
    ensures r.Ok? <==> AllRows(rows)
    ensures r.Ok? ==>
      && Stride(count, maximum) > 0
      && r.value == Chart(Sampled(SamplesOf(rows), Stride(count, maximum)), TotalWidth(SamplesOf(rows)),
           CountWidths(SamplesOf(rows)))
  {
    var stride := 1;
    if count > maximum {
      stride := (count + maximum - 1) / maximum;
    }
    StrideIsPositive(count, maximum);
    var points: seq<Sample>, seen: set<nat> := [], {};
    var widthSum, widthCount := 0.0, 0;
    for rowNumber := 0 to |rows|
      invariant AllRows(rows[..rowNumber])
      invariant points == Picked(SamplesOf(rows[..rowNumber]), stride, rowNumber)
      invariant forall index :: index in seen <==> HasIndex(points, index)
      invariant widthSum == TotalWidth(SamplesOf(rows[..rowNumber]))
        && widthCount == CountWidths(SamplesOf(rows[..rowNumber]))
    {
      if rows[rowNumber].InvalidRow? {
        return Failed("ARTIFACT_INTEGRITY_ERROR");
      }
      var sample := rows[rowNumber].sample;
      OneMoreRow(rows, rowNumber, stride);
      if sample.width.Some? {
        widthSum := widthSum + sample.width.value;
        widthCount := widthCount + 1;
      }
      if (rowNumber == 0 || rowNumber % stride == 0 || sample.alarm) && sample.index !in seen {
        SeenExtend(points, sample);
        points := points + [sample];
        seen := seen + {sample.index};
      }
    }
    assert rows[..|rows|] == rows;
    if |rows| > 0 && rows[|rows| - 1].sample.index !in seen {
      points := points + [rows[|rows| - 1].sample];
    }
    return Ok(Chart(points, widthSum, widthCount));
  }

  lemma SeenExtend(points: seq<Sample>, sample: Sample)
    ensures forall index :: HasIndex(points + [sample], index) <==> HasIndex(points, index) || index == sample.index
  {
    var longer := points + [sample];
    forall index ensures HasIndex(longer, index) <==> HasIndex(points, index) || index == sample.index {
      if HasIndex(points, index) {
        var k :| 0 <= k < |points| && points[k].index == index;
        assert longer[k].index == index;
      }
      if HasIndex(longer, index) {
        var k :| 0 <= k < |longer| && longer[k].index == index;
        assert k < |points| ==> points[k].index == index;
      }
      assert longer[|points|] == sample;
    }
  }

  lemma {:induction false} PickedIsPrefixOnly(samples: seq<Sample>, shorter: seq<Sample>, stride: nat, n: nat)
    requires n <= |shorter| <= |samples| && shorter == samples[..|shorter|] && stride > 0
    ensures Picked(shorter, stride, n) == Picked(samples, stride, n)
  {
    if n > 0 {
      PickedIsPrefixOnly(samples, shorter, stride, n - 1);
    }
  }

  lemma OneMoreRow(rows: seq<CsvRow>, n: nat, stride: nat)
    requires n < |rows| && AllRows(rows[..n]) && rows[n].Row? && stride > 0
    ensures AllRows(rows[..n + 1])
    ensures SamplesOf(rows[..n + 1]) == SamplesOf(rows[..n]) + [rows[n].sample]
    ensures Picked(SamplesOf(rows[..n]), stride, n) == Picked(SamplesOf(rows[..n + 1]), stride, n)
    ensures TotalWidth(SamplesOf(rows[..n + 1])) == TotalWidth(SamplesOf(rows[..n])) + Width(rows[n].sample)
    ensures CountWidths(SamplesOf(rows[..n + 1]))
      == CountWidths(SamplesOf(rows[..n])) + if rows[n].sample.width.Some? then 1 else 0
  {
    var longer, shorter := SamplesOf(rows[..n + 1]), SamplesOf(rows[..n]);
    assert longer == shorter + [rows[n].sample];
    assert longer[..n] == shorter;
    PickedIsPrefixOnly(longer, shorter, stride, n);
  }

  lemma StrideIsPositive(count: nat, maximum: nat)
    requires maximum > 0
    ensures Stride(count, maximum) > 0
  {
  }

  // ---------------------------------------------------------------- what a chart shows

  ghost predicate Increasing(samples: seq<Sample>) {
    forall j, k :: 0 <= j < k < |samples| ==> samples[j].index < samples[k].index
  }

  /** Every index picked is that of a picked row. */
  lemma {:induction false} PickedIndices(samples: seq<Sample>, stride: nat, n: nat, index: nat)
    requires n <= |samples| && stride > 0
    ensures HasIndex(Picked(samples, stride, n), index) <==>
      exists k :: 0 <= k < n && Picks(samples, k, stride) && samples[k].index == index
  {
    if n > 0 {
      PickedIndices(samples, stride, n - 1, index);
      var before := Picked(samples, stride, n - 1);
      SeenExtend(before, samples[n - 1]);
    }
  }

  /** No index is shown twice. */
  lemma {:induction false} PickedAreDistinct(samples: seq<Sample>, stride: nat, n: nat)
    requires n <= |samples| && stride > 0
    ensures Distinct(Picked(samples, stride, n))
  {
    if n > 0 {
      PickedAreDistinct(samples, stride, n - 1);
      DistinctExtend(Picked(samples, stride, n - 1), samples[n - 1]);
    }
  }

  ghost predicate Distinct(points: seq<Sample>) {
    forall i, j :: 0 <= i < j < |points| ==> points[i].index != points[j].index
  }

  lemma DistinctExtend(points: seq<Sample>, sample: Sample)
    requires Distinct(points)
    ensures !HasIndex(points, sample.index) ==> Distinct(points + [sample])
  {
  }

  /**
   Every row index that alarms or lies on the stride is shown, the last one always, and none twice.
   */
  lemma NothingImportantIsLost(samples: seq<Sample>, stride: nat)
    requires stride > 0
    ensures forall k :: 0 <= k < |samples| ==>
      Picks(samples, k, stride) || k == |samples| - 1 ==> HasIndex(Sampled(samples, stride), samples[k].index)
    ensures Distinct(Sampled(samples, stride))
  {
    var n := |samples|;
    var picked := Picked(samples, stride, n);
    PickedAreDistinct(samples, stride, n);
    if n > 0 {
      DistinctExtend(picked, samples[n - 1]);
    }
    forall k | 0 <= k < n && (Picks(samples, k, stride) || k == n - 1)
      ensures HasIndex(Sampled(samples, stride), samples[k].index)
    {
      PickedIndices(samples, stride, n, samples[k].index);
      SeenExtend(picked, samples[n - 1]);
    }
  }

  function CountAlarms(samples: seq<Sample>, n: nat): nat
    requires n <= |samples|
  {
    if n == 0 then 0 else CountAlarms(samples, n - 1) + if samples[n - 1].alarm then 1 else 0
  }

  function AlarmsBefore(samples: seq<Sample>, n: nat): set<int>
    requires n <= |samples|
  {
    set k | 0 <= k < n && samples[k].alarm
  }

  lemma {:induction false} AlarmsAreCounted(samples: seq<Sample>, n: nat)
    requires n <= |samples|
    ensures CountAlarms(samples, n) == |AlarmsBefore(samples, n)|
  {
    if n > 0 {
      AlarmsAreCounted(samples, n - 1);
      assert AlarmsBefore(samples, n)
        == AlarmsBefore(samples, n - 1) + if samples[n - 1].alarm then {n - 1} else {};
    }
  }

  function CountMultiples(stride: nat, n: nat): nat
    requires stride > 0
  {
    if n == 0 then 0 else CountMultiples(stride, n - 1) + if (n - 1) % stride == 0 then 1 else 0
  }

  lemma {:induction false} PickedIsSmall(samples: seq<Sample>, stride: nat, n: nat)
    requires n <= |samples| && stride > 0
    ensures |Picked(samples, stride, n)| <= CountMultiples(stride, n) + CountAlarms(samples, n)
  {
    if n > 0 {
      PickedIsSmall(samples, stride, n - 1);
    }
  }

  lemma {:induction false} MultiplesAre(stride: nat, n: nat)
    requires stride > 0
    ensures CountMultiples(stride, n) == (n + stride - 1) / stride
  {
    if n > 0 {
      MultiplesAre(stride, n - 1);
      CeilStep(stride, n);
    } else {
      assert (stride - 1) / stride == 0;
    }
  }

  /** Dividing up and up again never exceeds the maximum. */
  lemma StrideIsWideEnough(count: nat, maximum: nat)
    requires maximum > 0
    ensures Stride(count, maximum) > 0 && CountMultiples(Stride(count, maximum), count) <= maximum
  {
    var stride := Stride(count, maximum);
    StrideIsPositive(count, maximum);
    MultiplesAre(stride, count);
    if count > maximum {
      CeilIsEnough(count, maximum);
      CeilAtMost(count, stride, maximum);
    } else {
      assert (count + 1 - 1) / 1 == count;
    }
  }

  /** A chart never has more points than the maximum, the alarms, and one. */
  lemma ChartIsSmall(samples: seq<Sample>, maximum: nat)
    requires maximum > 0
    ensures Stride(|samples|, maximum) > 0
    ensures |Sampled(samples, Stride(|samples|, maximum))| <= maximum + |AlarmsBefore(samples, |samples|)| + 1
  {
    AlarmsAreCounted(samples, |samples|);
    StrideIsWideEnough(|samples|, maximum);
    PickedIsSmall(samples, Stride(|samples|, maximum), |samples|);
  }

  /** On a file with increasing indices the points come in order. */
  lemma {:induction false} PickedIncrease(samples: seq<Sample>, stride: nat, n: nat)
    requires n <= |samples| && stride > 0 && Increasing(samples)
    ensures Increasing(Picked(samples, stride, n))
    ensures forall k :: 0 <= k < |Picked(samples, stride, n)| ==>
      n > 0 && Picked(samples, stride, n)[k].index <= samples[n - 1].index
  {
    if n > 0 {
      PickedIncrease(samples, stride, n - 1);
    }
  }

  lemma ChartIncreases(samples: seq<Sample>, stride: nat)
    requires stride > 0 && Increasing(samples)
    ensures Increasing(Sampled(samples, stride))
  {
    PickedIncrease(samples, stride, |samples|);
    var picked := Picked(samples, stride, |samples|);
    if samples != [] && !HasIndex(picked, samples[|samples| - 1].index) {
      assert forall k :: 0 <= k < |picked| ==> picked[k].index < samples[|samples| - 1].index;
    }
  }

  // ---------------------------------------------------------------- what the chart is made of

  /** The stride is the least whose multiples below count are at most maximum. */
  lemma StrideIsLeast(count: nat, maximum: nat)
    requires maximum > 0
    ensures var stride := Stride(count, maximum);
      && 1 <= stride && count <= stride * maximum
      && (stride > 1 ==> (stride - 1) * maximum < count)
  {
    var stride := Stride(count, maximum);
    if count > maximum {
      var q, r := (count + maximum - 1) / maximum, (count + maximum - 1) % maximum;
      assert count + maximum - 1 == q * maximum + r;
      Before(q, maximum);
    }
  }

  lemma Before(q: int, maximum: nat)
    ensures (q - 1) * maximum == q * maximum - maximum
  {
  }

  lemma {:induction false} PickedAreThose(samples: seq<Sample>, stride: nat, n: nat, index: nat)
    requires n <= |samples| && stride > 0
    ensures HasIndex(Picked(samples, stride, n), index)
      <==> exists k :: 0 <= k < n && samples[k].index == index && (samples[k].alarm || k % stride == 0)
    ensures forall point :: point in Picked(samples, stride, n) ==> point in samples
  {
    if n > 0 {
      PickedAreThose(samples, stride, n - 1, index);
      HasAppended(Picked(samples, stride, n - 1), samples[n - 1], index);
    }
  }

  lemma HasAppended(points: seq<Sample>, point: Sample, index: nat)
    ensures HasIndex(points + [point], index) <==> HasIndex(points, index) || point.index == index
  {
    assert (points + [point])[|points|] == point;
    forall k | 0 <= k < |points| ensures (points + [point])[k] == points[k] {
    }
  }

  /** An index is shown if and only if a row with it alarms, lies on the stride, or has the index of the last row. */
  lemma ShownExactlyWhen(samples: seq<Sample>, stride: nat, index: nat)
    requires stride > 0
    ensures HasIndex(Sampled(samples, stride), index)
      <==> exists k :: 0 <= k < |samples| && samples[k].index == index
             && (samples[k].alarm || k % stride == 0 || k == |samples| - 1)
    ensures forall point :: point in Sampled(samples, stride) ==> point in samples
  {
    PickedAreThose(samples, stride, |samples|, index);
    hide Picked;
    if samples != [] {
      var last := samples[|samples| - 1];
      HasAppended(Picked(samples, stride, |samples|), last, index);
      assert last in samples;
    }
  }

  function Widths(samples: seq<Sample>): set<int> {
    set k | 0 <= k < |samples| && samples[k].width.Some?
  }

  lemma {:induction false} WidthsAreCounted(samples: seq<Sample>)
    ensures CountWidths(samples) == |Widths(samples)|
  {
    if samples != [] {
      var last := |samples| - 1;
      WidthsAreCounted(samples[..last]);
      assert Widths(samples) == Widths(samples[..last]) + if samples[last].width.Some? then {last} else {};
    }
  }

  /** The total of n widths is between n times the bounds on them. */
  ghost predicate IsBetween(n: nat, low: real, high: real, total: real) {
    n as real * low <= total <= n as real * high
  }

  lemma OneMoreBetween(n: nat, low: real, high: real, total: real, width: real)
    requires IsBetween(n, low, high, total) && low <= width <= high
    ensures IsBetween(n + 1, low, high, total + width)
  {
    assert (n + 1) as real * low == n as real * low + low && (n + 1) as real * high == n as real * high + high;
  }

  /** The widths there are average between any bounds on all of them; without any the total is zero. */
  lemma {:induction false} WidthsAverageBetween(samples: seq<Sample>, low: real, high: real)
    requires forall k :: 0 <= k < |samples| && samples[k].width.Some? ==> low <= samples[k].width.value <= high
    ensures IsBetween(|Widths(samples)|, low, high, TotalWidth(samples))
    ensures Widths(samples) == {} ==> TotalWidth(samples) == 0.0
  {
    WidthsAreCounted(samples);
    if samples != [] {
      var last := |samples| - 1;
      WidthsAverageBetween(samples[..last], low, high);
      WidthsAreCounted(samples[..last]);
      hide IsBetween;
      if samples[last].width.Some? {
        OneMoreBetween(CountWidths(samples[..last]), low, high, TotalWidth(samples[..last]), samples[last].width.value);
        assert last in Widths(samples);
      } else {
        assert Widths(samples) == Widths(samples[..last]);
      }
    }
  }
}
