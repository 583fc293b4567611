/**
 Marking spikes and repairing them by linear interpolation.

 The source finds the nearest unmarked neighbours in two passes and fills each marked sample from them. The
 specification speaks of the neighbours directly, without passes.
 */
module Repair {
  import opened Outcomes
  import opened Sums

  // ---------------------------------------------------------------- what a repair is

  ghost predicate AllMarked(spikes: seq<bool>, lo: int, hi: int) {
    forall k :: lo <= k < hi && 0 <= k < |spikes| ==> spikes[k]
  }

  /** left is the nearest unmarked position before i. */
  ghost predicate NearestLeft(spikes: seq<bool>, i: int, left: int) {
    0 <= left < i <= |spikes| && !spikes[left] && AllMarked(spikes, left + 1, i)
  }

  /** right is the nearest unmarked position after i. */
  ghost predicate NearestRight(spikes: seq<bool>, i: int, right: int) {
    -1 <= i < right < |spikes| && !spikes[right] && AllMarked(spikes, i + 1, right)
  }

  /** first and second are consecutive unmarked positions. */
  ghost predicate Consecutive(spikes: seq<bool>, first: int, second: int) {
    0 <= first < |spikes| && !spikes[first] && NearestRight(spikes, first, second)
  }

  /** The point (i, y) lies on the line through the samples at l and r. */
  ghost predicate OnLine(values: seq<real>, l: int, r: int, i: int, y: real)
  {
    && 0 <= l < |values|
    && 0 <= r < |values|
    && (y - values[l]) * (r - l) as real == (values[r] - values[l]) * (i - l) as real
  }

  /** Where a marked sample takes its line from: its neighbours, or the first or last two unmarked samples. */
  ghost predicate Anchors(spikes: seq<bool>, i: int, l: int, r: int) {
    || (NearestLeft(spikes, i, l) && NearestRight(spikes, i, r))
    || (AllMarked(spikes, 0, i) && NearestRight(spikes, i, l) && Consecutive(spikes, l, r))
    || (AllMarked(spikes, i + 1, |spikes|) && NearestLeft(spikes, i, r) && Consecutive(spikes, l, r))
  }

  ghost predicate RepairedAt(values: seq<real>, spikes: seq<bool>, i: int, y: real)
    requires |values| == |spikes| && 0 <= i < |values|
  {
    if spikes[i] then exists l, r :: Anchors(spikes, i, l, r) && OnLine(values, l, r, i, y)
    else y == values[i]
  }

  ghost predicate IsRepair(values: seq<real>, spikes: seq<bool>, repaired: seq<real>) {
    && |repaired| == |values| == |spikes|
    && forall i :: 0 <= i < |values| ==> RepairedAt(values, spikes, i, repaired[i])
  }

  /** At least two samples are unmarked, which is what the caller's guard counts. */
  ghost predicate TwoGood(spikes: seq<bool>) {
    exists a, b :: 0 <= a < b < |spikes| && !spikes[a] && !spikes[b]
  }

  // ---------------------------------------------------------------- the two passes

  /** The positions of the unmarked samples, in order. */
  function GoodUpTo(spikes: seq<bool>, n: nat): seq<nat>
    requires n <= |spikes|
  {
    if n == 0 then [] else GoodUpTo(spikes, n - 1) + if spikes[n - 1] then [] else [n - 1]
  }

  lemma {:induction false} GoodIsAscending(spikes: seq<bool>, n: nat)
    requires n <= |spikes|
    ensures forall k :: 0 <= k < |GoodUpTo(spikes, n)| ==> GoodUpTo(spikes, n)[k] < n && !spikes[GoodUpTo(spikes, n)[k]]
    ensures forall k :: 1 <= k < |GoodUpTo(spikes, n)| ==>
      Consecutive(spikes, GoodUpTo(spikes, n)[k - 1], GoodUpTo(spikes, n)[k])
    ensures GoodUpTo(spikes, n) == [] ==> AllMarked(spikes, 0, n)
    ensures GoodUpTo(spikes, n) != [] ==>
      AllMarked(spikes, 0, GoodUpTo(spikes, n)[0])
        && AllMarked(spikes, GoodUpTo(spikes, n)[|GoodUpTo(spikes, n)| - 1] + 1, n)
  {
    if n > 0 {
      GoodIsAscending(spikes, n - 1);
    }
  }

  lemma TwoGoodCounts(spikes: seq<bool>)
    requires TwoGood(spikes)
    ensures |GoodUpTo(spikes, |spikes|)| >= 2
  {
    var a, b :| 0 <= a < b < |spikes| && !spikes[a] && !spikes[b];
    var good := GoodUpTo(spikes, |spikes|);
    GoodIsAscending(spikes, |spikes|);
    assert good != [];
  }

  /** Fill every marked sample from the nearest unmarked ones, found by a forward and a backward scan. */
  method LinearRepair(values: seq<real>, spikes: seq<bool>) returns (repaired: seq<real>)
    requires |values| == |spikes| && TwoGood(spikes)
    ensures IsRepair(values, spikes, repaired)
  {
    var n := |values|;
    var good := GoodUpTo(spikes, n);
    GoodIsAscending(spikes, n);
    TwoGoodCounts(spikes);
    var nearestLeft := NearestLefts(spikes);
    var nearestRight := NearestRights(spikes);
    repaired := values;
    for index := 0 to n
      invariant |repaired| == n
      invariant forall k :: 0 <= k < index ==> RepairedAt(values, spikes, k, repaired[k])
      invariant forall k :: index <= k < n ==> repaired[k] == values[k]
    {
      if spikes[index] {
        match (nearestLeft[index], nearestRight[index])
        case (Some(left), Some(right)) =>
          repaired := repaired[index := Interpolated(values, left, right, index, left)];
          assert Anchors(spikes, index, left, right);
        case (None, _) =>
          var first, second := good[0], good[1];
          FirstGoodIsNearest(spikes, index, first);
          repaired := repaired[index := Interpolated(values, first, second, index, first)];
          assert Anchors(spikes, index, first, second);
        case (Some(_), None) =>
          var first, second := good[|good| - 2], good[|good| - 1];
          LastGoodIsNearest(spikes, index, second);
          repaired := repaired[index := Interpolated(values, first, second, index, second)];
          assert Anchors(spikes, index, first, second);
      }
    }
  }

  method NearestLefts(spikes: seq<bool>) returns (nearest: seq<Option<nat>>)
    ensures |nearest| == |spikes|
    ensures forall i :: 0 <= i < |spikes| ==>
      match nearest[i]
      case Some(left) => NearestLeft(spikes, i, left)
      case None => AllMarked(spikes, 0, i)
  {
    nearest := seq(|spikes|, _ => None);
    var lastGood: Option<nat> := None;
    for index := 0 to |spikes|
      invariant |nearest| == |spikes|
      invariant match lastGood
                case Some(left) => NearestLeft(spikes, index, left)
                case None => AllMarked(spikes, 0, index)
      invariant forall i :: 0 <= i < index ==>
        match nearest[i]
        case Some(left) => NearestLeft(spikes, i, left)
        case None => AllMarked(spikes, 0, i)
    {
      nearest := nearest[index := lastGood];
      if !spikes[index] {
        lastGood := Some(index);
      }
    }
  }

  method NearestRights(spikes: seq<bool>) returns (nearest: seq<Option<nat>>)
    ensures |nearest| == |spikes|
    ensures forall i :: 0 <= i < |spikes| ==>
      match nearest[i]
      case Some(right) => NearestRight(spikes, i, right)
      case None => AllMarked(spikes, i + 1, |spikes|)
  {
    nearest := seq(|spikes|, _ => None);
    var nextGood: Option<nat> := None;
    for index := |spikes| downto 0
      invariant |nearest| == |spikes|
      invariant match nextGood
                case Some(right) => NearestRight(spikes, index - 1, right)
                case None => AllMarked(spikes, index, |spikes|)
      invariant forall i :: index <= i < |spikes| ==>
        match nearest[i]
        case Some(right) => NearestRight(spikes, i, right)
        case None => AllMarked(spikes, i + 1, |spikes|)
    {
      nearest := nearest[index := nextGood];
      if !spikes[index] {
        nextGood := Some(index);
      }
    }
  }

  /**
   values[base] plus the slope between l and r times the distance from base, as each branch of the source writes it.
   */
  function Interpolated(values: seq<real>, l: nat, r: nat, i: int, base: nat): (y: real)
    requires l < r < |values| && (base == l || base == r)
    ensures OnLine(values, l, r, i, y)
  {
    var y := values[base] + (values[r] - values[l]) * (i - base) as real / (r - l) as real;
    LineEquation(values[base], values[r] - values[l], (i - base) as real, (r - l) as real, y);
    y
  }

  lemma LineEquation(origin: real, rise: real, distance: real, run: real, y: real)
    requires run > 0.0 && y == origin + rise * distance / run
    ensures (y - origin) * run == rise * distance
    ensures (y - (origin - rise)) * run == rise * (distance + run)
  {
    assert rise * distance / run * run == rise * distance;
  }

  lemma FirstGoodIsNearest(spikes: seq<bool>, i: nat, first: nat)
    requires i < |spikes| && AllMarked(spikes, 0, i) && spikes[i]
    requires first < |spikes| && !spikes[first] && AllMarked(spikes, 0, first)
    ensures NearestRight(spikes, i, first)
  {
  }

  lemma LastGoodIsNearest(spikes: seq<bool>, i: nat, last: nat)
    requires i < |spikes| && AllMarked(spikes, i + 1, |spikes|) && spikes[i]
    requires last < |spikes| && !spikes[last] && AllMarked(spikes, last + 1, |spikes|)
    ensures NearestLeft(spikes, i, last)
  {
  }

  // ---------------------------------------------------------------- what a repair preserves

  lemma AnchorsAreGood(spikes: seq<bool>, i: int, l: int, r: int)
    requires 0 <= i < |spikes| && Anchors(spikes, i, l, r)
    ensures 0 <= l < r < |spikes| && !spikes[l] && !spikes[r]
  {
  }

  lemma AnchorsAreUnique(spikes: seq<bool>, i: int, l: int, r: int, l': int, r': int)
    requires 0 <= i < |spikes| && spikes[i] && Anchors(spikes, i, l, r) && Anchors(spikes, i, l', r')
    ensures l == l' && r == r'
  {
  }

  /** The repair depends on the unmarked samples only: whatever a spike read, it leaves no trace. */
  lemma SpikesLeaveNoTrace(a: seq<real>, b: seq<real>, spikes: seq<bool>, x: seq<real>, y: seq<real>)
    requires IsRepair(a, spikes, x) && IsRepair(b, spikes, y)
    requires forall k :: 0 <= k < |a| && !spikes[k] ==> a[k] == b[k]
    ensures x == y
  {
    hide OnLine, Anchors;
    forall i | 0 <= i < |a| ensures x[i] == y[i] {
      assert RepairedAt(a, spikes, i, x[i]) && RepairedAt(b, spikes, i, y[i]);
      if spikes[i] {
        var l, r :| Anchors(spikes, i, l, r) && OnLine(a, l, r, i, x[i]);
        var l', r' :| Anchors(spikes, i, l', r') && OnLine(b, l', r', i, y[i]);
        AnchorsAreUnique(spikes, i, l, r, l', r');
        AnchorsAreGood(spikes, i, l, r);
        SameLine(a, b, l, r, i, x[i], y[i]);
      }
    }
  }

  lemma SameLine(a: seq<real>, b: seq<real>, l: nat, r: nat, i: int, x: real, y: real)
    requires l < r < |a| && r < |b| && a[l] == b[l] && a[r] == b[r]
    requires OnLine(a, l, r, i, x) && OnLine(b, l, r, i, y)
    ensures x == y
  {
    SameEquation((r - l) as real, (i - l) as real, a[l], b[l], a[r], b[r], x, y);
  }

  lemma SameEquation(run: real, part: real, al: real, bl: real, ar: real, br: real, x: real, y: real)
    requires run != 0.0 && al == bl && ar == br
    requires (x - al) * run == (ar - al) * part && (y - bl) * run == (br - bl) * part
    ensures x == y
  {
    LineDetermines(run, x - al, y - al);
  }

  lemma LineDetermines(run: real, x: real, y: real)
    requires run != 0.0 && x * run == y * run
    ensures x == y
  {
    assert (x - y) * run == 0.0;
  }

  /** A second repair changes nothing. */
  lemma RepairIsIdempotent(values: seq<real>, spikes: seq<bool>, once: seq<real>, twice: seq<real>)
    requires IsRepair(values, spikes, once) && IsRepair(once, spikes, twice)
    ensures twice == once
  {
    forall k | 0 <= k < |values| && !spikes[k] ensures values[k] == once[k] {
      assert RepairedAt(values, spikes, k, once[k]);
    }
    SpikesLeaveNoTrace(values, once, spikes, once, twice);
  }

  /** If the unmarked samples lie on a line, the whole repaired signal does. */
  lemma LineIsRestored(values: seq<real>, spikes: seq<bool>, repaired: seq<real>, a: real, b: real)
    requires IsRepair(values, spikes, repaired)
    requires forall k :: 0 <= k < |values| && !spikes[k] ==> values[k] == a + b * k as real
    ensures forall k :: 0 <= k < |values| ==> repaired[k] == a + b * k as real
  {
    forall i | 0 <= i < |values| ensures repaired[i] == a + b * i as real {
      LineIsRestoredAt(values, spikes, i, repaired[i], a, b);
    }
  }

  lemma LineIsRestoredAt(values: seq<real>, spikes: seq<bool>, i: nat, y: real, a: real, b: real)
    requires |values| == |spikes| && i < |values| && RepairedAt(values, spikes, i, y)
    requires forall k :: 0 <= k < |values| && !spikes[k] ==> values[k] == a + b * k as real
    ensures y == a + b * i as real
  {
    if spikes[i] {
      hide Anchors, AllMarked;
      var l, r :| Anchors(spikes, i, l, r) && OnLine(values, l, r, i, y);
      AnchorsAreGood(spikes, i, l, r);
      LineThrough(values, l, r, i, y, a, b);
    }
  }

  lemma LineThrough(values: seq<real>, l: nat, r: nat, i: int, y: real, a: real, b: real)
    requires l < r && OnLine(values, l, r, i, y)
    requires values[l] == a + b * l as real && values[r] == a + b * r as real
    ensures y == a + b * i as real
  {
    PointOfLine(a, b, l as real, r as real, i as real, values[l], values[r], y);
  }

  lemma PointOfLine(a: real, b: real, l: real, r: real, i: real, vl: real, vr: real, y: real)
    requires l < r && vl == a + b * l && vr == a + b * r && (y - vl) * (r - l) == (vr - vl) * (i - l)
    ensures y == a + b * i
  {
    assert vr - vl == b * (r - l);
    assert (vr - vl) * (i - l) == b * (i - l) * (r - l);
    LineDetermines(r - l, y - vl, b * (i - l));
  }

  /** An interior repair never leaves the range of its two neighbours. */
  lemma InteriorStaysBetween(values: seq<real>, spikes: seq<bool>, repaired: seq<real>, i: nat, l: nat, r: nat)
    requires IsRepair(values, spikes, repaired) && i < |values| && spikes[i]
    requires NearestLeft(spikes, i, l) && NearestRight(spikes, i, r)
    ensures values[l] <= repaired[i] <= values[r] || values[r] <= repaired[i] <= values[l]
  {
    assert RepairedAt(values, spikes, i, repaired[i]);
    var l', r' :| Anchors(spikes, i, l', r') && OnLine(values, l', r', i, repaired[i]);
    AnchorsAreUnique(spikes, i, l, r, l', r');
    BetweenOnLine((i - l) as real, (r - l) as real, values[r] - values[l], repaired[i] - values[l]);
  }

  lemma BetweenOnLine(part: real, run: real, rise: real, y: real)
    requires 0.0 < part < run && y * run == rise * part
    ensures 0.0 <= y <= rise || rise <= y <= 0.0
  {
    var t := part / run;
    ProperFraction(part, run, t);
    assert y * run == (rise * t) * run;
    LineDetermines(run, y, rise * t);
  }

  lemma PositiveFactor(t: real, run: real)
    requires run > 0.0 && t * run > 0.0
    ensures t > 0.0
  {
  }

  lemma ProperFraction(part: real, run: real, t: real)
    requires 0.0 < part < run && t == part / run
    ensures t * run == part && 0.0 < t < 1.0
  {
    assert t * run == part;
    PositiveFactor(t, run);
    assert (1.0 - t) * run == run - part;
    PositiveFactor(1.0 - t, run);
  }

  // ---------------------------------------------------------------- marking

  ghost predicate Exceeds(residual: seq<real>, threshold: real, k: int) {
    0 <= k < |residual| && AbsReal(residual[k]) > threshold
  }

  /** Position i is a spike or next to one. */
  ghost predicate NearSpike(residual: seq<real>, threshold: real, i: int) {
    Exceeds(residual, threshold, i - 1) || Exceeds(residual, threshold, i) || Exceeds(residual, threshold, i + 1)
  }

  /**
   Mark every sample whose residual exceeds the threshold, widen the marks by one on each side, and repair
   unless nothing is marked or fewer than two samples remain.
   */
  method MarkAndRepair(source: seq<real>, residual: seq<real>, threshold: real)
    returns (repaired: seq<real>, spikes: seq<bool>)
    requires |residual| == |source|
    ensures |spikes| == |repaired| == |source|
    ensures forall i :: 0 <= i < |source| ==> (spikes[i] <==> NearSpike(residual, threshold, i))
    ensures TwoGood(spikes) ==> IsRepair(source, spikes, repaired)
    ensures !TwoGood(spikes) ==> repaired == source
  {
    var count := |source|;
    var flags := new bool[count](_ => false);
    for index := 0 to count
      invariant forall i :: 0 <= i < count ==>
        (flags[i] <==> exists k :: i - 1 <= k <= i + 1 && k < index && Exceeds(residual, threshold, k))
    {
      if AbsReal(residual[index]) > threshold {
        assert Exceeds(residual, threshold, index);
        flags[index] := true;
        if index > 0 {
          flags[index - 1] := true;
        }
        if index + 1 < count {
          flags[index + 1] := true;
        }
      }
    }
    spikes := flags[..];
    var good := GoodUpTo(spikes, count);
    GoodIsAscending(spikes, count);
    if |good| < 2 || true !in spikes {
      if TwoGood(spikes) {
        TwoGoodCounts(spikes);
      }
      return source, spikes;
    }
    assert TwoGood(spikes) by {
      assert Consecutive(spikes, good[0], good[1]);
    }
    repaired := LinearRepair(source, spikes);
  }
}
