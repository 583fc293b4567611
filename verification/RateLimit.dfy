/** The limit on how fast a predicted mean may move from one point to the next. */
module RateLimit {
  import opened Sums

  function LimitStep(previous: real, value: real, step: real): real {
    Clamp(value, previous - step, previous + step)
  }

  function Limited(values: seq<real>, step: real): (r: seq<real>)
    ensures |r| == |values|
  {
    if |values| <= 1 then values
    else
      var before := Limited(values[..|values| - 1], step);
      before + [LimitStep(before[|before| - 1], values[|values| - 1], step)]
  }

  method ApplyRateLimit(values: seq<real>, step: real) returns (output: seq<real>)
    ensures output == Limited(values, step)
  {
    if values == [] {
      return [];
    }
    output := [values[0]];
    for i := 1 to |values|
      invariant output == Limited(values[..i], step) && |output| == i
    {
      assert values[..i + 1][..i] == values[..i];
      output := output + [LimitStep(output[|output| - 1], values[i], step)];
    }
    assert values[..|values|] == values;
  }

  ghost predicate MovesWithin(s: seq<real>, step: real) {
    forall k :: 0 < k < |s| ==> s[k - 1] - step <= s[k] <= s[k - 1] + step
  }

  /** No two neighbours of the output are further apart than the limit. */
  lemma {:induction false} LimitedMovesWithin(values: seq<real>, step: real)
    requires step >= 0.0
    ensures MovesWithin(Limited(values, step), step)
  {
    if |values| > 1 {
      LimitedMovesWithin(values[..|values| - 1], step);
    }
  }

  /** The limit changes nothing exactly when nothing moves too fast; so limiting twice is limiting once. */
  lemma {:induction false} UnchangedExactlyWhen(values: seq<real>, step: real)
    requires step >= 0.0
    ensures Limited(values, step) == values <==> MovesWithin(values, step)
  {
    if |values| > 1 {
      var before := values[..|values| - 1];
      UnchangedExactlyWhen(before, step);
      var limited := Limited(values, step);
      assert limited[..|limited| - 1] == Limited(before, step);
      assert values == before + [values[|values| - 1]];
      LimitedMovesWithin(values, step);
      if MovesWithin(values, step) {
        assert MovesWithin(before, step);
      }
    }
  }

  lemma LimitingTwiceIsOnce(values: seq<real>, step: real)
    requires step >= 0.0
    ensures Limited(Limited(values, step), step) == Limited(values, step)
  {
    LimitedMovesWithin(values, step);
    UnchangedExactlyWhen(Limited(values, step), step);
  }

  /** Each output depends only on the values up to it. */
  lemma {:induction false} LimitedIsCausal(values: seq<real>, step: real, n: nat)
    requires n <= |values|
    ensures Limited(values, step)[..n] == Limited(values[..n], step)
  {
    if n == |values| {
      assert values[..n] == values;
    } else {
      LimitedIsCausal(values[..|values| - 1], step, n);
      assert values[..|values| - 1][..n] == values[..n];
    }
  }

  /**
   Of all the values the limit allows after the previous output, the one it gives is nearest to the value asked for.
   */
  lemma StepIsNearest(previous: real, value: real, step: real, other: real)
    requires step >= 0.0 && previous - step <= other <= previous + step
    ensures AbsReal(LimitStep(previous, value, step) - value) <= AbsReal(other - value)
  {
  }
}
