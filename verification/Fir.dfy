/**
 The smoothing filters of the preprocessing stage.

 Each pass is the transposed delay-line loop of the source. The theorems say what that loop and the
 forward/backward composition of two such loops compute: a convolution, and a triangular kernel on the
 odd reflection of the signal.
 */
module Fir {
  import opened Outcomes
  import opened Sequences
  import opened Sums

  // ---------------------------------------------------------------- one pass

  /**
   The response of an order-m moving-average filter at sample n, without any delay line: the last m + 1
   samples of the input, plus what is left of the initial state.
   */
  function Response(values: seq<real>, coefficient: real, state: seq<real>, n: nat): real {
    coefficient * Sum(n - |state|, n + 1, Samples(values)) + At(state, n)
  }

  /** Slot j of the delay line after n samples. */
  ghost function Delayed(values: seq<real>, coefficient: real, state: seq<real>, n: nat, j: nat): real {
    coefficient * Sum(n + j - |state|, n, Samples(values)) + At(state, n + j)
  }

  lemma DelayedInitially(values: seq<real>, coefficient: real, state: seq<real>, j: nat)
    requires j < |state|
    ensures Delayed(values, coefficient, state, 0, j) == state[j]
  {
    SumZero(j - |state|, 0, Samples(values));
  }

  /** One step of the delay line: slot j takes over slot j + 1 and adds the new sample. */
  lemma DelayedStep(values: seq<real>, coefficient: real, state: seq<real>, n: nat, j: nat)
    requires j < |state| && n < |values|
    ensures Delayed(values, coefficient, state, n + 1, j)
         == coefficient * values[n] + Delayed(values, coefficient, state, n, j + 1)
  {
    var f := Samples(values);
    assert Sum(n + 1 + j - |state|, n + 1, f) == Sum(n + 1 + j - |state|, n, f) + values[n];
  }

  /** Slot 0 of the delay line completes the response at the sample being read. */
  lemma DelayedCompletes(values: seq<real>, coefficient: real, state: seq<real>, n: nat)
    requires n < |values|
    ensures coefficient * values[n] + Delayed(values, coefficient, state, n, 0)
      == Response(values, coefficient, state, n)
  {
    var lo := n - |state|;
    assert Sum(lo, n + 1, Samples(values)) == Sum(lo, n, Samples(values)) + values[n];
  }

  /** A pass over the signal with an explicit delay line. */
  method FirFilterWithState(values: seq<real>, coefficient: real, state: seq<real>) returns (output: seq<real>)
    requires |state| > 0
    ensures |output| == |values|
    ensures forall n :: 0 <= n < |values| ==> output[n] == Response(values, coefficient, state, n)
  {
    output := [];
    var delay := state;
    forall j | 0 <= j < |state| ensures delay[j] == Delayed(values, coefficient, state, 0, j) {
      DelayedInitially(values, coefficient, state, j);
    }
    for n := 0 to |values|
      invariant |output| == n && |delay| == |state|
      invariant forall j :: 0 <= j < |state| ==> delay[j] == Delayed(values, coefficient, state, n, j)
      invariant forall k :: 0 <= k < n ==> output[k] == Response(values, coefficient, state, k)
    {
      var value := values[n];
      var filtered := coefficient * value + delay[0];
      DelayedCompletes(values, coefficient, state, n);
      output := output + [filtered];
      var shifted := seq(|delay| - 1, j requires 0 <= j < |delay| - 1 => coefficient * value + delay[j + 1])
        + [coefficient * value];
      forall j | 0 <= j < |state| ensures shifted[j] == Delayed(values, coefficient, state, n + 1, j) {
        DelayedStep(values, coefficient, state, n, j);
        if j == |state| - 1 {
          DrainedSlot(values, coefficient, state, n);
        }
      }
      delay := shifted;
    }
  }

  lemma DrainedSlot(values: seq<real>, coefficient: real, state: seq<real>, n: nat)
    ensures Delayed(values, coefficient, state, n, |state|) == 0.0
  {
  }

  /** The purely causal path keeps its last `window` samples in a shifting history. */
  method ForwardFirFilter(source: seq<real>, window: nat) returns (output: seq<real>)
    requires window >= 1
    ensures |output| == |source|
    ensures forall n :: 0 <= n < |source| ==>
      output[n] == Sum(n + 1 - window, n + 1, Samples(source)) * (1.0 / window as real)
  {
    var coefficient := 1.0 / window as real;
    var history := seq(window, _ => 0.0);
    output := [];
    for n := 0 to |source|
      invariant |output| == n && |history| == window
      invariant forall k :: 0 <= k < window ==> history[k] == At(source, n - 1 - k)
      invariant forall k :: 0 <= k < n ==> output[k] == Sum(k + 1 - window, k + 1, Samples(source)) * coefficient
    {
      history := [source[n]] + history[..window - 1];
      SumReverse(0, window, n, Samples(history), Samples(source));
      output := output + [Sum(0, window, Samples(history)) * coefficient];
    }
  }

  /** The causal path is the delay-line filter started from an empty state. */
  lemma ForwardIsStatelessPass(source: seq<real>, window: nat, n: nat)
    requires window >= 1
    ensures Response(source, 1.0 / window as real, seq(window - 1, _ => 0.0), n)
         == Sum(n + 1 - window, n + 1, Samples(source)) * (1.0 / window as real)
  {
  }

  // ---------------------------------------------------------------- two passes

  /** x(s) weighted by a triangle of half-width m + 1 centred at i. */
  function Triangle(x: int -> real, m: nat, i: int): int -> real {
    s => (m + 1 - Abs(s - i)) as real * x(s)
  }

  /** The triangular kernel: the sum of (m + 1 - |j|) x(i + j) over |j| <= m. */
  function Kernel(x: int -> real, m: nat, i: int): real {
    Sum(i - m, i + m + 1, Triangle(x, m, i))
  }

  function MovingSum(x: int -> real, m: nat): int -> real {
    t => Sum(t - m, t + 1, x)
  }

  /** Widening the kernel by one adds the plain sum over the wider support. */
  lemma KernelGrows(x: int -> real, m: nat, i: int)
    requires m > 0
    ensures Kernel(x, m, i) == Kernel(x, m - 1, i) + Sum(i - m, i + m + 1, x)
  {
    var wide, narrow := Triangle(x, m, i), Triangle(x, m - 1, i);
    forall s | i - m <= s < i + m + 1 ensures wide(s) == narrow(s) + x(s) {
      assert (m + 1 - Abs(s - i)) as real == (m - Abs(s - i)) as real + 1.0;
    }
    SumAdd(i - m, i + m + 1, narrow, x, wide);
    SumFirst(i - m, i + m + 1, narrow);
    assert narrow(i - m) == 0.0 && narrow(i + m) == 0.0;
  }

  /** A moving sum of moving sums is the triangular kernel. */
  lemma {:induction false} MovingSumTwice(x: int -> real, m: nat, i: int)
    ensures Sum(i, i + m + 1, MovingSum(x, m)) == Kernel(x, m, i)
  {
    if m == 0 {
      assert Sum(i, i + 1, MovingSum(x, 0)) == Sum(i, i, MovingSum(x, 0)) + Sum(i, i + 1, x);
      assert Sum(i, i + 1, x) == Sum(i, i, x) + x(i);
      assert Kernel(x, 0, i) == Sum(i, i, Triangle(x, 0, i)) + Triangle(x, 0, i)(i);
    } else {
      MovingSumTwice(x, m - 1, i);
      KernelGrows(x, m, i);
      MovingSumGrows(x, m, i);
    }
  }

  lemma MovingSumGrows(x: int -> real, m: nat, i: int)
    requires m > 0
    ensures Sum(i, i + m + 1, MovingSum(x, m)) == Sum(i, i + m, MovingSum(x, m - 1)) + Sum(i - m, i + m + 1, x)
  {
    var outer, inner := MovingSum(x, m), MovingSum(x, m - 1);
    var before := (t: int) => x(t - m);
    forall t | i <= t < i + m ensures outer(t) == inner(t) + before(t) {
      SumFirst(t - m, t + 1, x);
    }
    SumAdd(i, i + m, inner, before, outer);
    SumShift(i, i + m, 0 - m, before, x);
    SumSplit(i - m, i, i + m + 1, x);
    assert outer(i + m) == Sum(i, i + m + 1, x);
  }

  /**
   Running the filter forwards and then backwards applies the triangular kernel, scaled by the square of the
   coefficient, at every sample m or more away from both ends, whatever the two initial states are.
   */
  lemma TwoPasses(extended: seq<real>, coefficient: real, forward: seq<real>, backward: seq<real>,
                  first: seq<real>, second: seq<real>, i: nat)
    requires |first| == |second| && |forward| == |backward| == |extended|
    requires forall n :: 0 <= n < |extended| ==> forward[n] == Response(extended, coefficient, first, n)
    requires forall n :: 0 <= n < |extended| ==> backward[n] == Response(Reversed(forward), coefficient, second, n)
    requires |first| <= i < |extended| - |first|
    ensures Reversed(backward)[i] == coefficient * coefficient * Kernel(Samples(extended), |first|, i)
  {
    BackwardPass(forward, coefficient, backward, second, i);
    ForwardSums(extended, coefficient, forward, first, i);
    hide *;
    ScaleTwice(coefficient, Kernel(Samples(extended), |first|, i),
               Sum(i, i + |first| + 1, Samples(forward)), Reversed(backward)[i]);
  }

  /** m + 1 interior samples of the first pass add up to the scaled kernel. */
  lemma ForwardSums(extended: seq<real>, coefficient: real, forward: seq<real>, first: seq<real>, i: nat)
    requires |forward| == |extended|
    requires forall n :: 0 <= n < |extended| ==> forward[n] == Response(extended, coefficient, first, n)
    requires |first| <= i < |extended| - |first|
    ensures Sum(i, i + |first| + 1, Samples(forward)) == coefficient * Kernel(Samples(extended), |first|, i)
  {
    hide Response, Kernel, Sum;
    var m, x := |first|, Samples(extended);
    forall t | i <= t < i + m + 1 ensures Samples(forward)(t) == coefficient * MovingSum(x, m)(t) {
      InteriorResponse(extended, coefficient, first, t);
    }
    SumScale(i, i + m + 1, coefficient, MovingSum(x, m), Samples(forward));
    MovingSumTwice(x, m, i);
  }

  lemma ScaleTwice(c: real, k: real, ck: real, r: real)
    requires ck == c * k && r == c * ck
    ensures r == c * c * k
  {
  }

  lemma InteriorResponse(values: seq<real>, coefficient: real, state: seq<real>, t: nat)
    requires t >= |state|
    ensures Response(values, coefficient, state, t) == coefficient * MovingSum(Samples(values), |state|)(t)
  {
  }

  /** Away from the end, the reversed second pass sums the m + 1 samples from i onwards. */
  lemma BackwardPass(forward: seq<real>, coefficient: real, backward: seq<real>, second: seq<real>, i: nat)
    requires |forward| == |backward| && i < |forward| - |second|
    requires forall n :: 0 <= n < |forward| ==> backward[n] == Response(Reversed(forward), coefficient, second, n)
    ensures Reversed(backward)[i] == coefficient * Sum(i, i + |second| + 1, Samples(forward))
  {
    var m, n := |second|, |forward| - 1 - i;
    var mirrored := Samples(Reversed(forward));
    SumReverse(n - m, n + 1, |forward| - 1, mirrored, Samples(forward));
    SameProduct(coefficient, Sum(n - m, n + 1, mirrored), Sum(i, i + m + 1, Samples(forward)));
    assert Reversed(backward)[i] == Response(Reversed(forward), coefficient, second, n);
  }

  // ---------------------------------------------------------------- the zero-phase filter

  /** The odd reflection of a signal about its two end samples, on all positions within one length of it. */
  function OddReflection(source: seq<real>): int -> real
    requires |source| > 0
  {
    var n := |source|;
    p => if p < 0 then 2.0 * source[0] - At(source, -p)
         else if p < n then source[p]
         else 2.0 * source[n - 1] - At(source, 2 * (n - 1) - p)
  }

  /** What the zero-phase filter promises at sample i: the triangular average of the reflected signal. */
  function Smoothed(source: seq<real>, window: nat, i: int): real
    requires |source| > 0 && window > 0
  {
    Kernel(OddReflection(source), window - 1, i) / (window * window) as real
  }

  ghost predicate IsSmoothed(source: seq<real>, window: nat, output: seq<real>)
    requires window > 0
  {
    && |output| == |source|
    && forall i :: 0 <= i < |source| ==> output[i] == Smoothed(source, window, i)
  }

  /** The signal with `edge` reflected samples in front and behind, as the source builds it. */
  function Extended(source: seq<real>, edge: nat): (e: seq<real>)
    requires edge < |source|
    ensures |e| == |source| + 2 * edge
    ensures forall p :: 0 <= p < edge ==> e[p] == 2.0 * source[0] - source[edge - p]
    ensures forall p :: edge <= p < edge + |source| ==> e[p] == source[p - edge]
    ensures forall p :: edge + |source| <= p < |e| ==>
      e[p] == 2.0 * source[|source| - 1] - source[2 * |source| - 2 - (p - edge)]
  {
    var n := |source|;
    seq(edge, k requires 0 <= k < edge => 2.0 * source[0] - source[edge - k])
    + source
    + seq(edge, k requires 0 <= k < edge => 2.0 * source[n - 1] - source[n - 2 - k])
  }

  /** The steady state of the filter for a signal held at one value. */
  function ScaledState(initial: seq<real>, value: real): (state: seq<real>)
    ensures |state| == |initial|
  {
    seq(|initial|, k requires 0 <= k < |initial| => initial[k] * value)
  }

  /** Apply the moving average in forward and reverse order over the odd extension and cut the edges off. */
  method ZeroPhaseFir(source: seq<real>, window: nat) returns (r: Result<seq<real>>)
    requires window >= 2
    ensures |source| <= 3 * (window - 1) ==> r == Failed("INSUFFICIENT_SAMPLES")
    ensures |source| > 3 * (window - 1) ==> r.Ok? && IsSmoothed(source, window, r.value)
  {
    var edge := 3 * (window - 1);
    if |source| <= edge {
      return Failed("INSUFFICIENT_SAMPLES");
    }
    var coefficient := 1.0 / window as real;
    var extended := Extended(source, edge);
    var initial := seq(window - 1, k => coefficient * (window - k - 1) as real);
    var forwardState := ScaledState(initial, extended[0]);
    var forward := FirFilterWithState(extended, coefficient, forwardState);
    var backwardState := ScaledState(initial, forward[|forward| - 1]);
    var backward := FirFilterWithState(Reversed(forward), coefficient, backwardState);
    var output := Reversed(backward)[edge..|backward| - edge];
    TrimmedPasses(source, window, forward, backward, forwardState, backwardState);
    return Ok(output);
  }

  /** Cutting the reflected edges off leaves the smoothed signal, whatever the two initial states are. */
  lemma TrimmedPasses(source: seq<real>, window: nat, forward: seq<real>, backward: seq<real>,
                      first: seq<real>, second: seq<real>)
    requires 2 <= window && 3 * (window - 1) < |source| && |first| == |second| == window - 1
    requires |forward| == |backward| == |source| + 6 * (window - 1)
    requires var extended := Extended(source, 3 * (window - 1));
      forall n :: 0 <= n < |forward| ==> forward[n] == Response(extended, 1.0 / window as real, first, n)
    requires forall n :: 0 <= n < |backward| ==>
      backward[n] == Response(Reversed(forward), 1.0 / window as real, second, n)
    ensures IsSmoothed(source, window, Reversed(backward)[3 * (window - 1)..|backward| - 3 * (window - 1)])
  {
    hide Response, Kernel, Smoothed, OddReflection;
    var edge := 3 * (window - 1);
    var output := Reversed(backward)[edge..|backward| - edge];
    forall i | 0 <= i < |source| ensures output[i] == Smoothed(source, window, i) {
      TwoPasses(Extended(source, edge), 1.0 / window as real, forward, backward, first, second, i + edge);
      ScaledKernel(source, window, i);
    }
  }

  lemma ScaledKernel(source: seq<real>, window: nat, i: int)
    requires 2 <= window && 3 * (window - 1) < |source| && 0 <= i < |source|
    ensures (1.0 / window as real) * (1.0 / window as real)
              * Kernel(Samples(Extended(source, 3 * (window - 1))), window - 1, i + 3 * (window - 1))
         == Smoothed(source, window, i)
  {
    var edge := 3 * (window - 1);
    hide Kernel;
    var x, y := OddReflection(source), Samples(Extended(source, edge));
    forall p | i - (window - 1) <= p <= i + (window - 1) ensures x(p) == y(p + edge) {
    }
    KernelShift(x, y, window - 1, i, edge);
    ReciprocalSquare(window);
    var k, w2 := Kernel(OddReflection(source), window - 1, i), (window * window) as real;
    assert 1.0 / w2 * k == k / w2;
  }

  lemma ReciprocalSquare(window: nat)
    requires window > 0
    ensures (1.0 / window as real) * (1.0 / window as real) == 1.0 / (window * window) as real
  {
    var w := window as real;
    assert (window * window) as real == w * w;
    assert (1.0 / w) * (1.0 / w) * (w * w) == ((1.0 / w) * w) * ((1.0 / w) * w) == 1.0;
  }

  lemma KernelShift(x: int -> real, y: int -> real, m: nat, i: int, k: int)
    requires forall p :: i - m <= p <= i + m ==> x(p) == y(p + k)
    ensures Kernel(x, m, i) == Kernel(y, m, i + k)
  {
    SumShift(i - m, i + m + 1, k, Triangle(x, m, i), Triangle(y, m, i + k));
  }

  // ---------------------------------------------------------------- what the zero-phase filter preserves

  /** a + b k at every k. */
  ghost predicate IsAffine(source: seq<real>, a: real, b: real) {
    forall k :: 0 <= k < |source| ==> source[k] == a + b * k as real
  }

  function Line(a: real, b: real): int -> real {
    p => a + b * p as real
  }

  lemma {:induction false} SumOfLine(a: real, b: real, m: nat, i: int)
    ensures Sum(i - m, i + m + 1, Line(a, b)) == (2 * m + 1) as real * Line(a, b)(i)
  {
    var f := Line(a, b);
    if m == 0 {
      assert Sum(i, i + 1, f) == Sum(i, i, f) + f(i);
    } else {
      SumOfLine(a, b, m - 1, i);
      SumFirst(i - m, i + m + 1, f);
      assert f(i - m) + f(i + m) == 2.0 * f(i) by {
        assert b * (i - m) as real + b * (i + m) as real == b * ((i - m) as real + (i + m) as real);
        assert (i - m) as real + (i + m) as real == 2.0 * i as real;
      }
      assert (2 * m + 1) as real * f(i) == (2 * m - 1) as real * f(i) + 2.0 * f(i);
    }
  }

  lemma {:induction false} KernelOfLine(a: real, b: real, m: nat, i: int)
    ensures Kernel(Line(a, b), m, i) == ((m + 1) * (m + 1)) as real * Line(a, b)(i)
  {
    var f := Line(a, b);
    if m == 0 {
      assert Kernel(f, 0, i) == Sum(i, i, Triangle(f, 0, i)) + Triangle(f, 0, i)(i);
    } else {
      KernelOfLine(a, b, m - 1, i);
      KernelGrows(f, m, i);
      SumOfLine(a, b, m, i);
      assert ((m + 1) * (m + 1)) as real == (m * m) as real + (2 * m + 1) as real;
    }
  }

  /** Affine signals, constants among them, pass through unchanged. */
  lemma AffineFixed(source: seq<real>, window: nat, a: real, b: real, output: seq<real>)
    requires window > 0 && |source| > window - 1
    requires IsAffine(source, a, b) && IsSmoothed(source, window, output)
    ensures output == source
  {
    forall i | 0 <= i < |source| ensures output[i] == source[i] {
      AffineFixedAt(source, window, a, b, i);
    }
  }

  lemma AffineFixedAt(source: seq<real>, window: nat, a: real, b: real, i: nat)
    requires window > 0 && |source| > window - 1 && i < |source|
    requires IsAffine(source, a, b)
    ensures Smoothed(source, window, i) == source[i]
  {
    hide Kernel, OddReflection;
    forall p | i - (window - 1) <= p <= i + (window - 1) ensures OddReflection(source)(p) == Line(a, b)(p + 0) {
      ReflectedLine(source, a, b, p);
    }
    KernelShift(OddReflection(source), Line(a, b), window - 1, i, 0);
    KernelOfLine(a, b, window - 1, i);
    CancelScale(((window - 1 + 1) * (window - 1 + 1)) as real, source[i]);
  }

  lemma CancelScale(w: real, v: real)
    requires w != 0.0
    ensures w * v / w == v
  {
  }

  lemma ReflectedLine(source: seq<real>, a: real, b: real, p: int)
    requires IsAffine(source, a, b) && -|source| < p < 2 * |source| - 1
    ensures OddReflection(source)(p) == Line(a, b)(p)
  {
    var n := |source|;
    if p < 0 {
      assert source[-p] == a + b * (-p) as real;
      assert b * (-p) as real == -(b * p as real);
      assert source[0] == a + b * 0.0;
    } else if p >= n {
      var q := 2 * (n - 1) - p;
      assert source[q] == a + b * q as real && source[n - 1] == a + b * (n - 1) as real;
      MirrorLine(a, b, (n - 1) as real, p as real, q as real);
      assert At(source, 2 * (n - 1) - p) == source[q];
      assert OddReflection(source)(p) == 2.0 * source[n - 1] - At(source, 2 * (n - 1) - p);
    } else {
      assert source[p] == a + b * p as real;
    }
  }

  lemma MirrorLine(a: real, b: real, centre: real, p: real, q: real)
    requires q == 2.0 * centre - p
    ensures 2.0 * (a + b * centre) - (a + b * q) == a + b * p
  {
  }

  /** Filtering commutes with reversing the signal in time: no sample is delayed in either direction. */
  lemma CommutesWithReversal(source: seq<real>, window: nat, output: seq<real>)
    requires window > 0 && |source| > window - 1
    requires IsSmoothed(source, window, output)
    ensures IsSmoothed(Reversed(source), window, Reversed(output))
  {
    var n, m := |source|, window - 1;
    forall i | 0 <= i < n ensures Reversed(output)[i] == Smoothed(Reversed(source), window, i) {
      KernelReversed(source, m, i);
    }
  }

  lemma KernelReversed(source: seq<real>, m: nat, i: nat)
    requires m < |source| && i < |source|
    ensures Kernel(OddReflection(source), m, |source| - 1 - i) == Kernel(OddReflection(Reversed(source)), m, i)
  {
    hide OddReflection, Sum;
    var x, y, k := OddReflection(source), OddReflection(Reversed(source)), |source| - 1 - i;
    forall p | k - m <= p < k + m + 1 ensures x(p) == y(|source| - 1 - p) {
      ReflectionReversed(source, p);
    }
    forall p | k - m <= p < k + m + 1 ensures Triangle(x, m, k)(p) == Triangle(y, m, i)(|source| - 1 - p) {
      assert Abs(p - k) == Abs(|source| - 1 - p - i);
      assert x(p) == y(|source| - 1 - p);
    }
    SumReverse(k - m, k + m + 1, |source| - 1, Triangle(x, m, k), Triangle(y, m, i));
  }

  lemma ReflectionReversed(source: seq<real>, p: int)
    requires |source| > 0
    ensures OddReflection(source)(p) == OddReflection(Reversed(source))(|source| - 1 - p)
  {
    var n, r := |source|, Reversed(source);
    if p < 0 {
      assert At(r, 2 * (n - 1) - (n - 1 - p)) == At(source, -p);
    } else if p >= n {
      assert At(r, -(n - 1 - p)) == At(source, 2 * (n - 1) - p);
    }
  }

  /** Superposition: the filter of a weighted sum of signals is the weighted sum of the filters. */
  lemma Superposition(a: seq<real>, b: seq<real>, c: seq<real>, p: real, q: real, window: nat, i: int)
    requires window > 0 && |a| == |b| == |c| > 0
    requires forall k :: 0 <= k < |a| ==> c[k] == p * a[k] + q * b[k]
    ensures Smoothed(c, window, i) == p * Smoothed(a, window, i) + q * Smoothed(b, window, i)
  {
    hide OddReflection, Kernel;
    var x, y, z := OddReflection(a), OddReflection(b), OddReflection(c);
    forall s: int ensures z(s) == p * x(s) + q * y(s) {
      ReflectionLinear(a, b, c, p, q, s);
    }
    KernelLinear(x, y, z, p, q, window - 1, i);
    DistributeQuotient(p, Kernel(x, window - 1, i), q, Kernel(y, window - 1, i), (window * window) as real);
  }

  lemma DistributeQuotient(p: real, x: real, q: real, y: real, w: real)
    requires w != 0.0
    ensures (p * x + q * y) / w == p * (x / w) + q * (y / w)
  {
    assert p * (x / w) == p * x / w && q * (y / w) == q * y / w;
  }

  lemma ReflectionLinear(a: seq<real>, b: seq<real>, c: seq<real>, p: real, q: real, s: int)
    requires |a| == |b| == |c| > 0
    requires forall k :: 0 <= k < |a| ==> c[k] == p * a[k] + q * b[k]
    ensures OddReflection(c)(s) == p * OddReflection(a)(s) + q * OddReflection(b)(s)
  {
    var n := |a|;
    var end, inner := if s < 0 then 0 else n - 1, if s < 0 then -s else 2 * (n - 1) - s;
    if s < 0 || s >= n {
      assert c[end] == p * a[end] + q * b[end];
      assert At(c, inner) == p * At(a, inner) + q * At(b, inner);
      assert 2.0 * (p * a[end]) - p * At(a, inner) == p * (2.0 * a[end] - At(a, inner));
      assert 2.0 * (q * b[end]) - q * At(b, inner) == q * (2.0 * b[end] - At(b, inner));
    }
  }

  lemma KernelLinear(x: int -> real, y: int -> real, z: int -> real, p: real, q: real, m: nat, i: int)
    requires forall s :: z(s) == p * x(s) + q * y(s)
    ensures Kernel(z, m, i) == p * Kernel(x, m, i) + q * Kernel(y, m, i)
  {
    var f, g, h := Triangle(x, m, i), Triangle(y, m, i), Triangle(z, m, i);
    hide Sum, Abs;
    forall s | i - m <= s < i + m + 1 ensures h(s) == p * f(s) + q * g(s) {
      DistributeWeight((m + 1 - Abs(s - i)) as real, p, x(s), f(s), q, y(s), g(s), z(s), h(s));
    }
    SumLinear(i - m, i + m + 1, p, f, q, g, h);
  }

  lemma DistributeWeight(w: real, p: real, x: real, wx: real, q: real, y: real, wy: real, z: real, wz: real)
    requires wx == w * x && wy == w * y && wz == w * z && z == p * x + q * y
    ensures wz == p * wx + q * wy
  {
  }

  // ---------------------------------------------------------------- dispatch

  /** Short signals are returned as they are; an even window is widened by one; then the named path runs. */
  method SmoothSignal(source: seq<real>, window: int, path: string) returns (r: Result<seq<real>>)
    ensures window <= 1 || |source| < window + 5 ==> r == Ok(source)
    ensures window > 1 && |source| >= window + 5 ==>
      var odd := if window % 2 == 0 then window + 1 else window;
      match path
      case "filter_fir_v1" => r.Ok? && |r.value| == |source|
        && forall n :: 0 <= n < |source| ==>
             r.value[n] == Sum(n + 1 - odd, n + 1, Samples(source)) * (1.0 / odd as real)
      case "zero_phase_fir_v1" =>
        if |source| <= 3 * (odd - 1) then r == Failed("INSUFFICIENT_SAMPLES")
        else r.Ok? && IsSmoothed(source, odd, r.value)
      case _ => r == Failed("INPUT_INVALID")
  {
    if window <= 1 || |source| < window + 5 {
      return Ok(source);
    }
    var odd: nat := if window % 2 == 0 then window + 1 else window;
    if path == "filter_fir_v1" {
      var filtered := ForwardFirFilter(source, odd);
      return Ok(filtered);
    }
    if path == "zero_phase_fir_v1" {
      r := ZeroPhaseFir(source, odd);
      return;
    }
    return Failed("INPUT_INVALID");
  }
}
