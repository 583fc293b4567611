/**
 What a run of the fusion has learned, read off the points themselves: which prediction every error and every score
 comes from, and which side the weight then follows.
 */
module FusionLaws {
  import opened Outcomes
  import opened Sums
  import opened Windows
  import opened Fusion
  import Blend
  import Cholesky

  // ---------------------------------------------------------------- what is learned

  function Squared(miss: real): real {
    miss * miss
  }

  /** The squared distances of the targets from the local means. */
  function LocalSquares(points: seq<Point>): (r: seq<real>)
    ensures |r| == |points|
  {
    seq(|points|, k requires 0 <= k < |points| => Squared(points[k].target - points[k].local.mean))
  }

  function GlobalSquares(points: seq<Point>): (r: seq<real>)
    ensures |r| == |points|
  {
    seq(|points|, k requires 0 <= k < |points| => Squared(points[k].target - points[k].global.mean))
  }

  /** The distances of the targets from the local means, in local deviations. */
  function LocalScores(points: seq<Point>): (r: seq<real>)
    requires AllUsable(points)
    ensures |r| == |points|
  {
    seq(|points|, k requires 0 <= k < |points| =>
      AbsReal(points[k].target - points[k].local.mean) / points[k].local.deviation)
  }

  function GlobalScores(points: seq<Point>): (r: seq<real>)
    requires AllUsable(points)
    ensures |r| == |points|
  {
    seq(|points|, k requires 0 <= k < |points| =>
      AbsReal(points[k].target - points[k].global.mean) / points[k].global.deviation)
  }

  /** The distances of the targets from what was forecast for them, in forecast deviations. */
  ghost function FusedScores(p: Settings, s: State, points: seq<Point>): (r: seq<real>)
    requires Admitted(p) && Sound(p, s) && AllUsable(points)
    ensures |r| == |points|
  {
    seq(|points|, k requires 0 <= k < |points| =>
      var f := ForecastAt(p, s, points, k);
      ForecastDeviates(p, s, points, k);
      AbsReal(points[k].target - f.fused) / f.fusedDeviation)
  }

  lemma ForecastDeviates(p: Settings, s: State, points: seq<Point>, k: nat)
    requires Admitted(p) && Sound(p, s) && AllUsable(points) && k < |points|
    ensures ForecastAt(p, s, points, k).fusedDeviation > 0.0
  {
    hide *;
    ForecastAtIs(p, s, points, k);
    DeviationIsPositive(p, After(p, s, points[..k]), points[k]);
  }

  /** Entry k of a history is the lesson of point k. */
  lemma {:induction false} HistoryAt(p: Settings, s: State, points: seq<Point>, field: Lesson -> real, k: nat)
    requires Admitted(p) && Sound(p, s) && AllUsable(points) && k < |points|
    ensures ForecastAt(p, s, points, k).fusedDeviation > 0.0
    ensures History(p, s, points, field)[k] == field(LessonOf(ForecastAt(p, s, points, k), points[k]))
  {
    hide Admitted, Sound, After, Forecasted, LessonOf;
    ForecastDeviates(p, s, points, k);
    var last := |points| - 1;
    if k < last {
      HistoryAt(p, s, points[..last], field, k);
      assert points[..last][..k] == points[..k];
    } else {
      assert points[..last] == points[..k];
    }
  }

  /** After any run, every window holds the last entries of what it started with and of what the points say. */
  lemma WindowsAreOfPoints(p: Settings, s: State, points: seq<Point>)
    requires Admitted(p) && Sound(p, s) && AllUsable(points)
    ensures var t := After(p, s, points);
      && t.localErrors == LastN(s.localErrors + LocalSquares(points), p.errorWindow)
      && t.globalErrors == LastN(s.globalErrors + GlobalSquares(points), p.errorWindow)
      && t.localScores
         == (if p.updateAll then LastN(s.localScores + LocalScores(points), p.scoreWindow) else s.localScores)
      && t.globalScores
         == (if p.updateAll then LastN(s.globalScores + GlobalScores(points), p.scoreWindow) else s.globalScores)
      && t.fusedScores
         == (if p.updateAll then LastN(s.fusedScores + FusedScores(p, s, points), p.scoreWindow) else s.fusedScores)
  {
    hide Admitted, Sound, After, History, LastN, ForecastAt, LessonOf, AllUsable;
    EveryWindowIsLast(p, s, points);
    forall k | 0 <= k < |points|
      ensures History(p, s, points, LocalErrorOf())[k] == LocalSquares(points)[k]
      ensures History(p, s, points, GlobalErrorOf())[k] == GlobalSquares(points)[k]
      ensures History(p, s, points, LocalScoreOf())[k] == LocalScores(points)[k]
      ensures History(p, s, points, GlobalScoreOf())[k] == GlobalScores(points)[k]
      ensures History(p, s, points, FusedScoreOf())[k] == FusedScores(p, s, points)[k]
    {
      HistoryAt(p, s, points, LocalErrorOf(), k);
      HistoryAt(p, s, points, GlobalErrorOf(), k);
      HistoryAt(p, s, points, LocalScoreOf(), k);
      HistoryAt(p, s, points, GlobalScoreOf(), k);
      HistoryAt(p, s, points, FusedScoreOf(), k);
      UsableAt(points, k);
      LessonIs(ForecastAt(p, s, points, k), points[k]);
    }
    assert History(p, s, points, LocalErrorOf()) == LocalSquares(points);
    assert History(p, s, points, GlobalErrorOf()) == GlobalSquares(points);
    assert History(p, s, points, LocalScoreOf()) == LocalScores(points);
    assert History(p, s, points, GlobalScoreOf()) == GlobalScores(points);
    assert History(p, s, points, FusedScoreOf()) == FusedScores(p, s, points);
  }

  lemma UsableAt(points: seq<Point>, k: nat)
    requires AllUsable(points) && k < |points|
    ensures Usable(points[k])
  {
  }

  lemma LessonIs(f: Forecast, point: Point)
    requires Usable(point) && f.fusedDeviation > 0.0
    ensures var lesson, miss, other := LessonOf(f, point), point.target - point.local.mean,
        point.target - point.global.mean;
      && lesson.localError == Squared(miss) && lesson.globalError == Squared(other)
      && lesson.localScore == AbsReal(miss) / point.local.deviation
      && lesson.globalScore == AbsReal(other) / point.global.deviation
      && lesson.fusedScore == AbsReal(point.target - f.fused) / f.fusedDeviation
  {
  }

  // ---------------------------------------------------------------- the side that predicts exactly

  /** From a position on, the local mean is the target and the global mean is not. */
  predicate LocalExact(points: seq<Point>, from: int) {
    forall k :: 0 <= k < |points| && from <= k ==>
      points[k].target == points[k].local.mean && points[k].target != points[k].global.mean
  }

  predicate GlobalExact(points: seq<Point>, from: int) {
    forall k :: 0 <= k < |points| && from <= k ==>
      points[k].target == points[k].global.mean && points[k].target != points[k].local.mean
  }

  lemma LeastPositive(values: seq<real>) returns (low: real, high: real)
    requires values != [] && forall k :: 0 <= k < |values| ==> values[k] > 0.0
    ensures 0.0 < low <= high && forall k :: 0 <= k < |values| ==> low <= values[k] <= high
  {
    low, high := values[0], values[0];
    for i := 1 to |values|
      invariant 0.0 < low <= high && forall k :: 0 <= k < i ==> low <= values[k] <= high
    {
      low, high := MinReal(low, values[i]), MaxReal(high, values[i]);
    }
  }

  /** A window of zeros has recent mean zero, one of positive errors a positive one. */
  lemma RecentOfExact(p: Settings, zeros: seq<real>, positives: seq<real>)
    requires zeros != [] && AllNonNegative(zeros) && AllZero(zeros)
    requires positives != [] && AllNonNegative(positives) && AllPositive(positives)
    ensures Recent(p, zeros) == 0.0 && Recent(p, positives) > 0.0
  {
    RecentBetween(zeros, p.winsorQuantile, 0.0, 0.0);
    var low, high := LeastPositive(positives);
    RecentBetween(positives, p.winsorQuantile, low, high);
  }

  lemma LastOfMany(s: seq<real>, h: seq<real>, n: nat)
    requires n <= |h|
    ensures LastN(s + h, n) == h[|h| - n..]
  {
  }

  lemma ErrorsOfExact(p: Settings, s: State, points: seq<Point>)
    requires Admitted(p) && Sound(p, s) && AllUsable(points) && p.errorWindow <= |points|
    ensures var t, n := After(p, s, points), |points| - p.errorWindow;
      && t.localErrors == LocalSquares(points)[n..] && t.globalErrors == GlobalSquares(points)[n..]
      && Sound(p, t)
  {
    hide Admitted, Sound, AllUsable, LastN;
    WindowsAreOfPoints(p, s, points);
    LastOfMany(s.localErrors, LocalSquares(points), p.errorWindow);
    LastOfMany(s.globalErrors, GlobalSquares(points), p.errorWindow);
  }

  lemma SquareOfMiss(miss: real)
    ensures if miss == 0.0 then Squared(miss) == 0.0 else Squared(miss) > 0.0
  {
    SquareSign(miss, Squared(miss));
  }

  lemma ExactSquares(points: seq<Point>, from: nat)
    requires from <= |points|
    ensures LocalExact(points, from) ==>
      && (forall k :: 0 <= k < |points| - from ==> LocalSquares(points)[from..][k] == 0.0)
      && (forall k :: 0 <= k < |points| - from ==> GlobalSquares(points)[from..][k] > 0.0)
    ensures GlobalExact(points, from) ==>
      && (forall k :: 0 <= k < |points| - from ==> LocalSquares(points)[from..][k] > 0.0)
      && (forall k :: 0 <= k < |points| - from ==> GlobalSquares(points)[from..][k] == 0.0)
  {
    hide Squared;
    forall k | from <= k < |points|
      ensures LocalExact(points, from) ==> LocalSquares(points)[k] == 0.0 && GlobalSquares(points)[k] > 0.0
      ensures GlobalExact(points, from) ==> LocalSquares(points)[k] > 0.0 && GlobalSquares(points)[k] == 0.0
    {
      SquareOfMiss(points[k].target - points[k].local.mean);
      SquareOfMiss(points[k].target - points[k].global.mean);
    }
  }

  /** Once one side has been exact for a whole window and the other has not, the next forecast calls it clear. */
  lemma ExactSideIsClear(p: Settings, s: State, points: seq<Point>, next: Point)
    requires Admitted(p) && Sound(p, s) && AllUsable(points) && p.errorWindow <= |points|
    ensures var f := Forecasted(p, After(p, s, points), next);
      && (LocalExact(points, |points| - p.errorWindow) ==>
            f.recentLocal == 0.0 && f.recentGlobal > 0.0 && f.localClear && !f.globalClear)
      && (GlobalExact(points, |points| - p.errorWindow) && next.support >= p.minimumSupport ==>
            f.recentLocal > 0.0 && f.recentGlobal == 0.0 && f.globalClear && !f.localClear)
  {
    hide After, LocalExact, GlobalExact, AllUsable;
    ErrorsOfExact(p, s, points);
    ExactSquares(points, |points| - p.errorWindow);
    var t := After(p, s, points);
    ClearFromRecent(p, t, next);
    if LocalExact(points, |points| - p.errorWindow) {
      RecentOfExact(p, t.localErrors, t.globalErrors);
      ClearFromErrors(p, 0.0, Recent(p, t.globalErrors), next.support);
    }
    if GlobalExact(points, |points| - p.errorWindow) {
      RecentOfExact(p, t.globalErrors, t.localErrors);
      ClearFromErrors(p, Recent(p, t.localErrors), 0.0, next.support);
    }
  }

  lemma ClearFromRecent(p: Settings, s: State, point: Point)
    requires Admitted(p) && Sound(p, s)
    ensures var f := Forecasted(p, s, point);
      && f.recentLocal == Recent(p, s.localErrors) && f.recentGlobal == Recent(p, s.globalErrors)
      && f.globalClear == GlobalClear(p, f.recentLocal, f.recentGlobal, point.support)
      && f.localClear == LocalClear(p, f.recentLocal, f.recentGlobal, point.support)
  {
    hide Admitted, Scale, HalfWidth, CalibratedVariance, Recent, CountWins, Blended, Gates, SupportGate, RawWeight,
      Smoothed, Fused, MixtureVariance, GlobalClear, LocalClear;
  }

  lemma ClearFromErrors(p: Settings, recentLocal: real, recentGlobal: real, support: real)
    requires 0.0 <= p.winMargin <= 1.0
    ensures recentLocal == 0.0 < recentGlobal ==>
      LocalClear(p, recentLocal, recentGlobal, support) && !GlobalClear(p, recentLocal, recentGlobal, support)
    ensures recentGlobal == 0.0 < recentLocal && support >= p.minimumSupport ==>
      GlobalClear(p, recentLocal, recentGlobal, support) && !LocalClear(p, recentLocal, recentGlobal, support)
  {
    ProductSign(1.0 - p.winMargin, recentGlobal, (1.0 - p.winMargin) * recentGlobal);
    ProductSign(1.0 - p.winMargin, recentLocal, (1.0 - p.winMargin) * recentLocal);
  }

  /**
   A side leads when its recent error is below the other's by at least the margin's part of the other's. The global side
   is clear exactly when it leads with enough support; the local side when it leads or the support is missing.
   */
  lemma ClearExactlyWhen(p: Settings, s: State, point: Point)
    requires Admitted(p) && Sound(p, s)
    ensures var f := Forecasted(p, s, point);
      && f.recentLocal == Recent(p, s.localErrors) && f.recentGlobal == Recent(p, s.globalErrors)
      && (f.globalClear <==> Leads(p.winMargin, f.recentGlobal, f.recentLocal) && point.support >= p.minimumSupport)
      && (f.localClear <==> Leads(p.winMargin, f.recentLocal, f.recentGlobal) || point.support < p.minimumSupport)
  {
    hide *;
    ClearFromRecent(p, s, point);
    var f := Forecasted(p, s, point);
    ClearIsLead(p, f.recentLocal, f.recentGlobal, point.support);
  }

  ghost predicate Leads(margin: real, recent: real, other: real) {
    other - recent >= margin * other
  }

  lemma ClearIsLead(p: Settings, recentLocal: real, recentGlobal: real, support: real)
    ensures GlobalClear(p, recentLocal, recentGlobal, support)
      <==> Leads(p.winMargin, recentGlobal, recentLocal) && support >= p.minimumSupport
    ensures LocalClear(p, recentLocal, recentGlobal, support)
      <==> Leads(p.winMargin, recentLocal, recentGlobal) || support < p.minimumSupport
  {
    AllBut(p.winMargin, recentLocal);
    AllBut(p.winMargin, recentGlobal);
  }

  lemma AllBut(margin: real, x: real)
    ensures (1.0 - margin) * x == x - margin * x
  {
  }

  /** A clear side counts one more win and clears the other's; without one, every count there is goes down by one. */
  lemma WinsMove(p: Settings, s: State, point: Point)
    requires Admitted(p) && Sound(p, s)
    ensures var f := Forecasted(p, s, point);
      && (f.globalClear ==> f.wins == Wins(0, s.wins.global + 1))
      && (!f.globalClear && f.localClear ==> f.wins == Wins(s.wins.local + 1, 0))
      && (!f.globalClear && !f.localClear ==>
            && (s.wins.local == 0 ==> f.wins.local == 0) && (s.wins.local > 0 ==> f.wins.local + 1 == s.wins.local)
            && (s.wins.global == 0 ==> f.wins.global == 0)
            && (s.wins.global > 0 ==> f.wins.global + 1 == s.wins.global))
  {
    hide Admitted, Sound;
    WinsOf(p, s, point);
    hide Forecasted;
  }

  /** Calibration hands all the wins to the side that leads, the global one first, and none where neither does. */
  lemma InitialWinsFollowLead(p: Settings, localErrors: seq<real>, globalErrors: seq<real>)
    requires localErrors != [] && AllNonNegative(localErrors) && globalErrors != [] && AllNonNegative(globalErrors)
    ensures var recentLocal, recentGlobal := Recent(p, localErrors), Recent(p, globalErrors);
      InitialWins(p, localErrors, globalErrors)
      == if Leads(p.winMargin, recentGlobal, recentLocal) then Wins(0, p.persistence)
         else if Leads(p.winMargin, recentLocal, recentGlobal) then Wins(p.persistence, 0)
         else Wins(0, 0)
  {
    hide Recent, Leads;
    var recentLocal, recentGlobal := Recent(p, localErrors), Recent(p, globalErrors);
    LeadsBy(p.winMargin, recentGlobal, recentLocal);
    LeadsBy(p.winMargin, recentLocal, recentGlobal);
  }

  lemma LeadsBy(margin: real, recent: real, other: real)
    ensures Leads(margin, recent, other) <==> recent <= (1.0 - margin) * other
  {
    AllBut(margin, other);
  }

  // ---------------------------------------------------------------- who the weight follows

  lemma WinsOf(p: Settings, s: State, point: Point)
    requires Admitted(p) && Sound(p, s)
    ensures var f := Forecasted(p, s, point);
      && (f.localClear && !f.globalClear ==> f.wins == Wins(s.wins.local + 1, 0))
      && (f.globalClear ==> f.wins == Wins(0, s.wins.global + 1))
  {
    hide Admitted, Scale, HalfWidth, CalibratedVariance, Recent, Blended, Gates, SupportGate, RawWeight,
      Smoothed, Fused, MixtureVariance, GlobalClear, LocalClear;
  }

  lemma WinsCarry(p: Settings, s: State, points: seq<Point>)
    requires Admitted(p) && Sound(p, s) && AllUsable(points) && points != []
    ensures AllUsable(points[..|points| - 1]) && Usable(points[|points| - 1])
    ensures var f := Forecasted(p, After(p, s, points[..|points| - 1]), points[|points| - 1]);
      After(p, s, points).wins == f.wins && After(p, s, points).weight == f.weight
  {
    hide Admitted, Sound, Forecasted, LessonOf, StatusOf, UpdateWindow;
  }

  lemma ExactBefore(points: seq<Point>, from: int, later: int)
    requires from <= later && points != []
    ensures LocalExact(points, from) ==> LocalExact(points[..|points| - 1], later) && LocalExact(points, later)
    ensures GlobalExact(points, from) ==> GlobalExact(points[..|points| - 1], later) && GlobalExact(points, later)
  {
  }

  /** From a position on, the surrogate is supported. */
  predicate Supported(p: Settings, points: seq<Point>, from: int) {
    forall k :: 0 <= k < |points| && from <= k ==> points[k].support >= p.minimumSupport
  }

  lemma SupportedBefore(p: Settings, points: seq<Point>, next: Point, from: int)
    requires from <= |points|
    ensures Supported(p, points + [next], from) ==> next.support >= p.minimumSupport && Supported(p, points, from)
  {
    assert (points + [next])[|points|] == next;
    assert forall k :: 0 <= k < |points| ==> (points + [next])[k] == points[k];
  }

  /** Each further exact point is another win for the side that is exact. */
  lemma {:induction false} ExactSideWins(p: Settings, s: State, points: seq<Point>, m: nat, next: Point)
    requires Admitted(p) && Sound(p, s) && AllUsable(points) && p.errorWindow + m <= |points|
    ensures LocalExact(points, |points| - p.errorWindow - m) ==>
      var wins := Forecasted(p, After(p, s, points), next).wins; wins.local >= m + 1 && wins.global == 0
    ensures GlobalExact(points, |points| - p.errorWindow - m) && Supported(p, points + [next], |points| - m) ==>
      var wins := Forecasted(p, After(p, s, points), next).wins; wins.global >= m + 1 && wins.local == 0
    decreases m
  {
    hide Admitted, Sound, After, Forecasted, LocalExact, GlobalExact, Supported, AllUsable;
    SupportedBefore(p, points, next, |points| - m);
    ExactSideIsClear(p, s, points, next);
    WinsOf(p, After(p, s, points), next);
    if points != [] {
      ExactBefore(points, |points| - p.errorWindow - m, |points| - p.errorWindow);
    }
    if m > 0 {
      var last := |points| - 1;
      WinsCarry(p, s, points);
      ExactBefore(points, |points| - p.errorWindow - m, last - p.errorWindow - (m - 1));
      assert points[..last] + [points[last]] == points;
      ExactSideWins(p, s, points[..last], m - 1, points[last]);
    }
  }

  /**
   Whatever a run started with, the global weight follows the side that predicts exactly: after a window and
   `persistence` more points at which the local mean alone was the target, the raw weight is zero and the weight falls;
   at which the global mean alone was, and the surrogate was supported, it is raised as far as the settings allow.
   */
  lemma WeightFollowsExactSide(p: Settings, s: State, points: seq<Point>, next: Point)
    requires Admitted(p) && Sound(p, s) && AllUsable(points) && p.errorWindow + p.persistence - 1 <= |points|
    ensures var t, n := After(p, s, points), |points| - p.errorWindow - p.persistence + 1;
      var f := Forecasted(p, t, next);
      && (LocalExact(points, n) ==> f.rawWeight == 0.0 && f.weight == p.fallSmoothing * t.weight)
      && (GlobalExact(points, n) && Supported(p, points + [next], |points| + 1 - p.persistence) ==>
            f.rawWeight >= MinReal(p.maximumWeight, p.clearThreshold * 0.75))
  {
    hide *;
    AdmittedLimits(p);
    ExactSideWins(p, s, points, p.persistence - 1, next);
    var t := After(p, s, points);
    if Forecasted(p, t, next).wins.local >= p.persistence {
      LocalWinsDecay(p, t, next);
    }
    if Forecasted(p, t, next).wins.global >= p.persistence {
      GlobalWinsRaise(p, t, next);
    }
  }

  // ---------------------------------------------------------------- what a forecast's numbers mean

  /** The scale covers the asked share of the scores and no more, as far as its own bounds let it. */
  ghost predicate IsScaleOf(p: Settings, scores: seq<real>, q: real) {
    var wanted := (|scores| as real + 1.0) * p.confidence;
    && p.scaleMin <= q <= p.scaleMax
    && (q < p.scaleMax ==> CountAtMost(scores, q) as real >= wanted || CountAtMost(scores, q) >= |scores|)
    && (q > p.scaleMin ==> CountBelow(scores, q) as real < wanted || CountBelow(scores, q) == 0)
  }

  /** Where the bounds of the band do not bind, a value is within it exactly when its score is within the scale. */
  ghost predicate IsBandOf(p: Settings, scale: real, deviation: real, band: real)
    requires deviation > 0.0
  {
    && p.halfWidthMin <= band <= p.halfWidthMax
    && (p.halfWidthMin < band ==> forall miss: real :: AbsReal(miss) / deviation > scale ==> AbsReal(miss) > band)
    && (band < p.halfWidthMax ==> forall miss: real :: AbsReal(miss) / deviation <= scale ==> AbsReal(miss) <= band)
  }

  /** The band is `multiplier` deviations wide, unless the floor binds. */
  ghost predicate IsVarianceOf(p: Settings, band: real, variance: real) {
    && variance >= p.varianceFloor && variance * Squared(p.multiplier) >= Squared(band)
    && (variance > p.varianceFloor ==> variance * Squared(p.multiplier) == Squared(band))
  }

  /** Every scale, band and variance of a forecast is that of its own side. */
  lemma ForecastMeans(p: Settings, s: State, point: Point)
    requires Admitted(p) && Sound(p, s) && Usable(point)
    ensures var f := Forecasted(p, s, point);
      && IsScaleOf(p, s.localScores, f.localScale)
      && IsScaleOf(p, s.globalScores, f.globalScale)
      && IsScaleOf(p, s.fusedScores, f.fusedScale)
      && IsBandOf(p, f.localScale, point.local.deviation, f.localBand)
      && IsBandOf(p, f.globalScale, point.global.deviation, f.globalBand)
      && f.fusedDeviation > 0.0 && IsBandOf(p, f.fusedScale, f.fusedDeviation, f.fusedBand)
      && IsVarianceOf(p, f.localBand, f.localVariance)
      && IsVarianceOf(p, f.globalBand, f.globalVariance)
      && IsVarianceOf(p, f.fusedBand, f.fusedVariance)
  {
    hide IsScaleOf, IsBandOf, IsVarianceOf, HalfWidth, Scale, CalibratedVariance;
    DeviationIsPositive(p, s, point);
    var f := NumbersOf(p, s, point);
    ScaleMeans(p, s.localScores);
    ScaleMeans(p, s.globalScores);
    ScaleMeans(p, s.fusedScores);
    BandMeans(p, f.localScale, point.local.deviation);
    BandMeans(p, f.globalScale, point.global.deviation);
    BandMeans(p, f.fusedScale, f.fusedDeviation);
    VarianceMeans(p, f.localBand);
    VarianceMeans(p, f.globalBand);
    VarianceMeans(p, f.fusedBand);
  }

  lemma NumbersOf(p: Settings, s: State, point: Point) returns (f: Forecast)
    requires Admitted(p) && Sound(p, s)
    ensures f == Forecasted(p, s, point)
    ensures f.localScale == Scale(p, s.localScores) && f.globalScale == Scale(p, s.globalScores)
    ensures f.fusedScale == Scale(p, s.fusedScores)
    ensures f.localBand == HalfWidth(p, f.localScale, point.local.deviation)
    ensures f.globalBand == HalfWidth(p, f.globalScale, point.global.deviation)
    ensures f.fusedBand == HalfWidth(p, f.fusedScale, f.fusedDeviation)
    ensures f.localVariance == CalibratedVariance(p, f.localBand)
    ensures f.globalVariance == CalibratedVariance(p, f.globalBand)
    ensures f.fusedVariance == CalibratedVariance(p, f.fusedBand)
  {
    hide Scale, HalfWidth, CalibratedVariance, Recent, GlobalClear, LocalClear, CountWins, Blended, Gates, SupportGate,
      RawWeight, Smoothed, Fused, MixtureVariance;
    f := Forecasted(p, s, point);
  }

  lemma ScaleMeans(p: Settings, scores: seq<real>)
    requires scores != [] && p.scaleMin <= p.scaleMax
    ensures IsScaleOf(p, scores, Scale(p, scores))
  {
    hide ScoreQuantile, CountAtMost, CountBelow;
    QuantileCovers(scores, p.confidence, p.scaleMin, p.scaleMax);
  }

  lemma BandMeans(p: Settings, scale: real, deviation: real)
    requires p.halfWidthMin <= p.halfWidthMax && deviation > 0.0
    ensures IsBandOf(p, scale, deviation, HalfWidth(p, scale, deviation))
  {
    var band := HalfWidth(p, scale, deviation);
    ClampStays(scale * deviation, p.halfWidthMin, p.halfWidthMax);
    assert p.halfWidthMin < band ==> band <= scale * deviation;
    assert band < p.halfWidthMax ==> band >= scale * deviation;
    hide HalfWidth;
    forall miss: real
      ensures AbsReal(miss) / deviation > scale ==> AbsReal(miss) > scale * deviation
      ensures AbsReal(miss) / deviation <= scale ==> AbsReal(miss) <= scale * deviation
    {
      ScoreAndMiss(AbsReal(miss), deviation, scale);
    }
  }

  lemma ScoreAndMiss(distance: real, deviation: real, scale: real)
    requires deviation > 0.0
    ensures distance / deviation <= scale <==> distance <= scale * deviation
  {
    var score := distance / deviation;
    assert score * deviation == distance;
    ProductSign(scale - score, deviation, (scale - score) * deviation);
    assert (scale - score) * deviation == scale * deviation - distance;
  }

  lemma VarianceMeans(p: Settings, band: real)
    requires p.multiplier > 0.0
    ensures IsVarianceOf(p, band, CalibratedVariance(p, band))
  {
    var quotient, variance := band / p.multiplier, CalibratedVariance(p, band);
    assert quotient * p.multiplier == band;
    assert Square(quotient) * Squared(p.multiplier) == Squared(band) by {
      assert Squared(quotient * p.multiplier) == Squared(quotient) * Squared(p.multiplier);
    }
    SquareSign(p.multiplier, Squared(p.multiplier));
    hide Square, Squared;
    ProductSign(variance - Square(quotient), Squared(p.multiplier),
                (variance - Square(quotient)) * Squared(p.multiplier));
  }

  /** Outside the band above is heavy, outside it below is light, and inside it, its ends included, is neither. */
  lemma StatusMeans(f: Forecast, target: real)
    requires f.fusedBand >= 0.0
    ensures StatusOf(f, target) == Normal <==> AbsReal(target - f.fused) <= f.fusedBand
    ensures StatusOf(f, target) == Heavy ==> target > f.fused
    ensures StatusOf(f, target) == Light ==> target < f.fused
  {
  }

  /** The fused value is `weight` of the way from local to global; its deviation is that of the mixture about it. */
  lemma FusedMeans(p: Settings, s: State, point: Point)
    requires Admitted(p) && Sound(p, s)
    ensures var f, w := Forecasted(p, s, point), Forecasted(p, s, point).weight;
      && f.fused - point.local.mean == w * (point.global.mean - point.local.mean)
      && Squared(f.fusedDeviation)
         == (1.0 - w) * (f.localVariance + Squared(point.local.mean - f.fused))
            + w * (f.globalVariance + Squared(point.global.mean - f.fused))
  {
    hide *;
    var f := Forecasted(p, s, point);
    WeightIsShare(p, s, point);
    FloorsHold(p, s, point);
    DeviationIs(p, s, point);
    MixtureIsSecondMoment(point.local.mean, point.global.mean, f.localVariance, f.globalVariance, f.weight,
      p.varianceFloor);
    FusedStep(f.weight, point.local.mean, point.global.mean);
    SameSquare(point.local.mean - f.fused);
    SameSquare(point.global.mean - f.fused);
    SameSquare(f.fusedDeviation);
  }

  lemma WeightIsShare(p: Settings, s: State, point: Point)
    requires Admitted(p) && Sound(p, s)
    ensures var f := Forecasted(p, s, point);
      0.0 <= f.weight <= 1.0 && f.fused == Fused(f.weight, point.local.mean, point.global.mean)
  {
    ForecastIsAdmissible(p, s, point);
    hide Forecasted, Sound;
  }

  lemma SameSquare(v: real)
    ensures Squared(v) == Square(v) == v * v
  {
  }

  lemma FusedStep(w: real, local: real, global: real)
    ensures Fused(w, local, global) - local == w * (global - local)
  {
  }

  lemma FloorsHold(p: Settings, s: State, point: Point)
    requires Admitted(p) && Sound(p, s)
    ensures var f := Forecasted(p, s, point); p.varianceFloor <= f.localVariance && p.varianceFloor <= f.globalVariance
  {
    var f := NumbersOf(p, s, point);
    hide Square;
  }

  lemma DeviationIs(p: Settings, s: State, point: Point)
    requires Admitted(p) && Sound(p, s)
    ensures var f := Forecasted(p, s, point);
      f.fusedDeviation * f.fusedDeviation
      == MixtureVariance(point.local.mean, point.global.mean, f.localVariance, f.globalVariance, f.weight,
                         p.varianceFloor)
  {
    hide Scale, HalfWidth, CalibratedVariance, Recent, GlobalClear, LocalClear, CountWins, Blended, Gates, SupportGate,
      RawWeight, Smoothed, Fused, MixtureVariance;
    var f := Forecasted(p, s, point);
    MixtureAboveFloor(point.local.mean, point.global.mean, f.localVariance, f.globalVariance, f.weight,
      p.varianceFloor);
  }

  // ---------------------------------------------------------------- what a weight is made of

  /** The global share: the odds are the support times the ratio of the costs. */
  ghost predicate IsShare(localCost: real, globalCost: real, support: real, share: real) {
    && 0.0 <= share <= 1.0
    && (EPSILON <= localCost <= 1.0 / EPSILON && EPSILON <= globalCost ==>
          share * globalCost == (1.0 - share) * (support * localCost))
  }

  /** Proportional below the full value, one from there on. */
  ghost predicate IsGate(value: real, full: real, gate: real) {
    full >= EPSILON ==> if value >= full then gate == 1.0 else gate * full == value
  }

  ghost predicate IsVarianceGate(p: Settings, localVariance: real, globalVariance: real, gate: real) {
    IsGate(p.varianceRatio * localVariance, globalVariance, gate)
  }

  lemma GateMeans(value: real, full: real)
    ensures IsGate(value, full, MinReal(1.0, value / Guarded(full)))
  {
    if full >= EPSILON {
      var quotient := value / full;
      assert quotient * full == value;
      ProductSign(quotient - 1.0, full, value - full);
    }
  }

  lemma ShareMeans(localCost: real, globalCost: real, support: real)
    requires support >= 0.0
    ensures IsShare(localCost, globalCost, support, Reliability(localCost, globalCost, support))
  {
    ReliabilityIsMonotone(localCost, globalCost, support, localCost, globalCost, support);
    if EPSILON <= localCost <= 1.0 / EPSILON && EPSILON <= globalCost {
      var local, global := 1.0 / localCost, support / globalCost;
      assert local * localCost == 1.0 && global * globalCost == support;
      QuotientOrder(1.0, 1.0 / EPSILON, 1.0, localCost);
      QuotientOrder(0.0, globalCost, support, globalCost);
      assert local >= EPSILON;
      hide *;
      ShareIsQuotient(localCost, globalCost, support, local, global);
      var share := Reliability(localCost, globalCost, support);
      Odds(share, local, global, localCost, globalCost, support);
    }
  }

  lemma ShareIsQuotient(localCost: real, globalCost: real, support: real, local: real, global: real)
    requires EPSILON <= localCost && EPSILON <= globalCost && local == 1.0 / localCost && global == support / globalCost
    requires local >= EPSILON && global >= 0.0
    ensures Reliability(localCost, globalCost, support) * (local + global) == global
  {
    assert Guarded(localCost) == localCost && Guarded(globalCost) == globalCost;
    assert Guarded(local + global) == local + global;
  }

  lemma Odds(share: real, local: real, global: real, localCost: real, globalCost: real, support: real)
    requires share * (local + global) == global && local * localCost == 1.0 && global * globalCost == support
    ensures share * globalCost == (1.0 - share) * (support * localCost)
  {
    assert share * local == (1.0 - share) * global;
    assert share * globalCost == (share * local) * (localCost * globalCost) by {
      assert (share * local) * (localCost * globalCost) == (share * globalCost) * (local * localCost);
    }
    assert (1.0 - share) * (support * localCost) == ((1.0 - share) * global) * (localCost * globalCost);
  }

  /** The two costs, the share they give, the three gates, and the product that is clamped to the raw weight. */
  datatype Weighing = Weighing(localCost: real, globalCost: real, share: real, supportGate: real, varianceGate: real,
                               disagreementGate: real, blended: real, gates: real, product: real)

  /** A fifth of the calibrated weight and four fifths of the share that the two costs give. */
  ghost predicate BlendsShare(p: Settings, f: Forecast, point: Point, w: Weighing) {
    && w.localCost == f.recentLocal + p.varianceWeight * f.localVariance
    && w.globalCost == f.recentGlobal + p.varianceWeight * f.globalVariance
    && IsShare(w.localCost, w.globalCost, point.support, w.share)
    && w.blended == 0.2 * p.calibratedWeight + 0.8 * w.share
  }

  ghost predicate AreGates(p: Settings, f: Forecast, point: Point, w: Weighing)
    requires Admitted(p)
  {
    && IsGate(point.support, p.fullSupport, w.supportGate)
    && IsVarianceGate(p, f.localVariance, f.globalVariance, w.varianceGate)
    && w.disagreementGate == DisagreementGateOf(p, point, f)
    && w.gates == w.disagreementGate * w.varianceGate
  }

  /**
   After local wins nothing; after global wins at least the clear threshold, and the support gate at least three
   quarters; undecided at most the neutral limit, times the three gates.
   */
  ghost predicate IsProduct(p: Settings, f: Forecast, w: Weighing) {
    var proposed := Clamp(w.blended, 0.0, p.maximumWeight);
    && w.product
       == (if f.wins.local >= p.persistence then 0.0
           else if f.wins.global >= p.persistence
           then MaxReal(proposed, p.clearThreshold) * MaxReal(w.supportGate, 0.75)
           else MinReal(proposed, p.neutralLimit) * w.gates * w.supportGate)
    && f.rawWeight == Clamp(w.product, 0.0, p.maximumWeight)
  }

  /** How every raw weight is weighed. */
  lemma RawWeightMeans(p: Settings, s: State, point: Point) returns (w: Weighing)
    requires Admitted(p) && Sound(p, s) && Usable(point)
    ensures var f := Forecasted(p, s, point);
      BlendsShare(p, f, point, w) && AreGates(p, f, point, w) && IsProduct(p, f, w)
  {
    hide *;
    var f := Forecasted(p, s, point);
    var localCost, globalCost := Cost(p, f.recentLocal, f.localVariance), Cost(p, f.recentGlobal, f.globalVariance);
    var blended := Blended(p, f.recentLocal, f.recentGlobal, f.localVariance, f.globalVariance, point.support);
    GatesAreDefined(p);
    var gates := Gates(p, point.local.mean, point.global.mean, f.localVariance, f.globalVariance);
    var support := SupportGate(p, point.support);
    var product := Weighed(p, f.wins, Clamp(blended, 0.0, p.maximumWeight), gates, support);
    w := Weighing(localCost, globalCost, Reliability(localCost, globalCost, point.support), support,
                  VarianceGate(p, f.localVariance, f.globalVariance), DisagreementGateOf(p, point, f), blended, gates,
                  product);
    RawIs(p, s, point);
    ShareBlends(p, f, point, w);
    GatesAre(p, f, point, w);
    ProductIs(p, f, w);
  }

  lemma GatesAreDefined(p: Settings)
    requires Admitted(p)
    ensures p.varianceFloor > 0.0 && Cholesky.IsRoot(p.sqrt)
  {
  }

  lemma ShareBlends(p: Settings, f: Forecast, point: Point, w: Weighing)
    requires Usable(point)
    requires w.localCost == Cost(p, f.recentLocal, f.localVariance)
    requires w.globalCost == Cost(p, f.recentGlobal, f.globalVariance)
    requires w.share == Reliability(w.localCost, w.globalCost, point.support)
    requires w.blended == Blended(p, f.recentLocal, f.recentGlobal, f.localVariance, f.globalVariance, point.support)
    ensures BlendsShare(p, f, point, w)
  {
    assert point.support >= 0.0;
    hide Reliability, IsShare;
    ShareMeans(w.localCost, w.globalCost, point.support);
  }

  lemma GatesAre(p: Settings, f: Forecast, point: Point, w: Weighing)
    requires Admitted(p)
    requires w.supportGate == SupportGate(p, point.support)
    requires w.varianceGate == VarianceGate(p, f.localVariance, f.globalVariance)
    requires w.disagreementGate == DisagreementGateOf(p, point, f)
    requires w.gates == Gates(p, point.local.mean, point.global.mean, f.localVariance, f.globalVariance)
    ensures AreGates(p, f, point, w)
  {
    hide DisagreementGate, IsGate, SupportGate, VarianceGate, IsVarianceGate;
    SupportGateMeans(p, point.support);
    VarianceGateMeans(p, f.localVariance, f.globalVariance, p.varianceRatio * f.localVariance);
  }

  lemma SupportGateMeans(p: Settings, support: real)
    ensures IsGate(support, p.fullSupport, SupportGate(p, support))
  {
    hide IsGate;
    GateMeans(support, p.fullSupport);
  }

  lemma VarianceGateMeans(p: Settings, localVariance: real, globalVariance: real, scaled: real)
    requires scaled == p.varianceRatio * localVariance
    ensures IsVarianceGate(p, localVariance, globalVariance, VarianceGate(p, localVariance, globalVariance))
  {
    GateMeans(scaled, globalVariance);
    assert VarianceGate(p, localVariance, globalVariance) == MinReal(1.0, scaled / Guarded(globalVariance));
  }

  lemma ProductIs(p: Settings, f: Forecast, w: Weighing)
    requires w.product == Weighed(p, f.wins, Clamp(w.blended, 0.0, p.maximumWeight), w.gates, w.supportGate)
    requires f.rawWeight == RawWeight(p, f.wins, w.blended, w.gates, w.supportGate)
    ensures IsProduct(p, f, w)
  {
    hide Clamp, MinReal, MaxReal;
  }

  function DisagreementGateOf(p: Settings, point: Point, f: Forecast): real
    requires Admitted(p)
  {
    DisagreementGate(p, AbsReal(point.global.mean - point.local.mean), f.localVariance + f.globalVariance)
  }

  lemma RawIs(p: Settings, s: State, point: Point)
    requires Admitted(p) && Sound(p, s)
    ensures var f := Forecasted(p, s, point);
      f.rawWeight == RawWeight(p, f.wins,
                               Blended(p, f.recentLocal, f.recentGlobal, f.localVariance, f.globalVariance,
                                       point.support),
                               Gates(p, point.local.mean, point.global.mean, f.localVariance, f.globalVariance),
                               SupportGate(p, point.support))
  {
    hide Scale, HalfWidth, CalibratedVariance, Recent, GlobalClear, LocalClear, CountWins, Blended, Gates, SupportGate,
      RawWeight, Smoothed, Fused, MixtureVariance;
  }

  /** Agreement passes the gate freely; more disagreement, or less variance, never passes more. */
  lemma DisagreementGateMeans(p: Settings, difference: real, variance: real, difference': real, variance': real)
    requires Admitted(p) && 0.0 <= difference <= difference' && variance' <= variance
    ensures DisagreementGate(p, difference', variance') <= DisagreementGate(p, difference, variance)
    ensures DisagreementGate(p, 0.0, variance) == 1.0
  {
    var v, v' := MaxReal(variance, p.varianceFloor), MaxReal(variance', p.varianceFloor);
    RootIsPositive(p.sqrt, v);
    RootIsPositive(p.sqrt, v');
    RootGrows(p.sqrt, v', v);
    var r, r' := p.sqrt(v), p.sqrt(v');
    var k := Guarded(p.kappa);
    QuotientOrder(difference, r, difference', r');
    QuotientOrder(difference / r, k, difference' / r', k);
    SquareGrows(difference / r / k, difference' / r' / k);
    assert 0.0 / r / k == 0.0;
    hide Square;
    SquareIsZero();
  }

  lemma SquareIsZero()
    ensures Square(0.0) == 0.0
  {
  }

  lemma SquareGrows(x: real, y: real)
    requires 0.0 <= x <= y
    ensures Square(x) <= Square(y)
  {
    ProductSign(y - x, y + x, (y - x) * (y + x));
  }

  lemma SquaresGrow(x: real, y: real, u: real, v: real)
    requires 0.0 <= x < y && u == x * x && v == y * y
    ensures u < v
  {
    ProductSign(y - x, y + x, (y - x) * (y + x));
    assert v - u == (y - x) * (y + x);
  }

  lemma RootGrows(sqrt: real -> real, u: real, v: real)
    requires Cholesky.IsRoot(sqrt) && 0.0 <= u <= v
    ensures sqrt(u) <= sqrt(v)
  {
    if sqrt(u) > sqrt(v) {
      SquaresGrow(sqrt(v), sqrt(u), v, u);
    }
  }

  /** The weight leaves its last value towards the raw one, by one minus the smoothing of its direction. */
  lemma WeightMoves(p: Settings, s: State, point: Point)
    requires Admitted(p) && Sound(p, s)
    ensures var f := Forecasted(p, s, point);
      && 0.0 <= f.rawWeight <= p.maximumWeight
      && f.weight - s.weight
         == (1.0 - (if f.rawWeight >= s.weight then p.riseSmoothing else p.fallSmoothing)) * (f.rawWeight - s.weight)
  {
    hide *;
    SmoothedFromRaw(p, s, point);
    RawIs(p, s, point);
    SmoothingLimits(p, s);
    RawWithin(p, Forecasted(p, s, point), point);
    SmoothedMoves(p, s.weight, Forecasted(p, s, point).rawWeight);
  }

  lemma SmoothingLimits(p: Settings, s: State)
    requires Admitted(p) && Sound(p, s)
    ensures 0.0 <= p.riseSmoothing <= 1.0 && 0.0 <= p.fallSmoothing <= 1.0 && 0.0 <= s.weight <= p.maximumWeight
  {
  }

  lemma RawWithin(p: Settings, f: Forecast, point: Point)
    requires Admitted(p)
    requires f.rawWeight == RawWeight(p, f.wins,
                                      Blended(p, f.recentLocal, f.recentGlobal, f.localVariance, f.globalVariance,
                                              point.support),
                                      Gates(p, point.local.mean, point.global.mean, f.localVariance, f.globalVariance),
                                      SupportGate(p, point.support))
    ensures 0.0 <= f.rawWeight <= p.maximumWeight
  {
    hide Blended, Gates, SupportGate;
  }

  lemma SmoothedMoves(p: Settings, previous: real, raw: real)
    requires 0.0 <= p.riseSmoothing <= 1.0 && 0.0 <= p.fallSmoothing <= 1.0
    requires 0.0 <= previous <= p.maximumWeight && 0.0 <= raw <= p.maximumWeight
    ensures Smoothed(p, previous, raw) - previous
      == (1.0 - (if raw >= previous then p.riseSmoothing else p.fallSmoothing)) * (raw - previous)
  {
    var k := if raw >= previous then p.riseSmoothing else p.fallSmoothing;
    Blend.BlendIsBetween(raw, previous, k);
    assert k * previous + (1.0 - k) * raw - previous == (1.0 - k) * (raw - previous);
  }

  lemma SmoothedFromRaw(p: Settings, s: State, point: Point)
    requires Admitted(p) && Sound(p, s)
    ensures Forecasted(p, s, point).weight == Smoothed(p, s.weight, Forecasted(p, s, point).rawWeight)
  {
    hide Scale, HalfWidth, CalibratedVariance, Recent, GlobalClear, LocalClear, CountWins, Blended, Gates, SupportGate,
      RawWeight, Smoothed, Fused, MixtureVariance;
  }

  // ---------------------------------------------------------------- the start

  /**
   The loop starts from the calibration's windows, with the calibrated weight gated by the first point's support; a side
   that was exact in calibration while the other was not starts with all the wins it needs.
   */
  lemma InitialMeans(p: Settings, localScores: seq<real>, globalScores: seq<real>, fusedScores: seq<real>,
                     localErrors: seq<real>, globalErrors: seq<real>, firstSupport: real)
    returns (gate: real)
    requires localErrors != [] && AllNonNegative(localErrors) && globalErrors != [] && AllNonNegative(globalErrors)
    requires 0.0 <= p.winMargin <= 1.0
    ensures var s := Initial(p, localScores, globalScores, fusedScores, localErrors, globalErrors, firstSupport);
      && (s.localScores, s.globalScores, s.fusedScores) == (localScores, globalScores, fusedScores)
      && (s.localErrors, s.globalErrors) == (localErrors, globalErrors)
      && IsGate(firstSupport, p.fullSupport, gate) && s.weight == p.calibratedWeight * gate
      && s.highCount == s.lowCount == 0
      && (AllZero(localErrors) && AllPositive(globalErrors) ==> s.wins == Wins(p.persistence, 0))
      && (AllPositive(localErrors) && AllZero(globalErrors) ==> s.wins == Wins(0, p.persistence))
  {
    hide Recent, IsGate, SupportGate;
    SupportGateMeans(p, firstSupport);
    gate := SupportGate(p, firstSupport);
    if AllZero(localErrors) && AllPositive(globalErrors) {
      RecentOfExact(p, localErrors, globalErrors);
      ProductSign(1.0 - p.winMargin, Recent(p, globalErrors), (1.0 - p.winMargin) * Recent(p, globalErrors));
    }
    if AllPositive(localErrors) && AllZero(globalErrors) {
      RecentOfExact(p, globalErrors, localErrors);
      ProductSign(1.0 - p.winMargin, Recent(p, localErrors), (1.0 - p.winMargin) * Recent(p, localErrors));
    }
  }

  predicate AllZero(errors: seq<real>) {
    forall k :: 0 <= k < |errors| ==> errors[k] == 0.0
  }

  predicate AllPositive(errors: seq<real>) {
    forall k :: 0 <= k < |errors| ==> errors[k] > 0.0
  }

  // ---------------------------------------------------------------- why an alarm is raised

  /** Each reason is given exactly when what it names is so: of the run lengths, only the highest level reached. */
  lemma ReasonsMean(p: Settings, s: State, points: seq<Point>, k: nat)
    requires Admitted(p) && Sound(p, s) && AllUsable(points) && k < |points| && s.highCount == s.lowCount == 0
    requires 1 <= p.alarms.notice <= p.alarms.warning <= p.alarms.alarm
    ensures var r, a := AlarmsAt(p, s, points, k).loadReasons, p.alarms;
      var heavy := (n: nat) => Continuous(p, s, points, k, n, Heavy);
      var light := (n: nat) => Continuous(p, s, points, k, n, Light);
      && (ContinuousHeavyLoad in r <==> heavy(a.alarm))
      && (HeavyLoadWarning in r <==> heavy(a.warning) && !heavy(a.alarm))
      && (HeavyLoadTrend in r <==> heavy(a.notice) && !heavy(a.warning))
      && (ContinuousLightLoad in r <==> light(a.alarm))
      && (LightLoadWarning in r <==> light(a.warning) && !light(a.alarm))
      && (LightLoadTrend in r <==> light(a.notice) && !light(a.warning))
  {
    hide *;
    var a := p.alarms;
    RunCounts(p, s, points, k, a.alarm);
    RunCounts(p, s, points, k, a.warning);
    RunCounts(p, s, points, k, a.notice);
    CountsGiveReasons(p, s, points, k);
  }

  lemma RunCounts(p: Settings, s: State, points: seq<Point>, k: nat, n: nat)
    requires Admitted(p) && Sound(p, s) && AllUsable(points) && k < |points| && s.highCount == s.lowCount == 0 && n > 0
    ensures CountAt(p, s, points, k) >= n && StatusAt(p, s, points, k) == Heavy
      <==> Continuous(p, s, points, k, n, Heavy)
    ensures CountAt(p, s, points, k) >= n && StatusAt(p, s, points, k) == Light
      <==> Continuous(p, s, points, k, n, Light)
  {
    hide Admitted, Sound, After, Statuses, StatusAt, TrailingRun, AllUsable;
    RunReachesExactlyWhen(p, s, points, k, n, Heavy);
    RunReachesExactlyWhen(p, s, points, k, n, Light);
    CountersAreRunLengths(p, s, points[..k + 1]);
  }

  lemma CountsGiveReasons(p: Settings, s: State, points: seq<Point>, k: nat)
    requires Admitted(p) && Sound(p, s) && AllUsable(points) && k < |points|
    requires 1 <= p.alarms.notice <= p.alarms.warning <= p.alarms.alarm
    ensures var r, a := AlarmsAt(p, s, points, k).loadReasons, p.alarms;
      var n, status := CountAt(p, s, points, k), StatusAt(p, s, points, k);
      && (ContinuousHeavyLoad in r <==> status == Heavy && n >= a.alarm)
      && (HeavyLoadWarning in r <==> status == Heavy && a.warning <= n < a.alarm)
      && (HeavyLoadTrend in r <==> status == Heavy && a.notice <= n < a.warning)
      && (ContinuousLightLoad in r <==> status == Light && n >= a.alarm)
      && (LightLoadWarning in r <==> status == Light && a.warning <= n < a.alarm)
      && (LightLoadTrend in r <==> status == Light && a.notice <= n < a.warning)
  {
    hide Admitted, Sound, After, StatusAt, Exceeds;
  }

  /** The absolute and the data reasons are those of the row; the data level is a warning with a reason, else none. */
  lemma RowReasonsMean(status: Status, highCount: nat, lowCount: nat, row: SourceRow, a: AlarmSettings)
    ensures var alarms := AlarmFields(status, highCount, lowCount, row, a);
      && (AbsoluteCurrent in alarms.loadReasons
          <==> a.absoluteCurrent.Some? && row.current > a.absoluteCurrent.value)
      && (AbsoluteTension in alarms.loadReasons
          <==> a.absoluteTension.Some? && row.tension > a.absoluteTension.value)
      && (Spike in alarms.dataReasons <==> row.isSpike)
      && (MotorZero in alarms.dataReasons <==> row.motorZero)
      && (Imbalance in alarms.dataReasons <==> row.imbalance > a.imbalance)
      && alarms.data == (if row.isSpike || row.motorZero || row.imbalance > a.imbalance then Warning else NoLevel)
      && alarms.overallReasons == alarms.loadReasons + alarms.dataReasons
  {
    hide CountLevel;
  }
}
