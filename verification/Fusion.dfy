/** The online fusion of local and global predictions: forecast a point, alarm on it, then learn from its target. */
module Fusion {
  import opened Outcomes
  import opened Sums
  import opened Windows
  import Blend
  import Cholesky

  // ---------------------------------------------------------------- parameters and inputs

  datatype AlarmSettings = AlarmSettings(notice: nat, warning: nat, alarm: nat, imbalance: real,
                                         absoluteCurrent: Option<real>, absoluteTension: Option<real>)

  /**
   The parameters the loop reads. `multiplier` is the normal quantile of the confidence, `calibratedWeight` the
   weight calibration chose, and sqrt and exp are the platform's.
   */
  datatype Settings = Settings(
    confidence: real, multiplier: real, scaleMin: real, scaleMax: real, halfWidthMin: real, halfWidthMax: real,
    varianceFloor: real, scoreWindow: nat, updateAll: bool,
    winsorQuantile: real, winMargin: real, varianceWeight: real, maximumWeight: real, clearThreshold: real,
    neutralLimit: real, persistence: nat, riseSmoothing: real, fallSmoothing: real, kappa: real, varianceRatio: real,
    errorWindow: nat, minimumSupport: real, fullSupport: real, calibratedWeight: real, alarms: AlarmSettings,
    sqrt: real -> real, exp: real -> real
  )

  /** exp is positive, one at zero, and grows. */
  ghost predicate IsExp(exp: real -> real) {
    exp(0.0) == 1.0 && (forall v: real :: exp(v) > 0.0) && forall u: real, v: real :: u <= v ==> exp(u) <= exp(v)
  }

  /** What the Worker has validated about the parameters before the loop runs. */
  ghost predicate Admitted(p: Settings) {
    && Cholesky.IsRoot(p.sqrt) && IsExp(p.exp)
    && 0.0 < p.confidence <= 1.0 && p.multiplier > 0.0
    && 0.0 < p.scaleMin <= p.scaleMax && 0.0 < p.halfWidthMin <= p.halfWidthMax && p.varianceFloor > 0.0
    && p.scoreWindow >= 1 && p.errorWindow >= 1 && p.persistence >= 1
    && 0.0 <= p.maximumWeight <= 1.0 && 0.0 <= p.calibratedWeight <= p.maximumWeight
    && 0.0 <= p.riseSmoothing <= 1.0 && 0.0 <= p.fallSmoothing <= 1.0
    && 0.0 <= p.winMargin <= 1.0 && p.varianceWeight >= 0.0 && 0.0 <= p.clearThreshold && 0.0 <= p.neutralLimit
    && p.kappa > 0.0 && p.varianceRatio > 0.0 && p.fullSupport > 0.0
  }

  datatype Estimate = Estimate(mean: real, deviation: real)

  /** What an alarm reads of the source row. */
  datatype SourceRow = SourceRow(current: real, tension: real, imbalance: real, isSpike: bool, motorZero: bool)

  datatype Point = Point(local: Estimate, global: Estimate, support: real, target: real, row: SourceRow)

  predicate Usable(point: Point) {
    point.local.deviation > 0.0 && point.global.deviation > 0.0 && point.support >= 0.0
  }

  ghost predicate AllUsable(points: seq<Point>) {
    forall k :: 0 <= k < |points| ==> Usable(points[k])
  }

  // ---------------------------------------------------------------- state

  /** How many points in a row, net of neutral ones, either side has clearly won. */
  datatype Wins = Wins(local: nat, global: nat)

  datatype State = State(
    localScores: seq<real>, globalScores: seq<real>, fusedScores: seq<real>,
    localErrors: seq<real>, globalErrors: seq<real>,
    weight: real, wins: Wins, highCount: nat, lowCount: nat
  )

  /** What every reachable state keeps. */
  ghost predicate Sound(p: Settings, s: State) {
    && 1 <= |s.localScores| <= p.scoreWindow
    && 1 <= |s.globalScores| <= p.scoreWindow
    && 1 <= |s.fusedScores| <= p.scoreWindow
    && 1 <= |s.localErrors| <= p.errorWindow && AllNonNegative(s.localErrors)
    && 1 <= |s.globalErrors| <= p.errorWindow && AllNonNegative(s.globalErrors)
    && 0.0 <= s.weight <= p.maximumWeight
    && (s.wins.local == 0 || s.wins.global == 0)
  }

  // ---------------------------------------------------------------- the pieces of a forecast

  function Square(v: real): real {
    v * v
  }

  function HalfWidth(p: Settings, scale: real, deviation: real): real {
    Clamp(scale * deviation, p.halfWidthMin, p.halfWidthMax)
  }

  function CalibratedVariance(p: Settings, band: real): real
    requires p.multiplier > 0.0
  {
    MaxReal(Square(band / p.multiplier), p.varianceFloor)
  }

  function Scale(p: Settings, scores: seq<real>): real
    requires scores != []
  {
    ScoreQuantile(scores, p.confidence, p.scaleMin, p.scaleMax).value
  }

  function Recent(p: Settings, errors: seq<real>): real
    requires errors != [] && AllNonNegative(errors)
  {
    RecentIsDefined(errors, p.winsorQuantile);
    RobustRecentMean(errors, p.winsorQuantile).value
  }

  predicate GlobalClear(p: Settings, recentLocal: real, recentGlobal: real, support: real) {
    recentGlobal <= (1.0 - p.winMargin) * recentLocal && support >= p.minimumSupport
  }

  predicate LocalClear(p: Settings, recentLocal: real, recentGlobal: real, support: real) {
    recentLocal <= (1.0 - p.winMargin) * recentGlobal || support < p.minimumSupport
  }

  function CountWins(wins: Wins, globalClear: bool, localClear: bool): Wins {
    if globalClear then Wins(0, wins.global + 1)
    else if localClear then Wins(wins.local + 1, 0)
    else Wins(if wins.local > 0 then wins.local - 1 else 0, if wins.global > 0 then wins.global - 1 else 0)
  }

  /** The winner counts calibration leaves. */
  function InitialWins(p: Settings, localErrors: seq<real>, globalErrors: seq<real>): Wins
    requires localErrors != [] && AllNonNegative(localErrors) && globalErrors != [] && AllNonNegative(globalErrors)
  {
    var recentLocal, recentGlobal := Recent(p, localErrors), Recent(p, globalErrors);
    if recentGlobal <= (1.0 - p.winMargin) * recentLocal then Wins(0, p.persistence)
    else if recentLocal <= (1.0 - p.winMargin) * recentGlobal then Wins(p.persistence, 0)
    else Wins(0, 0)
  }

  /** At least the constant that stands for zero. */
  function Guarded(v: real): (r: real)
    ensures r > 0.0 && r >= v
  {
    MaxReal(v, EPSILON)
  }

  /** The global share of the reliabilities. */
  function Reliability(cost: real, globalCost: real, support: real): real {
    var local, global := 1.0 / Guarded(cost), support / Guarded(globalCost);
    global / Guarded(local + global)
  }

  function SupportGate(p: Settings, support: real): real {
    MinReal(1.0, support / Guarded(p.fullSupport))
  }

  function DisagreementGate(p: Settings, difference: real, variance: real): real
    requires p.varianceFloor > 0.0 && Cholesky.IsRoot(p.sqrt)
  {
    var spread := p.sqrt(MaxReal(variance, p.varianceFloor));
    p.exp(-0.5 * Square(difference / spread / Guarded(p.kappa)))
  }

  function VarianceGate(p: Settings, localVariance: real, globalVariance: real): real {
    MinReal(1.0, p.varianceRatio * localVariance / Guarded(globalVariance))
  }

  /** What a side has cost lately, with part of its variance. */
  function Cost(p: Settings, recent: real, variance: real): real {
    recent + p.varianceWeight * variance
  }

  /** The calibrated weight and the reliability share, blended. */
  function Blended(p: Settings, recentLocal: real, recentGlobal: real, localVariance: real, globalVariance: real,
                   support: real): real {
    0.2 * p.calibratedWeight
    + 0.8 * Reliability(Cost(p, recentLocal, localVariance), Cost(p, recentGlobal, globalVariance), support)
  }

  /** The two gates of an undecided weight. */
  function Gates(p: Settings, local: real, global: real, localVariance: real, globalVariance: real): real
    requires p.varianceFloor > 0.0 && Cholesky.IsRoot(p.sqrt)
  {
    DisagreementGate(p, AbsReal(global - local), localVariance + globalVariance)
      * VarianceGate(p, localVariance, globalVariance)
  }

  /** The weight before smoothing: none after local wins, a high one after global wins, a gated one otherwise. */
  function RawWeight(p: Settings, wins: Wins, blended: real, gates: real, supportGate: real): real {
    Clamp(Weighed(p, wins, Clamp(blended, 0.0, p.maximumWeight), gates, supportGate), 0.0, p.maximumWeight)
  }

  function Weighed(p: Settings, wins: Wins, proposed: real, gates: real, supportGate: real): real {
    if wins.local >= p.persistence then 0.0
    else if wins.global >= p.persistence then MaxReal(proposed, p.clearThreshold) * MaxReal(supportGate, 0.75)
    else MinReal(proposed, p.neutralLimit) * gates * supportGate
  }

  function Smoothed(p: Settings, previous: real, raw: real): real {
    var smoothing := if raw >= previous then p.riseSmoothing else p.fallSmoothing;
    Clamp(smoothing * previous + (1.0 - smoothing) * raw, 0.0, p.maximumWeight)
  }

  function Fused(weight: real, local: real, global: real): real {
    (1.0 - weight) * local + weight * global
  }

  function MixtureVariance(local: real, global: real, localVariance: real, globalVariance: real, weight: real,
                           floor: real): real {
    var a := Clamp(weight, 0.0, 1.0);
    MaxReal((1.0 - a) * MaxReal(localVariance, floor) + a * MaxReal(globalVariance, floor)
      + a * (1.0 - a) * Square(local - global),
            floor)
  }

  // ---------------------------------------------------------------- forecast, then learn

  datatype Forecast = Forecast(
    localScale: real, globalScale: real, fusedScale: real, localBand: real, globalBand: real,
    localVariance: real, globalVariance: real, recentLocal: real, recentGlobal: real,
    globalClear: bool, localClear: bool, wins: Wins, rawWeight: real, weight: real,
    fused: real, fusedDeviation: real, fusedBand: real, fusedVariance: real
  )

  function ForecastFrom(p: Settings, s: State, local: Estimate, global: Estimate, support: real): Forecast
    requires Admitted(p) && Sound(p, s)
  {
    var localScale, globalScale, fusedScale :=
      Scale(p, s.localScores), Scale(p, s.globalScores), Scale(p, s.fusedScores);
    var localBand, globalBand := HalfWidth(p, localScale, local.deviation), HalfWidth(p, globalScale, global.deviation);
    var localVariance, globalVariance := CalibratedVariance(p, localBand), CalibratedVariance(p, globalBand);
    var recentLocal, recentGlobal := Recent(p, s.localErrors), Recent(p, s.globalErrors);
    var globalClear := GlobalClear(p, recentLocal, recentGlobal, support);
    var localClear := LocalClear(p, recentLocal, recentGlobal, support);
    var wins := CountWins(s.wins, globalClear, localClear);
    var rawWeight := RawWeight(p, wins, Blended(p, recentLocal, recentGlobal, localVariance, globalVariance, support),
                               Gates(p, local.mean, global.mean, localVariance, globalVariance),
                               SupportGate(p, support));
    var weight := Smoothed(p, s.weight, rawWeight);
    var fused := Fused(weight, local.mean, global.mean);
    var fusedDeviation :=
      p.sqrt(MixtureVariance(local.mean, global.mean, localVariance, globalVariance, weight, p.varianceFloor));
    var fusedBand := HalfWidth(p, fusedScale, fusedDeviation);
    Forecast(localScale, globalScale, fusedScale, localBand, globalBand, localVariance, globalVariance, recentLocal,
             recentGlobal, globalClear, localClear, wins, rawWeight, weight, fused, fusedDeviation, fusedBand,
             CalibratedVariance(p, fusedBand))
  }

  function Forecasted(p: Settings, s: State, point: Point): Forecast
    requires Admitted(p) && Sound(p, s)
  {
    ForecastFrom(p, s, point.local, point.global, point.support)
  }

  datatype Status = Heavy | Light | Normal

  function StatusOf(forecast: Forecast, target: real): Status {
    if target > forecast.fused + forecast.fusedBand then Heavy
    else if target < forecast.fused - forecast.fusedBand then Light
    else Normal
  }

  /** What a point adds to the windows once its target is known. */
  datatype Lesson = Lesson(localError: real, globalError: real, localScore: real, globalScore: real, fusedScore: real)

  function LessonOf(forecast: Forecast, point: Point): Lesson
    requires Usable(point) && forecast.fusedDeviation > 0.0
  {
    var localMiss, globalMiss := point.target - point.local.mean, point.target - point.global.mean;
    Lesson(Square(localMiss), Square(globalMiss), AbsReal(localMiss) / point.local.deviation,
           AbsReal(globalMiss) / point.global.deviation,
           AbsReal(point.target - forecast.fused) / forecast.fusedDeviation)
  }

  function Learned(p: Settings, s: State, forecast: Forecast, lesson: Lesson, status: Status): State {
    State(
      if p.updateAll then UpdateWindow(s.localScores, lesson.localScore, p.scoreWindow) else s.localScores,
      if p.updateAll then UpdateWindow(s.globalScores, lesson.globalScore, p.scoreWindow) else s.globalScores,
      if p.updateAll then UpdateWindow(s.fusedScores, lesson.fusedScore, p.scoreWindow) else s.fusedScores,
      UpdateWindow(s.localErrors, lesson.localError, p.errorWindow),
      UpdateWindow(s.globalErrors, lesson.globalError, p.errorWindow),
      forecast.weight, forecast.wins,
      if status == Heavy then s.highCount + 1 else 0,
      if status == Light then s.lowCount + 1 else 0)
  }

  function Step(p: Settings, s: State, point: Point): State
    requires Admitted(p) && Sound(p, s) && Usable(point)
  {
    var forecast := Forecasted(p, s, point);
    DeviationIsPositive(p, s, point);
    Learned(p, s, forecast, LessonOf(forecast, point), StatusOf(forecast, point.target))
  }

  lemma RootIsPositive(sqrt: real -> real, v: real)
    requires Cholesky.IsRoot(sqrt) && v > 0.0
    ensures sqrt(v) > 0.0
  {
    var r := sqrt(v);
    assert r * r == v;
  }

  lemma DeviationIsPositive(p: Settings, s: State, point: Point)
    requires Admitted(p) && Sound(p, s)
    ensures Forecasted(p, s, point).fusedDeviation > 0.0
  {
    hide Scale, HalfWidth, CalibratedVariance, Recent, GlobalClear, LocalClear, CountWins, Blended, Gates,
      SupportGate, RawWeight, Smoothed, Fused, Sound;
    var f := Forecasted(p, s, point);
    var v := MixtureVariance(point.local.mean, point.global.mean, f.localVariance, f.globalVariance, f.weight,
      p.varianceFloor);
    assert v >= p.varianceFloor by {
      hide *;
      MixtureAboveFloor(point.local.mean, point.global.mean, f.localVariance, f.globalVariance, f.weight,
        p.varianceFloor);
    }
    hide MixtureVariance;
    RootIsPositive(p.sqrt, v);
  }

  lemma MixtureAboveFloor(local: real, global: real, localVariance: real, globalVariance: real, weight: real,
                          floor: real)
    ensures MixtureVariance(local, global, localVariance, globalVariance, weight, floor) >= floor
  {
    hide Square, Clamp;
  }

  // ---------------------------------------------------------------- one step

  lemma ClampStays(v: real, low: real, high: real)
    requires low <= high
    ensures low <= Clamp(v, low, high) <= high
  {
  }

  lemma WinsExclude(wins: Wins, globalClear: bool, localClear: bool)
    requires wins.local == 0 || wins.global == 0
    ensures var w := CountWins(wins, globalClear, localClear); w.local == 0 || w.global == 0
  {
  }

  lemma InitialWinsExclude(p: Settings, localErrors: seq<real>, globalErrors: seq<real>)
    requires localErrors != [] && AllNonNegative(localErrors) && globalErrors != [] && AllNonNegative(globalErrors)
    ensures var w := InitialWins(p, localErrors, globalErrors); w.local == 0 || w.global == 0
  {
    hide Recent;
  }

  lemma UpdateKeepsBounds(values: seq<real>, value: real, maximum: nat)
    requires 1 <= |values| <= maximum
    ensures 1 <= |UpdateWindow(values, value, maximum)| <= maximum
    ensures AllNonNegative(values) && value >= 0.0 ==> AllNonNegative(UpdateWindow(values, value, maximum))
  {
  }

  /** The weight stays admissible and at most one side has wins. */
  lemma ForecastIsAdmissible(p: Settings, s: State, point: Point)
    requires Admitted(p) && Sound(p, s)
    ensures var f := Forecasted(p, s, point);
      && 0.0 <= f.weight <= p.maximumWeight
      && (f.wins.local == 0 || f.wins.global == 0)
      && f.fused == Fused(f.weight, point.local.mean, point.global.mean)
      && MinReal(point.local.mean, point.global.mean) <= f.fused <= MaxReal(point.local.mean, point.global.mean)
      && p.halfWidthMin <= f.fusedBand <= p.halfWidthMax
  {
    hide Scale, CalibratedVariance, Recent, GlobalClear, LocalClear, CountWins, Blended, Gates,
      SupportGate, RawWeight, MixtureVariance, Square, Clamp, MinReal, MaxReal, AbsReal;
    var f := Forecasted(p, s, point);
    WinsExclude(s.wins, f.globalClear, f.localClear);
    SmoothedStays(p, s.weight, f.rawWeight);
    Blend.BlendIsBetween(point.local.mean, point.global.mean, f.weight);
    BandStays(p, f.fusedScale, f.fusedDeviation);
  }

  lemma BandStays(p: Settings, scale: real, deviation: real)
    requires p.halfWidthMin <= p.halfWidthMax
    ensures p.halfWidthMin <= HalfWidth(p, scale, deviation) <= p.halfWidthMax
  {
    ClampStays(scale * deviation, p.halfWidthMin, p.halfWidthMax);
  }

  lemma SmoothedStays(p: Settings, previous: real, raw: real)
    requires 0.0 <= p.maximumWeight
    ensures 0.0 <= Smoothed(p, previous, raw) <= p.maximumWeight
  {
  }

  lemma SquareIsNonNegative(v: real)
    ensures Square(v) >= 0.0
  {
    SquareSign(v, Square(v));
  }

  lemma LearnedKeepsSound(p: Settings, s: State, forecast: Forecast, lesson: Lesson, status: Status)
    requires Sound(p, s) && lesson.localError >= 0.0 && lesson.globalError >= 0.0
    requires 0.0 <= forecast.weight <= p.maximumWeight && (forecast.wins.local == 0 || forecast.wins.global == 0)
    ensures Sound(p, Learned(p, s, forecast, lesson, status))
  {
    hide UpdateWindow, AllNonNegative;
    UpdateKeepsBounds(s.localScores, lesson.localScore, p.scoreWindow);
    UpdateKeepsBounds(s.globalScores, lesson.globalScore, p.scoreWindow);
    UpdateKeepsBounds(s.fusedScores, lesson.fusedScore, p.scoreWindow);
    UpdateKeepsBounds(s.localErrors, lesson.localError, p.errorWindow);
    UpdateKeepsBounds(s.globalErrors, lesson.globalError, p.errorWindow);
  }

  lemma StepKeepsSound(p: Settings, s: State, point: Point)
    requires Admitted(p) && Sound(p, s) && Usable(point)
    ensures Sound(p, Step(p, s, point))
  {
    hide Forecasted, Sound, Square, Learned, StatusOf, AbsReal;
    ForecastIsAdmissible(p, s, point);
    DeviationIsPositive(p, s, point);
    var f := Forecasted(p, s, point);
    SquareIsNonNegative(point.target - point.local.mean);
    SquareIsNonNegative(point.target - point.global.mean);
    LearnedKeepsSound(p, s, f, LessonOf(f, point), StatusOf(f, point.target));
  }

  // ---------------------------------------------------------------- runs

  /** The state after the points. */
  function After(p: Settings, s: State, points: seq<Point>): (t: State)
    requires Admitted(p) && Sound(p, s) && AllUsable(points)
    ensures Sound(p, t)
  {
    if points == [] then s
    else
      var before := After(p, s, points[..|points| - 1]);
      StepKeepsSound(p, before, points[|points| - 1]);
      Step(p, before, points[|points| - 1])
  }

  /** The forecast for point k of a run. */
  function ForecastAt(p: Settings, s: State, points: seq<Point>, k: nat): Forecast
    requires Admitted(p) && Sound(p, s) && AllUsable(points) && k < |points|
  {
    Forecasted(p, After(p, s, points[..k]), points[k])
  }

  function StatusAt(p: Settings, s: State, points: seq<Point>, k: nat): Status
    requires Admitted(p) && Sound(p, s) && AllUsable(points) && k < |points|
  {
    StatusOf(ForecastAt(p, s, points, k), points[k].target)
  }

  lemma AfterExtend(p: Settings, s: State, points: seq<Point>, k: nat)
    requires Admitted(p) && Sound(p, s) && AllUsable(points) && k < |points|
    ensures After(p, s, points[..k + 1]) == Step(p, After(p, s, points[..k]), points[k])
  {
    hide Step, Sound, Admitted;
    assert points[..k + 1][..k] == points[..k];
  }

  // ---------------------------------------------------------------- no anticipation

  /** The same but for the target and what the alarms read. */
  predicate SameBeforehand(a: Point, b: Point) {
    a.local == b.local && a.global == b.global && a.support == b.support
  }

  /**
   Two runs that agree on every point before k, and at k on everything but the target, make the same forecast at k
   and at every point before it: no forecast depends on its own target or on anything later.
   */
  lemma ForecastsDoNotAnticipate(p: Settings, s: State, a: seq<Point>, b: seq<Point>, k: nat)
    requires Admitted(p) && Sound(p, s) && AllUsable(a) && AllUsable(b) && k < |a| && k < |b|
    requires forall j :: 0 <= j < k ==> a[j] == b[j]
    requires SameBeforehand(a[k], b[k])
    ensures forall j :: 0 <= j <= k ==> ForecastAt(p, s, a, j) == ForecastAt(p, s, b, j)
  {
    hide *;
    forall j | 0 <= j <= k ensures ForecastAt(p, s, a, j) == ForecastAt(p, s, b, j) {
      PrefixesAgree(a, b, k, j);
      ForecastAtIs(p, s, a, j);
      ForecastAtIs(p, s, b, j);
      SameForecast(p, After(p, s, a[..j]), a[j], b[j]);
    }
  }

  lemma PrefixesAgree(a: seq<Point>, b: seq<Point>, k: nat, j: nat)
    requires j <= k < |a| && k < |b|
    requires forall i :: 0 <= i < k ==> a[i] == b[i]
    requires SameBeforehand(a[k], b[k])
    ensures a[..j] == b[..j] && SameBeforehand(a[j], b[j])
  {
  }

  lemma SameForecast(p: Settings, s: State, a: Point, b: Point)
    requires Admitted(p) && Sound(p, s) && SameBeforehand(a, b)
    ensures Forecasted(p, s, a) == Forecasted(p, s, b)
  {
    hide ForecastFrom;
  }

  /** Everywhere in a run the weight is admissible, so the fused value lies between its two sources. */
  lemma EveryForecastIsAdmissible(p: Settings, s: State, points: seq<Point>, k: nat)
    requires Admitted(p) && Sound(p, s) && AllUsable(points) && k < |points|
    ensures var f, point := ForecastAt(p, s, points, k), points[k];
      && 0.0 <= f.weight <= p.maximumWeight
      && (f.wins.local == 0 || f.wins.global == 0)
      && MinReal(point.local.mean, point.global.mean) <= f.fused <= MaxReal(point.local.mean, point.global.mean)
      && p.halfWidthMin <= f.fusedBand <= p.halfWidthMax
  {
    hide *;
    ForecastAtIs(p, s, points, k);
    ForecastIsAdmissible(p, After(p, s, points[..k]), points[k]);
  }

  lemma ForecastAtIs(p: Settings, s: State, points: seq<Point>, k: nat)
    requires Admitted(p) && Sound(p, s) && AllUsable(points) && k < |points|
    ensures AllUsable(points[..k]) && ForecastAt(p, s, points, k) == Forecasted(p, After(p, s, points[..k]), points[k])
  {
    hide Forecasted, After, Sound, Admitted;
  }

  // ---------------------------------------------------------------- windows

  /** What one field of the lessons has been, point by point. */
  function History(p: Settings, s: State, points: seq<Point>, field: Lesson -> real): (h: seq<real>)
    requires Admitted(p) && Sound(p, s) && AllUsable(points)
    ensures |h| == |points|
  {
    if points == [] then []
    else
      var before, point := After(p, s, points[..|points| - 1]), points[|points| - 1];
      DeviationIsPositive(p, before, point);
      History(p, s, points[..|points| - 1], field) + [field(LessonOf(Forecasted(p, before, point), point))]
  }

  function LocalErrorOf(): Lesson -> real { (l: Lesson) => l.localError }
  function GlobalErrorOf(): Lesson -> real { (l: Lesson) => l.globalError }
  function LocalScoreOf(): Lesson -> real { (l: Lesson) => l.localScore }
  function GlobalScoreOf(): Lesson -> real { (l: Lesson) => l.globalScore }
  function FusedScoreOf(): Lesson -> real { (l: Lesson) => l.fusedScore }

  /** The five windows are the appended histories. */
  ghost predicate WindowsAppended(p: Settings, s: State, points: seq<Point>)
    requires Admitted(p) && Sound(p, s) && AllUsable(points)
  {
    var t := After(p, s, points);
    && t.localErrors == Appended(s.localErrors, History(p, s, points, LocalErrorOf()), p.errorWindow)
    && t.globalErrors == Appended(s.globalErrors, History(p, s, points, GlobalErrorOf()), p.errorWindow)
    && (p.updateAll ==>
          && t.localScores == Appended(s.localScores, History(p, s, points, LocalScoreOf()), p.scoreWindow)
          && t.globalScores == Appended(s.globalScores, History(p, s, points, GlobalScoreOf()), p.scoreWindow)
          && t.fusedScores == Appended(s.fusedScores, History(p, s, points, FusedScoreOf()), p.scoreWindow))
    && (!p.updateAll ==>
          t.localScores == s.localScores && t.globalScores == s.globalScores && t.fusedScores == s.fusedScores)
  }

  lemma HistoryStep(p: Settings, s: State, points: seq<Point>, field: Lesson -> real, window: seq<real>, maximum: nat)
    requires Admitted(p) && Sound(p, s) && AllUsable(points) && points != []
    ensures var before, point := After(p, s, points[..|points| - 1]), points[|points| - 1];
      Forecasted(p, before, point).fusedDeviation > 0.0
      && Appended(window, History(p, s, points, field), maximum)
         == UpdateWindow(Appended(window, History(p, s, points[..|points| - 1], field), maximum),
                         field(LessonOf(Forecasted(p, before, point), point)), maximum)
  {
    hide Admitted, Sound, After, Forecasted, LessonOf, UpdateWindow;
    var before, point := After(p, s, points[..|points| - 1]), points[|points| - 1];
    DeviationIsPositive(p, before, point);
    var h, g := History(p, s, points, field), History(p, s, points[..|points| - 1], field);
    assert h[..|h| - 1] == g;
  }

  lemma {:induction false} EveryWindowIsAppended(p: Settings, s: State, points: seq<Point>)
    requires Admitted(p) && Sound(p, s) && AllUsable(points)
    ensures WindowsAppended(p, s, points)
  {
    hide Admitted, Sound, Forecasted, LessonOf, UpdateWindow, History, Appended, StatusOf, AllUsable;
    NothingAppended(p, s);
    if points != [] {
      var prefix := points[..|points| - 1];
      assert AllUsable(prefix) by { hide *; PrefixIsUsable(points); }
      EveryWindowIsAppended(p, s, prefix);
      HistoryStep(p, s, points, LocalErrorOf(), s.localErrors, p.errorWindow);
      HistoryStep(p, s, points, GlobalErrorOf(), s.globalErrors, p.errorWindow);
      HistoryStep(p, s, points, LocalScoreOf(), s.localScores, p.scoreWindow);
      HistoryStep(p, s, points, GlobalScoreOf(), s.globalScores, p.scoreWindow);
      HistoryStep(p, s, points, FusedScoreOf(), s.fusedScores, p.scoreWindow);
    }
  }

  lemma PrefixIsUsable(points: seq<Point>)
    requires AllUsable(points) && points != []
    ensures AllUsable(points[..|points| - 1]) && Usable(points[|points| - 1])
  {
  }

  lemma NothingAppended(p: Settings, s: State)
    requires Admitted(p) && Sound(p, s)
    ensures WindowsAppended(p, s, [])
  {
    hide Admitted, Sound;
  }

  /** After any run each window holds the last entries of what it started with and everything learned since. */
  lemma EveryWindowIsLast(p: Settings, s: State, points: seq<Point>)
    requires Admitted(p) && Sound(p, s) && AllUsable(points)
    ensures var t := After(p, s, points);
      && t.localErrors == LastN(s.localErrors + History(p, s, points, LocalErrorOf()), p.errorWindow)
      && t.globalErrors == LastN(s.globalErrors + History(p, s, points, GlobalErrorOf()), p.errorWindow)
      && (p.updateAll ==>
            && t.localScores == LastN(s.localScores + History(p, s, points, LocalScoreOf()), p.scoreWindow)
            && t.globalScores == LastN(s.globalScores + History(p, s, points, GlobalScoreOf()), p.scoreWindow)
            && t.fusedScores == LastN(s.fusedScores + History(p, s, points, FusedScoreOf()), p.scoreWindow))
      && (!p.updateAll ==>
            t.localScores == s.localScores && t.globalScores == s.globalScores && t.fusedScores == s.fusedScores)
  {
    hide History, After, Appended, LastN, AllUsable, Admitted;
    EveryWindowIsAppended(p, s, points);
    WindowsArePositive(p);
    WindowIsLast(s.localErrors, History(p, s, points, LocalErrorOf()), p.errorWindow);
    WindowIsLast(s.globalErrors, History(p, s, points, GlobalErrorOf()), p.errorWindow);
    WindowIsLast(s.localScores, History(p, s, points, LocalScoreOf()), p.scoreWindow);
    WindowIsLast(s.globalScores, History(p, s, points, GlobalScoreOf()), p.scoreWindow);
    WindowIsLast(s.fusedScores, History(p, s, points, FusedScoreOf()), p.scoreWindow);
  }

  lemma WindowsArePositive(p: Settings)
    requires Admitted(p)
    ensures p.errorWindow > 0 && p.scoreWindow > 0
  {
  }

  // ---------------------------------------------------------------- run lengths and alarms

  /** How many of the last statuses are the given one. */
  function TrailingRun(statuses: seq<Status>, status: Status): (n: nat)
    ensures n <= |statuses|
  {
    if statuses == [] || statuses[|statuses| - 1] != status then 0
    else 1 + TrailingRun(statuses[..|statuses| - 1], status)
  }

  lemma {:induction false} TrailingRunExactlyWhen(statuses: seq<Status>, status: Status, n: nat)
    ensures TrailingRun(statuses, status) >= n
      <==> n <= |statuses| && forall k :: |statuses| - n <= k < |statuses| ==> statuses[k] == status
  {
    if statuses != [] && n > 0 {
      var before := statuses[..|statuses| - 1];
      TrailingRunExactlyWhen(before, status, n - 1);
      assert forall k :: 0 <= k < |before| ==> before[k] == statuses[k];
    }
  }

  function Statuses(p: Settings, s: State, points: seq<Point>): (r: seq<Status>)
    requires Admitted(p) && Sound(p, s) && AllUsable(points)
    ensures |r| == |points|
  {
    if points == [] then []
    else
      var before, point := After(p, s, points[..|points| - 1]), points[|points| - 1];
      Statuses(p, s, points[..|points| - 1]) + [StatusOf(Forecasted(p, before, point), point.target)]
  }

  /** The two counters of a run from fresh counters are the lengths of its trailing runs. */
  lemma {:induction false} CountersAreRunLengths(p: Settings, s: State, points: seq<Point>)
    requires Admitted(p) && Sound(p, s) && AllUsable(points) && s.highCount == s.lowCount == 0
    ensures After(p, s, points).highCount == TrailingRun(Statuses(p, s, points), Heavy)
    ensures After(p, s, points).lowCount == TrailingRun(Statuses(p, s, points), Light)
  {
    hide Admitted, Sound, Forecasted, LessonOf, UpdateWindow, StatusOf, Usable;
    if points != [] {
      CountersAreRunLengths(p, s, points[..|points| - 1]);
      var statuses := Statuses(p, s, points);
      assert statuses[..|statuses| - 1] == Statuses(p, s, points[..|points| - 1]);
    }
  }

  datatype Level = NoLevel | Notice | Warning | Alarm

  function Rank(level: Level): nat {
    match level
    case NoLevel => 0
    case Notice => 1
    case Warning => 2
    case Alarm => 3
  }

  datatype Reason =
    | ContinuousHeavyLoad | ContinuousLightLoad | HeavyLoadWarning | LightLoadWarning | HeavyLoadTrend | LightLoadTrend
    | AbsoluteCurrent | AbsoluteTension | Spike | MotorZero | Imbalance

  /** Reasons in the order the message joins them. */
  datatype Alarms = Alarms(load: Level, loadReasons: seq<Reason>, data: Level, dataReasons: seq<Reason>,
                           overall: Level, overallReasons: seq<Reason>)

  function Exceeds(value: real, threshold: Option<real>): bool {
    threshold.Some? && value > threshold.value
  }

  /** The point exceeds one of the absolute thresholds that are set. */
  predicate IsOver(row: SourceRow, a: AlarmSettings) {
    Exceeds(row.current, a.absoluteCurrent) || Exceeds(row.tension, a.absoluteTension)
  }

  function CountLevel(count: nat, a: AlarmSettings): Level {
    if count >= a.alarm then Alarm else if count >= a.warning then Warning
    else if count >= a.notice then Notice else NoLevel
  }

  function CountReasons(level: Level, status: Status): seq<Reason> {
    match level
    case Alarm => [if status == Heavy then ContinuousHeavyLoad else ContinuousLightLoad]
    case Warning => [if status == Heavy then HeavyLoadWarning else LightLoadWarning]
    case Notice => [if status == Heavy then HeavyLoadTrend else LightLoadTrend]
    case NoLevel => []
  }

  function AlarmFields(status: Status, highCount: nat, lowCount: nat, row: SourceRow, a: AlarmSettings): Alarms {
    var count := if status == Heavy then highCount else if status == Light then lowCount else 0;
    var counted := CountLevel(count, a);
    var overCurrent, overTension := Exceeds(row.current, a.absoluteCurrent), Exceeds(row.tension, a.absoluteTension);
    var load := if overCurrent || overTension then Alarm else counted;
    var loadReasons :=
      CountReasons(counted, status) + (if overCurrent then [AbsoluteCurrent] else [])
        + (if overTension then [AbsoluteTension] else []);
    var imbalanced := row.imbalance > a.imbalance;
    var data := if row.isSpike || row.motorZero || imbalanced then Warning else NoLevel;
    var dataReasons :=
      (if row.isSpike then [Spike] else []) + (if row.motorZero then [MotorZero] else [])
        + (if imbalanced then [Imbalance] else []);
    Alarms(load, loadReasons, data, dataReasons, if Rank(load) >= Rank(data) then load else data,
           loadReasons + dataReasons)
  }

  /** The overall level is the higher of the two, and every level above none, and only such, gives its reasons. */
  lemma AlarmsAreConsistent(status: Status, highCount: nat, lowCount: nat, row: SourceRow, settings: AlarmSettings)
    ensures var a := AlarmFields(status, highCount, lowCount, row, settings);
      && Rank(a.overall) >= Rank(a.load) && Rank(a.overall) >= Rank(a.data)
      && (a.overall == a.load || a.overall == a.data)
      && (a.load == NoLevel <==> a.loadReasons == [])
      && (a.data == NoLevel <==> a.dataReasons == [])
      && (a.overall == NoLevel <==> a.overallReasons == [])
  {
    hide Exceeds, CountLevel;
  }

  /** The alarms of point k of a run. */
  function AlarmsAt(p: Settings, s: State, points: seq<Point>, k: nat): Alarms
    requires Admitted(p) && Sound(p, s) && AllUsable(points) && k < |points|
  {
    var after := After(p, s, points[..k + 1]);
    AlarmFields(StatusAt(p, s, points, k), after.highCount, after.lowCount, points[k].row, p.alarms)
  }

  /** All of the last n statuses up to point k are the given one. */
  ghost predicate Continuous(p: Settings, s: State, points: seq<Point>, k: nat, n: nat, status: Status)
    requires Admitted(p) && Sound(p, s) && AllUsable(points) && k < |points|
  {
    n <= k + 1 && forall j :: k + 1 - n <= j <= k ==> StatusAt(p, s, points, j) == status
  }

  lemma StatusesAre(p: Settings, s: State, points: seq<Point>, k: nat)
    requires Admitted(p) && Sound(p, s) && AllUsable(points) && k <= |points|
    ensures AllUsable(points[..k])
      && forall j :: 0 <= j < k ==> Statuses(p, s, points[..k])[j] == StatusAt(p, s, points, j)
  {
    hide Admitted, Sound, Forecasted, Usable, After;
    if k > 0 {
      StatusesAre(p, s, points, k - 1);
      assert points[..k][..k - 1] == points[..k - 1];
    }
  }

  /** A run length reaches n exactly when the last n points all had the status. */
  lemma RunReachesExactlyWhen(p: Settings, s: State, points: seq<Point>, k: nat, n: nat, status: Status)
    requires Admitted(p) && Sound(p, s) && AllUsable(points) && k < |points|
    ensures AllUsable(points[..k + 1])
    ensures TrailingRun(Statuses(p, s, points[..k + 1]), status) >= n <==> Continuous(p, s, points, k, n, status)
  {
    hide Admitted, Sound, After, Statuses, StatusAt, TrailingRun;
    StatusesAre(p, s, points, k + 1);
    TrailingRunExactlyWhen(Statuses(p, s, points[..k + 1]), status, n);
  }

  /**
   Point k raises a load alarm exactly when it is over an absolute threshold or the last `alarm` points were all heavy
   or all light; at least a warning, or a notice, exactly when it is over one or that many were.
   */
  lemma LoadLevelExactlyWhen(p: Settings, s: State, points: seq<Point>, k: nat)
    requires Admitted(p) && Sound(p, s) && AllUsable(points) && k < |points| && s.highCount == s.lowCount == 0
    requires 1 <= p.alarms.notice <= p.alarms.warning <= p.alarms.alarm
    ensures var level, a, over := AlarmsAt(p, s, points, k).load, p.alarms, IsOver(points[k].row, p.alarms);
      && (Rank(level) >= 3 <==>
           over || Continuous(p, s, points, k, a.alarm, Heavy) || Continuous(p, s, points, k, a.alarm, Light))
      && (Rank(level) >= 2 <==>
           over || Continuous(p, s, points, k, a.warning, Heavy) || Continuous(p, s, points, k, a.warning, Light))
      && (Rank(level) >= 1 <==>
           over || Continuous(p, s, points, k, a.notice, Heavy) || Continuous(p, s, points, k, a.notice, Light))
  {
    hide *;
    var level, a := AlarmsAt(p, s, points, k).load, p.alarms;
    CountAtLeast(p, s, points, k, a.alarm);
    CountAtLeast(p, s, points, k, a.warning);
    CountAtLeast(p, s, points, k, a.notice);
    CountDecides(p, s, points, k);
  }

  function CountAt(p: Settings, s: State, points: seq<Point>, k: nat): nat
    requires Admitted(p) && Sound(p, s) && AllUsable(points) && k < |points|
  {
    var after, status := After(p, s, points[..k + 1]), StatusAt(p, s, points, k);
    if status == Heavy then after.highCount else if status == Light then after.lowCount else 0
  }

  lemma CountDecides(p: Settings, s: State, points: seq<Point>, k: nat)
    requires Admitted(p) && Sound(p, s) && AllUsable(points) && k < |points|
    requires 1 <= p.alarms.notice <= p.alarms.warning <= p.alarms.alarm
    ensures var rank, count := Rank(AlarmsAt(p, s, points, k).load), CountAt(p, s, points, k);
      var over := IsOver(points[k].row, p.alarms);
      && (rank >= 3 <==> over || count >= p.alarms.alarm)
      && (rank >= 2 <==> over || count >= p.alarms.warning)
      && (rank >= 1 <==> over || count >= p.alarms.notice)
  {
    hide Admitted, Sound, After, StatusAt, Exceeds;
  }

  lemma CountAtLeast(p: Settings, s: State, points: seq<Point>, k: nat, n: nat)
    requires Admitted(p) && Sound(p, s) && AllUsable(points) && k < |points| && s.highCount == s.lowCount == 0 && n > 0
    ensures CountAt(p, s, points, k) >= n
      <==> Continuous(p, s, points, k, n, Heavy) || Continuous(p, s, points, k, n, Light)
  {
    hide Admitted, Sound, After, Statuses, StatusAt, TrailingRun, AllUsable;
    RunReachesExactlyWhen(p, s, points, k, n, Heavy);
    RunReachesExactlyWhen(p, s, points, k, n, Light);
    CountersAreRunLengths(p, s, points[..k + 1]);
  }

  // ---------------------------------------------------------------- losing support

  function Power(base: real, n: nat): real {
    if n == 0 then 1.0 else base * Power(base, n - 1)
  }

  predicate Unsupported(p: Settings, points: seq<Point>) {
    forall k :: 0 <= k < |points| ==> points[k].support < p.minimumSupport
  }

  lemma NoSupportIsLocal(p: Settings, s: State, point: Point)
    requires Admitted(p) && Sound(p, s) && point.support < p.minimumSupport
    ensures Forecasted(p, s, point).wins == Wins(s.wins.local + 1, 0)
  {
    hide Scale, HalfWidth, CalibratedVariance, Recent, Blended, Gates, SupportGate, RawWeight,
      Smoothed, Fused, MixtureVariance, Sound, AbsReal;
  }

  lemma LocalWinsDecay(p: Settings, s: State, point: Point)
    requires Admitted(p) && Sound(p, s) && Forecasted(p, s, point).wins.local >= p.persistence
    ensures Forecasted(p, s, point).rawWeight == 0.0 && Forecasted(p, s, point).weight == p.fallSmoothing * s.weight
  {
    hide Scale, HalfWidth, CalibratedVariance, Recent, GlobalClear, LocalClear, CountWins, Blended, Gates,
      SupportGate, RawWeight, Smoothed, Fused, MixtureVariance, AbsReal;
    var f := Forecasted(p, s, point);
    assert f.rawWeight == 0.0 by {
      var blended, gates, supportGate :| f.rawWeight == RawWeight(p, f.wins, blended, gates, supportGate);
      NoRawWeight(p, f.wins, blended, gates, supportGate);
    }
    FallingWeight(p, s.weight);
  }

  lemma NoRawWeight(p: Settings, wins: Wins, blended: real, gates: real, supportGate: real)
    requires wins.local >= p.persistence && p.maximumWeight >= 0.0
    ensures RawWeight(p, wins, blended, gates, supportGate) == 0.0
  {
  }

  lemma FallingWeight(p: Settings, previous: real)
    requires 0.0 <= previous <= p.maximumWeight && 0.0 <= p.fallSmoothing <= 1.0
    ensures Smoothed(p, previous, 0.0) == p.fallSmoothing * previous
  {
    ShrinkingProduct(p.fallSmoothing, previous, p.fallSmoothing * previous);
  }

  lemma ShrinkingProduct(factor: real, value: real, product: real)
    requires 0.0 <= factor <= 1.0 && value >= 0.0 && product == factor * value
    ensures 0.0 <= product <= value
  {
    ProductSign(factor, value, product);
    ProductSign(1.0 - factor, value, (1.0 - factor) * value);
  }

  /** While the surrogate has no support, local wins accumulate and the global weight dies away geometrically. */
  lemma {:induction false} LostSupportDecays(p: Settings, s: State, points: seq<Point>)
    requires Admitted(p) && Sound(p, s) && AllUsable(points) && Unsupported(p, points)
    requires s.wins.local + 1 >= p.persistence
    ensures var t := After(p, s, points);
      && t.weight == Power(p.fallSmoothing, |points|) * s.weight
      && t.wins.local == s.wins.local + |points|
  {
    hide Admitted, Sound, Forecasted, LessonOf, UpdateWindow, StatusOf, Usable;
    if points != [] {
      LostSupportDecays(p, s, points[..|points| - 1]);
      var before, point := After(p, s, points[..|points| - 1]), points[|points| - 1];
      NoSupportIsLocal(p, before, point);
      LocalWinsDecay(p, before, point);
      PowerStep(p.fallSmoothing, |points|, s.weight);
    }
  }

  lemma PowerStep(base: real, n: nat, v: real)
    requires n > 0
    ensures Power(base, n) * v == base * (Power(base, n - 1) * v)
  {
    var power := Power(base, n - 1);
    assert (base * power) * v == base * (power * v);
  }

  // ---------------------------------------------------------------- winning and drawing

  /** The raw weight of a forecast, and the product of its gates. */
  lemma RawWeightIs(p: Settings, s: State, point: Point) returns (blended: real, gates: real)
    requires Admitted(p) && Sound(p, s)
    ensures var f := Forecasted(p, s, point);
      f.rawWeight == RawWeight(p, f.wins, blended, gates, SupportGate(p, point.support)) && 0.0 <= gates <= 1.0
  {
    hide Scale, HalfWidth, Recent, GlobalClear, LocalClear, CountWins, Blended, Gates, SupportGate, RawWeight,
      Smoothed, Fused, MixtureVariance, Sound, CalibratedVariance;
    var f := Forecasted(p, s, point);
    blended := Blended(p, f.recentLocal, f.recentGlobal, f.localVariance, f.globalVariance, point.support);
    gates := Gates(p, point.local.mean, point.global.mean, f.localVariance, f.globalVariance);
    CalibratedIsPositive(p, f.localBand);
    GatesBounds(p, point.local.mean, point.global.mean, f.localVariance, f.globalVariance);
  }

  lemma GatesBounds(p: Settings, local: real, global: real, localVariance: real, globalVariance: real)
    requires Admitted(p) && localVariance > 0.0
    ensures 0.0 <= Gates(p, local, global, localVariance, globalVariance) <= 1.0
  {
    var disagreement := DisagreementGate(p, AbsReal(global - local), localVariance + globalVariance);
    var variance := VarianceGate(p, localVariance, globalVariance);
    DisagreementGateBounds(p, AbsReal(global - local), localVariance + globalVariance);
    VarianceGateBounds(p, localVariance, globalVariance);
    hide DisagreementGate, VarianceGate;
    ShrinkingProduct(disagreement, variance, disagreement * variance);
  }

  lemma CalibratedIsPositive(p: Settings, band: real)
    requires p.multiplier > 0.0 && p.varianceFloor > 0.0
    ensures CalibratedVariance(p, band) > 0.0
  {
    hide Square;
  }

  lemma DisagreementGateBounds(p: Settings, difference: real, variance: real)
    requires Admitted(p)
    ensures 0.0 <= DisagreementGate(p, difference, variance) <= 1.0
  {
    RootIsPositive(p.sqrt, MaxReal(variance, p.varianceFloor));
    var spread := p.sqrt(MaxReal(variance, p.varianceFloor));
    SquareIsNonNegative(difference / spread / Guarded(p.kappa));
    hide Square;
  }

  lemma VarianceGateBounds(p: Settings, localVariance: real, globalVariance: real)
    requires p.varianceRatio > 0.0 && localVariance > 0.0
    ensures 0.0 <= VarianceGate(p, localVariance, globalVariance) <= 1.0
  {
    var product, guard := p.varianceRatio * localVariance, Guarded(globalVariance);
    ProductSign(p.varianceRatio, localVariance, product);
    QuotientOrder(0.0, guard, product, guard);
  }

  lemma SupportGateBounds(p: Settings, support: real)
    requires support >= 0.0
    ensures 0.0 <= SupportGate(p, support) <= 1.0
  {
    QuotientOrder(0.0, Guarded(p.fullSupport), support, Guarded(p.fullSupport));
  }

  /** Enough global wins lift the raw weight to three quarters of the clear threshold, or to the maximum. */
  lemma GlobalWinsRaise(p: Settings, s: State, point: Point)
    requires Admitted(p) && Sound(p, s) && Forecasted(p, s, point).wins.global >= p.persistence
    ensures Forecasted(p, s, point).rawWeight >= MinReal(p.maximumWeight, p.clearThreshold * 0.75)
  {
    hide *;
    ForecastIsAdmissible(p, s, point);
    var blended, gates := RawWeightIs(p, s, point);
    AdmittedLimits(p);
    RaisedWeight(p, Forecasted(p, s, point).wins, blended, gates, SupportGate(p, point.support));
  }

  lemma AdmittedLimits(p: Settings)
    requires Admitted(p)
    ensures p.maximumWeight >= 0.0 && p.clearThreshold >= 0.0 && p.neutralLimit >= 0.0 && p.persistence >= 1
  {
  }

  lemma RaisedProduct(threshold: real, high: real, gate: real)
    requires 0.0 <= threshold <= high && 0.75 <= gate
    ensures high * gate >= threshold * 0.75
  {
    ProductSign(high, gate - 0.75, high * (gate - 0.75));
    assert high * gate == high * 0.75 + high * (gate - 0.75);
  }

  lemma RaisedWeight(p: Settings, wins: Wins, blended: real, gates: real, supportGate: real)
    requires wins.local < p.persistence <= wins.global
    requires p.maximumWeight >= 0.0 && p.clearThreshold >= 0.0
    ensures RawWeight(p, wins, blended, gates, supportGate) >= MinReal(p.maximumWeight, p.clearThreshold * 0.75)
  {
    var high, gate := MaxReal(Clamp(blended, 0.0, p.maximumWeight), p.clearThreshold), MaxReal(supportGate, 0.75);
    RaisedProduct(p.clearThreshold, high, gate);
    assert RawWeight(p, wins, blended, gates, supportGate) == Clamp(high * gate, 0.0, p.maximumWeight);
  }

  /** Without enough wins on either side the raw weight stays at or below the neutral limit. */
  lemma DrawsStayLow(p: Settings, s: State, point: Point)
    requires Admitted(p) && Sound(p, s) && Usable(point)
    requires Forecasted(p, s, point).wins.local < p.persistence && Forecasted(p, s, point).wins.global < p.persistence
    ensures 0.0 <= Forecasted(p, s, point).rawWeight <= p.neutralLimit
  {
    assert point.support >= 0.0;
    hide *;
    var blended, gates := RawWeightIs(p, s, point);
    AdmittedLimits(p);
    SupportGateBounds(p, point.support);
    NeutralWeight(p, Forecasted(p, s, point).wins, blended, gates, SupportGate(p, point.support));
  }

  lemma NeutralProduct(low: real, gates: real, supportGate: real, gated: real, product: real)
    requires low >= 0.0 && 0.0 <= gates <= 1.0 && 0.0 <= supportGate <= 1.0
    requires gated == low * gates && product == gated * supportGate
    ensures 0.0 <= product <= low
  {
    ShrinkingProduct(gates, low, gated);
    ShrinkingProduct(supportGate, gated, product);
  }

  lemma NeutralWeight(p: Settings, wins: Wins, blended: real, gates: real, supportGate: real)
    requires wins.local < p.persistence && wins.global < p.persistence && p.maximumWeight >= 0.0
      && p.neutralLimit >= 0.0
    requires 0.0 <= gates <= 1.0 && 0.0 <= supportGate <= 1.0
    ensures 0.0 <= RawWeight(p, wins, blended, gates, supportGate) <= p.neutralLimit
  {
    var low := MinReal(Clamp(blended, 0.0, p.maximumWeight), p.neutralLimit);
    assert 0.0 <= low <= p.neutralLimit;
    NeutralProduct(low, gates, supportGate, low * gates, low * gates * supportGate);
    assert RawWeight(p, wins, blended, gates, supportGate) == Clamp(low * gates * supportGate, 0.0, p.maximumWeight);
  }

  /** Both sides can only be clearly better at once, with a real margin and support, when neither has erred at all. */
  lemma BothClearExactlyWhen(p: Settings, recentLocal: real, recentGlobal: real, support: real)
    requires 0.0 < p.winMargin <= 1.0 && recentLocal >= 0.0 && recentGlobal >= 0.0 && support >= p.minimumSupport
    ensures GlobalClear(p, recentLocal, recentGlobal, support) && LocalClear(p, recentLocal, recentGlobal, support)
      <==> recentLocal == 0.0 && recentGlobal == 0.0
  {
    ProductSign(p.winMargin, recentLocal, p.winMargin * recentLocal);
    ProductSign(p.winMargin, recentGlobal, p.winMargin * recentGlobal);
    assert (1.0 - p.winMargin) * recentLocal == recentLocal - p.winMargin * recentLocal;
    assert (1.0 - p.winMargin) * recentGlobal == recentGlobal - p.winMargin * recentGlobal;
  }

  // ---------------------------------------------------------------- what the formulas mean

  /**
   Where the variances are above the floor, the formula is the variance of the two-component mixture about its own
   mean.
   */
  lemma MixtureIsSecondMoment(local: real, global: real, localVariance: real, globalVariance: real, weight: real,
                              floor: real)
    requires 0.0 <= weight <= 1.0 && floor <= localVariance && floor <= globalVariance
    ensures var mean := Fused(weight, local, global);
      MixtureVariance(local, global, localVariance, globalVariance, weight, floor)
      == (1.0 - weight) * (localVariance + Square(local - mean)) + weight * (globalVariance + Square(global - mean))
  {
    var mean, d := Fused(weight, local, global), local - global;
    assert local - mean == weight * d;
    assert global - mean == 0.0 - (1.0 - weight) * d;
    var dd := Square(d);
    ScaledSquare(weight, d, local - mean);
    ScaledSquare(0.0 - (1.0 - weight), d, global - mean);
    SquareIsNonNegative(d);
    MixtureAlgebra(weight, localVariance, globalVariance, dd, floor);
    hide Square;
    MixtureUnclamped(local, global, localVariance, globalVariance, weight, floor, dd);
  }

  lemma ScaledSquare(k: real, d: real, kd: real)
    requires kd == k * d
    ensures Square(kd) == (k * k) * Square(d)
  {
    assert (k * d) * (k * d) == (k * k) * (d * d);
  }

  lemma MixtureAlgebra(a: real, lv: real, gv: real, dd: real, floor: real)
    requires 0.0 <= a <= 1.0 && floor <= lv && floor <= gv && dd >= 0.0
    ensures (1.0 - a) * (lv + (a * a) * dd) + a * (gv + ((0.0 - (1.0 - a)) * (0.0 - (1.0 - a))) * dd)
         == (1.0 - a) * lv + a * gv + a * (1.0 - a) * dd
    ensures (1.0 - a) * lv + a * gv + a * (1.0 - a) * dd >= floor
  {
    var b, ab := 1.0 - a, a * (1.0 - a);
    assert b * ((a * a) * dd) + a * (((0.0 - b) * (0.0 - b)) * dd) == ab * dd * (a + b);
    ProductSign(a, b, ab);
    ProductSign(ab, dd, ab * dd);
    ProductSign(b, lv - floor, b * (lv - floor));
    ProductSign(a, gv - floor, a * (gv - floor));
    assert b * lv + a * gv == floor + b * (lv - floor) + a * (gv - floor);
  }

  lemma MixtureUnclamped(local: real, global: real, localVariance: real, globalVariance: real, weight: real,
                         floor: real, dd: real)
    requires 0.0 <= weight <= 1.0 && floor <= localVariance && floor <= globalVariance && dd == Square(local - global)
    requires (1.0 - weight) * localVariance + weight * globalVariance + weight * (1.0 - weight) * dd >= floor
    ensures MixtureVariance(local, global, localVariance, globalVariance, weight, floor)
         == (1.0 - weight) * localVariance + weight * globalVariance + weight * (1.0 - weight) * dd
  {
    hide Square;
  }

  /** More support, a better global record or a worse local one never lowers the global share. */
  lemma ReliabilityIsMonotone(cost: real, globalCost: real, support: real, cost': real, globalCost': real,
                              support': real)
    requires cost <= cost' && globalCost' <= globalCost && 0.0 <= support <= support'
    ensures 0.0 <= Reliability(cost, globalCost, support) <= Reliability(cost', globalCost', support') <= 1.0
  {
    var local, local' := 1.0 / Guarded(cost), 1.0 / Guarded(cost');
    var global, global' := support / Guarded(globalCost), support' / Guarded(globalCost');
    QuotientOrder(1.0, Guarded(cost'), 1.0, Guarded(cost));
    QuotientOrder(support, Guarded(globalCost), support', Guarded(globalCost'));
    ShareOrder(local, global, local', global');
    ShareBounds(local, global);
    ShareBounds(local', global');
  }

  lemma Grows(x: real, y: real, k: real)
    requires x <= y && k >= 0.0
    ensures x * k <= y * k
  {
    ProductSign(y - x, k, (y - x) * k);
  }

  lemma QuotientOrder(x: real, d: real, x': real, d': real)
    requires 0.0 <= x <= x' && 0.0 < d' <= d
    ensures 0.0 <= x / d <= x' / d'
  {
    Grows(x, x', d');
    Grows(d', d, x');
    CrossQuotient(x, d, x', d');
    CrossQuotient(0.0, d, x, d);
  }

  lemma ShareBounds(local: real, global: real)
    requires local >= 0.0 && global >= 0.0
    ensures 0.0 <= global / Guarded(local + global) <= 1.0
  {
    QuotientOrder(global, Guarded(local + global), Guarded(local + global), Guarded(local + global));
  }

  lemma ShareOrder(local: real, global: real, local': real, global': real)
    requires 0.0 <= local' <= local && 0.0 <= global <= global'
    ensures global / Guarded(local + global) <= global' / Guarded(local' + global')
  {
    var d, d' := Guarded(local + global), Guarded(local' + global');
    CrossOrder(local, global, local', global', global * d', global' * d);
    CrossQuotient(global, d, global', d');
  }

  lemma CrossOrder(local: real, global: real, local': real, global': real, left: real, right: real)
    requires 0.0 <= local' <= local && 0.0 <= global <= global'
    requires left == global * Guarded(local' + global') && right == global' * Guarded(local + global)
    ensures left <= right
  {
    var e, y := EPSILON, local + global;
    var guard := Guarded(y);
    assert guard >= y && guard >= e;
    if Guarded(local' + global') == e {
      hide *;
      Grows(global, global', e);
      Grows(e, guard, global');
    } else {
      assert left == global * (local' + global');
      CrossSum(local, global, local', global');
      hide *;
      Grows(y, guard, global');
    }
  }

  lemma CrossSum(local: real, global: real, local': real, global': real)
    requires 0.0 <= local' <= local && 0.0 <= global <= global'
    ensures global * (local' + global') <= (local + global) * global'
  {
    Grows(global, global', local');
    Grows(local', local, global');
    assert global * (local' + global') == global * local' + global * global';
    assert (local + global) * global' == local * global' + global * global';
  }

  lemma CrossQuotient(x: real, d: real, x': real, d': real)
    requires d > 0.0 && d' > 0.0 && x * d' <= x' * d
    ensures x / d <= x' / d'
  {
    var q, q' := x / d, x' / d';
    assert q * d == x && q' * d' == x';
    assert x * d' == q * (d * d') && x' * d == q' * (d * d');
    ProductSign(d, d', d * d');
    if q > q' {
      ProductSign(q - q', d * d', (q - q') * (d * d'));
    }
  }

  // ---------------------------------------------------------------- the loop

  datatype Row = Row(forecast: Forecast, status: Status, highCount: nat, lowCount: nat, alarms: Alarms)

  /** The result row of point k. */
  function RowAt(p: Settings, s: State, points: seq<Point>, k: nat): Row
    requires Admitted(p) && Sound(p, s) && AllUsable(points) && k < |points|
  {
    var after := After(p, s, points[..k + 1]);
    Row(ForecastAt(p, s, points, k), StatusAt(p, s, points, k), after.highCount, after.lowCount,
      AlarmsAt(p, s, points, k))
  }

  /** A check every eight points; the run stops at the first that finds a cancellation. */
  predicate CancelledBefore(cancelled: int -> bool, n: nat) {
    exists k :: 0 <= k < n && k % 8 == 0 && cancelled(k)
  }

  lemma CancelledStep(cancelled: int -> bool, n: nat)
    ensures CancelledBefore(cancelled, n) <==>
      n > 0 && (CancelledBefore(cancelled, n - 1) || ((n - 1) % 8 == 0 && cancelled(n - 1)))
  {
    if n > 0 && CancelledBefore(cancelled, n) {
      var k :| 0 <= k < n && k % 8 == 0 && cancelled(k);
      assert k < n - 1 ==> CancelledBefore(cancelled, n - 1);
    }
  }

  lemma CancelledStays(cancelled: int -> bool, n: nat, m: nat)
    requires CancelledBefore(cancelled, n) && n <= m
    ensures CancelledBefore(cancelled, m)
  {
  }

  /** The state the loop starts from. */
  function Initial(p: Settings, localScores: seq<real>, globalScores: seq<real>, fusedScores: seq<real>,
                   localErrors: seq<real>, globalErrors: seq<real>, firstSupport: real): State
    requires localErrors != [] && AllNonNegative(localErrors) && globalErrors != [] && AllNonNegative(globalErrors)
  {
    State(localScores, globalScores, fusedScores, localErrors, globalErrors,
          p.calibratedWeight * SupportGate(p, firstSupport), InitialWins(p, localErrors, globalErrors), 0, 0)
  }

  lemma InitialIsSound(p: Settings, localScores: seq<real>, globalScores: seq<real>, fusedScores: seq<real>,
                       localErrors: seq<real>, globalErrors: seq<real>, firstSupport: real)
    requires Admitted(p) && firstSupport >= 0.0
    requires 1 <= |localScores| <= p.scoreWindow && 1 <= |globalScores| <= p.scoreWindow
      && 1 <= |fusedScores| <= p.scoreWindow
    requires 1 <= |localErrors| <= p.errorWindow && AllNonNegative(localErrors)
    requires 1 <= |globalErrors| <= p.errorWindow && AllNonNegative(globalErrors)
    ensures Sound(p, Initial(p, localScores, globalScores, fusedScores, localErrors, globalErrors, firstSupport))
  {
    hide InitialWins, AllNonNegative, SupportGate, Admitted;
    InitialWinsExclude(p, localErrors, globalErrors);
    InitialWeight(p, firstSupport);
  }

  lemma InitialWeight(p: Settings, firstSupport: real)
    requires Admitted(p) && firstSupport >= 0.0
    ensures 0.0 <= p.calibratedWeight * SupportGate(p, firstSupport) <= p.maximumWeight
  {
    var gate := SupportGate(p, firstSupport);
    QuotientOrder(0.0, Guarded(p.fullSupport), firstSupport, Guarded(p.fullSupport));
    ShrinkingProduct(gate, p.calibratedWeight, p.calibratedWeight * gate);
  }

  /** The rows of the first points. */
  ghost predicate RowsAre(p: Settings, s: State, points: seq<Point>, rows: seq<Row>)
    requires Admitted(p) && Sound(p, s) && AllUsable(points)
  {
    |rows| <= |points| && forall k :: 0 <= k < |rows| ==> rows[k] == RowAt(p, s, points, k)
  }

  /** The indices are exactly those of the rows that raise an alarm of any level, each once and in order. */
  ghost predicate Alarmed(rows: seq<Row>, indices: seq<nat>) {
    Ascending(indices) && forall k :: k in indices <==> 0 <= k < |rows| && rows[k].alarms.overall != NoLevel
  }

  ghost predicate Ascending(indices: seq<nat>) {
    forall i, j :: 0 <= i < j < |indices| ==> indices[i] < indices[j]
  }

  lemma AscendingStep(indices: seq<nat>, next: nat)
    requires Ascending(indices) && forall k :: k in indices ==> k < next
    ensures Ascending(indices + [next])
  {
    forall i, j | 0 <= i < j < |indices| + 1 ensures (indices + [next])[i] < (indices + [next])[j] {
      if j == |indices| {
        assert indices[i] in indices;
      }
    }
  }

  lemma NoRows(p: Settings, s: State, points: seq<Point>)
    requires Admitted(p) && Sound(p, s) && AllUsable(points)
    ensures RowsAre(p, s, points, []) && Alarmed([], [])
  {
  }

  lemma RowsStep(p: Settings, s: State, points: seq<Point>, rows: seq<Row>, row: Row)
    requires Admitted(p) && Sound(p, s) && AllUsable(points)
    requires RowsAre(p, s, points, rows) && |rows| < |points| && row == RowAt(p, s, points, |rows|)
    ensures RowsAre(p, s, points, rows + [row])
  {
    hide Admitted, Sound, AllUsable, RowAt;
  }

  lemma AlarmedStep(rows: seq<Row>, indices: seq<nat>, row: Row)
    requires Alarmed(rows, indices)
    ensures Alarmed(rows + [row], if row.alarms.overall != NoLevel then indices + [|rows|] else indices)
  {
    AscendingStep(indices, |rows|);
    hide Ascending;
  }

  /** Forecasts, alarms on and learns from every point in turn. */
  method OnlineFuse(p: Settings, localScores: seq<real>, globalScores: seq<real>, fusedScores: seq<real>,
                    localErrors: seq<real>, globalErrors: seq<real>, points: seq<Point>, cancelled: int -> bool)
    returns (rows: Result<seq<Row>>, alarmIndices: seq<nat>)
    requires Admitted(p) && AllUsable(points) && points != []
    requires 1 <= |localScores| <= p.scoreWindow && 1 <= |globalScores| <= p.scoreWindow
      && 1 <= |fusedScores| <= p.scoreWindow
    requires 1 <= |localErrors| <= p.errorWindow && AllNonNegative(localErrors)
    requires 1 <= |globalErrors| <= p.errorWindow && AllNonNegative(globalErrors)
    ensures rows.Failed? <==> CancelledBefore(cancelled, |points|)
    ensures var s := Initial(p, localScores, globalScores, fusedScores, localErrors, globalErrors, points[0].support);
      Sound(p, s) && (rows.Ok? ==> |rows.value| == |points| && RowsAre(p, s, points, rows.value))
    ensures rows.Ok? ==> Alarmed(rows.value, alarmIndices)
  {
    assert Usable(points[0]) && points[0].support >= 0.0;
    hide *;
    InitialIsSound(p, localScores, globalScores, fusedScores, localErrors, globalErrors, points[0].support);
    var initial := Initial(p, localScores, globalScores, fusedScores, localErrors, globalErrors, points[0].support);
    rows, alarmIndices := FuseFrom(p, initial, points, cancelled);
  }

  /** The loop, from its initial state. */
  method FuseFrom(p: Settings, s: State, points: seq<Point>, cancelled: int -> bool)
    returns (rows: Result<seq<Row>>, alarmIndices: seq<nat>)
    requires Admitted(p) && Sound(p, s) && AllUsable(points)
    ensures rows.Failed? <==> CancelledBefore(cancelled, |points|)
    ensures rows.Ok? ==>
      && |rows.value| == |points|
      && RowsAre(p, s, points, rows.value)
      && Alarmed(rows.value, alarmIndices)
  {
    hide *;
    var state := s;
    var result: seq<Row> := [];
    alarmIndices := [];
    EmptyRun(p, s, points);
    CancelledStep(cancelled, 0);
    NoRows(p, s, points);
    for point := 0 to |points|
      invariant |result| == point
      invariant AllUsable(points[..point]) && Sound(p, state) && state == After(p, s, points[..point])
      invariant !CancelledBefore(cancelled, point)
      invariant RowsAre(p, s, points, result)
      invariant Alarmed(result, alarmIndices)
    {
      CancelledStep(cancelled, point + 1);
      if point % 8 == 0 && cancelled(point) {
        CancelledStays(cancelled, point + 1, |points|);
        rows := Failed("CANCELLED");
        return;
      }
      RowIs(p, s, points, point);
      var forecast := Forecasted(p, state, points[point]);
      var status := StatusOf(forecast, points[point].target);
      state := Learned(p, state, forecast, LessonOf(forecast, points[point]), status);
      var alarms := AlarmFields(status, state.highCount, state.lowCount, points[point].row, p.alarms);
      var row := Row(forecast, status, state.highCount, state.lowCount, alarms);
      RowsStep(p, s, points, result, row);
      AlarmedStep(result, alarmIndices, row);
      result := result + [row];
      if alarms.overall != NoLevel {
        alarmIndices := alarmIndices + [point];
      }
    }
    rows := Ok(result);
  }

  lemma EmptyRun(p: Settings, s: State, points: seq<Point>)
    requires Admitted(p) && Sound(p, s)
    ensures AllUsable(points[..0]) && After(p, s, points[..0]) == s
  {
    hide Admitted, Sound;
  }

  /** One turn of the loop, spelt out. */
  lemma RowIs(p: Settings, s: State, points: seq<Point>, k: nat)
    requires Admitted(p) && Sound(p, s) && AllUsable(points) && k < |points|
    ensures AllUsable(points[..k]) && AllUsable(points[..k + 1]) && Usable(points[k])
    ensures var before, point := After(p, s, points[..k]), points[k];
      var forecast := Forecasted(p, before, point);
      && forecast.fusedDeviation > 0.0
      && var status := StatusOf(forecast, point.target);
         var after := Learned(p, before, forecast, LessonOf(forecast, point), status);
         && Sound(p, after)
         && after == After(p, s, points[..k + 1])
         && RowAt(p, s, points, k)
            == Row(forecast, status, after.highCount, after.lowCount,
                   AlarmFields(status, after.highCount, after.lowCount, point.row, p.alarms))
  {
    hide Admitted, Sound, Forecasted, StatusOf, LessonOf, Learned, AlarmFields, After;
    AfterExtend(p, s, points, k);
    DeviationIsPositive(p, After(p, s, points[..k]), points[k]);
  }
}
