/**
 What the Worker's validation of a parameter tree is worth: the settings read off a validated tree are admitted by the
 online fusion, and the platform's own reference tree is validated.
 */
module PreparedSettings {
  import opened Outcomes
  import opened Parameters
  import opened Merge
  import opened Preparation
  import Fusion
  import Cholesky

  // ---------------------------------------------------------------- the settings of the online fusion

  function Value(tree: Fields, group: string, leaf: string): real {
    Amount(LeafAt(tree, group, leaf))
  }

  /** A count; the settings that need one are at least zero in every validated tree. */
  function Count(tree: Fields, group: string, leaf: string): nat {
    var n := Value(tree, group, leaf).Floor;
    if n < 0 then 0 else n
  }

  function Threshold(tree: Fields, leaf: string): Option<real> {
    var v := LeafAt(tree, "alarms", leaf);
    if v.Number? then Some(v.number) else None
  }

  function AlarmsOf(tree: Fields): Fusion.AlarmSettings {
    Fusion.AlarmSettings(
      Count(tree, "alarms", "notice_count"), Count(tree, "alarms", "warning_count"),
      Count(tree, "alarms", "alarm_count"), Value(tree, "alarms", "imbalance_threshold"),
      Threshold(tree, "absolute_current_threshold"), Threshold(tree, "absolute_tension_threshold"))
  }

  /** The settings the fusion loop reads from a tree; the last four are not parameters of the profile. */
  function SettingsOf(tree: Fields, multiplier: real, calibratedWeight: real, sqrt: real -> real, exp: real -> real)
    : Fusion.Settings
  {
    Fusion.Settings(
      confidence := Value(tree, "interval", "confidence"), multiplier := multiplier,
      scaleMin := Value(tree, "interval", "calibration_scale_min"),
      scaleMax := Value(tree, "interval", "calibration_scale_max"),
      halfWidthMin := Value(tree, "interval", "half_width_min"),
      halfWidthMax := Value(tree, "interval", "half_width_max"),
      varianceFloor := Value(tree, "interval", "variance_floor"),
      scoreWindow := Count(tree, "interval", "calibration_window"),
      updateAll := LeafAt(tree, "interval", "update_mode") == Text("all_finite"),
      winsorQuantile := Value(tree, "fusion", "winsor_quantile"),
      winMargin := Value(tree, "fusion", "win_margin"),
      varianceWeight := Value(tree, "fusion", "variance_weight"),
      maximumWeight := Value(tree, "fusion", "maximum_global_weight"),
      clearThreshold := Value(tree, "fusion", "global_clear_threshold"),
      neutralLimit := Value(tree, "fusion", "neutral_upper_limit"),
      persistence := Count(tree, "fusion", "persistence"),
      riseSmoothing := Value(tree, "fusion", "rise_smoothing"),
      fallSmoothing := Value(tree, "fusion", "fall_smoothing"),
      kappa := Value(tree, "fusion", "disagreement_kappa"),
      varianceRatio := Value(tree, "fusion", "maximum_variance_ratio"),
      errorWindow := Count(tree, "fusion", "error_window"),
      minimumSupport := Value(tree, "support", "minimum_query_support"),
      fullSupport := Value(tree, "support", "full_weight_reference"),
      calibratedWeight := calibratedWeight, alarms := AlarmsOf(tree), sqrt := sqrt, exp := exp)
  }

  // ---------------------------------------------------------------- what a validated tree guarantees

  lemma LeafIsAdmitted(tree: Fields, group: string, leaf: string)
    requires IsValidated(tree) && group in SPEC && leaf in SPEC[group]
    ensures Admits(SPEC[group][leaf], LeafAt(tree, group, leaf))
  {
    hide SPEC, Combines, Admits;
    assert GroupIsValid(SPEC[group], tree[group]);
  }

  /** The leaf is a number at least, or above, a bound, and at most another. */
  lemma NumberIsAdmitted(tree: Fields, group: string, leaf: string, spec: FieldSpec)
    requires IsValidated(tree) && group in SPEC && leaf in SPEC[group] && SPEC[group][leaf] == spec
    requires (spec.kind == NumberKind || spec.kind == IntegerKind) && !spec.nullable
    ensures LeafAt(tree, group, leaf).Number? && WithinBounds(spec, Value(tree, group, leaf))
    ensures spec.kind == IntegerKind ==> Value(tree, group, leaf) == Value(tree, group, leaf).Floor as real
  {
    hide SPEC, IsValidated;
    LeafIsAdmitted(tree, group, leaf);
  }

  lemma Groups()
    ensures "interval" in SPEC && SPEC["interval"] == INTERVAL && "fusion" in SPEC && SPEC["fusion"] == FUSION
    ensures "support" in SPEC && SPEC["support"] == SUPPORT && "alarms" in SPEC && SPEC["alarms"] == ALARMS
    ensures "split" in SPEC && SPEC["split"] == SPLIT
  {
    hide SPEC;
    IntervalInTable();
    FusionInTable();
    SupportInTable();
    AlarmsInTable();
    SplitInTable();
  }

  /** A validated tree has exactly the table's groups, and each group exactly the table's leaves. */
  lemma ValidatedTreesAreComplete(tree: Fields, group: string, leaf: string)
    requires IsValidated(tree)
    ensures group in tree <==> group in SPEC
    ensures group in tree ==> tree[group].Object? && (leaf in tree[group].fields <==> leaf in SPEC[group])
  {
    hide SPEC, Combines, Admits;
    if group in SPEC {
      assert GroupIsValid(SPEC[group], tree[group]);
    }
  }

  /** The conditions across leaves, in numbers. */
  ghost predicate Relates(tree: Fields) {
    && Value(tree, "split", "training_ratio") + Value(tree, "split", "calibration_ratio") < 1.0
    && Value(tree, "interval", "minimum_scores") <= Value(tree, "interval", "calibration_window")
    && Value(tree, "interval", "calibration_scale_min") <= Value(tree, "interval", "calibration_scale_max")
    && Value(tree, "interval", "half_width_min") <= Value(tree, "interval", "half_width_max")
    && Value(tree, "fusion", "minimum_samples") <= Value(tree, "fusion", "error_window")
    && Value(tree, "fusion", "neutral_upper_limit") <= Value(tree, "fusion", "global_clear_threshold")
    && Value(tree, "alarms", "notice_count") <= Value(tree, "alarms", "warning_count")
    && Value(tree, "alarms", "warning_count") <= Value(tree, "alarms", "alarm_count")
  }

  /** A tree whose groups are valid is validated exactly when its leaves relate as they should. */
  lemma ValidatedExactlyWhen(tree: Fields)
    requires tree.Keys == SPEC.Keys && forall group :: group in SPEC ==> GroupIsValid(SPEC[group], tree[group])
    ensures IsValidated(tree) <==> Relates(tree)
  {
    hide SPEC, LeafAt, GroupIsValid;
  }

  lemma CombinesAcross(tree: Fields)
    requires IsValidated(tree)
    ensures Relates(tree)
  {
    hide SPEC, LeafAt, GroupIsValid;
    ValidatedExactlyWhen(tree);
  }

  /** What each kind of entry of the table admits; only the two optional thresholds may be null. */
  lemma EntryAdmitsExactlyWhen(minimum: real, maximum: Option<real>, v: Json)
    ensures var reaches := v.Number? && (maximum.Some? ==> v.number <= maximum.value);
      && (Admits(Whole(minimum, maximum), v) <==>
            reaches && minimum <= v.number && v.number == v.number.Floor as real)
      && (Admits(AtLeast(minimum, maximum), v) <==> reaches && minimum <= v.number)
      && (Admits(Above(minimum, maximum), v) <==> reaches && minimum < v.number)
    ensures Admits(Optional(minimum), v) <==> v == Null || (v.Number? && minimum <= v.number)
    ensures Admits(AnyNumber, v) <==> v.Number?
  {
  }

  /** A text or a flag has to be one of those allowed. */
  lemma ChoiceAdmitsExactlyWhen(text: string, flag: bool, v: Json)
    requires text != ""
    ensures Admits(OneOf(StringKind, {Text(text)}), v) <==> v == Text(text)
    ensures Admits(OneOf(BooleanKind, {Bool(flag)}), v) <==> v == Bool(flag)
  {
  }

  lemma IntervalNumbers(tree: Fields)
    requires IsValidated(tree)
    ensures 0.0 < Value(tree, "interval", "confidence") <= 1.0
    ensures Value(tree, "interval", "calibration_window") >= 1.0 && Value(tree, "interval", "minimum_scores") >= 1.0
    ensures Value(tree, "interval", "calibration_scale_min") > 0.0 && Value(tree, "interval", "half_width_min") > 0.0
    ensures Value(tree, "interval", "variance_floor") > 0.0
  {
    Groups();
    hide SPEC, IsValidated, Value;
    NumberIsAdmitted(tree, "interval", "confidence", Above(0.0, Some(1.0)));
    NumberIsAdmitted(tree, "interval", "calibration_window", Whole(1.0, None));
    NumberIsAdmitted(tree, "interval", "minimum_scores", Whole(1.0, None));
    NumberIsAdmitted(tree, "interval", "calibration_scale_min", Above(0.0, None));
    NumberIsAdmitted(tree, "interval", "half_width_min", Above(0.0, None));
    NumberIsAdmitted(tree, "interval", "variance_floor", Above(0.0, None));
  }

  lemma WeightNumbers(tree: Fields)
    requires IsValidated(tree)
    ensures 0.0 <= Value(tree, "fusion", "maximum_global_weight") <= 1.0
    ensures 0.0 <= Value(tree, "fusion", "win_margin") <= 1.0 && Value(tree, "fusion", "variance_weight") >= 0.0
    ensures 0.0 <= Value(tree, "fusion", "global_clear_threshold") <= 1.0
    ensures 0.0 <= Value(tree, "fusion", "neutral_upper_limit") <= 1.0
    ensures 0.0 < Value(tree, "fusion", "winsor_quantile") <= 1.0
  {
    Groups();
    hide SPEC, IsValidated, Value;
    NumberIsAdmitted(tree, "fusion", "maximum_global_weight", AtLeast(0.0, Some(1.0)));
    NumberIsAdmitted(tree, "fusion", "win_margin", AtLeast(0.0, Some(1.0)));
    NumberIsAdmitted(tree, "fusion", "variance_weight", AtLeast(0.0, None));
    NumberIsAdmitted(tree, "fusion", "global_clear_threshold", AtLeast(0.0, Some(1.0)));
    NumberIsAdmitted(tree, "fusion", "neutral_upper_limit", AtLeast(0.0, Some(1.0)));
    NumberIsAdmitted(tree, "fusion", "winsor_quantile", Above(0.0, Some(1.0)));
  }

  lemma SmoothingNumbers(tree: Fields)
    requires IsValidated(tree)
    ensures Value(tree, "fusion", "error_window") >= 1.0 && Value(tree, "fusion", "persistence") >= 1.0
    ensures 0.0 <= Value(tree, "fusion", "rise_smoothing") <= 1.0
    ensures 0.0 <= Value(tree, "fusion", "fall_smoothing") <= 1.0
    ensures Value(tree, "fusion", "disagreement_kappa") > 0.0 && Value(tree, "fusion", "maximum_variance_ratio") > 0.0
  {
    Groups();
    hide SPEC, IsValidated, Value;
    NumberIsAdmitted(tree, "fusion", "error_window", Whole(1.0, None));
    NumberIsAdmitted(tree, "fusion", "persistence", Whole(1.0, None));
    NumberIsAdmitted(tree, "fusion", "rise_smoothing", AtLeast(0.0, Some(1.0)));
    NumberIsAdmitted(tree, "fusion", "fall_smoothing", AtLeast(0.0, Some(1.0)));
    NumberIsAdmitted(tree, "fusion", "disagreement_kappa", Above(0.0, None));
    NumberIsAdmitted(tree, "fusion", "maximum_variance_ratio", Above(0.0, None));
  }

  lemma OtherNumbers(tree: Fields)
    requires IsValidated(tree)
    ensures Value(tree, "support", "full_weight_reference") > 0.0
    ensures Value(tree, "alarms", "notice_count") >= 1.0
    ensures 0.0 < Value(tree, "split", "training_ratio") && 0.0 < Value(tree, "split", "calibration_ratio")
  {
    Groups();
    hide SPEC, IsValidated, Value;
    NumberIsAdmitted(tree, "support", "full_weight_reference", Above(0.0, None));
    NumberIsAdmitted(tree, "alarms", "notice_count", Whole(1.0, None));
    NumberIsAdmitted(tree, "split", "training_ratio", Above(0.0, None));
    NumberIsAdmitted(tree, "split", "calibration_ratio", Above(0.0, None));
  }

  /**
   Whatever tree the Worker validates, the fusion may run with its settings, alarm counts in order, and the row split
   it asks for leaves a test part. The weight calibration chose has to be within the tree's own maximum.
   */
  lemma ValidatedSettingsAreAdmitted(tree: Fields, multiplier: real, calibratedWeight: real, sqrt: real -> real,
                                     exp: real -> real)
    requires IsValidated(tree) && multiplier > 0.0 && Cholesky.IsRoot(sqrt) && Fusion.IsExp(exp)
    requires 0.0 <= calibratedWeight <= Value(tree, "fusion", "maximum_global_weight")
    ensures var p := SettingsOf(tree, multiplier, calibratedWeight, sqrt, exp);
      && Fusion.Admitted(p)
      && 1 <= p.alarms.notice <= p.alarms.warning <= p.alarms.alarm
      && p.neutralLimit <= p.clearThreshold <= 1.0 && 0.0 < p.winsorQuantile <= 1.0
    ensures 0.0 < Value(tree, "split", "training_ratio") && 0.0 < Value(tree, "split", "calibration_ratio")
    ensures Value(tree, "split", "training_ratio") + Value(tree, "split", "calibration_ratio") < 1.0
  {
    var p := SettingsOf(tree, multiplier, calibratedWeight, sqrt, exp);
    hide *;
    SettingsKeep(tree, multiplier, calibratedWeight, sqrt, exp);
    IntervalSettings(tree, p);
    WeightSettings(tree, p);
    SmoothingSettings(tree, p);
    AlarmNumbers(tree);
    RestIsAdmitted(tree, p);
    OtherNumbers(tree);
    SplitLeavesTest(tree);
  }

  lemma SplitLeavesTest(tree: Fields)
    requires IsValidated(tree)
    ensures Value(tree, "split", "training_ratio") + Value(tree, "split", "calibration_ratio") < 1.0
  {
    hide IsValidated, Value;
    CombinesAcross(tree);
  }

  lemma SettingsKeep(tree: Fields, multiplier: real, calibratedWeight: real, sqrt: real -> real, exp: real -> real)
    ensures var p := SettingsOf(tree, multiplier, calibratedWeight, sqrt, exp);
      && FromTree(tree, p) && p.multiplier == multiplier && p.calibratedWeight == calibratedWeight
      && p.sqrt == sqrt && p.exp == exp && p.alarms == AlarmsOf(tree)
      && p.maximumWeight == Value(tree, "fusion", "maximum_global_weight")
  {
    hide Value, Count, AlarmsOf;
  }

  ghost predicate FromTree(tree: Fields, p: Fusion.Settings) {
    p == SettingsOf(tree, p.multiplier, p.calibratedWeight, p.sqrt, p.exp)
  }

  lemma CountIs(tree: Fields, group: string, leaf: string)
    requires Value(tree, group, leaf) >= 1.0
    ensures Count(tree, group, leaf) >= 1
  {
    hide Value;
  }

  lemma IntervalSettings(tree: Fields, p: Fusion.Settings)
    requires IsValidated(tree) && FromTree(tree, p)
    ensures 0.0 < p.confidence <= 1.0 && 0.0 < p.scaleMin <= p.scaleMax && 0.0 < p.halfWidthMin <= p.halfWidthMax
    ensures p.varianceFloor > 0.0 && p.scoreWindow >= 1
  {
    hide IsValidated, Value, Count, AlarmsOf;
    IntervalNumbers(tree);
    CombinesAcross(tree);
    CountIs(tree, "interval", "calibration_window");
  }

  lemma WeightSettings(tree: Fields, p: Fusion.Settings)
    requires IsValidated(tree) && FromTree(tree, p)
    ensures 0.0 <= p.maximumWeight <= 1.0 && 0.0 <= p.winMargin <= 1.0 && p.varianceWeight >= 0.0
    ensures 0.0 <= p.neutralLimit <= p.clearThreshold <= 1.0 && 0.0 < p.winsorQuantile <= 1.0
  {
    hide IsValidated, Value, Count, AlarmsOf;
    WeightNumbers(tree);
    CombinesAcross(tree);
  }

  lemma SmoothingSettings(tree: Fields, p: Fusion.Settings)
    requires IsValidated(tree) && FromTree(tree, p)
    ensures p.errorWindow >= 1 && p.persistence >= 1 && p.kappa > 0.0 && p.varianceRatio > 0.0
    ensures 0.0 <= p.riseSmoothing <= 1.0 && 0.0 <= p.fallSmoothing <= 1.0 && p.fullSupport > 0.0
  {
    hide IsValidated, Value, Count, AlarmsOf;
    SmoothingNumbers(tree);
    OtherNumbers(tree);
    CountIs(tree, "fusion", "error_window");
    CountIs(tree, "fusion", "persistence");
  }

  lemma AlarmNumbers(tree: Fields)
    requires IsValidated(tree)
    ensures var a := AlarmsOf(tree); 1 <= a.notice <= a.warning <= a.alarm
  {
    hide IsValidated, Value, Threshold;
    OtherNumbers(tree);
    CombinesAcross(tree);
  }

  lemma RestIsAdmitted(tree: Fields, p: Fusion.Settings)
    requires Cholesky.IsRoot(p.sqrt) && Fusion.IsExp(p.exp) && p.multiplier > 0.0
    requires 0.0 <= p.calibratedWeight <= p.maximumWeight
    requires 0.0 < p.confidence <= 1.0 && 0.0 < p.scaleMin <= p.scaleMax && 0.0 < p.halfWidthMin <= p.halfWidthMax
    requires p.varianceFloor > 0.0 && p.scoreWindow >= 1
    requires 0.0 <= p.maximumWeight <= 1.0 && 0.0 <= p.winMargin <= 1.0 && p.varianceWeight >= 0.0
    requires 0.0 <= p.neutralLimit <= p.clearThreshold <= 1.0
    requires p.errorWindow >= 1 && p.persistence >= 1 && p.kappa > 0.0 && p.varianceRatio > 0.0
    requires 0.0 <= p.riseSmoothing <= 1.0 && 0.0 <= p.fallSmoothing <= 1.0 && p.fullSupport > 0.0
    ensures Fusion.Admitted(p)
  {
  }

  // ---------------------------------------------------------------- the reference tree

  const REFERENCE_FEATURE_STATE: Fields := map[
    "nLag" := Number(8.0),
    "speed_threshold" := Number(0.01),
    "current_threshold" := Number(1.0)
  ]

  const REFERENCE_CLEANING: Fields := map[
    "median_window" := Number(21.0),
    "mad_factor" := Number(5.0),
    "smoothing_window" := Number(5.0)
  ]

  const REFERENCE_SPLIT: Fields := map[
    "training_ratio" := Number(0.70),
    "calibration_ratio" := Number(0.15),
    "minimum_training" := Number(80.0),
    "minimum_calibration" := Number(30.0),
    "minimum_testing" := Number(30.0),
    "agent_count" := Number(3.0)
  ]

  const REFERENCE_LOCAL_GP: Fields := map[
    "kNN" := Number(100.0),
    "adaptive_ratio" := Number(0.10),
    "ell" := Number(5.0),
    "sigma_f" := Number(1.0),
    "sigma_n" := Number(0.10),
    "minimum_regularization" := Number(0.01)
  ]

  const REFERENCE_TREND: Fields := map[
    "threshold" := Number(1.0),
    "maximum_mixing" := Number(0.75),
    "gain" := Number(1.0),
    "maximum_step_change" := Number(2.5)
  ]

  const REFERENCE_INTERVAL: Fields := map[
    "confidence" := Number(0.95),
    "calibration_window" := Number(300.0),
    "minimum_scores" := Number(20.0),
    "std_floor" := Number(0.20),
    "calibration_scale_min" := Number(0.5),
    "calibration_scale_max" := Number(10.0),
    "half_width_min" := Number(1.0),
    "half_width_max" := Number(8.0),
    "coverage_window" := Number(200.0),
    "update_mode" := Text("all_finite"),
    "variance_floor" := Number(0.00000001)
  ]

  const REFERENCE_ANCHORS: Fields := map[
    "base_centers" := Number(100.0),
    "transition_centers" := Number(30.0),
    "boundary_centers" := Number(20.0),
    "transition_quantile" := Number(0.75),
    "public_anchors" := Number(300.0),
    "iterations" := Number(60.0),
    "random_seed" := Number(2026.0)
  ]

  const REFERENCE_SUPPORT: Fields := map[
    "scale_multiple" := Number(2.5),
    "minimum_weight" := Number(0.00001),
    "minimum_query_support" := Number(0.03),
    "full_weight_reference" := Number(0.35)
  ]

  const REFERENCE_GLOBAL_SURROGATE: Fields := map[
    "ell" := Number(5.0),
    "minimum_regularization" := Number(0.0001),
    "noise_ratio" := Number(0.25),
    "cholesky_attempts" := Number(10.0),
    "leave_one_out" := Bool(true)
  ]

  const REFERENCE_FUSION: Fields := map[
    "maximum_global_weight" := Number(0.98),
    "initial_improvement" := Number(0.001),
    "error_window" := Number(50.0),
    "minimum_samples" := Number(20.0),
    "win_margin" := Number(0.05),
    "variance_weight" := Number(0.25),
    "winsor_quantile" := Number(0.90),
    "global_clear_threshold" := Number(0.85),
    "neutral_upper_limit" := Number(0.70),
    "persistence" := Number(5.0),
    "rise_smoothing" := Number(0.85),
    "fall_smoothing" := Number(0.55),
    "disagreement_kappa" := Number(2.5),
    "maximum_variance_ratio" := Number(2.0)
  ]

  const REFERENCE_ALARMS: Fields := map[
    "imbalance_threshold" := Number(0.15),
    "notice_count" := Number(1.0),
    "warning_count" := Number(3.0),
    "alarm_count" := Number(5.0),
    "absolute_current_threshold" := Null,
    "absolute_tension_threshold" := Null
  ]

  /** The reference tree the platform ships. */
  const REFERENCE: Fields := map[
    "feature_state" := Object(REFERENCE_FEATURE_STATE),
    "cleaning" := Object(REFERENCE_CLEANING),
    "split" := Object(REFERENCE_SPLIT),
    "local_gp" := Object(REFERENCE_LOCAL_GP),
    "trend" := Object(REFERENCE_TREND),
    "interval" := Object(REFERENCE_INTERVAL),
    "anchors" := Object(REFERENCE_ANCHORS),
    "support" := Object(REFERENCE_SUPPORT),
    "global_surrogate" := Object(REFERENCE_GLOBAL_SURROGATE),
    "fusion" := Object(REFERENCE_FUSION),
    "alarms" := Object(REFERENCE_ALARMS)
  ]
  lemma NothingIsValid()
    ensures GroupIsValid(map[], Object(map[]))
  {
  }

  /** A group stays valid when the table and the tree both get one more leaf. */
  lemma OneMore(table: map<string, FieldSpec>, fields: Fields, leaf: string, spec: FieldSpec, v: Json)
    returns (table': map<string, FieldSpec>, fields': Fields)
    requires GroupIsValid(table, Object(fields)) && Admits(spec, v)
    ensures table' == table[leaf := spec] && fields' == fields[leaf := v] && GroupIsValid(table', Object(fields'))
  {
    hide Admits;
    table', fields' := table[leaf := spec], fields[leaf := v];
  }

  lemma FeatureStateIsValid()
    ensures GroupIsValid(FEATURE_STATE, Object(REFERENCE_FEATURE_STATE))
  {
    hide GroupIsValid;
    NothingIsValid();
    var table: map<string, FieldSpec>, fields: Fields := map[], map[];
    table, fields := OneMore(table, fields, "nLag", Whole(5.0, None), Number(8.0));
    table, fields := OneMore(table, fields, "speed_threshold", AtLeast(0.0, None), Number(0.01));
    table, fields := OneMore(table, fields, "current_threshold", AtLeast(0.0, None), Number(1.0));
  }

  lemma CleaningIsValid()
    ensures GroupIsValid(CLEANING, Object(REFERENCE_CLEANING))
  {
    hide GroupIsValid;
    NothingIsValid();
    var table: map<string, FieldSpec>, fields: Fields := map[], map[];
    table, fields := OneMore(table, fields, "median_window", Whole(1.0, None), Number(21.0));
    table, fields := OneMore(table, fields, "mad_factor", Above(0.0, None), Number(5.0));
    table, fields := OneMore(table, fields, "smoothing_window", Whole(1.0, None), Number(5.0));
  }

  lemma SplitIsValid()
    ensures GroupIsValid(SPLIT, Object(REFERENCE_SPLIT))
  {
    hide GroupIsValid;
    NothingIsValid();
    var table: map<string, FieldSpec>, fields: Fields := map[], map[];
    table, fields := OneMore(table, fields, "training_ratio", Above(0.0, None), Number(0.70));
    table, fields := OneMore(table, fields, "calibration_ratio", Above(0.0, None), Number(0.15));
    table, fields := OneMore(table, fields, "minimum_training", Whole(1.0, None), Number(80.0));
    table, fields := OneMore(table, fields, "minimum_calibration", Whole(1.0, None), Number(30.0));
    table, fields := OneMore(table, fields, "minimum_testing", Whole(1.0, None), Number(30.0));
    table, fields := OneMore(table, fields, "agent_count", Whole(3.0, Some(3.0)), Number(3.0));
  }

  lemma LocalGpIsValid()
    ensures GroupIsValid(LOCAL_GP, Object(REFERENCE_LOCAL_GP))
  {
    hide GroupIsValid;
    NothingIsValid();
    var table: map<string, FieldSpec>, fields: Fields := map[], map[];
    table, fields := OneMore(table, fields, "kNN", Whole(1.0, None), Number(100.0));
    table, fields := OneMore(table, fields, "adaptive_ratio", Above(0.0, Some(1.0)), Number(0.10));
    table, fields := OneMore(table, fields, "ell", Above(0.0, None), Number(5.0));
    table, fields := OneMore(table, fields, "sigma_f", Above(0.0, None), Number(1.0));
    table, fields := OneMore(table, fields, "sigma_n", Above(0.0, None), Number(0.10));
    table, fields := OneMore(table, fields, "minimum_regularization", Above(0.0, None), Number(0.01));
  }

  lemma TrendIsValid()
    ensures GroupIsValid(TREND, Object(REFERENCE_TREND))
  {
    hide GroupIsValid;
    NothingIsValid();
    var table: map<string, FieldSpec>, fields: Fields := map[], map[];
    table, fields := OneMore(table, fields, "threshold", AtLeast(0.0, None), Number(1.0));
    table, fields := OneMore(table, fields, "maximum_mixing", AtLeast(0.0, Some(1.0)), Number(0.75));
    table, fields := OneMore(table, fields, "gain", AnyNumber, Number(1.0));
    table, fields := OneMore(table, fields, "maximum_step_change", Above(0.0, None), Number(2.5));
  }

  lemma IntervalIsValid()
    ensures GroupIsValid(INTERVAL, Object(REFERENCE_INTERVAL))
  {
    hide GroupIsValid;
    NothingIsValid();
    var table: map<string, FieldSpec>, fields: Fields := map[], map[];
    table, fields := OneMore(table, fields, "confidence", Above(0.0, Some(1.0)), Number(0.95));
    table, fields := OneMore(table, fields, "calibration_window", Whole(1.0, None), Number(300.0));
    table, fields := OneMore(table, fields, "minimum_scores", Whole(1.0, None), Number(20.0));
    table, fields := OneMore(table, fields, "std_floor", Above(0.0, None), Number(0.20));
    table, fields := OneMore(table, fields, "calibration_scale_min", Above(0.0, None), Number(0.5));
    table, fields := OneMore(table, fields, "calibration_scale_max", Above(0.0, None), Number(10.0));
    table, fields := OneMore(table, fields, "half_width_min", Above(0.0, None), Number(1.0));
    table, fields := OneMore(table, fields, "half_width_max", Above(0.0, None), Number(8.0));
    table, fields := OneMore(table, fields, "coverage_window", Whole(1.0, None), Number(200.0));
    table, fields := OneMore(table, fields, "update_mode", OneOf(StringKind, {Text("all_finite")}), Text("all_finite"));
    table, fields := OneMore(table, fields, "variance_floor", Above(0.0, None), Number(0.00000001));
  }

  lemma AnchorsIsValid()
    ensures GroupIsValid(ANCHORS, Object(REFERENCE_ANCHORS))
  {
    hide GroupIsValid;
    NothingIsValid();
    var table: map<string, FieldSpec>, fields: Fields := map[], map[];
    table, fields := OneMore(table, fields, "base_centers", Whole(1.0, None), Number(100.0));
    table, fields := OneMore(table, fields, "transition_centers", Whole(1.0, None), Number(30.0));
    table, fields := OneMore(table, fields, "boundary_centers", Whole(1.0, None), Number(20.0));
    table, fields := OneMore(table, fields, "transition_quantile", Above(0.0, Some(1.0)), Number(0.75));
    table, fields := OneMore(table, fields, "public_anchors", Whole(10.0, None), Number(300.0));
    table, fields := OneMore(table, fields, "iterations", Whole(1.0, None), Number(60.0));
    table, fields := OneMore(table, fields, "random_seed", Whole(0.0, None), Number(2026.0));
  }

  lemma SupportIsValid()
    ensures GroupIsValid(SUPPORT, Object(REFERENCE_SUPPORT))
  {
    hide GroupIsValid;
    NothingIsValid();
    var table: map<string, FieldSpec>, fields: Fields := map[], map[];
    table, fields := OneMore(table, fields, "scale_multiple", Above(0.0, None), Number(2.5));
    table, fields := OneMore(table, fields, "minimum_weight", Above(0.0, None), Number(0.00001));
    table, fields := OneMore(table, fields, "minimum_query_support", AtLeast(0.0, Some(1.0)), Number(0.03));
    table, fields := OneMore(table, fields, "full_weight_reference", Above(0.0, None), Number(0.35));
  }

  lemma GlobalSurrogateIsValid()
    ensures GroupIsValid(GLOBAL_SURROGATE, Object(REFERENCE_GLOBAL_SURROGATE))
  {
    hide GroupIsValid;
    NothingIsValid();
    var table: map<string, FieldSpec>, fields: Fields := map[], map[];
    table, fields := OneMore(table, fields, "ell", Above(0.0, None), Number(5.0));
    table, fields := OneMore(table, fields, "minimum_regularization", Above(0.0, None), Number(0.0001));
    table, fields := OneMore(table, fields, "noise_ratio", AtLeast(0.0, None), Number(0.25));
    table, fields := OneMore(table, fields, "cholesky_attempts", Whole(1.0, None), Number(10.0));
    table, fields := OneMore(table, fields, "leave_one_out", OneOf(BooleanKind, {Bool(true)}), Bool(true));
  }

  lemma FusionIsValid()
    ensures GroupIsValid(FUSION, Object(REFERENCE_FUSION))
  {
    hide GroupIsValid;
    NothingIsValid();
    var table: map<string, FieldSpec>, fields: Fields := map[], map[];
    table, fields := OneMore(table, fields, "maximum_global_weight", AtLeast(0.0, Some(1.0)), Number(0.98));
    table, fields := OneMore(table, fields, "initial_improvement", AtLeast(0.0, None), Number(0.001));
    table, fields := OneMore(table, fields, "error_window", Whole(1.0, None), Number(50.0));
    table, fields := OneMore(table, fields, "minimum_samples", Whole(1.0, None), Number(20.0));
    table, fields := OneMore(table, fields, "win_margin", AtLeast(0.0, Some(1.0)), Number(0.05));
    table, fields := OneMore(table, fields, "variance_weight", AtLeast(0.0, None), Number(0.25));
    table, fields := OneMore(table, fields, "winsor_quantile", Above(0.0, Some(1.0)), Number(0.90));
    table, fields := OneMore(table, fields, "global_clear_threshold", AtLeast(0.0, Some(1.0)), Number(0.85));
    table, fields := OneMore(table, fields, "neutral_upper_limit", AtLeast(0.0, Some(1.0)), Number(0.70));
    table, fields := OneMore(table, fields, "persistence", Whole(1.0, None), Number(5.0));
    table, fields := OneMore(table, fields, "rise_smoothing", AtLeast(0.0, Some(1.0)), Number(0.85));
    table, fields := OneMore(table, fields, "fall_smoothing", AtLeast(0.0, Some(1.0)), Number(0.55));
    table, fields := OneMore(table, fields, "disagreement_kappa", Above(0.0, None), Number(2.5));
    table, fields := OneMore(table, fields, "maximum_variance_ratio", Above(0.0, None), Number(2.0));
  }

  lemma AlarmsIsValid()
    ensures GroupIsValid(ALARMS, Object(REFERENCE_ALARMS))
  {
    hide GroupIsValid;
    NothingIsValid();
    var table: map<string, FieldSpec>, fields: Fields := map[], map[];
    table, fields := OneMore(table, fields, "imbalance_threshold", AtLeast(0.0, Some(1.0)), Number(0.15));
    table, fields := OneMore(table, fields, "notice_count", Whole(1.0, None), Number(1.0));
    table, fields := OneMore(table, fields, "warning_count", Whole(1.0, None), Number(3.0));
    table, fields := OneMore(table, fields, "alarm_count", Whole(1.0, None), Number(5.0));
    table, fields := OneMore(table, fields, "absolute_current_threshold", Optional(0.0), Null);
    table, fields := OneMore(table, fields, "absolute_tension_threshold", Optional(0.0), Null);
  }

  lemma SpecIs()
    ensures SPEC == map[
      "feature_state" := FEATURE_STATE, "cleaning" := CLEANING, "split" := SPLIT, "local_gp" := LOCAL_GP, "trend"
      := TREND, "interval" := INTERVAL, "anchors" := ANCHORS, "support" := SUPPORT, "global_surrogate" :=
      GLOBAL_SURROGATE, "fusion" := FUSION, "alarms" := ALARMS]
  {
  }

  lemma ReferenceIs()
    ensures REFERENCE == map[
      "feature_state" := Object(REFERENCE_FEATURE_STATE), "cleaning" := Object(REFERENCE_CLEANING), "split" :=
      Object(REFERENCE_SPLIT), "local_gp" := Object(REFERENCE_LOCAL_GP), "trend" := Object(REFERENCE_TREND),
      "interval" := Object(REFERENCE_INTERVAL), "anchors" := Object(REFERENCE_ANCHORS), "support" :=
      Object(REFERENCE_SUPPORT), "global_surrogate" := Object(REFERENCE_GLOBAL_SURROGATE), "fusion" :=
      Object(REFERENCE_FUSION), "alarms" := Object(REFERENCE_ALARMS)]
  {
  }

  lemma FeatureStateInTable()
    ensures "feature_state" in SPEC && SPEC["feature_state"] == FEATURE_STATE
  {
    SpecIs();
    hide *;
  }

  lemma FeatureStateInReference()
    ensures "feature_state" in REFERENCE && REFERENCE["feature_state"] == Object(REFERENCE_FEATURE_STATE)
  {
    ReferenceIs();
    hide *;
  }

  lemma CleaningInTable()
    ensures "cleaning" in SPEC && SPEC["cleaning"] == CLEANING
  {
    SpecIs();
    hide *;
  }

  lemma CleaningInReference()
    ensures "cleaning" in REFERENCE && REFERENCE["cleaning"] == Object(REFERENCE_CLEANING)
  {
    ReferenceIs();
    hide *;
  }

  lemma SplitInTable()
    ensures "split" in SPEC && SPEC["split"] == SPLIT
  {
    SpecIs();
    hide *;
  }

  lemma SplitInReference()
    ensures "split" in REFERENCE && REFERENCE["split"] == Object(REFERENCE_SPLIT)
  {
    ReferenceIs();
    hide *;
  }

  lemma LocalGpInTable()
    ensures "local_gp" in SPEC && SPEC["local_gp"] == LOCAL_GP
  {
    SpecIs();
    hide *;
  }

  lemma LocalGpInReference()
    ensures "local_gp" in REFERENCE && REFERENCE["local_gp"] == Object(REFERENCE_LOCAL_GP)
  {
    ReferenceIs();
    hide *;
  }

  lemma TrendInTable()
    ensures "trend" in SPEC && SPEC["trend"] == TREND
  {
    SpecIs();
    hide *;
  }

  lemma TrendInReference()
    ensures "trend" in REFERENCE && REFERENCE["trend"] == Object(REFERENCE_TREND)
  {
    ReferenceIs();
    hide *;
  }

  lemma IntervalInTable()
    ensures "interval" in SPEC && SPEC["interval"] == INTERVAL
  {
    SpecIs();
    hide *;
  }

  lemma IntervalInReference()
    ensures "interval" in REFERENCE && REFERENCE["interval"] == Object(REFERENCE_INTERVAL)
  {
    ReferenceIs();
    hide *;
  }

  lemma AnchorsInTable()
    ensures "anchors" in SPEC && SPEC["anchors"] == ANCHORS
  {
    SpecIs();
    hide *;
  }

  lemma AnchorsInReference()
    ensures "anchors" in REFERENCE && REFERENCE["anchors"] == Object(REFERENCE_ANCHORS)
  {
    ReferenceIs();
    hide *;
  }

  lemma SupportInTable()
    ensures "support" in SPEC && SPEC["support"] == SUPPORT
  {
    SpecIs();
    hide *;
  }

  lemma SupportInReference()
    ensures "support" in REFERENCE && REFERENCE["support"] == Object(REFERENCE_SUPPORT)
  {
    ReferenceIs();
    hide *;
  }

  lemma GlobalSurrogateInTable()
    ensures "global_surrogate" in SPEC && SPEC["global_surrogate"] == GLOBAL_SURROGATE
  {
    SpecIs();
    hide *;
  }

  lemma GlobalSurrogateInReference()
    ensures "global_surrogate" in REFERENCE && REFERENCE["global_surrogate"] == Object(REFERENCE_GLOBAL_SURROGATE)
  {
    ReferenceIs();
    hide *;
  }

  lemma FusionInTable()
    ensures "fusion" in SPEC && SPEC["fusion"] == FUSION
  {
    SpecIs();
    hide *;
  }

  lemma FusionInReference()
    ensures "fusion" in REFERENCE && REFERENCE["fusion"] == Object(REFERENCE_FUSION)
  {
    ReferenceIs();
    hide *;
  }

  lemma AlarmsInTable()
    ensures "alarms" in SPEC && SPEC["alarms"] == ALARMS
  {
    SpecIs();
    hide *;
  }

  lemma AlarmsInReference()
    ensures "alarms" in REFERENCE && REFERENCE["alarms"] == Object(REFERENCE_ALARMS)
  {
    ReferenceIs();
    hide *;
  }

  const GROUPS: set<string> := {
    "feature_state", "cleaning", "split", "local_gp", "trend", "interval", "anchors", "support",
    "global_surrogate", "fusion", "alarms"
  }

  /** The keys of a map that lists eleven. */
  lemma ElevenKeys<V>(a: string, va: V, b: string, vb: V, c: string, vc: V, d: string, vd: V, e: string, ve: V, f:
                      string, vf: V, g: string, vg: V, h: string, vh: V, i: string, vi: V, j: string, vj: V, k:
                      string, vk: V)
    ensures map[a := va, b := vb, c := vc, d := vd, e := ve, f := vf, g := vg, h := vh, i := vi, j := vj, k := vk].Keys
      == {a, b, c, d, e, f, g, h, i, j, k}
  {
  }

  lemma TableKeys()
    ensures SPEC.Keys == GROUPS
  {
    ElevenKeys("feature_state", FEATURE_STATE, "cleaning", CLEANING, "split", SPLIT, "local_gp", LOCAL_GP, "trend",
               TREND, "interval", INTERVAL, "anchors", ANCHORS, "support", SUPPORT, "global_surrogate",
               GLOBAL_SURROGATE, "fusion", FUSION, "alarms", ALARMS);
  }

  lemma ReferenceKeys()
    ensures REFERENCE.Keys == GROUPS
  {
    ElevenKeys("feature_state", Object(REFERENCE_FEATURE_STATE), "cleaning", Object(REFERENCE_CLEANING), "split",
               Object(REFERENCE_SPLIT), "local_gp", Object(REFERENCE_LOCAL_GP), "trend", Object(REFERENCE_TREND),
               "interval", Object(REFERENCE_INTERVAL), "anchors", Object(REFERENCE_ANCHORS), "support",
               Object(REFERENCE_SUPPORT), "global_surrogate", Object(REFERENCE_GLOBAL_SURROGATE), "fusion",
               Object(REFERENCE_FUSION), "alarms", Object(REFERENCE_ALARMS));
  }

  /** A group of the reference that its part of the table admits. */
  ghost predicate GroupPasses(group: string) {
    group in SPEC && group in REFERENCE && GroupIsValid(SPEC[group], REFERENCE[group])
  }

  lemma FeatureStatePasses()
    ensures GroupPasses("feature_state")
  {
    FeatureStateInTable();
    FeatureStateInReference();
    FeatureStateIsValid();
    hide SPEC, REFERENCE, GroupIsValid;
  }

  lemma CleaningPasses()
    ensures GroupPasses("cleaning")
  {
    CleaningInTable();
    CleaningInReference();
    CleaningIsValid();
    hide SPEC, REFERENCE, GroupIsValid;
  }

  lemma SplitPasses()
    ensures GroupPasses("split")
  {
    SplitInTable();
    SplitInReference();
    SplitIsValid();
    hide SPEC, REFERENCE, GroupIsValid;
  }

  lemma LocalGpPasses()
    ensures GroupPasses("local_gp")
  {
    LocalGpInTable();
    LocalGpInReference();
    LocalGpIsValid();
    hide SPEC, REFERENCE, GroupIsValid;
  }

  lemma TrendPasses()
    ensures GroupPasses("trend")
  {
    TrendInTable();
    TrendInReference();
    TrendIsValid();
    hide SPEC, REFERENCE, GroupIsValid;
  }

  lemma IntervalPasses()
    ensures GroupPasses("interval")
  {
    IntervalInTable();
    IntervalInReference();
    IntervalIsValid();
    hide SPEC, REFERENCE, GroupIsValid;
  }

  lemma AnchorsPasses()
    ensures GroupPasses("anchors")
  {
    AnchorsInTable();
    AnchorsInReference();
    AnchorsIsValid();
    hide SPEC, REFERENCE, GroupIsValid;
  }

  lemma SupportPasses()
    ensures GroupPasses("support")
  {
    SupportInTable();
    SupportInReference();
    SupportIsValid();
    hide SPEC, REFERENCE, GroupIsValid;
  }

  lemma GlobalSurrogatePasses()
    ensures GroupPasses("global_surrogate")
  {
    GlobalSurrogateInTable();
    GlobalSurrogateInReference();
    GlobalSurrogateIsValid();
    hide SPEC, REFERENCE, GroupIsValid;
  }

  lemma FusionPasses()
    ensures GroupPasses("fusion")
  {
    FusionInTable();
    FusionInReference();
    FusionIsValid();
    hide SPEC, REFERENCE, GroupIsValid;
  }

  lemma AlarmsPasses()
    ensures GroupPasses("alarms")
  {
    AlarmsInTable();
    AlarmsInReference();
    AlarmsIsValid();
    hide SPEC, REFERENCE, GroupIsValid;
  }

  lemma EveryGroupPasses()
    ensures forall group :: group in GROUPS ==> GroupPasses(group)
  {
    hide GroupPasses;
    FeatureStatePasses();
    CleaningPasses();
    SplitPasses();
    LocalGpPasses();
    TrendPasses();
    IntervalPasses();
    AnchorsPasses();
    SupportPasses();
    GlobalSurrogatePasses();
    FusionPasses();
    AlarmsPasses();
  }

  /** The platform's own reference tree passes the Worker's validation. */
  lemma ReferenceIsValidated()
    ensures IsValidated(REFERENCE)
  {
    hide SPEC, REFERENCE, GROUPS, GroupIsValid, Combines;
    TableKeys();
    ReferenceKeys();
    EveryGroupPasses();
    forall group | group in SPEC ensures GroupIsValid(SPEC[group], REFERENCE[group]) {
      assert GroupPasses(group);
    }
    ReferenceCombines();
  }

  lemma ReferenceCombines()
    ensures Combines(At(REFERENCE))
  {
    hide SPEC, REFERENCE, SplitCombines, IntervalCombines, FusionCombines, AlarmsCombine;
    ReferenceSplitCombines();
    ReferenceIntervalCombines();
    ReferenceFusionCombines();
    ReferenceAlarmsCombine();
  }

  lemma ReferenceSplitCombines()
    ensures SplitCombines(At(REFERENCE))
  {
    SplitInReference();
    hide SPEC, REFERENCE;
  }

  lemma ReferenceIntervalCombines()
    ensures IntervalCombines(At(REFERENCE))
  {
    IntervalInReference();
    hide SPEC, REFERENCE;
  }

  lemma ReferenceFusionCombines()
    ensures FusionCombines(At(REFERENCE))
  {
    FusionInReference();
    hide SPEC, REFERENCE;
  }

  lemma ReferenceAlarmsCombine()
    ensures AlarmsCombine(At(REFERENCE))
  {
    AlarmsInReference();
    hide SPEC, REFERENCE;
  }

  /** And the Worker prepares the three Agents from it when nobody overrides anything, each with the reference tree. */
  lemma ReferenceIsPrepared()
    ensures var agents := [Entry(1, "EARLY", map[]), Entry(2, "MIDDLE", map[]), Entry(3, "LATE", map[])];
      Prepares(REFERENCE, agents) && AllFit(REFERENCE, agents)
      && forall k :: 1 <= k <= 3 ==> k in Trees(REFERENCE, agents) && Trees(REFERENCE, agents)[k] == REFERENCE
  {
    hide REFERENCE, SPEC;
    ReferenceIsValidated();
    var agents := [Entry(1, "EARLY", map[]), Entry(2, "MIDDLE", map[]), Entry(3, "LATE", map[])];
    MergingNothing(Object(REFERENCE));
    hide IsValidated, Fits, Merged;
    ThreeWithout(REFERENCE, agents);
  }

  lemma ThreeWithout(shared: Fields, agents: seq<Entry>)
    requires agents == [Entry(1, "EARLY", map[]), Entry(2, "MIDDLE", map[]), Entry(3, "LATE", map[])]
    requires IsValidated(shared) && Fits(Object(shared), Object(map[]))
    requires Merged(Object(shared), Object(map[])) == Object(shared)
    ensures Prepares(shared, agents) && AllFit(shared, agents)
    ensures forall k :: 1 <= k <= 3 ==> k in Trees(shared, agents) && Trees(shared, agents)[k] == shared
  {
    hide IsValidated, Fits, Merged, TOPOLOGY;
    var three := [AgentOverride(1, "EARLY", Some(map[])), AgentOverride(2, "MIDDLE", Some(map[])),
                  AgentOverride(3, "LATE", Some(map[]))];
    AreProfile(shared, three, Profile(shared, agents));
    ProfileTrees(shared, three, Profile(shared, agents));
    assert Effective(shared, map[]) == shared;
  }

  lemma AreProfile(shared: Fields, three: seq<AgentOverride>, profile: Profile)
    requires three == [AgentOverride(1, "EARLY", Some(map[])), AgentOverride(2, "MIDDLE", Some(map[])),
                       AgentOverride(3, "LATE", Some(map[]))]
    requires profile == Profile(shared, [Entry(1, "EARLY", map[]), Entry(2, "MIDDLE", map[]), Entry(3, "LATE", map[])])
    ensures IsProfile(shared, three, profile)
  {
    forall k | 0 <= k < 3 ensures IsEntry(three, k + 1, profile.agents[k]) {
      assert three[k].agent == k + 1 && three[k].parameters == Some(profile.agents[k].parameters);
    }
  }
}
