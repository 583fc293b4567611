/**
 The Worker's own validation of a profile: the shared tree and every merged tree are checked again, against a table of
 bounds and against seven conditions across leaves that the admission does not know.
 */
module Preparation {
  import opened Outcomes
  import opened Parameters
  import opened Merge

  // ---------------------------------------------------------------- the table

  /** What one leaf may be; only texts and flags have allowed values. */
  datatype FieldSpec = FieldSpec(kind: Kind, minimum: Option<real>, maximum: Option<real>, exclusive: bool,
                                 allowed: Option<set<Json>>, nullable: bool)

  function Whole(minimum: real, maximum: Option<real>): FieldSpec {
    FieldSpec(IntegerKind, Some(minimum), maximum, false, None, false)
  }

  function AtLeast(minimum: real, maximum: Option<real>): FieldSpec {
    FieldSpec(NumberKind, Some(minimum), maximum, false, None, false)
  }

  function Above(minimum: real, maximum: Option<real>): FieldSpec {
    FieldSpec(NumberKind, Some(minimum), maximum, true, None, false)
  }

  function Optional(minimum: real): FieldSpec {
    FieldSpec(NumberKind, Some(minimum), None, false, None, true)
  }

  function OneOf(kind: Kind, allowed: set<Json>): FieldSpec {
    FieldSpec(kind, None, None, false, Some(allowed), false)
  }

  const AnyNumber := FieldSpec(NumberKind, None, None, false, None, false)

  const FEATURE_STATE: map<string, FieldSpec> := map[
    "nLag" := Whole(5.0, None),
    "speed_threshold" := AtLeast(0.0, None),
    "current_threshold" := AtLeast(0.0, None)
  ]

  const CLEANING: map<string, FieldSpec> := map[
    "median_window" := Whole(1.0, None),
    "mad_factor" := Above(0.0, None),
    "smoothing_window" := Whole(1.0, None)
  ]

  const SPLIT: map<string, FieldSpec> := map[
    "training_ratio" := Above(0.0, None),
    "calibration_ratio" := Above(0.0, None),
    "minimum_training" := Whole(1.0, None),
    "minimum_calibration" := Whole(1.0, None),
    "minimum_testing" := Whole(1.0, None),
    "agent_count" := Whole(3.0, Some(3.0))
  ]

  const LOCAL_GP: map<string, FieldSpec> := map[
    "kNN" := Whole(1.0, None),
    "adaptive_ratio" := Above(0.0, Some(1.0)),
    "ell" := Above(0.0, None),
    "sigma_f" := Above(0.0, None),
    "sigma_n" := Above(0.0, None),
    "minimum_regularization" := Above(0.0, None)
  ]

  const TREND: map<string, FieldSpec> := map[
    "threshold" := AtLeast(0.0, None),
    "maximum_mixing" := AtLeast(0.0, Some(1.0)),
    "gain" := AnyNumber,
    "maximum_step_change" := Above(0.0, None)
  ]

  const INTERVAL: map<string, FieldSpec> := map[
    "confidence" := Above(0.0, Some(1.0)),
    "calibration_window" := Whole(1.0, None),
    "minimum_scores" := Whole(1.0, None),
    "std_floor" := Above(0.0, None),
    "calibration_scale_min" := Above(0.0, None),
    "calibration_scale_max" := Above(0.0, None),
    "half_width_min" := Above(0.0, None),
    "half_width_max" := Above(0.0, None),
    "coverage_window" := Whole(1.0, None),
    "update_mode" := OneOf(StringKind, {Text("all_finite")}),
    "variance_floor" := Above(0.0, None)
  ]

  const ANCHORS: map<string, FieldSpec> := map[
    "base_centers" := Whole(1.0, None),
    "transition_centers" := Whole(1.0, None),
    "boundary_centers" := Whole(1.0, None),
    "transition_quantile" := Above(0.0, Some(1.0)),
    "public_anchors" := Whole(10.0, None),
    "iterations" := Whole(1.0, None),
    "random_seed" := Whole(0.0, None)
  ]

  const SUPPORT: map<string, FieldSpec> := map[
    "scale_multiple" := Above(0.0, None),
    "minimum_weight" := Above(0.0, None),
    "minimum_query_support" := AtLeast(0.0, Some(1.0)),
    "full_weight_reference" := Above(0.0, None)
  ]

  const GLOBAL_SURROGATE: map<string, FieldSpec> := map[
    "ell" := Above(0.0, None),
    "minimum_regularization" := Above(0.0, None),
    "noise_ratio" := AtLeast(0.0, None),
    "cholesky_attempts" := Whole(1.0, None),
    "leave_one_out" := OneOf(BooleanKind, {Bool(true)})
  ]

  const FUSION: map<string, FieldSpec> := map[
    "maximum_global_weight" := AtLeast(0.0, Some(1.0)),
    "initial_improvement" := AtLeast(0.0, None),
    "error_window" := Whole(1.0, None),
    "minimum_samples" := Whole(1.0, None),
    "win_margin" := AtLeast(0.0, Some(1.0)),
    "variance_weight" := AtLeast(0.0, None),
    "winsor_quantile" := Above(0.0, Some(1.0)),
    "global_clear_threshold" := AtLeast(0.0, Some(1.0)),
    "neutral_upper_limit" := AtLeast(0.0, Some(1.0)),
    "persistence" := Whole(1.0, None),
    "rise_smoothing" := AtLeast(0.0, Some(1.0)),
    "fall_smoothing" := AtLeast(0.0, Some(1.0)),
    "disagreement_kappa" := Above(0.0, None),
    "maximum_variance_ratio" := Above(0.0, None)
  ]

  const ALARMS: map<string, FieldSpec> := map[
    "imbalance_threshold" := AtLeast(0.0, Some(1.0)),
    "notice_count" := Whole(1.0, None),
    "warning_count" := Whole(1.0, None),
    "alarm_count" := Whole(1.0, None),
    "absolute_current_threshold" := Optional(0.0),
    "absolute_tension_threshold" := Optional(0.0)
  ]

  /** The parameter table: groups of leaves. */
  const SPEC: map<string, map<string, FieldSpec>> := map[
    "feature_state" := FEATURE_STATE,
    "cleaning" := CLEANING,
    "split" := SPLIT,
    "local_gp" := LOCAL_GP,
    "trend" := TREND,
    "interval" := INTERVAL,
    "anchors" := ANCHORS,
    "support" := SUPPORT,
    "global_surrogate" := GLOBAL_SURROGATE,
    "fusion" := FUSION,
    "alarms" := ALARMS
  ]

  // ---------------------------------------------------------------- one tree

  predicate WithinBounds(spec: FieldSpec, v: real) {
    && (spec.minimum.Some? ==> if spec.exclusive then v > spec.minimum.value else v >= spec.minimum.value)
    && (spec.maximum.Some? ==> v <= spec.maximum.value)
  }

  /** Whole numbers arrive as integers: the platform writes them without a fraction. */
  predicate Admits(spec: FieldSpec, v: Json) {
    if v == Null then spec.nullable
    else
      match spec.kind
      case BooleanKind => v.Bool? && (spec.allowed.Some? ==> v in spec.allowed.value)
      case StringKind => v.Text? && v.text != "" && (spec.allowed.Some? ==> v in spec.allowed.value)
      case IntegerKind => v.Number? && v.number == v.number.Floor as real && WithinBounds(spec, v.number)
      case NumberKind => v.Number? && WithinBounds(spec, v.number)
      case UnknownKind => false
  }

  function Amount(v: Json): real {
    if v.Number? then v.number else 0.0
  }

  /** The leaf of a group, Null where there is none. */
  function LeafAt(tree: Fields, group: string, leaf: string): Json {
    if group in tree && tree[group].Object? && leaf in tree[group].fields then tree[group].fields[leaf] else Null
  }

  function At(tree: Fields): (string, string) -> Json {
    (group, leaf) => LeafAt(tree, group, leaf)
  }

  /** The leaf an Agent works with: its override's if it gives one, the shared one otherwise. */
  function Over(shared: Fields, override: Fields): (string, string) -> Json {
    (group, leaf) =>
      if group in override && override[group].Object? && leaf in override[group].fields
      then override[group].fields[leaf] else LeafAt(shared, group, leaf)
  }

  predicate SplitCombines(at: (string, string) -> Json) {
    Amount(at("split", "training_ratio")) + Amount(at("split", "calibration_ratio")) < 1.0
  }

  predicate IntervalCombines(at: (string, string) -> Json) {
    && Amount(at("interval", "calibration_window")) >= Amount(at("interval", "minimum_scores"))
    && Amount(at("interval", "calibration_scale_min")) <= Amount(at("interval", "calibration_scale_max"))
    && Amount(at("interval", "half_width_min")) <= Amount(at("interval", "half_width_max"))
  }

  predicate FusionCombines(at: (string, string) -> Json) {
    && Amount(at("fusion", "error_window")) >= Amount(at("fusion", "minimum_samples"))
    && Amount(at("fusion", "neutral_upper_limit")) <= Amount(at("fusion", "global_clear_threshold"))
  }

  predicate AlarmsCombine(at: (string, string) -> Json) {
    Amount(at("alarms", "notice_count")) <= Amount(at("alarms", "warning_count")) <= Amount(at("alarms", "alarm_count"))
  }

  /** The conditions across leaves. */
  predicate Combines(at: (string, string) -> Json) {
    SplitCombines(at) && IntervalCombines(at) && FusionCombines(at) && AlarmsCombine(at)
  }

  predicate GroupIsValid(spec: map<string, FieldSpec>, v: Json) {
    && v.Object?
    && v.fields.Keys == spec.Keys
    && forall leaf :: leaf in spec ==> Admits(spec[leaf], v.fields[leaf])
  }

  predicate IsValidated(tree: Fields) {
    && tree.Keys == SPEC.Keys
    && (forall group :: group in SPEC ==> GroupIsValid(SPEC[group], tree[group]))
    && Combines(At(tree))
  }

  method ValidatedGroup(spec: map<string, FieldSpec>, v: Json) returns (ok: bool)
    ensures ok <==> GroupIsValid(spec, v)
  {
    if !v.Object? || v.fields.Keys != spec.Keys {
      return false;
    }
    var remaining := spec.Keys;
    while remaining != {}
      invariant remaining <= spec.Keys
      invariant forall leaf :: leaf in spec && leaf !in remaining ==> Admits(spec[leaf], v.fields[leaf])
    {
      var leaf :| leaf in remaining;
      if !Admits(spec[leaf], v.fields[leaf]) {
        return false;
      }
      remaining := remaining - {leaf};
    }
    return true;
  }

  /** Group by group, in the table's order, and then across the groups; false stands for the contract failure. */
  method ValidatedParameterTree(tree: Fields) returns (ok: bool)
    ensures ok <==> IsValidated(tree)
  {
    hide SPEC, GroupIsValid, Combines, At;
    if tree.Keys != SPEC.Keys {
      return false;
    }
    var remaining := SPEC.Keys;
    while remaining != {}
      invariant remaining <= SPEC.Keys
      invariant forall group :: group in SPEC && group !in remaining ==> GroupIsValid(SPEC[group], tree[group])
    {
      var group :| group in remaining;
      var valid := ValidatedGroup(SPEC[group], tree[group]);
      if !valid {
        return false;
      }
      remaining := remaining - {group};
    }
    return Combines(At(tree));
  }

  // ---------------------------------------------------------------- the whole profile

  ghost function Effective(shared: Fields, override: Fields): (tree: Fields)
    requires Fits(Object(shared), Object(override))
    ensures Object(tree) == Merged(Object(shared), Object(override))
  {
    Merged(Object(shared), Object(override)).fields
  }

  /** The override merges onto the shared tree, and the merged tree passes. */
  ghost predicate EntryPrepares(shared: Fields, override: Fields) {
    Fits(Object(shared), Object(override)) && IsValidated(Effective(shared, override))
  }

  function Agents(agents: seq<Entry>): set<int> {
    if agents == [] then {} else Agents(agents[..|agents| - 1]) + {agents[|agents| - 1].agent}
  }

  /** The shared tree passes, every override merges into a tree that passes, and there is one for each Agent. */
  ghost predicate Prepares(shared: Fields, agents: seq<Entry>) {
    && IsValidated(shared)
    && (forall k :: 0 <= k < |agents| ==> EntryPrepares(shared, agents[k].parameters))
    && Agents(agents) == {1, 2, 3}
  }

  ghost predicate AllFit(shared: Fields, agents: seq<Entry>) {
    forall k :: 0 <= k < |agents| ==> Fits(Object(shared), Object(agents[k].parameters))
  }

  /** The effective trees by Agent; of two entries for one Agent the later one counts. */
  ghost function Trees(shared: Fields, agents: seq<Entry>): (trees: map<int, Fields>)
    requires AllFit(shared, agents)
    ensures trees.Keys == Agents(agents)
  {
    if agents == [] then map[]
    else
      var last := agents[|agents| - 1];
      Trees(shared, agents[..|agents| - 1])[last.agent := Effective(shared, last.parameters)]
  }

  method Prepare(shared: Fields, agents: seq<Entry>) returns (r: Option<map<int, Fields>>)
    ensures r.Some? <==> Prepares(shared, agents)
    ensures r.Some? ==> AllFit(shared, agents) && r.value == Trees(shared, agents)
  {
    hide IsValidated, Fits, Merged, Effective;
    var valid := ValidatedParameterTree(shared);
    if !valid {
      return None;
    }
    var byAgent: map<int, Fields> := map[];
    for i := 0 to |agents|
      invariant forall k :: 0 <= k < i ==> EntryPrepares(shared, agents[k].parameters)
      invariant AllFit(shared, agents[..i]) && byAgent == Trees(shared, agents[..i])
    {
      var merged := DeepMerge(shared, agents[i].parameters);
      if merged.None? {
        return None;
      }
      valid := ValidatedParameterTree(merged.value);
      if !valid {
        return None;
      }
      assert agents[..i + 1][..i] == agents[..i];
      byAgent := byAgent[agents[i].agent := merged.value];
    }
    assert agents[..|agents|] == agents;
    return if byAgent.Keys == {1, 2, 3} then Some(byAgent) else None;
  }

  /** A profile prepares to one tree for each Agent: the shared tree with that Agent's own override. */
  lemma ProfileTrees(shared: Fields, agents: seq<AgentOverride>, profile: Profile)
    requires IsProfile(shared, agents, profile)
    ensures Agents(profile.agents) == {1, 2, 3}
    ensures AllFit(shared, profile.agents) ==> forall k :: 0 <= k < 3 ==>
      Trees(shared, profile.agents)[k + 1] == Effective(shared, profile.agents[k].parameters)
  {
    hide TOPOLOGY, Fits, Effective, Agents, Trees;
    var entries := profile.agents;
    assert IsEntry(agents, 1, entries[0]) && IsEntry(agents, 2, entries[1]) && IsEntry(agents, 3, entries[2]);
    AgentsStep(entries, 0);
    AgentsStep(entries, 1);
    AgentsStep(entries, 2);
    assert entries[..0] == [] && entries[..3] == entries;
    assert Agents([]) == {} by {
      NoAgents();
    }
    if AllFit(shared, entries) {
      TreesStep(shared, entries, 0);
      TreesStep(shared, entries, 1);
      TreesStep(shared, entries, 2);
    }
  }

  lemma NoAgents()
    ensures Agents([]) == {}
  {
  }

  lemma AgentsStep(agents: seq<Entry>, n: nat)
    requires n < |agents|
    ensures Agents(agents[..n + 1]) == Agents(agents[..n]) + {agents[n].agent}
  {
    assert agents[..n + 1][..n] == agents[..n];
  }

  lemma TreesStep(shared: Fields, agents: seq<Entry>, n: nat)
    requires n < |agents| && AllFit(shared, agents)
    ensures Trees(shared, agents[..n + 1])
      == Trees(shared, agents[..n])[agents[n].agent := Effective(shared, agents[n].parameters)]
  {
    hide Fits, Effective;
    assert agents[..n + 1][..n] == agents[..n];
  }

  // ---------------------------------------------------------------- what the admission already guarantees

  /** The tree has the table's groups and leaves, and none deeper. */
  ghost predicate HasShape(tree: Fields) {
    && tree.Keys == SPEC.Keys
    && forall group :: group in SPEC ==> GroupHasShape(SPEC[group], tree[group])
  }

  ghost predicate GroupHasShape(spec: map<string, FieldSpec>, v: Json) {
    && v.Object?
    && v.fields.Keys == spec.Keys
    && forall leaf :: leaf in spec ==> !v.fields[leaf].Object?
  }

  /** Every leaf the tree has, the table admits. */
  ghost predicate LeavesAdmitted(tree: Fields) {
    forall group :: group in SPEC && group in tree ==> GroupAdmitted(SPEC[group], tree[group])
  }

  ghost predicate GroupAdmitted(spec: map<string, FieldSpec>, v: Json) {
    v.Object? ==> forall leaf :: leaf in spec && leaf in v.fields ==> Admits(spec[leaf], v.fields[leaf])
  }

  lemma PromiseHasShape(d: Document, reference: Fields, tree: Fields)
    requires HasShape(reference) && FieldsKeepPromise(d, reference, tree)
    ensures HasShape(tree)
  {
    hide SPEC;
    forall group | group in SPEC ensures GroupHasShape(SPEC[group], tree[group]) {
      assert GroupHasShape(SPEC[group], reference[group]);
      GroupPromiseHasShape(d, group, SPEC[group], reference[group], tree[group]);
    }
  }

  lemma GroupPromiseHasShape(d: Document, group: string, spec: map<string, FieldSpec>, reference: Json, v: Json)
    requires GroupHasShape(spec, reference) && KeepsPromise(d, "", group, reference, v)
    ensures GroupHasShape(spec, v)
  {
    hide PathOf, Child, Satisfies;
    forall leaf | leaf in spec ensures !v.fields[leaf].Object? {
      assert KeepsPromise(d, Child("", group), leaf, reference.fields[leaf], v.fields[leaf]);
    }
  }

  /** A tree of that shape passes exactly when its leaves are admitted and combine. */
  lemma ValidatedExactlyWhen(tree: Fields)
    requires HasShape(tree)
    ensures IsValidated(tree) <==> LeavesAdmitted(tree) && Combines(At(tree))
  {
    hide SPEC, Combines, At, Admits;
    if LeavesAdmitted(tree) {
      forall group | group in SPEC ensures GroupIsValid(SPEC[group], tree[group]) {
        assert GroupHasShape(SPEC[group], tree[group]) && GroupAdmitted(SPEC[group], tree[group]);
      }
    }
    if IsValidated(tree) {
      forall group | group in SPEC && group in tree ensures GroupAdmitted(SPEC[group], tree[group]) {
        assert GroupIsValid(SPEC[group], tree[group]);
      }
    }
  }

  /** In the merged tree, an Agent finds its own leaf where it gave one, and the shared one elsewhere. */
  lemma EffectiveLeaf(shared: Fields, override: Fields, group: string, leaf: string)
    requires HasShape(shared) && Fits(Object(shared), Object(override))
    ensures LeafAt(Effective(shared, override), group, leaf) == Over(shared, override)(group, leaf)
  {
    hide SPEC;
    if group in shared {
      assert GroupHasShape(SPEC[group], shared[group]);
      if group in override {
        assert Effective(shared, override)[group] == Merged(shared[group], override[group]);
        GroupMerges(SPEC[group], shared[group], override[group]);
      }
    }
  }

  lemma GroupMerges(spec: map<string, FieldSpec>, base: Json, override: Json)
    requires GroupHasShape(spec, base) && Fits(base, override)
    ensures override.Object? && override.fields.Keys <= spec.Keys
    ensures var merged := Merged(base, override);
      && merged.Object? && merged.fields.Keys == spec.Keys
      && forall leaf :: leaf in spec ==>
           merged.fields[leaf] == if leaf in override.fields then override.fields[leaf] else base.fields[leaf]
  {
  }

  lemma SameSplit(a: (string, string) -> Json, b: (string, string) -> Json)
    requires forall group, leaf :: a(group, leaf) == b(group, leaf)
    ensures SplitCombines(a) <==> SplitCombines(b)
    ensures FusionCombines(a) <==> FusionCombines(b)
  {
  }

  lemma SameInterval(a: (string, string) -> Json, b: (string, string) -> Json)
    requires forall group, leaf :: a(group, leaf) == b(group, leaf)
    ensures IntervalCombines(a) <==> IntervalCombines(b)
  {
  }

  lemma SameAlarms(a: (string, string) -> Json, b: (string, string) -> Json)
    requires forall group, leaf :: a(group, leaf) == b(group, leaf)
    ensures AlarmsCombine(a) <==> AlarmsCombine(b)
  {
  }

  lemma EffectiveCombines(shared: Fields, override: Fields)
    requires HasShape(shared) && Fits(Object(shared), Object(override))
    ensures Combines(At(Effective(shared, override))) <==> Combines(Over(shared, override))
  {
    hide HasShape, Fits, Effective, Over, LeafAt, SplitCombines, IntervalCombines, FusionCombines, AlarmsCombine;
    var at, over := At(Effective(shared, override)), Over(shared, override);
    forall group, leaf ensures at(group, leaf) == over(group, leaf) {
      EffectiveLeaf(shared, override, group, leaf);
    }
    SameSplit(at, over);
    SameInterval(at, over);
    SameAlarms(at, over);
  }

  lemma EffectiveAdmitted(shared: Fields, override: Fields)
    requires HasShape(shared) && LeavesAdmitted(shared) && Fits(Object(shared), Object(override))
    ensures LeavesAdmitted(Effective(shared, override)) <==> LeavesAdmitted(override)
  {
    hide SPEC, GroupAdmitted, GroupHasShape;
    var merged := Effective(shared, override);
    forall group | group in SPEC
      ensures GroupAdmitted(SPEC[group], merged[group])
        <==> group !in override || GroupAdmitted(SPEC[group], override[group])
    {
      if group in override {
        GroupMergedAdmitted(SPEC[group], shared[group], override[group]);
      }
    }
  }

  lemma GroupMergedAdmitted(spec: map<string, FieldSpec>, base: Json, override: Json)
    requires GroupHasShape(spec, base) && GroupAdmitted(spec, base) && Fits(base, override)
    ensures GroupAdmitted(spec, Merged(base, override)) <==> GroupAdmitted(spec, override)
  {
    hide Admits;
    GroupMerges(spec, base, override);
  }

  /** What the Worker asks of an accepted profile beyond the admission, read off the shared tree and the overrides. */
  ghost predicate Suits(shared: Fields, agents: seq<Entry>) {
    && LeavesAdmitted(shared) && Combines(At(shared))
    && forall k :: 0 <= k < |agents| ==> EntrySuits(shared, agents[k].parameters)
  }

  ghost predicate EntrySuits(shared: Fields, override: Fields) {
    LeavesAdmitted(override) && Combines(Over(shared, override))
  }

  /**
   The Worker prepares an accepted profile exactly when the shared leaves and the overridden ones are in the table's
   bounds, and the shared tree and what each Agent works with combine.
   */
  lemma AcceptedProfilePreparesExactlyWhen(d: Document, reference: Fields, referenceAgents: seq<Json>, shared: Fields,
                                           agents: seq<AgentOverride>, profile: Profile)
    requires Acceptable(d, reference, referenceAgents, Some(shared), agents) && IsProfile(shared, agents, profile)
    requires HasShape(reference)
    ensures Prepares(shared, profile.agents) <==> Suits(shared, profile.agents)
  {
    hide Acceptable, HasShape, FieldsKeepPromise, IsValidated, LeavesAdmitted, Combines, At, Over, Fits, Merged,
      IsEntry, Effective, Agents;
    ProfileTrees(shared, agents, profile);
    SharedKeepsPromise(d, reference, referenceAgents, shared, agents);
    PromiseHasShape(d, reference, shared);
    ValidatedExactlyWhen(shared);
    forall k | 0 <= k < 3 && LeavesAdmitted(shared)
      ensures EntryPrepares(shared, profile.agents[k].parameters) <==> EntrySuits(shared, profile.agents[k].parameters)
    {
      var override := profile.agents[k].parameters;
      AcceptedProfilesMerge(d, reference, referenceAgents, shared, agents, profile, k);
      PromiseHasShape(d, reference, Effective(shared, override));
      ValidatedExactlyWhen(Effective(shared, override));
      EffectiveAdmitted(shared, override);
      EffectiveCombines(shared, override);
    }
  }

  lemma SharedKeepsPromise(d: Document, reference: Fields, referenceAgents: seq<Json>, shared: Fields,
                           agents: seq<AgentOverride>)
    requires Acceptable(d, reference, referenceAgents, Some(shared), agents)
    ensures FieldsKeepPromise(d, reference, shared)
  {
    hide CompleteValue, FieldsKeepPromise, SparseFields, Segments, TOPOLOGY, SHARED;
    assert OverrideFits(d, reference, agents[0]);
    EffectiveTree(d, reference, shared, agents[0].agent, agents[0].parameters.value);
  }

  // ---------------------------------------------------------------- accepted and refused

  const NOTICE_PATH := "alarms.notice_count"

  function NoticeOverride(n: int): Fields {
    map["alarms" := Object(map["notice_count" := Number(n as real)])]
  }

  /** The constraint the platform ships for the count: any whole number. */
  const ANY_WHOLE := Constraint(IntegerKind, true, false, None, None, None)

  lemma NoticePath()
    ensures PathOf(".alarms", "notice_count") == NOTICE_PATH
  {
    assert Child(".alarms", "notice_count") == "." + NOTICE_PATH;
  }

  lemma NoticeAdmitted(d: Document, reference: Fields, agent: int, n: int)
    requires 1 <= agent <= 3 && NOTICE_PATH in d.paths && d.paths[NOTICE_PATH] == ANY_WHOLE
    requires "alarms" in reference && reference["alarms"].Object? && "notice_count" in reference["alarms"].fields
    requires !reference["alarms"].fields["notice_count"].Object?
    ensures SparseFields(d, AgentField(agent), reference, NoticeOverride(n))
  {
    hide SparseLeafCode, AgentField, PathOf, NOTICE_PATH;
    var v, field := Number(n as real), Child(AgentField(agent), "alarms");
    NoticePath();
    assert field == AgentField(agent) + ".alarms";
    SparseLeafExactlyWhen(d, agent, ".alarms", "notice_count", v);
    hide Child, IsSuffix;
    assert SparseValue(d, field, "notice_count", reference["alarms"].fields["notice_count"], v);
    assert SparseValue(d, AgentField(agent), "alarms", reference["alarms"], NoticeOverride(n)["alarms"]);
  }

  lemma TableHasNotice()
    ensures "alarms" in SPEC && "notice_count" in SPEC["alarms"]
  {
  }

  function Raised(agents: seq<AgentOverride>, i: nat, n: int): seq<AgentOverride>
    requires i < |agents|
  {
    agents[i := agents[i].(parameters := Some(NoticeOverride(n)))]
  }

  lemma RaisedFits(d: Document, reference: Fields, agents: seq<AgentOverride>, i: nat, n: int)
    requires AgentsFit(d, reference, agents) && i < 3
    requires 1 <= agents[i].agent <= 3 ==> SparseFields(d, AgentField(agents[i].agent), reference, NoticeOverride(n))
    ensures AgentsFit(d, reference, Raised(agents, i, n))
  {
    hide SparseFields, AgentField, NoticeOverride, TOPOLOGY;
    forall k | 0 <= k < 3 ensures OverrideFits(d, reference, Raised(agents, i, n)[k]) {
      assert OverrideFits(d, reference, agents[k]);
    }
  }

  lemma ReferenceHasNotice(reference: Fields)
    requires HasShape(reference)
    ensures "alarms" in reference && reference["alarms"].Object? && "notice_count" in reference["alarms"].fields
    ensures !reference["alarms"].fields["notice_count"].Object?
  {
    TableHasNotice();
    hide SPEC;
    assert GroupHasShape(SPEC["alarms"], reference["alarms"]);
  }

  /**
   The admission accepts what the Worker refuses: with the constraints the platform ships, any accepted profile stays
   accepted when one Agent's override becomes a notice count above the shared warning count, and is then refused.
   */
  lemma NoticeAboveWarningIsRefused(d: Document, reference: Fields, referenceAgents: seq<Json>, shared: Fields,
                                    agents: seq<AgentOverride>, i: nat, n: int, profile: Profile)
    requires Acceptable(d, reference, referenceAgents, Some(shared), agents) && HasShape(reference) && i < 3
    requires NOTICE_PATH in d.paths && d.paths[NOTICE_PATH] == ANY_WHOLE
    requires n as real > Amount(LeafAt(shared, "alarms", "warning_count"))
    requires IsProfile(shared, Raised(agents, i, n), profile)
    ensures Acceptable(d, reference, referenceAgents, Some(shared), Raised(agents, i, n))
    ensures !Prepares(shared, profile.agents)
  {
    ReferenceHasNotice(reference);
    if 1 <= agents[i].agent <= 3 {
      NoticeAdmitted(d, reference, agents[i].agent, n);
    }
    hide SPEC, HasShape, CompleteValue, SparseFields, Segments, AgentField, TOPOLOGY, NoticeOverride, NOTICE_PATH,
      ANY_WHOLE, Combines, LeavesAdmitted, Prepares;
    RaisedFits(d, reference, agents, i, n);
    AcceptedProfilePreparesExactlyWhen(d, reference, referenceAgents, shared, Raised(agents, i, n), profile);
    NoticeDoesNotCombine(shared, n);
    assert OverrideFits(d, reference, agents[i]);
    EntryIsAt(Raised(agents, i, n), i, profile.agents[agents[i].agent - 1]);
    assert !EntrySuits(shared, profile.agents[agents[i].agent - 1].parameters);
  }

  lemma EntryIsAt(agents: seq<AgentOverride>, i: nat, entry: Entry)
    requires Distinct(agents) && i < |agents| && IsEntry(agents, agents[i].agent, entry)
    ensures agents[i].parameters == Some(entry.parameters)
  {
    hide TOPOLOGY;
  }

  lemma NoticeDoesNotCombine(shared: Fields, n: int)
    requires n as real > Amount(LeafAt(shared, "alarms", "warning_count"))
    ensures !Combines(Over(shared, NoticeOverride(n)))
  {
    var override := NoticeOverride(n)["alarms"].fields;
    assert "warning_count" != "notice_count";
    assert Over(shared, NoticeOverride(n))("alarms", "notice_count") == Number(n as real);
    assert Over(shared, NoticeOverride(n))("alarms", "warning_count") == LeafAt(shared, "alarms", "warning_count");
  }

  // ---------------------------------------------------------------- the reference as a profile

  /** Wherever a dot is not followed by a p, the marker cannot start. */
  lemma {:induction false} NoMarker(s: string, from: nat)
    requires from <= |s| && forall i :: from <= i < |s| - 1 && s[i] == '.' ==> s[i + 1] != 'p'
    ensures IndexOf(s, MARKER, from).None?
    decreases |s| - from
  {
    if MARKER <= s[from..] {
      MarkerStarts(s, from);
      assert false;
    }
    if from < |s| {
      NoMarker(s, from + 1);
    }
  }

  lemma MarkerStarts(s: string, from: nat)
    requires from <= |s| && MARKER <= s[from..]
    ensures from + 1 < |s| && s[from] == '.' && s[from + 1] == 'p'
  {
    assert s[from] == s[from..][0] == MARKER[0] && s[from + 1] == s[from..][1] == MARKER[1];
  }

  lemma FixedFieldsHaveNoMarker(path: string)
    requires path in FIXED
    ensures !Contains(SHARED + "." + path, MARKER)
  {
    var s := SHARED + "." + path;
    assert s[..17] == SHARED && s[17] == '.' && s[18..] == path;
    forall i | 0 <= i < |s| - 1 && s[i] == '.' ensures s[i + 1] != 'p' {
      if i < 17 {
        assert s[i] == SHARED[i];
      } else if i > 17 {
        assert s[i] == path[i - 18] && s[i + 1] == path[i - 17];
      }
    }
    NoMarker(s, 0);
  }

  /** The document covers the leaves of the value, with values that satisfy it, under the path of the key. */
  ghost predicate FitsUnder(d: Document, path: string, value: Json) {
    forall leafPath, leaf :: IsLeaf(path, value, leafPath, leaf) ==>
      leafPath in d.paths && Satisfies(d.paths[leafPath], leaf)
  }

  lemma {:induction false} ReferenceLeafFits(d: Document, suffix: string, key: string, value: Json)
    requires IsSuffix(suffix) && PathOf(suffix, key) != "" && FitsUnder(d, PathOf(suffix, key), value)
    requires forall path :: path in d.paths && !d.paths[path].editable ==> path in FIXED
    ensures CompleteValue(d, Child(SHARED + suffix, key), value, value)
    decreases value
  {
    var path := PathOf(suffix, key);
    DeeperField(SHARED, suffix, key);
    if value.Object? {
      forall k | k in value.fields
        ensures CompleteValue(d, Child(Child(SHARED + suffix, key), k), value.fields[k], value.fields[k])
      {
        DeeperPath(suffix, key, k);
        assert FitsUnder(d, Child(path, k), value.fields[k]) by {
          forall leafPath, leaf | IsLeaf(Child(path, k), value.fields[k], leafPath, leaf)
            ensures leafPath in d.paths && Satisfies(d.paths[leafPath], leaf)
          {
            assert IsLeaf(path, value, leafPath, leaf);
          }
        }
        ReferenceLeafFits(d, Child(suffix, key), k, value.fields[k]);
      }
    } else {
      hide SHARED, Child, MARKER, FIXED, Contains, Satisfies;
      assert IsLeaf(path, value, path, value);
      SharedPath(suffix, key);
      SharedField(suffix, key);
      if path in FIXED {
        FixedFieldsHaveNoMarker(path);
      }
    }
  }

  lemma DeeperPath(suffix: string, key: string, k: string)
    ensures PathOf(Child(suffix, key), k) == Child(PathOf(suffix, key), k)
    ensures IsSuffix(suffix) ==> IsSuffix(Child(suffix, key))
  {
  }

  lemma SharedField(suffix: string, key: string)
    requires IsSuffix(suffix)
    ensures Child(SHARED + suffix, key) == SHARED + "." + PathOf(suffix, key)
  {
    var tail := Child(suffix, key);
    hide SHARED;
    assert tail == "." + tail[1..];
  }

  /** A valid document admits the reference it was made for. */
  lemma ReferenceIsComplete(d: Document, reference: Fields)
    requires Covers(d, reference) && EveryValueFits(d, reference) && "" !in reference
    ensures CompleteValue(d, SHARED, Object(reference), Object(reference))
  {
    assert SHARED + "" == SHARED;
    hide SHARED, Satisfies;
    forall key | key in reference
      ensures CompleteValue(d, Child(SHARED, key), reference[key], reference[key])
    {
      assert PathOf("", key) == key;
      assert FitsUnder(d, key, reference[key]) by {
        forall path, leaf | IsLeaf(key, reference[key], path, leaf)
          ensures path in d.paths && Satisfies(d.paths[path], leaf)
        {
          assert IsLeaf("", Object(reference), path, leaf);
          assert HasLeaf("", Object(reference), path);
        }
      }
      ReferenceLeafFits(d, "", key, reference[key]);
    }
  }

  /** The three Agents, none of which overrides anything. */
  function NoOverrides(): seq<AgentOverride> {
    [AgentOverride(1, "", Some(map[])), AgentOverride(2, "", Some(map[])), AgentOverride(3, "", Some(map[]))]
  }

  /**
   For every document and reference the platform starts with, the reference itself, with no override, is an accepted
   profile.
   */
  lemma ReferenceIsAccepted(d: Document, reference: Fields, referenceAgents: seq<Json>)
    requires Covers(d, reference) && EveryValueFits(d, reference) && "" !in reference
    requires Segments(referenceAgents) == Some(TOPOLOGY)
    ensures Acceptable(d, reference, referenceAgents, Some(reference), NoOverrides())
  {
    hide Covers, EveryValueFits, CompleteValue, Segments, SHARED, AgentField;
    ReferenceIsComplete(d, reference);
    var agents := NoOverrides();
    forall i | 0 <= i < 3 ensures OverrideFits(d, reference, agents[i]) {
      assert SparseFields(d, AgentField(agents[i].agent), reference, map[]);
    }
  }

  /** The reference with a notice count of its own for Agent 1. */
  function NoticeProfile(reference: Fields, n: int): Profile {
    Profile(reference, [Entry(1, "EARLY", NoticeOverride(n)), Entry(2, "MIDDLE", map[]), Entry(3, "LATE", map[])])
  }

  lemma IsNoticeProfile(reference: Fields, n: int)
    ensures IsProfile(reference, Raised(NoOverrides(), 0, n), NoticeProfile(reference, n))
  {
    hide NoticeOverride;
    var agents, profile := Raised(NoOverrides(), 0, n), NoticeProfile(reference, n);
    forall k | 0 <= k < 3 ensures IsEntry(agents, k + 1, profile.agents[k]) {
      assert agents[k].agent == k + 1 && agents[k].parameters == Some(profile.agents[k].parameters);
    }
  }

  /** So such a profile exists for every document and reference of the shape the platform ships. */
  lemma AcceptedProfileIsRefused(d: Document, reference: Fields, referenceAgents: seq<Json>, n: int)
    requires Covers(d, reference) && EveryValueFits(d, reference) && HasShape(reference) && "" !in reference
    requires Segments(referenceAgents) == Some(TOPOLOGY)
    requires NOTICE_PATH in d.paths && d.paths[NOTICE_PATH] == ANY_WHOLE
    requires n as real > Amount(LeafAt(reference, "alarms", "warning_count"))
    ensures Acceptable(d, reference, referenceAgents, Some(reference), Raised(NoOverrides(), 0, n))
    ensures IsProfile(reference, Raised(NoOverrides(), 0, n), NoticeProfile(reference, n))
    ensures !Prepares(reference, NoticeProfile(reference, n).agents)
  {
    hide Covers, EveryValueFits, HasShape, Segments, TOPOLOGY, NOTICE_PATH, ANY_WHOLE, Acceptable, IsProfile, Prepares,
      NoticeOverride, LeafAt;
    ReferenceIsAccepted(d, reference, referenceAgents);
    IsNoticeProfile(reference, n);
    NoticeAboveWarningIsRefused(d, reference, referenceAgents, reference, NoOverrides(), 0, n,
                                NoticeProfile(reference, n));
  }
}
