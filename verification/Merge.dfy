/**
 The Worker's side of a profile: each Agent's sparse override is merged onto the complete shared tree. Whatever the
 platform's admission accepts can be merged, and the merged trees keep every promise of the admission.
 */
module Merge {
  import opened Outcomes
  import opened Parameters

  /** The merge fits: the override has only keys of the base, and objects where the base has objects. */
  ghost predicate Fits(base: Json, override: Json)
    decreases base
  {
    base.Object? ==>
      && override.Object?
      && override.fields.Keys <= base.fields.Keys
      && forall key :: key in override.fields ==> Fits(base.fields[key], override.fields[key])
  }

  /** The merged tree: the override where it says something, the base elsewhere. */
  ghost function Merged(base: Json, override: Json): Json
    requires Fits(base, override)
    decreases base
  {
    if !base.Object? then override
    else
      Object(map key | key in base.fields ::
        if key in override.fields then Merged(base.fields[key], override.fields[key]) else base.fields[key])
  }

  /** A copy, level by level; the source merges an empty override into every untouched group. */
  lemma {:induction false} MergingNothing(base: Json)
    requires base.Object?
    ensures Fits(base, Object(map[])) && Merged(base, Object(map[])) == base
  {
  }

  /** Recursively, in the base's key order; none stands for the contract failure. */
  method DeepMerge(base: Fields, override: Fields) returns (r: Option<Fields>)
    ensures r.Some? <==> Fits(Object(base), Object(override))
    ensures r.Some? ==> Object(r.value) == Merged(Object(base), Object(override))
    decreases Object(base)
  {
    var unknown := FindUnknown(base, override);
    if unknown {
      return None;
    }
    var remaining := base.Keys;
    var merged: Fields := map[];
    while remaining != {}
      invariant remaining <= base.Keys && merged.Keys == base.Keys - remaining
      invariant forall key :: key in merged && key in override ==> Fits(base[key], override[key])
      invariant forall key :: key in merged ==>
        merged[key] == if key in override then Merged(base[key], override[key]) else base[key]
    {
      var key :| key in remaining;
      if base[key].Object? && (key !in override || override[key].Object?) {
        assert Object(base[key].fields) == base[key];
        MergingNothing(base[key]);
        var nested := DeepMerge(base[key].fields, if key in override then override[key].fields else map[]);
        if nested.None? {
          return None;
        }
        merged := merged[key := Object(nested.value)];
      } else if key in override {
        if base[key].Object? {
          return None;
        }
        merged := merged[key := override[key]];
      } else {
        merged := merged[key := base[key]];
      }
      remaining := remaining - {key};
    }
    return Some(merged);
  }

  // ---------------------------------------------------------------- looking values up

  /** The value under a trail of keys. */
  function Lookup(tree: Json, trail: seq<string>): Option<Json> {
    if trail == [] then Some(tree)
    else if tree.Object? && trail[0] in tree.fields then Lookup(tree.fields[trail[0]], trail[1..])
    else None
  }

  /**
   Wherever the base has a leaf, the merged tree has the override's value there if it gives one, and the base's
   otherwise.
   */
  lemma {:induction false} MergedLooksUp(base: Json, override: Json, trail: seq<string>)
    requires Fits(base, override)
    ensures Lookup(base, trail).Some? && !Lookup(base, trail).value.Object? ==>
      Lookup(Merged(base, override), trail)
      == if Lookup(override, trail).Some? then Lookup(override, trail) else Lookup(base, trail)
    decreases base
  {
    if trail != [] && base.Object? && trail[0] in base.fields {
      if trail[0] in override.fields {
        MergedLooksUp(base.fields[trail[0]], override.fields[trail[0]], trail[1..]);
      }
    }
  }

  // ---------------------------------------------------------------- the promise of the admission

  /**
   A tree keeps the promise: it has exactly the reference's keys, and each leaf is a known path whose constraint its
   value satisfies; a fixed leaf has its reference value.
   */
  ghost predicate KeepsPromise(d: Document, suffix: string, key: string, reference: Json, v: Json)
    decreases reference
  {
    match reference
    case Object(fields) =>
      && v.Object?
      && v.fields.Keys == fields.Keys
      && forall k :: k in fields ==> KeepsPromise(d, Child(suffix, key), k, fields[k], v.fields[k])
    case _ => LeafKeepsPromise(d, PathOf(suffix, key), reference, v)
  }

  predicate LeafKeepsPromise(d: Document, path: string, reference: Json, v: Json) {
    && path in d.paths
    && Satisfies(d.paths[path], v)
    && !v.Object?
    && (!d.paths[path].editable ==> v == reference)
  }

  ghost predicate FieldsKeepPromise(d: Document, reference: Fields, v: Fields) {
    v.Keys == reference.Keys && forall key :: key in reference ==> KeepsPromise(d, "", key, reference[key], v[key])
  }

  lemma ScalarsSatisfy(c: Constraint, v: Json)
    requires Satisfies(c, v)
    ensures !v.Object?
  {
  }

  lemma CompleteLeaf(d: Document, suffix: string, key: string, reference: Json, v: Json)
    requires IsSuffix(suffix) && CompleteLeafCode(d, Child(SHARED + suffix, key), reference, v).None?
    ensures LeafKeepsPromise(d, PathOf(suffix, key), reference, v)
  {
    SharedPath(suffix, key);
    hide SHARED, Child, PathOf, TrimPrefix, Contains, Satisfies;
    ScalarsSatisfy(d.paths[PathOf(suffix, key)], v);
  }

  lemma {:induction false} CompleteKeepsPromise(d: Document, suffix: string, key: string, reference: Json, v: Json)
    requires IsSuffix(suffix) && CompleteValue(d, Child(SHARED + suffix, key), reference, v)
    ensures KeepsPromise(d, suffix, key, reference, v)
    decreases reference
  {
    if reference.Object? {
      AgentPath(1, suffix, key);
      DeeperField(SHARED, suffix, key);
      hide SHARED, Child, IsSuffix;
      forall k | k in reference.fields
        ensures KeepsPromise(d, Child(suffix, key), k, reference.fields[k], v.fields[k])
      {
        CompleteKeepsPromise(d, Child(suffix, key), k, reference.fields[k], v.fields[k]);
      }
    } else {
      CompleteLeaf(d, suffix, key, reference, v);
    }
  }

  lemma SparseLeaf(d: Document, agent: int, suffix: string, key: string, reference: Json, v: Json)
    requires 1 <= agent <= 3 && IsSuffix(suffix) && SparseLeafCode(d, AgentField(agent) + suffix, key, v).None?
    ensures LeafKeepsPromise(d, PathOf(suffix, key), reference, v)
  {
    SparseLeafExactlyWhen(d, agent, suffix, key, v);
    hide SparseLeafCode, PathOf, Satisfies;
    ScalarsSatisfy(d.paths[PathOf(suffix, key)], v);
  }

  /** Merging an admitted override onto a tree that keeps the promise succeeds, and the merged tree keeps it too. */
  lemma {:induction false} MergedKeepsPromise(d: Document, agent: int, suffix: string, key: string, reference: Json,
                                              base: Json, override: Json)
    requires 1 <= agent <= 3 && IsSuffix(suffix)
    requires KeepsPromise(d, suffix, key, reference, base)
    requires SparseValue(d, AgentField(agent) + suffix, key, reference, override)
    ensures Fits(base, override) && KeepsPromise(d, suffix, key, reference, Merged(base, override))
    decreases reference
  {
    if reference.Object? {
      AgentPath(agent, suffix, key);
      DeeperField(AgentField(agent), suffix, key);
      hide AgentField, Child, IsSuffix;
      forall k | k in override.fields
        ensures Fits(base.fields[k], override.fields[k])
        ensures KeepsPromise(d, Child(suffix, key), k, reference.fields[k], Merged(base.fields[k], override.fields[k]))
      {
        MergedKeepsPromise(d, agent, Child(suffix, key), k, reference.fields[k], base.fields[k], override.fields[k]);
      }
    } else {
      hide AgentField, PathOf, SparseLeafCode, Satisfies;
      SparseLeaf(d, agent, suffix, key, reference, override);
    }
  }

  lemma EffectiveTree(d: Document, reference: Fields, shared: Fields, agent: int, override: Fields)
    requires 1 <= agent <= 3
    requires CompleteValue(d, SHARED, Object(reference), Object(shared))
    requires SparseFields(d, AgentField(agent), reference, override)
    ensures FieldsKeepPromise(d, reference, shared)
    ensures Fits(Object(shared), Object(override))
    ensures FieldsKeepPromise(d, reference, Merged(Object(shared), Object(override)).fields)
  {
    assert SHARED + "" == SHARED && AgentField(agent) + "" == AgentField(agent) && IsSuffix("");
    hide SHARED, AgentField, Child, IsSuffix;
    forall key | key in reference ensures KeepsPromise(d, "", key, reference[key], shared[key]) {
      CompleteKeepsPromise(d, "", key, reference[key], shared[key]);
    }
    hide CompleteValue;
    forall key | key in override
      ensures Fits(shared[key], override[key])
      ensures KeepsPromise(d, "", key, reference[key], Merged(shared[key], override[key]))
    {
      MergedKeepsPromise(d, agent, "", key, reference[key], shared[key], override[key]);
    }
  }

  /**
   End to end: for every accepted profile, the shared tree merges with each Agent's override, and each effective tree
   has exactly the reference's leaves, satisfies every leaf constraint and keeps the fixed leaves as they are.
   */
  lemma AcceptedProfilesMerge(d: Document, reference: Fields, referenceAgents: seq<Json>, shared: Fields,
                              agents: seq<AgentOverride>, profile: Profile, k: nat)
    requires Acceptable(d, reference, referenceAgents, Some(shared), agents) && IsProfile(shared, agents, profile)
      && k < 3
    ensures var base, override := profile.shared, profile.agents[k].parameters;
      && Fits(Object(base), Object(override))
      && FieldsKeepPromise(d, reference, Merged(Object(base), Object(override)).fields)
  {
    hide CompleteValue, SparseFields, FieldsKeepPromise, Fits, Merged, TOPOLOGY, Segments;
    var entry := profile.agents[k];
    assert IsEntry(agents, k + 1, entry);
    var i :| 0 <= i < |agents| && agents[i].agent == k + 1 && agents[i].parameters == Some(entry.parameters);
    assert OverrideFits(d, reference, agents[i]);
    EffectiveTree(d, reference, shared, k + 1, entry.parameters);
  }

  /** A promise kept means that both topology leaves are exactly what the reference says. */
  lemma {:induction false} FixedLeavesStay(d: Document, suffix: string, key: string, reference: Json, v: Json,
                                           trail: seq<string>)
    requires KeepsPromise(d, suffix, key, reference, v)
    requires Lookup(reference, trail).Some? && !Lookup(reference, trail).value.Object?
    requires var path := TrailPath(suffix, key, trail); path in d.paths && !d.paths[path].editable
    ensures Lookup(v, trail) == Lookup(reference, trail)
    decreases trail
  {
    hide Child, PathOf, Satisfies;
    if trail != [] {
      FixedLeavesStay(d, Child(suffix, key), trail[0], reference.fields[trail[0]], v.fields[trail[0]], trail[1..]);
    }
  }

  /** The dotted path of the leaf at the end of a trail. */
  function TrailPath(suffix: string, key: string, trail: seq<string>): string
    decreases trail
  {
    if trail == [] then PathOf(suffix, key) else TrailPath(Child(suffix, key), trail[0], trail[1..])
  }

  /** However the other Agents' overrides differ, an Agent with the same override has the same effective tree. */
  lemma OverridesAreIndependent(shared: Fields, a: seq<AgentOverride>, b: seq<AgentOverride>, p: Profile, q: Profile,
                                k: nat, i: nat)
    requires IsProfile(shared, a, p) && IsProfile(shared, b, q) && Distinct(a) && Distinct(b) && k < 3
    requires i < |a| && i < |b| && a[i] == b[i] && a[i].agent == k + 1
    requires Fits(Object(shared), Object(p.agents[k].parameters))
    ensures p.agents[k] == q.agents[k]
    ensures Merged(Object(p.shared), Object(p.agents[k].parameters))
      == Merged(Object(q.shared), Object(q.agents[k].parameters))
  {
    hide TOPOLOGY, Merged, Fits;
    assert IsEntry(a, k + 1, p.agents[k]) && IsEntry(b, k + 1, q.agents[k]);
    var x :| 0 <= x < |a| && a[x].agent == k + 1 && a[x].parameters == Some(p.agents[k].parameters);
    var y :| 0 <= y < |b| && b[y].agent == k + 1 && b[y].parameters == Some(q.agents[k].parameters);
    assert x == i && y == i;
  }
}
