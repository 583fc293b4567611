/**
 Admission of CUSTOM parameter profiles: a complete shared tree and three sparse overrides are checked against the
 reference tree and a document of constraints keyed by dotted leaf paths.
 */
module Parameters {
  import opened Outcomes

  // ---------------------------------------------------------------- trees and constraints

  type Fields = map<string, Json>

  datatype Json =
    | Null | Bool(flag: bool) | Number(number: real) | Text(text: string) | List(items: seq<Json>)
    | Object(fields: Fields)

  datatype Kind = IntegerKind | NumberKind | BooleanKind | StringKind | UnknownKind

  datatype Constraint = Constraint(kind: Kind, editable: bool, nullable: bool, minimum: Option<real>,
                                   maximum: Option<real>, allowed: Option<seq<Json>>)

  datatype Document = Document(versionMatches: bool, paths: map<string, Constraint>)

  /** The stable codes of a rejection; Panic stands for a slice out of range. */
  datatype Code = RequestInvalid | NotAllowed | OutOfRange | Misconfigured | Panic

  datatype Checked<+T> = Valid(value: T) | Rejected(code: Code)

  function Get(fields: Fields, key: string): Option<Json> {
    if key in fields then Some(fields[key]) else None
  }

  predicate IsNumeric(c: Constraint, v: real) {
    && (c.kind == IntegerKind ==> v == v.Floor as real)
    && (c.minimum.Some? ==> v >= c.minimum.value)
    && (c.maximum.Some? ==> v <= c.maximum.value)
  }

  predicate Satisfies(c: Constraint, v: Json) {
    if v == Null then c.nullable
    else
      && (match c.kind
          case BooleanKind => v.Bool?
          case StringKind => v.Text?
          case UnknownKind => false
          case _ => v.Number? && IsNumeric(c, v.number))
      && (c.allowed.Some? ==> v in c.allowed.value)
  }

  // ---------------------------------------------------------------- dotted fields

  const SHARED := "shared_parameters"
  const MARKER := ".parameters"

  function Child(field: string, key: string): string {
    field + "." + key
  }

  function TrimPrefix(s: string, prefix: string): string {
    if prefix <= s then s[|prefix|..] else s
  }

  /** Where the marker first occurs at or after a position. */
  function IndexOf(s: string, marker: string, from: nat): Option<nat>
    requires from <= |s|
    decreases |s| - from
  {
    if marker <= s[from..] then Some(from)
    else if from == |s| then None
    else IndexOf(s, marker, from + 1)
  }

  predicate Contains(s: string, marker: string) {
    IndexOf(s, marker, 0).Some?
  }

  /** Everything up to one past the marker; none when that is past the end, where the slice panics. */
  function AgentPrefix(field: string): Option<string> {
    match IndexOf(field, MARKER, 0)
    case None => Some("")
    case Some(index) =>
      if index + |MARKER| + 1 <= |field| then Some(field[..index + |MARKER| + 1]) else None
  }

  // ---------------------------------------------------------------- leaves

  function LeafCode(d: Document, path: string, field: string, v: Json): Option<Code> {
    if path !in d.paths then Some(NotAllowed)
    else if !d.paths[path].editable && Contains(field, MARKER) then Some(NotAllowed)
    else if !Satisfies(d.paths[path], v) then Some(OutOfRange)
    else None
  }

  function CompleteLeafCode(d: Document, field: string, reference: Json, v: Json): Option<Code> {
    var path := TrimPrefix(field, SHARED + ".");
    var code := LeafCode(d, path, field, v);
    if code.Some? then code
    else if path in d.paths && !d.paths[path].editable && v != reference then Some(NotAllowed)
    else None
  }

  function SparseLeafCode(d: Document, field: string, key: string, v: Json): Option<Code> {
    match AgentPrefix(field)
    case None => Some(Panic)
    case Some(prefix) => LeafCode(d, TrimPrefix(Child(field, key), prefix), Child(field, key), v)
  }

  // ---------------------------------------------------------------- what is accepted

  /** A complete value: the reference's keys and no others, every leaf admitted, fixed leaves as in the reference. */
  ghost predicate CompleteValue(d: Document, field: string, reference: Json, v: Json)
    decreases reference
  {
    match reference
    case Object(fields) =>
      && v.Object?
      && v.fields.Keys == fields.Keys
      && forall key :: key in fields ==> CompleteValue(d, Child(field, key), fields[key], v.fields[key])
    case _ => CompleteLeafCode(d, field, reference, v).None?
  }

  /** A sparse value: any of the reference's keys, every leaf admitted. */
  ghost predicate SparseValue(d: Document, field: string, key: string, reference: Json, v: Json)
    decreases reference
  {
    match reference
    case Object(fields) =>
      && v.Object?
      && v.fields.Keys <= fields.Keys
      && forall k :: k in v.fields ==> SparseValue(d, Child(field, key), k, fields[k], v.fields[k])
    case _ => SparseLeafCode(d, field, key, v).None?
  }

  ghost predicate SparseFields(d: Document, field: string, reference: Fields, actual: Fields) {
    && actual.Keys <= reference.Keys
    && forall key :: key in actual ==> SparseValue(d, field, key, reference[key], actual[key])
  }

  // ---------------------------------------------------------------- why something is rejected

  /** A code the complete check may reject with. Unknown keys are looked for before anything else. */
  ghost predicate CompleteFault(d: Document, field: string, reference: Json, v: Json, code: Code)
    decreases reference
  {
    match reference
    case Object(fields) =>
      if !v.Object? then code == OutOfRange
      else if !(v.fields.Keys <= fields.Keys) then code == NotAllowed
      else
        || (code == RequestInvalid && v.fields.Keys != fields.Keys)
        || exists key :: key in fields && key in v.fields
             && CompleteFault(d, Child(field, key), fields[key], v.fields[key], code)
    case _ => CompleteLeafCode(d, field, reference, v) == Some(code)
  }

  ghost predicate SparseFault(d: Document, field: string, key: string, reference: Json, v: Json, code: Code)
    decreases reference
  {
    match reference
    case Object(fields) =>
      if !v.Object? then code == OutOfRange
      else
        || (code == NotAllowed && !(v.fields.Keys <= fields.Keys))
        || exists k :: k in fields && k in v.fields
             && SparseFault(d, Child(field, key), k, fields[k], v.fields[k], code)
    case _ => SparseLeafCode(d, field, key, v) == Some(code)
  }

  ghost predicate SparseFieldsFault(d: Document, field: string, reference: Fields, actual: Fields, code: Code) {
    || (code == NotAllowed && !(actual.Keys <= reference.Keys))
    || exists key :: key in reference && key in actual && SparseFault(d, field, key, reference[key], actual[key], code)
  }

  // ---------------------------------------------------------------- the two checks

  /** The keys of the tree that the reference does not know are looked for first. */
  method FindUnknown(reference: Fields, actual: Fields) returns (found: bool)
    ensures found <==> !(actual.Keys <= reference.Keys)
  {
    var remaining := actual.Keys;
    while remaining != {}
      invariant remaining <= actual.Keys
      invariant forall key :: key in actual && key !in remaining ==> key in reference
    {
      var key :| key in remaining;
      if key !in reference {
        return true;
      }
      remaining := remaining - {key};
    }
    return false;
  }

  /** Walks the reference; the order of its keys is the map's. What is accepted comes back unchanged. */
  method ValidateCompleteObject(d: Document, field: string, reference: Fields, actual: Fields)
    returns (r: Checked<Fields>)
    ensures r.Valid? <==> CompleteValue(d, field, Object(reference), Object(actual))
    ensures r.Valid? ==> r.value == actual
    ensures r.Rejected? ==> CompleteFault(d, field, Object(reference), Object(actual), r.code)
    decreases Object(reference), 0
  {
    hide CompleteLeafCode, Child;
    var unknown := FindUnknown(reference, actual);
    if unknown {
      return Rejected(NotAllowed);
    }
    var remaining := reference.Keys;
    var completed: Fields := map[];
    while remaining != {}
      invariant remaining <= reference.Keys
      invariant completed.Keys == reference.Keys - remaining && completed.Keys <= actual.Keys
      invariant forall key :: key in completed ==> completed[key] == actual[key]
      invariant forall key :: key in completed ==> CompleteValue(d, Child(field, key), reference[key], actual[key])
    {
      var key :| key in remaining;
      if key !in actual {
        return Rejected(RequestInvalid);
      }
      var value := ValidateCompleteValue(d, Child(field, key), reference[key], actual[key]);
      if value.Rejected? {
        return Rejected(value.code);
      }
      completed := completed[key := value.value];
      remaining := remaining - {key};
    }
    assert completed.Keys == actual.Keys;
    return Valid(completed);
  }

  method ValidateCompleteValue(d: Document, field: string, reference: Json, actual: Json) returns (r: Checked<Json>)
    ensures r.Valid? <==> CompleteValue(d, field, reference, actual)
    ensures r.Valid? ==> r.value == actual
    ensures r.Rejected? ==> CompleteFault(d, field, reference, actual, r.code)
    decreases reference, 1
  {
    hide CompleteLeafCode, Child;
    if reference.Object? {
      if !actual.Object? {
        return Rejected(OutOfRange);
      }
      assert Object(reference.fields) == reference;
      var nested := ValidateCompleteObject(d, field, reference.fields, actual.fields);
      match nested
      case Valid(fields) => return Valid(Object(fields));
      case Rejected(code) => return Rejected(code);
    }
    var code := CompleteLeafCode(d, field, reference, actual);
    if code.Some? {
      return Rejected(code.value);
    }
    return Valid(actual);
  }

  method ValidateSparseObject(d: Document, field: string, reference: Fields, actual: Fields)
    returns (r: Checked<Fields>)
    ensures r.Valid? <==> SparseFields(d, field, reference, actual)
    ensures r.Valid? ==> r.value == actual
    ensures r.Rejected? ==> SparseFieldsFault(d, field, reference, actual, r.code)
    decreases Object(reference), 0
  {
    hide SparseLeafCode, Child;
    var remaining := actual.Keys;
    var result: Fields := map[];
    while remaining != {}
      invariant remaining <= actual.Keys
      invariant result.Keys == actual.Keys - remaining && result.Keys <= reference.Keys
      invariant forall key :: key in result ==> result[key] == actual[key]
      invariant forall key :: key in result ==> SparseValue(d, field, key, reference[key], actual[key])
    {
      var key :| key in remaining;
      if key !in reference {
        return Rejected(NotAllowed);
      }
      var value := ValidateSparseValue(d, field, key, reference[key], actual[key]);
      if value.Rejected? {
        return Rejected(value.code);
      }
      result := result[key := value.value];
      remaining := remaining - {key};
    }
    assert result.Keys == actual.Keys;
    return Valid(result);
  }

  method ValidateSparseValue(d: Document, field: string, key: string, reference: Json, actual: Json)
    returns (r: Checked<Json>)
    ensures r.Valid? <==> SparseValue(d, field, key, reference, actual)
    ensures r.Valid? ==> r.value == actual
    ensures r.Rejected? ==> SparseFault(d, field, key, reference, actual, r.code)
    decreases reference, 1
  {
    hide SparseLeafCode, Child;
    if reference.Object? {
      if !actual.Object? {
        return Rejected(OutOfRange);
      }
      assert Object(reference.fields) == reference;
      var nested := ValidateSparseObject(d, Child(field, key), reference.fields, actual.fields);
      match nested
      case Valid(fields) => return Valid(Object(fields));
      case Rejected(code) => return Rejected(code);
    }
    var code := SparseLeafCode(d, field, key, actual);
    if code.Some? {
      return Rejected(code.value);
    }
    return Valid(actual);
  }

  /** Nothing acceptable has a fault. */
  lemma {:induction false} CompleteHasNoFault(d: Document, field: string, reference: Json, v: Json, code: Code)
    requires CompleteValue(d, field, reference, v)
    ensures !CompleteFault(d, field, reference, v, code)
    decreases reference
  {
    hide CompleteLeafCode, Child;
    if reference.Object? {
      forall key | key in reference.fields
        ensures !CompleteFault(d, Child(field, key), reference.fields[key], v.fields[key], code)
      {
        CompleteHasNoFault(d, Child(field, key), reference.fields[key], v.fields[key], code);
      }
    }
  }

  lemma {:induction false} SparseHasNoFault(d: Document, field: string, key: string, reference: Json, v: Json,
                                            code: Code)
    requires SparseValue(d, field, key, reference, v)
    ensures !SparseFault(d, field, key, reference, v, code)
    decreases reference
  {
    hide SparseLeafCode, Child;
    if reference.Object? {
      forall k | k in v.fields
        ensures !SparseFault(d, Child(field, key), k, reference.fields[k], v.fields[k], code)
      {
        SparseHasNoFault(d, Child(field, key), k, reference.fields[k], v.fields[k], code);
      }
    }
  }

  // ---------------------------------------------------------------- the reference

  const FIXED: set<string> := {"split.agent_count", "global_surrogate.leave_one_out"}

  function Join(prefix: string, key: string): string {
    if prefix == "" then key else Child(prefix, key)
  }

  /** The tree has this leaf under this flattened path. */
  ghost predicate IsLeaf(prefix: string, value: Json, path: string, leaf: Json)
    decreases value
  {
    match value
    case Object(fields) => exists key :: key in fields && IsLeaf(Join(prefix, key), fields[key], path, leaf)
    case _ => path == prefix && leaf == value
  }

  ghost predicate HasLeaf(prefix: string, value: Json, path: string) {
    exists leaf :: IsLeaf(prefix, value, path, leaf)
  }

  ghost predicate NoEmptyGroup(value: Json) {
    value.Object? ==> value.fields != map[] && forall key :: key in value.fields ==> NoEmptyGroup(value.fields[key])
  }

  /** What the leaves collected so far may be: earlier ones, and leaves of the value. */
  ghost predicate Collected(prefix: string, value: Json, earlier: Fields, leaves: Fields) {
    && (forall path :: path in leaves <==> path in earlier || HasLeaf(prefix, value, path))
    && (forall path :: path in leaves ==>
         (path in earlier && leaves[path] == earlier[path]) || IsLeaf(prefix, value, path, leaves[path]))
  }

  /** The part of an object already walked. */
  ghost function Walked(fields: Fields, remaining: set<string>): Fields {
    map key | key in fields && key !in remaining :: fields[key]
  }

  method FlattenReference(prefix: string, value: Json, earlier: Fields) returns (leaves: Option<Fields>)
    ensures leaves.Some? <==> NoEmptyGroup(value)
    ensures leaves.Some? ==> Collected(prefix, value, earlier, leaves.value)
    decreases value
  {
    hide Join, Collected;
    if !value.Object? {
      OneLeaf(prefix, value, earlier);
      return Some(earlier[prefix := value]);
    }
    if value.fields == map[] {
      return None;
    }
    var remaining := value.fields.Keys;
    var collected := earlier;
    NothingCollected(prefix, value.fields, earlier);
    while remaining != {}
      invariant remaining <= value.fields.Keys
      invariant forall key :: key in value.fields && key !in remaining ==> NoEmptyGroup(value.fields[key])
      invariant Collected(prefix, Object(Walked(value.fields, remaining)), earlier, collected)
    {
      var key :| key in remaining;
      var nested := FlattenReference(Join(prefix, key), value.fields[key], collected);
      if nested.None? {
        return None;
      }
      OneMoreCollected(prefix, value.fields, remaining, key, earlier, collected, nested.value);
      collected := nested.value;
      remaining := remaining - {key};
    }
    assert Walked(value.fields, remaining) == value.fields;
    return Some(collected);
  }

  lemma OneLeaf(prefix: string, value: Json, earlier: Fields)
    requires !value.Object?
    ensures Collected(prefix, value, earlier, earlier[prefix := value])
  {
    assert IsLeaf(prefix, value, prefix, value);
  }

  lemma NothingCollected(prefix: string, fields: Fields, earlier: Fields)
    ensures Collected(prefix, Object(Walked(fields, fields.Keys)), earlier, earlier)
  {
    hide Join;
    assert forall path :: !HasLeaf(prefix, Object(Walked(fields, fields.Keys)), path);
  }

  lemma WalkedLeaf(prefix: string, fields: Fields, remaining: set<string>, key: string, path: string, leaf: Json)
    requires key in fields && key in remaining
    ensures IsLeaf(prefix, Object(Walked(fields, remaining - {key})), path, leaf)
      <==> (IsLeaf(prefix, Object(Walked(fields, remaining)), path, leaf)
            || IsLeaf(Join(prefix, key), fields[key], path, leaf))
  {
    hide Join;
    var longer, shorter := Walked(fields, remaining - {key}), Walked(fields, remaining);
    assert longer == shorter[key := fields[key]];
    assert key in longer && longer[key] == fields[key];
    assert forall k :: k in shorter ==> k in longer && longer[k] == shorter[k];
  }

  lemma OneMoreCollected(prefix: string, fields: Fields, remaining: set<string>, key: string, earlier: Fields,
                         collected: Fields, leaves: Fields)
    requires key in fields && key in remaining
    requires Collected(prefix, Object(Walked(fields, remaining)), earlier, collected)
    requires Collected(Join(prefix, key), fields[key], collected, leaves)
    ensures Collected(prefix, Object(Walked(fields, remaining - {key})), earlier, leaves)
  {
    hide Join, IsLeaf, Walked;
    var value := Object(Walked(fields, remaining - {key}));
    forall path, leaf ensures IsLeaf(prefix, value, path, leaf)
      <==> (IsLeaf(prefix, Object(Walked(fields, remaining)), path, leaf)
            || IsLeaf(Join(prefix, key), fields[key], path, leaf))
    {
      WalkedLeaf(prefix, fields, remaining, key, path, leaf);
    }
    forall path ensures HasLeaf(prefix, value, path)
      <==> HasLeaf(prefix, Object(Walked(fields, remaining)), path) || HasLeaf(Join(prefix, key), fields[key], path)
    {
    }
  }

  /** The document covers exactly the reference's leaves and only the two topology leaves are fixed. */
  ghost predicate Covers(d: Document, reference: Fields) {
    && d.versionMatches && d.paths != map[] && NoEmptyGroup(Object(reference))
    && (forall path :: path in d.paths <==> HasLeaf("", Object(reference), path))
    && (forall path :: path in d.paths ==> (d.paths[path].editable <==> path !in FIXED))
  }

  /** Every path has a reference value that satisfies its constraint. */
  ghost predicate SomeValueFits(d: Document, reference: Fields) {
    forall path :: path in d.paths ==>
      exists leaf :: IsLeaf("", Object(reference), path, leaf) && Satisfies(d.paths[path], leaf)
  }

  ghost predicate EveryValueFits(d: Document, reference: Fields) {
    forall path, leaf :: path in d.paths && IsLeaf("", Object(reference), path, leaf) ==> Satisfies(d.paths[path], leaf)
  }

  /** The two can only differ when two leaves share a flattened path. */
  ghost predicate PathsAreUnique(reference: Fields) {
    forall path, a, b :: IsLeaf("", Object(reference), path, a) && IsLeaf("", Object(reference), path, b) ==> a == b
  }

  lemma FitsAgree(d: Document, reference: Fields)
    requires PathsAreUnique(reference) && Covers(d, reference)
    ensures SomeValueFits(d, reference) <==> EveryValueFits(d, reference)
  {
    hide IsLeaf, Satisfies;
    if EveryValueFits(d, reference) {
      forall path | path in d.paths
        ensures exists leaf :: IsLeaf("", Object(reference), path, leaf) && Satisfies(d.paths[path], leaf)
      {
        assert HasLeaf("", Object(reference), path);
      }
    }
  }

  method EveryConstraintHolds(d: Document, leaves: Fields) returns (ok: bool)
    ensures ok <==>
      && leaves.Keys <= d.paths.Keys
      && forall path :: path in leaves ==> path in d.paths && Satisfies(d.paths[path], leaves[path])
  {
    hide Satisfies;
    var remaining := leaves.Keys;
    while remaining != {}
      invariant remaining <= leaves.Keys
      invariant forall path :: path in leaves && path !in remaining ==>
        path in d.paths && Satisfies(d.paths[path], leaves[path])
    {
      var path :| path in remaining;
      if path !in d.paths || !Satisfies(d.paths[path], leaves[path]) {
        return false;
      }
      remaining := remaining - {path};
    }
    return true;
  }

  method EveryPathIsMarked(d: Document, leaves: Fields) returns (ok: bool)
    ensures ok <==>
      && d.paths.Keys <= leaves.Keys
      && forall path :: path in d.paths ==> (d.paths[path].editable <==> path !in FIXED)
  {
    hide FIXED;
    var remaining := d.paths.Keys;
    while remaining != {}
      invariant remaining <= d.paths.Keys
      invariant forall path :: path in d.paths && path !in remaining ==>
        path in leaves && (d.paths[path].editable <==> path !in FIXED)
    {
      var path :| path in remaining;
      if path !in leaves || d.paths[path].editable == (path in FIXED) {
        return false;
      }
      remaining := remaining - {path};
    }
    return true;
  }

  /** The collected leaves satisfy their constraints. */
  ghost predicate LeavesFit(d: Document, leaves: Fields) {
    forall path :: path in leaves ==> path in d.paths && Satisfies(d.paths[path], leaves[path])
  }

  /**
   Accepts exactly the documents that cover the reference and hold for the leaves collected from it; where two leaves
   share a path the order of the keys decides which one is collected.
   */
  method ValidateReference(d: Document, reference: Fields) returns (ok: bool, ghost leaves: Fields)
    ensures NoEmptyGroup(Object(reference)) && d.versionMatches && d.paths != map[]
      ==> Collected("", Object(reference), map[], leaves)
    ensures ok <==> Covers(d, reference) && LeavesFit(d, leaves)
    ensures ok ==> SomeValueFits(d, reference)
    ensures Covers(d, reference) && EveryValueFits(d, reference) ==> ok
  {
    hide IsLeaf, Satisfies, FIXED;
    leaves := map[];
    if !d.versionMatches || |d.paths| == 0 {
      return false, leaves;
    }
    var flattened := FlattenReference("", Object(reference), map[]);
    if flattened.None? {
      return false, leaves;
    }
    var collected := flattened.value;
    leaves := collected;
    LeavesAre(reference, collected);
    if |collected| != |d.paths| {
      assert collected.Keys != d.paths.Keys;
      return false, leaves;
    }
    var holds := EveryConstraintHolds(d, collected);
    if !holds {
      return false, leaves;
    }
    ok := EveryPathIsMarked(d, collected);
    assert ok ==> collected.Keys == d.paths.Keys;
  }

  lemma LeavesAre(reference: Fields, leaves: Fields)
    requires Collected("", Object(reference), map[], leaves)
    ensures forall path :: path in leaves <==> HasLeaf("", Object(reference), path)
    ensures forall path :: path in leaves ==> IsLeaf("", Object(reference), path, leaves[path])
  {
    hide IsLeaf;
  }

  // ---------------------------------------------------------------- agents

  datatype AgentOverride = AgentOverride(agent: int, segment: string, parameters: Option<Fields>)

  datatype Entry = Entry(agent: int, segment: string, parameters: Fields)

  datatype Profile = Profile(shared: Fields, agents: seq<Entry>)

  const TOPOLOGY: map<int, string> := map[1 := "EARLY", 2 := "MIDDLE", 3 := "LATE"]

  /** Reads one reference agent; a segment already read, unless empty, may not be read again. */
  function AddSegment(segments: map<int, string>, raw: Json): Option<map<int, string>> {
    if !raw.Object? then None
    else
      var agent, segment := Get(raw.fields, "agent"), Get(raw.fields, "segment");
      if agent.None? || !agent.value.Number? || segment.None? || !segment.value.Text? then None
      else
        var n := agent.value.number;
        if n != n.Floor as real || n.Floor < 1 || n.Floor > 3 then None
        else if n.Floor in segments && segments[n.Floor] != "" then None
        else Some(segments[n.Floor := segment.value.text])
  }

  function Segments(raws: seq<Json>): Option<map<int, string>> {
    if raws == [] then Some(map[])
    else
      match Segments(raws[..|raws| - 1])
      case None => None
      case Some(segments) => AddSegment(segments, raws[|raws| - 1])
  }

  lemma {:induction false} SegmentsFail(raws: seq<Json>, n: nat)
    requires n <= |raws| && Segments(raws[..n]).None?
    ensures Segments(raws).None?
    decreases |raws| - n
  {
    hide AddSegment;
    if n < |raws| {
      assert raws[..n + 1][..n] == raws[..n];
      SegmentsFail(raws, n + 1);
    } else {
      assert raws[..n] == raws;
    }
  }

  /** The reference agents have to be the three topology segments. */
  method ReferenceAgentSegments(raws: seq<Json>) returns (r: Option<map<int, string>>)
    ensures r.Some? <==> Segments(raws) == Some(TOPOLOGY)
    ensures r.Some? ==> r.value == TOPOLOGY
  {
    hide AddSegment, TOPOLOGY;
    var segments: map<int, string> := map[];
    for i := 0 to |raws|
      invariant Segments(raws[..i]) == Some(segments)
    {
      assert raws[..i + 1][..i] == raws[..i];
      var added := AddSegment(segments, raws[i]);
      if added.None? {
        SegmentsFail(raws, i + 1);
        return None;
      }
      segments := added.value;
    }
    assert raws[..|raws|] == raws;
    return if segments == TOPOLOGY then Some(segments) else None;
  }

  function AgentField(agent: int): string
    requires 1 <= agent <= 3
  {
    "agents[" + [if agent == 1 then '1' else if agent == 2 then '2' else '3'] + "]" + MARKER
  }

  /** One override is admitted. */
  ghost predicate OverrideFits(d: Document, reference: Fields, o: AgentOverride) {
    && o.agent in TOPOLOGY && 1 <= o.agent <= 3
    && (o.segment == "" || o.segment == TOPOLOGY[o.agent])
    && o.parameters.Some?
    && SparseFields(d, AgentField(o.agent), reference, o.parameters.value)
  }

  ghost predicate Distinct(agents: seq<AgentOverride>) {
    forall i, j :: 0 <= i < j < |agents| ==> agents[i].agent != agents[j].agent
  }

  ghost predicate AgentsFit(d: Document, reference: Fields, agents: seq<AgentOverride>) {
    && |agents| == 3
    && Distinct(agents)
    && forall i :: 0 <= i < |agents| ==> OverrideFits(d, reference, agents[i])
  }

  /** The profile is made of the given parts: agent k + 1 at position k, with its own override and its fixed segment. */
  ghost predicate IsProfile(shared: Fields, agents: seq<AgentOverride>, profile: Profile) {
    && profile.shared == shared
    && |profile.agents| == 3
    && forall k :: 0 <= k < 3 ==> IsEntry(agents, k + 1, profile.agents[k])
  }

  ghost predicate IsEntry(agents: seq<AgentOverride>, agent: int, entry: Entry) {
    && entry.agent == agent && agent in TOPOLOGY && entry.segment == TOPOLOGY[agent]
    && exists i :: 0 <= i < |agents| && agents[i].agent == agent && agents[i].parameters == Some(entry.parameters)
  }

  function InsertEntry(entry: Entry, entries: seq<Entry>): seq<Entry> {
    if entries == [] || entry.agent < entries[0].agent then [entry] + entries
    else [entries[0]] + InsertEntry(entry, entries[1..])
  }

  /** The library's stable sort by agent. */
  function SortEntries(entries: seq<Entry>): seq<Entry> {
    if entries == [] then [] else InsertEntry(entries[|entries| - 1], SortEntries(entries[..|entries| - 1]))
  }

  lemma InsertIntoOne(e: Entry, x: Entry)
    ensures InsertEntry(e, [x]) == if e.agent < x.agent then [e, x] else [x, e]
  {
    assert [x][1..] == [];
    assert InsertEntry(e, []) == [e];
    assert [e] + [x] == [e, x] && [x] + [e] == [x, e];
  }

  lemma InsertIntoTwo(e: Entry, x: Entry, y: Entry)
    ensures InsertEntry(e, [x, y])
         == if e.agent < x.agent then [e, x, y] else if e.agent < y.agent then [x, e, y] else [x, y, e]
  {
    InsertIntoOne(e, y);
    assert [x, y][1..] == [y];
    assert [e] + [x, y] == [e, x, y] && [x] + [e, y] == [x, e, y] && [x] + [y, e] == [x, y, e];
  }

  lemma SortThree(a: Entry, b: Entry, c: Entry)
    requires {a.agent, b.agent, c.agent} == {1, 2, 3} && a.agent != b.agent && b.agent != c.agent && a.agent != c.agent
    ensures var s := SortEntries([a, b, c]);
      && |s| == 3 && s[0].agent == 1 && s[1].agent == 2 && s[2].agent == 3
      && (forall k :: 0 <= k < 3 ==> s[k] == a || s[k] == b || s[k] == c)
  {
    assert [a, b, c][..2] == [a, b] && [a, b][..1] == [a] && [a][..0] == [];
    assert SortEntries([a]) == InsertEntry(a, []) == [a];
    InsertIntoOne(b, a);
    InsertIntoTwo(c, a, b);
    InsertIntoTwo(c, b, a);
    assert 1 in {a.agent, b.agent, c.agent} && 2 in {a.agent, b.agent, c.agent} && 3 in {a.agent, b.agent, c.agent};
    assert a.agent in {1, 2, 3} && b.agent in {1, 2, 3} && c.agent in {1, 2, 3};
  }

  /** The entries made of the overrides in the order given. */
  ghost predicate EntriesAre(agents: seq<AgentOverride>, entries: seq<Entry>) {
    && |entries| == |agents|
    && forall i :: 0 <= i < |agents| ==>
         && entries[i].agent == agents[i].agent && agents[i].agent in TOPOLOGY
         && entries[i].segment == TOPOLOGY[agents[i].agent]
         && agents[i].parameters == Some(entries[i].parameters)
  }

  lemma ThreeDistinct(a: int, b: int, c: int)
    requires 1 <= a <= 3 && 1 <= b <= 3 && 1 <= c <= 3 && a != b && b != c && a != c
    ensures {a, b, c} == {1, 2, 3}
  {
  }

  lemma SortedIsProfile(shared: Fields, agents: seq<AgentOverride>, entries: seq<Entry>)
    requires |agents| == 3 && Distinct(agents) && EntriesAre(agents, entries)
    ensures IsProfile(shared, agents, Profile(shared, SortEntries(entries)))
  {
    hide SortEntries;
    assert forall agent :: agent in TOPOLOGY ==> 1 <= agent <= 3;
    hide TOPOLOGY;
    var a, b, c := entries[0], entries[1], entries[2];
    assert entries == [a, b, c];
    ThreeDistinct(a.agent, b.agent, c.agent);
    SortThree(a, b, c);
    var s := SortEntries(entries);
    forall k | 0 <= k < 3 ensures IsEntry(agents, k + 1, s[k]) {
      var i := if s[k] == a then 0 else if s[k] == b then 1 else 2;
      assert agents[i].parameters == Some(s[k].parameters);
    }
  }

  /** What Materialize accepts, given that the reference itself is valid. */
  ghost predicate Acceptable(d: Document, reference: Fields, referenceAgents: seq<Json>, shared: Option<Fields>,
                             agents: seq<AgentOverride>) {
    && shared.Some?
    && CompleteValue(d, SHARED, Object(reference), Object(shared.value))
    && Segments(referenceAgents) == Some(TOPOLOGY)
    && AgentsFit(d, reference, agents)
  }

  /** The code the first agent that does not fit is rejected with; its override may have several faults. */
  ghost predicate AgentFault(d: Document, reference: Fields, agents: seq<AgentOverride>, i: nat, code: Code)
    requires i < |agents|
  {
    var o := agents[i];
    if o.agent !in TOPOLOGY || exists j :: 0 <= j < i && agents[j].agent == o.agent then code == RequestInvalid
    else if o.segment != "" && o.segment != TOPOLOGY[o.agent] then code == NotAllowed
    else if o.parameters.None? then code == RequestInvalid
    else 1 <= o.agent <= 3 && SparseFieldsFault(d, AgentField(o.agent), reference, o.parameters.value, code)
  }

  ghost predicate FirstAgentFault(d: Document, reference: Fields, agents: seq<AgentOverride>, code: Code) {
    exists i :: 0 <= i < |agents| && AgentFault(d, reference, agents, i, code)
      && Distinct(agents[..i]) && forall k :: 0 <= k < i ==> OverrideFits(d, reference, agents[k])
  }

  method MaterializeAgents(d: Document, reference: Fields, agents: seq<AgentOverride>) returns (r: Checked<seq<Entry>>)
    ensures r.Valid? <==> Distinct(agents) && forall i :: 0 <= i < |agents| ==> OverrideFits(d, reference, agents[i])
    ensures r.Valid? ==> EntriesAre(agents, r.value)
    ensures r.Rejected? ==> FirstAgentFault(d, reference, agents, r.code)
  {
    hide SparseFields, SparseFieldsFault, AgentField;
    assert forall agent :: agent in TOPOLOGY ==> 1 <= agent <= 3;
    hide TOPOLOGY;
    var seen: set<int> := {};
    var entries: seq<Entry> := [];
    for i := 0 to |agents|
      invariant |entries| == i && EntriesAre(agents[..i], entries)
      invariant Distinct(agents[..i])
      invariant forall k :: 0 <= k < i ==> OverrideFits(d, reference, agents[k])
      invariant forall n :: n in seen <==> exists k :: 0 <= k < i && agents[k].agent == n
    {
      var agent := agents[i];
      if agent.agent !in TOPOLOGY || agent.agent in seen {
        return Rejected(RequestInvalid);
      }
      seen := seen + {agent.agent};
      if agent.segment != "" && agent.segment != TOPOLOGY[agent.agent] {
        return Rejected(NotAllowed);
      }
      if agent.parameters.None? {
        return Rejected(RequestInvalid);
      }
      var checked := ValidateSparseObject(d, AgentField(agent.agent), reference, agent.parameters.value);
      if checked.Rejected? {
        return Rejected(checked.code);
      }
      entries := entries + [Entry(agent.agent, TOPOLOGY[agent.agent], checked.value)];
    }
    assert agents[..|agents|] == agents;
    return Valid(entries);
  }

  /** The code a profile is rejected with once the document holds for the reference, check by check. */
  ghost predicate ProfileFault(d: Document, reference: Fields, referenceAgents: seq<Json>, shared: Option<Fields>,
                               agents: seq<AgentOverride>, code: Code) {
    if shared.None? then code == RequestInvalid
    else if !CompleteValue(d, SHARED, Object(reference), Object(shared.value)) then
      CompleteFault(d, SHARED, Object(reference), Object(shared.value), code)
    else if Segments(referenceAgents) != Some(TOPOLOGY) then code == Misconfigured
    else if |agents| != 3 then code == RequestInvalid
    else FirstAgentFault(d, reference, agents, code)
  }

  /**
   The accepted profile is the input itself, with the agents in order and their segments filled in; a rejection's code
   is that of the first check that fails.
   */
  method Materialize(d: Document, reference: Fields, referenceAgents: seq<Json>, shared: Option<Fields>,
                     agents: seq<AgentOverride>)
    returns (r: Checked<Profile>, ghost leaves: Fields)
    ensures NoEmptyGroup(Object(reference)) && d.versionMatches && d.paths != map[]
      ==> Collected("", Object(reference), map[], leaves)
    ensures r.Valid? <==>
      && Covers(d, reference) && LeavesFit(d, leaves)
      && Acceptable(d, reference, referenceAgents, shared, agents)
    ensures r.Valid? ==> SomeValueFits(d, reference) && IsProfile(shared.value, agents, r.value)
    ensures Covers(d, reference) && EveryValueFits(d, reference)
      && Acceptable(d, reference, referenceAgents, shared, agents)
      ==> r.Valid?
    ensures r.Rejected? ==>
      if Covers(d, reference) && LeavesFit(d, leaves)
      then ProfileFault(d, reference, referenceAgents, shared, agents, r.code) else r.code == Misconfigured
  {
    hide Covers, LeavesFit, Collected, NoEmptyGroup, FirstAgentFault, CompleteFault, SomeValueFits, EveryValueFits,
      CompleteValue, Segments, OverrideFits, TOPOLOGY, IsProfile, EntriesAre, Distinct, SortEntries;
    var valid;
    valid, leaves := ValidateReference(d, reference);
    if !valid {
      return Rejected(Misconfigured), leaves;
    }
    if shared.None? {
      return Rejected(RequestInvalid), leaves;
    }
    var completed := ValidateCompleteObject(d, SHARED, reference, shared.value);
    if completed.Rejected? {
      return Rejected(completed.code), leaves;
    }
    var expected := ReferenceAgentSegments(referenceAgents);
    if expected.None? {
      return Rejected(Misconfigured), leaves;
    }
    if |agents| != 3 {
      return Rejected(RequestInvalid), leaves;
    }
    var entries := MaterializeAgents(d, reference, agents);
    if entries.Rejected? {
      return Rejected(entries.code), leaves;
    }
    SortedIsProfile(shared.value, agents, entries.value);
    return Valid(Profile(completed.value, SortEntries(entries.value))), leaves;
  }

  ghost predicate Permuted(a: seq<AgentOverride>, b: seq<AgentOverride>) {
    |a| == |b| && multiset(a) == multiset(b)
  }

  /** The order in which the agents are given does not matter: the same profile is accepted, and it is the only one. */
  lemma PermutedAgentsGiveTheSameProfile(d: Document, reference: Fields, shared: Fields,
                                         a: seq<AgentOverride>, b: seq<AgentOverride>, p: Profile, q: Profile)
    requires AgentsFit(d, reference, a) && Permuted(a, b) && Distinct(b)
    requires IsProfile(shared, a, p) && IsProfile(shared, b, q)
    ensures AgentsFit(d, reference, b) && p == q
  {
    hide OverrideFits, TOPOLOGY;
    forall i | 0 <= i < |b| ensures OverrideFits(d, reference, b[i]) {
      assert b[i] in multiset(a);
    }
    forall k | 0 <= k < 3 ensures p.agents[k] == q.agents[k] {
      EntriesAgree(a, b, k + 1, p.agents[k], q.agents[k]);
    }
    assert p.agents == q.agents;
  }

  lemma EntriesAgree(a: seq<AgentOverride>, b: seq<AgentOverride>, agent: int, x: Entry, y: Entry)
    requires Permuted(a, b) && Distinct(a) && IsEntry(a, agent, x) && IsEntry(b, agent, y)
    ensures x == y
  {
    hide TOPOLOGY;
    var i :| 0 <= i < |a| && a[i].agent == agent && a[i].parameters == Some(x.parameters);
    var j :| 0 <= j < |b| && b[j].agent == agent && b[j].parameters == Some(y.parameters);
    assert b[j] in multiset(a);
    var k :| 0 <= k < |a| && a[k] == b[j];
    assert k == i;
  }

  // ---------------------------------------------------------------- dotted fields again

  /** The path of a leaf below a root, from the dotted text that follows the root. */
  function PathOf(suffix: string, key: string): string {
    Child(suffix, key)[1..]
  }

  ghost predicate IsSuffix(suffix: string) {
    suffix == "" || suffix[0] == '.'
  }

  lemma SharedPath(suffix: string, key: string)
    requires IsSuffix(suffix)
    ensures TrimPrefix(Child(SHARED + suffix, key), SHARED + ".") == PathOf(suffix, key)
  {
    var tail := Child(suffix, key);
    hide SHARED;
    assert tail[0] == '.';
    assert Child(SHARED + suffix, key) == (SHARED + ".") + tail[1..];
  }

  /** No dot before the marker, so it is found exactly there. */
  lemma {:induction false} MarkerFound(head: string, rest: string, from: nat)
    requires from <= |head| && forall i :: 0 <= i < |head| ==> head[i] != '.'
    ensures IndexOf(head + MARKER + rest, MARKER, from) == Some(|head|)
    decreases |head| - from
  {
    var s := head + MARKER + rest;
    assert MARKER[0] == '.' && |MARKER| > 0;
    hide MARKER;
    if from < |head| {
      assert s[from..][0] == head[from];
      MarkerFound(head, rest, from + 1);
    } else {
      assert s[from..] == MARKER + rest;
    }
  }

  lemma AgentFieldShape(agent: int)
    requires 1 <= agent <= 3
    ensures exists head :: AgentField(agent) == head + MARKER && forall i :: 0 <= i < |head| ==> head[i] != '.'
  {
    hide MARKER;
    var head := "agents[" + [if agent == 1 then '1' else if agent == 2 then '2' else '3'] + "]";
    assert AgentField(agent) == head + MARKER;
    assert forall i :: 0 <= i < |head| ==> head[i] != '.';
  }

  /** Below an agent the prefix is cut right after the marker's dot, and panics exactly at the top. */
  lemma AgentPrefixExactlyWhen(agent: int, suffix: string)
    requires 1 <= agent <= 3 && IsSuffix(suffix)
    ensures Contains(AgentField(agent) + suffix, MARKER)
    ensures AgentPrefix(AgentField(agent) + suffix) == if suffix == "" then None else Some(AgentField(agent) + ".")
  {
    AgentFieldShape(agent);
    var root := AgentField(agent);
    hide AgentField, MARKER;
    var head: string :| root == head + MARKER && forall i :: 0 <= i < |head| ==> head[i] != '.';
    MarkerFound(head, suffix, 0);
    assert root + suffix == head + MARKER + suffix;
    if suffix != "" {
      assert (root + suffix)[..|root| + 1] == root + ".";
    }
  }

  lemma AgentPath(agent: int, suffix: string, key: string)
    requires 1 <= agent <= 3 && IsSuffix(suffix)
    ensures TrimPrefix(Child(AgentField(agent) + suffix, key), AgentField(agent) + ".") == PathOf(suffix, key)
    ensures IsSuffix(Child(suffix, key))
  {
    var tail, root := Child(suffix, key), AgentField(agent);
    hide AgentField;
    assert tail[0] == '.';
    assert Child(root + suffix, key) == (root + ".") + tail[1..];
  }

  lemma DeeperField(root: string, suffix: string, key: string)
    ensures Child(root + suffix, key) == root + Child(suffix, key)
  {
  }

  /**
   A sparse override panics on a key exactly when the key is a leaf at the top of the reference; otherwise a leaf is
   admitted exactly when its path is known, editable and its constraint satisfied.
   */
  lemma SparseLeafExactlyWhen(d: Document, agent: int, suffix: string, key: string, v: Json)
    requires 1 <= agent <= 3 && IsSuffix(suffix)
    ensures var code, path := SparseLeafCode(d, AgentField(agent) + suffix, key, v), PathOf(suffix, key);
      && (code == Some(Panic) <==> suffix == "")
      && (code.None? <==> suffix != "" && path in d.paths && d.paths[path].editable && Satisfies(d.paths[path], v))
  {
    AgentPrefixExactlyWhen(agent, suffix);
    AgentPrefixExactlyWhen(agent, Child(suffix, key));
    AgentPath(agent, suffix, key);
    DeeperField(AgentField(agent), suffix, key);
    hide AgentField, AgentPrefix, Satisfies, Contains, TrimPrefix, Child, PathOf;
  }
}
