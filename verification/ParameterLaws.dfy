/** What a constraint of the parameter document admits, by the value it is given. */
module ParameterLaws {
  import opened Outcomes
  import opened Parameters

  /** Null needs permission, a flag or a text its own kind, a number the bounds; lists and objects are never leaves. */
  lemma SatisfiesExactlyWhen(c: Constraint, v: Json)
    ensures Satisfies(c, v) <==>
      match v
      case Null => c.nullable
      case Bool(_) => c.kind.BooleanKind? && IsAllowed(c, v)
      case Text(_) => c.kind.StringKind? && IsAllowed(c, v)
      case Number(number) =>
        && (c.kind.NumberKind? || (c.kind.IntegerKind? && IsWhole(number)))
        && (c.minimum == None || c.minimum.value <= number)
        && (c.maximum == None || number <= c.maximum.value)
        && IsAllowed(c, v)
      case _ => false
  {
    if v.Number? && IsWhole(v.number) {
      var n: int :| Whole(n) == v.number;
      assert v.number.Floor == n;
    }
    if v.Number? && v.number == v.number.Floor as real {
      assert Whole(v.number.Floor) == v.number;
    }
  }

  function Whole(n: int): real {
    n as real
  }

  ghost predicate IsWhole(v: real) {
    exists n: int :: Whole(n) == v
  }

  ghost predicate IsAllowed(c: Constraint, v: Json) {
    c.allowed == None || exists i :: 0 <= i < |c.allowed.value| && c.allowed.value[i] == v
  }

  // ---------------------------------------------------------------- the reference agents

  /** Which Agent an entry of the reference is for, and zero where the entry cannot be read. */
  function AgentOf(raw: Json): int {
    if !(raw.Object? && "agent" in raw.fields && "segment" in raw.fields && raw.fields["segment"].Text?) then 0
    else if raw.fields["agent"] == Number(1.0) then 1
    else if raw.fields["agent"] == Number(2.0) then 2
    else if raw.fields["agent"] == Number(3.0) then 3
    else 0
  }

  function SegmentOf(raw: Json): string {
    if raw.Object? && "segment" in raw.fields && raw.fields["segment"].Text? then raw.fields["segment"].text else ""
  }

  lemma WholeUpToThree(n: real)
    ensures n == n.Floor as real && 1 <= n.Floor <= 3 <==> n == 1.0 || n == 2.0 || n == 3.0
  {
  }

  lemma AddedExactlyWhen(segments: map<int, string>, raw: Json)
    ensures var agent := AgentOf(raw);
      AddSegment(segments, raw) == if agent == 0 || (agent in segments && segments[agent] != "") then None
                                   else Some(segments[agent := SegmentOf(raw)])
  {
    if raw.Object? && "agent" in raw.fields && raw.fields["agent"].Number? {
      WholeUpToThree(raw.fields["agent"].number);
    }
  }

  /** The last entry for the Agent, if there is one. */
  ghost predicate IsLastFor(raws: seq<Json>, agent: int, i: int) {
    && 0 <= i < |raws| && AgentOf(raws[i]) == agent
    && forall j :: i < j < |raws| ==> AgentOf(raws[j]) != agent
  }

  /** Every entry can be read, and only the last one for an Agent names a segment. */
  ghost predicate AreReadable(raws: seq<Json>) {
    && (forall i :: 0 <= i < |raws| ==> AgentOf(raws[i]) != 0)
    && (forall i, j :: 0 <= i < j < |raws| && AgentOf(raws[i]) == AgentOf(raws[j]) ==> SegmentOf(raws[i]) == "")
  }

  /** The segments are those of the last entries. */
  ghost predicate AreLast(raws: seq<Json>, segments: map<int, string>) {
    && (forall i :: 0 <= i < |raws| ==> AgentOf(raws[i]) in segments)
    && (forall agent :: agent in segments ==>
          exists i :: IsLastFor(raws, agent, i) && segments[agent] == SegmentOf(raws[i]))
  }

  lemma {:induction false} SegmentsAre(raws: seq<Json>)
    ensures Segments(raws).Some? <==> AreReadable(raws)
    ensures Segments(raws).Some? ==> AreLast(raws, Segments(raws).value)
  {
    if raws != [] {
      var before, raw := raws[..|raws| - 1], raws[|raws| - 1];
      SegmentsAre(before);
      hide AddSegment, AgentOf, SegmentOf;
      if Segments(before).Some? {
        AddedExactlyWhen(Segments(before).value, raw);
        ReadableExtends(before, raw, Segments(before).value);
        assert before + [raw] == raws;
      }
    }
  }

  lemma ReadableExtends(before: seq<Json>, raw: Json, segments: map<int, string>)
    requires AreReadable(before) && AreLast(before, segments)
    ensures var agent := AgentOf(raw);
      && (AreReadable(before + [raw]) <==> agent != 0 && (agent in segments ==> segments[agent] == ""))
      && AreLast(before + [raw], segments[agent := SegmentOf(raw)])
  {
    hide AgentOf, SegmentOf;
    var raws, agent := before + [raw], AgentOf(raw);
    var more := segments[agent := SegmentOf(raw)];
    forall other | other in more ensures exists i :: IsLastFor(raws, other, i) && more[other] == SegmentOf(raws[i]) {
      if other == agent {
        assert IsLastFor(raws, other, |before|);
      } else {
        var i :| IsLastFor(before, other, i) && segments[other] == SegmentOf(before[i]);
        assert IsLastFor(raws, other, i);
      }
    }
    if agent in segments {
      var i :| IsLastFor(before, agent, i) && segments[agent] == SegmentOf(before[i]);
      assert raws[i] == before[i] && raws[|before|] == raw;
    }
  }

  /** The entry for the Agent, which names its segment; any before it are for the same Agent but name none. */
  ghost predicate Names(raws: seq<Json>, agent: int, segment: string) {
    exists i :: IsLastFor(raws, agent, i) && SegmentOf(raws[i]) == segment
  }

  /**
   The agents of the reference are accepted exactly when every entry can be read, each of the three Agents' last entry
   names its own segment, and no earlier one names any.
   */
  lemma ReferenceAgentsExactlyWhen(raws: seq<Json>)
    ensures Segments(raws) == Some(TOPOLOGY)
      <==> AreReadable(raws) && Names(raws, 1, "EARLY") && Names(raws, 2, "MIDDLE") && Names(raws, 3, "LATE")
  {
    SegmentsAre(raws);
    TopologyIs();
    hide AgentOf, SegmentOf, Segments, TOPOLOGY, AreReadable;
    if Segments(raws) == Some(TOPOLOGY) {
      assert 1 in TOPOLOGY && 2 in TOPOLOGY && 3 in TOPOLOGY;
    }
    if Segments(raws).Some? && Names(raws, 1, "EARLY") && Names(raws, 2, "MIDDLE") && Names(raws, 3, "LATE") {
      var segments := Segments(raws).value;
      OnlyThree(raws, segments);
      LastNames(raws, segments, 1, "EARLY");
      LastNames(raws, segments, 2, "MIDDLE");
      LastNames(raws, segments, 3, "LATE");
      assert segments == TOPOLOGY;
    }
  }

  lemma TopologyIs()
    ensures TOPOLOGY.Keys == {1, 2, 3} && TOPOLOGY[1] == "EARLY" && TOPOLOGY[2] == "MIDDLE" && TOPOLOGY[3] == "LATE"
  {
  }

  lemma OnlyThree(raws: seq<Json>, segments: map<int, string>)
    requires AreLast(raws, segments) && AreReadable(raws)
    ensures segments.Keys <= {1, 2, 3}
  {
    forall agent | agent in segments ensures 1 <= agent <= 3 {
      var i :| IsLastFor(raws, agent, i) && segments[agent] == SegmentOf(raws[i]);
    }
  }

  lemma LastNames(raws: seq<Json>, segments: map<int, string>, agent: int, segment: string)
    requires AreLast(raws, segments) && Names(raws, agent, segment)
    ensures agent in segments && segments[agent] == segment
  {
    hide AgentOf, SegmentOf;
    var i :| IsLastFor(raws, agent, i) && SegmentOf(raws[i]) == segment;
    var j :| IsLastFor(raws, agent, j) && segments[agent] == SegmentOf(raws[j]);
    assert i == j;
  }
}
