/**
 The whole compiler pipeline (`ScenarioPlanner.compile`, eventweave/compiler/planner.py):
 expansion, noise, jitter and the final sort, and what the composition guarantees.
 */
module Compile {
  import opened Common
  import opened Events
  import opened Rng
  import opened Jitter
  import opened Scenarios
  import opened Ids
  import opened Planner
  import opened PlannerProps
  import opened Noise
  import opened Rules

  /** The three generators, seeded apart: expansion, noise and jitter. */
  datatype Streams = Streams(timeline: Stream, noise: Stream, jitter: Stream)

  /** The expanded timeline followed by its noise. */
  function Unjittered(scn: Scenario, start: int, rngs: Streams, n: nat): seq<Event> {
    Expand(scn, start, rngs.timeline, n)
    + NoiseFor(scn, PlanEntities(scn, start, rngs, n), Expand(scn, start, rngs.timeline, n), rngs.noise)
  }

  /** The plan's events, for an expansion loop that ends within `n` rounds. */
  function Plan(scn: Scenario, start: int, rngs: Streams, n: nat): seq<Event> {
    Sort(Apply(scn.jitter, Unjittered(scn, start, rngs, n), rngs.jitter))
  }

  function PlanEntities(scn: Scenario, start: int, rngs: Streams, n: nat): seq<Entity> {
    AfterFlows(scn, start, rngs.timeline, n).world.entities
  }

  // ---------------------------------------------------------------- the parts

  lemma {:induction false} ExpandMembers(scn: Scenario, start: int, rng: Stream, n: nat)
    ensures forall e :: e in Expand(scn, start, rng, n) <==> e in AfterFlows(scn, start, rng, n).events
    ensures forall e :: e in Expand(scn, start, rng, n) ==> e.flow.Some? && IsEntityId(e.flow.value)
  {
    hide AfterFlows, Sort;
    AfterFlowsOk(scn, start, rng, n);
    SortMembers(AfterFlows(scn, start, rng, n).events);
  }

  lemma {:induction false} NoiseMembers(scn: Scenario, entities: seq<Entity>, timeline: seq<Event>, rng: Stream)
    ensures forall e :: e in NoiseFor(scn, entities, timeline, rng) ==>
      e.flow.None? && exists k: nat :: e.id == NoiseId(scn.id, k)
  {
    hide NoiseFor, NoiseId;
    NoiseShape(scn, entities, timeline, rng);
  }

  // ---------------------------------------------------------------- noise does not interfere

  lemma {:induction false} RunFlowIgnoresNoise(
      scn: Scenario, c: Option<NoiseConfig>, flowIndex: nat, primary: Entity, start: int, rng: Stream, w: World, k: nat)
    requires k <= |scn.timeline|
    ensures RunFlow(scn.(noise := c), flowIndex, primary, start, rng, w, k)
      == RunFlow(scn, flowIndex, primary, start, rng, w, k)
  {
    hide EventId, StepTime, StepRefs;
    if k > 0 {
      RunFlowIgnoresNoise(scn, c, flowIndex, primary, start, rng, w, k - 1);
    }
  }

  lemma {:induction false} AfterFlowsIgnoresNoise(
      scn: Scenario, c: Option<NoiseConfig>, start: int, rng: Stream, n: nat)
    ensures AfterFlows(scn.(noise := c), start, rng, n) == AfterFlows(scn, start, rng, n)
  {
    if n > 0 {
      hide RunFlow;
      AfterFlowsIgnoresNoise(scn, c, start, rng, n - 1);
      var x := AfterFlows(scn, start, rng, n - 1);
      if n <= |Primaries(scn, x.world)| {
        RunFlowIgnoresNoise(scn, c, n, Primaries(scn, x.world)[n - 1], start, rng, x.world, |scn.timeline|);
      }
    }
  }

  /**
   Noise does not disturb the timeline: whatever the noise configuration and its generator
   do, the events that belong to a flow are exactly the plan compiled without noise.
   */
  lemma {:induction false} NoiseDoesNotInterfere(
      scn: Scenario, c: Option<NoiseConfig>, start: int, rngs: Streams, n: nat)
    ensures Filter(HAS_FLOW, Plan(scn.(noise := c), start, rngs, n)) == Plan(scn.(noise := None), start, rngs, n)
  {
    hide AfterFlows, Sort, Apply, NoiseRun, GroupByType, Filter;
    var noisy, quiet := scn.(noise := c), scn.(noise := None);
    AfterFlowsIgnoresNoise(scn, c, start, rngs.timeline, n);
    AfterFlowsIgnoresNoise(scn, None, start, rngs.timeline, n);
    var events := Expand(scn, start, rngs.timeline, n);
    var noise := NoiseFor(noisy, PlanEntities(scn, start, rngs, n), events, rngs.noise);
    ExpandMembers(scn, start, rngs.timeline, n);
    NoiseMembers(noisy, PlanEntities(scn, start, rngs, n), events, rngs.noise);
    assert Unjittered(noisy, start, rngs, n) == events + noise;
    assert Unjittered(quiet, start, rngs, n) == events + [] == events;
    SortFilter(HAS_FLOW, Apply(scn.jitter, events + noise, rngs.jitter));
    NoiseJitteredLast(scn.jitter, events, noise, rngs.jitter);
  }

  // ---------------------------------------------------------------- the clock

  /** Starting `d` later shifts every time by `d` and changes nothing else about the plan. */
  lemma {:induction false} ClockShift(d: int, scn: Scenario, start: int, rngs: Streams, n: nat)
    ensures Plan(scn, start + d, rngs, n) == ShiftAll(d, Plan(scn, start, rngs, n))
    ensures AfterFlows(scn, start + d, rngs.timeline, n).world == AfterFlows(scn, start, rngs.timeline, n).world
    ensures Halted(scn, start + d, rngs.timeline, n) <==> Halted(scn, start, rngs.timeline, n)
  {
    hide AfterFlows, Sort, Apply, NoiseFor;
    AfterFlowsShift(d, scn, start, rngs.timeline, n);
    SortShift(d, AfterFlows(scn, start, rngs.timeline, n).events);
    var events := Expand(scn, start, rngs.timeline, n);
    var entities := PlanEntities(scn, start, rngs, n);
    NoiseShift(d, scn, entities, events, rngs.noise);
    ShiftAppend(d, events, NoiseFor(scn, entities, events, rngs.noise));
    var all := Unjittered(scn, start, rngs, n);
    assert Unjittered(scn, start + d, rngs, n) == ShiftAll(d, all);
    ApplyShift(d, scn.jitter, all, rngs.jitter);
    SortShift(d, Apply(scn.jitter, all, rngs.jitter));
  }

  // ---------------------------------------------------------------- ids

  /** Ids survive jitter: a permutation up to times has the same ids. */
  lemma {:induction false} StripDistinct(a: seq<Event>, b: seq<Event>)
    requires multiset(StripAll(a)) == multiset(StripAll(b)) && DistinctIds(a)
    ensures DistinctIds(b)
  {
    assert DistinctIds(StripAll(a));
    DistinctIdsPermutation(StripAll(a), StripAll(b));
    forall i, j | 0 <= i < j < |b| ensures b[i].id != b[j].id {
      assert StripAll(b)[i].id != StripAll(b)[j].id;
    }
  }

  /** Before and after jitter the plan holds the same events, times apart. */
  lemma {:induction false} PlanPermutes(scn: Scenario, start: int, rngs: Streams, n: nat)
    ensures multiset(StripAll(Plan(scn, start, rngs, n))) == multiset(StripAll(Unjittered(scn, start, rngs, n)))
  {
    hide Unjittered, Sort, Apply;
    var all := Unjittered(scn, start, rngs, n);
    JitterPermutes(scn.jitter, all, rngs.jitter);
    SortSorted(Apply(scn.jitter, all, rngs.jitter));
    StripMultiset(Plan(scn, start, rngs, n), Apply(scn.jitter, all, rngs.jitter));
  }

  lemma {:induction false} DistinctAppend(a: seq<Event>, b: seq<Event>)
    requires DistinctIds(a) && DistinctIds(b)
    requires forall x, y :: x in a && y in b ==> x.id != y.id
    ensures DistinctIds(a + b)
  {
    forall i, j | 0 <= i < j < |a + b| ensures (a + b)[i].id != (a + b)[j].id {
      if i < |a| && j >= |a| {
        assert a[i] in a && b[j - |a|] in b;
      }
    }
  }

  lemma {:induction false} UnjitteredIds(scn: Scenario, start: int, rngs: Streams, n: nat)
    ensures DistinctIds(Unjittered(scn, start, rngs, n))
  {
    hide AfterFlows, Sort, EventId, NoiseId, NoiseFor;
    var x := AfterFlows(scn, start, rngs.timeline, n);
    var events := Expand(scn, start, rngs.timeline, n);
    var noise := NoiseFor(scn, x.world.entities, events, rngs.noise);
    TimelineIds(scn, start, rngs.timeline, n);
    SortSorted(x.events);
    DistinctIdsPermutation(x.events, events);
    ExpandMembers(scn, start, rngs.timeline, n);
    NoiseShape(scn, x.world.entities, events, rngs.noise);
    NoiseMembers(scn, x.world.entities, events, rngs.noise);
    forall a, b | a in events && b in noise ensures a.id != b.id {
      var f: nat, s: nat :| f <= n && a.id == EventId(scn.id, f, s);
      var k: nat :| b.id == NoiseId(scn.id, k);
      NoiseIdFresh(scn.id, f, s, k);
    }
    DistinctAppend(events, noise);
  }

  /** Event ids of a plan are pairwise distinct, so (event_time, event_id) orders it strictly. */
  lemma {:induction false} PlanIds(scn: Scenario, start: int, rngs: Streams, n: nat)
    ensures DistinctIds(Plan(scn, start, rngs, n))
    ensures forall i, j :: 0 <= i < j < |Plan(scn, start, rngs, n)| ==>
      Before(Plan(scn, start, rngs, n)[i], Plan(scn, start, rngs, n)[j])
  {
    hide Unjittered, Apply, Sort, StrLess;
    UnjitteredIds(scn, start, rngs, n);
    PlanPermutes(scn, start, rngs, n);
    StripDistinct(Unjittered(scn, start, rngs, n), Plan(scn, start, rngs, n));
    SortSorted(Apply(scn.jitter, Unjittered(scn, start, rngs, n), rngs.jitter));
    StrictlySorted(Plan(scn, start, rngs, n));
  }

  lemma {:induction false} StrictlySorted(s: seq<Event>)
    requires Sorted(s) && DistinctIds(s)
    ensures forall i, j :: 0 <= i < j < |s| ==> Before(s[i], s[j])
  {
    forall i, j | 0 <= i < j < |s| ensures Before(s[i], s[j]) {
      StrLessTotal(s[i].id, s[j].id);
    }
  }

  /** The order of the plan in plain terms: by time, and at the same time by the characters of the ids. */
  lemma {:induction false} PlanOrder(scn: Scenario, start: int, rngs: Streams, n: nat, i: nat, j: nat)
    requires i < j < |Plan(scn, start, rngs, n)|
    ensures var a, b := Plan(scn, start, rngs, n)[i], Plan(scn, start, rngs, n)[j];
      a.time < b.time || (a.time == b.time && (a.id < b.id || exists c :: LessAt(a.id, b.id, c)))
  {
    hide Plan, LessAt;
    PlanIds(scn, start, rngs, n);
    StrLessIff(Plan(scn, start, rngs, n)[i].id, Plan(scn, start, rngs, n)[j].id);
  }

  // ---------------------------------------------------------------- rules

  /**
   Order-preserving jitter keeps the meaning of every unscoped rule: the final plan passes
   exactly when the sorted plan before jitter does.
   */
  lemma {:induction false} CompiledVerdict(rule: Rule, scn: Scenario, start: int, rngs: Streams, n: nat)
    requires Unscoped(rule.scope) && KeepsOrder(scn.jitter)
    ensures Verdict(rule, Plan(scn, start, rngs, n)) <==> Verdict(rule, Sort(Unjittered(scn, start, rngs, n)))
  {
    hide Sort, Apply, NoiseFor, Expand, EntityId, Verdict;
    var all := Unjittered(scn, start, rngs, n);
    ExpandMembers(scn, start, rngs.timeline, n);
    NoiseMembers(scn, PlanEntities(scn, start, rngs, n), Expand(scn, start, rngs.timeline, n), rngs.noise);
    forall e | e in all && e.flow.Some? ensures e.flow.value != "" && e.flow.value != "global" {
      var kind: string, c: nat :| e.flow.value == EntityId(kind, c);
      EntityIdNotGlobal(kind, c);
    }
    UnscopedWithinFlow(rule.scope, all);
    JitterKeepsVerdict(rule, scn.jitter, all, rngs.jitter);
  }

  // ---------------------------------------------------------------- how far jitter moves an event

  /**
   Per flow, order-preserving jitter lists the same events in the same order, at strictly
   increasing times, the k-th of them moved by at least -m and at most m + k microseconds.
   */
  lemma {:induction false} JitterReach(f: Option<string>, scn: Scenario, start: int, rngs: Streams, n: nat)
    requires scn.jitter.Some? && scn.jitter.value.enabled && scn.jitter.value.preserveOrder
    ensures var before := Filter(InFlow(f), Sort(Unjittered(scn, start, rngs, n)));
      var after := Filter(InFlow(f), Plan(scn, start, rngs, n));
      var m := scn.jitter.value.maxOffset;
      StripAll(after) == StripAll(before) && StrictlyIncreasing(after)
      && forall k :: 0 <= k < |before| ==> 0 - m <= after[k].time - before[k].time <= m + k
  {
    hide Sort, Filter, JitterFlow, Unjittered, JitterPreserve;
    var m := scn.jitter.value.maxOffset;
    var all := Unjittered(scn, start, rngs, n);
    var p := PreserveByFlow(f, all, m, rngs.jitter);
    var ordered := Ordered(f, all);
    OrderedMembers(f, all);
    SortFilter(InFlow(f), Apply(scn.jitter, all, rngs.jitter));
    SortFilter(InFlow(f), all);
    JitterFlowOrder(ordered, m, rngs.jitter, p, None);
    SortIncreasing(JitterFlow(ordered, m, rngs.jitter, p, None));
    forall k | 0 <= k < |ordered|
      ensures 0 - m <= JitterFlow(ordered, m, rngs.jitter, p, None)[k].time - ordered[k].time <= m + k
    {
      JitterFlowBound(ordered, m, rngs.jitter, p, None, 0, k);
    }
  }

  // ---------------------------------------------------------------- references

  /** Every reference in the plan is empty, the id of a plan entity, or a literal the scenario spells out. */
  lemma {:induction false} PlanReferences(scn: Scenario, start: int, rngs: Streams, n: nat)
    ensures forall e :: e in Plan(scn, start, rngs, n) ==>
      RefsOk(e.refs, PlanEntities(scn, start, rngs, n), Literals(scn) + NoiseLiterals(scn))
  {
    hide Sort, Apply, NoiseFor, AfterFlows, Literals, NoiseLiterals;
    var entities := PlanEntities(scn, start, rngs, n);
    var all, plan := Unjittered(scn, start, rngs, n), Plan(scn, start, rngs, n);
    AfterFlowsOk(scn, start, rngs.timeline, n);
    ExpandMembers(scn, start, rngs.timeline, n);
    NoiseReferences(scn, entities, Expand(scn, start, rngs.timeline, n), rngs.noise);
    PlanPermutes(scn, start, rngs, n);
    forall e | e in plan ensures RefsOk(e.refs, entities, Literals(scn) + NoiseLiterals(scn)) {
      var e' := StripOrigin(all, plan, e);
      assert e'.refs == Strip(e').refs == e.refs;
    }
  }
}
