/**
 Background noise (eventweave/compiler/noise_generator.py) as a function of the scenario, the
 entity pool, the generator's own random stream and the timeline events it surrounds.
 */
module Noise {
  import opened Common
  import opened Events
  import opened Rng
  import opened Scenarios
  import opened Ids
  import opened Planner
  import opened PlannerProps

  /** Each spec repeated by its weight. */
  function Weighted(specs: seq<NoiseSpec>): (r: seq<NoiseSpec>)
    ensures specs != [] ==> r != []
  {
    if specs == [] then []
    else
      var n := |specs| - 1;
      Weighted(specs[..n]) + seq(specs[n].weight, i => specs[n])
  }

  /** `round` on a float rounds half to even. */
  function NoiseCount(config: NoiseConfig, timelineEvents: nat): nat {
    Max(0, Round(timelineEvents as real * config.ratio))
  }

  /** A reference of a noise spec, and the generator position after resolving it. */
  function ResolveNoiseRef(
      scn: Scenario, pools: map<string, seq<Entity>>, spec: string, rng: Stream, pos: nat): (string, nat)
  {
    if StartsWith(spec, "$entity.") then PickFrom(pools, spec[8..], rng, pos)
    else if spec == "$flow" then PickFrom(pools, OrElse(scn.forEach, ""), rng, pos)
    else (spec, pos)
  }

  /** A random entity of a type, or "" without a draw when there is none. */
  function PickFrom(pools: map<string, seq<Entity>>, kind: string, rng: Stream, pos: nat): (string, nat) {
    if kind in pools && pools[kind] != [] then (pools[kind][Choice(|pools[kind]|, rng(pos))].id, pos + 1)
    else ("", pos)
  }

  /** The first `k` references of a noise spec. */
  function ResolveNoiseRefs(
      scn: Scenario, pools: map<string, seq<Entity>>, specs: seq<(string, string)>, rng: Stream, pos: nat, k: nat)
    : (map<string, string>, nat)
    requires k <= |specs|
  {
    if k == 0 then (map[], pos)
    else
      var (refs, p) := ResolveNoiseRefs(scn, pools, specs, rng, pos, k - 1);
      var (id, p') := ResolveNoiseRef(scn, pools, specs[k - 1].1, rng, p);
      (refs[specs[k - 1].0 := id], p')
  }

  function SourceIds(scn: Scenario): (ids: seq<string>)
    ensures ids != []
  {
    if scn.sources == [] then ["default"] else scn.sources
  }

  /** `spec.source or rng.choice(source_ids)` */
  function NoiseSource(scn: Scenario, spec: NoiseSpec, rng: Stream, pos: nat): (string, nat) {
    if spec.source.Some? && spec.source.value != "" then (spec.source.value, pos)
    else (SourceIds(scn)[Choice(|SourceIds(scn)|, rng(pos))], pos + 1)
  }

  /** Noise event number `n` (from 1), drawn from position `pos` on. */
  function NoiseEvent(
      scn: Scenario, pools: map<string, seq<Entity>>, specs: seq<NoiseSpec>, first: int, n: nat, rng: Stream, pos: nat)
    : (Event, nat)
    requires specs != []
  {
    var weighted := Weighted(specs);
    var spec := weighted[Choice(|weighted|, rng(pos))];
    var (source, p) := NoiseSource(scn, spec, rng, pos + 1);
    var time := first + Uniform(0, scn.duration, rng(p));
    var (refs, p') := ResolveNoiseRefs(scn, pools, spec.refs, rng, p + 1, |spec.refs|);
    (Event(NoiseId(scn.id, n), None, source, spec.event, time, refs, spec.attrs, []), p')
  }

  /** The first `n` noise events, and the generator position after them. */
  function NoiseRun(
      scn: Scenario, pools: map<string, seq<Entity>>, specs: seq<NoiseSpec>, first: int, n: nat, rng: Stream)
    : (seq<Event>, nat)
    requires specs != []
  {
    if n == 0 then ([], 0)
    else
      var (events, pos) := NoiseRun(scn, pools, specs, first, n - 1, rng);
      var (e, pos') := NoiseEvent(scn, pools, specs, first, n, rng, pos);
      (events + [e], pos')
  }

  function Earliest(events: seq<Event>): (t: int)
    requires events != []
    ensures exists i :: 0 <= i < |events| && events[i].time == t
    ensures forall i :: 0 <= i < |events| ==> t <= events[i].time
  {
    if |events| == 1 then events[0].time
    else
      var t := Earliest(events[..|events| - 1]);
      Min(t, events[|events| - 1].time)
  }

  /** How many noise events a scenario asks for. */
  function NoiseTotal(scn: Scenario, timelineEvents: nat): nat {
    if scn.noise.None? || !scn.noise.value.enabled || scn.noise.value.events == [] || timelineEvents == 0 then 0
    else NoiseCount(scn.noise.value, timelineEvents)
  }

  /** `NoiseGenerator.generate` on a fresh generator. */
  function NoiseFor(scn: Scenario, entities: seq<Entity>, timeline: seq<Event>, rng: Stream): seq<Event> {
    if NoiseTotal(scn, |timeline|) == 0 then []
    else NoiseRun(scn, GroupByType(entities), scn.noise.value.events, Earliest(timeline), NoiseTotal(scn, |timeline|),
      rng).0
  }

  // ---------------------------------------------------------------- what noise looks like

  /** The n-th noise event belongs to no flow, carries the n-th noise id and falls inside the scenario's duration. */
  lemma {:induction false} NoiseRunShape(
      scn: Scenario, pools: map<string, seq<Entity>>, specs: seq<NoiseSpec>, first: int, n: nat, rng: Stream)
    requires specs != []
    ensures var es := NoiseRun(scn, pools, specs, first, n, rng).0;
      |es| == n
      && forall i :: 0 <= i < n ==>
           es[i].flow.None? && es[i].id == NoiseId(scn.id, i + 1) && first <= es[i].time <= first + scn.duration
  {
    hide NoiseId;
    if n > 0 {
      NoiseRunShape(scn, pools, specs, first, n - 1, rng);
    }
  }

  lemma {:induction false} NoiseShape(scn: Scenario, entities: seq<Entity>, timeline: seq<Event>, rng: Stream)
    ensures var es := NoiseFor(scn, entities, timeline, rng);
      |es| == NoiseTotal(scn, |timeline|)
      && DistinctIds(es)
      && forall i :: 0 <= i < |es| ==>
           es[i].flow.None? && es[i].id == NoiseId(scn.id, i + 1)
           && Earliest(timeline) <= es[i].time <= Earliest(timeline) + scn.duration
  {
    if NoiseTotal(scn, |timeline|) > 0 {
      var es := NoiseFor(scn, entities, timeline, rng);
      NoiseRunShape(scn, GroupByType(entities), scn.noise.value.events, Earliest(timeline), NoiseTotal(scn, |timeline|),
        rng);
      NumberedDistinct(scn.id, es);
    }
  }

  lemma {:induction false} NumberedDistinct(scenario: string, es: seq<Event>)
    requires forall i :: 0 <= i < |es| ==> es[i].id == NoiseId(scenario, i + 1)
    ensures DistinctIds(es)
  {
    forall i, j | 0 <= i < j < |es| ensures es[i].id != es[j].id {
      if es[i].id == es[j].id {
        NoiseIdInjective(scenario, i + 1, j + 1);
      }
    }
  }

  /**
   How much noise: the timeline's length times the ratio, to the nearest whole number and to the
   even one from the middle; none when noise is off, has no specs, or there is no timeline.
   */
  lemma {:induction false} NoiseAmount(scn: Scenario, entities: seq<Entity>, timeline: seq<Event>, rng: Stream)
    ensures var n := |NoiseFor(scn, entities, timeline, rng)|;
      if scn.noise.None? || !scn.noise.value.enabled || scn.noise.value.events == [] || timeline == [] then n == 0
      else
        var asked := |timeline| as real * scn.noise.value.ratio;
        if asked < 0.0 then n == 0
        else
          asked - 0.5 <= n as real <= asked + 0.5
          && (n as real == asked - 0.5 || n as real == asked + 0.5 ==> n % 2 == 0)
  {
    hide Round, NoiseFor, Earliest;
    NoiseShape(scn, entities, timeline, rng);
    if scn.noise.Some? {
      NearestEven(|timeline| as real * scn.noise.value.ratio);
    }
  }

  lemma {:induction false} NearestEven(asked: real)
    ensures var n := Max(0, Round(asked));
      if asked < 0.0 then n == 0
      else
        asked - 0.5 <= n as real <= asked + 0.5
        && (n as real == asked - 0.5 || n as real == asked + 0.5 ==> n % 2 == 0)
  {
    hide Round;
    RoundEven(asked);
    assert Round(asked) as real > -1.0 ==> Round(asked) >= 0;
    assert Round(asked) as real < 1.0 ==> Round(asked) <= 0;
  }

  /** The draws that give a noise event this place in the weighted list and this time. */
  function NoiseDraws(scn: Scenario, pos: nat, i: nat, offset: int): Stream {
    (p: nat) => if p == pos then Draw(0.0, i) else DrawBetween(0, scn.duration, offset)
  }

  /** Any configured spec can come out, at any time of the scenario's duration. */
  lemma {:induction false} NoiseReaches(
      scn: Scenario, pools: map<string, seq<Entity>>, specs: seq<NoiseSpec>, first: int, n: nat, pos: nat,
      s: NoiseSpec, t: int)
    returns (rng: Stream)
    requires s in specs && first <= t <= first + scn.duration
    ensures var e := NoiseEvent(scn, pools, specs, first, n, rng, pos).0;
      e.kind == s.event && e.attrs == s.attrs && e.time == t
  {
    hide Uniform, DrawBetween, ResolveNoiseRefs, Weighted, NoiseId;
    WeightedMembers(specs);
    var i :| 0 <= i < |Weighted(specs)| && Weighted(specs)[i] == s;
    rng := NoiseDraws(scn, pos, i, t - first);
    ChoiceReaches(|Weighted(specs)|, i);
    UniformReaches(0, scn.duration, t - first);
  }

  function TotalWeight(specs: seq<NoiseSpec>): nat {
    if specs == [] then 0 else TotalWeight(specs[..|specs| - 1]) + specs[|specs| - 1].weight
  }

  /** Choosing from the weighted list gives each spec a share of exactly its weight. */
  lemma {:induction false} WeightedShare(specs: seq<NoiseSpec>, k: nat)
    requires k < |specs|
    ensures |Weighted(specs)| == TotalWeight(specs)
    ensures TotalWeight(specs[..k]) + specs[k].weight <= TotalWeight(specs)
    ensures forall i :: TotalWeight(specs[..k]) <= i < TotalWeight(specs[..k]) + specs[k].weight ==>
      Weighted(specs)[i] == specs[k]
  {
    var n := |specs| - 1;
    if n > 0 {
      WeightedShare(specs[..n], if k < n then k else 0);
    }
    if k < n {
      assert specs[..n][..k] == specs[..k];
    }
  }

  // ---------------------------------------------------------------- references

  /** The noise specs that come out as they stand. */
  function NoiseLiterals(scn: Scenario): set<string> {
    if scn.noise.None? then {}
    else set s, i | s in scn.noise.value.events && 0 <= i < |s.refs| && IsNoiseLiteral(s.refs[i].1) :: s.refs[i].1
  }

  predicate IsNoiseLiteral(spec: string) { spec != "$flow" && !StartsWith(spec, "$entity.") }

  lemma {:induction false} WeightedMembers(specs: seq<NoiseSpec>)
    ensures forall s :: s in Weighted(specs) <==> s in specs
  {
    if specs != [] {
      var n := |specs| - 1;
      WeightedMembers(specs[..n]);
      assert specs == specs[..n] + [specs[n]];
      assert seq(specs[n].weight, i => specs[n])[0] == specs[n];
    }
  }

  /** A pool names only entities of the plan. */
  predicate PoolsOf(pools: map<string, seq<Entity>>, entities: seq<Entity>) {
    forall kind, e :: kind in pools && e in pools[kind] ==> e in entities
  }

  lemma {:induction false} PickFromOk(
      pools: map<string, seq<Entity>>, entities: seq<Entity>, kind: string, rng: Stream, pos: nat,
      literals: set<string>)
    requires PoolsOf(pools, entities)
    ensures RefOk(PickFrom(pools, kind, rng, pos).0, entities, literals)
  {
    if kind in pools && pools[kind] != [] {
      assert pools[kind][Choice(|pools[kind]|, rng(pos))] in pools[kind];
    }
  }

  lemma {:induction false} NoiseRefsOk(
      scn: Scenario, pools: map<string, seq<Entity>>, entities: seq<Entity>, specs: seq<(string, string)>,
      rng: Stream, pos: nat, k: nat, literals: set<string>)
    requires k <= |specs| && PoolsOf(pools, entities)
    requires forall i :: 0 <= i < |specs| && IsNoiseLiteral(specs[i].1) ==> specs[i].1 in literals
    ensures RefsOk(ResolveNoiseRefs(scn, pools, specs, rng, pos, k).0, entities, literals)
  {
    if k > 0 {
      NoiseRefsOk(scn, pools, entities, specs, rng, pos, k - 1, literals);
      var (refs, p) := ResolveNoiseRefs(scn, pools, specs, rng, pos, k - 1);
      if StartsWith(specs[k - 1].1, "$entity.") {
        PickFromOk(pools, entities, specs[k - 1].1[8..], rng, p, literals);
      }
      PickFromOk(pools, entities, OrElse(scn.forEach, ""), rng, p, literals);
      assert RefOk(ResolveNoiseRef(scn, pools, specs[k - 1].1, rng, p).0, entities, literals);
    }
  }

  lemma {:induction false} NoiseRunRefs(scn: Scenario, entities: seq<Entity>, first: int, n: nat, rng: Stream)
    requires scn.noise.Some? && scn.noise.value.events != []
    ensures forall e :: e in NoiseRun(scn, GroupByType(entities), scn.noise.value.events, first, n, rng).0 ==>
      RefsOk(e.refs, entities, NoiseLiterals(scn))
  {
    hide Weighted, NoiseId, GroupByType, NoiseSource, ResolveNoiseRefs;
    if n > 0 {
      NoiseRunRefs(scn, entities, first, n - 1, rng);
      var pools, specs := GroupByType(entities), scn.noise.value.events;
      var pos := NoiseRun(scn, pools, specs, first, n - 1, rng).1;
      var spec := Weighted(specs)[Choice(|Weighted(specs)|, rng(pos))];
      WeightedMembers(specs);
      GroupByTypeOk(entities);
      var p := NoiseSource(scn, spec, rng, pos + 1).1;
      NoiseRefsOk(scn, pools, entities, spec.refs, rng, p + 1, |spec.refs|, NoiseLiterals(scn));
    }
  }

  /** Every reference of a noise event is empty, an entity of the plan, or a literal of the configuration. */
  lemma {:induction false} NoiseReferences(scn: Scenario, entities: seq<Entity>, timeline: seq<Event>, rng: Stream)
    ensures forall e :: e in NoiseFor(scn, entities, timeline, rng) ==> RefsOk(e.refs, entities, NoiseLiterals(scn))
  {
    if NoiseTotal(scn, |timeline|) > 0 {
      NoiseRunRefs(scn, entities, Earliest(timeline), NoiseTotal(scn, |timeline|), rng);
    }
  }

  // ---------------------------------------------------------------- shift of the clock

  lemma {:induction false} NoiseRunShift(
      d: int, scn: Scenario, pools: map<string, seq<Entity>>, specs: seq<NoiseSpec>, first: int, n: nat, rng: Stream)
    requires specs != []
    ensures NoiseRun(scn, pools, specs, first + d, n, rng)
         == (ShiftAll(d, NoiseRun(scn, pools, specs, first, n, rng).0), NoiseRun(scn, pools, specs, first, n, rng).1)
  {
    hide NoiseId, Weighted, ResolveNoiseRefs, NoiseSource, Uniform;
    if n > 0 {
      NoiseRunShift(d, scn, pools, specs, first, n - 1, rng);
      var (events, pos) := NoiseRun(scn, pools, specs, first, n - 1, rng);
      var e := NoiseEvent(scn, pools, specs, first, n, rng, pos).0;
      assert NoiseEvent(scn, pools, specs, first + d, n, rng, pos).0 == Shift(d)(e);
      assert ShiftAll(d, events + [e]) == ShiftAll(d, events) + [Shift(d)(e)];
    } else {
      assert ShiftAll(d, []) == [];
    }
  }

  lemma {:induction false} EarliestShift(d: int, events: seq<Event>)
    requires events != []
    ensures Earliest(ShiftAll(d, events)) == Earliest(events) + d
  {
    if |events| > 1 {
      var n := |events| - 1;
      assert ShiftAll(d, events)[..n] == ShiftAll(d, events[..n]);
      EarliestShift(d, events[..n]);
    }
  }

  lemma {:induction false} NoiseShift(d: int, scn: Scenario, entities: seq<Entity>, timeline: seq<Event>, rng: Stream)
    ensures NoiseFor(scn, entities, ShiftAll(d, timeline), rng) == ShiftAll(d, NoiseFor(scn, entities, timeline, rng))
  {
    hide NoiseRun, GroupByType, Earliest;
    if NoiseTotal(scn, |timeline|) > 0 {
      EarliestShift(d, timeline);
      NoiseRunShift(d, scn, GroupByType(entities), scn.noise.value.events, Earliest(timeline),
        NoiseTotal(scn, |timeline|), rng);
    } else {
      assert ShiftAll(d, []) == [];
    }
  }
}
