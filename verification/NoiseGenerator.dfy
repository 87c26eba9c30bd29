/**
 The noise generator as the source writes it: an object with its own generator, counter and
 entity table (eventweave/compiler/noise_generator.py).
 */
module NoiseGenerator {
  import opened Common
  import opened Events
  import opened Rng
  import opened Scenarios
  import opened Ids
  import opened Planner
  import opened Noise

  /** `_build_weighted_specs` */
  method BuildWeightedSpecs(specs: seq<NoiseSpec>) returns (weighted: seq<NoiseSpec>)
    ensures weighted == Weighted(specs)
  {
    weighted := [];
    for i := 0 to |specs|
      invariant weighted == Weighted(specs[..i])
    {
      assert specs[..i + 1][..i] == specs[..i];
      weighted := weighted + seq(specs[i].weight, k => specs[i]);
    }
    assert specs[..|specs|] == specs;
  }

  class NoiseGenerator {
    const scn: Scenario
    const rng: Stream
    const byType: map<string, seq<Entity>>
    var pos: nat
    var counter: nat

    constructor (scn: Scenario, entities: seq<Entity>, rng: Stream)
      ensures this.scn == scn && this.rng == rng && byType == GroupByType(entities)
      ensures pos == 0 && counter == 0
    {
      var table: map<string, seq<Entity>> := map[];
      for i := 0 to |entities|
        invariant table == GroupByType(entities[..i])
      {
        assert entities[..i + 1][..i] == entities[..i];
        if entities[i].kind !in table {
          table := table[entities[i].kind := []];
        }
        table := table[entities[i].kind := table[entities[i].kind] + [entities[i]]];
      }
      assert entities[..|entities|] == entities;
      this.scn := scn;
      this.rng := rng;
      byType := table;
      pos := 0;
      counter := 0;
    }

    /** On a fresh generator the events are those of the specification. */
    method Generate(timeline: seq<Event>, ghost entities: seq<Entity>) returns (noise: seq<Event>)
      requires byType == GroupByType(entities) && pos == 0 && counter == 0
      modifies this
      ensures noise == NoiseFor(scn, entities, timeline, rng)
    {
      hide Earliest, NoiseCount, NoiseRun, GroupByType;
      noise := [];
      if scn.noise.None? || !scn.noise.value.enabled || scn.noise.value.events == [] {
        return;
      }
      if timeline == [] {
        return;
      }
      var count := NoiseCount(scn.noise.value, |timeline|);
      if count == 0 {
        return;
      }
      var first := MinTime(timeline);
      noise := GenerateMany(scn.noise.value.events, first, count);
    }

    /** The loop of `generate`. */
    method GenerateMany(specs: seq<NoiseSpec>, first: int, count: nat) returns (noise: seq<Event>)
      requires specs != [] && pos == 0 && counter == 0
      modifies this
      ensures (noise, pos) == NoiseRun(scn, byType, specs, first, count, rng)
    {
      var weighted := BuildWeightedSpecs(specs);
      var sourceIds := SourceIds(scn);
      noise := [];
      for i := 0 to count
        invariant counter == i
        invariant (noise, pos) == NoiseRun(scn, byType, specs, first, i, rng)
      {
        var e := NextEvent(specs, weighted, sourceIds, first);
        noise := noise + [e];
      }
    }

    /** One round of the loop. */
    method NextEvent(
        ghost specs: seq<NoiseSpec>, weighted: seq<NoiseSpec>, sourceIds: seq<string>, first: int) returns (e: Event)
      requires specs != [] && weighted == Weighted(specs)
      requires sourceIds == SourceIds(scn)
      modifies this
      ensures counter == old(counter) + 1
      ensures (e, pos) == NoiseEvent(scn, byType, specs, first, counter, rng, old(pos))
    {
      hide Weighted, ResolveNoiseRefs;
      var spec := weighted[Choice(|weighted|, rng(pos))];
      pos := pos + 1;
      var source;
      if spec.source.Some? && spec.source.value != "" {
        source := spec.source.value;
      } else {
        source := sourceIds[Choice(|sourceIds|, rng(pos))];
        pos := pos + 1;
      }
      var time := first + Uniform(0, scn.duration, rng(pos));
      pos := pos + 1;
      counter := counter + 1;
      var refs := ResolveRefs(spec.refs);
      e := Event(NoiseId(scn.id, counter), None, source, spec.event, time, refs, spec.attrs, []);
    }

    method ResolveRefs(specs: seq<(string, string)>) returns (refs: map<string, string>)
      modifies this`pos
      ensures (refs, pos) == ResolveNoiseRefs(scn, byType, specs, rng, old(pos), |specs|)
    {
      refs := map[];
      ghost var start := pos;
      for i := 0 to |specs|
        invariant (refs, pos) == ResolveNoiseRefs(scn, byType, specs, rng, start, i)
      {
        var id := ResolveRef(specs[i].1);
        refs := refs[specs[i].0 := id];
      }
    }

    method ResolveRef(spec: string) returns (id: string)
      modifies this`pos
      ensures (id, pos) == ResolveNoiseRef(scn, byType, spec, rng, old(pos))
    {
      if StartsWith(spec, "$entity.") {
        id := PickOne(spec[8..]);
        return;
      }
      if spec == "$flow" {
        id := PickOne(OrElse(scn.forEach, ""));
        return;
      }
      id := spec;
    }

    /** `rng.choice` over the entities of a type, "" when there is none. */
    method PickOne(kind: string) returns (id: string)
      modifies this`pos
      ensures (id, pos) == PickFrom(byType, kind, rng, old(pos))
    {
      var candidates := if kind in byType then byType[kind] else [];
      if candidates != [] {
        id := candidates[Choice(|candidates|, rng(pos))].id;
        pos := pos + 1;
      } else {
        id := "";
      }
    }
  }

  /** `min(e.event_time for e in timeline_events)` */
  method MinTime(events: seq<Event>) returns (t: int)
    requires events != []
    ensures t == Earliest(events)
  {
    t := events[0].time;
    for i := 1 to |events|
      invariant t == Earliest(events[..i])
    {
      assert events[..i + 1][..i] == events[..i];
      if events[i].time < t {
        t := events[i].time;
      }
    }
    assert events[..|events|] == events;
  }
}
