/**
 Entity generation and timeline expansion as the source writes them: objects whose counters,
 pools, generator position and warnings change call by call (eventweave/compiler/planner.py).
 */
module Expander {
  import opened Common
  import opened Events
  import opened Rng
  import opened Scenarios
  import opened Ids
  import P = Planner
  import Pools = PlannerPools

  class EntityGenerator {
    var counter: map<string, nat>

    constructor ()
      ensures counter == map[]
    {
      counter := map[];
    }

    method NextId(key: string) returns (id: string)
      modifies this
      ensures counter == old(counter)[key := P.NextCount(old(counter), key)]
      ensures id == EntityId(key, counter[key])
    {
      counter := counter[key := P.NextCount(counter, key)];
      id := EntityId(key, counter[key]);
    }

    /** The pool a fresh generator makes: per template, its ids numbered from 1. */
    method Generate(templates: seq<Template>) returns (entities: seq<Entity>)
      requires Pools.DistinctKeys(templates) && counter == map[]
      modifies this
      ensures entities == P.Generate(templates)
    {
      entities := [];
      for i := 0 to |templates|
        invariant entities == P.Generate(templates[..i])
        invariant forall j :: i <= j < |templates| ==> templates[j].key !in counter
      {
        assert templates[..i + 1][..i] == templates[..i];
        entities := GenerateFrom(templates[i], entities);
      }
      assert templates[..|templates|] == templates;
    }

    method GenerateFrom(t: Template, before: seq<Entity>) returns (entities: seq<Entity>)
      requires t.key !in counter
      modifies this
      ensures entities == before + P.FromTemplate(t, t.count)
      ensures forall key :: key != t.key ==> (key in counter <==> key in old(counter))
    {
      entities := before;
      for n := 0 to t.count
        invariant entities == before + P.FromTemplate(t, n)
        invariant n == 0 ==> counter == old(counter)
        invariant n > 0 ==> t.key in counter && counter[t.key] == n
        invariant forall key :: key != t.key ==> (key in counter <==> key in old(counter))
      {
        var id := NextId(t.key);
        ConcatAssociative(before, P.FromTemplate(t, n), [Entity(id, P.KindOf(t))]);
        entities := entities + [Entity(id, P.KindOf(t))];
      }
    }

    method NewEntity(kind: string) returns (e: Entity)
      modifies this
      ensures counter == old(counter)[kind := P.NextCount(old(counter), kind)]
      ensures e == Entity(EntityId(kind, counter[kind]), kind)
    {
      var id := NextId(kind);
      e := Entity(id, kind);
    }
  }

  class TimelineExpander {
    const scn: Scenario
    const rng: Stream
    const startTime: int
    const entityGen: EntityGenerator
    var entities: seq<Entity>
    var byType: map<string, seq<Entity>>
    var pos: nat
    var warnings: seq<P.Warning>

    constructor (scn: Scenario, entities: seq<Entity>, rng: Stream, now: int)
      ensures this.scn == scn && this.rng == rng && startTime == now
      ensures this.entities == entities && pos == 0 && warnings == []
      ensures fresh(entityGen) && entityGen.counter == map[]
    {
      this.scn := scn;
      this.rng := rng;
      startTime := now;
      this.entities := entities;
      byType := map[];
      pos := 0;
      warnings := [];
      entityGen := new EntityGenerator();
    }

    /** Everything expansion mutates, as one value. */
    ghost function World(): P.World
      reads this, entityGen
    {
      P.World(entities, byType, entityGen.counter, pos, warnings)
    }

    /**
     For a loop that ends, the events and the final pools are those of the specification,
     whatever entities the expander was given. The primary list is read anew in every round:
     resolving `$new` references extends it.
     */
    method Expand(ghost n: nat) returns (events: seq<Event>)
      requires P.RoundsEnd(scn, P.Grouped(scn, World()), startTime, rng, n)
      modifies this, entityGen
      ensures var x := P.Rounds(scn, P.Grouped(scn, old(World())), startTime, rng, n);
        events == Sort(x.events) && World() == x.world
    {
      hide P.RunFlow, P.GroupByType, P.Generate;
      ghost var w := P.Grouped(scn, World());
      GroupEntities();
      var primaryType := PrimaryEntityType();
      events := [];
      var i := 0;
      while primaryType in byType && i < |byType[primaryType]|
        invariant i <= n
        invariant World() == P.Rounds(scn, w, startTime, rng, i).world
        invariant events == P.Rounds(scn, w, startTime, rng, i).events
        decreases n - i
      {
        if i == n {
          assert false;
        }
        var flowEvents := ExpandFlow(i + 1, byType[primaryType][i]);
        events := events + flowEvents;
        i := i + 1;
      }
      Pools.RoundsStay(scn, w, startTime, rng, i, n);
      events := Sort(events);
    }

    method GroupEntities()
      modifies this`byType
      ensures byType == P.GroupByType(entities)
    {
      byType := map[];
      for i := 0 to |entities|
        invariant byType == P.GroupByType(entities[..i])
      {
        assert entities[..i + 1][..i] == entities[..i];
        AddToPool(entities[i]);
      }
      assert entities[..|entities|] == entities;
    }

    /** `by_type.setdefault(entity.type, []).append(entity)` */
    method AddToPool(e: Entity)
      modifies this`byType
      ensures byType == P.AddTo(old(byType), e)
    {
      if e.kind !in byType {
        byType := byType[e.kind := []];
      }
      byType := byType[e.kind := byType[e.kind] + [e]];
    }

    method PrimaryEntityType() returns (kind: string)
      modifies this`warnings
      ensures kind == P.PrimaryType(scn)
      ensures warnings == old(warnings) + P.PrimaryWarnings(scn)
    {
      if scn.forEach.Some? && scn.forEach.value != "" {
        kind := scn.forEach.value;
        return;
      }
      if scn.timeline == [] {
        kind := "";
        return;
      }
      var first := scn.timeline[0];
      kind := P.FirstPart(first.event);
      warnings := warnings + [P.InferredPrimary(kind, first.event)];
    }

    /** Walks the timeline once for one primary entity. */
    method ExpandFlow(flowIndex: nat, primary: Entity) returns (flowEvents: seq<Event>)
      modifies this, entityGen
      ensures var st := P.RunFlow(scn, flowIndex, primary, startTime, rng, old(World()), |scn.timeline|);
        World() == st.world && flowEvents == st.events
    {
      ghost var w := World();
      var now := startTime;
      var prev: Option<int> := None;
      var byId: map<string, Event>, byKind: map<string, Event> := map[], map[];
      flowEvents := [];
      for k := 0 to |scn.timeline|
        invariant P.FlowState(World(), now, prev, byId, byKind, flowEvents)
               == P.RunFlow(scn, flowIndex, primary, startTime, rng, w, k)
      {
        hide P.ApplyStep;
        now, prev, byId, byKind, flowEvents :=
          TimelineStep(flowIndex, k + 1, primary, now, prev, byId, byKind, flowEvents);
      }
    }

    /** One item of the timeline: maybe skipped, else timed, resolved, emitted and remembered. */
    method TimelineStep(flowIndex: nat, k: nat, primary: Entity, now: int, prev: Option<int>,
                        byId: map<string, Event>, byKind: map<string, Event>, flowEvents: seq<Event>)
      returns (now': int, prev': Option<int>, byId': map<string, Event>, byKind': map<string, Event>,
        flowEvents': seq<Event>)
      requires 1 <= k <= |scn.timeline|
      modifies this, entityGen
      ensures P.FlowState(World(), now', prev', byId', byKind', flowEvents')
           == P.ApplyStep(scn, flowIndex, k, primary, startTime, rng,
             P.FlowState(old(World()), now, prev, byId, byKind, flowEvents))
    {
      hide P.ResolveRefs, P.AdvanceTime, P.StepJitter, EventId, Uniform;
      ghost var st := P.FlowState(World(), now, prev, byId, byKind, flowEvents);
      now', prev', byId', byKind', flowEvents' := now, prev, byId, byKind, flowEvents;
      var item := scn.timeline[k - 1];
      var draw := rng(pos).unit;
      pos := pos + 1;
      if draw > item.probability {
        return;
      }
      now' := AdvanceTime(item, now, byId, byKind, st);
      now' := JitterStep(item, now', prev);
      var refs := ResolveEntityRefs(item.refs, primary, byId);
      var e := Event(EventId(scn.id, flowIndex, k), Some(primary.id), P.SourceOf(scn, item), item.event, now', refs,
        item.attrs, item.labels);
      flowEvents' := flowEvents' + [e];
      byId' := byId'[OrElse(item.id, item.event) := e];
      byKind' := byKind'[item.event := e];
      prev' := Some(now');
    }

    method AdvanceTime(
        item: Step, now: int, byId: map<string, Event>, byKind: map<string, Event>, ghost st: P.FlowState)
      returns (t: int)
      requires st.now == now && st.byId == byId && st.byKind == byKind
      modifies this`pos
      ensures (t, pos) == P.AdvanceTime(item, startTime, st, rng, old(pos))
    {
      t := now;
      if item.at.Some? {
        t := startTime + item.at.value;
      } else if item.after.Some? && item.delay.Some? {
        var base := if item.after.value in byId then Some(byId[item.after.value])
                    else if item.after.value in byKind then Some(byKind[item.after.value])
                    else None;
        if base.Some? {
          t := base.value.time;
        }
        var d := ParseDelay(item.delay.value);
        t := t + d;
      }
    }

    method ParseDelay(delay: Delay) returns (d: int)
      modifies this`pos
      ensures (d, pos) == P.DelayOf(delay, rng, old(pos))
    {
      match delay
      case Fixed(n) => d := n;
      case Range(low, high) =>
        d := Uniform(low, high, rng(pos));
        pos := pos + 1;
    }

    method JitterStep(item: Step, now: int, prev: Option<int>) returns (t: int)
      modifies this`pos
      ensures (t, pos) == P.StepJitter(item, now, prev, rng, old(pos))
    {
      t := now;
      if item.jitter.Some? {
        t := t + Uniform(0 - item.jitter.value, item.jitter.value, rng(pos));
        pos := pos + 1;
        if prev.Some? {
          var minTime := prev.value + 1;
          if t < minTime {
            t := minTime;
          }
        }
      }
    }

    method ResolveEntityRefs(specs: seq<(string, string)>, primary: Entity, byId: map<string, Event>)
      returns (refs: map<string, string>)
      modifies this, entityGen
      ensures (World(), refs) == P.ResolveRefs(old(World()), specs, primary, byId, rng, |specs|)
    {
      ghost var w := World();
      refs := map["flow" := primary.id];
      for i := 0 to |specs|
        invariant (World(), refs) == P.ResolveRefs(w, specs, primary, byId, rng, i)
      {
        hide P.ResolveRef;
        var id := ResolveRef(specs[i].1, primary, byId);
        refs := refs[specs[i].0 := id];
      }
    }

    method ResolveRef(spec: string, primary: Entity, byId: map<string, Event>) returns (id: string)
      modifies this, entityGen
      ensures (World(), id) == P.ResolveRef(old(World()), spec, primary, byId, rng)
    {
      hide P.ParseRef, EntityId;
      id := "";
      match P.ParseRef(spec)
      case FlowRef =>
        id := primary.id;
      case AnyOf(kind) =>
        if kind in byType && byType[kind] != [] {
          id := Choose(byType[kind]);
        } else {
          warnings := warnings + [P.NoEntityOf(kind)];
        }
      case New(kind) =>
        var e := entityGen.NewEntity(kind);
        entities := entities + [e];
        AddToPool(e);
        id := e.id;
      case StepRef(step, role) =>
        if step in byId && role in byId[step].refs {
          id := byId[step].refs[role];
        } else {
          warnings := warnings + [P.Unresolved(spec)];
        }
      case Malformed =>
        warnings := warnings + [P.Unresolved(spec)];
      case Plain(name) =>
        if name in byType {
          if byType[name] != [] {
            id := Choose(byType[name]);
          }
        } else {
          id := name;
        }
    }

    method Choose(candidates: seq<Entity>) returns (id: string)
      requires candidates != []
      modifies this`pos
      ensures pos == old(pos) + 1
      ensures id == candidates[Choice(|candidates|, rng(old(pos)))].id
    {
      id := candidates[Choice(|candidates|, rng(pos))].id;
      pos := pos + 1;
    }
  }
}
