/**
 `ScenarioPlanner.compile` (eventweave/compiler/planner.py) as the source writes it: the four
 stages run one after the other on their own objects.
 */
module ScenarioPlanner {
  import opened Events
  import opened Jitter
  import opened Scenarios
  import opened Planner
  import opened Noise
  import opened Rng
  import opened Compile
  import Pools = PlannerPools
  import Expander
  import NoiseGenerator
  import Applier = JitterApplier

  /** Compiles a scenario whose expansion ends; the plan and its entities are those of the specification. */
  method CompileScenario(scn: Scenario, now: int, rngs: Streams, ghost n: nat)
    returns (events: seq<Event>, entities: seq<Entity>, warnings: seq<Warning>)
    requires Pools.DistinctKeys(scn.templates) && Halted(scn, now, rngs.timeline, n)
    ensures events == Plan(scn, now, rngs, n)
    ensures entities == PlanEntities(scn, now, rngs, n)
    ensures warnings == AfterFlows(scn, now, rngs.timeline, n).world.warnings
  {
    hide AfterFlows, Sort, Generate, NoiseFor, GroupByType, Halted, ApplyAt, PrimaryWarnings;
    var entityGen := new Expander.EntityGenerator();
    var generated := entityGen.Generate(scn.templates);
    var timeline;
    timeline, entities, warnings := ExpandTimeline(scn, generated, rngs.timeline, now, n);
    var noiseGen := new NoiseGenerator.NoiseGenerator(scn, entities, rngs.noise);
    var noise := noiseGen.Generate(timeline, entities);
    var all := timeline + noise;
    assert all == Unjittered(scn, now, rngs, n);

    var objects := Wrap(all);
    var applier := new Applier.JitterApplier(scn.jitter, rngs.jitter);
    var jittered := applier.Apply(objects, all);
    var retimed := Unwrap(jittered, ApplyAt(scn.jitter, all, rngs.jitter, 0));
    events := Sort(retimed);
  }

  /** A fresh expander for the generated entities. */
  method ExpandTimeline(scn: Scenario, generated: seq<Entity>, rng: Stream, now: int, ghost n: nat)
    returns (timeline: seq<Event>, entities: seq<Entity>, warnings: seq<Warning>)
    requires generated == Generate(scn.templates) && Halted(scn, now, rng, n)
    ensures timeline == Expand(scn, now, rng, n)
    ensures var w := AfterFlows(scn, now, rng, n).world; entities == w.entities && warnings == w.warnings
  {
    hide Rounds, Sort, Generate, GroupByType, PrimaryWarnings;
    var expander := new Expander.TimelineExpander(scn, generated, rng, now);
    assert [] + PrimaryWarnings(scn) == PrimaryWarnings(scn);
    assert Grouped(scn, expander.World()) == InitialWorld(scn);
    timeline := expander.Expand(n);
    entities, warnings := expander.entities, expander.warnings;
  }

  /** Event objects for a list of events. */
  method Wrap(events: seq<Event>) returns (objects: seq<Applier.EventObject>)
    ensures Applier.Distinct(objects) && Applier.Hold(objects, events)
    ensures forall o :: o in objects ==> fresh(o)
  {
    objects := [];
    for i := 0 to |events|
      invariant Applier.Distinct(objects) && Applier.Hold(objects, events[..i])
      invariant forall o :: o in objects ==> fresh(o)
    {
      var o := new Applier.EventObject(events[i]);
      assert o !in objects;
      objects := objects + [o];
    }
    assert events[..|events|] == events;
  }

  method Unwrap(objects: seq<Applier.EventObject>, ghost values: seq<Event>) returns (events: seq<Event>)
    requires Applier.Hold(objects, values)
    ensures events == values
  {
    events := [];
    for i := 0 to |objects|
      invariant events == values[..i]
    {
      assert objects[i].Value() == values[i];
      events := events + [objects[i].Value()];
    }
  }
}
