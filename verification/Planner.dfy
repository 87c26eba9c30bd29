/**
 Entity generation and timeline expansion (eventweave/compiler/planner.py), as functions
 of the scenario, the random stream and the start time. Module Expander holds the same
 code in the source's imperative form and proves it equal to these functions.
 */
module Planner {
  import opened Common
  import opened Events
  import opened Rng
  import opened Scenarios
  import opened Ids

  // ---------------------------------------------------------------- reference specs

  datatype RefSpec =
    | FlowRef
    | AnyOf(kind: string)
    | New(kind: string)
    | StepRef(step: string, role: string)
    | Malformed
    | Plain(name: string)

  predicate StartsWith(s: string, prefix: string) { |prefix| <= |s| && s[..|prefix|] == prefix }

  /** Position of the last '.' of `s`, or -1. */
  function LastDot(s: string): (i: int)
    ensures -1 <= i < |s|
    ensures i >= 0 ==> s[i] == '.'
    ensures forall j :: i < j < |s| ==> s[j] != '.'
  {
    if s == "" then -1 else if s[|s| - 1] == '.' then |s| - 1 else LastDot(s[..|s| - 1])
  }

  /** How `_resolve_ref` reads a spec; `$ref.<step>.<role>` splits at its last dot. */
  function ParseRef(s: string): RefSpec {
    if s == "$flow" then FlowRef
    else if StartsWith(s, "$entity.") then AnyOf(s[8..])
    else if StartsWith(s, "$new.") then New(s[5..])
    else if StartsWith(s, "$ref.") then
      var rest := s[5..];
      var dot := LastDot(rest);
      if dot < 0 then Malformed else StepRef(rest[..dot], rest[dot + 1..])
    else Plain(s)
  }

  // ---------------------------------------------------------------- the entity pools

  datatype Warning =
    | InferredPrimary(kind: string, event: string)
    | NoEntityOf(kind: string)
    | Unresolved(spec: string)

  /** What expansion mutates besides the current flow: entity pools, id counters, generator, warnings. */
  datatype World = World(
    entities: seq<Entity>,
    byType: map<string, seq<Entity>>,
    counters: map<string, nat>,
    pos: nat,
    warnings: seq<Warning>)

  function KindOf(t: Template): string { OrElse(t.kind, t.key) }

  /** The first `n` entities of one template. */
  function FromTemplate(t: Template, n: nat): seq<Entity> {
    if n == 0 then [] else FromTemplate(t, n - 1) + [Entity(EntityId(t.key, n), KindOf(t))]
  }

  /** `EntityGenerator.generate`. */
  function Generate(templates: seq<Template>): seq<Entity> {
    if templates == [] then []
    else
      var n := |templates| - 1;
      Generate(templates[..n]) + FromTemplate(templates[n], templates[n].count)
  }

  function AddTo(byType: map<string, seq<Entity>>, e: Entity): map<string, seq<Entity>> {
    byType[e.kind := (if e.kind in byType then byType[e.kind] else []) + [e]]
  }

  function GroupByType(entities: seq<Entity>): map<string, seq<Entity>> {
    if entities == [] then map[]
    else AddTo(GroupByType(entities[..|entities| - 1]), entities[|entities| - 1])
  }

  /** The text before the first dot. */
  function FirstPart(s: string): string {
    if s == "" || s[0] == '.' then "" else [s[0]] + FirstPart(s[1..])
  }

  function PrimaryType(scn: Scenario): string {
    if scn.forEach.Some? && scn.forEach.value != "" then scn.forEach.value
    else if scn.timeline == [] then ""
    else FirstPart(scn.timeline[0].event)
  }

  function PrimaryWarnings(scn: Scenario): seq<Warning> {
    if (scn.forEach.Some? && scn.forEach.value != "") || scn.timeline == [] then []
    else [InferredPrimary(FirstPart(scn.timeline[0].event), scn.timeline[0].event)]
  }

  function InitialWorld(scn: Scenario): World {
    var entities := Generate(scn.templates);
    World(entities, GroupByType(entities), map[], 0, PrimaryWarnings(scn))
  }

  function Candidates(w: World, kind: string): seq<Entity> {
    if kind in w.byType then w.byType[kind] else []
  }

  function NextCount(counters: map<string, nat>, kind: string): nat {
    (if kind in counters then counters[kind] else 0) + 1
  }

  /** `$new.<kind>`: a fresh entity, numbered by the expander's own counters. */
  function AddEntity(w: World, kind: string): (World, Entity) {
    var n := NextCount(w.counters, kind);
    var e := Entity(EntityId(kind, n), kind);
    (w.(entities := w.entities + [e], byType := AddTo(w.byType, e), counters := w.counters[kind := n]), e)
  }

  function Pick(w: World, candidates: seq<Entity>, rng: Stream): (World, string)
    requires candidates != []
  {
    (w.(pos := w.pos + 1), candidates[Choice(|candidates|, rng(w.pos))].id)
  }

  function Warn(w: World, warning: Warning): World { w.(warnings := w.warnings + [warning]) }

  /** `_resolve_ref` */
  function ResolveRef(w: World, spec: string, primary: Entity, byId: map<string, Event>, rng: Stream): (World, string) {
    match ParseRef(spec)
    case FlowRef => (w, primary.id)
    case AnyOf(kind) =>
      if Candidates(w, kind) != [] then Pick(w, Candidates(w, kind), rng)
      else (Warn(w, NoEntityOf(kind)), "")
    case New(kind) => var (w', e) := AddEntity(w, kind); (w', e.id)
    case StepRef(step, role) =>
      if step in byId && role in byId[step].refs then (w, byId[step].refs[role])
      else (Warn(w, Unresolved(spec)), "")
    case Malformed => (Warn(w, Unresolved(spec)), "")
    case Plain(name) =>
      if name !in w.byType then (w, name)
      else if w.byType[name] != [] then Pick(w, w.byType[name], rng)
      else (w, "")
  }

  /** `_resolve_entity_refs` after the first `k` specs. */
  function ResolveRefs(
      w: World, specs: seq<(string, string)>, primary: Entity, byId: map<string, Event>, rng: Stream, k: nat)
    : (World, map<string, string>)
    requires k <= |specs|
  {
    if k == 0 then (w, map["flow" := primary.id])
    else
      var (w1, refs) := ResolveRefs(w, specs, primary, byId, rng, k - 1);
      var (w2, id) := ResolveRef(w1, specs[k - 1].1, primary, byId, rng);
      (w2, refs[specs[k - 1].0 := id])
  }

  // ---------------------------------------------------------------- one flow

  datatype FlowState = FlowState(
    world: World,
    now: int,
    prev: Option<int>,
    byId: map<string, Event>,
    byKind: map<string, Event>,
    events: seq<Event>)

  /** The predecessor a step's delay is measured from: by step id, else by event type. */
  function BaseOf(st: FlowState, after: string): Option<Event> {
    if after in st.byId then Some(st.byId[after])
    else if after in st.byKind then Some(st.byKind[after])
    else None
  }

  /** `_parse_delay`: a fixed delay draws nothing. */
  function DelayOf(d: Delay, rng: Stream, pos: nat): (int, nat) {
    match d
    case Fixed(n) => (n, pos)
    case Range(low, high) => (Uniform(low, high, rng(pos)), pos + 1)
  }

  /** The step's time before its own jitter, and the generator position after it. */
  function AdvanceTime(step: Step, start: int, st: FlowState, rng: Stream, pos: nat): (int, nat) {
    if step.at.Some? then (start + step.at.value, pos)
    else if step.after.Some? && step.delay.Some? then
      var base := BaseOf(st, step.after.value);
      var (d, pos') := DelayOf(step.delay.value, rng, pos);
      ((if base.Some? then base.value.time else st.now) + d, pos')
    else (st.now, pos)
  }

  function StepJitter(step: Step, t: int, prev: Option<int>, rng: Stream, pos: nat): (int, nat) {
    if step.jitter.None? then (t, pos)
    else
      var t' := t + Uniform(0 - step.jitter.value, step.jitter.value, rng(pos));
      (if prev.Some? && t' < prev.value + 1 then prev.value + 1 else t', pos + 1)
  }

  predicate Fires(step: Step, rng: Stream, pos: nat) { rng(pos).unit <= step.probability }

  function SourceOf(scn: Scenario, step: Step): string {
    OrElse(step.source, if scn.sources != [] then scn.sources[0] else "default")
  }

  /** The time of a firing step, and the generator position after it. */
  function StepTime(step: Step, start: int, st: FlowState, rng: Stream): (int, nat) {
    var (t, pos) := AdvanceTime(step, start, st, rng, st.world.pos + 1);
    StepJitter(step, t, st.prev, rng, pos)
  }

  function StepRefs(step: Step, start: int, st: FlowState, primary: Entity, rng: Stream): (World, map<string, string>) {
    ResolveRefs(st.world.(pos := StepTime(step, start, st, rng).1), step.refs, primary, st.byId, rng, |step.refs|)
  }

  function NewEvent(scn: Scenario, flowIndex: nat, k: nat, primary: Entity, t: int, refs: map<string, string>): Event
    requires 1 <= k <= |scn.timeline|
  {
    var step := scn.timeline[k - 1];
    Event(EventId(scn.id, flowIndex, k), Some(primary.id), SourceOf(scn, step), step.event, t, refs, step.attrs,
      step.labels)
  }

  /** Remembers a new event under its step id and its event type. */
  function Record(st: FlowState, step: Step, world: World, e: Event): FlowState {
    FlowState(world, e.time, Some(e.time), st.byId[OrElse(step.id, step.event) := e], st.byKind[step.event := e],
      st.events + [e])
  }

  /** One round of the timeline loop for step number `k` (from 1). */
  function ApplyStep(
      scn: Scenario, flowIndex: nat, k: nat, primary: Entity, start: int, rng: Stream, st: FlowState): FlowState
    requires 1 <= k <= |scn.timeline|
  {
    var step := scn.timeline[k - 1];
    if !Fires(step, rng, st.world.pos) then st.(world := st.world.(pos := st.world.pos + 1))
    else
      var (world, refs) := StepRefs(step, start, st, primary, rng);
      Record(st, step, world, NewEvent(scn, flowIndex, k, primary, StepTime(step, start, st, rng).0, refs))
  }

  /** `_expand_flow` after the first `k` steps of the timeline. */
  function RunFlow(scn: Scenario, flowIndex: nat, primary: Entity, start: int, rng: Stream, w: World, k: nat): FlowState
    requires k <= |scn.timeline|
  {
    if k == 0 then FlowState(w, start, None, map[], map[], [])
    else ApplyStep(scn, flowIndex, k, primary, start, rng, RunFlow(scn, flowIndex, primary, start, rng, w, k - 1))
  }

  // ---------------------------------------------------------------- all flows

  datatype Expansion = Expansion(world: World, events: seq<Event>)

  /** The list the outer loop walks. `$new.<primary type>` appends to it while it is walked. */
  function Primaries(scn: Scenario, w: World): seq<Entity> { Candidates(w, PrimaryType(scn)) }

  /** The world of an expander that holds these entities, once it has grouped them. */
  function Grouped(scn: Scenario, w: World): World {
    w.(byType := GroupByType(w.entities), warnings := w.warnings + PrimaryWarnings(scn))
  }

  /** The state after `n` rounds of the outer loop from `w` on; a finished loop stays where it is. */
  function Rounds(scn: Scenario, w: World, start: int, rng: Stream, n: nat): Expansion {
    if n == 0 then Expansion(w, [])
    else
      var x := Rounds(scn, w, start, rng, n - 1);
      if n <= |Primaries(scn, x.world)| then
        var fs := RunFlow(scn, n, Primaries(scn, x.world)[n - 1], start, rng, x.world, |scn.timeline|);
        Expansion(fs.world, x.events + fs.events)
      else x
  }

  /** The same from the entities the scenario generates. */
  function AfterFlows(scn: Scenario, start: int, rng: Stream, n: nat): Expansion {
    Rounds(scn, InitialWorld(scn), start, rng, n)
  }

  /** The outer loop has come to its end after `n` rounds. */
  predicate RoundsEnd(scn: Scenario, w: World, start: int, rng: Stream, n: nat) {
    |Primaries(scn, Rounds(scn, w, start, rng, n).world)| <= n
  }

  predicate Halted(scn: Scenario, start: int, rng: Stream, n: nat) {
    |Primaries(scn, AfterFlows(scn, start, rng, n).world)| <= n
  }

  /** `TimelineExpander.expand`, for a loop that ends within `n` rounds. */
  function Expand(scn: Scenario, start: int, rng: Stream, n: nat): seq<Event> {
    Sort(AfterFlows(scn, start, rng, n).events)
  }
}
