/** What every run of the timeline expansion keeps. */
module PlannerProps {
  import opened Common
  import opened Events
  import opened Rng
  import opened Scenarios
  import opened Ids
  import opened Planner

  // ---------------------------------------------------------------- growth of the world

  ghost predicate IsEntityId(s: string) { exists k: string, n: nat :: s == EntityId(k, n) }

  /** Every pooled entity is a plan entity, and entity ids come from the generators. */
  ghost predicate WorldOk(w: World) {
    (forall kind, e :: kind in w.byType && e in w.byType[kind] ==> e in w.entities)
    && (forall e :: e in w.entities ==> IsEntityId(e.id))
  }

  lemma {:induction false} FromTemplateOk(t: Template, n: nat)
    ensures forall e :: e in FromTemplate(t, n) ==> IsEntityId(e.id)
  {
    if n > 0 {
      FromTemplateOk(t, n - 1);
      assert IsEntityId(EntityId(t.key, n));
    }
  }

  lemma {:induction false} GenerateOk(templates: seq<Template>)
    ensures forall e :: e in Generate(templates) ==> IsEntityId(e.id)
  {
    if templates != [] {
      var n := |templates| - 1;
      GenerateOk(templates[..n]);
      FromTemplateOk(templates[n], templates[n].count);
    }
  }

  lemma {:induction false} GroupByTypeOk(entities: seq<Entity>)
    ensures forall kind, e :: kind in GroupByType(entities) && e in GroupByType(entities)[kind] ==> e in entities
  {
    if entities != [] {
      var n := |entities| - 1;
      GroupByTypeOk(entities[..n]);
      assert forall e :: e in entities[..n] || e == entities[n] ==> e in entities;
    }
  }

  lemma {:induction false} InitialOk(scn: Scenario)
    ensures WorldOk(InitialWorld(scn))
  {
    GenerateOk(scn.templates);
    GroupByTypeOk(Generate(scn.templates));
  }

  predicate Grows(w: World, w': World) { w.entities <= w'.entities }

  lemma {:induction false} ResolveRefGrows(
      w: World, spec: string, primary: Entity, byId: map<string, Event>, rng: Stream)
    requires WorldOk(w)
    ensures var w' := ResolveRef(w, spec, primary, byId, rng).0; WorldOk(w') && Grows(w, w')
  {
    if ParseRef(spec).New? {
      var kind := ParseRef(spec).kind;
      assert IsEntityId(EntityId(kind, NextCount(w.counters, kind)));
    }
  }

  lemma {:induction false} ResolveRefsGrows(
      w: World, specs: seq<(string, string)>, primary: Entity, byId: map<string, Event>, rng: Stream, k: nat)
    requires WorldOk(w) && k <= |specs|
    ensures var w' := ResolveRefs(w, specs, primary, byId, rng, k).0; WorldOk(w') && Grows(w, w')
  {
    if k > 0 {
      ResolveRefsGrows(w, specs, primary, byId, rng, k - 1);
      ResolveRefGrows(ResolveRefs(w, specs, primary, byId, rng, k - 1).0, specs[k - 1].1, primary, byId, rng);
    }
  }

  // ---------------------------------------------------------------- references

  function EntityIds(entities: seq<Entity>): set<string> { set e | e in entities :: e.id }

  /** The specs of the timeline that may come out as they stand: plain names. */
  function Literals(scn: Scenario): set<string> {
    set k, i | 0 <= k < |scn.timeline| && 0 <= i < |scn.timeline[k].refs| && ParseRef(scn.timeline[k].refs[i].1).Plain?
      :: scn.timeline[k].refs[i].1
  }

  /** A reference is empty, an entity of the plan, or a literal of the scenario. */
  predicate RefOk(v: string, entities: seq<Entity>, literals: set<string>) {
    v == "" || v in EntityIds(entities) || v in literals
  }

  predicate RefsOk(refs: map<string, string>, entities: seq<Entity>, literals: set<string>) {
    forall role :: role in refs ==> RefOk(refs[role], entities, literals)
  }

  lemma {:induction false} RefsOkGrows(refs: map<string, string>, a: seq<Entity>, b: seq<Entity>, literals: set<string>)
    requires RefsOk(refs, a, literals) && a <= b
    ensures RefsOk(refs, b, literals)
  {
    assert forall e :: e in a ==> e in b;
  }

  lemma {:induction false} ResolveRefOk(
      w: World, spec: string, primary: Entity, byId: map<string, Event>, rng: Stream, literals: set<string>)
    requires WorldOk(w) && primary in w.entities
    requires forall id :: id in byId ==> RefsOk(byId[id].refs, w.entities, literals)
    requires ParseRef(spec).Plain? ==> spec in literals
    ensures var (w', v) := ResolveRef(w, spec, primary, byId, rng); RefOk(v, w'.entities, literals)
  {
    var (w', v) := ResolveRef(w, spec, primary, byId, rng);
    match ParseRef(spec) {
      case FlowRef =>
        assert primary in w'.entities;
      case AnyOf(kind) =>
        if Candidates(w, kind) != [] {
          var e := Candidates(w, kind)[Choice(|Candidates(w, kind)|, rng(w.pos))];
          assert e in w.byType[kind] && v == e.id && e in w'.entities;
        }
      case New(kind) =>
        var e := AddEntity(w, kind).1;
        assert e in w'.entities;
      case StepRef(step, role) =>
        if step in byId && role in byId[step].refs {
          assert RefOk(byId[step].refs[role], w.entities, literals);
        }
      case Malformed =>
      case Plain(name) =>
        if name in w.byType && w.byType[name] != [] {
          var e := w.byType[name][Choice(|w.byType[name]|, rng(w.pos))];
          assert e in w.byType[name] && v == e.id && e in w'.entities;
        }
    }
  }

  lemma {:induction false} ResolveRefsOk(
      w: World, specs: seq<(string, string)>, primary: Entity, byId: map<string, Event>, rng: Stream, k: nat,
      literals: set<string>)
    requires WorldOk(w) && primary in w.entities && k <= |specs|
    requires forall id :: id in byId ==> RefsOk(byId[id].refs, w.entities, literals)
    requires forall i :: 0 <= i < |specs| && ParseRef(specs[i].1).Plain? ==> specs[i].1 in literals
    ensures var (w', refs) := ResolveRefs(w, specs, primary, byId, rng, k); RefsOk(refs, w'.entities, literals)
  {
    if k > 0 {
      var (w1, refs1) := ResolveRefs(w, specs, primary, byId, rng, k - 1);
      ResolveRefsOk(w, specs, primary, byId, rng, k - 1, literals);
      ResolveRefsGrows(w, specs, primary, byId, rng, k - 1);
      forall id | id in byId ensures RefsOk(byId[id].refs, w1.entities, literals) {
        RefsOkGrows(byId[id].refs, w.entities, w1.entities, literals);
      }
      ResolveRefOk(w1, specs[k - 1].1, primary, byId, rng, literals);
      ResolveRefGrows(w1, specs[k - 1].1, primary, byId, rng);
      var (w2, id) := ResolveRef(w1, specs[k - 1].1, primary, byId, rng);
      RefsOkGrows(refs1, w1.entities, w2.entities, literals);
    } else {
      assert primary.id in EntityIds(w.entities);
    }
  }

  /** The invariant of the timeline loop. */
  ghost predicate FlowOk(scn: Scenario, primary: Entity, w: World, st: FlowState) {
    WorldOk(st.world) && Grows(w, st.world)
    && (forall id :: id in st.byId ==> RefsOk(st.byId[id].refs, st.world.entities, Literals(scn)))
    && (forall e :: e in st.events ==> RefsOk(e.refs, st.world.entities, Literals(scn)) && e.flow == Some(primary.id))
  }

  lemma {:induction false} RunFlowOk(
      scn: Scenario, flowIndex: nat, primary: Entity, start: int, rng: Stream, w: World, k: nat)
    requires WorldOk(w) && primary in w.entities && k <= |scn.timeline|
    ensures FlowOk(scn, primary, w, RunFlow(scn, flowIndex, primary, start, rng, w, k))
  {
    if k > 0 {
      RunFlowOk(scn, flowIndex, primary, start, rng, w, k - 1);
      ApplyStepOk(scn, flowIndex, k, primary, start, rng, w, RunFlow(scn, flowIndex, primary, start, rng, w, k - 1));
    }
  }

  lemma {:induction false} ApplyStepOk(
      scn: Scenario, flowIndex: nat, k: nat, primary: Entity, start: int, rng: Stream, w: World, st: FlowState)
    requires 1 <= k <= |scn.timeline| && primary in w.entities && FlowOk(scn, primary, w, st)
    ensures FlowOk(scn, primary, w, ApplyStep(scn, flowIndex, k, primary, start, rng, st))
  {
    var step := scn.timeline[k - 1];
    if Fires(step, rng, st.world.pos) {
      var (w2, refs) := StepRefs(step, start, st, primary, rng);
      StepRefsOk(scn, k, primary, start, rng, w, st);
      var e := NewEvent(scn, flowIndex, k, primary, StepTime(step, start, st, rng).0, refs);
      RecordOk(scn, primary, w, st, step, w2, e);
    }
  }

  lemma {:induction false} StepRefsOk(
      scn: Scenario, k: nat, primary: Entity, start: int, rng: Stream, w: World, st: FlowState)
    requires 1 <= k <= |scn.timeline| && primary in w.entities && FlowOk(scn, primary, w, st)
    ensures var (w2, refs) := StepRefs(scn.timeline[k - 1], start, st, primary, rng);
      WorldOk(w2) && Grows(st.world, w2) && RefsOk(refs, w2.entities, Literals(scn))
  {
    var step := scn.timeline[k - 1];
    var w1 := st.world.(pos := StepTime(step, start, st, rng).1);
    forall i | 0 <= i < |step.refs| && ParseRef(step.refs[i].1).Plain? ensures step.refs[i].1 in Literals(scn) {
      assert ParseRef(scn.timeline[k - 1].refs[i].1).Plain?;
    }
    ResolveRefsOk(w1, step.refs, primary, st.byId, rng, |step.refs|, Literals(scn));
    ResolveRefsGrows(w1, step.refs, primary, st.byId, rng, |step.refs|);
  }

  lemma {:induction false} RecordOk(
      scn: Scenario, primary: Entity, w: World, st: FlowState, step: Step, w2: World, e: Event)
    requires FlowOk(scn, primary, w, st) && WorldOk(w2) && Grows(st.world, w2)
    requires RefsOk(e.refs, w2.entities, Literals(scn)) && e.flow == Some(primary.id)
    ensures FlowOk(scn, primary, w, Record(st, step, w2, e))
  {
    forall x | x in st.events ensures RefsOk(x.refs, w2.entities, Literals(scn)) {
      RefsOkGrows(x.refs, st.world.entities, w2.entities, Literals(scn));
    }
    forall id | id in st.byId ensures RefsOk(st.byId[id].refs, w2.entities, Literals(scn)) {
      RefsOkGrows(st.byId[id].refs, st.world.entities, w2.entities, Literals(scn));
    }
  }

  /** The invariant of the outer loop. */
  ghost predicate ExpansionOk(scn: Scenario, x: Expansion) {
    WorldOk(x.world)
    && forall e :: e in x.events ==>
         RefsOk(e.refs, x.world.entities, Literals(scn)) && e.flow.Some? && IsEntityId(e.flow.value)
  }

  lemma {:induction false} AfterFlowsOk(scn: Scenario, start: int, rng: Stream, n: nat)
    ensures ExpansionOk(scn, AfterFlows(scn, start, rng, n))
  {
    if n == 0 {
      InitialOk(scn);
    } else {
      AfterFlowsOk(scn, start, rng, n - 1);
      var x := AfterFlows(scn, start, rng, n - 1);
      if n <= |Primaries(scn, x.world)| {
        var primary := Primaries(scn, x.world)[n - 1];
        assert primary in x.world.byType[PrimaryType(scn)];
        RunFlowOk(scn, n, primary, start, rng, x.world, |scn.timeline|);
        var fs := RunFlow(scn, n, primary, start, rng, x.world, |scn.timeline|);
        forall e | e in x.events ensures RefsOk(e.refs, fs.world.entities, Literals(scn)) {
          RefsOkGrows(e.refs, x.world.entities, fs.world.entities, Literals(scn));
        }
      }
    }
  }

  // ---------------------------------------------------------------- event ids

  /** The step numbers that fired in the first `k` steps of a flow. */
  ghost function Fired(
      scn: Scenario, flowIndex: nat, primary: Entity, start: int, rng: Stream, w: World, k: nat): seq<nat>
    requires k <= |scn.timeline|
  {
    if k == 0 then []
    else
      var st := RunFlow(scn, flowIndex, primary, start, rng, w, k - 1);
      Fired(scn, flowIndex, primary, start, rng, w, k - 1)
      + if Fires(scn.timeline[k - 1], rng, st.world.pos) then [k] else []
  }

  lemma {:induction false} FlowIds(
      scn: Scenario, flowIndex: nat, primary: Entity, start: int, rng: Stream, w: World, k: nat)
    requires k <= |scn.timeline|
    ensures var steps := Fired(scn, flowIndex, primary, start, rng, w, k);
      var es := RunFlow(scn, flowIndex, primary, start, rng, w, k).events;
      |steps| == |es|
      && (forall i :: 0 <= i < |es| ==> steps[i] <= k && es[i].id == EventId(scn.id, flowIndex, steps[i]))
      && (forall i, j :: 0 <= i < j < |es| ==> steps[i] < steps[j])
  {
    hide EventId, StepTime, StepRefs;
    if k > 0 {
      FlowIds(scn, flowIndex, primary, start, rng, w, k - 1);
    }
  }

  /** Timeline events carry pairwise distinct ids, each naming its flow and step. */
  lemma {:induction false} TimelineIds(scn: Scenario, start: int, rng: Stream, n: nat)
    ensures var es := AfterFlows(scn, start, rng, n).events;
      DistinctIds(es)
      && forall e :: e in es ==> exists f: nat, s: nat :: f <= n && e.id == EventId(scn.id, f, s)
  {
    hide EventId, RunFlow, Fired;
    if n > 0 {
      TimelineIds(scn, start, rng, n - 1);
      var x := AfterFlows(scn, start, rng, n - 1);
      if n <= |Primaries(scn, x.world)| {
        var primary := Primaries(scn, x.world)[n - 1];
        var es := RunFlow(scn, n, primary, start, rng, x.world, |scn.timeline|).events;
        var steps := Fired(scn, n, primary, start, rng, x.world, |scn.timeline|);
        FlowIds(scn, n, primary, start, rng, x.world, |scn.timeline|);
        forall i, j | 0 <= i < j < |es| ensures es[i].id != es[j].id {
          if es[i].id == es[j].id {
            EventIdInjective(scn.id, n, steps[i], n, steps[j]);
          }
        }
        forall i, j | 0 <= i < |x.events| && 0 <= j < |es| ensures x.events[i].id != es[j].id {
          assert x.events[i] in x.events;
          var f: nat, s: nat :| f <= n - 1 && x.events[i].id == EventId(scn.id, f, s);
          if x.events[i].id == es[j].id {
            EventIdInjective(scn.id, f, s, n, steps[j]);
          }
        }
        forall e | e in es ensures exists f: nat, s: nat :: f <= n && e.id == EventId(scn.id, f, s) {
          var i :| 0 <= i < |es| && es[i] == e;
          assert e.id == EventId(scn.id, n, steps[i]);
        }
      }
    }
  }

  // ---------------------------------------------------------------- shift of the clock

  function ShiftMap(d: int, m: map<string, Event>): map<string, Event> { map k | k in m :: Shift(d)(m[k]) }

  function ShiftState(d: int, st: FlowState): FlowState {
    FlowState(st.world, st.now + d, if st.prev.Some? then Some(st.prev.value + d) else None,
              ShiftMap(d, st.byId), ShiftMap(d, st.byKind), ShiftAll(d, st.events))
  }

  lemma {:induction false} ResolveRefsShift(
      d: int, w: World, specs: seq<(string, string)>, primary: Entity, byId: map<string, Event>, rng: Stream, k: nat)
    requires k <= |specs|
    ensures ResolveRefs(w, specs, primary, ShiftMap(d, byId), rng, k) == ResolveRefs(w, specs, primary, byId, rng, k)
  {
    if k > 0 {
      ResolveRefsShift(d, w, specs, primary, byId, rng, k - 1);
      var w1 := ResolveRefs(w, specs, primary, byId, rng, k - 1).0;
      assert ResolveRef(w1, specs[k - 1].1, primary, ShiftMap(d, byId), rng)
        == ResolveRef(w1, specs[k - 1].1, primary, byId, rng);
    }
  }

  lemma {:induction false} StepTimeShift(d: int, step: Step, start: int, st: FlowState, rng: Stream)
    ensures StepTime(step, start + d, ShiftState(d, st), rng)
      == (StepTime(step, start, st, rng).0 + d, StepTime(step, start, st, rng).1)
  {
    hide Uniform, ShiftAll;
  }

  lemma {:induction false} RecordShift(d: int, st: FlowState, step: Step, w: World, e: Event)
    ensures Record(ShiftState(d, st), step, w, Shift(d)(e)) == ShiftState(d, Record(st, step, w, e))
  {
    var key := OrElse(step.id, step.event);
    assert ShiftMap(d, st.byId)[key := Shift(d)(e)] == ShiftMap(d, st.byId[key := e]);
    assert ShiftMap(d, st.byKind)[step.event := Shift(d)(e)] == ShiftMap(d, st.byKind[step.event := e]);
    assert ShiftAll(d, st.events) + [Shift(d)(e)] == ShiftAll(d, st.events + [e]);
  }

  lemma {:induction false} ApplyStepShift(
      d: int, scn: Scenario, flowIndex: nat, k: nat, primary: Entity, start: int, rng: Stream, st: FlowState)
    requires 1 <= k <= |scn.timeline|
    ensures ApplyStep(scn, flowIndex, k, primary, start + d, rng, ShiftState(d, st))
         == ShiftState(d, ApplyStep(scn, flowIndex, k, primary, start, rng, st))
  {
    hide EventId, StepTime, ResolveRefs;
    var step := scn.timeline[k - 1];
    if Fires(step, rng, st.world.pos) {
      StepTimeShift(d, step, start, st, rng);
      var (t, pos) := StepTime(step, start, st, rng);
      ResolveRefsShift(d, st.world.(pos := pos), step.refs, primary, st.byId, rng, |step.refs|);
      var (w, refs) := StepRefs(step, start, st, primary, rng);
      assert StepRefs(step, start + d, ShiftState(d, st), primary, rng) == (w, refs);
      var e := NewEvent(scn, flowIndex, k, primary, t, refs);
      assert NewEvent(scn, flowIndex, k, primary, t + d, refs) == Shift(d)(e);
      RecordShift(d, st, step, w, e);
    }
  }

  lemma {:induction false} RunFlowShift(
      d: int, scn: Scenario, flowIndex: nat, primary: Entity, start: int, rng: Stream, w: World, k: nat)
    requires k <= |scn.timeline|
    ensures RunFlow(scn, flowIndex, primary, start + d, rng, w, k)
      == ShiftState(d, RunFlow(scn, flowIndex, primary, start, rng, w, k))
  {
    if k > 0 {
      RunFlowShift(d, scn, flowIndex, primary, start, rng, w, k - 1);
      ApplyStepShift(d, scn, flowIndex, k, primary, start, rng, RunFlow(scn, flowIndex, primary, start, rng, w, k - 1));
    } else {
      assert ShiftMap(d, map[]) == map[];
      assert ShiftAll(d, []) == [];
    }
  }

  /** Starting `d` later changes nothing but the times, all of which move by `d`. */
  lemma {:induction false} AfterFlowsShift(d: int, scn: Scenario, start: int, rng: Stream, n: nat)
    ensures AfterFlows(scn, start + d, rng, n).world == AfterFlows(scn, start, rng, n).world
    ensures AfterFlows(scn, start + d, rng, n).events == ShiftAll(d, AfterFlows(scn, start, rng, n).events)
  {
    if n > 0 {
      AfterFlowsShift(d, scn, start, rng, n - 1);
      var x := AfterFlows(scn, start, rng, n - 1);
      if n <= |Primaries(scn, x.world)| {
        var primary := Primaries(scn, x.world)[n - 1];
        RunFlowShift(d, scn, n, primary, start, rng, x.world, |scn.timeline|);
        MapAppend(Shift(d), x.events, RunFlow(scn, n, primary, start, rng, x.world, |scn.timeline|).events);
      }
    }
  }
}
