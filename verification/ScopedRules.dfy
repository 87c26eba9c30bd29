/**
 Scoped rules on compiled plans (eventweave/compiler/rules.py:32-36 with
 eventweave/compiler/planner.py:198-267): roles that always name the flow itself, and the exact
 limit of jitter for any other scope.
 */
module ScopedRules {
  import opened Common
  import opened Events
  import opened Rng
  import opened Jitter
  import opened Scenarios
  import opened Ids
  import opened Planner
  import opened PlannerProps
  import opened Noise
  import opened Rules
  import opened Interleavings
  import opened RuleLimits
  import opened Compile

  /** Wherever a step sets one of these roles, it takes the flow itself, or one of these roles of an earlier step. */
  predicate FlowRoles(scn: Scenario, roles: set<string>) {
    forall k, i :: 0 <= k < |scn.timeline| && 0 <= i < |scn.timeline[k].refs| && scn.timeline[k].refs[i].0 in roles ==>
      FlowSpec(ParseRef(scn.timeline[k].refs[i].1), roles)
  }

  predicate FlowSpec(spec: RefSpec, roles: set<string>) {
    spec.FlowRef? || spec.Malformed? || (spec.StepRef? && spec.role in roles)
  }

  /** No noise spec sets this role. */
  predicate NoiseAvoids(scn: Scenario, role: string) {
    scn.noise.Some? ==>
      forall s, i :: s in scn.noise.value.events && 0 <= i < |s.refs| ==> s.refs[i].0 != role
  }

  /** These roles name the flow, or are empty. */
  predicate NamesFlow(refs: map<string, string>, roles: set<string>, flow: string) {
    forall role :: role in roles && role in refs ==> refs[role] == flow || refs[role] == ""
  }

  // ---------------------------------------------------------------- the timeline

  lemma {:induction false} ResolveNamesFlow(
      w: World, specs: seq<(string, string)>, primary: Entity, byId: map<string, Event>, rng: Stream, k: nat,
      roles: set<string>)
    requires k <= |specs|
    requires forall i :: 0 <= i < |specs| && specs[i].0 in roles ==> FlowSpec(ParseRef(specs[i].1), roles)
    requires forall id :: id in byId ==> NamesFlow(byId[id].refs, roles, primary.id)
    ensures NamesFlow(ResolveRefs(w, specs, primary, byId, rng, k).1, roles, primary.id)
  {
    hide ParseRef, EntityId;
    if k > 0 {
      ResolveNamesFlow(w, specs, primary, byId, rng, k - 1, roles);
      var (w1, refs) := ResolveRefs(w, specs, primary, byId, rng, k - 1);
      var v := ResolveRef(w1, specs[k - 1].1, primary, byId, rng).1;
      if specs[k - 1].0 in roles {
        assert FlowSpec(ParseRef(specs[k - 1].1), roles);
        assert v == primary.id || v == "";
      }
    }
  }

  /** The invariant of the timeline loop. */
  predicate FlowNamed(st: FlowState, roles: set<string>, flow: string) {
    (forall id :: id in st.byId ==> NamesFlow(st.byId[id].refs, roles, flow))
    && forall e :: e in st.events ==> e.flow == Some(flow) && NamesFlow(e.refs, roles, flow)
  }

  lemma {:induction false} RunFlowNamed(
      scn: Scenario, f: nat, primary: Entity, start: int, rng: Stream, w: World, k: nat, roles: set<string>)
    requires k <= |scn.timeline| && FlowRoles(scn, roles)
    ensures FlowNamed(RunFlow(scn, f, primary, start, rng, w, k), roles, primary.id)
  {
    hide EventId, StepTime, ResolveRefs, NamesFlow, FlowSpec, ParseRef;
    if k > 0 {
      RunFlowNamed(scn, f, primary, start, rng, w, k - 1, roles);
      var st := RunFlow(scn, f, primary, start, rng, w, k - 1);
      var step := scn.timeline[k - 1];
      if Fires(step, rng, st.world.pos) {
        var w1 := st.world.(pos := StepTime(step, start, st, rng).1);
        ResolveNamesFlow(w1, step.refs, primary, st.byId, rng, |step.refs|, roles);
      }
    }
  }

  lemma {:induction false} AfterFlowsNamed(scn: Scenario, start: int, rng: Stream, n: nat, roles: set<string>)
    requires FlowRoles(scn, roles)
    ensures forall e :: e in AfterFlows(scn, start, rng, n).events ==>
      e.flow.Some? && NamesFlow(e.refs, roles, e.flow.value)
  {
    hide RunFlow, NamesFlow, FlowRoles;
    if n > 0 {
      AfterFlowsNamed(scn, start, rng, n - 1, roles);
      var x := AfterFlows(scn, start, rng, n - 1);
      if n <= |Primaries(scn, x.world)| {
        RunFlowNamed(scn, n, Primaries(scn, x.world)[n - 1], start, rng, x.world, |scn.timeline|, roles);
      }
    }
  }

  // ---------------------------------------------------------------- noise

  lemma {:induction false} NoiseRoles(
      scn: Scenario, pools: map<string, seq<Entity>>, specs: seq<(string, string)>, rng: Stream, pos: nat, k: nat,
      role: string)
    requires k <= |specs| && forall i :: 0 <= i < |specs| ==> specs[i].0 != role
    ensures role !in ResolveNoiseRefs(scn, pools, specs, rng, pos, k).0
  {
    if k > 0 {
      NoiseRoles(scn, pools, specs, rng, pos, k - 1, role);
    }
  }

  lemma {:induction false} NoiseRunRoles(
      scn: Scenario, pools: map<string, seq<Entity>>, first: int, n: nat, rng: Stream, role: string)
    requires scn.noise.Some? && scn.noise.value.events != [] && NoiseAvoids(scn, role)
    ensures forall e :: e in NoiseRun(scn, pools, scn.noise.value.events, first, n, rng).0 ==> role !in e.refs
  {
    hide Weighted, NoiseId, Uniform, ResolveNoiseRefs;
    if n > 0 {
      NoiseRunRoles(scn, pools, first, n - 1, rng, role);
      var specs := scn.noise.value.events;
      var pos := NoiseRun(scn, pools, specs, first, n - 1, rng).1;
      var spec := Weighted(specs)[Choice(|Weighted(specs)|, rng(pos))];
      WeightedMembers(specs);
      var p := NoiseSource(scn, spec, rng, pos + 1).1;
      NoiseRoles(scn, pools, spec.refs, rng, p + 1, |spec.refs|, role);
    }
  }

  lemma {:induction false} NoiseWithout(
      scn: Scenario, entities: seq<Entity>, timeline: seq<Event>, rng: Stream, role: string)
    requires NoiseAvoids(scn, role)
    ensures forall e :: e in NoiseFor(scn, entities, timeline, rng) ==> e.flow.None? && role !in e.refs
  {
    hide NoiseRun, GroupByType, NoiseAvoids;
    NoiseMembers(scn, entities, timeline, rng);
    if NoiseTotal(scn, |timeline|) > 0 {
      NoiseRunRoles(scn, GroupByType(entities), Earliest(timeline), NoiseTotal(scn, |timeline|), rng, role);
    }
  }

  // ---------------------------------------------------------------- compiled plans

  lemma {:induction false} KeyIsFlow(e: Event, role: string, roles: set<string>)
    requires role in roles && e.flow.Some? && IsEntityId(e.flow.value) && NamesFlow(e.refs, roles, e.flow.value)
    ensures ScopeKey(e, Some(role)) == e.flow.value && e.flow.value != "global"
  {
    hide EntityId;
    var kind, c: nat :| e.flow.value == EntityId(kind, c);
    EntityIdNotGlobal(kind, c);
  }

  lemma {:induction false} KeysAreFlows(
      scn: Scenario, start: int, rngs: Streams, n: nat, role: string, roles: set<string>, e: Event)
    requires FlowRoles(scn, roles) && role in roles && NoiseAvoids(scn, role)
    requires e in Unjittered(scn, start, rngs, n)
    ensures if e.flow.Some? then ScopeKey(e, Some(role)) == e.flow.value && e.flow.value != "global"
            else ScopeKey(e, Some(role)) == "global"
  {
    hide AfterFlows, Expand, NoiseFor, NamesFlow, FlowRoles, NoiseAvoids, IsEntityId;
    ExpandMembers(scn, start, rngs.timeline, n);
    AfterFlowsNamed(scn, start, rngs.timeline, n, roles);
    var timeline := Expand(scn, start, rngs.timeline, n);
    NoiseWithout(scn, PlanEntities(scn, start, rngs, n), timeline, rngs.noise, role);
    if e in timeline {
      KeyIsFlow(e, role, roles);
    }
  }

  /**
   A rule scoped by a role that always names the flow keeps its verdict under order-preserving
   jitter. `flow` itself is such a role when no step redefines it, and so is any role that every
   step takes as `$flow` or by `$ref` from such a role.
   */
  lemma {:induction false} FlowScopeVerdict(
      rule: Rule, scn: Scenario, start: int, rngs: Streams, n: nat, role: string, roles: set<string>)
    requires rule.scope == Some(role) && role in roles && FlowRoles(scn, roles) && NoiseAvoids(scn, role)
    requires KeepsOrder(scn.jitter)
    ensures Verdict(rule, Plan(scn, start, rngs, n)) <==> Verdict(rule, Sort(Unjittered(scn, start, rngs, n)))
  {
    hide Sort, Apply, Unjittered, Verdict, ScopeKey, FlowRoles, NoiseAvoids;
    var all := Unjittered(scn, start, rngs, n);
    forall a, b | a in all && b in all && ScopeKey(a, rule.scope) == ScopeKey(b, rule.scope) ensures a.flow == b.flow {
      KeysAreFlows(scn, start, rngs, n, role, roles, a);
      KeysAreFlows(scn, start, rngs, n, role, roles, b);
    }
    JitterKeepsVerdict(rule, scn.jitter, all, rngs.jitter);
  }

  /** The default role: `flow`, as long as no step sets it otherwise. */
  lemma {:induction false} DefaultFlowRole(scn: Scenario)
    requires forall k, i :: 0 <= k < |scn.timeline| && 0 <= i < |scn.timeline[k].refs| ==>
      scn.timeline[k].refs[i].0 != "flow"
    ensures FlowRoles(scn, {"flow"})
  {
  }

  /** So a rule scoped by `flow` keeps its verdict, unless a step or noise redefines that role. */
  lemma {:induction false} FlowRuleVerdict(rule: Rule, scn: Scenario, start: int, rngs: Streams, n: nat)
    requires rule.scope == Some("flow") && NoiseAvoids(scn, "flow") && KeepsOrder(scn.jitter)
    requires forall k, i :: 0 <= k < |scn.timeline| && 0 <= i < |scn.timeline[k].refs| ==>
      scn.timeline[k].refs[i].0 != "flow"
    ensures Verdict(rule, Plan(scn, start, rngs, n)) <==> Verdict(rule, Sort(Unjittered(scn, start, rngs, n)))
  {
    hide Plan, Unjittered, Sort, Verdict, FlowRoles, NoiseAvoids;
    DefaultFlowRole(scn);
    FlowScopeVerdict(rule, scn, start, rngs, n, "flow", {"flow"});
  }

  // ---------------------------------------------------------------- any scope

  lemma {:induction false} RunFlowIgnoresJitter(
      scn: Scenario, c: Option<JitterConfig>, f: nat, primary: Entity, start: int, rng: Stream, w: World, k: nat)
    requires k <= |scn.timeline|
    ensures RunFlow(scn.(jitter := c), f, primary, start, rng, w, k) == RunFlow(scn, f, primary, start, rng, w, k)
  {
    hide EventId, StepTime, StepRefs;
    if k > 0 {
      RunFlowIgnoresJitter(scn, c, f, primary, start, rng, w, k - 1);
    }
  }

  lemma {:induction false} AfterFlowsIgnoresJitter(
      scn: Scenario, c: Option<JitterConfig>, start: int, rng: Stream, n: nat)
    ensures AfterFlows(scn.(jitter := c), start, rng, n) == AfterFlows(scn, start, rng, n)
  {
    if n > 0 {
      hide RunFlow;
      AfterFlowsIgnoresJitter(scn, c, start, rng, n - 1);
      var x := AfterFlows(scn, start, rng, n - 1);
      if n <= |Primaries(scn, x.world)| {
        RunFlowIgnoresJitter(scn, c, n, Primaries(scn, x.world)[n - 1], start, rng, x.world, |scn.timeline|);
      }
    }
  }

  lemma {:induction false} NoiseRefsIgnoreJitter(
      scn: Scenario, c: Option<JitterConfig>, pools: map<string, seq<Entity>>, specs: seq<(string, string)>,
      rng: Stream, pos: nat, k: nat)
    requires k <= |specs|
    ensures ResolveNoiseRefs(scn.(jitter := c), pools, specs, rng, pos, k)
         == ResolveNoiseRefs(scn, pools, specs, rng, pos, k)
  {
    if k > 0 {
      NoiseRefsIgnoreJitter(scn, c, pools, specs, rng, pos, k - 1);
    }
  }

  lemma {:induction false} NoiseEventIgnoresJitter(
      scn: Scenario, c: Option<JitterConfig>, pools: map<string, seq<Entity>>, specs: seq<NoiseSpec>,
      first: int, n: nat, rng: Stream, pos: nat)
    requires specs != []
    ensures NoiseEvent(scn.(jitter := c), pools, specs, first, n, rng, pos)
         == NoiseEvent(scn, pools, specs, first, n, rng, pos)
  {
    hide NoiseId, Weighted, Uniform, ResolveNoiseRefs;
    var spec := Weighted(specs)[Choice(|Weighted(specs)|, rng(pos))];
    var p := NoiseSource(scn, spec, rng, pos + 1).1;
    NoiseRefsIgnoreJitter(scn, c, pools, spec.refs, rng, p + 1, |spec.refs|);
  }

  lemma {:induction false} NoiseRunIgnoresJitter(
      scn: Scenario, c: Option<JitterConfig>, pools: map<string, seq<Entity>>, specs: seq<NoiseSpec>,
      first: int, n: nat, rng: Stream)
    requires specs != []
    ensures NoiseRun(scn.(jitter := c), pools, specs, first, n, rng) == NoiseRun(scn, pools, specs, first, n, rng)
  {
    hide NoiseEvent;
    if n > 0 {
      NoiseRunIgnoresJitter(scn, c, pools, specs, first, n - 1, rng);
      NoiseEventIgnoresJitter(scn, c, pools, specs, first, n, rng, NoiseRun(scn, pools, specs, first, n - 1, rng).1);
    }
  }

  /** What goes into the jitter does not depend on the jitter. */
  lemma {:induction false} UnjitteredIgnoresJitter(
      scn: Scenario, c: Option<JitterConfig>, rng: Stream, start: int, rngs: Streams, n: nat)
    ensures Unjittered(scn.(jitter := c), start, rngs.(jitter := rng), n) == Unjittered(scn, start, rngs, n)
  {
    hide AfterFlows, Sort, NoiseRun, GroupByType, Earliest;
    AfterFlowsIgnoresJitter(scn, c, start, rngs.timeline, n);
    var timeline, entities := Expand(scn, start, rngs.timeline, n), PlanEntities(scn, start, rngs, n);
    if NoiseTotal(scn, |timeline|) > 0 {
      NoiseRunIgnoresJitter(scn, c, GroupByType(entities), scn.noise.value.events, Earliest(timeline),
                            NoiseTotal(scn, |timeline|), rngs.noise);
    }
  }

  /** The plan of a scenario under order-preserving jitter of at most `m`. */
  function PlanWith(scn: Scenario, start: int, rngs: Streams, n: nat, m: nat, rng: Stream): seq<Event> {
    Plan(scn.(jitter := Some(JitterConfig(true, m, true))), start, rngs.(jitter := rng), n)
  }

  /**
   For any scope, compiled: an event_after or event_before rule keeps its verdict in a scope group
   for every offset limit and all jitter draws, exactly if the group's flows agree on which of the
   rule's two kinds stands outermost before jitter.
   */
  lemma {:induction false} CompiledVerdictIff(
      last: bool, a: Option<string>, b: Option<string>, scope: Option<string>, k: string,
      scn: Scenario, start: int, rngs: Streams, n: nat)
    ensures var rule, before := OrderRule(last, a, b, scope), GroupOf(scope, k, Sort(Unjittered(scn, start, rngs, n)));
      (forall m, rng :: GroupOk(rule, GroupOf(scope, k, PlanWith(scn, start, rngs, n, m, rng)))
        <==> GroupOk(rule, before))
      <==> Agree(last, before, a, b)
  {
    hide Unjittered, Sort, Apply, GroupOf, GroupOk, Agree;
    var all := Unjittered(scn, start, rngs, n);
    var rule, before := OrderRule(last, a, b, scope), GroupOf(scope, k, Sort(all));
    forall m: nat, rng ensures PlanWith(scn, start, rngs, n, m, rng) == Jittered(all, m, rng) {
      UnjitteredIgnoresJitter(scn, Some(JitterConfig(true, m, true)), rng, start, rngs, n);
    }
    VerdictKeptIff(last, a, b, scope, k, all);
    if forall m, rng ::
         GroupOk(rule, GroupOf(scope, k, PlanWith(scn, start, rngs, n, m, rng))) <==> GroupOk(rule, before) {
      forall m: nat, rng ensures GroupOk(rule, GroupOf(scope, k, Jittered(all, m, rng))) <==> GroupOk(rule, before) {
        assert PlanWith(scn, start, rngs, n, m, rng) == Jittered(all, m, rng);
      }
    }
  }

  /** A compiled plan that meets the rule meets it under any jitter, exactly if every scope group agrees. */
  lemma {:induction false} CompiledPassingStaysIff(
      last: bool, a: Option<string>, b: Option<string>, scope: Option<string>,
      scn: Scenario, start: int, rngs: Streams, n: nat)
    requires Verdict(OrderRule(last, a, b, scope), Sort(Unjittered(scn, start, rngs, n)))
    ensures (forall m, rng :: Verdict(OrderRule(last, a, b, scope), PlanWith(scn, start, rngs, n, m, rng)))
      <==> forall k :: Agree(last, GroupOf(scope, k, Sort(Unjittered(scn, start, rngs, n))), a, b)
  {
    hide Unjittered, Sort, Apply, GroupOf, Verdict, Agree;
    var all := Unjittered(scn, start, rngs, n);
    var rule := OrderRule(last, a, b, scope);
    forall m: nat, rng ensures PlanWith(scn, start, rngs, n, m, rng) == Jittered(all, m, rng) {
      UnjitteredIgnoresJitter(scn, Some(JitterConfig(true, m, true)), rng, start, rngs, n);
    }
    PassingStaysIff(last, a, b, scope, all);
    if forall m, rng :: Verdict(rule, PlanWith(scn, start, rngs, n, m, rng)) {
      forall m: nat, rng ensures Verdict(rule, Jittered(all, m, rng)) {
        assert PlanWith(scn, start, rngs, n, m, rng) == Jittered(all, m, rng);
      }
    }
  }

  /** All three ordering rules, compiled: exactly which plans meet the rule under any jitter. */
  lemma {:induction false} CompiledAlwaysPassesIff(rule: Rule, scn: Scenario, start: int, rngs: Streams, n: nat)
    ensures (forall m, rng :: Verdict(rule, PlanWith(scn, start, rngs, n, m, rng)))
      <==> Safe(rule, Sort(Unjittered(scn, start, rngs, n)))
  {
    hide Unjittered, Sort, Apply, Verdict, Safe;
    var all := Unjittered(scn, start, rngs, n);
    forall m: nat, rng ensures PlanWith(scn, start, rngs, n, m, rng) == Jittered(all, m, rng) {
      UnjitteredIgnoresJitter(scn, Some(JitterConfig(true, m, true)), rng, start, rngs, n);
    }
    AlwaysPassesIff(rule, all);
    if forall m, rng :: Verdict(rule, PlanWith(scn, start, rngs, n, m, rng)) {
      forall m: nat, rng ensures Verdict(rule, Jittered(all, m, rng)) {
        assert PlanWith(scn, start, rngs, n, m, rng) == Jittered(all, m, rng);
      }
    }
  }
}
