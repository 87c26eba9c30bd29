/**
 What the events of a plan say: each timeline event is an instance of one step of the timeline,
 and each of its references means what the step's spec asks for
 (eventweave/compiler/planner.py:139-267, eventweave/compiler/noise_generator.py:53-98).
 */
module References {
  import opened Common
  import opened Events
  import opened Rng
  import opened Scenarios
  import opened Ids
  import opened Planner
  import opened PlannerPools
  import opened Noise
  import opened Rules
  import opened Compile
  import opened Schema

  /** `id` names an entity of this kind. */
  predicate OfKind(entities: seq<Entity>, kind: string, id: string) {
    exists i :: 0 <= i < |entities| && entities[i].kind == kind && entities[i].id == id
  }

  /** Timeline step `l` goes by this name. */
  predicate Named(scn: Scenario, l: nat, name: string) {
    1 <= l <= |scn.timeline|
    && var step := scn.timeline[l - 1];
      name == if step.id.Some? && step.id.value != "" then step.id.value else step.event
  }

  /** No step of this name strictly between steps `l` and `k` fired in round `f`. */
  ghost predicate NoneBetween(scn: Scenario, f: nat, name: string, l: nat, k: nat, events: seq<Event>) {
    forall q, m: nat :: q in events && l < m < k && Named(scn, m, name) ==> q.id != EventId(scn.id, f, m)
  }

  /** `p` is the event of step `l`, the last step of this name before step `k` that fired in the flow. */
  ghost predicate LastFired(
      scn: Scenario, f: nat, flow: string, k: nat, name: string, events: seq<Event>, p: Event, l: nat)
  {
    p in events && l < k && Named(scn, l, name)
    && p.id == EventId(scn.id, f, l) && p.flow == Some(flow) && NoneBetween(scn, f, name, l, k, events)
  }

  function ValueOf(p: Event, role: string): string { if role in p.refs then p.refs[role] else "" }

  /** What `$ref.<name>.<role>` gives at step `k`: the role's value in the last such event, "" without one. */
  ghost predicate RefFrom(
      scn: Scenario, f: nat, flow: string, k: nat, name: string, role: string, v: string, events: seq<Event>)
  {
    (exists p, l :: LastFired(scn, f, flow, k, name, events, p, l) && v == ValueOf(p, role))
    || (v == "" && NoneBetween(scn, f, name, 0, k, events))
  }

  /** The scenario generates no entity of this kind. */
  predicate NoneOf(scn: Scenario, kind: string) { Candidates(InitialWorld(scn), kind) == [] }

  /** Where a reference was resolved: the flow of round `f`, at timeline step `k`. */
  datatype Place = Place(scn: Scenario, f: nat, flow: string, k: nat)

  /** What a resolved reference means, by the form of its spec. */
  ghost predicate RefMeans(at: Place, spec: RefSpec, v: string, entities: seq<Entity>, events: seq<Event>) {
    match spec
    case FlowRef => v == at.flow
    case AnyOf(kind) => OfKind(entities, kind, v) || (v == "" && NoneOf(at.scn, kind))
    case New(kind) => OfKind(entities, kind, v)
    case StepRef(name, role) => RefFrom(at.scn, at.f, at.flow, at.k, name, role, v, events)
    case Malformed => v == ""
    case Plain(name) => OfKind(entities, name, v) || ((v == name || v == "") && NoneOf(at.scn, name))
  }

  predicate DistinctRoles(specs: seq<(string, string)>) {
    forall i, j :: 0 <= i < j < |specs| ==> specs[i].0 != specs[j].0
  }

  /** The roles of the first `n` specs. */
  function Roles(specs: seq<(string, string)>, n: nat): set<string>
    requires n <= |specs|
  {
    set i | 0 <= i < n :: specs[i].0
  }

  /** The references after the first `n` specs: exactly these roles, each as its spec asks, and the flow itself. */
  ghost predicate RefsMean(
      at: Place, specs: seq<(string, string)>, n: nat, refs: map<string, string>,
      entities: seq<Entity>, events: seq<Event>)
    requires n <= |specs|
  {
    refs.Keys == {"flow"} + Roles(specs, n)
    && ("flow" !in Roles(specs, n) ==> refs["flow"] == at.flow)
    && forall i :: 0 <= i < n ==>
         specs[i].0 in refs && RefMeans(at, ParseRef(specs[i].1), refs[specs[i].0], entities, events)
  }

  /** Event `e` is the timeline step of this place, started at `start`. */
  ghost predicate MadeBy(at: Place, start: int, entities: seq<Entity>, events: seq<Event>, e: Event) {
    1 <= at.k <= |at.scn.timeline|
    && var step := at.scn.timeline[at.k - 1];
      e.id == EventId(at.scn.id, at.f, at.k) && e.flow == Some(at.flow)
      && e.kind == step.event && e.attrs == step.attrs && e.labels == step.labels
      && e.source == (if step.source.Some? && step.source.value != "" then step.source.value
                      else if at.scn.sources != [] then at.scn.sources[0] else "default")
      && (step.at.Some? && step.jitter.None? ==> e.time == start + step.at.value)
      && RefsMean(at, step.refs, |step.refs|, e.refs, entities, events)
  }

  predicate RolesDistinct(scn: Scenario) {
    forall k :: 0 <= k < |scn.timeline| ==> DistinctRoles(scn.timeline[k].refs)
  }

  // ---------------------------------------------------------------- growth

  /** The event of a step before `k` in round `f`. */
  ghost predicate Early(scn: Scenario, f: nat, k: nat, q: Event) {
    exists m: nat :: m < k && q.id == EventId(scn.id, f, m)
  }

  /** Two event lists agree on the steps before `k` of round `f`. */
  ghost predicate SameBefore(scn: Scenario, f: nat, k: nat, a: seq<Event>, b: seq<Event>) {
    forall q :: Early(scn, f, k, q) ==> (q in a <==> q in b)
  }

  lemma {:induction false} NoneBetweenSame(
      scn: Scenario, f: nat, name: string, l: nat, k: nat, a: seq<Event>, b: seq<Event>)
    requires NoneBetween(scn, f, name, l, k, a) && SameBefore(scn, f, k, a, b)
    ensures NoneBetween(scn, f, name, l, k, b)
  {
    hide Named, EventId;
    forall q, m: nat | q in b && l < m < k && Named(scn, m, name) ensures q.id != EventId(scn.id, f, m) {
      if q !in a {
        assert !Early(scn, f, k, q);
      }
    }
  }

  lemma {:induction false} RefFromSame(
      scn: Scenario, f: nat, flow: string, k: nat, name: string, role: string, v: string, a: seq<Event>, b: seq<Event>)
    requires RefFrom(scn, f, flow, k, name, role, v, a) && SameBefore(scn, f, k, a, b)
    ensures RefFrom(scn, f, flow, k, name, role, v, b)
  {
    hide Named, EventId, NoneBetween;
    if p, l :| LastFired(scn, f, flow, k, name, a, p, l) && v == ValueOf(p, role) {
      assert Early(scn, f, k, p);
      NoneBetweenSame(scn, f, name, l, k, a, b);
      assert LastFired(scn, f, flow, k, name, b, p, l);
    } else {
      NoneBetweenSame(scn, f, name, 0, k, a, b);
    }
  }

  lemma {:induction false} OfKindGrows(a: seq<Entity>, b: seq<Entity>, kind: string, id: string)
    requires OfKind(a, kind, id) && a <= b
    ensures OfKind(b, kind, id)
  {
    var i :| 0 <= i < |a| && a[i].kind == kind && a[i].id == id;
    assert b[i] == a[i];
  }

  lemma {:induction false} MeansGrows(
      at: Place, spec: RefSpec, v: string, a: seq<Entity>, b: seq<Entity>, es: seq<Event>, fs: seq<Event>)
    requires RefMeans(at, spec, v, a, es) && a <= b && SameBefore(at.scn, at.f, at.k, es, fs)
    ensures RefMeans(at, spec, v, b, fs)
  {
    hide OfKind, RefFrom, SameBefore;
    forall kind | OfKind(a, kind, v) ensures OfKind(b, kind, v) {
      OfKindGrows(a, b, kind, v);
    }
    if spec.StepRef? {
      RefFromSame(at.scn, at.f, at.flow, at.k, spec.step, spec.role, v, es, fs);
    }
  }

  lemma {:induction false} RefsMeanGrows(
      at: Place, specs: seq<(string, string)>, n: nat, refs: map<string, string>,
      a: seq<Entity>, b: seq<Entity>, es: seq<Event>, fs: seq<Event>)
    requires n <= |specs| && RefsMean(at, specs, n, refs, a, es)
    requires a <= b && SameBefore(at.scn, at.f, at.k, es, fs)
    ensures RefsMean(at, specs, n, refs, b, fs)
  {
    hide RefMeans, ParseRef, Roles, SameBefore;
    forall i | 0 <= i < n ensures RefMeans(at, ParseRef(specs[i].1), refs[specs[i].0], b, fs) {
      MeansGrows(at, ParseRef(specs[i].1), refs[specs[i].0], a, b, es, fs);
    }
  }

  lemma {:induction false} MadeByGrows(
      at: Place, start: int, a: seq<Entity>, b: seq<Entity>, es: seq<Event>, fs: seq<Event>, e: Event)
    requires MadeBy(at, start, a, es, e) && a <= b && SameBefore(at.scn, at.f, at.k, es, fs)
    ensures MadeBy(at, start, b, fs, e)
  {
    hide RefsMean, EventId, SameBefore;
    var specs := at.scn.timeline[at.k - 1].refs;
    RefsMeanGrows(at, specs, |specs|, e.refs, a, b, es, fs);
  }

  /** Events of other rounds or of later steps are not among the early ones. */
  lemma {:induction false} NotEarly(scn: Scenario, f: nat, k: nat, q: Event, g: nat, m: nat)
    requires q.id == EventId(scn.id, g, m) && (g != f || m >= k)
    ensures !Early(scn, f, k, q)
  {
    hide EventId;
    if Early(scn, f, k, q) {
      var l: nat :| l < k && q.id == EventId(scn.id, f, l);
      EventIdInjective(scn.id, f, l, g, m);
    }
  }

  // ---------------------------------------------------------------- pools by kind

  /** Every pool holds plan entities of its kind. */
  predicate PoolsByKind(w: World) {
    forall kind, i :: kind in w.byType && 0 <= i < |w.byType[kind]| ==> OfKind(w.entities, kind, w.byType[kind][i].id)
  }

  /** No pool that held something at the start is empty now. */
  ghost predicate Stocked(scn: Scenario, w: World) {
    forall kind :: !NoneOf(scn, kind) ==> Candidates(w, kind) != []
  }

  lemma {:induction false} GroupByKind(entities: seq<Entity>)
    ensures forall kind, i :: kind in GroupByType(entities) && 0 <= i < |GroupByType(entities)[kind]| ==>
      OfKind(entities, kind, GroupByType(entities)[kind][i].id)
  {
    if entities != [] {
      var n := |entities| - 1;
      GroupByKind(entities[..n]);
      AddByKind(entities[..n], GroupByType(entities[..n]), entities[n]);
      assert entities[..n] + [entities[n]] == entities;
    }
  }

  lemma {:induction false} AddByKind(entities: seq<Entity>, pools: map<string, seq<Entity>>, e: Entity)
    requires forall kind, i :: kind in pools && 0 <= i < |pools[kind]| ==> OfKind(entities, kind, pools[kind][i].id)
    ensures forall kind, i :: kind in AddTo(pools, e) && 0 <= i < |AddTo(pools, e)[kind]| ==>
      OfKind(entities + [e], kind, AddTo(pools, e)[kind][i].id)
  {
    var after: map<string, seq<Entity>> := AddTo(pools, e);
    forall kind: string, i: nat | kind in after && 0 <= i < |after[kind]|
      ensures OfKind(entities + [e], kind, after[kind][i].id)
    {
      if kind in pools && i < |pools[kind]| {
        OfKindGrows(entities, entities + [e], kind, pools[kind][i].id);
      } else {
        assert (entities + [e])[|entities|] == e;
      }
    }
  }

  // ---------------------------------------------------------------- one reference, one step, one flow

  /** Of the steps before `bound`, a name finds the last fired one, or none fired. */
  ghost predicate Finds(
      scn: Scenario, f: nat, flow: string, bound: nat, byId: map<string, Event>, events: seq<Event>, name: string)
  {
    if name in byId then exists l :: LastFired(scn, f, flow, bound, name, events, byId[name], l)
    else NoneBetween(scn, f, name, 0, bound, events)
  }

  ghost predicate Remembered(
      scn: Scenario, f: nat, flow: string, bound: nat, byId: map<string, Event>, events: seq<Event>)
  {
    forall name :: Finds(scn, f, flow, bound, byId, events, name)
  }

  lemma {:induction false} StepRefMeans(
      at: Place, byId: map<string, Event>, name: string, role: string, entities: seq<Entity>, events: seq<Event>)
    requires at.k >= 1 && Remembered(at.scn, at.f, at.flow, at.k, byId, events)
    ensures var v := if name in byId && role in byId[name].refs then byId[name].refs[role] else "";
      RefFrom(at.scn, at.f, at.flow, at.k, name, role, v, events)
  {
    hide LastFired, NoneBetween;
    assert Finds(at.scn, at.f, at.flow, at.k, byId, events, name);
    if name in byId {
      var l :| LastFired(at.scn, at.f, at.flow, at.k, name, events, byId[name], l);
    }
  }

  lemma {:induction false} ResolveMeans(
      at: Place, w: World, spec: string, primary: Entity, byId: map<string, Event>, rng: Stream, events: seq<Event>)
    requires PoolsByKind(w) && Stocked(at.scn, w) && at.flow == primary.id && at.k >= 1
    requires Remembered(at.scn, at.f, at.flow, at.k, byId, events)
    ensures var (w', v) := ResolveRef(w, spec, primary, byId, rng);
      PoolsByKind(w') && Stocked(at.scn, w') && w.entities <= w'.entities
      && RefMeans(at, ParseRef(spec), v, w'.entities, events)
  {
    hide ParseRef, EntityId, NoneOf, RefFrom, Remembered;
    var (w', v) := ResolveRef(w, spec, primary, byId, rng);
    match ParseRef(spec) {
      case New(kind) =>
        var e := AddEntity(w, kind).1;
        AddByKind(w.entities, w.byType, e);
        assert w'.entities[|w.entities|] == e;
      case StepRef(step, role) =>
        StepRefMeans(at, byId, step, role, w.entities, events);
      case _ =>
    }
  }

  lemma {:induction false} ResolveAllMean(
      at: Place, w: World, specs: seq<(string, string)>, primary: Entity, byId: map<string, Event>, rng: Stream,
      events: seq<Event>, n: nat)
    requires PoolsByKind(w) && Stocked(at.scn, w) && at.flow == primary.id && at.k >= 1
    requires n <= |specs| && DistinctRoles(specs)
    requires Remembered(at.scn, at.f, at.flow, at.k, byId, events)
    ensures var (w', refs) := ResolveRefs(w, specs, primary, byId, rng, n);
      PoolsByKind(w') && Stocked(at.scn, w') && w.entities <= w'.entities
      && RefsMean(at, specs, n, refs, w'.entities, events)
  {
    hide ResolveRef, RefMeans, ParseRef, PoolsByKind, Stocked, Remembered, Early;
    if n > 0 {
      ResolveAllMean(at, w, specs, primary, byId, rng, events, n - 1);
      var (w1, refs) := ResolveRefs(w, specs, primary, byId, rng, n - 1);
      ResolveMeans(at, w1, specs[n - 1].1, primary, byId, rng, events);
      var (w2, v) := ResolveRef(w1, specs[n - 1].1, primary, byId, rng);
      RefsMeanGrows(at, specs, n - 1, refs, w1.entities, w2.entities, events, events);
      RefsSnoc(at, specs, n, refs, w2.entities, events, v);
    } else {
      assert Roles(specs, 0) == {};
    }
  }

  lemma {:induction false} RefsSnoc(
      at: Place, specs: seq<(string, string)>, n: nat, refs: map<string, string>,
      entities: seq<Entity>, events: seq<Event>, v: string)
    requires 1 <= n <= |specs| && DistinctRoles(specs) && RefsMean(at, specs, n - 1, refs, entities, events)
    requires RefMeans(at, ParseRef(specs[n - 1].1), v, entities, events)
    ensures RefsMean(at, specs, n, refs[specs[n - 1].0 := v], entities, events)
  {
    hide RefMeans, ParseRef;
    assert Roles(specs, n) == Roles(specs, n - 1) + {specs[n - 1].0};
  }

  /** Every event of the flow is one of the first `k` steps, run in this flow. */
  ghost predicate AllMade(
      scn: Scenario, start: int, f: nat, flow: string, k: nat, entities: seq<Entity>, events: seq<Event>)
  {
    forall e :: e in events ==> exists l: nat :: l <= k && MadeBy(Place(scn, f, flow, l), start, entities, events, e)
  }

  /** The invariant of the timeline loop after `k` steps. */
  ghost predicate FlowMade(scn: Scenario, start: int, f: nat, primary: Entity, w: World, k: nat, st: FlowState) {
    PoolsByKind(st.world) && Stocked(scn, st.world) && w.entities <= st.world.entities
    && Remembered(scn, f, primary.id, k + 1, st.byId, st.events)
    && AllMade(scn, start, f, primary.id, k, st.world.entities, st.events)
  }

  /** A step that does not fire leaves no event of its own. */
  lemma {:induction false} RememberedSkip(
      scn: Scenario, start: int, f: nat, flow: string, k: nat, byId: map<string, Event>,
      entities: seq<Entity>, events: seq<Event>)
    requires k >= 1 && Remembered(scn, f, flow, k, byId, events)
    requires AllMade(scn, start, f, flow, k - 1, entities, events)
    ensures Remembered(scn, f, flow, k + 1, byId, events)
  {
    hide MadeBy, EventId, NoneBetween, LastFired;
    forall q | q in events ensures q.id != EventId(scn.id, f, k) {
      var l: nat :| l <= k - 1 && MadeBy(Place(scn, f, flow, l), start, entities, events, q);
      MadeById(Place(scn, f, flow, l), start, entities, events, q);
      if q.id == EventId(scn.id, f, k) {
        EventIdInjective(scn.id, f, l, f, k);
      }
    }
    var bound := k + 1;
    forall name ensures Finds(scn, f, flow, bound, byId, events, name) {
      assert Finds(scn, f, flow, k, byId, events, name);
      if name in byId {
        var l :| LastFired(scn, f, flow, k, name, events, byId[name], l);
        StillLast(scn, f, flow, k, name, events, byId[name], l);
      } else {
        StillNone(scn, f, k, name, events, 0);
      }
    }
  }

  lemma {:induction false} StillNone(scn: Scenario, f: nat, k: nat, name: string, events: seq<Event>, l: nat)
    requires NoneBetween(scn, f, name, l, k, events) && forall q :: q in events ==> q.id != EventId(scn.id, f, k)
    ensures NoneBetween(scn, f, name, l, k + 1, events)
  {
    hide EventId, Named;
  }

  lemma {:induction false} StillLast(
      scn: Scenario, f: nat, flow: string, k: nat, name: string, events: seq<Event>, p: Event, l: nat)
    requires LastFired(scn, f, flow, k, name, events, p, l)
    requires forall q :: q in events ==> q.id != EventId(scn.id, f, k)
    ensures LastFired(scn, f, flow, k + 1, name, events, p, l)
  {
    StillNone(scn, f, k, name, events, l);
    hide EventId, Named, NoneBetween;
  }

  /** A step that fires is the last one of its own name and changes nothing for other names. */
  lemma {:induction false} RememberedFire(
      scn: Scenario, f: nat, flow: string, k: nat, byId: map<string, Event>, events: seq<Event>, e: Event)
    requires 1 <= k <= |scn.timeline| && Remembered(scn, f, flow, k, byId, events)
    requires e.id == EventId(scn.id, f, k) && e.flow == Some(flow)
    ensures var key := OrElse(scn.timeline[k - 1].id, scn.timeline[k - 1].event);
      Remembered(scn, f, flow, k + 1, byId[key := e], events + [e])
  {
    hide EventId, LastFired, NoneBetween;
    var key := OrElse(scn.timeline[k - 1].id, scn.timeline[k - 1].event);
    var events', byId' := events + [e], byId[key := e];
    var bound := k + 1;
    forall name ensures Finds(scn, f, flow, bound, byId', events', name) {
      assert Finds(scn, f, flow, k, byId, events, name);
      if name == key {
        OwnName(scn, f, flow, k, name, events, e);
      } else if name in byId {
        var l :| LastFired(scn, f, flow, k, name, events, byId[name], l);
        OtherName(scn, f, flow, k, name, events, e, byId[name], l);
      } else {
        NoneAfter(scn, f, k, name, events, e, 0);
      }
    }
  }

  lemma {:induction false} OwnName(
      scn: Scenario, f: nat, flow: string, k: nat, name: string, events: seq<Event>, e: Event)
    requires Named(scn, k, name) && e.id == EventId(scn.id, f, k) && e.flow == Some(flow)
    ensures LastFired(scn, f, flow, k + 1, name, events + [e], e, k)
  {
  }

  lemma {:induction false} NoneAfter(
      scn: Scenario, f: nat, k: nat, name: string, events: seq<Event>, e: Event, l: nat)
    requires !Named(scn, k, name) && NoneBetween(scn, f, name, l, k, events) && e.id == EventId(scn.id, f, k)
    ensures NoneBetween(scn, f, name, l, k + 1, events + [e])
  {
    hide EventId, Named;
    forall q, m: nat | q in events + [e] && l < m < k + 1 && Named(scn, m, name)
      ensures q.id != EventId(scn.id, f, m)
    {
      if q == e && q.id == EventId(scn.id, f, m) {
        EventIdInjective(scn.id, f, k, f, m);
      }
    }
  }

  lemma {:induction false} OtherName(
      scn: Scenario, f: nat, flow: string, k: nat, name: string, events: seq<Event>, e: Event, p: Event, l: nat)
    requires !Named(scn, k, name) && LastFired(scn, f, flow, k, name, events, p, l) && e.id == EventId(scn.id, f, k)
    ensures LastFired(scn, f, flow, k + 1, name, events + [e], p, l)
  {
    NoneAfter(scn, f, k, name, events, e, l);
    hide EventId, Named, NoneBetween;
  }

  /** A later event does not change what the earlier ones are. */
  lemma {:induction false} AllMadeSnoc(
      scn: Scenario, start: int, f: nat, flow: string, k: nat, a: seq<Entity>, b: seq<Entity>, es: seq<Event>, e: Event)
    requires k >= 1 && AllMade(scn, start, f, flow, k - 1, a, es) && a <= b
    requires MadeBy(Place(scn, f, flow, k), start, b, es, e)
    ensures AllMade(scn, start, f, flow, k, b, es + [e])
  {
    hide MadeBy, EventId, Early;
    assert e.id == EventId(scn.id, f, k) by { MadeById(Place(scn, f, flow, k), start, b, es, e); }
    forall x | x in es + [e]
      ensures exists l: nat :: l <= k && MadeBy(Place(scn, f, flow, l), start, b, es + [e], x)
    {
      var l: nat := k;
      if x in es {
        l :| l <= k - 1 && MadeBy(Place(scn, f, flow, l), start, a, es, x);
      }
      NotEarly(scn, f, l, e, f, k);
      assert SameBefore(scn, f, l, es, es + [e]);
      MadeByGrows(Place(scn, f, flow, l), start, if x in es then a else b, b, es, es + [e], x);
    }
  }

  lemma {:induction false} MadeById(at: Place, start: int, entities: seq<Entity>, events: seq<Event>, e: Event)
    requires MadeBy(at, start, entities, events, e)
    ensures e.id == EventId(at.scn.id, at.f, at.k) && e.flow == Some(at.flow)
  {
  }

  lemma {:induction false} StepMade(
      scn: Scenario, start: int, f: nat, k: nat, primary: Entity, rng: Stream, w: World, st: FlowState)
    requires 1 <= k <= |scn.timeline| && RolesDistinct(scn) && FlowMade(scn, start, f, primary, w, k - 1, st)
    ensures FlowMade(scn, start, f, primary, w, k, ApplyStep(scn, f, k, primary, start, rng, st))
  {
    hide MadeBy, StepTime, ResolveRefs, PoolsByKind, Stocked, EventId, Remembered, AllMade;
    var step, at := scn.timeline[k - 1], Place(scn, f, primary.id, k);
    if Fires(step, rng, st.world.pos) {
      var (t, pos) := StepTime(step, start, st, rng);
      PoolsMoved(scn, st.world, pos);
      ResolveAllMean(at, st.world.(pos := pos), step.refs, primary, st.byId, rng, st.events, |step.refs|);
      var (w2, refs) := StepRefs(step, start, st, primary, rng);
      var e := NewEvent(scn, f, k, primary, t, refs);
      NewEventMade(at, start, primary, rng, st, w2, refs, st.events);
      AllMadeSnoc(scn, start, f, primary.id, k, st.world.entities, w2.entities, st.events, e);
      RememberedFire(scn, f, primary.id, k, st.byId, st.events, e);
    } else {
      PoolsMoved(scn, st.world, st.world.pos + 1);
      RememberedSkip(scn, start, f, primary.id, k, st.byId, st.world.entities, st.events);
      AllMadeLater(scn, start, f, primary.id, k, st.world.entities, st.events);
    }
  }

  lemma {:induction false} AllMadeLater(
      scn: Scenario, start: int, f: nat, flow: string, k: nat, entities: seq<Entity>, events: seq<Event>)
    requires k >= 1 && AllMade(scn, start, f, flow, k - 1, entities, events)
    ensures AllMade(scn, start, f, flow, k, entities, events)
  {
    hide MadeBy;
  }

  lemma {:induction false} PoolsMoved(scn: Scenario, w: World, pos: nat)
    ensures PoolsByKind(w) ==> PoolsByKind(w.(pos := pos))
    ensures Stocked(scn, w) ==> Stocked(scn, w.(pos := pos))
  {
  }

  lemma {:induction false} NewEventMade(
      at: Place, start: int, primary: Entity, rng: Stream, st: FlowState, w: World, refs: map<string, string>,
      events: seq<Event>)
    requires 1 <= at.k <= |at.scn.timeline| && at.flow == primary.id
    requires var specs := at.scn.timeline[at.k - 1].refs; RefsMean(at, specs, |specs|, refs, w.entities, events)
    ensures var t := StepTime(at.scn.timeline[at.k - 1], start, st, rng).0;
      MadeBy(at, start, w.entities, events, NewEvent(at.scn, at.f, at.k, primary, t, refs))
  {
    hide RefsMean, EventId, Uniform;
  }

  lemma {:induction false} RunFlowMade(
      scn: Scenario, start: int, f: nat, primary: Entity, rng: Stream, w: World, k: nat)
    requires k <= |scn.timeline| && RolesDistinct(scn) && PoolsByKind(w) && Stocked(scn, w)
    ensures FlowMade(scn, start, f, primary, w, k, RunFlow(scn, f, primary, start, rng, w, k))
  {
    if k > 0 {
      hide ApplyStep, FlowMade;
      RunFlowMade(scn, start, f, primary, rng, w, k - 1);
      StepMade(scn, start, f, k, primary, rng, w, RunFlow(scn, f, primary, start, rng, w, k - 1));
    }
  }

  // ---------------------------------------------------------------- the whole timeline

  /** Some step of one of the first `n` rounds made the event. */
  ghost predicate Made(scn: Scenario, start: int, n: nat, x: Expansion, e: Event) {
    exists at: Place :: at.scn == scn && at.f <= n && MadeBy(at, start, x.world.entities, x.events, e)
  }

  /**
   Every timeline event is an instance of a step of the timeline: its type, source, attributes,
   labels and absolute time are the step's, and its references are exactly the step's roles and
   `flow`, each with the value its spec asks for.
   */
  lemma {:induction false} TimelineMade(scn: Scenario, start: int, rng: Stream, n: nat)
    requires RolesDistinct(scn)
    ensures var x := AfterFlows(scn, start, rng, n);
      PoolsByKind(x.world) && Stocked(scn, x.world) && forall e :: e in x.events ==> Made(scn, start, n, x, e)
  {
    hide Made, MadeBy, PoolsByKind, RunFlow, Stocked, AllMade, Remembered, RolesDistinct;
    if n == 0 {
      InitialPools(scn);
    } else {
      TimelineMade(scn, start, rng, n - 1);
      var x, x' := AfterFlows(scn, start, rng, n - 1), AfterFlows(scn, start, rng, n);
      if n <= |Primaries(scn, x.world)| {
        var primary := Primaries(scn, x.world)[n - 1];
        RunFlowMade(scn, start, n, primary, rng, x.world, |scn.timeline|);
        var fs := RunFlow(scn, n, primary, start, rng, x.world, |scn.timeline|);
        forall e | e in x'.events ensures Made(scn, start, n, x', e) {
          if e in x.events {
            OldEventMade(scn, start, n, primary.id, x, fs.world, fs.events, e);
          } else {
            var l := MadeAt(scn, start, n, primary.id, fs.world.entities, fs.events, e);
            RoundEventMade(scn, start, n, primary.id, l, x, fs.world, fs.events, e);
          }
        }
      } else {
        forall e | e in x.events ensures Made(scn, start, n, x, e) {
          MadeLater(scn, start, n, x, e);
        }
      }
    }
  }

  lemma {:induction false} MadeAt(
      scn: Scenario, start: int, f: nat, flow: string, entities: seq<Entity>, es: seq<Event>, e: Event) returns (l: nat)
    requires AllMade(scn, start, f, flow, |scn.timeline|, entities, es) && e in es
    ensures MadeBy(Place(scn, f, flow, l), start, entities, es, e)
  {
    hide MadeBy;
    l :| l <= |scn.timeline| && MadeBy(Place(scn, f, flow, l), start, entities, es, e);
  }

  lemma {:induction false} MadeLater(scn: Scenario, start: int, n: nat, x: Expansion, e: Event)
    requires n >= 1 && Made(scn, start, n - 1, x, e)
    ensures Made(scn, start, n, x, e)
  {
    hide MadeBy;
  }

  lemma {:induction false} InitialPools(scn: Scenario)
    ensures PoolsByKind(InitialWorld(scn)) && Stocked(scn, InitialWorld(scn))
  {
    hide Generate;
    GroupByKind(Generate(scn.templates));
  }

  /** One more round: an event of an earlier round keeps its meaning. */
  lemma {:induction false} OldEventMade(
      scn: Scenario, start: int, n: nat, flow: string, x: Expansion, w: World, es: seq<Event>, e: Event)
    requires n >= 1 && x.world.entities <= w.entities
    requires Made(scn, start, n - 1, x, e) && AllMade(scn, start, n, flow, |scn.timeline|, w.entities, es)
    ensures Made(scn, start, n, Expansion(w, x.events + es), e)
  {
    hide MadeBy, AllMade, SameBefore;
    var at: Place :| at.scn == scn && at.f <= n - 1 && MadeBy(at, start, x.world.entities, x.events, e);
    LaterRound(scn, start, n, flow, at.f, at.k, w.entities, x.events, es);
    MadeByGrows(at, start, x.world.entities, w.entities, x.events, x.events + es, e);
  }

  /** And so does an event of the round itself. */
  lemma {:induction false} RoundEventMade(
      scn: Scenario, start: int, n: nat, flow: string, l: nat, x: Expansion, w: World, es: seq<Event>, e: Event)
    requires n >= 1 && forall q :: q in x.events ==> Made(scn, start, n - 1, x, q)
    requires MadeBy(Place(scn, n, flow, l), start, w.entities, es, e)
    ensures Made(scn, start, n, Expansion(w, x.events + es), e)
  {
    hide MadeBy, SameBefore;
    EarlierRounds(scn, start, n, l, x, es);
    MadeByGrows(Place(scn, n, flow, l), start, w.entities, w.entities, es, x.events + es, e);
  }

  /** A round adds no early event to an earlier round. */
  lemma {:induction false} LaterRound(
      scn: Scenario, start: int, n: nat, flow: string, f: nat, k: nat, entities: seq<Entity>,
      before: seq<Event>, es: seq<Event>)
    requires f < n && AllMade(scn, start, n, flow, |scn.timeline|, entities, es)
    ensures SameBefore(scn, f, k, before, before + es)
  {
    hide MadeBy, EventId, Early;
    forall q | q in es ensures !Early(scn, f, k, q) {
      var l: nat :| l <= |scn.timeline| && MadeBy(Place(scn, n, flow, l), start, entities, es, q);
      MadeById(Place(scn, n, flow, l), start, entities, es, q);
      NotEarly(scn, f, k, q, n, l);
    }
  }

  /** Earlier rounds hold no early event of a round. */
  lemma {:induction false} EarlierRounds(scn: Scenario, start: int, n: nat, k: nat, x: Expansion, es: seq<Event>)
    requires n >= 1 && forall e :: e in x.events ==> Made(scn, start, n - 1, x, e)
    ensures SameBefore(scn, n, k, es, x.events + es)
  {
    hide MadeBy, EventId, Early;
    forall q | q in x.events ensures !Early(scn, n, k, q) {
      var at: Place :| at.scn == scn && at.f <= n - 1 && MadeBy(at, start, x.world.entities, x.events, q);
      MadeById(at, start, x.world.entities, x.events, q);
      NotEarly(scn, n, k, q, at.f, at.k);
    }
  }

  // ---------------------------------------------------------------- noise

  /** An entity of this kind, or "" when the plan has none. */
  predicate Picked(entities: seq<Entity>, kind: string, v: string) {
    OfKind(entities, kind, v) || (v == "" && forall i :: 0 <= i < |entities| ==> entities[i].kind != kind)
  }

  predicate NoiseRefMeans(scn: Scenario, spec: string, v: string, entities: seq<Entity>) {
    if StartsWith(spec, "$entity.") then Picked(entities, spec[8..], v)
    else if spec == "$flow" then Picked(entities, OrElse(scn.forEach, ""), v)
    else v == spec
  }

  lemma {:induction false} GroupHas(entities: seq<Entity>, i: nat)
    requires i < |entities|
    ensures entities[i].kind in GroupByType(entities) && GroupByType(entities)[entities[i].kind] != []
  {
    var n := |entities| - 1;
    assert GroupByType(entities) == AddTo(GroupByType(entities[..n]), entities[n]);
    if i < n {
      assert entities[..n][i] == entities[i];
      GroupHas(entities[..n], i);
    }
  }

  predicate NoiseRefsMean(
      scn: Scenario, specs: seq<(string, string)>, k: nat, refs: map<string, string>, entities: seq<Entity>)
    requires k <= |specs|
  {
    refs.Keys == Roles(specs, k)
    && forall i :: 0 <= i < k ==> specs[i].0 in refs && NoiseRefMeans(scn, specs[i].1, refs[specs[i].0], entities)
  }

  /** Event `e` is an instance of a noise spec. */
  predicate NoiseMadeBy(scn: Scenario, entities: seq<Entity>, e: Event, s: NoiseSpec) {
    e.kind == s.event && e.attrs == s.attrs && e.labels == []
    && (if s.source.Some? && s.source.value != "" then e.source == s.source.value else e.source in SourceIds(scn))
    && NoiseRefsMean(scn, s.refs, |s.refs|, e.refs, entities)
  }

  lemma {:induction false} PickFromPicked(entities: seq<Entity>, kind: string, rng: Stream, pos: nat)
    ensures Picked(entities, kind, PickFrom(GroupByType(entities), kind, rng, pos).0)
  {
    hide GroupByType;
    GroupByKind(entities);
    forall i | 0 <= i < |entities| && entities[i].kind == kind
      ensures kind in GroupByType(entities) && GroupByType(entities)[kind] != []
    {
      GroupHas(entities, i);
    }
  }

  lemma {:induction false} NoiseRefKind(scn: Scenario, entities: seq<Entity>, spec: string, rng: Stream, pos: nat)
    ensures NoiseRefMeans(scn, spec, ResolveNoiseRef(scn, GroupByType(entities), spec, rng, pos).0, entities)
  {
    hide GroupByType, Picked, PickFrom;
    if StartsWith(spec, "$entity.") {
      PickFromPicked(entities, spec[8..], rng, pos);
    }
    PickFromPicked(entities, OrElse(scn.forEach, ""), rng, pos);
  }

  lemma {:induction false} NoiseRefsKinds(
      scn: Scenario, entities: seq<Entity>, specs: seq<(string, string)>, rng: Stream, pos: nat, k: nat)
    requires k <= |specs| && DistinctRoles(specs)
    ensures NoiseRefsMean(scn, specs, k, ResolveNoiseRefs(scn, GroupByType(entities), specs, rng, pos, k).0, entities)
  {
    hide NoiseRefMeans, ResolveNoiseRef, GroupByType;
    if k > 0 {
      NoiseRefsKinds(scn, entities, specs, rng, pos, k - 1);
      var p := ResolveNoiseRefs(scn, GroupByType(entities), specs, rng, pos, k - 1).1;
      NoiseRefKind(scn, entities, specs[k - 1].1, rng, p);
      assert Roles(specs, k) == Roles(specs, k - 1) + {specs[k - 1].0};
    } else {
      assert Roles(specs, 0) == {};
    }
  }

  lemma {:induction false} NoiseEventMade(
      scn: Scenario, entities: seq<Entity>, specs: seq<NoiseSpec>, first: int, n: nat, rng: Stream, pos: nat)
    requires specs != [] && forall s :: s in specs ==> DistinctRoles(s.refs)
    ensures var e := NoiseEvent(scn, GroupByType(entities), specs, first, n, rng, pos).0;
      exists s :: s in specs && NoiseMadeBy(scn, entities, e, s)
  {
    hide Weighted, ResolveNoiseRefs, GroupByType, NoiseId, Uniform, NoiseRefsMean;
    var spec := Weighted(specs)[Choice(|Weighted(specs)|, rng(pos))];
    WeightedMembers(specs);
    var p := NoiseSource(scn, spec, rng, pos + 1).1;
    NoiseRefsKinds(scn, entities, spec.refs, rng, p + 1, |spec.refs|);
    assert NoiseMadeBy(scn, entities, NoiseEvent(scn, GroupByType(entities), specs, first, n, rng, pos).0, spec);
  }

  lemma {:induction false} NoiseRunMade(
      scn: Scenario, entities: seq<Entity>, specs: seq<NoiseSpec>, first: int, n: nat, rng: Stream)
    requires specs != [] && forall s :: s in specs ==> DistinctRoles(s.refs)
    ensures forall e :: e in NoiseRun(scn, GroupByType(entities), specs, first, n, rng).0 ==>
      exists s :: s in specs && NoiseMadeBy(scn, entities, e, s)
  {
    hide NoiseEvent, NoiseMadeBy, GroupByType, DistinctRoles;
    if n > 0 {
      NoiseRunMade(scn, entities, specs, first, n - 1, rng);
      NoiseEventMade(scn, entities, specs, first, n, rng,
        NoiseRun(scn, GroupByType(entities), specs, first, n - 1, rng).1);
    }
  }

  /** Every noise event is an instance of a configured spec, each of its references as the spec asks. */
  lemma {:induction false} NoiseMade(scn: Scenario, entities: seq<Entity>, timeline: seq<Event>, rng: Stream)
    requires scn.noise.Some? && forall s :: s in scn.noise.value.events ==> DistinctRoles(s.refs)
    ensures forall e :: e in NoiseFor(scn, entities, timeline, rng) ==>
      exists s :: s in scn.noise.value.events && NoiseMadeBy(scn, entities, e, s)
  {
    hide NoiseRun, NoiseMadeBy, GroupByType, DistinctRoles;
    if NoiseTotal(scn, |timeline|) > 0 {
      NoiseRunMade(scn, entities, scn.noise.value.events, Earliest(timeline), NoiseTotal(scn, |timeline|), rng);
    }
  }

  // ---------------------------------------------------------------- what the validator sees

  lemma {:induction false} TableSnoc(entities: seq<Entity>)
    requires entities != []
    ensures var n := |entities| - 1; IdTable(entities) == IdTable(entities[..n])[entities[n].id := entities[n]]
  {
  }

  /** The table gives back the last entity of that id. */
  lemma {:induction false} TableAt(entities: seq<Entity>, id: string) returns (i: nat)
    requires HasId(entities, id)
    ensures i < |entities| && entities[i].id == id && id in IdTable(entities) && IdTable(entities)[id] == entities[i]
    ensures forall j :: i < j < |entities| ==> entities[j].id != id
  {
    var n := |entities| - 1;
    TableSnoc(entities);
    hide IdTable;
    if id == entities[n].id {
      i := n;
    } else {
      var j :| 0 <= j < n && entities[j].id == id;
      assert entities[..n][j].id == id;
      hide HasId;
      i := TableAt(entities[..n], id);
    }
  }

  lemma {:induction false} TableKind(entities: seq<Entity>, kind: string, id: string)
    requires KindsById(entities) && OfKind(entities, kind, id)
    ensures id in IdTable(entities) && IdTable(entities)[id].kind == kind
  {
    hide IdTable;
    var i :| 0 <= i < |entities| && entities[i].kind == kind && entities[i].id == id;
    var j := TableAt(entities, id);
  }

  /** A role's spec asks for an entity of this kind. */
  predicate Asks(step: Step, role: string, kind: string) {
    exists i :: 0 <= i < |step.refs| && step.refs[i].0 == role
      && (ParseRef(step.refs[i].1) == AnyOf(kind) || ParseRef(step.refs[i].1) == New(kind))
  }

  /**
   Typed references from planner to validator: unless the scenario creates entities under a key it
   declares with another type, a reference asked for as `$entity.T` or `$new.T` is never reported
   as having a type other than T.
   */
  lemma {:induction false} NeverMistyped(
      v: SchemaValidator, scn: Scenario, start: int, rngs: Streams, n: nat, e: Event, f: nat, k: nat, role: string,
      kind: string, got: string)
    requires RolesDistinct(scn) && DistinctKeys(scn.templates) && AgreeingKeys(scn)
    requires e in Plan(scn, start, rngs, n) && e.flow.Some?
    requires e.id == EventId(scn.id, f, k)
    requires 1 <= k <= |scn.timeline| && Asks(scn.timeline[k - 1], role, kind)
    ensures !EventIssue(v.eventSchemas, e, IdTable(PlanEntities(scn, start, rngs, n)), WrongType(role, kind, got))
  {
    hide Plan, EventId, AfterFlows, Expand, RefsMean, ParseRef, RolesDistinct, AgreeingKeys, DistinctKeys, KindsById;
    var x := AfterFlows(scn, start, rngs.timeline, n);
    AgreeingKinds(scn, start, rngs.timeline, n);
    var e' := FlowEventOrigin(scn, start, rngs, n, e);
    TimelineMade(scn, start, rngs.timeline, n);
    var at: Place :| at.scn == scn && at.f <= n && MadeBy(at, start, x.world.entities, x.events, e');
    EventIdInjective(scn.id, f, k, at.f, at.k);
    AskedMeans(at, scn.timeline[k - 1], role, kind, e'.refs, x.world.entities, x.events);
    if e.refs[role] != "" {
      TableKind(x.world.entities, kind, e.refs[role]);
    }
  }

  lemma {:induction false} AskedMeans(
      at: Place, step: Step, role: string, kind: string, refs: map<string, string>,
      entities: seq<Entity>, events: seq<Event>)
    requires Asks(step, role, kind) && RefsMean(at, step.refs, |step.refs|, refs, entities, events)
    ensures role in refs && (refs[role] == "" || OfKind(entities, kind, refs[role]))
  {
    hide ParseRef, Roles;
  }

  /** An event of a flow in the final plan is a timeline event with another time. */
  lemma {:induction false} FlowEventOrigin(
      scn: Scenario, start: int, rngs: Streams, n: nat, e: Event) returns (e': Event)
    requires e in Plan(scn, start, rngs, n) && e.flow.Some?
    ensures e' in AfterFlows(scn, start, rngs.timeline, n).events
    ensures e'.id == e.id && e'.refs == e.refs
  {
    hide AfterFlows, Expand, NoiseFor, Plan;
    PlanPermutes(scn, start, rngs, n);
    e' := StripOrigin(Unjittered(scn, start, rngs, n), Plan(scn, start, rngs, n), e);
    assert e'.flow == Strip(e').flow == e.flow && e'.id == Strip(e').id == e.id && e'.refs == Strip(e').refs == e.refs;
    ExpandMembers(scn, start, rngs.timeline, n);
    NoiseMembers(scn, PlanEntities(scn, start, rngs, n), Expand(scn, start, rngs.timeline, n), rngs.noise);
  }
}
