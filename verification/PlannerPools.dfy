/**
 The entity pools during expansion: when the loop over the growing primary pool ends, and
 when the ids of the pooled entities are unique.
 */
module PlannerPools {
  import opened Events
  import opened Rng
  import opened Scenarios
  import opened Ids
  import opened Planner

  // ---------------------------------------------------------------- termination

  /** How many of the first `k` specs create an entity of type `t`. */
  function NewCount(specs: seq<(string, string)>, t: string, k: nat): nat
    requires k <= |specs|
  {
    if k == 0 then 0 else NewCount(specs, t, k - 1) + if ParseRef(specs[k - 1].1) == New(t) then 1 else 0
  }

  /** The same for the first `k` steps of the timeline. */
  function TimelineNew(scn: Scenario, t: string, k: nat): nat
    requires k <= |scn.timeline|
  {
    if k == 0 then 0
    else TimelineNew(scn, t, k - 1) + NewCount(scn.timeline[k - 1].refs, t, |scn.timeline[k - 1].refs|)
  }

  /** No step creates entities of the primary type. */
  predicate NoNewPrimary(scn: Scenario) {
    forall k, i :: 0 <= k < |scn.timeline| && 0 <= i < |scn.timeline[k].refs|
      ==> ParseRef(scn.timeline[k].refs[i].1) != New(PrimaryType(scn))
  }

  /** Under these draws every step fires wherever it is tried. */
  ghost predicate AlwaysFires(scn: Scenario, rng: Stream) {
    forall k, pos :: 0 <= k < |scn.timeline| ==> Fires(scn.timeline[k], rng, pos)
  }

  lemma {:induction false} ResolveRefsPool(
      w: World, specs: seq<(string, string)>, primary: Entity, byId: map<string, Event>, rng: Stream, k: nat, t: string)
    requires k <= |specs|
    ensures var w' := ResolveRefs(w, specs, primary, byId, rng, k).0;
      Candidates(w, t) <= Candidates(w', t) && |Candidates(w', t)| == |Candidates(w, t)| + NewCount(specs, t, k)
  {
    hide ParseRef, EntityId;
    if k > 0 {
      ResolveRefsPool(w, specs, primary, byId, rng, k - 1, t);
    }
  }

  lemma {:induction false} RunFlowPool(
      scn: Scenario, flowIndex: nat, primary: Entity, start: int, rng: Stream, w: World, k: nat, t: string)
    requires k <= |scn.timeline|
    ensures var w' := RunFlow(scn, flowIndex, primary, start, rng, w, k).world;
      Candidates(w, t) <= Candidates(w', t)
      && |Candidates(w', t)| <= |Candidates(w, t)| + TimelineNew(scn, t, k)
      && (AlwaysFires(scn, rng) ==> |Candidates(w', t)| == |Candidates(w, t)| + TimelineNew(scn, t, k))
  {
    hide EventId, StepTime, ResolveRefs, NewCount;
    if k > 0 {
      RunFlowPool(scn, flowIndex, primary, start, rng, w, k - 1, t);
      var st := RunFlow(scn, flowIndex, primary, start, rng, w, k - 1);
      var step := scn.timeline[k - 1];
      if Fires(step, rng, st.world.pos) {
        ResolveRefsPool(st.world.(pos := StepTime(step, start, st, rng).1), step.refs, primary, st.byId, rng,
          |step.refs|, t);
      }
    }
  }

  lemma {:induction false} NewCountZero(specs: seq<(string, string)>, t: string, k: nat)
    requires k <= |specs|
    ensures NewCount(specs, t, k) == 0 <==> forall i :: 0 <= i < k ==> ParseRef(specs[i].1) != New(t)
  {
    if k > 0 {
      NewCountZero(specs, t, k - 1);
    }
  }

  lemma {:induction false} TimelineNewZero(scn: Scenario, t: string, k: nat)
    requires k <= |scn.timeline|
    ensures TimelineNew(scn, t, k) == 0
      <==> forall l, i :: 0 <= l < k && 0 <= i < |scn.timeline[l].refs| ==>
        ParseRef(scn.timeline[l].refs[i].1) != New(t)
  {
    if k > 0 {
      TimelineNewZero(scn, t, k - 1);
      NewCountZero(scn.timeline[k - 1].refs, t, |scn.timeline[k - 1].refs|);
    }
  }

  /** Without `$new.<primary type>` the walked list never changes, so the loop runs once per initial primary. */
  lemma {:induction false} LoopRunsOncePerPrimary(scn: Scenario, start: int, rng: Stream, n: nat)
    requires NoNewPrimary(scn)
    ensures Primaries(scn, AfterFlows(scn, start, rng, n).world) == Primaries(scn, InitialWorld(scn))
    ensures Halted(scn, start, rng, n) <==> |Primaries(scn, InitialWorld(scn))| <= n
  {
    if n > 0 {
      LoopRunsOncePerPrimary(scn, start, rng, n - 1);
      var x := AfterFlows(scn, start, rng, n - 1);
      if n <= |Primaries(scn, x.world)| {
        RunFlowPool(scn, n, Primaries(scn, x.world)[n - 1], start, rng, x.world, |scn.timeline|, PrimaryType(scn));
        TimelineNewZero(scn, PrimaryType(scn), |scn.timeline|);
      }
    }
  }

  /** When every step fires, a `$new.<primary type>` makes the list outgrow the walk. */
  lemma {:induction false} LoopOutgrown(scn: Scenario, start: int, rng: Stream, n: nat)
    requires AlwaysFires(scn, rng) && !NoNewPrimary(scn)
    requires Primaries(scn, InitialWorld(scn)) != []
    ensures !Halted(scn, start, rng, n)
  {
    hide RunFlow, AlwaysFires;
    if n > 0 {
      LoopOutgrown(scn, start, rng, n - 1);
      var x := AfterFlows(scn, start, rng, n - 1);
      RunFlowPool(scn, n, Primaries(scn, x.world)[n - 1], start, rng, x.world, |scn.timeline|, PrimaryType(scn));
      TimelineNewZero(scn, PrimaryType(scn), |scn.timeline|);
    }
  }

  /** The outer loop ends. */
  ghost predicate Ends(scn: Scenario, start: int, rng: Stream) { exists n :: Halted(scn, start, rng, n) }

  /**
   Expansion ends whatever is drawn exactly if no step creates entities of the primary type, or
   there is no primary entity to begin with.
   */
  lemma {:induction false} ExpansionEndsIff(scn: Scenario, start: int)
    ensures (forall rng :: Ends(scn, start, rng)) <==> NoNewPrimary(scn) || Primaries(scn, InitialWorld(scn)) == []
  {
    hide NoNewPrimary, Halted;
    if NoNewPrimary(scn) {
      forall rng ensures Ends(scn, start, rng) {
        LoopRunsOncePerPrimary(scn, start, rng, |Primaries(scn, InitialWorld(scn))|);
      }
    } else if Primaries(scn, InitialWorld(scn)) == [] {
      forall rng ensures Ends(scn, start, rng) {
        NothingToWalk(scn, start, rng);
      }
    } else {
      var rng: Stream := i => Draw(0.0, 0);
      assert AlwaysFires(scn, rng);
      forall n: nat ensures !Halted(scn, start, rng, n) {
        LoopOutgrown(scn, start, rng, n);
      }
      assert !Ends(scn, start, rng);
    }
  }

  lemma {:induction false} NothingToWalk(scn: Scenario, start: int, rng: Stream)
    requires Primaries(scn, InitialWorld(scn)) == []
    ensures Halted(scn, start, rng, 0)
  {
  }

  /** A loop that has ended stays ended: the plan does not depend on how many further rounds are allowed. */
  lemma {:induction false} RoundsStay(scn: Scenario, w: World, start: int, rng: Stream, n: nat, m: nat)
    requires RoundsEnd(scn, w, start, rng, n) && n <= m
    ensures Rounds(scn, w, start, rng, m) == Rounds(scn, w, start, rng, n)
  {
    if n < m {
      RoundsStay(scn, w, start, rng, n, m - 1);
    }
  }

  lemma {:induction false} HaltedStays(scn: Scenario, start: int, rng: Stream, n: nat, m: nat)
    requires Halted(scn, start, rng, n) && n <= m
    ensures AfterFlows(scn, start, rng, m) == AfterFlows(scn, start, rng, n)
  {
    hide Rounds;
    RoundsStay(scn, InitialWorld(scn), start, rng, n, m);
  }

  // ---------------------------------------------------------------- unique entity ids

  predicate DistinctKeys(templates: seq<Template>) {
    forall i, j :: 0 <= i < j < |templates| ==> templates[i].key != templates[j].key
  }

  predicate UniqueIds(entities: seq<Entity>) {
    forall i, j :: 0 <= i < j < |entities| ==> entities[i].id != entities[j].id
  }

  /** A template that declares at least one entity under this key. */
  predicate Declared(templates: seq<Template>, key: string) {
    exists i :: 0 <= i < |templates| && templates[i].key == key && templates[i].count >= 1
  }

  lemma {:induction false} FromTemplateIds(t: Template, n: nat)
    ensures |FromTemplate(t, n)| == n
    ensures forall i :: 0 <= i < n ==> FromTemplate(t, n)[i].id == EntityId(t.key, i + 1)
  {
    if n > 0 {
      FromTemplateIds(t, n - 1);
    }
  }

  /** `id` numbers an entity of this template. */
  ghost predicate NumberedBy(id: string, key: string, count: nat) {
    exists c: nat :: 1 <= c <= count && id == EntityId(key, c)
  }

  ghost predicate FromTemplates(id: string, templates: seq<Template>) {
    exists i :: 0 <= i < |templates| && NumberedBy(id, templates[i].key, templates[i].count)
  }

  predicate HasId(entities: seq<Entity>, id: string) { exists i :: 0 <= i < |entities| && entities[i].id == id }

  /** Every number from 1 to `count` names an entity. */
  predicate HasNumbers(entities: seq<Entity>, key: string, count: nat) {
    forall c :: 1 <= c <= count ==> HasId(entities, EntityId(key, c))
  }

  lemma {:induction false} HasIdAppend(a: seq<Entity>, b: seq<Entity>, id: string)
    requires HasId(a, id) || HasId(b, id)
    ensures HasId(a + b, id)
  {
    if i :| 0 <= i < |a| && a[i].id == id {
      assert (a + b)[i].id == id;
    } else {
      var j :| 0 <= j < |b| && b[j].id == id;
      assert (a + b)[|a| + j].id == id;
    }
  }

  lemma {:induction false} HasNumbersAppend(a: seq<Entity>, b: seq<Entity>, key: string, count: nat)
    requires HasNumbers(a, key, count) || HasNumbers(b, key, count)
    ensures HasNumbers(a + b, key, count)
  {
    forall c | 1 <= c <= count ensures HasId(a + b, EntityId(key, c)) {
      HasIdAppend(a, b, EntityId(key, c));
    }
  }

  lemma {:induction false} NumberedByInjective(id: string, k: string, n: nat, k': string, n': nat)
    requires NumberedBy(id, k, n) && NumberedBy(id, k', n')
    ensures k == k'
  {
    var c: nat :| 1 <= c <= n && id == EntityId(k, c);
    var c': nat :| 1 <= c' <= n' && id == EntityId(k', c');
    EntityIdInjective(k, c, k', c');
  }

  lemma {:induction false} UniqueAppend(a: seq<Entity>, b: seq<Entity>)
    requires UniqueIds(a) && UniqueIds(b)
    requires forall i, j :: 0 <= i < |a| && 0 <= j < |b| ==> a[i].id != b[j].id
    ensures UniqueIds(a + b)
  {
  }

  lemma {:induction false} FromTemplateUnique(t: Template)
    ensures UniqueIds(FromTemplate(t, t.count))
    ensures forall j :: 0 <= j < |FromTemplate(t, t.count)| ==>
      NumberedBy(FromTemplate(t, t.count)[j].id, t.key, t.count)
    ensures HasNumbers(FromTemplate(t, t.count), t.key, t.count)
  {
    var b := FromTemplate(t, t.count);
    FromTemplateIds(t, t.count);
    forall c | 1 <= c <= t.count ensures HasId(b, EntityId(t.key, c)) {
      assert b[c - 1].id == EntityId(t.key, c);
    }
    forall i, j | 0 <= i < j < |b| ensures b[i].id != b[j].id {
      if b[i].id == b[j].id {
        EntityIdInjective(t.key, i + 1, t.key, j + 1);
      }
    }
  }

  /** Unique ids, each naming a template, and every number of every template used. */
  ghost predicate GeneratedOk(entities: seq<Entity>, templates: seq<Template>) {
    UniqueIds(entities)
    && (forall i :: 0 <= i < |entities| ==> FromTemplates(entities[i].id, templates))
    && (forall i :: 0 <= i < |templates| ==> HasNumbers(entities, templates[i].key, templates[i].count))
  }

  lemma {:induction false} FromTemplatesSnoc(id: string, templates: seq<Template>, t: Template)
    requires FromTemplates(id, templates) || NumberedBy(id, t.key, t.count)
    ensures FromTemplates(id, templates + [t])
  {
    var ts := templates + [t];
    if FromTemplates(id, templates) {
      var l :| 0 <= l < |templates| && NumberedBy(id, templates[l].key, templates[l].count);
      assert NumberedBy(id, ts[l].key, ts[l].count);
    } else {
      assert NumberedBy(id, ts[|templates|].key, ts[|templates|].count);
    }
  }

  lemma {:induction false} OtherTemplates(id: string, templates: seq<Template>, id': string, t: Template)
    requires FromTemplates(id, templates) && forall i :: 0 <= i < |templates| ==> templates[i].key != t.key
    requires NumberedBy(id', t.key, t.count)
    ensures id != id'
  {
    var l :| 0 <= l < |templates| && NumberedBy(id, templates[l].key, templates[l].count);
    if id == id' {
      NumberedByInjective(id, templates[l].key, templates[l].count, t.key, t.count);
    }
  }

  lemma {:induction false} TemplatesApart(a: seq<Entity>, b: seq<Entity>, templates: seq<Template>, t: Template)
    requires forall i :: 0 <= i < |templates| ==> templates[i].key != t.key
    requires forall i :: 0 <= i < |a| ==> FromTemplates(a[i].id, templates)
    requires forall j :: 0 <= j < |b| ==> NumberedBy(b[j].id, t.key, t.count)
    ensures forall i, j :: 0 <= i < |a| && 0 <= j < |b| ==> a[i].id != b[j].id
  {
    forall i, j | 0 <= i < |a| && 0 <= j < |b| ensures a[i].id != b[j].id {
      OtherTemplates(a[i].id, templates, b[j].id, t);
    }
  }

  lemma {:induction false} GenerateOne(a: seq<Entity>, templates: seq<Template>, t: Template)
    requires GeneratedOk(a, templates)
    requires forall i :: 0 <= i < |templates| ==> templates[i].key != t.key
    ensures GeneratedOk(a + FromTemplate(t, t.count), templates + [t])
  {
    var b, ts := FromTemplate(t, t.count), templates + [t];
    FromTemplateUnique(t);
    TemplatesApart(a, b, templates, t);
    UniqueAppend(a, b);
    forall x | FromTemplates(x, templates) || NumberedBy(x, t.key, t.count) ensures FromTemplates(x, ts) {
      FromTemplatesSnoc(x, templates, t);
    }
    forall i | 0 <= i < |ts| ensures HasNumbers(a + b, ts[i].key, ts[i].count) {
      HasNumbersAppend(a, b, ts[i].key, ts[i].count);
    }
  }

  /** The generated pool. */
  lemma {:induction false} GenerateIds(templates: seq<Template>)
    requires DistinctKeys(templates)
    ensures GeneratedOk(Generate(templates), templates)
  {
    if templates != [] {
      var n := |templates| - 1;
      GenerateIds(templates[..n]);
      GenerateOne(Generate(templates[..n]), templates[..n], templates[n]);
      assert templates[..n] + [templates[n]] == templates;
    }
  }

  /** The entities created on demand so far, numbered per type from 1. */
  ghost predicate Created(made: seq<Entity>, counters: map<string, nat>) {
    UniqueIds(made)
    && (forall i :: 0 <= i < |made| ==>
      made[i].kind in counters && NumberedBy(made[i].id, made[i].kind, counters[made[i].kind]))
    && (forall kind :: kind in counters ==> counters[kind] >= 1 && HasNumbers(made, kind, counters[kind]))
  }

  /** The pool is the generated entities followed by the created ones. */
  ghost predicate PoolOk(base: seq<Entity>, entities: seq<Entity>, counters: map<string, nat>) {
    base <= entities && Created(entities[|base|..], counters)
  }

  lemma {:induction false} CreateOne(made: seq<Entity>, counters: map<string, nat>, kind: string)
    requires Created(made, counters)
    ensures var c := NextCount(counters, kind); Created(made + [Entity(EntityId(kind, c), kind)], counters[kind := c])
  {
    var c := NextCount(counters, kind);
    var e, counters' := Entity(EntityId(kind, c), kind), counters[kind := c];
    var made' := made + [e];
    forall i | 0 <= i < |made|
      ensures made[i].id != e.id && NumberedBy(made[i].id, made[i].kind, counters'[made[i].kind])
    {
      var n: nat :| 1 <= n <= counters[made[i].kind] && made[i].id == EntityId(made[i].kind, n);
      assert n <= counters'[made[i].kind];
      if made[i].id == e.id {
        EntityIdInjective(made[i].kind, n, kind, c);
      }
    }
    assert NumberedBy(e.id, kind, c);
    forall k | k in counters' ensures HasNumbers(made', k, counters'[k]) {
      forall n | 1 <= n <= counters'[k] ensures HasId(made', EntityId(k, n)) {
        if k in counters && n <= counters[k] {
          HasIdAppend(made, [e], EntityId(k, n));
        } else {
          assert [e][0].id == EntityId(k, n);
          HasIdAppend(made, [e], EntityId(k, n));
        }
      }
    }
  }

  lemma {:induction false} AddEntityPool(base: seq<Entity>, w: World, kind: string)
    requires PoolOk(base, w.entities, w.counters)
    ensures PoolOk(base, AddEntity(w, kind).0.entities, AddEntity(w, kind).0.counters)
  {
    CreateOne(w.entities[|base|..], w.counters, kind);
    var (w', e) := AddEntity(w, kind);
    assert w'.entities[|base|..] == w.entities[|base|..] + [e];
  }

  lemma {:induction false} ResolveRefsPoolOk(
      base: seq<Entity>, w: World, specs: seq<(string, string)>, primary: Entity, byId: map<string, Event>,
      rng: Stream, k: nat)
    requires k <= |specs| && PoolOk(base, w.entities, w.counters)
    ensures var w' := ResolveRefs(w, specs, primary, byId, rng, k).0; PoolOk(base, w'.entities, w'.counters)
  {
    hide PoolOk;
    if k > 0 {
      ResolveRefsPoolOk(base, w, specs, primary, byId, rng, k - 1);
      var w1 := ResolveRefs(w, specs, primary, byId, rng, k - 1).0;
      var spec := ParseRef(specs[k - 1].1);
      if spec.New? {
        AddEntityPool(base, w1, spec.kind);
      } else {
        var w2 := ResolveRef(w1, specs[k - 1].1, primary, byId, rng).0;
        assert w2.entities == w1.entities && w2.counters == w1.counters;
      }
    }
  }

  lemma {:induction false} RunFlowPoolOk(
      base: seq<Entity>, scn: Scenario, flowIndex: nat, primary: Entity, start: int, rng: Stream, w: World, k: nat)
    requires k <= |scn.timeline| && PoolOk(base, w.entities, w.counters)
    ensures var w' := RunFlow(scn, flowIndex, primary, start, rng, w, k).world; PoolOk(base, w'.entities, w'.counters)
  {
    hide EventId, StepTime, ResolveRefs;
    if k > 0 {
      RunFlowPoolOk(base, scn, flowIndex, primary, start, rng, w, k - 1);
      var st := RunFlow(scn, flowIndex, primary, start, rng, w, k - 1);
      var step := scn.timeline[k - 1];
      if Fires(step, rng, st.world.pos) {
        ResolveRefsPoolOk(base, st.world.(pos := StepTime(step, start, st, rng).1), step.refs, primary, st.byId, rng,
          |step.refs|);
      }
    }
  }

  lemma {:induction false} AfterFlowsPoolOk(scn: Scenario, start: int, rng: Stream, n: nat)
    ensures var w := AfterFlows(scn, start, rng, n).world; PoolOk(Generate(scn.templates), w.entities, w.counters)
  {
    if n > 0 {
      AfterFlowsPoolOk(scn, start, rng, n - 1);
      var x := AfterFlows(scn, start, rng, n - 1);
      if n <= |Primaries(scn, x.world)| {
        RunFlowPoolOk(Generate(scn.templates), scn, n, Primaries(scn, x.world)[n - 1], start, rng, x.world,
          |scn.timeline|);
      }
    }
  }

  /**
   Entity ids of the plan are unique exactly when no entity was created on demand under a
   key that the scenario also declares: the expander numbers its entities from 1 again.
   */
  lemma {:induction false} PoolIdsUniqueIff(scn: Scenario, start: int, rng: Stream, n: nat)
    requires DistinctKeys(scn.templates)
    ensures var w := AfterFlows(scn, start, rng, n).world;
      UniqueIds(w.entities) <==> forall kind :: kind in w.counters ==> !Declared(scn.templates, kind)
  {
    var w := AfterFlows(scn, start, rng, n).world;
    var base := Generate(scn.templates);
    AfterFlowsPoolOk(scn, start, rng, n);
    GenerateIds(scn.templates);
    if kind :| kind in w.counters && Declared(scn.templates, kind) {
      SharedId(scn.templates, base, w.entities[|base|..], w.counters, kind);
      assert w.entities == base + w.entities[|base|..];
    } else {
      DisjointIds(scn.templates, base, w.entities[|base|..], w.counters);
      UniqueAppend(base, w.entities[|base|..]);
      assert w.entities == base + w.entities[|base|..];
    }
  }

  lemma {:induction false} SharedId(
      templates: seq<Template>, base: seq<Entity>, made: seq<Entity>, counters: map<string, nat>, kind: string)
    requires Created(made, counters) && kind in counters && Declared(templates, kind)
    requires forall i :: 0 <= i < |templates| ==> HasNumbers(base, templates[i].key, templates[i].count)
    ensures !UniqueIds(base + made)
  {
    var t :| 0 <= t < |templates| && templates[t].key == kind && templates[t].count >= 1;
    var c: nat :| 1 <= c <= templates[t].count && c <= counters[kind];
    assert HasNumbers(base, templates[t].key, templates[t].count) && HasNumbers(made, kind, counters[kind]);
    assert HasId(base, EntityId(kind, c)) && HasId(made, EntityId(kind, c));
    var i :| 0 <= i < |base| && base[i].id == EntityId(kind, c);
    var j :| 0 <= j < |made| && made[j].id == EntityId(kind, c);
    assert (base + made)[i].id == (base + made)[|base| + j].id;
  }

  lemma {:induction false} DisjointIds(
      templates: seq<Template>, base: seq<Entity>, made: seq<Entity>, counters: map<string, nat>)
    requires Created(made, counters)
    requires forall kind :: kind in counters ==> !Declared(templates, kind)
    requires forall i :: 0 <= i < |base| ==> FromTemplates(base[i].id, templates)
    ensures forall i, j :: 0 <= i < |base| && 0 <= j < |made| ==> base[i].id != made[j].id
  {
    forall i, j | 0 <= i < |base| && 0 <= j < |made| ensures base[i].id != made[j].id {
      assert FromTemplates(base[i].id, templates);
      var t :| 0 <= t < |templates| && NumberedBy(base[i].id, templates[t].key, templates[t].count);
      var kind := made[j].kind;
      if base[i].id == made[j].id {
        NumberedByInjective(base[i].id, templates[t].key, templates[t].count, kind, counters[kind]);
        assert false;
      }
    }
  }

  // ---------------------------------------------------------------- unique ids, seen from the scenario

  /** One of the first `n` specs is `$new.<kind>`. */
  predicate Asked(specs: seq<(string, string)>, n: nat, kind: string)
    requires n <= |specs|
  {
    exists i :: 0 <= i < n && ParseRef(specs[i].1) == New(kind)
  }

  /** One of the first `n` steps has a reference `$new.<kind>`. */
  predicate Creates(scn: Scenario, n: nat, kind: string)
    requires n <= |scn.timeline|
  {
    exists k :: 0 <= k < n && Asked(scn.timeline[k].refs, |scn.timeline[k].refs|, kind)
  }

  /** No key is both declared with entities and created on demand, or nothing is ever expanded. */
  ghost predicate FreshKeys(scn: Scenario) {
    Primaries(scn, InitialWorld(scn)) == []
    || forall kind :: Creates(scn, |scn.timeline|, kind) ==> !Declared(scn.templates, kind)
  }

  lemma {:induction false} ResolveRefsCounts(
      w: World, specs: seq<(string, string)>, primary: Entity, byId: map<string, Event>, rng: Stream, k: nat,
      kind: string)
    requires k <= |specs|
    ensures kind in ResolveRefs(w, specs, primary, byId, rng, k).0.counters
      <==> kind in w.counters || Asked(specs, k, kind)
  {
    hide ParseRef, EntityId, AddTo;
    if k > 0 {
      ResolveRefsCounts(w, specs, primary, byId, rng, k - 1, kind);
      assert Asked(specs, k, kind) <==> Asked(specs, k - 1, kind) || ParseRef(specs[k - 1].1) == New(kind);
    }
  }

  /** A flow counts only kinds the timeline creates, and all of them when every step fires. */
  lemma {:induction false} RunFlowCounts(
      scn: Scenario, flowIndex: nat, primary: Entity, start: int, rng: Stream, w: World, k: nat, kind: string)
    requires k <= |scn.timeline|
    ensures var counters := RunFlow(scn, flowIndex, primary, start, rng, w, k).world.counters;
      (kind in counters ==> kind in w.counters || Creates(scn, k, kind))
      && (kind in w.counters || (AlwaysFires(scn, rng) && Creates(scn, k, kind)) ==> kind in counters)
  {
    hide EventId, StepTime, ResolveRefs, Asked;
    if k > 0 {
      RunFlowCounts(scn, flowIndex, primary, start, rng, w, k - 1, kind);
      var st := RunFlow(scn, flowIndex, primary, start, rng, w, k - 1);
      var step := scn.timeline[k - 1];
      assert Creates(scn, k, kind) <==> Creates(scn, k - 1, kind) || Asked(step.refs, |step.refs|, kind);
      if Fires(step, rng, st.world.pos) {
        var w1 := st.world.(pos := StepTime(step, start, st, rng).1);
        ResolveRefsCounts(w1, step.refs, primary, st.byId, rng, |step.refs|, kind);
      }
    }
  }

  lemma {:induction false} AfterFlowsCounts(scn: Scenario, start: int, rng: Stream, n: nat, kind: string)
    requires kind in AfterFlows(scn, start, rng, n).world.counters
    ensures Creates(scn, |scn.timeline|, kind) && Primaries(scn, InitialWorld(scn)) != []
  {
    hide RunFlow, Creates;
    if n > 0 {
      var x := AfterFlows(scn, start, rng, n - 1);
      if n <= |Primaries(scn, x.world)| {
        RunFlowCounts(scn, n, Primaries(scn, x.world)[n - 1], start, rng, x.world, |scn.timeline|, kind);
        if kind in x.world.counters {
          AfterFlowsCounts(scn, start, rng, n - 1, kind);
        } else if Primaries(scn, InitialWorld(scn)) == [] {
          NeverStarts(scn, start, rng, n - 1);
        }
      } else {
        AfterFlowsCounts(scn, start, rng, n - 1, kind);
      }
    }
  }

  lemma {:induction false} NeverStarts(scn: Scenario, start: int, rng: Stream, n: nat)
    requires Primaries(scn, InitialWorld(scn)) == []
    ensures AfterFlows(scn, start, rng, n).world == InitialWorld(scn)
  {
    NothingToWalk(scn, start, rng);
    HaltedStays(scn, start, rng, 0, n);
  }

  /**
   Exactly which scenarios always give their entities unique ids: those that expand nothing, or
   that create on demand only under keys they do not declare.
   */
  lemma {:induction false} UniqueIdsIff(scn: Scenario, start: int)
    requires DistinctKeys(scn.templates)
    ensures (forall rng, n :: UniqueIds(AfterFlows(scn, start, rng, n).world.entities)) <==> FreshKeys(scn)
  {
    hide AfterFlows, UniqueIds, Creates, Declared, AlwaysFires;
    if FreshKeys(scn) {
      forall rng, n ensures UniqueIds(AfterFlows(scn, start, rng, n).world.entities) {
        FreshKeysUnique(scn, start, rng, n);
      }
    } else {
      var kind :| Creates(scn, |scn.timeline|, kind) && Declared(scn.templates, kind);
      var rng: Stream := i => Draw(0.0, 0);
      ZerosFire(scn, rng);
      FirstRoundCounts(scn, start, rng, kind);
      PoolIdsUniqueIff(scn, start, rng, 1);
      assert !UniqueIds(AfterFlows(scn, start, rng, 1).world.entities);
    }
  }

  lemma {:induction false} FreshKeysUnique(scn: Scenario, start: int, rng: Stream, n: nat)
    requires DistinctKeys(scn.templates) && FreshKeys(scn)
    ensures UniqueIds(AfterFlows(scn, start, rng, n).world.entities)
  {
    hide AfterFlows, UniqueIds, Creates, Declared;
    forall kind | kind in AfterFlows(scn, start, rng, n).world.counters ensures !Declared(scn.templates, kind) {
      AfterFlowsCounts(scn, start, rng, n, kind);
    }
    PoolIdsUniqueIff(scn, start, rng, n);
  }

  lemma {:induction false} ZerosFire(scn: Scenario, rng: Stream)
    requires forall i :: rng(i).unit == 0.0
    ensures AlwaysFires(scn, rng)
  {
  }

  lemma {:induction false} FirstRoundCounts(scn: Scenario, start: int, rng: Stream, kind: string)
    requires AlwaysFires(scn, rng) && Creates(scn, |scn.timeline|, kind) && Primaries(scn, InitialWorld(scn)) != []
    ensures kind in AfterFlows(scn, start, rng, 1).world.counters
  {
    hide RunFlow, Creates, AlwaysFires, InitialWorld;
    var w := InitialWorld(scn);
    assert AfterFlows(scn, start, rng, 0) == Expansion(w, []);
    RunFlowCounts(scn, 1, Primaries(scn, w)[0], start, rng, w, |scn.timeline|, kind);
  }

  // ---------------------------------------------------------------- one type per id

  /** Entities that share an id share a type. */
  predicate KindsById(entities: seq<Entity>) {
    forall i, j :: 0 <= i < |entities| && 0 <= j < |entities| && entities[i].id == entities[j].id ==>
      entities[i].kind == entities[j].kind
  }

  /** A template that declares entities under this key, but of another type. */
  predicate DeclaredElse(templates: seq<Template>, key: string) {
    exists i :: 0 <= i < |templates|
                && templates[i].key == key && templates[i].count >= 1 && KindOf(templates[i]) != key
  }

  /** The entity comes from one of the templates. */
  ghost predicate FromSome(e: Entity, templates: seq<Template>) {
    exists i :: 0 <= i < |templates|
                && NumberedBy(e.id, templates[i].key, templates[i].count) && e.kind == KindOf(templates[i])
  }

  lemma {:induction false} FromTemplateKinds(t: Template, n: nat)
    ensures forall i :: 0 <= i < |FromTemplate(t, n)| ==> FromTemplate(t, n)[i].kind == KindOf(t)
  {
    if n > 0 {
      FromTemplateKinds(t, n - 1);
    }
  }

  lemma {:induction false} GenerateKinds(templates: seq<Template>)
    ensures forall i :: 0 <= i < |Generate(templates)| ==> FromSome(Generate(templates)[i], templates)
  {
    hide NumberedBy, KindOf;
    if templates != [] {
      var n := |templates| - 1;
      var t, a := templates[n], Generate(templates[..n]);
      GenerateKinds(templates[..n]);
      FromTemplateUnique(t);
      FromTemplateKinds(t, t.count);
      forall i | 0 <= i < |Generate(templates)| ensures FromSome(Generate(templates)[i], templates) {
        if i < |a| {
          assert FromSome(a[i], templates[..n]);
          var l :| 0 <= l < n && NumberedBy(a[i].id, templates[..n][l].key, templates[..n][l].count)
            && a[i].kind == KindOf(templates[..n][l]);
          assert templates[l] == templates[..n][l];
        } else {
          assert Generate(templates)[i] == FromTemplate(t, t.count)[i - |a|];
        }
      }
    }
  }

  /**
   After a given run, an id names entities of one type exactly when nothing was created on demand
   under a key that is declared with another type.
   */
  lemma {:induction false} PoolKindsIff(scn: Scenario, start: int, rng: Stream, n: nat)
    requires DistinctKeys(scn.templates)
    ensures var w := AfterFlows(scn, start, rng, n).world;
      KindsById(w.entities) <==> forall kind :: kind in w.counters ==> !DeclaredElse(scn.templates, kind)
  {
    hide AfterFlows, DeclaredElse, FromSome, NumberedBy, HasNumbers, UniqueIds;
    var w := AfterFlows(scn, start, rng, n).world;
    var base := Generate(scn.templates);
    AfterFlowsPoolOk(scn, start, rng, n);
    var made := w.entities[|base|..];
    GenerateIds(scn.templates);
    GenerateKinds(scn.templates);
    assert w.entities == base + made;
    if kind :| kind in w.counters && DeclaredElse(scn.templates, kind) {
      SharedKind(scn.templates, base, made, w.counters, kind);
    } else {
      forall i, j | 0 <= i < |base| && 0 <= j < |made| && base[i].id == made[j].id
        ensures base[i].kind == made[j].kind
      {
        SameKind(scn.templates, base[i], made[j], w.counters);
      }
      KindsAppend(base, made);
    }
  }

  lemma {:induction false} KindsAppend(a: seq<Entity>, b: seq<Entity>)
    requires UniqueIds(a) && UniqueIds(b)
    requires forall i, j :: 0 <= i < |a| && 0 <= j < |b| && a[i].id == b[j].id ==> a[i].kind == b[j].kind
    ensures KindsById(a + b)
  {
  }

  lemma {:induction false} SameKind(templates: seq<Template>, e: Entity, m: Entity, counters: map<string, nat>)
    requires FromSome(e, templates) && e.id == m.id
    requires m.kind in counters && NumberedBy(m.id, m.kind, counters[m.kind]) && !DeclaredElse(templates, m.kind)
    ensures e.kind == m.kind
  {
    var t :| 0 <= t < |templates|
      && NumberedBy(e.id, templates[t].key, templates[t].count) && e.kind == KindOf(templates[t]);
    NumberedByInjective(e.id, templates[t].key, templates[t].count, m.kind, counters[m.kind]);
  }

  lemma {:induction false} SharedKind(
      templates: seq<Template>, base: seq<Entity>, made: seq<Entity>, counters: map<string, nat>, kind: string)
    requires DistinctKeys(templates) && Created(made, counters) && kind in counters && DeclaredElse(templates, kind)
    requires forall i :: 0 <= i < |base| ==> FromSome(base[i], templates)
    requires forall i :: 0 <= i < |templates| ==> HasNumbers(base, templates[i].key, templates[i].count)
    ensures !KindsById(base + made)
  {
    hide UniqueIds;
    var t :| 0 <= t < |templates|
      && templates[t].key == kind && templates[t].count >= 1 && KindOf(templates[t]) != kind;
    var id := EntityId(kind, 1);
    assert HasNumbers(base, templates[t].key, templates[t].count) && HasNumbers(made, kind, counters[kind]);
    assert HasId(base, id) && HasId(made, id);
    var i :| 0 <= i < |base| && base[i].id == id;
    var j :| 0 <= j < |made| && made[j].id == id;
    KindOfBase(templates, base[i], t);
    NumberedByInjective(id, made[j].kind, counters[made[j].kind], kind, counters[kind]);
    assert (base + made)[i] == base[i] && (base + made)[|base| + j] == made[j];
  }

  lemma {:induction false} KindOfBase(templates: seq<Template>, e: Entity, t: nat)
    requires DistinctKeys(templates) && FromSome(e, templates) && t < |templates|
    requires e.id == EntityId(templates[t].key, 1) && templates[t].count >= 1
    ensures e.kind == KindOf(templates[t])
  {
    hide KindOf, EntityId;
    var l :| 0 <= l < |templates|
      && NumberedBy(e.id, templates[l].key, templates[l].count) && e.kind == KindOf(templates[l]);
    assert NumberedBy(e.id, templates[t].key, templates[t].count);
    NumberedByInjective(e.id, templates[l].key, templates[l].count, templates[t].key, templates[t].count);
  }

  /** Created entities have the type of the declared ones they share ids with, or nothing is ever expanded. */
  ghost predicate AgreeingKeys(scn: Scenario) {
    Primaries(scn, InitialWorld(scn)) == []
    || forall kind :: Creates(scn, |scn.timeline|, kind) ==> !DeclaredElse(scn.templates, kind)
  }

  /**
   Exactly which scenarios never give one id to entities of two types: those that expand nothing,
   or whose created keys are not declared with another type.
   */
  lemma {:induction false} KindsByIdIff(scn: Scenario, start: int)
    requires DistinctKeys(scn.templates)
    ensures (forall rng, n :: KindsById(AfterFlows(scn, start, rng, n).world.entities)) <==> AgreeingKeys(scn)
  {
    hide AfterFlows, KindsById, Creates, DeclaredElse, AlwaysFires;
    if AgreeingKeys(scn) {
      forall rng, n ensures KindsById(AfterFlows(scn, start, rng, n).world.entities) {
        AgreeingKinds(scn, start, rng, n);
      }
    } else {
      var kind :| Creates(scn, |scn.timeline|, kind) && DeclaredElse(scn.templates, kind);
      var rng: Stream := i => Draw(0.0, 0);
      ZerosFire(scn, rng);
      FirstRoundCounts(scn, start, rng, kind);
      PoolKindsIff(scn, start, rng, 1);
      assert !KindsById(AfterFlows(scn, start, rng, 1).world.entities);
    }
  }

  lemma {:induction false} AgreeingKinds(scn: Scenario, start: int, rng: Stream, n: nat)
    requires DistinctKeys(scn.templates) && AgreeingKeys(scn)
    ensures KindsById(AfterFlows(scn, start, rng, n).world.entities)
  {
    hide AfterFlows, KindsById, Creates, DeclaredElse;
    forall kind | kind in AfterFlows(scn, start, rng, n).world.counters ensures !DeclaredElse(scn.templates, kind) {
      AfterFlowsCounts(scn, start, rng, n, kind);
    }
    PoolKindsIff(scn, start, rng, n);
  }

  // ---------------------------------------------------------------- loops that never end

  /** A step that always fires creates entities of the primary type. */
  predicate SureNewPrimary(scn: Scenario) {
    exists k :: 0 <= k < |scn.timeline| && scn.timeline[k].probability == 1.0
      && Asked(scn.timeline[k].refs, |scn.timeline[k].refs|, PrimaryType(scn))
  }

  /** The largest probability below 1 among the first `n` steps. */
  function Ceiling(scn: Scenario, n: nat): (c: real)
    requires n <= |scn.timeline|
    ensures 0.0 <= c < 1.0
    ensures forall k :: 0 <= k < n && scn.timeline[k].probability < 1.0 ==> scn.timeline[k].probability <= c
  {
    if n == 0 then 0.0
    else
      var c, p := Ceiling(scn, n - 1), scn.timeline[n - 1].probability;
      if p < 1.0 && p > c then p else c
  }

  /** Draws, all below 1, under which only the sure steps fire. */
  function OnlySure(scn: Scenario): Stream {
    var u := (1.0 + Ceiling(scn, |scn.timeline|)) / 2.0;
    i => Draw(u, 0)
  }

  lemma {:induction false} OnlySureFires(scn: Scenario, k: nat, pos: nat)
    requires k < |scn.timeline|
    ensures OnlySure(scn)(pos).unit < 1.0
    ensures Fires(scn.timeline[k], OnlySure(scn), pos) ==> scn.timeline[k].probability == 1.0
  {
    var c := Ceiling(scn, |scn.timeline|);
    assert c < (1.0 + c) / 2.0 < 1.0;
  }

  lemma {:induction false} NewCountAsked(specs: seq<(string, string)>, kind: string)
    ensures NewCount(specs, kind, |specs|) > 0 <==> Asked(specs, |specs|, kind)
  {
    hide ParseRef;
    NewCountZero(specs, kind, |specs|);
  }

  /** When only sure steps fire and none of them creates primaries, a flow leaves the walked list alone. */
  lemma {:induction false} SureFlowPool(
      scn: Scenario, flowIndex: nat, primary: Entity, start: int, w: World, k: nat)
    requires k <= |scn.timeline| && !SureNewPrimary(scn)
    ensures Primaries(scn, RunFlow(scn, flowIndex, primary, start, OnlySure(scn), w, k).world) == Primaries(scn, w)
  {
    hide EventId, StepTime, ResolveRefs, Asked, OnlySure, PrimaryType, NewCount;
    if k > 0 {
      var rng := OnlySure(scn);
      SureFlowPool(scn, flowIndex, primary, start, w, k - 1);
      var st := RunFlow(scn, flowIndex, primary, start, rng, w, k - 1);
      var step := scn.timeline[k - 1];
      if Fires(step, rng, st.world.pos) {
        OnlySureFires(scn, k - 1, st.world.pos);
        NewCountAsked(step.refs, PrimaryType(scn));
        var w1 := st.world.(pos := StepTime(step, start, st, rng).1);
        ResolveRefsPool(w1, step.refs, primary, st.byId, rng, |step.refs|, PrimaryType(scn));
      }
    }
  }

  lemma {:induction false} SureLoop(scn: Scenario, start: int, n: nat)
    requires !SureNewPrimary(scn)
    ensures Primaries(scn, AfterFlows(scn, start, OnlySure(scn), n).world) == Primaries(scn, InitialWorld(scn))
  {
    hide RunFlow, SureNewPrimary, OnlySure;
    if n > 0 {
      SureLoop(scn, start, n - 1);
      var x := AfterFlows(scn, start, OnlySure(scn), n - 1);
      if n <= |Primaries(scn, x.world)| {
        SureFlowPool(scn, n, Primaries(scn, x.world)[n - 1], start, x.world, |scn.timeline|);
      }
    }
  }

  /** A flow with a sure `$new.<primary type>` makes the walked list longer, whatever is drawn. */
  lemma {:induction false} SureGrows(
      scn: Scenario, flowIndex: nat, primary: Entity, start: int, rng: Stream, w: World, k: nat, l: nat)
    requires l < k <= |scn.timeline| && scn.timeline[l].probability == 1.0
    requires Asked(scn.timeline[l].refs, |scn.timeline[l].refs|, PrimaryType(scn))
    ensures |Primaries(scn, RunFlow(scn, flowIndex, primary, start, rng, w, k).world)| > |Primaries(scn, w)|
  {
    hide EventId, StepTime, ResolveRefs, Asked, PrimaryType, NewCount;
    var kind := PrimaryType(scn);
    var st := RunFlow(scn, flowIndex, primary, start, rng, w, k - 1);
    var step := scn.timeline[k - 1];
    RunFlowPool(scn, flowIndex, primary, start, rng, w, k - 1, kind);
    if l < k - 1 {
      SureGrows(scn, flowIndex, primary, start, rng, w, k - 1, l);
    }
    if Fires(step, rng, st.world.pos) {
      var w1 := st.world.(pos := StepTime(step, start, st, rng).1);
      NewCountAsked(step.refs, kind);
      ResolveRefsPool(w1, step.refs, primary, st.byId, rng, |step.refs|, kind);
    }
  }

  lemma {:induction false} SureOutgrown(scn: Scenario, start: int, rng: Stream, n: nat)
    requires SureNewPrimary(scn) && Primaries(scn, InitialWorld(scn)) != []
    ensures !Halted(scn, start, rng, n)
  {
    hide RunFlow, Asked;
    if n > 0 {
      SureOutgrown(scn, start, rng, n - 1);
      var x := AfterFlows(scn, start, rng, n - 1);
      var l :| 0 <= l < |scn.timeline| && scn.timeline[l].probability == 1.0
        && Asked(scn.timeline[l].refs, |scn.timeline[l].refs|, PrimaryType(scn));
      SureGrows(scn, n, Primaries(scn, x.world)[n - 1], start, rng, x.world, |scn.timeline|, l);
    }
  }

  /**
   The companion of `ExpansionEndsIff`: the outer loop ends for no draws at all exactly if there is
   a primary entity and a step of probability 1 creates entities of the primary type. Otherwise it
   ends already for some draws below 1.
   */
  lemma {:induction false} NeverEndsIff(scn: Scenario, start: int)
    ensures (forall rng :: !Ends(scn, start, rng)) <==> SureNewPrimary(scn) && Primaries(scn, InitialWorld(scn)) != []
    ensures !SureNewPrimary(scn) ==> Ends(scn, start, OnlySure(scn))
  {
    hide Halted, SureNewPrimary, OnlySure;
    if !SureNewPrimary(scn) {
      var n := |Primaries(scn, InitialWorld(scn))|;
      SureLoop(scn, start, n);
      HaltsHere(scn, start, OnlySure(scn), n);
      var rng := OnlySure(scn);
      assert Ends(scn, start, rng);
    } else if Primaries(scn, InitialWorld(scn)) == [] {
      var rng: Stream := i => Draw(0.0, 0);
      NothingToWalk(scn, start, rng);
      assert Ends(scn, start, rng);
    } else {
      forall rng ensures !Ends(scn, start, rng) {
        forall n: nat ensures !Halted(scn, start, rng, n) {
          SureOutgrown(scn, start, rng, n);
        }
      }
    }
  }

  lemma {:induction false} HaltsHere(scn: Scenario, start: int, rng: Stream, n: nat)
    requires |Primaries(scn, AfterFlows(scn, start, rng, n).world)| <= n
    ensures Halted(scn, start, rng, n)
  {
  }
}
