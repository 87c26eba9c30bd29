/**
 A scenario whose flows share a scope: two users, one host, and a rule scoped by the host. Without
 jitter its plan meets the rule; jitter that keeps the order of each flow can break it
 (eventweave/compiler/rules.py:58-80 with eventweave/compiler/jitter.py:39-62).
 */
module SharedScope {
  import opened Common
  import opened Events
  import opened Rng
  import opened Scenarios
  import opened Ids
  import opened Planner
  import opened Rules
  import opened Interleavings
  import opened RuleLimits
  import opened Compile
  import opened ScopedRules

  /** Both steps pick the one host there is; the first fires half of the time. */
  function SharedHost(id: string): Scenario {
    Scenario(id, 60, Some("user"), [Template("user", 2, None), Template("host", 1, None)], [],
      [HostStep("scan", 0, 0.5), HostStep("alert", 1, 1.0)], None, None)
  }

  function HostStep(event: string, at: nat, probability: Unit): Step {
    Step(None, event, None, Some(at), None, None, None, probability, [("host", "$entity.host")], map[], [])
  }

  /** Only the draw for the second user's first step is too high. */
  function Draws(): Stream { (i: nat) => Draw(if i == 4 then 0.75 else 0.0, 0) }

  /** An alert needs a scan of the same host before it. */
  function AlertAfterScan(): Rule { EventAfter(Some("alert"), Some("scan"), Some("host")) }

  function User(n: nat): Entity { Entity(EntityId("user", n), "user") }

  function Host(): Entity { Entity(EntityId("host", 1), "host") }

  lemma {:induction false} Entities(id: string)
    ensures var w := InitialWorld(SharedHost(id));
      w.byType == map["user" := [User(1), User(2)], "host" := [Host()]] && w.pos == 0
  {
    hide EntityId, Generate, GroupByType, FromTemplate;
    GenerateTwoAndOne("user", "host");
    assert "user"[0] != "host"[0];
    GroupTwoAndOne(User(1), User(2), Host());
  }

  lemma {:induction false} GenerateTwoAndOne(a: string, b: string)
    ensures Generate([Template(a, 2, None), Template(b, 1, None)])
      == [Entity(EntityId(a, 1), a), Entity(EntityId(a, 2), a), Entity(EntityId(b, 1), b)]
  {
    hide EntityId;
    var s, t := Template(a, 2, None), Template(b, 1, None);
    assert FromTemplate(s, 1) == [Entity(EntityId(a, 1), a)];
    assert FromTemplate(s, 2) == [Entity(EntityId(a, 1), a), Entity(EntityId(a, 2), a)];
    assert FromTemplate(t, 1) == [Entity(EntityId(b, 1), b)];
    assert [s][..0] == [] && [s, t][..1] == [s];
    hide FromTemplate;
    assert Generate([]) == [];
    assert Generate([s]) == Generate([]) + FromTemplate(s, 2) == FromTemplate(s, 2);
    assert Generate([s, t]) == Generate([s]) + FromTemplate(t, 1);
  }

  lemma {:induction false} GroupTwoAndOne(x: Entity, y: Entity, z: Entity)
    requires x.kind == y.kind != z.kind
    ensures GroupByType([x, y, z]) == map[x.kind := [x, y], z.kind := [z]]
  {
    assert [x][..0] == [] && [x, y][..1] == [x] && [x, y, z][..2] == [x, y];
    assert GroupByType([]) == map[];
    assert GroupByType([x]) == AddTo(map[], x);
    assert GroupByType([x, y]) == AddTo(GroupByType([x]), y);
    assert GroupByType([x, y, z]) == AddTo(GroupByType([x, y]), z);
    hide GroupByType;
    assert [] + [x] == [x] && [x] + [y] == [x, y] && [] + [z] == [z];
  }

  lemma {:induction false} HostSpec()
    ensures ParseRef("$entity.host") == AnyOf("host")
  {
    var s := "$entity.host";
    assert s[..8] == "$entity." && s[8..] == "host";
    assert |s| != |"$flow"|;
  }

  /** The event a step of this flow makes. */
  function HostEvent(id: string, f: nat, k: nat, event: string, time: int): Event {
    var refs := map["flow" := User(f).id, "host" := Host().id];
    Event(EventId(id, f, k), Some(User(f).id), "default", event, time, refs, map[], [])
  }

  /** One step in a world whose only host is this one. */
  lemma {:induction false} HostStepFires(id: string, f: nat, k: nat, start: int, rng: Stream, st: FlowState)
    requires 1 <= k <= 2
    requires Candidates(st.world, "host") == [Host()]
    ensures var scn := SharedHost(id);
      var step := scn.timeline[k - 1];
      var st' := ApplyStep(scn, f, k, User(f), start, rng, st);
      st'.world.byType == st.world.byType
      && if Fires(step, rng, st.world.pos)
         then st'.world.pos == st.world.pos + 2
              && st'.events == st.events + [HostEvent(id, f, k, step.event, start + step.at.value)]
         else st'.world.pos == st.world.pos + 1 && st'.events == st.events
  {
    hide EventId, EntityId, ParseRef;
    var scn := SharedHost(id);
    var step := scn.timeline[k - 1];
    HostSpec();
    if Fires(step, rng, st.world.pos) {
      var w := st.world.(pos := StepTime(step, start, st, rng).1);
      assert ResolveRefs(w, step.refs, User(f), st.byId, rng, 0) == (w, map["flow" := User(f).id]);
      assert ResolveRef(w, "$entity.host", User(f), st.byId, rng) == (w.(pos := w.pos + 1), Host().id);
      assert step.refs[0] == ("host", "$entity.host");
      assert ResolveRefs(w, step.refs, User(f), st.byId, rng, 1).1 == map["flow" := User(f).id, "host" := Host().id];
    }
  }

  /** Both rounds of the loop: the first user scans and alerts, the second only alerts. */
  lemma {:induction false} TwoRounds(id: string, start: int)
    ensures var x := AfterFlows(SharedHost(id), start, Draws(), 2);
      x.events == [HostEvent(id, 1, 1, "scan", start), HostEvent(id, 1, 2, "alert", start + 1),
                   HostEvent(id, 2, 2, "alert", start + 1)]
    ensures Halted(SharedHost(id), start, Draws(), 2)
  {
    hide EventId, EntityId, ApplyStep, InitialWorld;
    var scn, rng := SharedHost(id), Draws();
    Entities(id);
    var w := InitialWorld(scn);
    assert "user"[0] != "host"[0];
    var first := RunFlow(scn, 1, User(1), start, rng, w, 2);
    HostStepFires(id, 1, 1, start, rng, RunFlow(scn, 1, User(1), start, rng, w, 0));
    HostStepFires(id, 1, 2, start, rng, RunFlow(scn, 1, User(1), start, rng, w, 1));
    var v := first.world;
    assert v.byType == w.byType && v.pos == 4;
    HostStepFires(id, 2, 1, start, rng, RunFlow(scn, 2, User(2), start, rng, v, 0));
    HostStepFires(id, 2, 2, start, rng, RunFlow(scn, 2, User(2), start, rng, v, 1));
    var second := RunFlow(scn, 2, User(2), start, rng, v, 2);
    assert AfterFlows(scn, start, rng, 0) == Expansion(w, []);
    assert AfterFlows(scn, start, rng, 1).world == v;
    assert AfterFlows(scn, start, rng, 2).world == second.world;
  }

  /**
   The plan without jitter meets the rule, and yet jitter that keeps every flow in order breaks it
   for some offset limit and draws.
   */
  lemma {:induction false} SharedHostBreaks(id: string, start: int, rngs: Streams) returns (m: nat, rng: Stream)
    requires rngs.timeline == Draws()
    ensures Halted(SharedHost(id), start, rngs.timeline, 2)
    ensures Verdict(AlertAfterScan(), Plan(SharedHost(id), start, rngs, 2))
    ensures !Verdict(AlertAfterScan(), PlanWith(SharedHost(id), start, rngs, 2, m, rng))
  {
    hide AfterFlows, Verdict, Safe, EventId, EntityId, Sort;
    var scn, rule := SharedHost(id), AlertAfterScan();
    TwoRounds(id, start);
    var events := AfterFlows(scn, start, rngs.timeline, 2).events;
    var plan := Sort(events);
    PlanIsSorted(scn, start, rngs, events);
    HostKey(id, 1, 1, "scan", start);
    HostKey(id, 1, 2, "alert", start + 1);
    HostKey(id, 2, 2, "alert", start + 1);
    DifferentUsers();
    OneScan(events[0], events[1], events[2], start);
    CompiledAlwaysPassesIff(rule, scn, start, rngs, 2);
    m, rng :| !Verdict(rule, PlanWith(scn, start, rngs, 2, m, rng));
  }

  lemma {:induction false} DifferentUsers()
    ensures User(1).id != User(2).id
  {
    hide EntityId;
    if User(1).id == User(2).id {
      EntityIdInjective("user", 1, "user", 2);
    }
  }

  lemma {:induction false} PlanIsSorted(scn: Scenario, start: int, rngs: Streams, events: seq<Event>)
    requires scn.noise.None? && scn.jitter.None? && AfterFlows(scn, start, rngs.timeline, 2).events == events
    ensures Plan(scn, start, rngs, 2) == Sort(events) == Sort(Unjittered(scn, start, rngs, 2))
  {
    hide AfterFlows, Sort, GroupByType;
    assert Unjittered(scn, start, rngs, 2) == Sort(events) + [] == Sort(events);
    SortTwice(events);
  }

  lemma {:induction false} SortTwice(events: seq<Event>)
    ensures Sort(Sort(events)) == Sort(events)
  {
    SortSorted(events);
    SortOfSorted(Sort(events));
  }

  lemma {:induction false} SortOfSorted(s: seq<Event>)
    requires Sorted(s)
    ensures Sort(s) == s
  {
    hide Before;
    if s != [] {
      SortedTail(s);
      SortOfSorted(s[1..]);
      assert |s| > 1 ==> !Before(s[1], s[0]);
    }
  }

  /** A scan, then two alerts at the same host, one of them in another flow. */
  lemma {:induction false} OneScan(x: Event, y: Event, z: Event, t: int)
    requires x.kind == "scan" && y.kind == z.kind == "alert" && x.time == t && y.time == z.time == t + 1
    requires x.flow == y.flow != z.flow
    requires ScopeKey(x, Some("host")) == ScopeKey(y, Some("host")) == ScopeKey(z, Some("host"))
    ensures Verdict(AlertAfterScan(), Sort([x, y, z])) && !Safe(AlertAfterScan(), Sort([x, y, z]))
  {
    hide ScopeKey, Sort, Safe, GroupOk, Verdict;
    var rule, s, k := AlertAfterScan(), Sort([x, y, z]), ScopeKey(x, Some("host"));
    SortMembers([x, y, z]);
    SortSorted([x, y, z]);
    ScanFirst(s, x);
    ScanMeets(s, k);
    AlertAlone(x, y, z);
    AloneFails(s, k, z);
  }

  lemma {:induction false} ScanFirst(s: seq<Event>, x: Event)
    requires Sorted(s) && x in s && forall e :: e in s && e != x ==> e.time > x.time
    ensures s[0] == x
  {
    var i :| 0 <= i < |s| && s[i] == x;
    assert i > 0 ==> !Before(s[i], s[0]);
  }

  lemma {:induction false} ScanMeets(s: seq<Event>, k: string)
    requires s != [] && s[0].kind == "scan" && forall e :: e in s ==> ScopeKey(e, Some("host")) == k
    ensures Verdict(AlertAfterScan(), s)
  {
    hide ScopeKey;
    var rule := AlertAfterScan();
    assert "scan"[0] != "alert"[0];
    forall l ensures GroupOk(rule, Filter(InScope(rule.scope, l), s)) {
      if l == k {
        FilterAll(InScope(rule.scope, l), s);
        assert IsKind(s[0], Some("scan"));
      } else {
        FilterNone(InScope(rule.scope, l), s);
      }
    }
  }

  lemma {:induction false} AloneFails(s: seq<Event>, k: string, z: Event)
    requires z.kind == "alert" && forall e :: e in s ==> ScopeKey(e, Some("host")) == k
    requires Filter(InFlow(z.flow), s) == [z]
    ensures !Safe(AlertAfterScan(), s)
  {
    hide ScopeKey, Filter;
    var rule := AlertAfterScan();
    FilterAll(InScope(rule.scope, k), s);
    assert GroupOf(rule.scope, k, s) == s;
    assert !MetAt(rule, [z], 0);
    assert !SafeGroup(rule, GroupOf(rule.scope, k, s));
  }

  lemma {:induction false} AlertAlone(x: Event, y: Event, z: Event)
    requires x.flow == y.flow != z.flow
    ensures Filter(InFlow(z.flow), Sort([x, y, z])) == [z]
  {
    hide Sort;
    SortFilter(InFlow(z.flow), [x, y, z]);
    assert [x, y, z][1..] == [y, z] && [y, z][1..] == [z] && [z][1..] == [];
    assert Filter(InFlow(z.flow), [z]) == [z];
    assert Filter(InFlow(z.flow), [y, z]) == [z];
    SortOne(z);
  }

  lemma {:induction false} HostKey(id: string, f: nat, k: nat, event: string, time: int)
    ensures ScopeKey(HostEvent(id, f, k, event, time), Some("host")) == Host().id
  {
    hide EventId;
    assert "host" != "" && |"host"| != |"global"|;
    assert Host().id != "";
  }
}
