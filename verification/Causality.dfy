/**
 Compiled causality: a step that waits for another comes after it in the final plan
 (eventweave/compiler/planner.py:144-150, 284-291 with eventweave/compiler/jitter.py:50-59).
 */
module Causality {
  import opened Common
  import opened Events
  import opened Rng
  import opened Jitter
  import opened Scenarios
  import opened Ids
  import opened Planner
  import opened Compile

  function ShortestDelay(d: Delay): nat {
    match d
    case Fixed(n) => n
    case Range(low, high) => Min(low, high)
  }

  function LongestDelay(d: Delay): nat {
    match d
    case Fixed(n) => n
    case Range(low, high) => Max(low, high)
  }

  /** The step is timed by its predecessor alone. */
  predicate Delayed(step: Step) { step.at.None? && step.jitter.None? && step.after.Some? && step.delay.Some? }

  /** And at least one microsecond later. */
  predicate Waits(step: Step) { Delayed(step) && ShortestDelay(step.delay.value) >= 1 }

  /** One walk over the timeline: the flow's number, its primary entity, and the world it starts in. */
  datatype Walk = Walk(scn: Scenario, f: nat, primary: Entity, start: int, rng: Stream, w: World)

  function After(at: Walk, k: nat): FlowState
    requires k <= |at.scn.timeline|
  {
    RunFlow(at.scn, at.f, at.primary, at.start, at.rng, at.w, k)
  }

  /** The draw made for step `l` does not exceed its probability. */
  predicate Fired(at: Walk, l: nat)
    requires 1 <= l <= |at.scn.timeline|
  {
    at.rng(After(at, l - 1).world.pos).unit <= at.scn.timeline[l - 1].probability
  }

  /** The step goes by this name: its id, or its event type when it has none. */
  predicate GoesBy(step: Step, name: string) {
    if step.id.Some? && step.id.value != "" then step.id.value == name else step.event == name
  }

  /** Step `l`, of the first `k`, is the last one of this name, or of this event type, that fired. */
  ghost predicate LastNamed(at: Walk, k: nat, name: string, byType: bool, l: nat)
    requires k <= |at.scn.timeline|
  {
    1 <= l <= k && Fired(at, l) && Meant(at, l, name, byType)
    && forall m :: l < m <= k && Fired(at, m) ==> !Meant(at, m, name, byType)
  }

  predicate Meant(at: Walk, l: nat, name: string, byType: bool)
    requires 1 <= l <= |at.scn.timeline|
  {
    if byType then at.scn.timeline[l - 1].event == name else GoesBy(at.scn.timeline[l - 1], name)
  }

  ghost predicate NoneNamed(at: Walk, k: nat, name: string, byType: bool)
    requires k <= |at.scn.timeline|
  {
    forall l :: 1 <= l <= k && Fired(at, l) ==> !Meant(at, l, name, byType)
  }

  /** The event that step `l` appended to the flow. */
  ghost predicate MadeAt(at: Walk, l: nat, p: Event)
    requires 1 <= l <= |at.scn.timeline|
  {
    After(at, l).events == After(at, l - 1).events + [p] && p.id == EventId(at.scn.id, at.f, l)
  }

  /** Step `l` is the last fired one that goes by the name, else the last fired one of that event type. */
  ghost predicate Denotes(at: Walk, k: nat, name: string, l: nat)
    requires k <= |at.scn.timeline|
  {
    LastNamed(at, k, name, false, l) || (NoneNamed(at, k, name, false) && LastNamed(at, k, name, true, l))
  }

  /** What `after: name` refers to once `k` steps are done: the event of the step that is meant. */
  ghost predicate Predecessor(at: Walk, k: nat, name: string, p: Event)
    requires k <= |at.scn.timeline|
  {
    exists l: nat :: Denotes(at, k, name, l) && MadeAt(at, l, p)
  }

  /** Round `f` of the outer loop. */
  function RoundOf(scn: Scenario, start: int, rng: Stream, f: nat): Walk
    requires f >= 1 && f <= |Primaries(scn, AfterFlows(scn, start, rng, f - 1).world)|
  {
    var x := AfterFlows(scn, start, rng, f - 1);
    Walk(scn, f, Primaries(scn, x.world)[f - 1], start, rng, x.world)
  }

  /** In round `f`, step `k` fired after event `p`, which its `after` refers to. */
  ghost predicate FiredAfter(scn: Scenario, start: int, rng: Stream, f: nat, k: nat, p: Event) {
    f >= 1 && 1 <= k <= |scn.timeline|
    && f <= |Primaries(scn, AfterFlows(scn, start, rng, f - 1).world)|
    && scn.timeline[k - 1].after.Some?
    && Fired(RoundOf(scn, start, rng, f), k)
    && Predecessor(RoundOf(scn, start, rng, f), k - 1, scn.timeline[k - 1].after.value, p)
  }

  // ---------------------------------------------------------------- inside one flow

  /** A firing step appends one event, of its own id and type, and remembers it under both names. */
  lemma {:induction false} StepAppends(at: Walk, k: nat) returns (e: Event)
    requires 1 <= k <= |at.scn.timeline| && Fired(at, k)
    ensures MadeAt(at, k, e) && e.kind == at.scn.timeline[k - 1].event
    ensures After(at, k).byId == After(at, k - 1).byId[NameOf(at.scn.timeline[k - 1]) := e]
    ensures After(at, k).byKind == After(at, k - 1).byKind[e.kind := e]
  {
    hide EventId, StepTime, StepRefs;
    e := After(at, k).events[|After(at, k - 1).events|];
  }

  /** Any other step appends and remembers nothing. */
  lemma {:induction false} StepSkips(at: Walk, k: nat)
    requires 1 <= k <= |at.scn.timeline| && !Fired(at, k)
    ensures var st, st' := After(at, k - 1), After(at, k);
      st'.events == st.events && st'.byId == st.byId && st'.byKind == st.byKind
  {
  }

  /** What a step is remembered under. */
  function NameOf(step: Step): string {
    if step.id.Some? && step.id.value != "" then step.id.value else step.event
  }

  /** The two memories of a flow hold the last event under each name and of each type. */
  lemma {:induction false} Remembers(at: Walk, k: nat, name: string)
    requires k <= |at.scn.timeline|
    ensures var st := After(at, k);
      (name in st.byId ==> exists l: nat :: LastNamed(at, k, name, false, l) && MadeAt(at, l, st.byId[name]))
      && (name !in st.byId ==> NoneNamed(at, k, name, false))
      && (name in st.byKind ==> exists l: nat :: LastNamed(at, k, name, true, l) && MadeAt(at, l, st.byKind[name]))
      && (name !in st.byKind ==> NoneNamed(at, k, name, true))
  {
    hide MadeAt, EventId, RunFlow, Fired;
    if k == 0 {
      NothingRemembered(at);
    } else {
      Remembers(at, k - 1, name);
      var e: Event :| true;
      if Fired(at, k) {
        e := StepAppends(at, k);
      } else {
        StepSkips(at, k);
      }
      var st, st' := After(at, k - 1), After(at, k);
      StillLast(at, k, name, false, if name in st.byId then Some(st.byId[name]) else None,
                if name in st'.byId then Some(st'.byId[name]) else None, e);
      StillLast(at, k, name, true, if name in st.byKind then Some(st.byKind[name]) else None,
                if name in st'.byKind then Some(st'.byKind[name]) else None, e);
    }
  }

  lemma {:induction false} NothingRemembered(at: Walk)
    ensures After(at, 0).byId == map[] && After(at, 0).byKind == map[] && After(at, 0).events == []
  {
  }

  /** What one step does to what is remembered under a name, or of a type. */
  lemma {:induction false} StillLast(
      at: Walk, k: nat, name: string, byType: bool, was: Option<Event>, now: Option<Event>, e: Event)
    requires 1 <= k <= |at.scn.timeline|
    requires was.Some? ==> exists l: nat :: LastNamed(at, k - 1, name, byType, l) && MadeAt(at, l, was.value)
    requires was.None? ==> NoneNamed(at, k - 1, name, byType)
    requires Fired(at, k) && Meant(at, k, name, byType) ==> MadeAt(at, k, e) && now == Some(e)
    requires !(Fired(at, k) && Meant(at, k, name, byType)) ==> now == was
    ensures now.Some? ==> exists l: nat :: LastNamed(at, k, name, byType, l) && MadeAt(at, l, now.value)
    ensures now.None? ==> NoneNamed(at, k, name, byType)
  {
    hide MadeAt, Fired, Meant;
    if Fired(at, k) && Meant(at, k, name, byType) {
      assert LastNamed(at, k, name, byType, k);
    } else if was.Some? {
      var l: nat :| LastNamed(at, k - 1, name, byType, l) && MadeAt(at, l, was.value);
      assert LastNamed(at, k, name, byType, l);
    }
  }

  /** One name has one predecessor at most. */
  lemma {:induction false} OnePredecessor(at: Walk, k: nat, name: string, p: Event, q: Event)
    requires k <= |at.scn.timeline| && Predecessor(at, k, name, p) && Predecessor(at, k, name, q)
    ensures p == q
  {
    hide RunFlow, EventId, Fired, Meant;
    var l: nat :| Denotes(at, k, name, l) && MadeAt(at, l, p);
    var m: nat :| Denotes(at, k, name, m) && MadeAt(at, m, q);
    assert l == m;
    var n := |After(at, l - 1).events|;
    assert After(at, l).events[n] == p && After(at, l).events[n] == q;
  }

  /** `after` counts from exactly that predecessor, and finds none exactly if no such step fired. */
  lemma {:induction false} PredecessorFound(at: Walk, k: nat, name: string)
    requires k <= |at.scn.timeline|
    ensures var base := BaseOf(After(at, k), name);
      (forall p :: base == Some(p) <==> Predecessor(at, k, name, p))
      && (base.None? <==> NoneNamed(at, k, name, false) && NoneNamed(at, k, name, true))
  {
    hide MadeAt, EventId, RunFlow, Fired, LastNamed, NoneNamed;
    Remembers(at, k, name);
    var base := BaseOf(After(at, k), name);
    if base.Some? {
      assert Predecessor(at, k, name, base.value);
      NotNone(at, k, name, base.value);
    }
    forall p | Predecessor(at, k, name, p) ensures base == Some(p) {
      NotNone(at, k, name, p);
      if base.Some? {
        OnePredecessor(at, k, name, p, base.value);
      }
    }
  }

  lemma {:induction false} NotNone(at: Walk, k: nat, name: string, p: Event)
    requires k <= |at.scn.timeline| && Predecessor(at, k, name, p)
    ensures !(NoneNamed(at, k, name, false) && NoneNamed(at, k, name, true))
  {
    hide MadeAt, Fired, Meant;
  }

  // ---------------------------------------------------------------- when a step happens

  /** Where the flow's clock stands: at its last event, or at the start. */
  function Clock(at: Walk, k: nat): int
    requires k <= |at.scn.timeline|
  {
    var events := After(at, k).events;
    if events == [] then at.start else events[|events| - 1].time
  }

  lemma {:induction false} ClockKept(at: Walk, k: nat)
    requires k <= |at.scn.timeline|
    ensures var st := After(at, k);
      st.now == Clock(at, k) && st.prev == if st.events == [] then None else Some(Clock(at, k))
  {
    hide EventId, StepTime, StepRefs;
    if k > 0 {
      ClockKept(at, k - 1);
    }
  }

  /** `t` lies between the shortest and the longest delay after `from`. */
  predicate InTime(step: Step, from: int, t: int)
    requires step.delay.Some?
  {
    from + ShortestDelay(step.delay.value) <= t <= from + LongestDelay(step.delay.value)
  }

  /**
   The time `t` a step asks for: its absolute offset; else, with `after` and `delay`, a delay within
   bounds after the predecessor, or after the clock without one; else the clock.
   */
  ghost predicate Due(at: Walk, k: nat, t: int)
    requires 1 <= k <= |at.scn.timeline|
  {
    var step := at.scn.timeline[k - 1];
    if step.at.Some? then t == at.start + step.at.value
    else if step.after.Some? && step.delay.Some? then
      (exists p :: Predecessor(at, k - 1, step.after.value, p) && InTime(step, p.time, t))
      || (NoneNamed(at, k - 1, step.after.value, false) && NoneNamed(at, k - 1, step.after.value, true)
          && InTime(step, Clock(at, k - 1), t))
    else t == Clock(at, k - 1)
  }

  /** The step's own jitter moves `t` by at most the offset, and no earlier than just after the clock. */
  predicate Nudged(at: Walk, k: nat, t: int, time: int)
    requires 1 <= k <= |at.scn.timeline|
  {
    var step := at.scn.timeline[k - 1];
    if step.jitter.None? then time == t
    else
      t - step.jitter.value <= time
      && (After(at, k - 1).events == [] ==> time <= t + step.jitter.value)
      && (After(at, k - 1).events != [] ==>
            Clock(at, k - 1) < time <= Max(t + step.jitter.value, Clock(at, k - 1) + 1))
  }

  /** The time of every event of a flow, from what its step says. */
  lemma {:induction false} StepTimed(at: Walk, k: nat) returns (e: Event, t: int)
    requires 1 <= k <= |at.scn.timeline| && Fired(at, k)
    ensures MadeAt(at, k, e) && Due(at, k, t) && Nudged(at, k, t, e.time)
  {
    hide EventId, StepRefs, Predecessor, RunFlow, MadeAt, Clock;
    e := StepAppends(at, k);
    var step, st := at.scn.timeline[k - 1], After(at, k - 1);
    ClockKept(at, k - 1);
    t := AdvanceTime(step, at.start, st, at.rng, st.world.pos + 1).0;
    AppendedTime(at, k, e);
    if step.at.None? && step.after.Some? && step.delay.Some? {
      PredecessorFound(at, k - 1, step.after.value);
    }
  }

  lemma {:induction false} AppendedTime(at: Walk, k: nat, e: Event)
    requires 1 <= k <= |at.scn.timeline| && Fired(at, k) && MadeAt(at, k, e)
    ensures e.time == StepTime(at.scn.timeline[k - 1], at.start, After(at, k - 1), at.rng).0
    ensures e.flow == Some(at.primary.id)
  {
    hide EventId, StepRefs, StepTime;
    var n := |After(at, k - 1).events|;
    assert After(at, k).events[n] == e;
  }

  /** Every delay between the bounds can be drawn. */
  lemma {:induction false} DelayReaches(d: Delay, pos: nat, t: int) returns (rng: Stream)
    requires ShortestDelay(d) <= t <= LongestDelay(d)
    ensures DelayOf(d, rng, pos).0 == t
  {
    hide Uniform, DrawBetween;
    match d
    case Fixed(n) => rng := (i: nat) => Draw(0.0, 0);
    case Range(low, high) =>
      rng := (i: nat) => DrawBetween(low, high, t);
      UniformReaches(low, high, t);
  }

  /** If every step has its own jitter, the events of a flow strictly increase in time. */
  lemma {:induction false} JitteredFlowIncreases(
      scn: Scenario, flowIndex: nat, primary: Entity, start: int, rng: Stream, w: World, k: nat)
    requires k <= |scn.timeline| && forall l :: 0 <= l < |scn.timeline| ==> scn.timeline[l].jitter.Some?
    ensures var st := RunFlow(scn, flowIndex, primary, start, rng, w, k);
      StrictlyIncreasing(st.events)
      && st.prev == if st.events == [] then None else Some(st.events[|st.events| - 1].time)
  {
    hide EventId, AdvanceTime, Uniform, StepRefs, StrictlyIncreasing;
    if k == 0 {
      NothingIncreases();
    } else {
      JitteredFlowIncreases(scn, flowIndex, primary, start, rng, w, k - 1);
      var st := RunFlow(scn, flowIndex, primary, start, rng, w, k - 1);
      var st' := RunFlow(scn, flowIndex, primary, start, rng, w, k);
      if Fires(scn.timeline[k - 1], rng, st.world.pos) {
        var e := st'.events[|st.events|];
        assert st'.events == st.events + [e];
        assert st.prev.Some? ==> st.prev.value < e.time;
        IncreasingSnoc(st.events, e);
      }
    }
  }

  lemma {:induction false} NothingIncreases()
    ensures StrictlyIncreasing([])
  {
  }

  lemma {:induction false} IncreasingSnoc(s: seq<Event>, e: Event)
    requires StrictlyIncreasing(s) && (s != [] ==> s[|s| - 1].time < e.time)
    ensures StrictlyIncreasing(s + [e])
  {
  }

  lemma {:induction false} FlowGrows(
      scn: Scenario, flowIndex: nat, primary: Entity, start: int, rng: Stream, w: World, k: nat, l: nat)
    requires k <= l <= |scn.timeline|
    ensures RunFlow(scn, flowIndex, primary, start, rng, w, k).events
      <= RunFlow(scn, flowIndex, primary, start, rng, w, l).events
  {
    hide EventId, StepTime, StepRefs;
    if k < l {
      FlowGrows(scn, flowIndex, primary, start, rng, w, k, l - 1);
    }
  }

  lemma {:induction false} ExpansionGrows(scn: Scenario, start: int, rng: Stream, n: nat, m: nat)
    requires n <= m
    ensures AfterFlows(scn, start, rng, n).events <= AfterFlows(scn, start, rng, m).events
  {
    hide RunFlow;
    if n < m {
      ExpansionGrows(scn, start, rng, n, m - 1);
    }
  }

  /** An event of a flow is an event of the expanded timeline. */
  lemma {:induction false} MadeInPlan(scn: Scenario, start: int, rng: Stream, n: nat, f: nat, l: nat, p: Event)
    requires 1 <= f <= n && f <= |Primaries(scn, AfterFlows(scn, start, rng, f - 1).world)|
    requires 1 <= l <= |scn.timeline| && MadeAt(RoundOf(scn, start, rng, f), l, p)
    ensures p in AfterFlows(scn, start, rng, n).events
  {
    hide EventId, RunFlow;
    var at := RoundOf(scn, start, rng, f);
    FlowGrows(scn, f, at.primary, start, rng, at.w, l, |scn.timeline|);
    ExpansionGrows(scn, start, rng, f, n);
    assert p in After(at, l).events;
    assert p in After(at, |scn.timeline|).events;
    assert p in AfterFlows(scn, start, rng, f).events;
  }

  /** Every event of a flow was made by a step that fired. */
  lemma {:induction false} FlowEvents(at: Walk, k: nat, e: Event) returns (l: nat)
    requires k <= |at.scn.timeline| && e in After(at, k).events
    ensures 1 <= l <= k && Fired(at, l) && MadeAt(at, l, e)
  {
    hide RunFlow, EventId, Fired;
    l := k;
    if k == 0 {
      NothingRemembered(at);
    } else if Fired(at, k) {
      var last := StepAppends(at, k);
      if e != last {
        l := FlowEvents(at, k - 1, e);
      }
    } else {
      StepSkips(at, k);
      l := FlowEvents(at, k - 1, e);
    }
  }

  /** The round of the loop whose walk this is takes place within the first `n`. */
  predicate Walked(scn: Scenario, start: int, rng: Stream, f: nat, n: nat) {
    1 <= f <= n && f <= |Primaries(scn, AfterFlows(scn, start, rng, f - 1).world)|
  }

  /** An event of the timeline, traced back to its round and step. */
  lemma {:induction false} Origin(scn: Scenario, start: int, rng: Stream, n: nat, e: Event) returns (f: nat, l: nat)
    requires e in AfterFlows(scn, start, rng, n).events
    ensures Walked(scn, start, rng, f, n) && 1 <= l <= |scn.timeline|
    ensures Fired(RoundOf(scn, start, rng, f), l) && MadeAt(RoundOf(scn, start, rng, f), l, e)
  {
    hide RunFlow, Fired, MadeAt;
    f, l := 0, 0;
    if n > 0 {
      var x := AfterFlows(scn, start, rng, n - 1);
      if n <= |Primaries(scn, x.world)| && e !in x.events {
        f := n;
        l := FlowEvents(RoundOf(scn, start, rng, n), |scn.timeline|, e);
      } else {
        f, l := Origin(scn, start, rng, n - 1, e);
      }
    }
  }

  /**
   Which events there are: that of step `k` in round `f` exactly if the loop has a primary entity
   for the round and the draw made for the step does not exceed its probability. It belongs to the
   flow of that entity.
   */
  lemma {:induction false} TimelineFires(scn: Scenario, start: int, rng: Stream, n: nat, f: nat, k: nat)
    requires 1 <= k <= |scn.timeline|
    ensures (exists e :: e in AfterFlows(scn, start, rng, n).events && e.id == EventId(scn.id, f, k))
      <==> Walked(scn, start, rng, f, n) && Fired(RoundOf(scn, start, rng, f), k)
    ensures forall e :: e in AfterFlows(scn, start, rng, n).events && e.id == EventId(scn.id, f, k) ==>
      Walked(scn, start, rng, f, n) && e.flow == Some(RoundOf(scn, start, rng, f).primary.id)
  {
    hide RunFlow, EventId, AfterFlows, Fired;
    forall e | e in AfterFlows(scn, start, rng, n).events && e.id == EventId(scn.id, f, k)
      ensures Walked(scn, start, rng, f, n) && Fired(RoundOf(scn, start, rng, f), k)
        && e.flow == Some(RoundOf(scn, start, rng, f).primary.id)
    {
      var f', l := Origin(scn, start, rng, n, e);
      EventIdInjective(scn.id, f, k, f', l);
      AppendedTime(RoundOf(scn, start, rng, f), k, e);
    }
    if Walked(scn, start, rng, f, n) && Fired(RoundOf(scn, start, rng, f), k) {
      var e := StepAppends(RoundOf(scn, start, rng, f), k);
      MadeInPlan(scn, start, rng, n, f, k, e);
    }
  }

  /** The delayed event, in the expanded timeline together with its predecessor. */
  lemma {:induction false} Waiting(
      scn: Scenario, start: int, rng: Stream, n: nat, f: nat, k: nat, p: Event) returns (e: Event)
    requires f <= n && FiredAfter(scn, start, rng, f, k, p) && Delayed(scn.timeline[k - 1])
    ensures p in AfterFlows(scn, start, rng, n).events && e in AfterFlows(scn, start, rng, n).events
    ensures e.id == EventId(scn.id, f, k) && e.flow == p.flow && InTime(scn.timeline[k - 1], p.time, e.time)
  {
    hide EventId, RunFlow, AfterFlows, InTime, Clock, Fired, Meant, After;
    var at, name := RoundOf(scn, start, rng, f), scn.timeline[k - 1].after.value;
    var t;
    e, t := StepTimed(at, k);
    if q :| Predecessor(at, k - 1, name, q) && InTime(scn.timeline[k - 1], q.time, t) {
      OnePredecessor(at, k - 1, name, p, q);
    }
    var l: nat :| Denotes(at, k - 1, name, l) && MadeAt(at, l, p);
    AppendedTime(at, k, e);
    AppendedTime(at, l, p);
    MadeInPlan(scn, start, rng, n, f, l, p);
    MadeInPlan(scn, start, rng, n, f, k, e);
  }

  // ---------------------------------------------------------------- in the final plan

  /** In a sorted sequence an earlier time stands at an earlier position. */
  lemma {:induction false} EarlierFirst(s: seq<Event>, a: nat, b: nat)
    requires Sorted(s) && a < |s| && b < |s| && s[a].time < s[b].time
    ensures a < b
  {
    if b < a {
      assert Before(s[a], s[b]);
    }
  }

  /** Strictly ordered events of one flow stay strictly ordered when order is kept. */
  lemma {:induction false} FlowPairKept(
      config: Option<JitterConfig>, all: seq<Event>, rng: Stream, a: Event, b: Event) returns (a': Event, b': Event)
    requires KeepsOrder(config) && a in all && b in all && a.flow == b.flow && a.time < b.time
    ensures a' in Apply(config, all, rng) && b' in Apply(config, all, rng)
    ensures a'.id == a.id && b'.id == b.id && a'.time < b'.time
  {
    if config.None? || !config.value.enabled {
      a', b' := a, b;
    } else {
      hide Sort, Filter, JitterFlow, JitterPreserve;
      var f, m := a.flow, config.value.maxOffset;
      var p := PreserveByFlow(f, all, m, rng);
      var ordered := Ordered(f, all);
      var out := JitterFlow(ordered, m, rng, p, None);
      OrderedMembers(f, all);
      JitterFlowOrder(ordered, m, rng, p, None);
      var i :| 0 <= i < |ordered| && ordered[i] == a;
      var j :| 0 <= j < |ordered| && ordered[j] == b;
      EarlierFirst(ordered, i, j);
      assert StripAll(out)[i] == StripAll(ordered)[i] && StripAll(out)[j] == StripAll(ordered)[j];
      a', b' := out[i], out[j];
      FilterMember(InFlow(f), JitterPreserve(all, m, rng, 0));
      assert a' in out && b' in out;
    }
  }

  /**
   Compiled causality: if step `k` waits for a step that fired earlier in its flow, then in the
   final plan, jittered or not, the event of step `k` comes strictly later, in time and in
   position, than the event it waited for.
   */
  lemma {:induction false} CompiledCausality(
      scn: Scenario, start: int, rngs: Streams, n: nat, f: nat, k: nat, p: Event) returns (i: nat, j: nat)
    requires KeepsOrder(scn.jitter)
    requires f <= n && FiredAfter(scn, start, rngs.timeline, f, k, p) && Waits(scn.timeline[k - 1])
    ensures i < j < |Plan(scn, start, rngs, n)|
    ensures Plan(scn, start, rngs, n)[i].id == p.id && Plan(scn, start, rngs, n)[j].id == EventId(scn.id, f, k)
    ensures Plan(scn, start, rngs, n)[i].time < Plan(scn, start, rngs, n)[j].time
  {
    hide EventId, Sort, Apply, FiredAfter, AfterFlows, Unjittered;
    var e := Waiting(scn, start, rngs.timeline, n, f, k, p);
    var all, plan := Unjittered(scn, start, rngs, n), Plan(scn, start, rngs, n);
    UnjitteredHas(scn, start, rngs, n, p);
    UnjitteredHas(scn, start, rngs, n, e);
    var p', e' := FlowPairKept(scn.jitter, all, rngs.jitter, p, e);
    SortMembers(Apply(scn.jitter, all, rngs.jitter));
    SortSorted(Apply(scn.jitter, all, rngs.jitter));
    i :| 0 <= i < |plan| && plan[i] == p';
    j :| 0 <= j < |plan| && plan[j] == e';
    EarlierFirst(plan, i, j);
  }

  /**
   Delays, in the final plan: if step `k` is timed by a step that fired earlier in its flow, then
   without jitter their events lie between the shortest and the longest delay apart, and
   order-preserving jitter widens this by no more than it moves the two events, which stand at
   positions `u` and `v` of the flow.
   */
  lemma {:induction false} DelayKept(
      scn: Scenario, start: int, rngs: Streams, n: nat, f: nat, k: nat, p: Event) returns (u: nat, v: nat)
    requires KeepsOrder(scn.jitter)
    requires f <= n && FiredAfter(scn, start, rngs.timeline, f, k, p) && Delayed(scn.timeline[k - 1])
    ensures var flow := Filter(InFlow(p.flow), Plan(scn, start, rngs, n));
      u < |flow| && v < |flow| && flow[u].id == p.id && flow[v].id == EventId(scn.id, f, k)
      && var d, gap := scn.timeline[k - 1].delay.value, flow[v].time - flow[u].time;
        if scn.jitter.None? || !scn.jitter.value.enabled then ShortestDelay(d) <= gap <= LongestDelay(d)
        else
          var m := scn.jitter.value.maxOffset;
          ShortestDelay(d) - 2 * m - u <= gap <= LongestDelay(d) + 2 * m + v
  {
    hide EventId, Sort, Apply, FiredAfter, AfterFlows, Unjittered, Filter, StripAll;
    var e := Waiting(scn, start, rngs.timeline, n, f, k, p);
    var all := Unjittered(scn, start, rngs, n);
    var before, after := Filter(InFlow(p.flow), Sort(all)), Filter(InFlow(p.flow), Plan(scn, start, rngs, n));
    UnjitteredHas(scn, start, rngs, n, p);
    UnjitteredHas(scn, start, rngs, n, e);
    SortMembers(all);
    FilterMember(InFlow(p.flow), Sort(all));
    u :| 0 <= u < |before| && before[u] == p;
    v :| 0 <= v < |before| && before[v] == e;
    if scn.jitter.None? || !scn.jitter.value.enabled {
      Unmoved(scn.jitter, all, rngs.jitter);
    } else {
      JitterReach(p.flow, scn, start, rngs, n);
      assert |StripAll(after)| == |StripAll(before)|;
      assert StripAll(after)[u] == StripAll(before)[u] && StripAll(after)[v] == StripAll(before)[v];
      assert Strip(after[u]).id == p.id && Strip(after[v]).id == e.id;
    }
  }

  lemma {:induction false} Unmoved(config: Option<JitterConfig>, all: seq<Event>, rng: Stream)
    requires config.None? || !config.value.enabled
    ensures Apply(config, all, rng) == all
  {
  }

  lemma {:induction false} UnjitteredHas(scn: Scenario, start: int, rngs: Streams, n: nat, e: Event)
    requires e in AfterFlows(scn, start, rngs.timeline, n).events
    ensures e in Unjittered(scn, start, rngs, n)
  {
    hide AfterFlows, Sort;
    ExpandMembers(scn, start, rngs.timeline, n);
  }
}
