/**
 What order-preserving jitter can do to a plan, exactly: any interleaving of its flows and nothing
 else (eventweave/compiler/jitter.py:39-62 with eventweave/compiler/planner.py:331).
 */
module Interleavings {
  import opened Common
  import opened Events
  import opened Rng
  import opened Jitter

  /** The final plan under order-preserving jitter of at most `m`. */
  function Jittered(events: seq<Event>, m: nat, rng: Stream): seq<Event> {
    Sort(Apply(Some(JitterConfig(true, m, true)), events, rng))
  }

  /** `q` holds the events of the plan, times apart, those of each flow in the plan's order. */
  ghost predicate Interleaves(q: seq<Event>, events: seq<Event>) {
    forall f :: StripAll(Filter(InFlow(f), q)) == StripAll(Filter(InFlow(f), Sort(events)))
  }

  // ---------------------------------------------------------------- draws that hit given times

  lemma {:induction false} DrawHits(e: Event, m: nat, t: int)
    requires 0 - m <= t - e.time <= m
    ensures Raw(e, m, DrawBetween(0 - m, m, t - e.time)) == t
  {
    UniformReaches(0 - m, m, t - e.time);
  }

  /** The stream under which jitter turns the times of `from` into those of `to`. */
  function Steer(from: seq<Event>, to: seq<Event>, m: nat): Stream
    requires |from| == |to|
  {
    (i: nat) => DrawBetween(0 - m, m, if i < |from| then to[i].time - from[i].time else 0)
  }

  /** Draw by draw, `from` turns into `to`, and only times differ. */
  predicate Steered(from: seq<Event>, to: seq<Event>, m: nat, rng: Stream) {
    |from| == |to|
    && forall i :: 0 <= i < |from| ==> to[i] == from[i].(time := to[i].time) && Raw(from[i], m, rng(i)) == to[i].time
  }

  lemma {:induction false} SteeredFlow(
      from: seq<Event>, to: seq<Event>, m: nat, rng: Stream, a: nat, b: nat, prev: Option<int>)
    requires a <= b <= |from| && Steered(from, to, m, rng) && StrictlyIncreasing(to[a..b])
    requires prev.Some? && a < b ==> prev.value < to[a].time
    ensures JitterFlow(from[a..b], m, rng, a, prev) == to[a..b]
    decreases b - a
  {
    hide Raw;
    if a < b {
      var t := to[a].time;
      assert from[a..b][0] == from[a] && from[a..b][1..] == from[a + 1..b];
      assert to[a..b] == [to[a]] + to[a + 1..b];
      if a + 1 < b {
        assert to[a..b][0].time < to[a..b][1].time;
      }
      IncreasingTail(to[a..b]);
      assert to[a..b][1..] == to[a + 1..b];
      SteeredFlow(from, to, m, rng, a + 1, b, Some(t));
    }
  }

  lemma {:induction false} IncreasingTail(s: seq<Event>)
    requires StrictlyIncreasing(s) && s != []
    ensures StrictlyIncreasing(s[1..])
  {
    forall i, j | 0 <= i < j < |s[1..]| ensures s[1..][i].time < s[1..][j].time {
      assert s[i + 1].time < s[j + 1].time;
    }
  }

  function Flat(groups: seq<seq<Event>>): seq<Event> {
    if groups == [] then [] else groups[0] + Flat(groups[1..])
  }

  /** Group by group as well. */
  lemma {:induction false} SteeredGroups(
      groups: seq<seq<Event>>, targets: seq<seq<Event>>, from: seq<Event>, to: seq<Event>, m: nat, rng: Stream, a: nat)
    requires Steered(from, to, m, rng) && a <= |from| && |groups| == |targets|
    requires from[a..] == Flat(groups) && to[a..] == Flat(targets)
    requires forall g :: 0 <= g < |groups| ==> |groups[g]| == |targets[g]| && StrictlyIncreasing(targets[g])
    ensures JitterGroups(groups, m, rng, a) == Flat(targets)
    decreases |groups|
  {
    hide JitterFlow, Raw, StrictlyIncreasing;
    if groups != [] {
      var b := a + |groups[0]|;
      assert from[a..b] == groups[0] && to[a..b] == targets[0];
      assert from[b..] == from[a..][|groups[0]|..] == Flat(groups[1..]);
      assert to[b..] == to[a..][|groups[0]|..] == Flat(targets[1..]);
      SteeredFlow(from, to, m, rng, a, b, None);
      SteeredGroups(groups[1..], targets[1..], from, to, m, rng, b);
    }
  }

  // ---------------------------------------------------------------- the flows of an interleaving

  /** The parts of a sequence, flow by flow. */
  function Parts(keys: seq<Option<string>>, s: seq<Event>): (r: seq<seq<Event>>)
    ensures |r| == |keys| && forall i :: 0 <= i < |keys| ==> r[i] == Filter(InFlow(keys[i]), s)
  {
    seq(|keys|, i requires 0 <= i < |keys| => Filter(InFlow(keys[i]), s))
  }

  lemma {:induction false} FlatStrip(a: seq<seq<Event>>, b: seq<seq<Event>>)
    requires |a| == |b| && forall g :: 0 <= g < |a| ==> StripAll(a[g]) == StripAll(b[g])
    ensures StripAll(Flat(a)) == StripAll(Flat(b))
  {
    if a != [] {
      FlatStrip(a[1..], b[1..]);
      StripAppend(a[0], Flat(a[1..]));
      StripAppend(b[0], Flat(b[1..]));
    }
  }

  lemma {:induction false} StripAppend(a: seq<Event>, b: seq<Event>)
    ensures StripAll(a + b) == StripAll(a) + StripAll(b)
  {
  }

  lemma {:induction false} FlatMembers(groups: seq<seq<Event>>)
    ensures forall e :: e in Flat(groups) ==> exists g :: 0 <= g < |groups| && e in groups[g]
  {
    if groups != [] {
      FlatMembers(groups[1..]);
      forall e | e in Flat(groups) ensures exists g :: 0 <= g < |groups| && e in groups[g] {
        if e !in groups[0] {
          assert e in Flat(groups[1..]);
          var g :| 0 <= g < |groups[1..]| && e in groups[1..][g];
          assert e in groups[g + 1];
        }
      }
    }
  }

  /** Parted by all its flows, a sequence keeps every copy of its events. */
  lemma {:induction false} FlatCount(keys: seq<Option<string>>, s: seq<Event>, x: Event)
    requires forall i, j :: 0 <= i < j < |keys| ==> keys[i] != keys[j]
    ensures multiset(Flat(Parts(keys, s)))[x] == if x.flow in keys then multiset(s)[x] else 0
  {
    hide Filter;
    if keys != [] {
      assert Parts(keys, s)[1..] == Parts(keys[1..], s);
      FlatCount(keys[1..], s, x);
      FilterCount(InFlow(keys[0]), s, x);
      assert keys[0] !in keys[1..];
      assert keys == [keys[0]] + keys[1..];
    }
  }

  lemma {:induction false} IncreasingFilter(p: Event -> bool, s: seq<Event>)
    requires StrictlyIncreasing(s)
    ensures StrictlyIncreasing(Filter(p, s))
  {
    if s != [] {
      IncreasingTail(s);
      IncreasingFilter(p, s[1..]);
      FilterMember(p, s[1..]);
      if p(s[0]) {
        var rest := Filter(p, s[1..]);
        forall i | 0 <= i < |rest| ensures s[0].time < rest[i].time {
          assert rest[i] in s[1..];
          var j :| 0 <= j < |s[1..]| && s[1..][j] == rest[i];
          assert s[j + 1] == rest[i];
        }
        IncreasingCons(s[0], rest);
      }
    }
  }

  /** A sorted permutation of a sequence with strictly increasing times is that sequence. */
  lemma {:induction false} IncreasingUnique(a: seq<Event>, b: seq<Event>)
    requires Sorted(a) && StrictlyIncreasing(b) && multiset(a) == multiset(b)
    ensures a == b
  {
    assert |multiset(a)| == |a| && |multiset(b)| == |b|;
    hide Before, Sorted, StrictlyIncreasing;
    if b != [] {
      SameHead(a, b);
      SortedTail(a);
      IncreasingTail(b);
      assert a == [a[0]] + a[1..] && b == [b[0]] + b[1..];
      assert multiset(a[1..]) == multiset(a) - multiset{a[0]};
      assert multiset(b[1..]) == multiset(b) - multiset{b[0]};
      IncreasingUnique(a[1..], b[1..]);
    }
  }

  lemma {:induction false} SameHead(a: seq<Event>, b: seq<Event>)
    requires Sorted(a) && StrictlyIncreasing(b) && multiset(a) == multiset(b) && a != [] && b != []
    ensures a[0] == b[0]
  {
    assert a[0] in multiset(b) && b[0] in multiset(a);
    var i :| 0 <= i < |a| && a[i] == b[0];
    var j :| 0 <= j < |b| && b[j] == a[0];
    assert j > 0 ==> b[0].time < b[j].time;
    assert i > 0 ==> !Before(a[i], a[0]);
  }

  lemma {:induction false} SortedTail(s: seq<Event>)
    requires Sorted(s) && s != []
    ensures Sorted(s[1..])
  {
    hide Before;
    forall i, j | 0 <= i < j < |s[1..]| ensures !Before(s[1..][j], s[1..][i]) {
      assert !Before(s[j + 1], s[i + 1]);
    }
  }

  // ---------------------------------------------------------------- every interleaving, and no other order

  /** The interleaving at times 0, 1, 2 and so on. */
  function Numbered(q: seq<Event>): (s: seq<Event>)
    ensures |s| == |q| && forall i :: 0 <= i < |q| ==> s[i] == q[i].(time := i)
  {
    seq(|q|, i requires 0 <= i < |q| => q[i].(time := i))
  }

  /** Each flow's events are those of the interleaving, so their times can be steered there. */
  lemma {:induction false} SamePart(f: Option<string>, events: seq<Event>, q: seq<Event>)
    requires Interleaves(q, events)
    ensures StripAll(Ordered(f, events)) == StripAll(Filter(InFlow(f), Numbered(q)))
    ensures StrictlyIncreasing(Filter(InFlow(f), Numbered(q)))
  {
    hide Filter, Sort;
    SortFilter(InFlow(f), events);
    assert StripAll(Numbered(q)) == StripAll(q);
    StripFilter(f, q);
    StripFilter(f, Numbered(q));
    IncreasingFilter(InFlow(f), Numbered(q));
  }

  lemma {:induction false} SteerBounds(events: seq<Event>) returns (bound: nat)
    ensures forall e :: e in events ==> 0 - bound <= e.time <= bound
  {
    bound := 0;
    if events != [] {
      var rest := SteerBounds(events[1..]);
      bound := Max(rest, Max(events[0].time, 0 - events[0].time));
      assert events == [events[0]] + events[1..];
    }
  }

  /** Every event of the flows turns into its counterpart in the interleaving. */
  lemma {:induction false} SteeredParts(events: seq<Event>, q: seq<Event>) returns (m: nat, rng: Stream)
    requires Interleaves(q, events)
    ensures var keys := FlowKeys(events);
      Steered(Flat(Groups(keys, events)), Flat(Parts(keys, Numbered(q))), m, rng)
  {
    hide Filter, Ordered, Raw, DrawBetween, Interleaves, Flat;
    var keys, s := FlowKeys(events), Numbered(q);
    var from, to := Flat(Groups(keys, events)), Flat(Parts(keys, s));
    forall g | 0 <= g < |keys| ensures StripAll(Groups(keys, events)[g]) == StripAll(Parts(keys, s)[g]) {
      SamePart(keys[g], events, q);
    }
    FlatStrip(Groups(keys, events), Parts(keys, s));
    assert |StripAll(from)| == |StripAll(to)|;
    var bound := SteerBounds(events);
    m := bound + |q| + 1;
    rng := Steer(from, to, m);
    forall i | 0 <= i < |from|
      ensures to[i] == from[i].(time := to[i].time) && Raw(from[i], m, rng(i)) == to[i].time
    {
      assert StripAll(from)[i] == StripAll(to)[i];
      FromMember(keys, events, from[i]);
      ToMember(keys, q, to[i]);
      DrawHits(from[i], m, to[i].time);
    }
  }

  lemma {:induction false} FromMember(keys: seq<Option<string>>, events: seq<Event>, e: Event)
    requires e in Flat(Groups(keys, events))
    ensures e in events
  {
    hide Ordered, Flat;
    FlatMembers(Groups(keys, events));
    var g :| 0 <= g < |keys| && e in Groups(keys, events)[g];
    OrderedMembers(keys[g], events);
  }

  lemma {:induction false} ToMember(keys: seq<Option<string>>, q: seq<Event>, e: Event)
    requires e in Flat(Parts(keys, Numbered(q)))
    ensures 0 <= e.time < |q|
  {
    hide Filter, Flat;
    FlatMembers(Parts(keys, Numbered(q)));
    var g :| 0 <= g < |keys| && e in Parts(keys, Numbered(q))[g];
    FilterMember(InFlow(keys[g]), Numbered(q));
    var i :| 0 <= i < |q| && Numbered(q)[i] == e;
  }

  lemma {:induction false} SamePermutation(events: seq<Event>, q: seq<Event>)
    requires Interleaves(q, events)
    ensures multiset(Flat(Parts(FlowKeys(events), Numbered(q)))) == multiset(Numbered(q))
  {
    hide Filter, Flat, Sort;
    var keys, s := FlowKeys(events), Numbered(q);
    FlowKeysComplete(events);
    hide FlowKeys, Interleaves;
    forall x ensures multiset(Flat(Parts(keys, s)))[x] == multiset(s)[x] {
      FlatCount(keys, s, x);
      if x in s {
        KnownFlow(events, q, x);
      }
    }
  }

  lemma {:induction false} KnownFlow(events: seq<Event>, q: seq<Event>, x: Event)
    requires Interleaves(q, events) && x in Numbered(q)
    ensures x.flow in FlowKeys(events)
  {
    hide Filter, Sort, Numbered, Interleaves;
    SamePart(x.flow, events, q);
    FilterMember(InFlow(x.flow), Numbered(q));
    OrderedMembers(x.flow, events);
    assert |StripAll(Ordered(x.flow, events))| == |StripAll(Filter(InFlow(x.flow), Numbered(q)))| > 0;
    var e := Ordered(x.flow, events)[0];
    assert e in events;
    FlowKeysComplete(events);
  }

  /** For every interleaving of the flows there are an offset limit and draws that produce it. */
  lemma {:induction false} EveryInterleaving(events: seq<Event>, q: seq<Event>) returns (m: nat, rng: Stream)
    requires Interleaves(q, events)
    ensures StripAll(Jittered(events, m, rng)) == StripAll(q)
  {
    hide Filter, Sort, Flat, Interleaves, Steered, JitterGroups;
    var keys, s := FlowKeys(events), Numbered(q);
    m, rng := SteeredParts(events, q);
    forall g | 0 <= g < |keys|
      ensures |Groups(keys, events)[g]| == |Parts(keys, s)[g]| && StrictlyIncreasing(Parts(keys, s)[g])
    {
      SamePart(keys[g], events, q);
      assert |StripAll(Ordered(keys[g], events))| == |StripAll(Filter(InFlow(keys[g]), s))|;
    }
    var from, to := Flat(Groups(keys, events)), Flat(Parts(keys, s));
    assert from[0..] == from && to[0..] == to;
    SteeredGroups(Groups(keys, events), Parts(keys, s), from, to, m, rng, 0);
    SamePermutation(events, q);
    SortSorted(to);
    IncreasingUnique(Sort(to), s);
    assert Jittered(events, m, rng) == s;
    assert StripAll(s) == StripAll(q);
  }

  /** Exactly the interleavings of the flows are the orders in which a jittered plan can come out. */
  lemma {:induction false} JitterReachesIff(events: seq<Event>, q: seq<Event>)
    ensures (exists m, rng :: StripAll(Jittered(events, m, rng)) == StripAll(q)) <==> Interleaves(q, events)
  {
    hide Filter, Sort, Apply;
    if m, rng :| StripAll(Jittered(events, m, rng)) == StripAll(q) {
      var j := Jittered(events, m, rng);
      forall f ensures StripAll(Filter(InFlow(f), q)) == StripAll(Filter(InFlow(f), Sort(events))) {
        FlowOrderPreserved(f, Some(JitterConfig(true, m, true)), events, rng);
        StripFilter(f, j);
        StripFilter(f, q);
      }
    }
    if Interleaves(q, events) {
      var m, rng := EveryInterleaving(events, q);
    }
  }

  /** A plan put together anew from two parts that split it by flow is an interleaving. */
  lemma {:induction false} FrontInterleaves(events: seq<Event>, front: Option<string> -> bool)
    ensures Interleaves(Front(events, front), events)
  {
    hide Sort, StripAll;
    var s := Sort(events);
    var p, q := (e: Event) => front(e.flow), (e: Event) => !front(e.flow);
    forall f ensures Filter(InFlow(f), Front(events, front)) == Filter(InFlow(f), s) {
      FilterAppend(InFlow(f), Filter(p, s), Filter(q, s));
      FilterMember(p, s);
      FilterMember(q, s);
      if front(f) {
        FilterRefine(InFlow(f), p, s);
        FilterNone(InFlow(f), Filter(q, s));
      } else {
        FilterRefine(InFlow(f), q, s);
        FilterNone(InFlow(f), Filter(p, s));
      }
      assert Filter(InFlow(f), s) + [] == Filter(InFlow(f), s) == [] + Filter(InFlow(f), s);
    }
  }

  /** The sorted plan with some flows moved to the front. */
  function Front(events: seq<Event>, front: Option<string> -> bool): seq<Event> {
    Filter((e: Event) => front(e.flow), Sort(events)) + Filter((e: Event) => !front(e.flow), Sort(events))
  }
}
