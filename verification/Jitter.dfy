/**
 Timestamp jitter (eventweave/compiler/jitter.py).
 This module specifies `JitterApplier.apply` on values and proves its properties; the class
 in module JitterApplier re-times event objects in place and is proved against it.
 */
module Jitter {
  import opened Common
  import opened Events
  import opened Rng

  datatype JitterConfig = JitterConfig(enabled: bool, maxOffset: nat, preserveOrder: bool)

  /** The jittered time before clamping. */
  function Raw(e: Event, m: nat, d: Draw): int { e.time + Uniform(0 - m, m, d) }

  /** At least one microsecond after the previous event of the flow. */
  function Clamp(t: int, prev: Option<int>): int {
    if prev.Some? && t < prev.value + 1 then prev.value + 1 else t
  }

  /** Re-times one flow, given in canonical order. */
  function JitterFlow(ordered: seq<Event>, m: nat, rng: Stream, pos: nat, prev: Option<int>): (r: seq<Event>)
    ensures |r| == |ordered|
  {
    if ordered == [] then []
    else
      var t := Clamp(Raw(ordered[0], m, rng(pos)), prev);
      [ordered[0].(time := t)] + JitterFlow(ordered[1..], m, rng, pos + 1, Some(t))
  }

  /** The flow keys in order of first appearance: the iteration order of the `by_flow` dict. */
  function FlowKeys(events: seq<Event>): seq<Option<string>> {
    if events == [] then []
    else
      var keys := FlowKeys(events[..|events| - 1]);
      var f := events[|events| - 1].flow;
      if f in keys then keys else keys + [f]
  }

  /** The events of one flow in canonical order. */
  function Ordered(f: Option<string>, events: seq<Event>): seq<Event> {
    Sort(Filter(InFlow(f), events))
  }

  /** The groups the outer loop walks, each already in canonical order. */
  function Groups(keys: seq<Option<string>>, events: seq<Event>): (r: seq<seq<Event>>)
    ensures |r| == |keys|
    ensures forall i :: 0 <= i < |keys| ==> r[i] == Ordered(keys[i], events)
  {
    seq(|keys|, i requires 0 <= i < |keys| => Ordered(keys[i], events))
  }

  /** Re-times group after group; the draws run on from one group to the next. */
  function JitterGroups(groups: seq<seq<Event>>, m: nat, rng: Stream, pos: nat): seq<Event> {
    if groups == [] then []
    else JitterFlow(groups[0], m, rng, pos, None) + JitterGroups(groups[1..], m, rng, pos + |groups[0]|)
  }

  /** `_apply_preserve_order` */
  function JitterPreserve(events: seq<Event>, m: nat, rng: Stream, pos: nat): seq<Event> {
    JitterGroups(Groups(FlowKeys(events), events), m, rng, pos)
  }

  function JitterEach(events: seq<Event>, m: nat, rng: Stream, pos: nat): (r: seq<Event>)
    ensures |r| == |events|
  {
    if events == [] then []
    else [events[0].(time := Raw(events[0], m, rng(pos)))] + JitterEach(events[1..], m, rng, pos + 1)
  }

  /** `JitterApplier.apply` when the generator has already made `pos` draws. */
  function ApplyAt(config: Option<JitterConfig>, events: seq<Event>, rng: Stream, pos: nat): seq<Event> {
    if config.None? || !config.value.enabled then events
    else if config.value.preserveOrder then
      JitterPreserve(events, config.value.maxOffset, rng, pos)
    else JitterEach(events, config.value.maxOffset, rng, pos)
  }

  /** `JitterApplier.apply` on a fresh generator. */
  function Apply(config: Option<JitterConfig>, events: seq<Event>, rng: Stream): seq<Event> {
    ApplyAt(config, events, rng, 0)
  }

  /** Jitter that keeps the order inside every flow: off, or order-preserving. */
  predicate KeepsOrder(config: Option<JitterConfig>) {
    config.None? || !config.value.enabled || config.value.preserveOrder
  }

  // ---------------------------------------------------------------- one flow

  lemma {:induction false} JitterFlowStrip(ordered: seq<Event>, m: nat, rng: Stream, pos: nat, prev: Option<int>)
    ensures StripAll(JitterFlow(ordered, m, rng, pos, prev)) == StripAll(ordered)
  {
    hide Raw, Clamp;
    if ordered != [] {
      var t := Clamp(Raw(ordered[0], m, rng(pos)), prev);
      JitterFlowStrip(ordered[1..], m, rng, pos + 1, Some(t));
      StripCons(ordered[0], ordered[1..]);
      StripCons(ordered[0].(time := t), JitterFlow(ordered[1..], m, rng, pos + 1, Some(t)));
      assert ordered == [ordered[0]] + ordered[1..];
    }
  }

  lemma {:induction false} StripCons(e: Event, s: seq<Event>)
    ensures StripAll([e] + s) == [Strip(e)] + StripAll(s)
  {
  }

  lemma {:induction false} JitterFlowAfter(ordered: seq<Event>, m: nat, rng: Stream, pos: nat, prev: int)
    ensures var r := JitterFlow(ordered, m, rng, pos, Some(prev)); forall i :: 0 <= i < |r| ==> r[i].time > prev
  {
    hide Raw;
    if ordered != [] {
      var t := Clamp(Raw(ordered[0], m, rng(pos)), Some(prev));
      JitterFlowAfter(ordered[1..], m, rng, pos + 1, t);
      assert JitterFlow(ordered, m, rng, pos, Some(prev))
        == [ordered[0].(time := t)] + JitterFlow(ordered[1..], m, rng, pos + 1, Some(t));
    }
  }

  /** A flow keeps everything but its times, which strictly increase. */
  lemma {:induction false} JitterFlowOrder(ordered: seq<Event>, m: nat, rng: Stream, pos: nat, prev: Option<int>)
    ensures StripAll(JitterFlow(ordered, m, rng, pos, prev)) == StripAll(ordered)
    ensures StrictlyIncreasing(JitterFlow(ordered, m, rng, pos, prev))
  {
    hide Raw, Clamp, StripAll;
    JitterFlowStrip(ordered, m, rng, pos, prev);
    if ordered != [] {
      var t := Clamp(Raw(ordered[0], m, rng(pos)), prev);
      JitterFlowOrder(ordered[1..], m, rng, pos + 1, Some(t));
      JitterFlowAfter(ordered[1..], m, rng, pos + 1, t);
      IncreasingCons(ordered[0].(time := t), JitterFlow(ordered[1..], m, rng, pos + 1, Some(t)));
    }
  }

  lemma {:induction false} IncreasingCons(e: Event, s: seq<Event>)
    requires StrictlyIncreasing(s) && forall i :: 0 <= i < |s| ==> e.time < s[i].time
    ensures StrictlyIncreasing([e] + s)
  {
  }

  /** Each event is re-timed from its own draw and the event before it. */
  lemma {:induction false} JitterFlowStep(ordered: seq<Event>, m: nat, rng: Stream, pos: nat, prev: Option<int>, k: nat)
    requires k < |ordered|
    ensures var r := JitterFlow(ordered, m, rng, pos, prev);
      r[k] == ordered[k].(time := Clamp(Raw(ordered[k], m, rng(pos + k)), if k == 0 then prev else Some(r[k - 1].time)))
  {
    if k > 0 {
      var t := Clamp(Raw(ordered[0], m, rng(pos)), prev);
      JitterFlowStep(ordered[1..], m, rng, pos + 1, Some(t), k - 1);
      assert JitterFlow(ordered, m, rng, pos, prev)[0].time == t;
    }
  }

  lemma {:induction false} JitterEachStep(events: seq<Event>, m: nat, rng: Stream, pos: nat, k: nat)
    requires k < |events|
    ensures JitterEach(events, m, rng, pos)[k] == events[k].(time := Raw(events[k], m, rng(pos + k)))
  {
    if k > 0 {
      JitterEachStep(events[1..], m, rng, pos + 1, k - 1);
    }
  }

  /** The k-th event of a flow moves by at least -m and at most m + k microseconds. */
  lemma {:induction false} JitterFlowBound(
      ordered: seq<Event>, m: nat, rng: Stream, pos: nat, prev: Option<int>, slack: nat, k: nat)
    requires k < |ordered| && Sorted(ordered)
    requires prev.Some? ==> prev.value + 1 <= ordered[0].time + m + slack
    ensures 0 - m <= JitterFlow(ordered, m, rng, pos, prev)[k].time - ordered[k].time <= m + k + slack
  {
    if k > 0 {
      var t := Clamp(Raw(ordered[0], m, rng(pos)), prev);
      assert !Before(ordered[1], ordered[0]);
      assert Sorted(ordered[1..]);
      JitterFlowBound(ordered[1..], m, rng, pos + 1, Some(t), slack + 1, k - 1);
    }
  }

  /** A schedule for a flow: times that strictly increase and never precede the raw jittered time. */
  predicate Schedule(ts: seq<int>, ordered: seq<Event>, m: nat, rng: Stream, pos: nat) {
    |ts| == |ordered|
    && (forall i :: 0 <= i < |ts| ==> Raw(ordered[i], m, rng(pos + i)) <= ts[i])
    && (forall i, j :: 0 <= i < j < |ts| ==> ts[i] < ts[j])
  }

  /** The clamp delays no more than it must: the result is the least schedule, point by point. */
  lemma {:induction false} JitterFlowLeast(
      ts: seq<int>, ordered: seq<Event>, m: nat, rng: Stream, pos: nat, prev: Option<int>)
    requires Schedule(ts, ordered, m, rng, pos)
    requires prev.Some? && ts != [] ==> prev.value < ts[0]
    ensures forall k :: 0 <= k < |ts| ==> JitterFlow(ordered, m, rng, pos, prev)[k].time <= ts[k]
  {
    if ts != [] {
      var t := Clamp(Raw(ordered[0], m, rng(pos)), prev);
      assert Raw(ordered[0], m, rng(pos + 0)) <= ts[0];
      assert t <= ts[0];
      assert Schedule(ts[1..], ordered[1..], m, rng, pos + 1) by {
        forall i | 0 <= i < |ts[1..]| ensures Raw(ordered[1..][i], m, rng(pos + 1 + i)) <= ts[1..][i] {
          assert Raw(ordered[i + 1], m, rng(pos + (i + 1))) <= ts[i + 1];
        }
      }
      JitterFlowLeast(ts[1..], ordered[1..], m, rng, pos + 1, Some(t));
    }
  }

  // ---------------------------------------------------------------- all flows

  lemma {:induction false} FlowKeysComplete(events: seq<Event>)
    ensures forall f :: f in FlowKeys(events) <==> exists i :: 0 <= i < |events| && events[i].flow == f
    ensures forall i, j :: 0 <= i < j < |FlowKeys(events)| ==> FlowKeys(events)[i] != FlowKeys(events)[j]
  {
    if events != [] {
      var n := |events| - 1;
      FlowKeysComplete(events[..n]);
      forall f ensures f in FlowKeys(events) <==> exists i :: 0 <= i < |events| && events[i].flow == f {
        if f in FlowKeys(events) {
          if f in FlowKeys(events[..n]) {
            var i :| 0 <= i < n && events[..n][i].flow == f;
            assert events[i].flow == f;
          } else {
            assert events[n].flow == f;
          }
        }
        if i :| 0 <= i < |events| && events[i].flow == f {
          if i < n {
            assert events[..n][i].flow == f;
          }
        }
      }
    }
  }

  /** Flows come in the order of their first events. */
  lemma {:induction false} KeysInOrder(events: seq<Event>, i: nat, j: nat) returns (p: nat)
    requires i < j < |FlowKeys(events)|
    ensures p < |events| && events[p].flow == FlowKeys(events)[i]
    ensures forall q :: 0 <= q <= p ==> events[q].flow != FlowKeys(events)[j]
  {
    var n := |events| - 1;
    var keys := FlowKeys(events[..n]);
    FlowKeysComplete(events[..n]);
    if j < |keys| {
      p := KeysInOrder(events[..n], i, j);
      assert forall q :: 0 <= q <= p ==> events[..n][q] == events[q];
    } else {
      assert keys[i] in keys && events[n].flow !in keys;
      p :| 0 <= p < n && events[..n][p].flow == keys[i];
      assert forall q :: 0 <= q < n ==> events[..n][q] == events[q];
    }
  }

  lemma {:induction false} OrderedMembers(f: Option<string>, events: seq<Event>)
    ensures forall e :: e in Ordered(f, events) <==> e in events && e.flow == f
    ensures Sorted(Ordered(f, events))
  {
    FilterMember(InFlow(f), events);
    SortMembers(Filter(InFlow(f), events));
    SortSorted(Filter(InFlow(f), events));
  }

  /** Re-timing a flow leaves every event in its flow. */
  lemma {:induction false} JitterFlowStays(
      f: Option<string>, ordered: seq<Event>, m: nat, rng: Stream, pos: nat, prev: Option<int>)
    requires forall e :: e in ordered ==> e.flow == f
    ensures forall e :: e in JitterFlow(ordered, m, rng, pos, prev) ==> e.flow == f
  {
    JitterFlowOrder(ordered, m, rng, pos, prev);
    var r := JitterFlow(ordered, m, rng, pos, prev);
    forall e | e in r ensures e.flow == f {
      var i :| 0 <= i < |r| && r[i] == e;
      assert StripAll(r)[i] == Strip(r[i]) && StripAll(ordered)[i] == Strip(ordered[i]);
      assert ordered[i] in ordered;
    }
  }

  /** Group number `i` holds the events of flow `keys[i]`. */
  predicate GroupedBy(keys: seq<Option<string>>, groups: seq<seq<Event>>) {
    |keys| == |groups| && forall i, e :: 0 <= i < |keys| && e in groups[i] ==> e.flow == keys[i]
  }

  lemma {:induction false} GroupsGrouped(keys: seq<Option<string>>, events: seq<Event>)
    ensures GroupedBy(keys, Groups(keys, events))
  {
    forall i | 0 <= i < |keys| ensures forall e :: e in Groups(keys, events)[i] ==> e.flow == keys[i] {
      OrderedMembers(keys[i], events);
    }
  }

  /** What the jitter does to one flow does not depend on the others, except for where its draws start. */
  lemma {:induction false} GroupsByFlow(
      f: Option<string>, keys: seq<Option<string>>, groups: seq<seq<Event>>, m: nat, rng: Stream, pos: nat)
    returns (p: nat)
    requires GroupedBy(keys, groups)
    requires forall i, j :: 0 <= i < j < |keys| ==> keys[i] != keys[j]
    ensures f !in keys ==> Filter(InFlow(f), JitterGroups(groups, m, rng, pos)) == []
    ensures forall i :: 0 <= i < |keys| && keys[i] == f ==>
      Filter(InFlow(f), JitterGroups(groups, m, rng, pos)) == JitterFlow(groups[i], m, rng, p, None)
  {
    hide JitterFlow;
    p := pos;
    if keys != [] {
      var head := JitterFlow(groups[0], m, rng, pos, None);
      var tail := JitterGroups(groups[1..], m, rng, pos + |groups[0]|);
      JitterFlowStays(keys[0], groups[0], m, rng, pos, None);
      FilterAppend(InFlow(f), head, tail);
      var q := GroupsByFlow(f, keys[1..], groups[1..], m, rng, pos + |groups[0]|);
      assert forall i :: 0 < i < |keys| ==> keys[i] == keys[1..][i - 1] && groups[i] == groups[1..][i - 1];
      if f == keys[0] {
        FilterAll(InFlow(f), head);
      } else {
        FilterNone(InFlow(f), head);
        p := q;
      }
    }
  }

  /** Order-preserving jitter, flow by flow. */
  lemma {:induction false} PreserveByFlow(f: Option<string>, events: seq<Event>, m: nat, rng: Stream) returns (p: nat)
    ensures Filter(InFlow(f), JitterPreserve(events, m, rng, 0)) == JitterFlow(Ordered(f, events), m, rng, p, None)
  {
    var keys := FlowKeys(events);
    FlowKeysComplete(events);
    GroupsGrouped(keys, events);
    p := GroupsByFlow(f, keys, Groups(keys, events), m, rng, 0);
    if f in keys {
      var i :| 0 <= i < |keys| && keys[i] == f;
    } else {
      FilterNone(InFlow(f), events);
    }
  }

  /**
   Order inside a flow survives: after sorting, each flow of the jittered plan lists the same
   events, in the same order, as the sorted plan before jitter.
   */
  lemma {:induction false} FlowOrderPreserved(
      f: Option<string>, config: Option<JitterConfig>, events: seq<Event>, rng: Stream)
    requires KeepsOrder(config)
    ensures StripAll(Filter(InFlow(f), Sort(Apply(config, events, rng)))) == StripAll(Filter(InFlow(f), Sort(events)))
  {
    if config.Some? && config.value.enabled {
      var m := config.value.maxOffset;
      var out := Apply(config, events, rng);
      var p := PreserveByFlow(f, events, m, rng);
      SortFilter(InFlow(f), out);
      SortFilter(InFlow(f), events);
      JitterFlowOrder(Ordered(f, events), m, rng, p, None);
      SortIncreasing(JitterFlow(Ordered(f, events), m, rng, p, None));
    }
  }

  lemma {:induction false} JitterEachStrip(events: seq<Event>, m: nat, rng: Stream, pos: nat)
    ensures StripAll(JitterEach(events, m, rng, pos)) == StripAll(events)
    ensures forall i :: 0 <= i < |events| ==> 0 - m <= JitterEach(events, m, rng, pos)[i].time - events[i].time <= m
  {
    if events != [] {
      JitterEachStrip(events[1..], m, rng, pos + 1);
      assert StripAll(events) == [Strip(events[0])] + StripAll(events[1..]);
      var rest := JitterEach(events[1..], m, rng, pos + 1);
      assert StripAll(JitterEach(events, m, rng, pos)) == [Strip(events[0])] + StripAll(rest);
    }
  }

  /** Without order, each event is moved on its own: any offsets within the limit can come out together. */
  lemma {:induction false} EachReaches(events: seq<Event>, m: nat, ts: seq<int>) returns (rng: Stream)
    requires |ts| == |events| && forall i :: 0 <= i < |events| ==> 0 - m <= ts[i] - events[i].time <= m
    ensures forall i :: 0 <= i < |events| ==> JitterEach(events, m, rng, 0)[i] == events[i].(time := ts[i])
  {
    hide JitterEach, Uniform, DrawBetween;
    rng := (p: nat) => DrawBetween(0 - m, m, if p < |ts| && p < |events| then ts[p] - events[p].time else 0);
    forall i | 0 <= i < |events| ensures JitterEach(events, m, rng, 0)[i] == events[i].(time := ts[i]) {
      JitterEachStep(events, m, rng, 0, i);
      UniformReaches(0 - m, m, ts[i] - events[i].time);
    }
  }

  lemma {:induction false} StripFilter(f: Option<string>, s: seq<Event>)
    ensures Filter(InFlow(f), StripAll(s)) == StripAll(Filter(InFlow(f), s))
  {
    FilterMap(InFlow(f), Strip, s);
  }

  /** Jitter is a permutation: nothing but the times changes. */
  lemma {:induction false} JitterPermutes(config: Option<JitterConfig>, events: seq<Event>, rng: Stream)
    ensures multiset(StripAll(Apply(config, events, rng))) == multiset(StripAll(events))
  {
    if config.Some? && config.value.enabled {
      var m := config.value.maxOffset;
      if config.value.preserveOrder {
        var out := Apply(config, events, rng);
        forall x ensures multiset(StripAll(out))[x] == multiset(StripAll(events))[x] {
          var f := x.flow;
          var p := PreserveByFlow(f, events, m, rng);
          JitterFlowOrder(Ordered(f, events), m, rng, p, None);
          FilterCount(InFlow(f), StripAll(out), x);
          FilterCount(InFlow(f), StripAll(events), x);
          StripFilter(f, out);
          StripFilter(f, events);
          SortSorted(Filter(InFlow(f), events));
          StripMultiset(Filter(InFlow(f), events), Ordered(f, events));
        }
      } else {
        JitterEachStrip(events, m, rng, 0);
      }
    }
  }

  /** Permuted sequences stay permuted when their times are dropped. */
  lemma {:induction false} StripMultiset(a: seq<Event>, b: seq<Event>)
    requires multiset(a) == multiset(b)
    ensures multiset(StripAll(a)) == multiset(StripAll(b))
  {
    MapPermuted(Strip, a, b);
  }

  // ---------------------------------------------------------------- shift of the clock

  lemma {:induction false} ShiftCons(c: int, e: Event, s: seq<Event>)
    ensures ShiftAll(c, [e] + s) == [e.(time := e.time + c)] + ShiftAll(c, s)
    ensures ShiftAll(c, [e] + s)[0] == e.(time := e.time + c) && ShiftAll(c, [e] + s)[1..] == ShiftAll(c, s)
  {
  }

  lemma {:induction false} JitterFlowCons(e: Event, s: seq<Event>, m: nat, rng: Stream, pos: nat, prev: Option<int>)
    ensures var t := Clamp(Raw(e, m, rng(pos)), prev);
      JitterFlow([e] + s, m, rng, pos, prev) == [e.(time := t)] + JitterFlow(s, m, rng, pos + 1, Some(t))
  {
    hide Raw, Clamp;
    assert ([e] + s)[1..] == s;
  }

  lemma {:induction false} ClampShift(c: int, e: Event, m: nat, d: Draw, prev: Option<int>)
    ensures Clamp(Raw(e.(time := e.time + c), m, d), Later(c, prev)) == Clamp(Raw(e, m, d), prev) + c
  {
    hide Uniform;
  }

  function Later(c: int, prev: Option<int>): Option<int> {
    if prev.Some? then Some(prev.value + c) else None
  }

  lemma {:induction false} JitterFlowShift(
      c: int, ordered: seq<Event>, m: nat, rng: Stream, pos: nat, prev: Option<int>)
    ensures JitterFlow(ShiftAll(c, ordered), m, rng, pos, Later(c, prev))
      == ShiftAll(c, JitterFlow(ordered, m, rng, pos, prev))
    decreases |ordered|
  {
    hide ShiftAll, JitterFlow, Raw, Clamp;
    if ordered == [] {
      NothingToShift(c, m, rng, pos, prev);
      NothingToShift(c, m, rng, pos, Later(c, prev));
    } else {
      var e, rest := ordered[0], ordered[1..];
      var t := Clamp(Raw(e, m, rng(pos)), prev);
      assert ordered == [e] + rest;
      ClampShift(c, e, m, rng(pos), prev);
      ShiftCons(c, e, rest);
      ShiftCons(c, e.(time := t), JitterFlow(rest, m, rng, pos + 1, Some(t)));
      JitterFlowCons(e, rest, m, rng, pos, prev);
      JitterFlowCons(e.(time := e.time + c), ShiftAll(c, rest), m, rng, pos, Later(c, prev));
      JitterFlowShift(c, rest, m, rng, pos + 1, Some(t));
    }
  }

  lemma {:induction false} NothingToShift(c: int, m: nat, rng: Stream, pos: nat, prev: Option<int>)
    ensures ShiftAll(c, []) == [] && JitterFlow([], m, rng, pos, prev) == []
  {
  }

  lemma {:induction false} FlowKeysShift(c: int, events: seq<Event>)
    ensures FlowKeys(ShiftAll(c, events)) == FlowKeys(events)
  {
    if events != [] {
      var n := |events| - 1;
      assert ShiftAll(c, events)[..n] == ShiftAll(c, events[..n]);
      FlowKeysShift(c, events[..n]);
    }
  }

  lemma {:induction false} OrderedShift(c: int, f: Option<string>, events: seq<Event>)
    ensures Ordered(f, ShiftAll(c, events)) == ShiftAll(c, Ordered(f, events))
  {
    FilterMap(InFlow(f), Shift(c), events);
    SortShift(c, Filter(InFlow(f), events));
  }

  lemma {:induction false} ShiftAppend(c: int, a: seq<Event>, b: seq<Event>)
    ensures ShiftAll(c, a + b) == ShiftAll(c, a) + ShiftAll(c, b)
  {
  }

  function ShiftGroups(c: int, groups: seq<seq<Event>>): (r: seq<seq<Event>>)
    ensures |r| == |groups|
    ensures forall i :: 0 <= i < |groups| ==> r[i] == ShiftAll(c, groups[i])
  {
    seq(|groups|, i requires 0 <= i < |groups| => ShiftAll(c, groups[i]))
  }

  lemma {:induction false} JitterGroupsShift(c: int, groups: seq<seq<Event>>, m: nat, rng: Stream, pos: nat)
    ensures JitterGroups(ShiftGroups(c, groups), m, rng, pos) == ShiftAll(c, JitterGroups(groups, m, rng, pos))
  {
    hide JitterFlow;
    if groups != [] {
      assert ShiftGroups(c, groups)[1..] == ShiftGroups(c, groups[1..]);
      JitterFlowShift(c, groups[0], m, rng, pos, None);
      JitterGroupsShift(c, groups[1..], m, rng, pos + |groups[0]|);
      ShiftAppend(c, JitterFlow(groups[0], m, rng, pos, None), JitterGroups(groups[1..], m, rng, pos + |groups[0]|));
    } else {
      assert ShiftAll(c, []) == [];
    }
  }

  lemma {:induction false} JitterPreserveShift(c: int, events: seq<Event>, m: nat, rng: Stream, pos: nat)
    ensures JitterPreserve(ShiftAll(c, events), m, rng, pos) == ShiftAll(c, JitterPreserve(events, m, rng, pos))
  {
    var keys := FlowKeys(events);
    FlowKeysShift(c, events);
    forall i | 0 <= i < |keys| ensures Groups(keys, ShiftAll(c, events))[i] == ShiftGroups(c, Groups(keys, events))[i] {
      OrderedShift(c, keys[i], events);
    }
    assert Groups(keys, ShiftAll(c, events)) == ShiftGroups(c, Groups(keys, events));
    JitterGroupsShift(c, Groups(keys, events), m, rng, pos);
  }

  lemma {:induction false} JitterEachShift(c: int, events: seq<Event>, m: nat, rng: Stream, pos: nat)
    ensures JitterEach(ShiftAll(c, events), m, rng, pos) == ShiftAll(c, JitterEach(events, m, rng, pos))
  {
    if events != [] {
      assert ShiftAll(c, events)[1..] == ShiftAll(c, events[1..]);
      JitterEachShift(c, events[1..], m, rng, pos + 1);
    }
  }

  /** Jitter commutes with a shift of the clock, in every mode. */
  lemma {:induction false} ApplyShift(c: int, config: Option<JitterConfig>, events: seq<Event>, rng: Stream)
    ensures Apply(config, ShiftAll(c, events), rng) == ShiftAll(c, Apply(config, events, rng))
  {
    if config.Some? && config.value.enabled {
      JitterPreserveShift(c, events, config.value.maxOffset, rng, 0);
      JitterEachShift(c, events, config.value.maxOffset, rng, 0);
    }
  }

  // ---------------------------------------------------------------- events without a flow

  lemma {:induction false} FlowKeysNoise(events: seq<Event>, noise: seq<Event>)
    requires forall e :: e in events ==> e.flow.Some?
    requires forall e :: e in noise ==> e.flow.None?
    ensures FlowKeys(events + noise) == FlowKeys(events) + if noise == [] then [] else [None]
  {
    FlowKeysComplete(events);
    if noise == [] {
      assert events + noise == events;
    } else {
      var n := |noise| - 1;
      assert (events + noise)[..|events + noise| - 1] == events + noise[..n];
      FlowKeysNoise(events, noise[..n]);
    }
  }

  lemma {:induction false} OrderedIgnoresNoise(f: Option<string>, events: seq<Event>, noise: seq<Event>)
    requires f.Some?
    requires forall e :: e in noise ==> e.flow.None?
    ensures Ordered(f, events + noise) == Ordered(f, events)
  {
    FilterAppend(InFlow(f), events, noise);
    FilterNone(InFlow(f), noise);
    assert Filter(InFlow(f), events + noise) == Filter(InFlow(f), events);
  }

  lemma {:induction false} GroupsAppend(a: seq<seq<Event>>, b: seq<seq<Event>>, m: nat, rng: Stream, pos: nat)
    returns (p: nat)
    ensures JitterGroups(a + b, m, rng, pos) == JitterGroups(a, m, rng, pos) + JitterGroups(b, m, rng, p)
  {
    p := pos;
    if a == [] {
      assert a + b == b;
    } else {
      assert (a + b)[1..] == a[1..] + b;
      p := GroupsAppend(a[1..], b, m, rng, pos + |a[0]|);
      ConcatAssociative(JitterFlow(a[0], m, rng, pos, None), JitterGroups(a[1..], m, rng, pos + |a[0]|),
        JitterGroups(b, m, rng, p));
    }
  }

  lemma {:induction false} JitterEachAppend(a: seq<Event>, b: seq<Event>, m: nat, rng: Stream, pos: nat)
    ensures JitterEach(a + b, m, rng, pos) == JitterEach(a, m, rng, pos) + JitterEach(b, m, rng, pos + |a|)
  {
    if a == [] {
      assert a + b == b;
    } else {
      assert (a + b)[1..] == a[1..] + b;
      JitterEachAppend(a[1..], b, m, rng, pos + 1);
    }
  }

  /** Jittered groups contain only events of their flows. */
  lemma {:induction false} GroupsHaveFlow(
      keys: seq<Option<string>>, groups: seq<seq<Event>>, m: nat, rng: Stream, pos: nat)
    requires GroupedBy(keys, groups)
    ensures forall e :: e in JitterGroups(groups, m, rng, pos) ==> e.flow in keys
  {
    if keys != [] {
      JitterFlowStays(keys[0], groups[0], m, rng, pos, None);
      assert forall i :: 0 < i < |keys| ==> keys[i] == keys[1..][i - 1] && groups[i] == groups[1..][i - 1];
      GroupsHaveFlow(keys[1..], groups[1..], m, rng, pos + |groups[0]|);
    }
  }

  /** The groups with trailing noise: those without it, then at most one more, of the noise. */
  lemma {:induction false} GroupsWithNoise(events: seq<Event>, noise: seq<Event>) returns (rest: seq<seq<Event>>)
    requires forall e :: e in events ==> e.flow.Some?
    requires forall e :: e in noise ==> e.flow.None?
    ensures Groups(FlowKeys(events + noise), events + noise) == Groups(FlowKeys(events), events) + rest
    ensures GroupedBy(FlowKeys(events), Groups(FlowKeys(events), events))
    ensures GroupedBy(if noise == [] then [] else [None], rest)
    ensures None !in FlowKeys(events)
  {
    var keys, all := FlowKeys(events), FlowKeys(events + noise);
    var last := if noise == [] then [] else [None];
    FlowKeysComplete(events);
    FlowKeysNoise(events, noise);
    GroupsGrouped(keys, events);
    GroupsGrouped(last, events + noise);
    rest := Groups(last, events + noise);
    forall i | 0 <= i < |all| ensures Groups(all, events + noise)[i] == (Groups(keys, events) + rest)[i] {
      if i < |keys| {
        assert keys[i] in keys;
        OrderedIgnoresNoise(keys[i], events, noise);
      }
    }
    assert None !in keys;
  }

  lemma {:induction false} PreserveNoiseLast(events: seq<Event>, noise: seq<Event>, m: nat, rng: Stream)
    requires forall e :: e in events ==> e.flow.Some?
    requires forall e :: e in noise ==> e.flow.None?
    ensures Filter(HAS_FLOW, JitterPreserve(events + noise, m, rng, 0)) == JitterPreserve(events, m, rng, 0)
  {
    var groups := Groups(FlowKeys(events), events);
    var rest := GroupsWithNoise(events, noise);
    var p := GroupsAppend(groups, rest, m, rng, 0);
    GroupsHaveFlow(FlowKeys(events), groups, m, rng, 0);
    GroupsHaveFlow(if noise == [] then [] else [None], rest, m, rng, p);
    FilterAppend(HAS_FLOW, JitterGroups(groups, m, rng, 0), JitterGroups(rest, m, rng, p));
    FilterAll(HAS_FLOW, JitterGroups(groups, m, rng, 0));
    FilterNone(HAS_FLOW, JitterGroups(rest, m, rng, p));
  }

  lemma {:induction false} EachNoiseLast(events: seq<Event>, noise: seq<Event>, m: nat, rng: Stream)
    requires forall e :: e in events ==> e.flow.Some?
    requires forall e :: e in noise ==> e.flow.None?
    ensures Filter(HAS_FLOW, JitterEach(events + noise, m, rng, 0)) == JitterEach(events, m, rng, 0)
  {
    hide JitterEach, Filter;
    var head := JitterEach(events, m, rng, 0);
    var tail := JitterEach(noise, m, rng, |events|);
    JitterEachAppend(events, noise, m, rng, 0);
    JitterEachFlow(events, m, rng, 0);
    JitterEachFlow(noise, m, rng, |events|);
    FilterAppend(HAS_FLOW, head, tail);
    FilterAll(HAS_FLOW, head);
    FilterNone(HAS_FLOW, tail);
  }

  /** Jittering with trailing noise re-times the flow events exactly as without it. */
  lemma {:induction false} NoiseJitteredLast(
      config: Option<JitterConfig>, events: seq<Event>, noise: seq<Event>, rng: Stream)
    requires forall e :: e in events ==> e.flow.Some?
    requires forall e :: e in noise ==> e.flow.None?
    ensures Filter(HAS_FLOW, Apply(config, events + noise, rng)) == Apply(config, events, rng)
  {
    if config.None? || !config.value.enabled {
      FilterAppend(HAS_FLOW, events, noise);
      FilterAll(HAS_FLOW, events);
      FilterNone(HAS_FLOW, noise);
    } else if config.value.preserveOrder {
      PreserveNoiseLast(events, noise, config.value.maxOffset, rng);
    } else {
      EachNoiseLast(events, noise, config.value.maxOffset, rng);
    }
  }

  lemma {:induction false} JitterEachFlow(events: seq<Event>, m: nat, rng: Stream, pos: nat)
    ensures forall e :: e in JitterEach(events, m, rng, pos) ==>
      exists i :: 0 <= i < |events| && events[i].flow == e.flow
  {
    JitterEachStrip(events, m, rng, pos);
    var r := JitterEach(events, m, rng, pos);
    forall e | e in r ensures exists i :: 0 <= i < |events| && events[i].flow == e.flow {
      var i :| 0 <= i < |r| && r[i] == e;
      assert StripAll(r)[i] == StripAll(events)[i];
      assert events[i].flow == e.flow;
    }
  }
}
