/**
 The jitter applier as the source writes it: event objects whose `event_time` is assigned
 in place, grouped by flow in a dictionary (eventweave/compiler/jitter.py).
 */
module JitterApplier {
  import opened Common
  import opened Events
  import opened Rng
  import opened Jitter

  class EventObject {
    const data: Event
    var eventTime: int

    constructor (e: Event)
      ensures Value() == e
    {
      data := e;
      eventTime := e.time;
    }

    function Value(): (e: Event)
      reads this
    {
      data.(time := eventTime)
    }
  }

  /** The objects currently hold these events, position by position. */
  predicate Hold(objs: seq<EventObject>, values: seq<Event>)
    reads objs
  {
    |objs| == |values| && forall i :: 0 <= i < |objs| ==> objs[i].Value() == values[i]
  }

  ghost function Footprint(objs: seq<EventObject>): set<object> { set o | o in objs }

  predicate Distinct(objs: seq<EventObject>) {
    forall i, j :: 0 <= i < j < |objs| ==> objs[i] != objs[j]
  }

  /** Two lists of distinct objects hold the same ones. */
  predicate SameObjects(a: seq<EventObject>, b: seq<EventObject>) {
    (forall o :: o in a ==> o in b) && forall o :: o in b ==> o in a
  }

  /** The objects of one flow. */
  predicate IsGroup(group: seq<EventObject>, f: Option<string>, events: seq<EventObject>) {
    Distinct(group)
    && (forall o :: o in group ==> o.data.flow == f && o in events)
    && forall o :: o in events && o.data.flow == f ==> o in group
  }

  function ObjInFlow(f: Option<string>): EventObject -> bool { (o: EventObject) => o.data.flow == f }

  /** The objects of these flows, each once. */
  predicate Emitted(flows: seq<Option<string>>, jittered: seq<EventObject>, events: seq<EventObject>) {
    Distinct(jittered)
    && (forall o :: o in jittered ==> o in events && o.data.flow in flows)
    && forall o :: o in events && o.data.flow in flows ==> o in jittered
  }

  method InsertObject(o: EventObject, s: seq<EventObject>, ghost e: Event, ghost values: seq<Event>)
    returns (r: seq<EventObject>)
    requires o.Value() == e && Hold(s, values)
    ensures Hold(r, Insert(e, values))
    ensures multiset(r) == multiset{o} + multiset(s)
  {
    hide Before, Insert;
    var j := FindPlace(o, s, e, values);
    InsertPosition(e, values, j);
    r := s[..j] + [o] + s[j..];
    HoldBetween(o, s, e, values, j);
    assert s == s[..j] + s[j..];
  }

  /** The first position whose event does not come before this one. */
  method FindPlace(o: EventObject, s: seq<EventObject>, ghost e: Event, ghost values: seq<Event>) returns (j: nat)
    requires o.Value() == e && Hold(s, values)
    ensures j <= |s| == |values| && (j < |s| ==> !Before(values[j], e))
    ensures forall i :: 0 <= i < j ==> Before(values[i], e)
  {
    hide Before;
    j := 0;
    while j < |s| && Before(s[j].Value(), o.Value())
      invariant j <= |s|
      invariant forall i :: 0 <= i < j ==> Before(values[i], e)
    {
      j := j + 1;
    }
  }

  lemma {:induction false} HoldBetween(o: EventObject, s: seq<EventObject>, e: Event, values: seq<Event>, j: nat)
    requires o.Value() == e && Hold(s, values) && j <= |s|
    ensures Hold(s[..j] + [o] + s[j..], values[..j] + [e] + values[j..])
  {
  }

  /** `sorted(objs, key=(event_time, event_id))`. */
  method SortObjects(objs: seq<EventObject>, ghost values: seq<Event>) returns (r: seq<EventObject>)
    requires Distinct(objs) && Hold(objs, values)
    ensures Hold(r, Sort(values))
    ensures Distinct(r) && SameObjects(objs, r)
  {
    r := [];
    for i := |objs| downto 0
      invariant Hold(r, Sort(values[i..]))
      invariant multiset(r) == multiset(objs[i..])
    {
      assert objs[i..] == [objs[i]] + objs[i + 1..];
      assert values[i..][1..] == values[i + 1..];
      r := InsertObject(objs[i], r, values[i], Sort(values[i + 1..]));
    }
    assert objs[0..] == objs && values[0..] == values;
    DistinctPermutation(objs, r);
    MultisetMembers(objs, r);
  }

  lemma {:induction false} FilterHold(f: Option<string>, objs: seq<EventObject>, values: seq<Event>)
    requires Hold(objs, values)
    ensures Hold(Filter(ObjInFlow(f), objs), Filter(InFlow(f), values))
  {
    if objs != [] {
      FilterHold(f, objs[1..], values[1..]);
      assert objs[0].Value() == values[0];
    }
  }

  lemma {:induction false} FilterDistinct(f: Option<string>, objs: seq<EventObject>)
    requires Distinct(objs)
    ensures Distinct(Filter(ObjInFlow(f), objs))
  {
    if objs != [] {
      FilterDistinct(f, objs[1..]);
      FilterMember(ObjInFlow(f), objs[1..]);
      assert objs[0] !in objs[1..];
    }
  }

  lemma {:induction false} DistinctPermutation(a: seq<EventObject>, b: seq<EventObject>)
    requires multiset(a) == multiset(b) && Distinct(a)
    ensures Distinct(b)
  {
    forall i, j | 0 <= i < j < |b| ensures b[i] != b[j] {
      if b[i] == b[j] {
        assert b == b[..i] + [b[i]] + b[i + 1..j] + [b[j]] + b[j + 1..];
        assert multiset(a)[b[i]] >= 2;
        DistinctCount(a, b[i]);
        assert false;
      }
    }
  }

  lemma {:induction false} DistinctCount(a: seq<EventObject>, x: EventObject)
    requires Distinct(a)
    ensures multiset(a)[x] <= 1
  {
    if a != [] {
      assert a == [a[0]] + a[1..];
      assert a[0] !in a[1..];
      DistinctCount(a[1..], x);
    }
  }

  class JitterApplier {
    const config: Option<JitterConfig>
    const rng: Stream
    var pos: nat

    constructor (config: Option<JitterConfig>, rng: Stream)
      ensures this.config == config && this.rng == rng && pos == 0
    {
      this.config := config;
      this.rng := rng;
      pos := 0;
    }

    /** Re-times the events in place; what comes out is the specified sequence. */
    method Apply(events: seq<EventObject>, ghost before: seq<Event>) returns (out: seq<EventObject>)
      requires Distinct(events) && Hold(events, before)
      modifies this`pos, Footprint(events)
      ensures Hold(out, ApplyAt(config, before, rng, old(pos)))
      ensures multiset(out) == multiset(events)
    {
      if config.None? || !config.value.enabled {
        out := events;
      } else if config.value.preserveOrder {
        out := ApplyPreserveOrder(events, config.value.maxOffset, before);
      } else {
        ApplyEach(events, config.value.maxOffset, before);
        out := events;
      }
    }

    method ApplyEach(events: seq<EventObject>, m: nat, ghost before: seq<Event>)
      requires Distinct(events) && Hold(events, before)
      modifies this`pos, Footprint(events)
      ensures Hold(events, JitterEach(before, m, rng, old(pos)))
    {
      hide JitterEach;
      ghost var after := JitterEach(before, m, rng, pos);
      ghost var start := pos;
      for i := 0 to |events|
        invariant pos == start + i
        invariant forall j :: 0 <= j < i ==> events[j].Value() == after[j]
        invariant forall j :: i <= j < |events| ==> events[j].Value() == before[j]
      {
        JitterEachStep(before, m, rng, start, i);
        assert events[i].Value() == before[i];
        events[i].eventTime := events[i].eventTime + Uniform(0 - m, m, rng(pos));
        pos := pos + 1;
      }
    }

    method ApplyPreserveOrder(events: seq<EventObject>, m: nat, ghost before: seq<Event>)
      returns (jittered: seq<EventObject>)
      requires Distinct(events) && Hold(events, before)
      modifies this`pos, Footprint(events)
      ensures Hold(jittered, JitterPreserve(before, m, rng, old(pos)))
      ensures multiset(jittered) == multiset(events)
    {
      ghost var total := JitterPreserve(before, m, rng, pos);
      ghost var groups := Groups(FlowKeys(before), before);
      var keys, byFlow := GroupByFlow(events, before);
      FlowKeysDistinct(before);
      jittered := [];
      ghost var done: seq<Event> := [];
      for k := 0 to |keys|
        invariant Pending(keys, k, byFlow, events, before) && Finished(keys, k, jittered, events, done)
        invariant done + JitterGroups(groups[k..], m, rng, pos) == total
      {
        jittered, done := JitterNext(keys, k, byFlow, events, m, before, groups, jittered, done, total);
      }
      AllEmitted(keys, jittered, events, before);
    }

    /** The groups from `k` on have not been touched. */
    ghost predicate Pending(keys: seq<Option<string>>, k: nat, byFlow: map<Option<string>, seq<EventObject>>,
                            events: seq<EventObject>, before: seq<Event>)
      reads *
    {
      forall l :: k <= l < |keys| ==>
        keys[l] in byFlow && IsGroup(byFlow[keys[l]], keys[l], events)
        && Hold(byFlow[keys[l]], Filter(InFlow(keys[l]), before))
    }

    /** What has been emitted holds `done` and is made up of the first `k` flows. */
    ghost predicate Finished(keys: seq<Option<string>>, k: nat, jittered: seq<EventObject>, events: seq<EventObject>,
                             done: seq<Event>)
      requires k <= |keys|
      reads *
    {
      Hold(jittered, done) && Emitted(keys[..k], jittered, events)
    }

    method JitterNext(keys: seq<Option<string>>, k: nat, byFlow: map<Option<string>, seq<EventObject>>,
                      events: seq<EventObject>, m: nat, ghost before: seq<Event>, ghost groups: seq<seq<Event>>,
                      jittered: seq<EventObject>, ghost done: seq<Event>, ghost total: seq<Event>)
      returns (jittered': seq<EventObject>, ghost done': seq<Event>)
      requires groups == Groups(keys, before)
      requires k < |keys| && forall i, j :: 0 <= i < j < |keys| ==> keys[i] != keys[j]
      requires Pending(keys, k, byFlow, events, before) && Finished(keys, k, jittered, events, done)
      requires done + JitterGroups(groups[k..], m, rng, pos) == total
      modifies this`pos, Footprint(events)
      ensures Pending(keys, k + 1, byFlow, events, before) && Finished(keys, k + 1, jittered', events, done')
      ensures done' + JitterGroups(groups[k + 1..], m, rng, pos) == total
    {
      hide Sort, Filter, JitterFlow, JitterGroups, Emitted, Hold;
      var group := byFlow[keys[k]];
      ghost var retimed := GroupsUnfold(groups, k, m, rng, pos, done, total);
      assert Footprint(group) <= Footprint(events);
      EmittedApart(keys, k, jittered, group, events);
      var ordered := JitterGroup(group, m, Filter(InFlow(keys[k]), before));
      HoldAppend(jittered, ordered, done, retimed);
      EmitNext(keys, k, jittered, ordered, group, events);
      jittered' := jittered + ordered;
      done' := done + retimed;
    }

    /** Sorts one flow into its canonical order and re-times it. */
    method JitterGroup(group: seq<EventObject>, m: nat, ghost before: seq<Event>) returns (ordered: seq<EventObject>)
      requires Distinct(group) && Hold(group, before)
      modifies this`pos, Footprint(group)
      ensures Hold(ordered, JitterFlow(Sort(before), m, rng, old(pos), None))
      ensures pos == old(pos) + |ordered|
      ensures Distinct(ordered) && SameObjects(group, ordered)
    {
      ordered := SortObjects(group, before);
      assert Footprint(ordered) <= Footprint(group);
      Retime(ordered, m, Sort(before));
    }

    /** Groups by flow, keys in order of first appearance. */
    method GroupByFlow(events: seq<EventObject>, ghost values: seq<Event>)
      returns (keys: seq<Option<string>>, byFlow: map<Option<string>, seq<EventObject>>)
      requires Distinct(events) && Hold(events, values)
      ensures keys == FlowKeys(values)
      ensures forall f :: f in keys ==> f in byFlow && IsGroup(byFlow[f], f, events)
      ensures forall f :: f in keys ==> Hold(byFlow[f], Filter(InFlow(f), values))
    {
      keys, byFlow := [], map[];
      for i := 0 to |events|
        invariant keys == FlowKeys(values[..i])
        invariant forall f :: f in keys <==> f in byFlow
        invariant forall f :: (if f in byFlow then byFlow[f] else []) == Filter(ObjInFlow(f), events[..i])
      {
        var e := events[i];
        var f := e.data.flow;
        assert e.Value() == values[i];
        FilterSnoc(events, i);
        assert values[..i + 1][..i] == values[..i];
        if f !in byFlow {
          keys := keys + [f];
          byFlow := byFlow[f := []];
        }
        byFlow := byFlow[f := byFlow[f] + [e]];
      }
      assert events[..|events|] == events && values[..|events|] == values;
      forall f | f in keys ensures IsGroup(byFlow[f], f, events) && Hold(byFlow[f], Filter(InFlow(f), values)) {
        assert byFlow[f] == Filter(ObjInFlow(f), events);
        FilterHold(f, events, values);
        FilterDistinct(f, events);
        FilterMember(ObjInFlow(f), events);
      }
    }

    /** Re-times one flow in place. */
    method Retime(ordered: seq<EventObject>, m: nat, ghost before: seq<Event>)
      requires Distinct(ordered) && Hold(ordered, before)
      modifies this`pos, Footprint(ordered)
      ensures Hold(ordered, JitterFlow(before, m, rng, old(pos), None))
      ensures pos == old(pos) + |ordered|
    {
      hide JitterFlow;
      ghost var after := JitterFlow(before, m, rng, pos, None);
      ghost var start := pos;
      var prev: Option<int> := None;
      for i := 0 to |ordered|
        invariant pos == start + i
        invariant prev == if i == 0 then None else Some(after[i - 1].time)
        invariant forall j :: 0 <= j < i ==> ordered[j].Value() == after[j]
        invariant forall j :: i <= j < |ordered| ==> ordered[j].Value() == before[j]
      {
        JitterFlowStep(before, m, rng, start, None, i);
        assert ordered[i].Value() == before[i];
        var newTime := ordered[i].eventTime + Uniform(0 - m, m, rng(pos));
        pos := pos + 1;
        if prev.Some? {
          var minTime := prev.value + 1;
          if newTime < minTime {
            newTime := minTime;
          }
        }
        ordered[i].eventTime := newTime;
        prev := Some(newTime);
      }
    }
  }

  lemma {:induction false} HoldAppend(a: seq<EventObject>, b: seq<EventObject>, va: seq<Event>, vb: seq<Event>)
    requires Hold(a, va) && Hold(b, vb)
    ensures Hold(a + b, va + vb)
  {
  }

  lemma {:induction false} EmittedApart(keys: seq<Option<string>>, k: nat, jittered: seq<EventObject>,
                                        group: seq<EventObject>, events: seq<EventObject>)
    requires k < |keys| && forall i, j :: 0 <= i < j < |keys| ==> keys[i] != keys[j]
    requires Emitted(keys[..k], jittered, events) && IsGroup(group, keys[k], events)
    ensures forall o :: o in jittered ==> o !in group
  {
    assert keys[k] !in keys[..k];
  }

  lemma {:induction false} EmitNext(keys: seq<Option<string>>, k: nat, jittered: seq<EventObject>,
                                    ordered: seq<EventObject>, group: seq<EventObject>, events: seq<EventObject>)
    requires k < |keys| && forall i, j :: 0 <= i < j < |keys| ==> keys[i] != keys[j]
    requires Emitted(keys[..k], jittered, events) && IsGroup(group, keys[k], events)
    requires Distinct(ordered) && SameObjects(group, ordered)
    ensures Emitted(keys[..k + 1], jittered + ordered, events)
  {
    assert keys[..k + 1] == keys[..k] + [keys[k]];
    EmittedApart(keys, k, jittered, group, events);
    var all := jittered + ordered;
    forall i, j | 0 <= i < j < |all| ensures all[i] != all[j] {
      assert all[i] in jittered || i >= |jittered|;
      assert j >= |jittered| ==> all[j] in ordered;
    }
  }

  /** When every flow has been emitted, the objects are those passed in. */
  lemma {:induction false} AllEmitted(keys: seq<Option<string>>, jittered: seq<EventObject>, events: seq<EventObject>,
                                      before: seq<Event>)
    requires keys == FlowKeys(before) && |before| == |events| && Distinct(events)
    requires forall i :: 0 <= i < |events| ==> before[i].flow == events[i].data.flow
    requires Emitted(keys[..|keys|], jittered, events)
    ensures multiset(jittered) == multiset(events)
  {
    assert keys[..|keys|] == keys;
    forall o | o in events ensures o in jittered {
      var i :| 0 <= i < |events| && events[i] == o;
      FlowKeysComplete(before);
      assert before[i] in before;
    }
    forall o ensures multiset(jittered)[o] == multiset(events)[o] {
      DistinctCount(jittered, o);
      DistinctCount(events, o);
      assert o in multiset(jittered) <==> o in jittered;
      assert o in multiset(events) <==> o in events;
    }
  }

  lemma {:induction false} FlowKeysDistinct(events: seq<Event>)
    ensures forall i, j :: 0 <= i < j < |FlowKeys(events)| ==> FlowKeys(events)[i] != FlowKeys(events)[j]
  {
    FlowKeysComplete(events);
  }

  lemma {:induction false} MultisetMembers(a: seq<EventObject>, b: seq<EventObject>)
    requires multiset(a) == multiset(b)
    ensures |a| == |b|
    ensures forall o :: o in a <==> o in b
  {
    assert |multiset(a)| == |multiset(b)|;
    forall o ensures o in a <==> o in b {
      assert o in a <==> o in multiset(a);
      assert o in b <==> o in multiset(b);
    }
  }

  lemma {:induction false} FilterSnoc(events: seq<EventObject>, i: nat)
    requires i < |events|
    ensures forall g :: Filter(ObjInFlow(g), events[..i + 1])
                     == Filter(ObjInFlow(g), events[..i]) + if g == events[i].data.flow then [events[i]] else []
  {
    forall g ensures Filter(ObjInFlow(g), events[..i + 1])
                  == Filter(ObjInFlow(g), events[..i]) + if g == events[i].data.flow then [events[i]] else [] {
      assert events[..i + 1] == events[..i] + [events[i]];
      FilterAppend(ObjInFlow(g), events[..i], [events[i]]);
      assert Filter(ObjInFlow(g), [events[i]][1..]) == [];
    }
  }

  /** One round of the outer loop, on values. */
  lemma {:induction false} GroupsUnfold(
      groups: seq<seq<Event>>, k: nat, m: nat, rng: Stream, pos: nat, done: seq<Event>, total: seq<Event>)
    returns (retimed: seq<Event>)
    requires k < |groups|
    requires done + JitterGroups(groups[k..], m, rng, pos) == total
    ensures retimed == JitterFlow(groups[k], m, rng, pos, None)
    ensures done + retimed + JitterGroups(groups[k + 1..], m, rng, pos + |groups[k]|) == total
  {
    assert groups[k..][1..] == groups[k + 1..];
    retimed := JitterFlow(groups[k], m, rng, pos, None);
    ConcatAssociative(done, retimed, JitterGroups(groups[k + 1..], m, rng, pos + |groups[k]|));
  }
}
