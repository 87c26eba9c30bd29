/**
 What the semantic cache, its validator and the pool of assets do, case by case and without their
 own vocabulary (eventweave/ai/validator.py:21-41, sidecar.py:77-126, cache.py:53-63).
 */
module SemanticLaws {
  import opened Common
  import opened Events
  import opened Ids
  import opened Semantic

  /** The task's kind, some text that is not all white space, within the limit, for an event of the task's kinds. */
  ghost predicate Acceptable(st: Setting, a: Asset, r: Request) {
    a.kind == r.task.kind
    && (exists i :: 0 <= i < |a.text| && !IsSpace(a.text[i])) && |a.text| <= st.maxLength
    && (r.task.validFor == [] || r.event.None? || r.event.value.kind in r.task.validFor)
  }

  /** Whatever the cache holds and however often it is asked: only acceptable assets come out. */
  lemma {:induction false} OnlyAcceptable(st: Setting, cache: Cache, r: Request, force: bool)
    ensures var g := Generated(st, cache, r, force).1;
      (g.Some? ==> Acceptable(st, g.value, r)) && (g.None? ==> !Acceptable(st, st.provider(r), r))
  {
    hide Key;
    AcceptedIff(st, st.provider(r), r);
    if Key(st, r) in cache {
      AcceptedIff(st, cache[Key(st, r)], r);
    }
  }

  lemma {:induction false} AcceptedIff(st: Setting, a: Asset, r: Request)
    ensures ValidAsset(st, a, r) <==> Acceptable(st, a, r)
  {
  }

  /** `force` asks the provider whatever is cached; without it an acceptable entry of the key is returned as it is. */
  lemma {:induction false} ForceAndHit(st: Setting, cache: Cache, r: Request)
    ensures var p, key := st.provider(r), Key(st, r);
      Generated(st, cache, r, true) == (if Acceptable(st, p, r) then (cache[key := p], Some(p)) else (cache, None))
      && Generated(st, cache, r, false)
         == if key in cache && Acceptable(st, cache[key], r) then (cache, Some(cache[key]))
            else Generated(st, cache, r, true)
  {
    hide Key, ValidAsset;
    AcceptedIff(st, st.provider(r), r);
    if Key(st, r) in cache {
      AcceptedIff(st, cache[Key(st, r)], r);
    }
  }

  /** Keys of different providers or scenarios differ, unless a name holds an underscore. */
  lemma {:induction false} KeysOfSettings(st: Setting, su: Setting, r: Request, s: Request)
    requires '_' !in st.providerType && '_' !in su.providerType && '_' !in st.scenario && '_' !in su.scenario
    requires Key(st, r) == Key(su, s)
    ensures st.providerType == su.providerType && st.scenario == su.scenario
  {
    hide TaskKey;
    var a, b := TaskKey(r.task.id, EventIdOf(r)), TaskKey(s.task.id, EventIdOf(s));
    assert Key(st, r) == st.providerType + "_" + (st.scenario + "_" + a);
    assert Key(su, s) == su.providerType + "_" + (su.scenario + "_" + b);
    SplitFirst(st.providerType, st.scenario + "_" + a, su.providerType, su.scenario + "_" + b);
    SplitFirst(st.scenario, a, su.scenario, b);
  }

  lemma {:induction false} SplitFirst(a: string, x: string, b: string, y: string)
    requires a + "_" + x == b + "_" + y && '_' !in a && '_' !in b
    ensures a == b && x == y
  {
    var s := a + "_" + x;
    assert s[|a|] == '_' && s[|b|] == '_';
    assert forall i :: 0 <= i < |a| ==> s[i] == a[i];
    assert forall i :: 0 <= i < |b| ==> s[i] == b[i];
    assert |a| == |b|;
    assert a == s[..|a|] == b;
    assert x == s[|a| + 1..] == y;
  }

  // ---------------------------------------------------------------- the pool, asset by asset

  /** Copy `i` is the provider's asset under its own id, the event's id and the copy's number. */
  lemma {:induction false} CopyAt(st: Setting, r: Request, n: nat, i: nat)
    requires i < n
    ensures var c, p := Copies(st, r, n)[i], st.provider(r);
      c == p.(id := c.id) && Numeral(Pad(i, 0)) == i
      && c.id == if r.event.Some? then p.id + ("-" + r.event.value.id + "-" + Pad(i, 0)) else p.id + ("-" + Pad(i, 0))
  {
    hide Pad, Numeral;
    PadRoundTrip(i, 0);
    if i < n - 1 {
      CopyAt(st, r, n - 1, i);
    } else if r.event.None? {
      assert "" + "-" + Pad(i, 0) == "-" + Pad(i, 0);
    }
  }

  /** How many of the first `n` events are of the task's kinds. */
  function Fitting(task: Task, events: seq<Event>, n: nat): nat
    requires n <= |events|
  {
    if n == 0 then 0 else Fitting(task, events, n - 1) + if events[n - 1].kind in task.validFor then 1 else 0
  }

  lemma {:induction false} TaskEventsCount(st: Setting, task: Task, events: seq<Event>, n: nat)
    requires n <= |events|
    ensures |TaskEvents(st, task, events, n)| == task.count * Fitting(task, events, n)
  {
    hide Copies;
    if n > 0 {
      TaskEventsCount(st, task, events, n - 1);
      OneMore(task.count, Fitting(task, events, n - 1));
      assert |EventAssets(st, task, events[n - 1])| == if events[n - 1].kind in task.validFor then task.count else 0;
      hide EventAssets;
    }
  }

  lemma {:induction false} OneMore(a: nat, b: nat)
    ensures a * (b + 1) == a * b + a && a * (b + 0) == a * b
  {
  }

  /**
   What one task adds to the pool: `count` assets for each event of its kinds, or `count` assets for
   no event when it names no kinds or there are no events.
   */
  lemma {:induction false} TaskAdds(st: Setting, task: Task, events: seq<Event>)
    ensures var assets := TaskAssets(st, task, events);
      if task.validFor == [] || events == [] then assets == Copies(st, Request(task, None), task.count)
      else |assets| == task.count * Fitting(task, events, |events|)
  {
    hide Copies, TaskEvents;
    TaskEventsCount(st, task, events, |events|);
  }
}
