/**
 The two runtimes' orders of a plan: `sort_events` in Python (eventweave/runtime/scheduler.py)
 and `SortEvents` in Go (runtime-go/internal/scheduler/scheduler.go).
 */
module Scheduler {
  import opened Events
  import opened Scenarios
  import opened Compile

  /** The Go comparator. */
  predicate Less(a: Event, b: Event) {
    if a.time != b.time then a.time < b.time else StrLess(a.id, b.id)
  }

  /** The comparator orders events by the Python sort key. */
  lemma {:induction false} LessIsBefore(a: Event, b: Event)
    ensures Less(a, b) <==> Before(a, b)
  {
  }

  /**
   Copies the slice and sorts the copy in place, stably; the argument keeps its contents.
   The library sort is written as insertion from the right.
   */
  method SortEvents(events: array<Event>) returns (sorted: array<Event>)
    ensures fresh(sorted) && sorted[..] == Sort(events[..])
    ensures events[..] == old(events[..])
  {
    var n := events.Length;
    if n == 0 {
      sorted := new Event[0];
      return;
    }
    var copy := new Event[n](i requires 0 <= i < n reads events => events[i]);
    assert copy[..] == events[..];
    for i := n downto 0
      invariant copy[..i] == events[..i]
      invariant copy[i..] == Sort(events[i..])
      invariant events[..] == old(events[..])
    {
      assert copy[i] == copy[..i + 1][i] == events[..i + 1][i] == events[i];
      assert copy[..i] == copy[..i + 1][..i] == events[..i];
      assert events[i..][1..] == events[i + 1..];
      InsertRight(copy, i);
    }
    assert copy[0..] == copy[..] && events[0..] == events[..];
    sorted := copy;
  }

  /** Moves `a[i]` to its place in the sorted rest of the array. */
  method InsertRight(a: array<Event>, i: nat)
    requires i < a.Length
    modifies a
    ensures a[..i] == old(a[..i])
    ensures a[i..] == Insert(old(a[i]), old(a[i + 1..]))
  {
    ghost var rest := a[i + 1..];
    var e := a[i];
    var j := i + 1;
    while j < a.Length && Less(a[j], e)
      invariant i < j <= a.Length
      invariant a[..i] == old(a[..i])
      invariant a[i..j - 1] == rest[..j - i - 1]
      invariant a[j..] == rest[j - i - 1..]
      invariant forall k :: 0 <= k < j - i - 1 ==> Before(rest[k], e)
    {
      assert a[j] == rest[j - i - 1];
      LessIsBefore(a[j], e);
      ShiftLeft(a, i, j, rest);
      j := j + 1;
    }
    if j < a.Length {
      assert a[j] == rest[j - i - 1];
      LessIsBefore(a[j], e);
    }
    InsertPosition(e, rest, j - i - 1);
    PutBetween(a, i, j, e, rest);
  }

  method PutBetween(a: array<Event>, i: nat, j: nat, e: Event, ghost rest: seq<Event>)
    requires i < j <= a.Length && |rest| == a.Length - i - 1
    requires a[i..j - 1] == rest[..j - i - 1] && a[j..] == rest[j - i - 1..]
    modifies a
    ensures a[..i] == old(a[..i])
    ensures a[i..] == rest[..j - i - 1] + [e] + rest[j - i - 1..]
  {
    a[j - 1] := e;
    assert a[i..] == a[i..j - 1] + [a[j - 1]] + a[j..];
  }

  /** One step of the shift: the next smaller element moves down by one. */
  method ShiftLeft(a: array<Event>, i: nat, j: nat, ghost rest: seq<Event>)
    requires i < j < a.Length && |rest| == a.Length - i - 1
    requires a[i..j - 1] == rest[..j - i - 1] && a[j..] == rest[j - i - 1..]
    modifies a
    ensures a[..i] == old(a[..i])
    ensures a[i..j] == rest[..j - i] && a[j + 1..] == rest[j - i..]
  {
    ghost var before := a[..];
    a[j - 1] := a[j];
    assert forall k :: 0 <= k < a.Length && k != j - 1 ==> a[k] == before[k];
    assert forall k :: i <= k < j - 1 ==> a[k] == before[k] == before[i..j - 1][k - i];
    assert forall k :: j < k < a.Length ==> a[k] == before[k] == before[j..][k - j];
    assert a[j - 1] == before[j..][0];
  }

  /**
   The runtimes agree: from any permutation of a compiled plan, both restore the plan itself,
   because (event_time, event_id) is a strict total order on it.
   */
  lemma {:induction false} RuntimesAgree(scn: Scenario, start: int, rngs: Streams, n: nat, shuffled: seq<Event>)
    requires multiset(shuffled) == multiset(Plan(scn, start, rngs, n))
    ensures Sort(shuffled) == Plan(scn, start, rngs, n)
  {
    hide Unjittered, Before;
    var plan := Plan(scn, start, rngs, n);
    PlanIds(scn, start, rngs, n);
    SortSorted(Jitter.Apply(scn.jitter, Unjittered(scn, start, rngs, n), rngs.jitter));
    SortSorted(shuffled);
    SortedUnique(plan, Sort(shuffled));
  }
}
