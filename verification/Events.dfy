/**
 Events of a compiled plan and the order in which both runtimes emit them.
 Times are whole microseconds.
 */
module Events {
  import opened Common

  /** A floating-point number as the rules compare it. */
  datatype Float = NaN | NegInf | Finite(r: real) | PosInf

  /** An attribute value; `number` is what `float(value)` gives, if anything. */
  datatype Value = Value(text: string, number: Option<Float>)

  datatype Event = Event(
    id: string,
    flow: Option<string>,
    source: string,
    kind: string,
    time: int,
    refs: map<string, string>,
    attrs: map<string, Value>,
    labels: seq<string>)

  /** Everything about an event except its time. */
  function Strip(e: Event): Event { e.(time := 0) }

  function StripAll(s: seq<Event>): (r: seq<Event>)
    ensures |r| == |s|
    ensures forall i :: 0 <= i < |s| ==> r[i] == Strip(s[i])
  {
    MapSeq(Strip, s)
  }

  function Shift(d: int): Event -> Event { (e: Event) => e.(time := e.time + d) }

  function ShiftAll(d: int, s: seq<Event>): (r: seq<Event>)
    ensures |r| == |s|
    ensures forall i :: 0 <= i < |s| ==> r[i] == s[i].(time := s[i].time + d)
  {
    MapSeq(Shift(d), s)
  }

  function InFlow(f: Option<string>): Event -> bool { (e: Event) => e.flow == f }

  const HAS_FLOW: Event -> bool := (e: Event) => e.flow.Some?

  /** Strict lexicographic order on strings, by code point. */
  predicate StrLess(a: string, b: string) {
    b != [] && (a == [] || a[0] < b[0] || (a[0] == b[0] && StrLess(a[1..], b[1..])))
  }

  /** The sort key (event_time, event_id), as Python compares it. */
  predicate Before(a: Event, b: Event) {
    a.time < b.time || (a.time == b.time && StrLess(a.id, b.id))
  }

  predicate Sorted(s: seq<Event>) {
    forall i, j :: 0 <= i < j < |s| ==> !Before(s[j], s[i])
  }

  predicate StrictlyIncreasing(s: seq<Event>) {
    forall i, j :: 0 <= i < j < |s| ==> s[i].time < s[j].time
  }

  predicate DistinctIds(s: seq<Event>) {
    forall i, j :: 0 <= i < j < |s| ==> s[i].id != s[j].id
  }

  /** Puts `e` before every event it does not come after: stable when `e` was first. */
  function Insert(e: Event, s: seq<Event>): seq<Event> {
    if s != [] && Before(s[0], e) then [s[0]] + Insert(e, s[1..]) else [e] + s
  }

  /** The stable sort by (event_time, event_id). */
  function Sort(s: seq<Event>): seq<Event> {
    if s == [] then [] else Insert(s[0], Sort(s[1..]))
  }

  /** The strings first differ at `i`, where `a` has the smaller character. */
  predicate LessAt(a: string, b: string, i: nat) {
    i < |a| && i < |b| && a[..i] == b[..i] && a[i] < b[i]
  }

  lemma {:induction false} LessAtTail(a: string, b: string, i: nat)
    requires a != [] && b != []
    ensures LessAt(a, b, i + 1) <==> a[0] == b[0] && LessAt(a[1..], b[1..], i)
  {
    if i < |a[1..]| && i < |b[1..]| {
      assert a[..i + 1] == [a[0]] + a[1..][..i] && b[..i + 1] == [b[0]] + b[1..][..i];
      assert a[..i + 1][1..] == a[1..][..i] && b[..i + 1][1..] == b[1..][..i];
    }
  }

  /** The order of strings: a proper prefix comes first, else the first differing character decides. */
  lemma {:induction false} StrLessIff(a: string, b: string)
    ensures StrLess(a, b) <==> a < b || exists i :: LessAt(a, b, i)
  {
    if a != [] && b != [] {
      StrLessIff(a[1..], b[1..]);
      assert a == [a[0]] + a[1..] && b == [b[0]] + b[1..];
      assert a < b <==> a[0] == b[0] && a[1..] < b[1..];
      assert LessAt(a, b, 0) <==> a[0] < b[0];
      hide LessAt;
      if i: nat :| LessAt(a, b, i) && i > 0 {
        LessAtTail(a, b, i - 1);
      }
      if i: nat :| a[0] == b[0] && LessAt(a[1..], b[1..], i) {
        LessAtTail(a, b, i);
      }
    }
  }

  lemma {:induction false} StrLessTotal(a: string, b: string)
    ensures a == b || StrLess(a, b) || StrLess(b, a)
  {
    if a != [] && b != [] && a[0] == b[0] {
      StrLessTotal(a[1..], b[1..]);
      if a[1..] == b[1..] {
        assert a == [a[0]] + a[1..] == b;
      }
    }
  }

  lemma {:induction false} StrLessTransitive(a: string, b: string, c: string)
    requires StrLess(a, b) && StrLess(b, c)
    ensures StrLess(a, c)
  {
    if a != [] && a[0] == b[0] && b[0] == c[0] {
      StrLessTransitive(a[1..], b[1..], c[1..]);
    }
  }

  lemma {:induction false} StrLessAsymmetric(a: string, b: string)
    requires StrLess(a, b)
    ensures !StrLess(b, a) && a != b
  {
    if a != [] && a[0] == b[0] {
      StrLessAsymmetric(a[1..], b[1..]);
    }
  }

  /** `!Before(y, x)` is transitive: the keys are totally preordered. */
  lemma {:induction false} NotBeforeTransitive(x: Event, y: Event, z: Event)
    requires !Before(y, x) && !Before(z, y)
    ensures !Before(z, x)
  {
    if Before(z, x) && x.time == z.time {
      StrLessTotal(x.id, y.id);
      StrLessTotal(y.id, z.id);
      if x.id != y.id && y.id != z.id {
        StrLessTransitive(x.id, y.id, z.id);
      }
      StrLessAsymmetric(z.id, x.id);
    }
  }

  lemma {:induction false} BeforeAsymmetric(x: Event, y: Event)
    requires Before(x, y)
    ensures !Before(y, x)
  {
    if x.time == y.time {
      StrLessAsymmetric(x.id, y.id);
    }
  }

  /** Where insertion puts an element. */
  lemma {:induction false} InsertPosition(e: Event, s: seq<Event>, j: nat)
    requires j <= |s|
    requires forall i :: 0 <= i < j ==> Before(s[i], e)
    requires j < |s| ==> !Before(s[j], e)
    ensures Insert(e, s) == s[..j] + [e] + s[j..]
  {
    hide Before;
    if j > 0 {
      InsertPosition(e, s[1..], j - 1);
      assert s[..j] == [s[0]] + s[1..][..j - 1];
      assert s[j..] == s[1..][j - 1..];
    }
  }

  lemma {:induction false} InsertSorted(e: Event, s: seq<Event>)
    requires Sorted(s)
    ensures Sorted(Insert(e, s))
    ensures multiset(Insert(e, s)) == multiset{e} + multiset(s)
  {
    hide StrLess;
    if s != [] && Before(s[0], e) {
      InsertSorted(e, s[1..]);
      assert s == [s[0]] + s[1..];
      var r := Insert(e, s[1..]);
      forall j | 0 <= j < |r| ensures !Before(r[j], s[0]) {
        assert r[j] in multiset(r);
        if r[j] == e {
          BeforeAsymmetric(s[0], e);
        } else {
          assert r[j] in multiset(s[1..]);
          var k :| 0 <= k < |s[1..]| && s[1..][k] == r[j];
          assert s[k + 1] == r[j];
        }
      }
    } else if s != [] {
      forall j | 0 <= j < |s| ensures !Before(s[j], e) {
        if j > 0 {
          NotBeforeTransitive(e, s[0], s[j]);
        }
      }
    }
  }

  /** The sort is a sorted permutation of its argument. */
  lemma {:induction false} SortSorted(s: seq<Event>)
    ensures Sorted(Sort(s))
    ensures multiset(Sort(s)) == multiset(s)
    ensures |Sort(s)| == |s|
  {
    if s != [] {
      SortSorted(s[1..]);
      InsertSorted(s[0], Sort(s[1..]));
      assert s == [s[0]] + s[1..];
      assert |multiset(Sort(s))| == |multiset(s)|;
    }
  }

  lemma {:induction false} SortMembers(s: seq<Event>)
    ensures forall e :: e in Sort(s) <==> e in s
  {
    SortSorted(s);
    forall e ensures e in Sort(s) <==> e in s {
      assert e in Sort(s) <==> e in multiset(Sort(s));
      assert e in s <==> e in multiset(s);
    }
  }

  lemma {:induction false} InsertFilter(p: Event -> bool, e: Event, s: seq<Event>)
    requires Sorted(s)
    ensures Filter(p, Insert(e, s)) == if p(e) then Insert(e, Filter(p, s)) else Filter(p, s)
  {
    if s != [] && Before(s[0], e) {
      InsertFilter(p, e, s[1..]);
      assert Insert(e, s)[1..] == Insert(e, s[1..]);
      if p(e) && p(s[0]) {
        assert Filter(p, s)[0] == s[0] && Filter(p, s)[1..] == Filter(p, s[1..]);
      }
    } else {
      assert ([e] + s)[1..] == s;
      if p(e) {
        var t := Filter(p, s);
        if t != [] {
          FilterMember(p, s);
          assert t[0] in s;
          var k :| 0 <= k < |s| && s[k] == t[0];
          if k > 0 {
            NotBeforeTransitive(e, s[0], s[k]);
          }
          assert !Before(t[0], e);
        }
        assert Insert(e, t) == [e] + t;
      }
    }
  }

  /** Sorting commutes with taking a sub-selection. */
  lemma {:induction false} SortFilter(p: Event -> bool, s: seq<Event>)
    ensures Filter(p, Sort(s)) == Sort(Filter(p, s))
  {
    if s != [] {
      SortFilter(p, s[1..]);
      SortSorted(s[1..]);
      InsertFilter(p, s[0], Sort(s[1..]));
      if p(s[0]) {
        assert Filter(p, s)[1..] == Filter(p, s[1..]);
      }
    }
  }

  /** A strictly increasing sequence is already sorted. */
  lemma {:induction false} SortIncreasing(s: seq<Event>)
    requires StrictlyIncreasing(s)
    ensures Sort(s) == s
  {
    if s != [] {
      assert StrictlyIncreasing(s[1..]) by {
        forall i, j | 0 <= i < j < |s[1..]| ensures s[1..][i].time < s[1..][j].time {
          assert s[i + 1].time < s[j + 1].time;
        }
      }
      SortIncreasing(s[1..]);
      if |s| > 1 {
        assert s[0].time < s[1].time;
      }
      assert s == [s[0]] + s[1..];
    }
  }

  lemma {:induction false} InsertShift(d: int, e: Event, s: seq<Event>)
    ensures Insert(Shift(d)(e), ShiftAll(d, s)) == ShiftAll(d, Insert(e, s))
  {
    hide StrLess;
    if s != [] {
      assert ShiftAll(d, s)[1..] == ShiftAll(d, s[1..]);
      InsertShift(d, e, s[1..]);
    }
  }

  /** Sorting does not see a common shift of all times. */
  lemma {:induction false} SortShift(d: int, s: seq<Event>)
    ensures Sort(ShiftAll(d, s)) == ShiftAll(d, Sort(s))
  {
    if s != [] {
      assert ShiftAll(d, s)[1..] == ShiftAll(d, s[1..]);
      SortShift(d, s[1..]);
      InsertShift(d, s[0], Sort(s[1..]));
    } else {
      assert ShiftAll(d, s) == [];
    }
  }

  /** The first element of a sorted sequence is determined by its elements. */
  lemma {:induction false} SortedFirst(a: seq<Event>, b: seq<Event>)
    requires Sorted(a) && Sorted(b) && multiset(a) == multiset(b) && DistinctIds(a)
    requires a != [] && b != []
    ensures a[0] == b[0]
  {
    assert a[0] in multiset(b) && b[0] in multiset(a);
    var i :| 0 <= i < |a| && a[i] == b[0];
    var j :| 0 <= j < |b| && b[j] == a[0];
    StrLessTotal(a[0].id, a[i].id);
  }

  /** Two sorted sequences with the same elements agree when ids are distinct. */
  lemma {:induction false} SortedUnique(a: seq<Event>, b: seq<Event>)
    requires Sorted(a) && Sorted(b) && multiset(a) == multiset(b)
    requires DistinctIds(a)
    ensures a == b
  {
    assert |multiset(a)| == |multiset(b)|;
    if a != [] {
      SortedFirst(a, b);
      assert a == [a[0]] + a[1..] && b == [b[0]] + b[1..];
      assert multiset(a[1..]) == multiset(a) - multiset{a[0]};
      assert multiset(b[1..]) == multiset(b) - multiset{b[0]};
      SortedUnique(a[1..], b[1..]);
    }
  }

  lemma {:induction false} DistinctIdsPermutation(a: seq<Event>, b: seq<Event>)
    requires multiset(a) == multiset(b) && DistinctIds(a)
    ensures DistinctIds(b)
  {
    forall i, j | 0 <= i < j < |b| ensures b[i].id != b[j].id {
      assert b == b[..i] + [b[i]] + b[i + 1..j] + [b[j]] + b[j + 1..];
      assert b[i] in multiset(a) && b[j] in multiset(a);
      if b[i].id == b[j].id {
        var k :| 0 <= k < |a| && a[k] == b[i];
        var l :| 0 <= l < |a| && a[l] == b[j];
        assert k == l;
        assert multiset(b)[b[i]] >= 2;
        CountTwo(a, b[i], k);
        assert false;
      }
    }
  }

  lemma {:induction false} CountTwo(a: seq<Event>, x: Event, k: nat)
    requires DistinctIds(a) && k < |a| && a[k] == x
    ensures multiset(a)[x] == 1
  {
    assert a == a[..k] + [x] + a[k + 1..];
    assert forall i :: 0 <= i < k ==> a[i] != x;
    assert forall i :: k < i < |a| ==> a[i] != x;
    assert multiset(a[..k])[x] == 0 && multiset(a[k + 1..])[x] == 0;
  }
}
