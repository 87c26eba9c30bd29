/** Small vocabulary shared by every module of the model. */
module Common {

  datatype Option<+T> = None | Some(value: T)

  /** Keeps the elements that satisfy `p`, in order. */
  function Filter<T>(p: T -> bool, s: seq<T>): seq<T> {
    if s == [] then []
    else if p(s[0]) then [s[0]] + Filter(p, s[1..])
    else Filter(p, s[1..])
  }

  /** Applies `f` to every element. */
  function MapSeq<A, B>(f: A -> B, s: seq<A>): (r: seq<B>)
    ensures |r| == |s|
    ensures forall i :: 0 <= i < |s| ==> r[i] == f(s[i])
  {
    seq(|s|, i requires 0 <= i < |s| => f(s[i]))
  }

  function Max(a: int, b: int): int { if a < b then b else a }

  function Min(a: int, b: int): int { if a < b then a else b }

  /** ASCII white space as `strip` sees it: tab to carriage return, the four separators, and the blank. */
  predicate IsSpace(c: char) { '\t' <= c <= '\r' || '\U{1C}' <= c <= ' ' }

  lemma {:induction false} FilterAppend<T>(p: T -> bool, a: seq<T>, b: seq<T>)
    ensures Filter(p, a + b) == Filter(p, a) + Filter(p, b)
  {
    if a == [] {
      assert a + b == b;
    } else {
      assert (a + b)[1..] == a[1..] + b;
      FilterAppend(p, a[1..], b);
    }
  }

  lemma {:induction false} FilterAll<T>(p: T -> bool, s: seq<T>)
    requires forall x :: x in s ==> p(x)
    ensures Filter(p, s) == s
  {
    if s != [] {
      FilterAll(p, s[1..]);
    }
  }

  lemma {:induction false} FilterNone<T>(p: T -> bool, s: seq<T>)
    requires forall x :: x in s ==> !p(x)
    ensures Filter(p, s) == []
  {
    if s != [] {
      FilterNone(p, s[1..]);
    }
  }

  lemma {:induction false} FilterMember<T>(p: T -> bool, s: seq<T>)
    ensures forall x :: x in Filter(p, s) <==> x in s && p(x)
  {
    if s != [] {
      FilterMember(p, s[1..]);
      assert s == [s[0]] + s[1..];
      if p(s[0]) {
        assert Filter(p, s) == [s[0]] + Filter(p, s[1..]);
      }
    }
  }

  /** If `p` implies `q` on the elements of `s`, filtering by `q` first changes nothing. */
  lemma {:induction false} FilterRefine<T>(p: T -> bool, q: T -> bool, s: seq<T>)
    requires forall x :: x in s && p(x) ==> q(x)
    ensures Filter(p, Filter(q, s)) == Filter(p, s)
  {
    if s != [] {
      FilterRefine(p, q, s[1..]);
      if q(s[0]) {
        assert Filter(q, s)[1..] == Filter(q, s[1..]);
      }
    }
  }

  /** Filtering and mapping commute when the map does not affect the test. */
  lemma {:induction false} FilterMap<T>(p: T -> bool, f: T -> T, s: seq<T>)
    requires forall x :: x in s ==> p(f(x)) == p(x)
    ensures Filter(p, MapSeq(f, s)) == MapSeq(f, Filter(p, s))
  {
    if s != [] {
      FilterMap(p, f, s[1..]);
      assert MapSeq(f, s)[1..] == MapSeq(f, s[1..]);
      assert s[0] in s;
      if p(s[0]) {
        assert Filter(p, s) == [s[0]] + Filter(p, s[1..]);
        assert MapSeq(f, Filter(p, s)) == [f(s[0])] + MapSeq(f, Filter(p, s[1..]));
      }
    }
  }

  lemma {:induction false} MapAppend<A, B>(f: A -> B, a: seq<A>, b: seq<A>)
    ensures MapSeq(f, a + b) == MapSeq(f, a) + MapSeq(f, b)
  {
  }

  function DropAt<T>(s: seq<T>, i: nat): seq<T>
    requires i < |s|
  {
    s[..i] + s[i + 1..]
  }

  lemma {:induction false} DropOne<T>(s: seq<T>, i: nat)
    requires i < |s|
    ensures multiset(s) == multiset(DropAt(s, i)) + multiset{s[i]}
  {
    assert s == s[..i] + ([s[i]] + s[i + 1..]);
  }

  lemma {:induction false} CancelOne<T>(a: multiset<T>, b: multiset<T>, x: T)
    requires a + multiset{x} == b + multiset{x}
    ensures a == b
  {
    assert (a + multiset{x}) - multiset{x} == a && (b + multiset{x}) - multiset{x} == b;
  }

  /** Permuted sequences have permuted images. */
  lemma {:induction false} MapPermuted<A, B>(f: A -> B, s: seq<A>, t: seq<A>)
    requires multiset(s) == multiset(t)
    ensures multiset(MapSeq(f, s)) == multiset(MapSeq(f, t))
    decreases |s|
  {
    assert |multiset(s)| == |s| && |multiset(t)| == |t|;
    if s == [] {
      assert s == t;
    } else {
      var i := PermutedHead(s, t);
      MapPermuted(f, DropAt(s, 0), DropAt(t, i));
      assert MapSeq(f, DropAt(s, 0)) == DropAt(MapSeq(f, s), 0) && MapSeq(f, DropAt(t, i)) == DropAt(MapSeq(f, t), i);
      hide DropAt, MapSeq;
      DropOne(MapSeq(f, s), 0);
      DropOne(MapSeq(f, t), i);
    }
  }

  /** The head of one permutation, found in the other; what remains is permuted too. */
  lemma {:induction false} PermutedHead<T>(s: seq<T>, t: seq<T>) returns (i: nat)
    requires multiset(s) == multiset(t) && s != []
    ensures i < |t| && t[i] == s[0] && multiset(DropAt(s, 0)) == multiset(DropAt(t, i))
  {
    hide DropAt;
    assert s[0] in multiset(t);
    i :| 0 <= i < |t| && t[i] == s[0];
    DropOne(s, 0);
    DropOne(t, i);
    CancelOne(multiset(DropAt(s, 0)), multiset(DropAt(t, i)), s[0]);
  }

  lemma {:induction false} ConcatAssociative<T>(a: seq<T>, b: seq<T>, c: seq<T>)
    ensures a + (b + c) == a + b + c
  {
  }

  /** A filter keeps every copy of an element it accepts. */
  lemma {:induction false} FilterCount<T>(p: T -> bool, s: seq<T>, x: T)
    ensures multiset(Filter(p, s))[x] == if p(x) then multiset(s)[x] else 0
  {
    if s != [] {
      assert s == [s[0]] + s[1..];
      FilterCount(p, s[1..], x);
    }
  }
}
