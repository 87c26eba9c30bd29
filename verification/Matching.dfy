/**
 Greedy matching of expected findings to reported ones (`_match_finding` and
 `_match_timeline_stage`, eventweave/evaluation/evaluator.py:42-84): each expectation takes the
 first candidate nobody took before. The theory of when that is the best possible.
 */
module Matching {
  import opened Common

  /** What matching looks at, already normalized. A timeline stage is a label without a stage of its own. */
  datatype Label = Label(kind: string, stage: Option<string>)

  /** An expectation without a stage accepts any stage. */
  predicate Matches(e: Label, c: Label) {
    e.kind == c.kind && (e.stage.None? || c.stage == e.stage)
  }

  /** For every expectation, the index of the candidate it took. */
  type Assignment = seq<Option<nat>>

  /** The first candidate from `from` on that is free and matches. */
  function FirstFree(e: Label, candidates: seq<Label>, used: set<nat>, from: nat): (r: Option<nat>)
    requires from <= |candidates|
    ensures r.Some? ==> from <= r.value < |candidates| && r.value !in used && Matches(e, candidates[r.value])
    ensures forall j :: from <= j < (if r.Some? then r.value else |candidates|) ==>
      j in used || !Matches(e, candidates[j])
    decreases |candidates| - from
  {
    if from == |candidates| then None
    else if from !in used && Matches(e, candidates[from]) then Some(from)
    else FirstFree(e, candidates, used, from + 1)
  }

  function Used(a: Assignment): set<nat> { set i | 0 <= i < |a| && a[i].Some? :: a[i].value }

  function Greedy(expected: seq<Label>, candidates: seq<Label>): (a: Assignment)
    ensures |a| == |expected|
  {
    if expected == [] then []
    else
      var n := |expected| - 1;
      var a := Greedy(expected[..n], candidates);
      a + [FirstFree(expected[n], candidates, Used(a), 0)]
  }

  /** A matching: every taken candidate matches, and none is taken twice. */
  predicate Valid(a: Assignment, expected: seq<Label>, candidates: seq<Label>) {
    |a| == |expected|
    && (forall i :: 0 <= i < |a| && a[i].Some? ==>
      a[i].value < |candidates| && Matches(expected[i], candidates[a[i].value]))
    && forall i, j :: 0 <= i < j < |a| && a[i].Some? && a[j].Some? ==> a[i].value != a[j].value
  }

  /** The expectations that are met. */
  function Met(a: Assignment): set<nat> { set i | 0 <= i < |a| && a[i].Some? }

  // ---------------------------------------------------------------- what greedy does

  /** Greedy on a prefix is a prefix of greedy: an expectation sees only those before it. */
  lemma {:induction false} GreedyAt(expected: seq<Label>, candidates: seq<Label>, i: nat)
    requires i < |expected|
    ensures Greedy(expected, candidates)[..i] == Greedy(expected[..i], candidates)
    ensures Greedy(expected, candidates)[i]
      == FirstFree(expected[i], candidates, Used(Greedy(expected, candidates)[..i]), 0)
  {
    var n := |expected| - 1;
    var a := Greedy(expected[..n], candidates);
    assert Greedy(expected, candidates)[..n] == a;
    if i < n {
      GreedyAt(expected[..n], candidates, i);
      assert expected[..n][..i] == expected[..i];
      assert Greedy(expected, candidates)[..i] == a[..i];
    }
  }

  /** Greedy matching is a matching. */
  lemma {:induction false} GreedyValid(expected: seq<Label>, candidates: seq<Label>)
    ensures Valid(Greedy(expected, candidates), expected, candidates)
  {
    hide Greedy, FirstFree, Matches;
    var a := Greedy(expected, candidates);
    forall i | 0 <= i < |a| && a[i].Some?
      ensures a[i].value < |candidates| && Matches(expected[i], candidates[a[i].value])
    {
      GreedyAt(expected, candidates, i);
    }
    forall i, j | 0 <= i < j < |a| && a[i].Some? && a[j].Some? ensures a[i].value != a[j].value {
      GreedyAt(expected, candidates, j);
      assert a[..j][i] == a[i];
      assert a[i].value in Used(a[..j]);
    }
  }

  /** An expectation stays unmet only when every candidate it accepts was taken before. */
  lemma {:induction false} Exhausted(expected: seq<Label>, candidates: seq<Label>, i: nat, j: nat) returns (l: nat)
    requires i < |expected| && Greedy(expected, candidates)[i].None?
    requires j < |candidates| && Matches(expected[i], candidates[j])
    ensures l < i && Greedy(expected, candidates)[l] == Some(j)
  {
    hide Greedy, FirstFree, Matches;
    GreedyAt(expected, candidates, i);
    var a := Greedy(expected, candidates);
    assert j in Used(a[..i]);
    l :| 0 <= l < |a[..i]| && a[..i][l].Some? && a[..i][l].value == j;
  }

  // ---------------------------------------------------------------- counting

  /** Distinct candidates for the members of `xs`, all in `ys`. */
  lemma {:induction false} InjectionBound(a: Assignment, xs: set<nat>, ys: set<nat>)
    requires forall i :: i in xs ==> i < |a| && a[i].Some? && a[i].value in ys
    requires forall i, j :: i in xs && j in xs && i != j ==> a[i].value != a[j].value
    ensures |xs| <= |ys|
  {
    if xs != {} {
      var i :| i in xs;
      InjectionBound(a, xs - {i}, ys - {a[i].value});
    }
  }

  /** Every member of `ys` is taken by some member of `xs`. */
  lemma {:induction false} SurjectionBound(a: Assignment, xs: set<nat>, ys: set<nat>)
    requires forall j :: j in ys ==> exists i :: i in xs && i < |a| && a[i] == Some(j)
    ensures |ys| <= |xs|
  {
    if ys != {} {
      var j :| j in ys;
      var i :| i in xs && i < |a| && a[i] == Some(j);
      forall l | l in ys - {j} ensures exists k :: k in xs - {i} && k < |a| && a[k] == Some(l) {
        var k :| k in xs && k < |a| && a[k] == Some(l);
        assert k in xs - {i};
      }
      SurjectionBound(a, xs - {i}, ys - {j});
    }
  }

  ghost function Class<K>(xs: set<nat>, f: nat -> K, k: K): set<nat> { set i | i in xs && f(i) == k }

  /** A set that is no larger in every class is no larger. */
  lemma {:induction false} ClassSum<K>(xs: set<nat>, ys: set<nat>, f: nat -> K)
    requires forall k :: |Class(xs, f, k)| <= |Class(ys, f, k)|
    ensures |xs| <= |ys|
  {
    if xs != {} {
      var i :| i in xs;
      var cx, cy := Class(xs, f, f(i)), Class(ys, f, f(i));
      var xs', ys' := xs - cx, ys - cy;
      forall k ensures |Class(xs', f, k)| <= |Class(ys', f, k)| {
        if k == f(i) {
          assert Class(xs', f, k) == {};
        } else {
          assert Class(xs', f, k) == Class(xs, f, k) && Class(ys', f, k) == Class(ys, f, k);
        }
      }
      assert i in cx && i !in xs';
      ClassSum(xs', ys', f);
      assert |xs'| == |xs| - |cx| && |ys'| == |ys| - |cy|;
      assert |cx| <= |cy|;
    }
  }

  // ---------------------------------------------------------------- when greedy is the best matching

  /** No expectation without a stage stands before one of its kind that has a stage. */
  predicate StagedFirst(expected: seq<Label>) {
    forall i, j :: 0 <= i < j < |expected| && expected[i].kind == expected[j].kind && expected[i].stage.None? ==>
      expected[j].stage.None?
  }

  function KindOf(expected: seq<Label>): nat -> string { (i: nat) => if i < |expected| then expected[i].kind else "" }

  function LabelAt(expected: seq<Label>): nat -> Label
  {
    (i: nat) => if i < |expected| then expected[i] else Label("", None)
  }

  function Accepting(e: Label, candidates: seq<Label>): set<nat>
  {
    set j | 0 <= j < |candidates| && Matches(e, candidates[j])
  }

  /**
   A class of expectations that all accept exactly what `e` accepts cannot beat greedy once greedy
   has run out for `e`.
   */
  lemma {:induction false} ClassExhausted(
      expected: seq<Label>, candidates: seq<Label>, b: Assignment, e: Label, met: set<nat>, greedyMet: set<nat>)
    requires Valid(b, expected, candidates) && met <= Met(b)
    requires forall i :: i in met ==>
      forall j :: 0 <= j < |candidates| && Matches(expected[i], candidates[j]) ==> Matches(e, candidates[j])
    requires forall j :: j in Accepting(e, candidates) ==>
      exists l :: l in greedyMet && l < |expected| && Greedy(expected, candidates)[l] == Some(j)
    ensures |met| <= |greedyMet|
  {
    hide Greedy, Matches;
    InjectionBound(b, met, Accepting(e, candidates));
    SurjectionBound(Greedy(expected, candidates), greedyMet, Accepting(e, candidates));
  }

  /**
   One kind of expectations, when some expectation of the kind without a stage stays unmet: every
   candidate of the kind is taken.
   */
  lemma {:induction false} KindExhausted(expected: seq<Label>, candidates: seq<Label>, b: Assignment, u: nat)
    requires Valid(b, expected, candidates)
    requires u < |expected| && expected[u].stage.None? && Greedy(expected, candidates)[u].None?
    ensures var k, f := expected[u].kind, KindOf(expected);
      |Class(Met(b), f, k)| <= |Class(Met(Greedy(expected, candidates)), f, k)|
  {
    hide Greedy;
    var g := Greedy(expected, candidates);
    var k, f := expected[u].kind, KindOf(expected);
    GreedyValid(expected, candidates);
    forall j | j in Accepting(expected[u], candidates)
      ensures exists l :: l in Class(Met(g), f, k) && l < |expected| && g[l] == Some(j)
    {
      var l := Exhausted(expected, candidates, u, j);
      assert l in Class(Met(g), f, k);
    }
    ClassExhausted(expected, candidates, b, expected[u], Class(Met(b), f, k), Class(Met(g), f, k));
  }

  /** One label of a kind whose stageless expectations are all met. */
  lemma {:induction false} LabelClass(expected: seq<Label>, candidates: seq<Label>, b: Assignment, e: Label)
    requires StagedFirst(expected) && Valid(b, expected, candidates)
    requires forall u :: 0 <= u < |expected| && expected[u] == Label(e.kind, None) ==>
      Greedy(expected, candidates)[u].Some?
    ensures var f := LabelAt(expected); |Class(Met(b), f, e)| <= |Class(Met(Greedy(expected, candidates)), f, e)|
  {
    hide Greedy;
    var g, f := Greedy(expected, candidates), LabelAt(expected);
    GreedyValid(expected, candidates);
    var xs, ys := Class(Met(b), f, e), Class(Met(g), f, e);
    if u :| 0 <= u < |expected| && expected[u] == e && g[u].None? {
      // greedy ran out of candidates with this stage, and only this label can have taken them
      forall j | j in Accepting(e, candidates) ensures exists l :: l in ys && l < |expected| && g[l] == Some(j) {
        var l := Exhausted(expected, candidates, u, j);
        assert expected[l].kind == e.kind && expected[l].stage.Some?;
        assert l in ys;
      }
      ClassExhausted(expected, candidates, b, e, xs, ys);
    } else {
      assert xs <= ys;
      SubsetSize(xs, ys);
    }
  }

  lemma {:induction false} SubsetSize<T>(xs: set<T>, ys: set<T>)
    requires xs <= ys
    ensures |xs| <= |ys|
  {
    assert ys == xs + (ys - xs);
  }

  lemma {:induction false} KindClass(expected: seq<Label>, candidates: seq<Label>, b: Assignment, k: string)
    requires StagedFirst(expected) && Valid(b, expected, candidates)
    ensures var f := KindOf(expected); |Class(Met(b), f, k)| <= |Class(Met(Greedy(expected, candidates)), f, k)|
  {
    hide Greedy, Valid, StagedFirst;
    var g, f, h := Greedy(expected, candidates), KindOf(expected), LabelAt(expected);
    if u :| 0 <= u < |expected| && expected[u] == Label(k, None) && g[u].None? {
      KindExhausted(expected, candidates, b, u);
    } else {
      var xs, ys := Class(Met(b), f, k), Class(Met(g), f, k);
      assert |b| == |expected| by { LengthOf(expected, candidates, b); }
      forall e ensures |Class(xs, h, e)| <= |Class(ys, h, e)| {
        if e.kind == k {
          LabelClass(expected, candidates, b, e);
          assert Class(xs, h, e) == Class(Met(b), h, e) && Class(ys, h, e) == Class(Met(g), h, e);
        } else {
          assert Class(xs, h, e) == {};
        }
      }
      ClassSum(xs, ys, h);
    }
  }

  lemma {:induction false} LengthOf(expected: seq<Label>, candidates: seq<Label>, b: Assignment)
    requires Valid(b, expected, candidates)
    ensures |b| == |expected|
  {
  }

  /** With staged expectations first, no matching meets more expectations than the greedy one. */
  lemma {:induction false} GreedyIsMaximum(expected: seq<Label>, candidates: seq<Label>, b: Assignment)
    requires StagedFirst(expected) && Valid(b, expected, candidates)
    ensures |Met(b)| <= |Met(Greedy(expected, candidates))|
  {
    hide Greedy, Valid, StagedFirst;
    forall k
      ensures |Class(Met(b), KindOf(expected), k)| <= |Class(Met(Greedy(expected, candidates)), KindOf(expected), k)|
    {
      KindClass(expected, candidates, b, k);
    }
    ClassSum(Met(b), Met(Greedy(expected, candidates)), KindOf(expected));
  }

  /** On candidates that start as a copy of the expectations, each takes its own copy. */
  lemma {:induction false} GreedyIdentity(expected: seq<Label>, candidates: seq<Label>, m: nat)
    requires m <= |expected| && m <= |candidates| && expected[..m] == candidates[..m]
    ensures forall p :: 0 <= p < m ==> Greedy(expected, candidates)[p] == Some(p)
  {
    hide Greedy, FirstFree;
    if m > 0 {
      var n := m - 1;
      assert expected[..n] == expected[..m][..n] == candidates[..m][..n] == candidates[..n];
      GreedyIdentity(expected, candidates, n);
      GreedyAt(expected, candidates, n);
      UsedPrefix(Greedy(expected, candidates), n);
      assert expected[n] == expected[..m][n] == candidates[..m][n] == candidates[n];
      assert Matches(expected[n], candidates[n]) && n !in Used(Greedy(expected, candidates)[..n]);
    }
  }

  lemma {:induction false} UsedPrefix(a: Assignment, m: nat)
    requires m <= |a| && forall p :: 0 <= p < m ==> a[p] == Some(p)
    ensures forall j: nat :: j in Used(a[..m]) <==> j < m
  {
    forall j: nat | j < m ensures j in Used(a[..m]) {
      assert a[..m][j] == Some(j);
    }
  }

  function Swapped(s: seq<Label>, u: nat, j: nat): seq<Label>
    requires u < |s| && j < |s|
  {
    s[u := s[j]][j := s[u]]
  }

  function Staged(s: seq<Label>): set<nat> { set i | 0 <= i < |s| && s[i].stage.Some? }

  /** Every expectation takes its own label, found where the swap put it. */
  function SwapBack(n: nat, u: nat, j: nat): (b: Assignment) {
    seq(n, (p: nat) requires p < n => Some(if p == u then j else if p == j then u else p))
  }

  lemma {:induction false} SwapBackMeetsAll(expected: seq<Label>, u: nat, j: nat)
    requires u < j < |expected|
    ensures Valid(SwapBack(|expected|, u, j), expected, Swapped(expected, u, j))
    ensures |Met(SwapBack(|expected|, u, j))| == |expected|
  {
    var b, candidates := SwapBack(|expected|, u, j), Swapped(expected, u, j);
    forall p | 0 <= p < |expected|
      ensures b[p].Some? && b[p].value < |candidates| && candidates[b[p].value] == expected[p]
    {
    }
    OwnLabels(b, expected, candidates);
    AllMet(b);
  }

  lemma {:induction false} OwnLabels(b: Assignment, expected: seq<Label>, candidates: seq<Label>)
    requires |b| == |expected|
    requires forall p :: 0 <= p < |b| ==>
      b[p].Some? && b[p].value < |candidates| && candidates[b[p].value] == expected[p]
    requires forall p, q :: 0 <= p < q < |b| ==> b[p] != b[q]
    ensures Valid(b, expected, candidates)
  {
  }

  lemma {:induction false} AllMet(b: Assignment)
    requires forall p :: 0 <= p < |b| ==> b[p].Some?
    ensures |Met(b)| == |b|
  {
    assert Met(b) == Below(|b|);
  }

  function Below(n: nat): (xs: set<nat>)
    ensures forall i: nat :: i in xs <==> i < n
    ensures |xs| == n
  {
    if n == 0 then {} else Below(n - 1) + {n - 1}
  }

  /** The expectation out of place takes the staged candidate standing at its own position. */
  lemma {:induction false} TakesSwapped(expected: seq<Label>, u: nat, j: nat)
    requires u < j < |expected| && expected[u].kind == expected[j].kind && expected[u].stage.None?
    ensures Greedy(expected, Swapped(expected, u, j))[u] == Some(u)
  {
    hide Greedy, FirstFree;
    var candidates := Swapped(expected, u, j);
    var g := Greedy(expected, candidates);
    assert expected[..u] == candidates[..u];
    GreedyIdentity(expected, candidates, u);
    GreedyAt(expected, candidates, u);
    UsedPrefix(g, u);
    assert Matches(expected[u], candidates[u]);
  }

  lemma {:induction false} SwapKeepsStaged(expected: seq<Label>, u: nat, j: nat)
    requires u < j < |expected|
    ensures |Staged(Swapped(expected, u, j))| <= |Staged(expected)|
  {
    var candidates, b := Swapped(expected, u, j), SwapBack(|expected|, u, j);
    forall c | c in Staged(candidates) ensures exists p :: p in Staged(expected) && p < |b| && b[p] == Some(c) {
      var p := if c == u then j else if c == j then u else c;
      assert b[p] == Some(c) && p in Staged(expected);
    }
    SurjectionBound(b, Staged(expected), Staged(candidates));
  }

  /** A matching that meets everything gives every staged expectation a staged candidate, and leaves none over. */
  lemma {:induction false} NoneLeftOver(a: Assignment, expected: seq<Label>, candidates: seq<Label>, u: nat)
    requires Valid(a, expected, candidates) && |Met(a)| >= |expected| && u < |expected| && expected[u].stage.None?
    requires a[u].Some? && a[u].value < |candidates| && candidates[a[u].value].stage.Some?
    ensures |Staged(expected)| < |Staged(candidates)|
  {
    hide Matches, Valid, Met;
    forall i | i in Staged(expected) ensures i < |a| && a[i].Some? && a[i].value in Staged(candidates) {
      StagedTaken(a, expected, candidates, i);
    }
    assert u !in Staged(expected);
    NoneTwice(a, expected, candidates);
    InjectionBound(a, Staged(expected) + {u}, Staged(candidates));
  }

  lemma {:induction false} NoneTwice(a: Assignment, expected: seq<Label>, candidates: seq<Label>)
    requires Valid(a, expected, candidates)
    ensures |a| == |expected|
    ensures forall i, j :: 0 <= i < |a| && 0 <= j < |a| && i != j && a[i].Some? && a[j].Some? ==>
      a[i].value != a[j].value
  {
  }

  lemma {:induction false} StagedTaken(a: Assignment, expected: seq<Label>, candidates: seq<Label>, i: nat)
    requires Valid(a, expected, candidates) && |Met(a)| >= |expected| && i in Staged(expected)
    ensures i < |a| && a[i].Some? && a[i].value in Staged(candidates)
  {
    assert Met(a) <= Below(|expected|);
    SubsetEqual(Met(a), Below(|expected|));
    assert i in Met(a);
  }

  /** An expectation without a stage that comes too early takes the candidate a later one needs. */
  lemma {:induction false} GreedySteals(expected: seq<Label>, u: nat, j: nat)
    requires u < j < |expected| && expected[u].kind == expected[j].kind
    requires expected[u].stage.None? && expected[j].stage.Some?
    ensures |Met(Greedy(expected, Swapped(expected, u, j)))| < |expected|
  {
    hide Greedy, Valid, Met, Staged;
    var candidates := Swapped(expected, u, j);
    GreedyValid(expected, candidates);
    TakesSwapped(expected, u, j);
    SwapKeepsStaged(expected, u, j);
    if |Met(Greedy(expected, candidates))| >= |expected| {
      NoneLeftOver(Greedy(expected, candidates), expected, candidates, u);
    }
  }

  lemma {:induction false} SubsetEqual<T>(xs: set<T>, ys: set<T>)
    requires xs <= ys && |xs| >= |ys|
    ensures xs == ys
  {
    assert ys == xs + (ys - xs);
    assert |ys - xs| == 0;
  }

  /**
   Exactly when greedy is the best possible: for every list of candidates no matching beats it,
   if and only if no expectation without a stage precedes one of its kind with a stage.
   */
  lemma {:induction false} GreedyIsMaximumIff(expected: seq<Label>)
    ensures StagedFirst(expected) <==>
      forall candidates, b :: Valid(b, expected, candidates) ==> |Met(b)| <= |Met(Greedy(expected, candidates))|
  {
    hide Greedy, Valid;
    if StagedFirst(expected) {
      forall candidates, b | Valid(b, expected, candidates) ensures |Met(b)| <= |Met(Greedy(expected, candidates))| {
        GreedyIsMaximum(expected, candidates, b);
      }
    } else {
      var u, j :| 0 <= u < j < |expected| && expected[u].kind == expected[j].kind && expected[u].stage.None?
        && expected[j].stage.Some?;
      SwapBackMeetsAll(expected, u, j);
      GreedySteals(expected, u, j);
    }
  }

  // ---------------------------------------------------------------- how many expectations greedy meets

  function Where<K(==)>(keys: seq<K>, k: K): set<nat> { set i | 0 <= i < |keys| && keys[i] == k }

  lemma {:induction false} WhereCount<K>(keys: seq<K>, k: K)
    ensures |Where(keys, k)| == multiset(keys)[k]
  {
    if keys != [] {
      var n := |keys| - 1;
      WhereCount(keys[..n], k);
      assert keys == keys[..n] + [keys[n]];
      if keys[n] == k {
        assert Where(keys, k) == Where(keys[..n], k) + {n};
      } else {
        assert Where(keys, k) == Where(keys[..n], k);
      }
    }
  }

  /** Matching is equality of keys: so it is when all expectations have a stage, or none has. */
  predicate ByKey<K(==)>(expected: seq<Label>, candidates: seq<Label>, ke: seq<K>, kc: seq<K>) {
    |ke| == |expected| && |kc| == |candidates|
    && forall i, j :: 0 <= i < |expected| && 0 <= j < |candidates| ==>
      (Matches(expected[i], candidates[j]) <==> ke[i] == kc[j])
  }

  /** An expectation is met exactly when its key was expected less often before than it is on offer. */
  lemma {:induction false} MetWhen<K>(expected: seq<Label>, candidates: seq<Label>, ke: seq<K>, kc: seq<K>, i: nat)
    requires ByKey(expected, candidates, ke, kc) && i < |expected|
    ensures Greedy(expected, candidates)[i].Some? <==> multiset(ke[..i])[ke[i]] < multiset(kc)[ke[i]]
  {
    hide Greedy, FirstFree, Matches;
    var g := Greedy(expected, candidates);
    GreedyValid(expected, candidates);
    var before, offered := Where(ke[..i], ke[i]), Where(kc, ke[i]);
    WhereCount(ke[..i], ke[i]);
    WhereCount(kc, ke[i]);
    if g[i].None? {
      forall j | j in offered ensures exists l :: l in before && l < |g| && g[l] == Some(j) {
        var l := Exhausted(expected, candidates, i, j);
        assert ke[..i][l] == ke[i];
      }
      SurjectionBound(g, before, offered);
    } else {
      forall l | l in before ensures g[l].Some? {
        assert ke[l] == ke[..i][l] == ke[i];
        if g[l].None? {
          var l' := Exhausted(expected, candidates, l, g[i].value);
        }
      }
      assert i !in before;
      InjectionBound(g, before + {i}, offered);
    }
  }

  lemma {:induction false} SharedStep<K>(s: seq<K>, k: K, m: multiset<K>)
    ensures |multiset(s + [k]) * m| == |multiset(s) * m| + if multiset(s)[k] < m[k] then 1 else 0
  {
    if multiset(s)[k] < m[k] {
      assert multiset(s + [k]) * m == multiset(s) * m + multiset{k};
    } else {
      assert multiset(s + [k]) * m == multiset(s) * m;
    }
  }

  /**
   The number of expectations met is, summed over the keys, the smaller of how often the key is
   expected and how often it is reported; it cannot depend on the order of either list.
   */
  lemma {:induction false} GreedyCount<K>(expected: seq<Label>, candidates: seq<Label>, ke: seq<K>, kc: seq<K>)
    requires ByKey(expected, candidates, ke, kc)
    ensures |Met(Greedy(expected, candidates))| == |multiset(ke) * multiset(kc)|
  {
    hide Greedy, Matches;
    var g := Greedy(expected, candidates);
    if expected == [] {
      assert Met(g) == {} && multiset(ke) == multiset{};
    } else {
      var n := |expected| - 1;
      GreedyCount(expected[..n], candidates, ke[..n], kc);
      GreedyAt(expected, candidates, n);
      MetWhen(expected, candidates, ke, kc, n);
      assert ke == ke[..n] + [ke[n]];
      SharedStep(ke[..n], ke[n], multiset(kc));
      MetSnoc(g);
    }
  }

  lemma {:induction false} MetSnoc(a: Assignment)
    requires a != []
    ensures var n := |a| - 1; |Met(a)| == |Met(a[..n])| + if a[n].Some? then 1 else 0
  {
    var n := |a| - 1;
    if a[n].Some? {
      assert Met(a) == Met(a[..n]) + {n};
    } else {
      assert Met(a) == Met(a[..n]);
    }
  }

  // ---------------------------------------------------------------- more candidates

  /** Candidates added at the end never rebind an expectation that was met. */
  lemma {:induction false} AppendKeepsMet(expected: seq<Label>, candidates: seq<Label>, more: seq<Label>, m: nat)
    requires m <= |expected|
    ensures var g, g' := Greedy(expected, candidates), Greedy(expected, candidates + more);
      forall i :: 0 <= i < m ==> (if g[i].Some? then g'[i] == g[i] else g'[i].Some? ==> g'[i].value >= |candidates|)
  {
    hide Greedy, FirstFree, Matches;
    if m > 0 {
      var i := m - 1;
      AppendKeepsMet(expected, candidates, more, i);
      var g, g' := Greedy(expected, candidates), Greedy(expected, candidates + more);
      GreedyAt(expected, candidates, i);
      GreedyAt(expected, candidates + more, i);
      assert forall j :: 0 <= j < |candidates| ==> (candidates + more)[j] == candidates[j];
      forall j: nat | j < |candidates| ensures j in Used(g'[..i]) <==> j in Used(g[..i]) {
        if j in Used(g'[..i]) {
          var l :| 0 <= l < i && g'[..i][l].Some? && g'[..i][l].value == j;
          assert g[..i][l] == Some(j);
        }
        if j in Used(g[..i]) {
          var l :| 0 <= l < i && g[..i][l].Some? && g[..i][l].value == j;
          assert g'[..i][l] == Some(j);
        }
      }
    }
  }
}
