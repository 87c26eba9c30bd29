/**
 How far order-preserving jitter can change the verdict of an ordering rule, scope group by scope
 group (eventweave/compiler/jitter.py:39-62 with eventweave/compiler/rules.py:58-104).
 */
module RuleLimits {
  import opened Common
  import opened Events
  import opened Rng
  import opened Jitter
  import opened Interleavings
  import opened Rules

  /** The events of one scope. */
  function GroupOf(scope: Option<string>, k: string, plan: seq<Event>): seq<Event> { Filter(InScope(scope, k), plan) }

  /** `event_before` when `last`, else `event_after`: kind `a` needs kind `b` on that side. */
  function OrderRule(last: bool, a: Option<string>, b: Option<string>, scope: Option<string>): Rule {
    if last then EventBefore(a, b, scope) else EventAfter(a, b, scope)
  }

  function Reverse(s: seq<Event>): (r: seq<Event>)
    ensures |r| == |s| && forall i :: 0 <= i < |s| ==> r[i] == s[|s| - 1 - i]
  {
    seq(|s|, i requires 0 <= i < |s| => s[|s| - 1 - i])
  }

  /** The sequence seen from the side the rule asks about. */
  function Turn(last: bool, s: seq<Event>): seq<Event> { if last then Reverse(s) else s }

  /** Of the first event of kind `a` or `b`: whether it is of kind `a`. */
  function Lead(s: seq<Event>, a: Option<string>, b: Option<string>): Option<bool> {
    if s == [] then None
    else if IsKind(s[0], a) then Some(true)
    else if IsKind(s[0], b) then Some(false)
    else Lead(s[1..], a, b)
  }

  /** Which of the two kinds stands outermost, on the side the rule asks about. */
  function Outer(last: bool, s: seq<Event>, a: Option<string>, b: Option<string>): Option<bool> {
    Lead(Turn(last, s), a, b)
  }

  /** All flows of the group that hold one of the kinds agree on which of them stands outermost. */
  ghost predicate Agree(last: bool, g: seq<Event>, a: Option<string>, b: Option<string>) {
    forall f, h :: Outer(last, Filter(InFlow(f), g), a, b).Some? && Outer(last, Filter(InFlow(h), g), a, b).Some?
      ==> Outer(last, Filter(InFlow(f), g), a, b) == Outer(last, Filter(InFlow(h), g), a, b)
  }

  // ---------------------------------------------------------------- verdicts and outermost events

  lemma {:induction false} LeadAt(s: seq<Event>, a: Option<string>, b: Option<string>) returns (i: nat)
    ensures Lead(s, a, b).None? ==> forall j :: 0 <= j < |s| ==> !IsKind(s[j], a) && !IsKind(s[j], b)
    ensures Lead(s, a, b).Some? ==>
      i < |s| && (Lead(s, a, b).value <==> IsKind(s[i], a)) && (IsKind(s[i], a) || IsKind(s[i], b))
      && forall j :: 0 <= j < i ==> !IsKind(s[j], a) && !IsKind(s[j], b)
  {
    i := 0;
    if s != [] && !IsKind(s[0], a) && !IsKind(s[0], b) {
      var l := LeadAt(s[1..], a, b);
      assert forall j :: 0 < j < |s| ==> s[j] == s[1..][j - 1];
      i := l + 1;
    }
  }

  /** A group meets the rule exactly unless an event of kind `a` stands outermost. */
  lemma {:induction false} OuterDecides(
      last: bool, g: seq<Event>, a: Option<string>, b: Option<string>, scope: Option<string>)
    ensures GroupOk(OrderRule(last, a, b, scope), g) <==> Outer(last, g, a, b) != Some(true)
  {
    var t, rule := Turn(last, g), OrderRule(last, a, b, scope);
    var i := LeadAt(t, a, b);
    if Lead(t, a, b) == Some(true) {
      var p := if last then |g| - 1 - i else i;
      assert g[p] == t[i];
      forall j | if last then p < j < |g| else 0 <= j < p ensures !IsKind(g[j], b) {
        assert g[j] == t[if last then |g| - 1 - j else j];
      }
      assert !MetAt(rule, g, p);
    } else {
      forall p | 0 <= p < |g| ensures MetAt(rule, g, p) {
        if IsKind(g[p], a) {
          var q := if last then |g| - 1 - p else p;
          assert t[q] == g[p];
          assert i < q;
          var w := if last then |g| - 1 - i else i;
          assert g[w] == t[i] && IsKind(g[w], b);
        }
      }
    }
  }

  lemma {:induction false} LeadAppend(s: seq<Event>, t: seq<Event>, a: Option<string>, b: Option<string>)
    ensures Lead(s + t, a, b) == if Lead(s, a, b).Some? then Lead(s, a, b) else Lead(t, a, b)
  {
    if s == [] {
      assert s + t == t;
    } else {
      assert (s + t)[1..] == s[1..] + t;
      LeadAppend(s[1..], t, a, b);
    }
  }

  lemma {:induction false} LeadStrip(s: seq<Event>, t: seq<Event>, a: Option<string>, b: Option<string>)
    requires StripAll(s) == StripAll(t)
    ensures Lead(s, a, b) == Lead(t, a, b)
  {
    assert |StripAll(s)| == |StripAll(t)|;
    if s != [] {
      assert StripAll(s)[0] == StripAll(t)[0];
      assert StripAll(s[1..]) == StripAll(s)[1..] == StripAll(t)[1..] == StripAll(t[1..]);
      LeadStrip(s[1..], t[1..], a, b);
    }
  }

  /** What leads leads in its own flow; what leads in a flow is behind nothing that does not lead. */
  lemma {:induction false} LeadOfFlow(s: seq<Event>, a: Option<string>, b: Option<string>) returns (f: Option<string>)
    ensures Lead(s, a, b).Some? ==> Lead(Filter(InFlow(f), s), a, b) == Lead(s, a, b)
    ensures Lead(s, a, b).None? ==> forall h :: Lead(Filter(InFlow(h), s), a, b).None?
  {
    f := None;
    if s != [] {
      var g := LeadOfFlow(s[1..], a, b);
      f := if IsKind(s[0], a) || IsKind(s[0], b) then s[0].flow else g;
      forall h ensures Filter(InFlow(h), s) == (if h == s[0].flow then [s[0]] else []) + Filter(InFlow(h), s[1..]) {
        assert [] + Filter(InFlow(h), s[1..]) == Filter(InFlow(h), s[1..]);
      }
      forall h ensures Lead(Filter(InFlow(h), s), a, b)
                    == if h == s[0].flow && Lead([s[0]], a, b).Some? then Lead([s[0]], a, b)
                       else Lead(Filter(InFlow(h), s[1..]), a, b)
      {
        LeadAppend(if h == s[0].flow then [s[0]] else [], Filter(InFlow(h), s[1..]), a, b);
        assert [s[0]][1..] == [];
      }
      assert [s[0]][1..] == [];
    }
  }

  // ---------------------------------------------------------------- both sides at once

  lemma {:induction false} FilterReverse(p: Event -> bool, s: seq<Event>)
    ensures Filter(p, Reverse(s)) == Reverse(Filter(p, s))
  {
    if s == [] {
      assert Reverse(s) == [] && Reverse(Filter(p, s)) == [];
    } else {
      FilterReverse(p, s[1..]);
      assert Reverse(s) == Reverse(s[1..]) + [s[0]];
      FilterAppend(p, Reverse(s[1..]), [s[0]]);
      assert [s[0]][1..] == [];
      var rest := Filter(p, s[1..]);
      if p(s[0]) {
        assert Reverse([s[0]] + rest) == Reverse(rest) + [s[0]];
      } else {
        assert Reverse(rest) + [] == Reverse(rest);
      }
    }
  }

  lemma {:induction false} TurnFilter(last: bool, p: Event -> bool, s: seq<Event>)
    ensures Filter(p, Turn(last, s)) == Turn(last, Filter(p, s))
  {
    FilterReverse(p, s);
  }

  lemma {:induction false} OuterOfFlow(last: bool, g: seq<Event>, a: Option<string>, b: Option<string>)
    returns (f: Option<string>)
    ensures Outer(last, g, a, b).Some? ==> Outer(last, Filter(InFlow(f), g), a, b) == Outer(last, g, a, b)
    ensures Outer(last, g, a, b).None? ==> forall h :: Outer(last, Filter(InFlow(h), g), a, b).None?
  {
    hide Lead, Turn;
    f := LeadOfFlow(Turn(last, g), a, b);
    forall h ensures Filter(InFlow(h), Turn(last, g)) == Turn(last, Filter(InFlow(h), g)) {
      TurnFilter(last, InFlow(h), g);
    }
  }

  lemma {:induction false} OuterStrip(last: bool, g: seq<Event>, h: seq<Event>, a: Option<string>, b: Option<string>)
    requires StripAll(g) == StripAll(h)
    ensures Outer(last, g, a, b) == Outer(last, h, a, b)
  {
    assert |StripAll(g)| == |StripAll(h)|;
    assert forall i :: 0 <= i < |g| ==> StripAll(g)[i] == StripAll(h)[i];
    assert StripAll(Turn(last, g)) == StripAll(Turn(last, h));
    LeadStrip(Turn(last, g), Turn(last, h), a, b);
  }

  // ---------------------------------------------------------------- flows inside a group

  lemma {:induction false} FilterSwap(p: Event -> bool, q: Event -> bool, s: seq<Event>)
    ensures Filter(p, Filter(q, s)) == Filter(q, Filter(p, s))
  {
    if s != [] {
      FilterSwap(p, q, s[1..]);
      if p(s[0]) {
        assert ([s[0]] + Filter(p, s[1..]))[1..] == Filter(p, s[1..]);
      }
      if q(s[0]) {
        assert ([s[0]] + Filter(q, s[1..]))[1..] == Filter(q, s[1..]);
      }
    }
  }

  /** The part of a scope group in one flow holds the same events, in the same order, whatever is drawn. */
  lemma {:induction false} FlowPart(
      scope: Option<string>, k: string, f: Option<string>, events: seq<Event>, m: nat, rng: Stream)
    ensures StripAll(Filter(InFlow(f), GroupOf(scope, k, Jittered(events, m, rng))))
         == StripAll(Filter(InFlow(f), GroupOf(scope, k, Sort(events))))
  {
    hide Sort, Apply, Filter, ScopeKey;
    var p := InScope(scope, k);
    FlowOrderPreserved(f, Some(JitterConfig(true, m, true)), events, rng);
    FlowPartOf(scope, k, f, Jittered(events, m, rng));
    FlowPartOf(scope, k, f, Sort(events));
  }

  lemma {:induction false} FlowPartOf(scope: Option<string>, k: string, f: Option<string>, s: seq<Event>)
    ensures StripAll(Filter(InFlow(f), GroupOf(scope, k, s)))
      == Filter(InScope(scope, k), StripAll(Filter(InFlow(f), s)))
  {
    FilterSwap(InFlow(f), InScope(scope, k), s);
    FilterMap(InScope(scope, k), Strip, Filter(InFlow(f), s));
  }

  /** Agreement decides: the outermost kind of the group is the same before and after. */
  lemma {:induction false} AgreedOuter(
      last: bool, a: Option<string>, b: Option<string>, scope: Option<string>, k: string, events: seq<Event>,
      m: nat, rng: Stream)
    requires Agree(last, GroupOf(scope, k, Sort(events)), a, b)
    ensures Outer(last, GroupOf(scope, k, Jittered(events, m, rng)), a, b)
         == Outer(last, GroupOf(scope, k, Sort(events)), a, b)
  {
    hide Sort, Jittered, GroupOf, Outer;
    var before, after := GroupOf(scope, k, Sort(events)), GroupOf(scope, k, Jittered(events, m, rng));
    var f := OuterOfFlow(last, before, a, b);
    var h := OuterOfFlow(last, after, a, b);
    forall l ensures Outer(last, Filter(InFlow(l), after), a, b) == Outer(last, Filter(InFlow(l), before), a, b) {
      FlowPart(scope, k, l, events, m, rng);
      OuterStrip(last, Filter(InFlow(l), after), Filter(InFlow(l), before), a, b);
    }
  }

  // ---------------------------------------------------------------- the exact limit

  lemma {:induction false} SameGroup(scope: Option<string>, k: string, s: seq<Event>, t: seq<Event>)
    requires StripAll(s) == StripAll(t)
    ensures StripAll(GroupOf(scope, k, s)) == StripAll(GroupOf(scope, k, t))
  {
    hide Filter;
    FilterMap(InScope(scope, k), Strip, s);
    FilterMap(InScope(scope, k), Strip, t);
  }

  /** A flow pushed to the rule's side decides the group. */
  lemma {:induction false} PushDecides(
      last: bool, a: Option<string>, b: Option<string>, scope: Option<string>, k: string, events: seq<Event>,
      f: Option<string>)
    returns (m: nat, rng: Stream)
    requires Outer(last, Filter(InFlow(f), GroupOf(scope, k, Sort(events))), a, b).Some?
    ensures Outer(last, GroupOf(scope, k, Jittered(events, m, rng)), a, b)
         == Outer(last, Filter(InFlow(f), GroupOf(scope, k, Sort(events))), a, b)
  {
    hide Sort, Jittered, Lead, Turn, Filter;
    var front: Option<string> -> bool := (h: Option<string>) => (h == f) == !last;
    var early, late := (e: Event) => front(e.flow), (e: Event) => !front(e.flow);
    var q := Front(events, front);
    FrontInterleaves(events, front);
    m, rng := EveryInterleaving(events, q);
    var g, s := GroupOf(scope, k, q), GroupOf(scope, k, Sort(events));
    FilterAppend(InScope(scope, k), Filter(early, Sort(events)), Filter(late, Sort(events)));
    FilterSwap(InScope(scope, k), early, Sort(events));
    FilterSwap(InScope(scope, k), late, Sort(events));
    SideOf(last, f, s, early, late, a, b);
    SameGroup(scope, k, Jittered(events, m, rng), q);
    OuterStrip(last, GroupOf(scope, k, Jittered(events, m, rng)), g, a, b);
  }

  /** If the flow is moved to the rule's side of the group, its outermost event is the group's. */
  lemma {:induction false} SideOf(
      last: bool, f: Option<string>, g: seq<Event>, early: Event -> bool, late: Event -> bool,
      a: Option<string>, b: Option<string>)
    requires forall e :: early(e) == ((e.flow == f) == !last) && late(e) == !early(e)
    requires Outer(last, Filter(InFlow(f), g), a, b).Some?
    ensures Outer(last, Filter(early, g) + Filter(late, g), a, b) == Outer(last, Filter(InFlow(f), g), a, b)
  {
    hide Lead, Filter;
    var own := Filter(InFlow(f), g);
    if last {
      SameFilter(late, InFlow(f), g);
      var others := Filter(early, g);
      assert Reverse(others + own) == Reverse(own) + Reverse(others);
      LeadAppend(Reverse(own), Reverse(others), a, b);
    } else {
      SameFilter(early, InFlow(f), g);
      LeadAppend(own, Filter(late, g), a, b);
    }
  }

  lemma {:induction false} SameFilter(p: Event -> bool, q: Event -> bool, s: seq<Event>)
    requires forall e :: p(e) == q(e)
    ensures Filter(p, s) == Filter(q, s)
  {
    if s != [] {
      SameFilter(p, q, s[1..]);
    }
  }

  /**
   Exactly when jitter cannot touch an ordering rule: a scope group keeps its verdict for every
   offset limit and all draws, if and only if the flows that hold one of the rule's kinds agree on
   which of the two stands outermost.
   */
  lemma {:induction false} VerdictKeptIff(
      last: bool, a: Option<string>, b: Option<string>, scope: Option<string>, k: string, events: seq<Event>)
    ensures var rule, before := OrderRule(last, a, b, scope), GroupOf(scope, k, Sort(events));
      (forall m, rng :: GroupOk(rule, GroupOf(scope, k, Jittered(events, m, rng))) <==> GroupOk(rule, before))
      <==> Agree(last, before, a, b)
  {
    hide GroupOk, Outer, Sort, Jittered, GroupOf;
    var rule, before := OrderRule(last, a, b, scope), GroupOf(scope, k, Sort(events));
    OuterDecides(last, before, a, b, scope);
    if Agree(last, before, a, b) {
      forall m, rng ensures GroupOk(rule, GroupOf(scope, k, Jittered(events, m, rng))) <==> GroupOk(rule, before) {
        AgreedOuter(last, a, b, scope, k, events, m, rng);
        OuterDecides(last, GroupOf(scope, k, Jittered(events, m, rng)), a, b, scope);
      }
    } else {
      var f, h :| Outer(last, Filter(InFlow(f), before), a, b).Some?
        && Outer(last, Filter(InFlow(h), before), a, b).Some?
        && Outer(last, Filter(InFlow(f), before), a, b) != Outer(last, Filter(InFlow(h), before), a, b);
      var m, rng := PushDecides(last, a, b, scope, k, events, f);
      var m', rng' := PushDecides(last, a, b, scope, k, events, h);
      OuterDecides(last, GroupOf(scope, k, Jittered(events, m, rng)), a, b, scope);
      OuterDecides(last, GroupOf(scope, k, Jittered(events, m', rng')), a, b, scope);
      var o, q := Outer(last, Filter(InFlow(f), before), a, b), Outer(last, Filter(InFlow(h), before), a, b);
      assert o == Some(o.value) && q == Some(q.value) && o.value != q.value;
      assert GroupOk(rule, GroupOf(scope, k, Jittered(events, m, rng)))
          != GroupOk(rule, GroupOf(scope, k, Jittered(events, m', rng')));
    }
  }

  /**
   The same for a whole plan that meets the rule: jitter can never make it fail exactly if every
   scope group agrees.
   */
  lemma {:induction false} PassingStaysIff(
      last: bool, a: Option<string>, b: Option<string>, scope: Option<string>, events: seq<Event>)
    requires Verdict(OrderRule(last, a, b, scope), Sort(events))
    ensures (forall m, rng :: Verdict(OrderRule(last, a, b, scope), Jittered(events, m, rng)))
      <==> forall k :: Agree(last, GroupOf(scope, k, Sort(events)), a, b)
  {
    hide GroupOk, Sort, Jittered, Agree;
    var rule := OrderRule(last, a, b, scope);
    forall k ensures GroupOk(rule, GroupOf(scope, k, Sort(events))) {}
    if forall m, rng :: Verdict(rule, Jittered(events, m, rng)) {
      forall k ensures Agree(last, GroupOf(scope, k, Sort(events)), a, b) {
        forall m: nat, rng ensures GroupOk(rule, GroupOf(scope, k, Jittered(events, m, rng))) {
          assert Verdict(rule, Jittered(events, m, rng));
        }
        VerdictKeptIff(last, a, b, scope, k, events);
      }
    }
    if forall k :: Agree(last, GroupOf(scope, k, Sort(events)), a, b) {
      forall m: nat, rng ensures Verdict(rule, Jittered(events, m, rng)) {
        forall k ensures GroupOk(rule, Filter(InScope(rule.scope, k), Jittered(events, m, rng))) {
          assert GroupOk(rule, GroupOf(scope, k, Sort(events)));
          VerdictKeptIff(last, a, b, scope, k, events);
        }
      }
    }
  }

  // ---------------------------------------------------------------- field_lte_ref

  lemma {:induction false} LastRefMember(s: seq<Event>, kind: Option<string>)
    ensures LastRef(s, kind).Some? ==> LastRef(s, kind).value in s && IsKind(LastRef(s, kind).value, kind)
  {
    if s != [] && !IsKind(s[|s| - 1], kind) {
      LastRefMember(s[..|s| - 1], kind);
    }
  }

  /** The last reference event of a flow's part, against that of the whole. */
  lemma {:induction false} LastRefFilter(p: Event -> bool, s: seq<Event>, kind: Option<string>)
    ensures LastRef(Filter(p, s), kind).Some? ==> LastRef(s, kind).Some?
    ensures LastRef(s, kind).Some? && p(LastRef(s, kind).value) ==> LastRef(Filter(p, s), kind) == LastRef(s, kind)
  {
    if s != [] {
      var n := |s| - 1;
      LastRefFilter(p, s[..n], kind);
      assert s == s[..n] + [s[n]];
      FilterAppend(p, s[..n], [s[n]]);
      assert [s[n]][1..] == [];
      var rest := Filter(p, s[..n]);
      assert Filter(p, s) == if p(s[n]) then rest + [s[n]] else rest;
      assert (rest + [s[n]])[..|rest|] == rest;
    }
  }

  /** An event of a sequence, found in its own flow's part. */
  lemma {:induction false} OwnPlace(g: seq<Event>, i: nat) returns (p: nat)
    requires i < |g|
    ensures var part := Filter(InFlow(g[i].flow), g);
      p < |part| && part[p] == g[i] && part[..p] == Filter(InFlow(g[i].flow), g[..i])
  {
    var f := InFlow(g[i].flow);
    assert g == g[..i] + ([g[i]] + g[i + 1..]);
    FilterAppend(f, g[..i], [g[i]] + g[i + 1..]);
    assert ([g[i]] + g[i + 1..])[1..] == g[i + 1..];
    p := |Filter(f, g[..i])|;
  }

  /**
   What makes a scope group safe from jitter: each flow's part alone meets the rule, and for
   field_lte_ref every event is also within the bound of every reference event of another flow.
   */
  ghost predicate SafeGroup(rule: Rule, g: seq<Event>) {
    (forall f :: GroupOk(rule, Filter(InFlow(f), g)))
    && (rule.FieldLteRef? ==> CrossSafe(rule, g))
  }

  /** Every scope group of the plan is safe. */
  ghost predicate Safe(rule: Rule, plan: seq<Event>) {
    forall k :: SafeGroup(rule, GroupOf(rule.scope, k, plan))
  }

  ghost predicate CrossSafe(rule: Rule, g: seq<Event>)
    requires rule.FieldLteRef?
  {
    forall x, y :: x in g && y in g && x.flow != y.flow && IsKind(x, rule.event) && IsKind(y, rule.refEvent) ==>
      AtMost(rule, x, y)
  }

  lemma {:induction false} CrossSafeStrip(rule: Rule, g: seq<Event>, h: seq<Event>)
    requires rule.FieldLteRef? && CrossSafe(rule, g)
    requires forall f :: StripAll(Filter(InFlow(f), g)) == StripAll(Filter(InFlow(f), h))
    ensures CrossSafe(rule, h)
  {
    hide Filter, StripAll;
    forall x, y | x in h && y in h && x.flow != y.flow && IsKind(x, rule.event) && IsKind(y, rule.refEvent)
      ensures AtMost(rule, x, y)
    {
      FindStripped(x.flow, g, h, x);
      FindStripped(y.flow, g, h, y);
      var x', y' :| x' in g && Strip(x') == Strip(x) && y' in g && Strip(y') == Strip(y);
      assert x'.flow == Strip(x').flow && y'.flow == Strip(y').flow;
      assert x'.kind == Strip(x').kind && y'.kind == Strip(y').kind;
      assert AtMost(rule, x', y');
    }
  }

  /** A safe group meets the rule in any order of its flows. */
  lemma {:induction false} SafeIsMet(rule: Rule, g: seq<Event>)
    requires rule.FieldLteRef? && SafeGroup(rule, g)
    ensures GroupOk(rule, g)
  {
    hide Filter, GroupOk, LastRef, AtMost;
    forall i | 0 <= i < |g| ensures MetWith(rule, g[i], LastRef(g[..i], rule.refEvent)) {
      var x, f := g[i], InFlow(g[i].flow);
      var p := OwnPlace(g, i);
      GroupAsRefs(rule, Filter(f, g));
      assert MetWith(rule, x, LastRef(Filter(f, g)[..p], rule.refEvent));
      LastRefFilter(f, g[..i], rule.refEvent);
      LastRefMember(g[..i], rule.refEvent);
      assert forall e :: e in g[..i] ==> e in g;
    }
    GroupAsRefs(rule, g);
  }

  lemma {:induction false} MetInFront(rule: Rule, a: seq<Event>, b: seq<Event>)
    requires rule.FieldLteRef? && GroupOk(rule, a + b)
    ensures GroupOk(rule, a)
  {
    hide GroupOk, LastRef, MetWith;
    GroupAsRefs(rule, a + b);
    GroupAsRefs(rule, a);
    forall i | 0 <= i < |a| ensures MetWith(rule, a[i], LastRef(a[..i], rule.refEvent)) {
      assert (a + b)[..i] == a[..i] && (a + b)[i] == a[i];
    }
  }

  /** A reference event directly in front of an event is the one that counts. */
  lemma {:induction false} MetBehind(rule: Rule, pre: seq<Event>, y: Event, x: Event, post: seq<Event>)
    requires rule.FieldLteRef? && GroupOk(rule, pre + [y] + [x] + post)
    requires IsKind(x, rule.event) && IsKind(y, rule.refEvent)
    ensures AtMost(rule, x, y)
  {
    hide GroupOk, AtMost;
    var g, i := pre + [y] + [x] + post, |pre| + 1;
    GroupAsRefs(rule, g);
    assert g[..i] == pre + [y] && g[i] == x;
    assert MetWith(rule, g[i], LastRef(g[..i], rule.refEvent));
  }

  lemma {:induction false} OneFlow(f: Option<string>, l: Option<string>, s: seq<Event>)
    requires forall e :: e in s ==> e.flow == f
    ensures Filter(InFlow(l), s) == if l == f then s else []
  {
    if l == f {
      FilterAll(InFlow(l), s);
    } else {
      FilterNone(InFlow(l), s);
    }
  }

  /** The plan with event `x` of one flow directly behind event `y` of another. */
  function Spliced(s: seq<Event>, f: Option<string>, u: nat, h: Option<string>, v: nat): seq<Event>
    requires u < |Filter(InFlow(f), s)| && v < |Filter(InFlow(h), s)|
  {
    var own, other := Filter(InFlow(f), s), Filter(InFlow(h), s);
    (own[..u] + other[..v]) + [other[v]] + [own[u]]
    + (own[u + 1..] + other[v + 1..] + Filter((e: Event) => e.flow != f && e.flow != h, s))
  }

  lemma {:induction false} SplicedInterleaves(
      events: seq<Event>, f: Option<string>, u: nat, h: Option<string>, v: nat)
    requires f != h && u < |Filter(InFlow(f), Sort(events))| && v < |Filter(InFlow(h), Sort(events))|
    ensures Interleaves(Spliced(Sort(events), f, u, h, v), events)
  {
    hide Filter, Sort, StripAll;
    var s := Sort(events);
    forall l ensures Filter(InFlow(l), Spliced(s, f, u, h, v)) == Filter(InFlow(l), s) {
      SplicedFlow(s, f, u, h, v, l);
    }
  }

  lemma {:induction false} SplicedFlow(
      s: seq<Event>, f: Option<string>, u: nat, h: Option<string>, v: nat, l: Option<string>)
    requires f != h && u < |Filter(InFlow(f), s)| && v < |Filter(InFlow(h), s)|
    ensures Filter(InFlow(l), Spliced(s, f, u, h, v)) == Filter(InFlow(l), s)
  {
    hide Filter;
    var own, other := Filter(InFlow(f), s), Filter(InFlow(h), s);
    var rest := Filter((e: Event) => e.flow != f && e.flow != h, s);
    FlowMembers(s, f, h);
    SplitFilter(InFlow(l), own[..u] + other[..v], [other[v]], [own[u]], own[u + 1..] + other[v + 1..] + rest);
    FilterAppend(InFlow(l), own[..u], other[..v]);
    FilterAppend(InFlow(l), own[u + 1..] + other[v + 1..], rest);
    FilterAppend(InFlow(l), own[u + 1..], other[v + 1..]);
    PiecesOf(f, l, own, u);
    PiecesOf(h, l, other, v);
    RestOf(s, f, h, l);
    hide *;
    if l == f {
      Glue(own, u);
    } else if l == h {
      Glue(other, v);
    }
  }

  lemma {:induction false} FlowMembers(s: seq<Event>, f: Option<string>, h: Option<string>)
    ensures forall e :: e in Filter(InFlow(f), s) ==> e.flow == f
    ensures forall e :: e in Filter(InFlow(h), s) ==> e.flow == h
  {
    FilterMember(InFlow(f), s);
    FilterMember(InFlow(h), s);
  }

  lemma {:induction false} Glue(own: seq<Event>, u: nat)
    requires u < |own|
    ensures own[..u] + [] + [] + [own[u]] + (own[u + 1..] + [] + []) == own
    ensures [] + own[..u] + [own[u]] + [] + ([] + own[u + 1..] + []) == own
  {
  }

  /** The pieces of one flow, seen from another or from itself. */
  lemma {:induction false} PiecesOf(f: Option<string>, l: Option<string>, own: seq<Event>, u: nat)
    requires u < |own| && forall e :: e in own ==> e.flow == f
    ensures Filter(InFlow(l), own[..u]) == if l == f then own[..u] else []
    ensures Filter(InFlow(l), [own[u]]) == if l == f then [own[u]] else []
    ensures Filter(InFlow(l), own[u + 1..]) == if l == f then own[u + 1..] else []
  {
    hide Filter;
    OneFlow(f, l, own[..u]);
    OneFlow(f, l, [own[u]]);
    OneFlow(f, l, own[u + 1..]);
  }

  lemma {:induction false} RestOf(s: seq<Event>, f: Option<string>, h: Option<string>, l: Option<string>)
    ensures Filter(InFlow(l), Filter((e: Event) => e.flow != f && e.flow != h, s))
         == if l == f || l == h then [] else Filter(InFlow(l), s)
  {
    hide Filter;
    var rest := (e: Event) => e.flow != f && e.flow != h;
    FilterMember(rest, s);
    if l == f || l == h {
      FilterNone(InFlow(l), Filter(rest, s));
    } else {
      FilterRefine(InFlow(l), rest, s);
    }
  }

  lemma {:induction false} SplitFilter(
      p: Event -> bool, a: seq<Event>, b: seq<Event>, c: seq<Event>, d: seq<Event>)
    ensures Filter(p, a + b + c + d) == Filter(p, a) + Filter(p, b) + Filter(p, c) + Filter(p, d)
  {
    FilterAppend(p, a + b + c, d);
    FilterAppend(p, a + b, c);
    FilterAppend(p, a, b);
  }

  /** Every interleaving that the rule accepts in this scope, seen through the draws that produce it. */
  lemma {:induction false} MetWhenInterleaved(rule: Rule, k: string, events: seq<Event>, q: seq<Event>)
    requires forall m, rng :: GroupOk(rule, GroupOf(rule.scope, k, Jittered(events, m, rng)))
    requires Interleaves(q, events)
    ensures GroupOk(rule, GroupOf(rule.scope, k, q))
  {
    hide GroupOk, Interleaves, Jittered, GroupOf, StripAll;
    var m, rng := EveryInterleaving(events, q);
    SameGroup(rule.scope, k, Jittered(events, m, rng), q);
    GroupOkStrip(rule, GroupOf(rule.scope, k, Jittered(events, m, rng)), GroupOf(rule.scope, k, q));
  }

  lemma {:induction false} OwnPartMet(rule: Rule, k: string, events: seq<Event>, f: Option<string>)
    requires rule.FieldLteRef?
    requires forall m, rng :: GroupOk(rule, GroupOf(rule.scope, k, Jittered(events, m, rng)))
    ensures GroupOk(rule, Filter(InFlow(f), GroupOf(rule.scope, k, Sort(events))))
  {
    hide GroupOk, Sort, Jittered, Filter;
    var front := (h: Option<string>) => h == f;
    var early, late := (e: Event) => front(e.flow), (e: Event) => !front(e.flow);
    var scope, s := InScope(rule.scope, k), Sort(events);
    FrontInterleaves(events, front);
    MetWhenInterleaved(rule, k, events, Front(events, front));
    FilterAppend(scope, Filter(early, s), Filter(late, s));
    MetInFront(rule, Filter(scope, Filter(early, s)), Filter(scope, Filter(late, s)));
    SameFilter(early, InFlow(f), s);
    FilterSwap(scope, InFlow(f), s);
  }

  lemma {:induction false} CrossMet(rule: Rule, k: string, events: seq<Event>, x: Event, y: Event)
    requires rule.FieldLteRef?
    requires forall m, rng :: GroupOk(rule, GroupOf(rule.scope, k, Jittered(events, m, rng)))
    requires var g := GroupOf(rule.scope, k, Sort(events));
      x in g && y in g && x.flow != y.flow && IsKind(x, rule.event) && IsKind(y, rule.refEvent)
    ensures AtMost(rule, x, y)
  {
    hide GroupOk, Sort, Jittered, Filter, AtMost, IsKind;
    var scope, s := InScope(rule.scope, k), Sort(events);
    FilterMember(scope, s);
    FilterMember(InFlow(x.flow), s);
    FilterMember(InFlow(y.flow), s);
    var own, other := Filter(InFlow(x.flow), s), Filter(InFlow(y.flow), s);
    var u :| 0 <= u < |own| && own[u] == x;
    var v :| 0 <= v < |other| && other[v] == y;
    SplicedInterleaves(events, x.flow, u, y.flow, v);
    MetWhenInterleaved(rule, k, events, Spliced(s, x.flow, u, y.flow, v));
    var rest := Filter((e: Event) => e.flow != x.flow && e.flow != y.flow, s);
    SplitFilter(scope, own[..u] + other[..v], [y], [x], own[u + 1..] + other[v + 1..] + rest);
    FilterAll(scope, [y]);
    FilterAll(scope, [x]);
    MetBehind(rule, Filter(scope, own[..u] + other[..v]), y, x, Filter(scope, own[u + 1..] + other[v + 1..] + rest));
  }

  // ---------------------------------------------------------------- plans that always pass

  lemma {:induction false} LteAlwaysIff(rule: Rule, k: string, events: seq<Event>)
    requires rule.FieldLteRef?
    ensures (forall m, rng :: GroupOk(rule, GroupOf(rule.scope, k, Jittered(events, m, rng))))
      <==> SafeGroup(rule, GroupOf(rule.scope, k, Sort(events)))
  {
    hide GroupOk, Sort, Jittered, Filter, GroupOf, StripAll, AtMost;
    var before := GroupOf(rule.scope, k, Sort(events));
    if forall m, rng :: GroupOk(rule, GroupOf(rule.scope, k, Jittered(events, m, rng))) {
      forall f ensures GroupOk(rule, Filter(InFlow(f), before)) {
        OwnPartMet(rule, k, events, f);
      }
      forall x, y | x in before && y in before && x.flow != y.flow && IsKind(x, rule.event) && IsKind(y, rule.refEvent)
        ensures AtMost(rule, x, y)
      {
        CrossMet(rule, k, events, x, y);
      }
    }
    if SafeGroup(rule, before) {
      forall m: nat, rng ensures GroupOk(rule, GroupOf(rule.scope, k, Jittered(events, m, rng))) {
        var after := GroupOf(rule.scope, k, Jittered(events, m, rng));
        forall f ensures StripAll(Filter(InFlow(f), before)) == StripAll(Filter(InFlow(f), after)) {
          FlowPart(rule.scope, k, f, events, m, rng);
        }
        forall f ensures GroupOk(rule, Filter(InFlow(f), after)) {
          GroupOkStrip(rule, Filter(InFlow(f), before), Filter(InFlow(f), after));
        }
        CrossSafeStrip(rule, before, after);
        SafeIsMet(rule, after);
      }
    }
  }

  lemma {:induction false} OrderAlwaysIff(
      last: bool, a: Option<string>, b: Option<string>, scope: Option<string>, k: string, events: seq<Event>)
    ensures var rule := OrderRule(last, a, b, scope);
      (forall m, rng :: GroupOk(rule, GroupOf(scope, k, Jittered(events, m, rng))))
      <==> SafeGroup(rule, GroupOf(scope, k, Sort(events)))
  {
    hide GroupOk, Outer, Sort, Jittered, GroupOf, Filter, StripAll;
    var rule, before := OrderRule(last, a, b, scope), GroupOf(scope, k, Sort(events));
    forall f
      ensures GroupOk(rule, Filter(InFlow(f), before)) <==> Outer(last, Filter(InFlow(f), before), a, b) != Some(true)
    {
      OuterDecides(last, Filter(InFlow(f), before), a, b, scope);
    }
    if forall m, rng :: GroupOk(rule, GroupOf(scope, k, Jittered(events, m, rng))) {
      forall f ensures Outer(last, Filter(InFlow(f), before), a, b) != Some(true) {
        if Outer(last, Filter(InFlow(f), before), a, b).Some? {
          var m, rng := PushDecides(last, a, b, scope, k, events, f);
          OuterDecides(last, GroupOf(scope, k, Jittered(events, m, rng)), a, b, scope);
        }
      }
    }
    if SafeGroup(rule, before) {
      forall m: nat, rng ensures GroupOk(rule, GroupOf(scope, k, Jittered(events, m, rng))) {
        var after := GroupOf(scope, k, Jittered(events, m, rng));
        var f := OuterOfFlow(last, after, a, b);
        FlowPart(scope, k, f, events, m, rng);
        OuterStrip(last, Filter(InFlow(f), after), Filter(InFlow(f), before), a, b);
        OuterDecides(last, after, a, b, scope);
      }
    }
  }

  /**
   For all three ordering rules: exactly which plans meet the rule under every offset limit and all
   draws. In every scope each flow alone must meet it, and for field_lte_ref no flow may hold a
   reference event that an event of another flow exceeds.
   */
  lemma {:induction false} AlwaysPassesIff(rule: Rule, events: seq<Event>)
    ensures (forall m, rng :: Verdict(rule, Jittered(events, m, rng))) <==> Safe(rule, Sort(events))
  {
    hide GroupOk, Sort, Jittered, SafeGroup, Verdict, GroupOf;
    forall k {
      AlwaysMetIff(rule, k, events);
    }
    forall m: nat, rng
      ensures Verdict(rule, Jittered(events, m, rng))
         <==> forall k :: GroupOk(rule, GroupOf(rule.scope, k, Jittered(events, m, rng)))
    {
      VerdictByGroup(rule, Jittered(events, m, rng));
    }
    if forall m, rng :: Verdict(rule, Jittered(events, m, rng)) {
      forall k ensures SafeGroup(rule, GroupOf(rule.scope, k, Sort(events))) {
        forall m: nat, rng ensures GroupOk(rule, GroupOf(rule.scope, k, Jittered(events, m, rng))) {
          assert Verdict(rule, Jittered(events, m, rng));
        }
      }
    }
    if Safe(rule, Sort(events)) {
      forall m: nat, rng ensures Verdict(rule, Jittered(events, m, rng)) {
        forall k ensures GroupOk(rule, GroupOf(rule.scope, k, Jittered(events, m, rng))) {
          assert SafeGroup(rule, GroupOf(rule.scope, k, Sort(events)));
        }
      }
    }
  }

  lemma {:induction false} VerdictByGroup(rule: Rule, plan: seq<Event>)
    ensures Verdict(rule, plan) <==> forall k :: GroupOk(rule, GroupOf(rule.scope, k, plan))
  {
    hide GroupOk, Filter;
    if forall k :: GroupOk(rule, GroupOf(rule.scope, k, plan)) {
      forall k ensures GroupOk(rule, Filter(InScope(rule.scope, k), plan)) {
        assert GroupOk(rule, GroupOf(rule.scope, k, plan));
      }
    }
  }

  lemma {:induction false} AlwaysMetIff(rule: Rule, k: string, events: seq<Event>)
    ensures (forall m, rng :: GroupOk(rule, GroupOf(rule.scope, k, Jittered(events, m, rng))))
      <==> SafeGroup(rule, GroupOf(rule.scope, k, Sort(events)))
  {
    hide GroupOk, Sort, Jittered, SafeGroup, GroupOf;
    match rule
    case EventAfter(a, b, scope) => OrderAlwaysIff(false, a, b, scope, k, events);
    case EventBefore(a, b, scope) => OrderAlwaysIff(true, a, b, scope, k, events);
    case FieldLteRef(_, _, _, _, _) => LteAlwaysIff(rule, k, events);
  }
}
