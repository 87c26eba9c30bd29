/**
 The ordering rules of the declarative rule engine (eventweave/compiler/rules.py):
 event_after, event_before and field_lte_ref, with their scopes.
 */
module Rules {
  import opened Common
  import opened Events
  import opened Rng
  import opened Jitter

  /** An attribute a rule leaves out is `None`; no event has kind `None`. */
  datatype Rule =
    | EventAfter(event: Option<string>, after: Option<string>, scope: Option<string>)
    | EventBefore(event: Option<string>, before: Option<string>, scope: Option<string>)
    | FieldLteRef(
        event: Option<string>, field: string, refEvent: Option<string>, refField: string, scope: Option<string>)

  predicate Unscoped(scope: Option<string>) {
    scope.None? || scope.value == "" || scope.value == "global"
  }

  /** `_scope_key`: an empty reference or flow id counts as absent. */
  function ScopeKey(e: Event, scope: Option<string>): string {
    if !Unscoped(scope) && scope.value in e.refs && e.refs[scope.value] != "" then e.refs[scope.value]
    else if e.flow.Some? && e.flow.value != "" then e.flow.value
    else "global"
  }

  function InScope(scope: Option<string>, k: string): Event -> bool { (e: Event) => ScopeKey(e, scope) == k }

  predicate IsKind(e: Event, kind: Option<string>) { kind == Some(e.kind) }

  /** Python's `>` on floats: false when either side is not a number. */
  predicate Greater(a: Float, b: Float) {
    match (a, b)
    case (NaN, _) => false
    case (_, NaN) => false
    case (NegInf, _) => false
    case (_, PosInf) => false
    case (PosInf, _) => true
    case (_, NegInf) => true
    case (Finite(x), Finite(y)) => x > y
  }

  function NumberOf(e: Event, field: string): Option<Float> {
    if field in e.attrs then e.attrs[field].number else None
  }

  /** Index of the last event of a kind before position `i`, or -1. */
  function LastBefore(g: seq<Event>, i: nat, kind: Option<string>): (j: int)
    requires i <= |g|
    ensures -1 <= j < i
    ensures j >= 0 ==> IsKind(g[j], kind)
    ensures forall l :: j < l < i ==> !IsKind(g[l], kind)
  {
    if i == 0 then -1 else if IsKind(g[i - 1], kind) then i - 1 else LastBefore(g, i - 1, kind)
  }

  /** The rule is met by the event at position `i` of its scope group. */
  predicate MetAt(rule: Rule, g: seq<Event>, i: nat)
    requires i < |g|
  {
    IsKind(g[i], rule.event) ==>
      match rule
      case EventAfter(_, after, _) => exists j :: 0 <= j < i && IsKind(g[j], after)
      case EventBefore(_, before, _) => exists j :: i < j < |g| && IsKind(g[j], before)
      case FieldLteRef(_, field, refEvent, refField, _) =>
        var j := LastBefore(g, i, refEvent);
        j >= 0 && NumberOf(g[i], field).Some? && NumberOf(g[j], refField).Some?
        && !Greater(NumberOf(g[i], field).value, NumberOf(g[j], refField).value)
  }

  predicate GroupOk(rule: Rule, g: seq<Event>) {
    forall i :: 0 <= i < |g| ==> MetAt(rule, g, i)
  }

  /** The rule raises no violation on the plan. */
  ghost predicate Verdict(rule: Rule, plan: seq<Event>) {
    forall k :: GroupOk(rule, Filter(InScope(rule.scope, k), plan))
  }

  /** The comparison of field_lte_ref; a value that is no number fails it. */
  predicate AtMost(rule: Rule, x: Event, y: Event)
    requires rule.FieldLteRef?
  {
    NumberOf(x, rule.field).Some? && NumberOf(y, rule.refField).Some?
    && !Greater(NumberOf(x, rule.field).value, NumberOf(y, rule.refField).value)
  }

  function LastRef(s: seq<Event>, kind: Option<string>): Option<Event> {
    if s == [] then None
    else if IsKind(s[|s| - 1], kind) then Some(s[|s| - 1])
    else LastRef(s[..|s| - 1], kind)
  }

  predicate MetWith(rule: Rule, x: Event, r: Option<Event>)
    requires rule.FieldLteRef?
  {
    IsKind(x, rule.event) ==> r.Some? && AtMost(rule, x, r.value)
  }

  lemma {:induction false} LastRefAt(g: seq<Event>, i: nat, kind: Option<string>)
    requires i <= |g|
    ensures var j := LastBefore(g, i, kind); LastRef(g[..i], kind) == if j >= 0 then Some(g[j]) else None
  {
    if i > 0 {
      assert g[..i][..i - 1] == g[..i - 1];
      LastRefAt(g, i - 1, kind);
    }
  }

  /** A group meets the rule exactly if each event meets it with the last reference event before it. */
  lemma {:induction false} GroupAsRefs(rule: Rule, g: seq<Event>)
    requires rule.FieldLteRef?
    ensures GroupOk(rule, g) <==> forall i :: 0 <= i < |g| ==> MetWith(rule, g[i], LastRef(g[..i], rule.refEvent))
  {
    hide LastRef, LastBefore;
    forall i | 0 <= i < |g| ensures MetAt(rule, g, i) <==> MetWith(rule, g[i], LastRef(g[..i], rule.refEvent)) {
      LastRefAt(g, i, rule.refEvent);
    }
  }

  // ---------------------------------------------------------------- verdicts, read on the plan

  /** Neither number exceeds: a comparison with NaN is false, and the infinities are the extremes. */
  predicate Fits(x: Float, y: Float) {
    x.NaN? || y.NaN? || x.NegInf? || y.PosInf? || (x.Finite? && y.Finite? && x.r <= y.r)
  }

  /** The event refers to something under the role that the scope names. */
  predicate HasRole(e: Event, scope: Option<string>) {
    scope.Some? && scope.value !in ["", "global"] && scope.value in e.refs && |e.refs[scope.value]| > 0
  }

  predicate HasFlow(e: Event) { e.flow.Some? && |e.flow.value| > 0 }

  /** Where an event belongs: to what it refers to under the role, else to its flow, else to the rest. */
  predicate Belongs(e: Event, scope: Option<string>, k: string) {
    (HasRole(e, scope) ==> k == e.refs[scope.value])
    && (!HasRole(e, scope) && HasFlow(e) ==> Some(k) == e.flow)
    && (!HasRole(e, scope) && !HasFlow(e) ==> k == "global")
  }

  ghost predicate ShareScope(rule: Rule, a: Event, b: Event) {
    exists k :: Belongs(a, rule.scope, k) && Belongs(b, rule.scope, k)
  }

  lemma {:induction false} Shared(rule: Rule, a: Event, b: Event)
    ensures ShareScope(rule, a, b) <==> ScopeKey(a, rule.scope) == ScopeKey(b, rule.scope)
  {
    var k := ScopeKey(a, rule.scope);
    assert Belongs(a, rule.scope, k);
    assert Belongs(b, rule.scope, ScopeKey(b, rule.scope));
  }

  /** `j` is the last reference event of the scope before `i`. */
  ghost predicate Refers(rule: Rule, plan: seq<Event>, i: nat, j: nat)
    requires rule.FieldLteRef? && i < |plan|
  {
    j < i && ShareScope(rule, plan[i], plan[j]) && IsKind(plan[j], rule.refEvent)
    && forall l :: j < l < i && ShareScope(rule, plan[i], plan[l]) ==> !IsKind(plan[l], rule.refEvent)
  }

  /** The rule is met by the event at position `i` of the plan. */
  ghost predicate MetInPlan(rule: Rule, plan: seq<Event>, i: nat)
    requires i < |plan|
  {
    match rule
    case EventAfter(_, after, _) =>
      exists j :: 0 <= j < i && ShareScope(rule, plan[i], plan[j]) && IsKind(plan[j], after)
    case EventBefore(_, before, _) =>
      exists j :: i < j < |plan| && ShareScope(rule, plan[i], plan[j]) && IsKind(plan[j], before)
    case FieldLteRef(_, field, _, refField, _) =>
      exists j: nat :: Refers(rule, plan, i, j)
        && field in plan[i].attrs && plan[i].attrs[field].number.Some?
        && refField in plan[j].attrs && plan[j].attrs[refField].number.Some?
        && Fits(plan[i].attrs[field].number.value, plan[j].attrs[refField].number.value)
  }

  /** An element of a filtered sequence, found in the sequence. */
  lemma {:induction false} PlaceIn(p: Event -> bool, s: seq<Event>, g: nat) returns (i: nat)
    requires g < |Filter(p, s)|
    ensures i < |s| && p(s[i]) && Filter(p, s)[g] == s[i]
    ensures Filter(p, s)[..g] == Filter(p, s[..i]) && Filter(p, s)[g + 1..] == Filter(p, s[i + 1..])
  {
    if p(s[0]) {
      assert Filter(p, s) == [s[0]] + Filter(p, s[1..]);
      if g == 0 {
        i := 0;
      } else {
        var k := PlaceIn(p, s[1..], g - 1);
        i := k + 1;
        assert s[..i] == [s[0]] + s[1..][..k];
        assert s[..i][1..] == s[1..][..k] && s[i + 1..] == s[1..][k + 1..];
      }
    } else {
      var k := PlaceIn(p, s[1..], g);
      i := k + 1;
      assert s[..i] == [s[0]] + s[1..][..k];
      assert s[..i][1..] == s[1..][..k] && s[i + 1..] == s[1..][k + 1..];
    }
  }

  /** And the other way round. */
  lemma {:induction false} PlaceOf(p: Event -> bool, s: seq<Event>, i: nat) returns (g: nat)
    requires i < |s| && p(s[i])
    ensures g < |Filter(p, s)| && Filter(p, s)[g] == s[i]
    ensures Filter(p, s)[..g] == Filter(p, s[..i]) && Filter(p, s)[g + 1..] == Filter(p, s[i + 1..])
  {
    assert s == s[..i] + ([s[i]] + s[i + 1..]);
    FilterAppend(p, s[..i], [s[i]] + s[i + 1..]);
    assert ([s[i]] + s[i + 1..])[1..] == s[i + 1..];
    g := |Filter(p, s[..i])|;
  }

  /** The last reference event of a scope, as a position. */
  lemma {:induction false} LastRefPlace(p: Event -> bool, s: seq<Event>, kind: Option<string>) returns (j: nat)
    ensures var r := LastRef(Filter(p, s), kind);
      if r.None? then forall l :: 0 <= l < |s| && p(s[l]) ==> !IsKind(s[l], kind)
      else
        j < |s| && p(s[j]) && IsKind(s[j], kind) && r.value == s[j]
        && forall l :: j < l < |s| && p(s[l]) ==> !IsKind(s[l], kind)
  {
    j := 0;
    if s != [] {
      var n := |s| - 1;
      var rest := Filter(p, s[..n]);
      j := LastRefPlace(p, s[..n], kind);
      assert s == s[..n] + [s[n]];
      FilterAppend(p, s[..n], [s[n]]);
      assert [s[n]][1..] == [];
      assert Filter(p, s) == if p(s[n]) then rest + [s[n]] else rest;
      assert (rest + [s[n]])[..|rest|] == rest;
      if p(s[n]) && IsKind(s[n], kind) {
        j := n;
      }
    }
  }

  /** Position by position: the rule at an event of its scope group, and at the event of the plan. */
  lemma {:induction false} MetBoth(rule: Rule, plan: seq<Event>, i: nat, g: nat)
    requires i < |plan|
    requires var p := InScope(rule.scope, ScopeKey(plan[i], rule.scope));
      g < |Filter(p, plan)| && Filter(p, plan)[g] == plan[i]
      && Filter(p, plan)[..g] == Filter(p, plan[..i]) && Filter(p, plan)[g + 1..] == Filter(p, plan[i + 1..])
    requires IsKind(plan[i], rule.event)
    ensures var p := InScope(rule.scope, ScopeKey(plan[i], rule.scope));
      MetAt(rule, Filter(p, plan), g) <==> MetInPlan(rule, plan, i)
  {
    hide Filter, ScopeKey, LastBefore, LastRef, ShareScope;
    var p := InScope(rule.scope, ScopeKey(plan[i], rule.scope));
    var group := Filter(p, plan);
    forall j | 0 <= j < |plan| ensures ShareScope(rule, plan[i], plan[j]) <==> p(plan[j]) {
      Shared(rule, plan[i], plan[j]);
    }
    match rule
    case EventAfter(_, after, _) =>
      FilterMember(p, plan[..i]);
      KindBefore(group[..g], plan[..i], p, after);
    case EventBefore(_, before, _) =>
      FilterMember(p, plan[i + 1..]);
      KindBefore(group[g + 1..], plan[i + 1..], p, before);
      assert forall j :: g < j < |group| ==> group[j] == group[g + 1..][j - g - 1];
      assert forall j :: i < j < |plan| ==> plan[j] == plan[i + 1..][j - i - 1];
    case FieldLteRef(_, field, refEvent, refField, _) =>
      LastRefAt(group, g, refEvent);
      var j := LastRefPlace(p, plan[..i], refEvent);
  }

  /** A kind occurs in a filtered sequence exactly if it occurs among the elements that pass. */
  lemma {:induction false} KindBefore(group: seq<Event>, s: seq<Event>, p: Event -> bool, kind: Option<string>)
    requires forall e :: e in group <==> e in s && p(e)
    ensures (exists j :: 0 <= j < |group| && IsKind(group[j], kind))
       <==> exists j :: 0 <= j < |s| && p(s[j]) && IsKind(s[j], kind)
  {
    if j :| 0 <= j < |group| && IsKind(group[j], kind) {
      assert group[j] in s;
    }
    if j :| 0 <= j < |s| && p(s[j]) && IsKind(s[j], kind) {
      assert s[j] in group;
    }
  }

  /**
   The verdict of a rule, read on the plan itself: every event of the rule's kind has an event of
   the other kind on the right side of it in its scope; for field_lte_ref the last such event before
   it holds a number that the event's own does not exceed.
   */
  lemma {:induction false} VerdictInPlan(rule: Rule, plan: seq<Event>)
    ensures Verdict(rule, plan)
       <==> forall i :: 0 <= i < |plan| && IsKind(plan[i], rule.event) ==> MetInPlan(rule, plan, i)
  {
    hide Filter, ScopeKey, MetAt, MetInPlan;
    if Verdict(rule, plan) {
      forall i | 0 <= i < |plan| && IsKind(plan[i], rule.event) ensures MetInPlan(rule, plan, i) {
        var p := InScope(rule.scope, ScopeKey(plan[i], rule.scope));
        var g := PlaceOf(p, plan, i);
        assert GroupOk(rule, Filter(p, plan));
        MetBoth(rule, plan, i, g);
      }
    }
    if forall i :: 0 <= i < |plan| && IsKind(plan[i], rule.event) ==> MetInPlan(rule, plan, i) {
      forall k, g | 0 <= g < |Filter(InScope(rule.scope, k), plan)|
        ensures MetAt(rule, Filter(InScope(rule.scope, k), plan), g)
      {
        var i := PlaceIn(InScope(rule.scope, k), plan, g);
        if IsKind(plan[i], rule.event) {
          MetBoth(rule, plan, i, g);
        } else {
          OtherKind(rule, Filter(InScope(rule.scope, k), plan), g);
        }
      }
    }
  }

  lemma {:induction false} OtherKind(rule: Rule, g: seq<Event>, i: nat)
    requires i < |g| && !IsKind(g[i], rule.event)
    ensures MetAt(rule, g, i)
  {
  }

  /** Events that share a scope share a flow. */
  predicate ScopeWithinFlow(scope: Option<string>, events: seq<Event>) {
    forall a, b :: a in events && b in events && ScopeKey(a, scope) == ScopeKey(b, scope) ==> a.flow == b.flow
  }

  lemma {:induction false} LastBeforeStrip(g: seq<Event>, h: seq<Event>, i: nat, kind: Option<string>)
    requires StripAll(g) == StripAll(h) && i <= |g|
    ensures |g| == |h| && LastBefore(g, i, kind) == LastBefore(h, i, kind)
  {
    assert |StripAll(g)| == |StripAll(h)|;
    if i > 0 {
      assert StripAll(g)[i - 1] == StripAll(h)[i - 1];
      LastBeforeStrip(g, h, i - 1, kind);
    }
  }

  /** Rules look at kinds, attributes and order, never at times. */
  lemma {:induction false} GroupOkStrip(rule: Rule, g: seq<Event>, h: seq<Event>)
    requires StripAll(g) == StripAll(h) && GroupOk(rule, g)
    ensures GroupOk(rule, h)
  {
    assert |StripAll(g)| == |StripAll(h)|;
    assert forall i :: 0 <= i < |g| ==> StripAll(g)[i] == StripAll(h)[i];
    forall i | 0 <= i < |h| ensures MetAt(rule, h, i) {
      assert MetAt(rule, g, i);
      assert Strip(g[i]) == Strip(h[i]);
      if IsKind(h[i], rule.event) {
        match rule
        case EventAfter(_, after, _) =>
          var j :| 0 <= j < i && IsKind(g[j], after);
          assert Strip(g[j]) == Strip(h[j]);
          assert IsKind(h[j], after);
        case EventBefore(_, before, _) =>
          var j :| i < j < |g| && IsKind(g[j], before);
          assert Strip(g[j]) == Strip(h[j]);
          assert IsKind(h[j], before);
        case FieldLteRef(_, _, refEvent, _, _) =>
          LastBeforeStrip(g, h, i, refEvent);
          var j := LastBefore(g, i, refEvent);
          assert Strip(g[j]) == Strip(h[j]);
      }
    }
  }

  /** One scope group inside one flow group: its contents follow from the flow's. */
  lemma {:induction false} ScopeGroupOfFlow(scope: Option<string>, k: string, f: Option<string>, plan: seq<Event>)
    requires forall e :: e in plan && ScopeKey(e, scope) == k ==> e.flow == f
    ensures StripAll(Filter(InScope(scope, k), plan)) == Filter(InScope(scope, k), StripAll(Filter(InFlow(f), plan)))
  {
    FilterRefine(InScope(scope, k), InFlow(f), plan);
    FilterMap(InScope(scope, k), Strip, Filter(InFlow(f), plan));
  }

  /** Two plans that agree on every flow, times apart, get the same verdict. */
  lemma {:induction false} SameFlowsSameVerdict(rule: Rule, a: seq<Event>, b: seq<Event>)
    requires forall f :: StripAll(Filter(InFlow(f), a)) == StripAll(Filter(InFlow(f), b))
    requires ScopeWithinFlow(rule.scope, a) && ScopeWithinFlow(rule.scope, b)
    requires Verdict(rule, a)
    ensures Verdict(rule, b)
  {
    forall k ensures GroupOk(rule, Filter(InScope(rule.scope, k), b)) {
      var p := InScope(rule.scope, k);
      FilterMember(p, b);
      if Filter(p, b) != [] {
        var f := Filter(p, b)[0].flow;
        ScopeGroupOfFlow(rule.scope, k, f, b);
        // the group of b is found again, times apart, in flow f of a
        assert StripAll(Filter(InFlow(f), a)) == StripAll(Filter(InFlow(f), b));
        var e := Filter(p, b)[0];
        FindStripped(f, a, b, e);
        assert forall x :: x in a && ScopeKey(x, rule.scope) == k ==> x.flow == f;
        ScopeGroupOfFlow(rule.scope, k, f, a);
        GroupOkStrip(rule, Filter(p, a), Filter(p, b));
      }
    }
  }

  lemma {:induction false} FindStripped(f: Option<string>, a: seq<Event>, b: seq<Event>, e: Event)
    requires StripAll(Filter(InFlow(f), a)) == StripAll(Filter(InFlow(f), b))
    requires e in b && e.flow == f
    ensures exists x :: x in a && Strip(x) == Strip(e)
  {
    FilterMember(InFlow(f), a);
    FilterMember(InFlow(f), b);
    var fa, fb := Filter(InFlow(f), a), Filter(InFlow(f), b);
    var i :| 0 <= i < |fb| && fb[i] == e;
    assert |StripAll(fa)| == |StripAll(fb)|;
    assert StripAll(fa)[i] == StripAll(fb)[i];
    assert fa[i] in fa;
  }

  lemma {:induction false} ScopeWithinFlowStrip(scope: Option<string>, a: seq<Event>, b: seq<Event>)
    requires ScopeWithinFlow(scope, a)
    requires multiset(StripAll(b)) == multiset(StripAll(a))
    ensures ScopeWithinFlow(scope, b)
  {
    forall x, y | x in b && y in b && ScopeKey(x, scope) == ScopeKey(y, scope) ensures x.flow == y.flow {
      var x' := StripOrigin(a, b, x);
      var y' := StripOrigin(a, b, y);
      assert ScopeKey(x', scope) == ScopeKey(Strip(x'), scope) == ScopeKey(x, scope);
      assert ScopeKey(y', scope) == ScopeKey(Strip(y'), scope) == ScopeKey(y, scope);
      assert x'.flow == Strip(x').flow == x.flow && y'.flow == Strip(y').flow == y.flow;
    }
  }

  lemma {:induction false} StripOrigin(a: seq<Event>, b: seq<Event>, x: Event) returns (x': Event)
    requires multiset(StripAll(b)) == multiset(StripAll(a)) && x in b
    ensures x' in a && Strip(x') == Strip(x)
  {
    var i :| 0 <= i < |b| && b[i] == x;
    assert StripAll(b)[i] in multiset(StripAll(b));
    assert Strip(x) in multiset(StripAll(a));
    var j :| 0 <= j < |a| && StripAll(a)[j] == Strip(x);
    x' := a[j];
  }

  /**
   Order-preserving jitter keeps rule meaning: whenever a scope stays inside one flow, the
   final jittered and sorted plan meets exactly the rules the plan met before jitter.
   */
  lemma {:induction false} JitterKeepsVerdict(rule: Rule, config: Option<JitterConfig>, events: seq<Event>, rng: Stream)
    requires KeepsOrder(config) && ScopeWithinFlow(rule.scope, events)
    ensures Verdict(rule, Sort(Apply(config, events, rng))) <==> Verdict(rule, Sort(events))
  {
    var before, after := Sort(events), Sort(Apply(config, events, rng));
    forall f ensures StripAll(Filter(InFlow(f), after)) == StripAll(Filter(InFlow(f), before)) {
      FlowOrderPreserved(f, config, events, rng);
    }
    JitterPermutes(config, events, rng);
    SortSorted(events);
    SortSorted(Apply(config, events, rng));
    StripMultiset(Sort(events), events);
    StripMultiset(Sort(Apply(config, events, rng)), Apply(config, events, rng));
    ScopeWithinFlowStrip(rule.scope, events, before);
    ScopeWithinFlowStrip(rule.scope, events, after);
    if Verdict(rule, before) {
      SameFlowsSameVerdict(rule, before, after);
    }
    if Verdict(rule, after) {
      SameFlowsSameVerdict(rule, after, before);
    }
  }

  /** An unscoped rule never mixes flows, provided no flow is called "" or "global". */
  lemma {:induction false} UnscopedWithinFlow(scope: Option<string>, events: seq<Event>)
    requires Unscoped(scope)
    requires forall e :: e in events && e.flow.Some? ==> e.flow.value != "" && e.flow.value != "global"
    ensures ScopeWithinFlow(scope, events)
  {
  }

  lemma {:induction false} SortOne(e: Event)
    ensures Sort([e]) == [e]
  {
    assert [e][1..] == [];
  }

  lemma {:induction false} SortPair(a: Event, b: Event)
    requires a.time < b.time
    ensures Sort([a, b]) == [a, b] && Sort([b, a]) == [a, b]
  {
    assert [a, b][1..] == [b] && [b, a][1..] == [a];
    SortOne(a);
    SortOne(b);
  }

  /** Order-preserving jitter of two flows of one event each. */
  lemma {:induction false} JitterTwoFlows(a: Event, b: Event, m: nat, rng: Stream)
    requires a.flow != b.flow
    ensures JitterPreserve([a, b], m, rng, 0) == [a.(time := Raw(a, m, rng(0))), b.(time := Raw(b, m, rng(1)))]
  {
    hide Raw;
    var events := [a, b];
    assert events[..1] == [a] && [a][..0] == [];
    assert FlowKeys([a]) == [a.flow];
    assert FlowKeys(events) == [a.flow, b.flow];
    assert events[1..] == [b];
    assert Filter(InFlow(a.flow), [b]) == [] && Filter(InFlow(b.flow), [b]) == [b];
    assert Filter(InFlow(a.flow), events) == [a] && Filter(InFlow(b.flow), events) == [b];
    SortOne(a);
    SortOne(b);
    assert Ordered(a.flow, events) == [a] && Ordered(b.flow, events) == [b];
    var groups := Groups([a.flow, b.flow], events);
    assert groups == [[a], [b]] && groups[1..] == [[b]];
    assert JitterFlow([a], m, rng, 0, None) == [a.(time := Raw(a, m, rng(0)))];
    assert JitterFlow([b], m, rng, 1, None) == [b.(time := Raw(b, m, rng(1)))];
    assert JitterGroups([[b]], m, rng, 1) == [b.(time := Raw(b, m, rng(1)))];
  }

  lemma {:induction false} VerdictOfPair(event: string, after: string, scope: Option<string>, x: Event, y: Event)
    requires event != after && ScopeKey(x, scope) == ScopeKey(y, scope)
    ensures x.kind == after && y.kind == event ==> Verdict(EventAfter(Some(event), Some(after), scope), [x, y])
    ensures x.kind == event && y.kind == after ==> !Verdict(EventAfter(Some(event), Some(after), scope), [x, y])
  {
    var rule := EventAfter(Some(event), Some(after), scope);
    forall k ensures Filter(InScope(scope, k), [x, y]) == if k == ScopeKey(x, scope) then [x, y] else [] {
      assert [x, y][1..] == [y] && [y][1..] == [];
      assert Filter(InScope(scope, k), [y]) == if k == ScopeKey(x, scope) then [y] else [];
    }
    var g := Filter(InScope(scope, ScopeKey(x, scope)), [x, y]);
    assert g == [x, y];
    if x.kind == after && y.kind == event {
      assert IsKind(g[0], Some(after));
      assert MetAt(rule, g, 0) && MetAt(rule, g, 1);
    }
    if x.kind == event && y.kind == after {
      assert !MetAt(rule, g, 0);
    }
  }

  /**
   The limit of the theorem above: as soon as two flows share a scope, draws exist that turn a
   passing plan into a failing one, although each flow keeps its own order.
   */
  lemma {:induction false} SharedScopeFlips(
      event: string, after: string, scope: Option<string>, a: Event, b: Event, m: nat) returns (rng: Stream)
    requires a.kind == after && b.kind == event && event != after
    requires a.flow != b.flow && ScopeKey(a, scope) == ScopeKey(b, scope)
    requires a.time < b.time < a.time + 2 * m
    ensures var rule, config := EventAfter(Some(event), Some(after), scope), Some(JitterConfig(true, m, true));
      Verdict(rule, Sort([a, b])) && !Verdict(rule, Sort(Apply(config, [a, b], rng)))
  {
    hide Verdict, Sort, JitterPreserve, ScopeKey;
    rng := i => if i == 0 then Draw(1.0, 0) else Draw(0.0, 0);
    FullOffsets(a, b, m, rng);
    var a', b' := a.(time := a.time + m), b.(time := b.time - m);
    JitterTwoFlows(a, b, m, rng);
    SortPair(a, b);
    SortPair(b', a');
    SameScope(scope, a, a');
    SameScope(scope, b, b');
    VerdictOfPair(event, after, scope, a, b);
    VerdictOfPair(event, after, scope, b', a');
  }

  lemma {:induction false} SameScope(scope: Option<string>, e: Event, e': Event)
    requires Strip(e) == Strip(e')
    ensures ScopeKey(e, scope) == ScopeKey(e', scope)
  {
    assert e.refs == Strip(e).refs == e'.refs && e.flow == Strip(e).flow == e'.flow;
  }

  /** The extreme draws. */
  lemma {:induction false} FullOffsets(a: Event, b: Event, m: nat, rng: Stream)
    requires rng(0).unit == 1.0 && rng(1).unit == 0.0
    ensures Raw(a, m, rng(0)) == a.time + m && Raw(b, m, rng(1)) == b.time - m
  {
  }

  // ---------------------------------------------------------------- the validators

  /** `events_by_scope`: the plan split by scope key, in plan order. */
  method GroupByScope(
      scope: Option<string>, plan: seq<Event>) returns (keys: seq<string>, byScope: map<string, seq<Event>>)
    ensures forall k :: k in keys <==> k in byScope
    ensures forall k :: (if k in byScope then byScope[k] else []) == Filter(InScope(scope, k), plan)
  {
    keys, byScope := [], map[];
    for i := 0 to |plan|
      invariant forall k :: k in keys <==> k in byScope
      invariant forall k :: (if k in byScope then byScope[k] else []) == Filter(InScope(scope, k), plan[..i])
    {
      var k := ScopeKey(plan[i], scope);
      ScopeSnoc(scope, plan, i);
      if k !in byScope {
        keys := keys + [k];
        byScope := byScope[k := []];
      }
      byScope := byScope[k := byScope[k] + [plan[i]]];
    }
    assert plan[..|plan|] == plan;
  }

  /** `validate`: groups the plan by scope, then checks every event of every group. */
  method Validate(rule: Rule, plan: seq<Event>) returns (ok: bool)
    ensures ok <==> Verdict(rule, plan)
  {
    var keys, byScope := GroupByScope(rule.scope, plan);
    for n := 0 to |keys|
      invariant forall l :: 0 <= l < n ==> GroupOk(rule, byScope[keys[l]])
    {
      var met := CheckGroup(rule, byScope[keys[n]]);
      if !met {
        assert !GroupOk(rule, Filter(InScope(rule.scope, keys[n]), plan));
        return false;
      }
    }
    forall k ensures GroupOk(rule, Filter(InScope(rule.scope, k), plan)) {
      if k in byScope {
        assert k in keys;
      }
    }
    ok := true;
  }

  method CheckGroup(rule: Rule, g: seq<Event>) returns (ok: bool)
    ensures ok <==> GroupOk(rule, g)
  {
    for i := 0 to |g|
      invariant forall l :: 0 <= l < i ==> MetAt(rule, g, l)
    {
      if IsKind(g[i], rule.event) {
        var met := CheckEvent(rule, g, i);
        if !met {
          return false;
        }
      }
    }
    ok := true;
  }

  /** Scans the events on the side of position `i` that the rule asks about. */
  method CheckEvent(rule: Rule, g: seq<Event>, i: nat) returns (met: bool)
    requires i < |g| && IsKind(g[i], rule.event)
    ensures met <==> MetAt(rule, g, i)
  {
    match rule {
      case EventAfter(_, after, _) =>
        for j := 0 to i
          invariant forall l :: 0 <= l < j ==> !IsKind(g[l], after)
        {
          if IsKind(g[j], after) {
            return true;
          }
        }
        met := false;
      case EventBefore(_, before, _) =>
        for j := i + 1 to |g|
          invariant forall l :: i < l < j ==> !IsKind(g[l], before)
        {
          if IsKind(g[j], before) {
            return true;
          }
        }
        met := false;
      case FieldLteRef(_, field, refEvent, refField, _) =>
        var last := -1;
        for j := 0 to i
          invariant last == LastBefore(g, j, refEvent)
        {
          if IsKind(g[j], refEvent) {
            last := j;
          }
        }
        if last < 0 {
          return false;
        }
        var value, refValue := NumberOf(g[i], field), NumberOf(g[last], refField);
        met := value.Some? && refValue.Some? && !Greater(value.value, refValue.value);
    }
  }

  lemma {:induction false} ScopeSnoc(scope: Option<string>, plan: seq<Event>, i: nat)
    requires i < |plan|
    ensures forall k :: Filter(InScope(scope, k), plan[..i + 1])
                     == Filter(InScope(scope, k), plan[..i]) + if k == ScopeKey(plan[i], scope) then [plan[i]] else []
  {
    forall k ensures Filter(InScope(scope, k), plan[..i + 1])
                  == Filter(InScope(scope, k), plan[..i]) + if k == ScopeKey(plan[i], scope) then [plan[i]] else [] {
      assert plan[..i + 1] == plan[..i] + [plan[i]];
      FilterAppend(InScope(scope, k), plan[..i], [plan[i]]);
      assert Filter(InScope(scope, k), [plan[i]][1..]) == [];
    }
  }
}
