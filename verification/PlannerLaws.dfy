/**
 The planner's small vocabulary, each piece by what it means: reference specs, names, identifiers,
 entity lists and pools (eventweave/compiler/planner.py:32-59, 103-117, 219-276).
 */
module PlannerLaws {
  import opened Common
  import opened Events
  import opened Rng
  import opened Scenarios
  import opened Ids
  import opened Planner

  // ---------------------------------------------------------------- how specs are read

  predicate NoDot(s: string) { forall i :: 0 <= i < |s| ==> s[i] != '.' }

  lemma {:induction false} LastDotAt(a: string, b: string)
    requires NoDot(b)
    ensures LastDot(a + "." + b) == |a|
  {
    var s := a + "." + b;
    assert s[|a|] == '.';
    assert forall i :: |a| < i < |s| ==> s[i] == b[i - |a| - 1];
  }

  /** The five symbolic forms; a `$ref` splits at its last dot. */
  lemma {:induction false} SpecForms(a: string, b: string)
    ensures ParseRef("$flow") == FlowRef
    ensures ParseRef("$entity." + a) == AnyOf(a) && ParseRef("$new." + a) == New(a)
    ensures NoDot(b) ==> ParseRef("$ref." + a + "." + b) == StepRef(a, b)
    ensures NoDot(b) ==> ParseRef("$ref." + b) == Malformed
  {
    hide LastDot;
    EntityForm(a);
    NewForm(a);
    if NoDot(b) {
      LastDotAt(a, b);
      RefForm(a + "." + b);
      assert "$ref." + a + "." + b == "$ref." + (a + "." + b);
      assert (a + "." + b)[..|a|] == a && (a + "." + b)[|a| + 1..] == b;
      RefForm(b);
      NoLastDot(b);
    }
  }

  lemma {:induction false} NoLastDot(b: string)
    requires NoDot(b)
    ensures LastDot(b) == -1
  {
  }

  lemma {:induction false} EntityForm(a: string)
    ensures ParseRef("$entity." + a) == AnyOf(a)
  {
    var s := "$entity." + a;
    assert s[1] == 'e' && "$flow"[1] == 'f';
    assert s[..8] == "$entity." && s[8..] == a;
  }

  lemma {:induction false} NewForm(a: string)
    ensures ParseRef("$new." + a) == New(a)
  {
    var s := "$new." + a;
    assert s[1] == 'n' && "$flow"[1] == 'f';
    assert |s| >= 8 ==> s[..8][1] == 'n' && "$entity."[1] == 'e';
    assert s[..5] == "$new." && s[5..] == a;
  }

  lemma {:induction false} RefForm(a: string)
    ensures var s := "$ref." + a;
      ParseRef(s) == if LastDot(a) < 0 then Malformed else StepRef(a[..LastDot(a)], a[LastDot(a) + 1..])
  {
    hide LastDot;
    var s := "$ref." + a;
    assert s[1] == 'r' && "$flow"[1] == 'f';
    assert |s| >= 8 ==> s[..8][1] == 'r' && "$entity."[1] == 'e';
    assert s[..5][1] == 'r' && "$new."[1] == 'n';
    assert s[..5] == "$ref." && s[5..] == a;
  }

  /** Anything that does not start with a dollar sign is a plain name. */
  lemma {:induction false} PlainForm(s: string)
    requires s == "" || s[0] != '$'
    ensures ParseRef(s) == Plain(s)
  {
    assert |s| >= 8 ==> s[..8][0] == s[0] && "$entity."[0] == '$';
    assert |s| >= 5 ==> s[..5][0] == s[0] && "$new."[0] == '$' && "$ref."[0] == '$';
  }

  /** The primary type: `for_each`, else what stands before the first dot of the first event type. */
  lemma {:induction false} PrimaryTypeIs(scn: Scenario, a: string, b: string)
    ensures scn.forEach.Some? && scn.forEach.value != "" ==>
      PrimaryType(scn) == scn.forEach.value && PrimaryWarnings(scn) == []
    ensures (scn.forEach.None? || scn.forEach.value == "") && scn.timeline != [] && NoDot(a) ==>
      var event := scn.timeline[0].event;
      event == a || event == a + "." + b ==>
        PrimaryType(scn) == a && PrimaryWarnings(scn) == [InferredPrimary(a, event)]
  {
    if NoDot(a) {
      BeforeDot(a, b);
    }
  }

  lemma {:induction false} BeforeDot(a: string, b: string)
    requires NoDot(a)
    ensures FirstPart(a) == a && FirstPart(a + "." + b) == a
  {
    var s := a + "." + b;
    if a == "" {
      assert s[0] == '.';
    } else {
      assert s[1..] == a[1..] + "." + b && s[0] == a[0];
      BeforeDot(a[1..], b);
      assert [a[0]] + a[1..] == a;
    }
  }

  // ---------------------------------------------------------------- identifiers

  function Pow10(n: nat): nat { if n == 0 then 1 else 10 * Pow10(n - 1) }

  /** Padding fills up to the width and no further. */
  lemma {:induction false} PadLength(n: nat, width: nat)
    requires width >= 1
    ensures n < Pow10(width) ==> |Pad(n, width)| == width
    ensures n >= Pow10(width) ==> |Pad(n, width)| > width && Pad(n, width)[0] != '0'
    decreases width
  {
    if width > 1 {
      PadLength(n / 10, width - 1);
    } else if n >= 10 {
      PadFirst(n / 10);
    }
  }

  lemma {:induction false} PadFirst(n: nat)
    requires n >= 1
    ensures Pad(n, 0)[0] != '0'
  {
    if n >= 10 {
      PadFirst(n / 10);
    }
  }

  /** The ids, letter by letter: flow and step with at least three digits each, noise with five. */
  lemma {:induction false} IdFormats(scenario: string, f: nat, k: nat, key: string)
    ensures EventId(scenario, f, k) == "evt-" + Slug(scenario) + "-" + (Pad(f, 3) + "-" + Pad(k, 3))
    ensures f < 1000 ==> |Pad(f, 3)| == 3 && Numeral(Pad(f, 3)) == f && IsDigits(Pad(f, 3))
    ensures NoiseId(scenario, k) == "evt-" + Slug(scenario) + "-" + ("noise-" + Pad(k, 5))
    ensures k < 100000 ==> |Pad(k, 5)| == 5 && Numeral(Pad(k, 5)) == k
    ensures EntityId(key, k) == key + "_" + Pad(k, 3)
    ensures |Slug(scenario)| == |scenario|
      && forall i :: 0 <= i < |scenario| ==> Slug(scenario)[i] == if scenario[i] == '_' then '-' else scenario[i]
  {
    hide Pad, Numeral;
    assert Pow10(3) == 1000 && Pow10(5) == 100000 by {
      assert Pow10(2) == 100 && Pow10(4) == 10000;
    }
    PadLength(f, 3);
    PadLength(k, 5);
    PadRoundTrip(f, 3);
    PadRoundTrip(k, 5);
  }

  // ---------------------------------------------------------------- entities and pools

  function CountBefore(templates: seq<Template>, k: nat): nat
    requires k <= |templates|
  {
    if k == 0 then 0 else CountBefore(templates, k - 1) + templates[k - 1].count
  }

  /** Entities stand template after template, numbered from 1, each of its template's type or key. */
  lemma {:induction false} GenerateAt(templates: seq<Template>, k: nat, c: nat)
    requires k < |templates| && c < templates[k].count
    ensures CountBefore(templates, k) + c < |Generate(templates)| == CountBefore(templates, |templates|)
    ensures var t, e := templates[k], Generate(templates)[CountBefore(templates, k) + c];
      e.id == EntityId(t.key, c + 1)
      && e.kind == if t.kind.Some? && t.kind.value != "" then t.kind.value else t.key
  {
    hide EntityId;
    var n := |templates| - 1;
    var t, a := templates[n], Generate(templates[..n]);
    TemplateAt(t, t.count);
    GenerateLength(templates[..n]);
    CountSame(templates, n, n);
    CountSame(templates, n, k);
    if k < n {
      GenerateAt(templates[..n], k, c);
    }
  }

  lemma {:induction false} CountSame(templates: seq<Template>, n: nat, k: nat)
    requires k <= n <= |templates|
    ensures CountBefore(templates[..n], k) == CountBefore(templates, k)
  {
    if k > 0 {
      CountSame(templates, n, k - 1);
    }
  }

  lemma {:induction false} GenerateLength(templates: seq<Template>)
    ensures |Generate(templates)| == CountBefore(templates, |templates|)
  {
    if templates != [] {
      var n := |templates| - 1;
      GenerateLength(templates[..n]);
      CountSame(templates, n, n);
      TemplateAt(templates[n], templates[n].count);
    }
  }

  lemma {:induction false} TemplateAt(t: Template, n: nat)
    ensures |FromTemplate(t, n)| == n
    ensures var kind := if t.kind.Some? && t.kind.value != "" then t.kind.value else t.key;
      forall c :: 0 <= c < n ==> FromTemplate(t, n)[c] == Entity(EntityId(t.key, c + 1), kind)
  {
    hide EntityId;
    if n > 0 {
      TemplateAt(t, n - 1);
    }
  }

  function OfType(kind: string): Entity -> bool { (e: Entity) => e.kind == kind }

  /** A pool lists the entities of its type in their order, and there is one exactly if some exist. */
  lemma {:induction false} PoolIs(entities: seq<Entity>, kind: string)
    ensures var pool := if kind in GroupByType(entities) then GroupByType(entities)[kind] else [];
      pool == Filter(OfType(kind), entities)
    ensures kind in GroupByType(entities) <==> Filter(OfType(kind), entities) != []
  {
    if entities != [] {
      var n := |entities| - 1;
      PoolIs(entities[..n], kind);
      assert entities == entities[..n] + [entities[n]];
      FilterAppend(OfType(kind), entities[..n], [entities[n]]);
      assert [entities[n]][1..] == [];
      assert Filter(OfType(kind), entities[..n]) + [] == Filter(OfType(kind), entities[..n]);
    }
  }

  // ---------------------------------------------------------------- resolving one spec

  /** `$entity.<kind>` can give any entity of the pool; with an empty pool it gives "" and one warning. */
  lemma {:induction false} EntityReaches(
      w: World, kind: string, primary: Entity, byId: map<string, Event>, i: nat) returns (rng: Stream)
    ensures Candidates(w, kind) == [] ==>
      ResolveRef(w, "$entity." + kind, primary, byId, rng) == (w.(warnings := w.warnings + [NoEntityOf(kind)]), "")
    ensures i < |Candidates(w, kind)| ==>
      ResolveRef(w, "$entity." + kind, primary, byId, rng) == (w.(pos := w.pos + 1), Candidates(w, kind)[i].id)
  {
    hide ParseRef, Candidates;
    EntityForm(kind);
    rng := (p: nat) => Draw(0.0, i);
    if i < |Candidates(w, kind)| {
      ChoiceReaches(|Candidates(w, kind)|, i);
    }
  }

  /** `$new.<kind>` creates the next entity of the kind, at the end of both lists, and names it. */
  lemma {:induction false} NewIsNext(w: World, kind: string, primary: Entity, byId: map<string, Event>, rng: Stream)
    ensures var (w', v) := ResolveRef(w, "$new." + kind, primary, byId, rng);
      var n := (if kind in w.counters then w.counters[kind] else 0) + 1;
      v == EntityId(kind, n) && w'.entities == w.entities + [Entity(v, kind)]
      && w'.counters == w.counters[kind := n] && w'.pos == w.pos && w'.warnings == w.warnings
      && w'.byType == w.byType[kind := (if kind in w.byType then w.byType[kind] else []) + [Entity(v, kind)]]
  {
    hide ParseRef, EntityId;
    NewForm(kind);
  }

  /** A `$ref` that finds nothing gives "" and one warning; one that finds its role changes nothing. */
  lemma {:induction false} RefWarns(
      w: World, step: string, role: string, primary: Entity, byId: map<string, Event>, rng: Stream)
    requires NoDot(role)
    ensures var spec := "$ref." + step + "." + role;
      ResolveRef(w, spec, primary, byId, rng)
      == if step in byId && role in byId[step].refs then (w, byId[step].refs[role])
         else (w.(warnings := w.warnings + [Unresolved(spec)]), "")
  {
    hide ParseRef;
    SpecForms(step, role);
  }
}
