/**
 Identifiers: zero-padded counters (eventweave/compiler/planner.py:56-59, 274-276 and
 eventweave/compiler/noise_generator.py:75-78).
 */
module Ids {
  function Digit(d: nat): char
    requires d < 10
  {
    ('0' as int + d) as char
  }

  predicate IsDigits(s: string) { forall i :: 0 <= i < |s| ==> '0' <= s[i] <= '9' }

  /** The decimal numeral of `n`, with at least `width` digits: the format `{n:0<width>d}`. */
  function Pad(n: nat, width: nat): (s: string)
    ensures IsDigits(s) && |s| >= 1 && |s| >= width
  {
    if n < 10 && width <= 1 then [Digit(n)]
    else Pad(n / 10, if width == 0 then 0 else width - 1) + [Digit(n % 10)]
  }

  function DigitValue(c: char): int { c as int - '0' as int }

  /** The number a numeral denotes. */
  function Numeral(s: string): int {
    if s == "" then 0 else 10 * Numeral(s[..|s| - 1]) + DigitValue(s[|s| - 1])
  }

  /** Padding loses nothing. */
  lemma {:induction false} PadRoundTrip(n: nat, width: nat)
    ensures Numeral(Pad(n, width)) == n
  {
    if n < 10 && width <= 1 {
      assert [Digit(n)][..0] == "";
    } else {
      var w := if width == 0 then 0 else width - 1;
      var p := Pad(n / 10, w);
      PadRoundTrip(n / 10, w);
      assert (p + [Digit(n % 10)])[..|p|] == p;
    }
  }

  lemma {:induction false} PadInjective(a: nat, b: nat, width: nat)
    requires Pad(a, width) == Pad(b, width)
    ensures a == b
  {
    PadRoundTrip(a, width);
    PadRoundTrip(b, width);
  }

  /** `scenario.id.replace("_", "-")` */
  function Slug(id: string): string {
    seq(|id|, i requires 0 <= i < |id| => if id[i] == '_' then '-' else id[i])
  }

  function EventId(scenario: string, flowIndex: nat, stepIndex: nat): string {
    "evt-" + Slug(scenario) + "-" + (Pad(flowIndex, 3) + "-" + Pad(stepIndex, 3))
  }

  function NoiseId(scenario: string, n: nat): string {
    "evt-" + Slug(scenario) + "-" + ("noise-" + Pad(n, 5))
  }

  function EntityId(kind: string, n: nat): string { kind + "_" + Pad(n, 3) }

  /** A digit string ends where the first non-digit stands. */
  lemma {:induction false} SplitDigits(a: string, x: string, b: string, y: string)
    requires IsDigits(a) && IsDigits(b)
    requires a + "-" + x == b + "-" + y
    ensures a == b && x == y
  {
    var s := a + "-" + x;
    assert s[|a|] == '-' && s[|b|] == '-';
    assert forall i :: 0 <= i < |a| ==> s[i] == a[i];
    assert forall i :: 0 <= i < |b| ==> s[i] == b[i];
    assert |a| == |b|;
    assert a == s[..|a|] == b;
    assert x == s[|a| + 1..] == y;
  }

  /** Timeline ids determine their flow and step. */
  lemma {:induction false} EventIdInjective(scenario: string, f: nat, s: nat, f': nat, s': nat)
    requires EventId(scenario, f, s) == EventId(scenario, f', s')
    ensures f == f' && s == s'
  {
    var prefix := "evt-" + Slug(scenario) + "-";
    var a, b := Pad(f, 3) + "-" + Pad(s, 3), Pad(f', 3) + "-" + Pad(s', 3);
    assert (prefix + a)[|prefix|..] == a && (prefix + b)[|prefix|..] == b;
    SplitDigits(Pad(f, 3), Pad(s, 3), Pad(f', 3), Pad(s', 3));
    PadInjective(f, f', 3);
    PadInjective(s, s', 3);
  }

  lemma {:induction false} NoiseIdInjective(scenario: string, n: nat, n': nat)
    requires NoiseId(scenario, n) == NoiseId(scenario, n')
    ensures n == n'
  {
    var prefix := "evt-" + Slug(scenario) + "-";
    var a, b := "noise-" + Pad(n, 5), "noise-" + Pad(n', 5);
    assert (prefix + a)[|prefix|..] == a && (prefix + b)[|prefix|..] == b;
    assert a[6..] == Pad(n, 5) && b[6..] == Pad(n', 5);
    PadInjective(n, n', 5);
  }

  /** No noise id is a timeline id. */
  lemma {:induction false} NoiseIdFresh(scenario: string, f: nat, s: nat, n: nat)
    ensures EventId(scenario, f, s) != NoiseId(scenario, n)
  {
    var prefix := "evt-" + Slug(scenario) + "-";
    var a, b := Pad(f, 3) + "-" + Pad(s, 3), "noise-" + Pad(n, 5);
    assert (prefix + a)[|prefix|..] == a && (prefix + b)[|prefix|..] == b;
    assert a[0] == Pad(f, 3)[0];
    assert b[0] == 'n';
  }

  /** Entity ids determine their type and number, and are never "" or "global". */
  lemma {:induction false} EntityIdInjective(k: string, n: nat, k': string, n': nat)
    requires EntityId(k, n) == EntityId(k', n')
    ensures k == k' && n == n'
  {
    var s, a, b := EntityId(k, n), Pad(n, 3), Pad(n', 3);
    assert s[|k|] == '_' && s[|k'|] == '_';
    assert forall i :: |k| < i < |s| ==> s[i] == a[i - |k| - 1];
    assert forall i :: |k'| < i < |s| ==> s[i] == b[i - |k'| - 1];
    assert |k| == |k'|;
    assert k == s[..|k|] == k';
    assert a == s[|k| + 1..] == b;
    PadInjective(n, n', 3);
  }

  lemma {:induction false} EntityIdNotGlobal(k: string, n: nat)
    ensures EntityId(k, n) != "" && EntityId(k, n) != "global"
  {
    var s := EntityId(k, n);
    assert s[|s| - 1] == Pad(n, 3)[|Pad(n, 3)| - 1];
    assert "global"[5] == 'l';
  }
}
