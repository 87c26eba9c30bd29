/**
 A seeded random generator seen through its calls: the n-th call of a run reads the
 n-th draw of an arbitrary stream. Nothing is assumed about the draws.
 */
module Rng {
  import opened Common

  type Unit = r: real | 0.0 <= r <= 1.0

  /** What one call can use: a fraction for `random`/`uniform`, a number for `choice`. */
  datatype Draw = Draw(unit: Unit, pick: nat)

  type Stream = nat -> Draw

  /** Round half to even, as `timedelta(seconds=...)` rounds to microseconds. */
  function Round(x: real): (r: int)
    ensures x - 0.5 <= r as real <= x + 0.5
  {
    var f := x.Floor;
    var rest := x - f as real;
    if rest < 0.5 then f
    else if rest > 0.5 then f + 1
    else if f % 2 == 0 then f
    else f + 1
  }

  /** Rounding does not cross an integer. */
  lemma {:induction false} RoundWithin(x: real, a: int, b: int)
    requires a as real <= x <= b as real
    ensures a <= Round(x) <= b
  {
  }

  /** `timedelta(seconds=rng.uniform(lo, hi))`, all in microseconds; `lo` may exceed `hi`. */
  function Uniform(lo: int, hi: int, d: Draw): (r: int)
    ensures Min(lo, hi) <= r <= Max(lo, hi)
  {
    Scale(hi - lo, d.unit);
    RoundWithin((hi - lo) as real * d.unit, Min(0, hi - lo), Max(0, hi - lo));
    lo + Round((hi - lo) as real * d.unit)
  }

  /** `rng.choice` on a list of length `n`. */
  function Choice(n: nat, d: Draw): (i: nat)
    requires n > 0
    ensures i < n
  {
    d.pick % n
  }

  lemma {:induction false} Scale(span: int, u: Unit)
    ensures Min(0, span) as real <= span as real * u <= Max(0, span) as real
  {
    var s := span as real;
    assert s * (1.0 - u) == s - s * u;
    if s >= 0.0 {
      assert s * u >= 0.0 && s * (1.0 - u) >= 0.0;
    } else {
      assert s * u <= 0.0 && s * (1.0 - u) <= 0.0;
    }
  }

  // ---------------------------------------------------------------- what a draw can give

  /** Rounding is to the nearest integer, and to an even one from the middle. */
  lemma {:induction false} RoundEven(x: real)
    ensures x - 0.5 <= Round(x) as real <= x + 0.5
    ensures Round(x) as real == x - 0.5 || Round(x) as real == x + 0.5 ==> Round(x) % 2 == 0
  {
    var f := x.Floor;
    assert f as real <= x < f as real + 1.0;
    assert (f + 1) as real == f as real + 1.0;
  }

  lemma {:induction false} Quotient(a: real, b: real)
    requires 0.0 <= a <= b && b > 0.0
    ensures 0.0 <= a / b <= 1.0 && b * (a / b) == a
  {
  }

  /** The draw that gives `k`. */
  function DrawBetween(lo: int, hi: int, k: int): Draw {
    if !(Min(lo, hi) <= k <= Max(lo, hi)) || lo == hi then Draw(0.0, 0)
    else if lo < hi then Quotient((k - lo) as real, (hi - lo) as real); Draw((k - lo) as real / (hi - lo) as real, 0)
    else Quotient((lo - k) as real, (lo - hi) as real); Draw((lo - k) as real / (lo - hi) as real, 0)
  }

  lemma {:induction false} DrawSpans(lo: int, hi: int, k: int)
    requires Min(lo, hi) <= k <= Max(lo, hi)
    ensures (hi - lo) as real * DrawBetween(lo, hi, k).unit == (k - lo) as real
  {
    hide Round;
    if lo < hi {
      Quotient((k - lo) as real, (hi - lo) as real);
    } else if hi < lo {
      Quotient((lo - k) as real, (lo - hi) as real);
      Negated((lo - hi) as real, (lo - k) as real / (lo - hi) as real);
    }
  }

  lemma {:induction false} Negated(s: real, u: real)
    ensures (0.0 - s) * u == 0.0 - s * u
  {
  }

  /** Every value between the bounds can be drawn. */
  lemma {:induction false} UniformReaches(lo: int, hi: int, k: int)
    requires Min(lo, hi) <= k <= Max(lo, hi)
    ensures Uniform(lo, hi, DrawBetween(lo, hi, k)) == k
  {
    hide Round, DrawBetween;
    DrawSpans(lo, hi, k);
    RoundWithin((k - lo) as real, k - lo, k - lo);
  }

  /** And every element of a list can be chosen. */
  lemma {:induction false} ChoiceReaches(n: nat, i: nat)
    requires i < n
    ensures Choice(n, Draw(0.0, i)) == i
  {
  }
}
