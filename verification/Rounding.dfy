/**
 * The two JavaScript roundings the money code uses, on exact reals.
 *
 * `Number.prototype.toFixed(2)` (ECMA-262, section 21.1.3.3) picks the integer n with
 * n/100 closest to the magnitude, the larger n on a tie, and puts the sign back.
 * `Math.round` (section 21.3.2.28) picks the closest integer, the larger one on a tie.
 * Magnitudes of 10^21 and above print as they are; every double that large is an
 * integer, which rounding leaves alone, so one formula serves.
 */
module Rounding {
  import opened Prelude

  function Distance(m: int, x: real): real {
    Abs(m as real - x)
  }

  /** n is the closest integer to x, and the larger one when two are equally close. */
  ghost predicate IsNearest(n: int, x: real) {
    forall m: int :: Distance(n, x) <= Distance(m, x) && (Distance(n, x) == Distance(m, x) ==> m <= n)
  }

  /** x and y are at most e apart. */
  ghost predicate Within(x: real, y: real, e: real) {
    y - e <= x <= y + e
  }

  /** Math.round */
  function MathRound(x: real): (n: int)
    ensures n as real - 0.5 <= x < n as real + 0.5
  {
    (x + 0.5).Floor
  }

  /** MathRound is the only integer that the standard's wording allows. */
  lemma MathRoundIsNearest(x: real, n: int)
    ensures IsNearest(n, x) <==> n == MathRound(x)
  {
    var r := MathRound(x);
    forall m: int
      ensures Distance(r, x) <= Distance(m, x) && (Distance(r, x) == Distance(m, x) ==> m <= r)
    {
      if m > r { assert m as real >= r as real + 1.0; }
      if m < r { assert m as real <= r as real - 1.0; }
    }
    if IsNearest(n, x) {
      assert Distance(n, x) == Distance(r, x);
    }
  }

  /** x.toFixed(2) read back as a number, counted in hundredths. */
  function Hundredths(x: real): (n: int)
    ensures Abs(n as real - x * 100.0) <= 0.5
  {
    if x < 0.0 then -MathRound(-x * 100.0) else MathRound(x * 100.0)
  }

  /** Of a positive number the nearest hundredths, the larger on a tie; of a negative one those of its magnitude, with the sign put back. */
  lemma {:induction false} HundredthsAre(x: real, n: int)
    ensures x >= 0.0 ==> (IsNearest(n, x * 100.0) <==> n == Hundredths(x))
    ensures x < 0.0 ==> (IsNearest(n, -x * 100.0) <==> n == -Hundredths(x))
  {
    MathRoundIsNearest(x * 100.0, n);
    MathRoundIsNearest(-x * 100.0, n);
  }

  function Paise(n: int): real {
    n as real / 100.0
  }

  ghost predicate IsPaise(x: real) {
    exists n: int :: x == Paise(n)
  }

  /** parseFloat(x.toFixed(2)) */
  function ToFixed2(x: real): (r: real)
    ensures IsPaise(r) && Within(r, x, 0.005)
  {
    Paise(Hundredths(x))
  }

  /** Rounding keeps every amount that already has two decimals, and no other. */
  lemma {:induction false} ToFixed2Fixpoint(x: real)
    ensures ToFixed2(x) == x <==> IsPaise(x)
  {
    if n: int :| x == Paise(n) {
      assert Hundredths(x) == n;
    }
  }

  /** Differences of two-decimal amounts pass through toFixed(2) unchanged. */
  lemma {:induction false} ToFixed2OfDifference(a: real, b: real)
    requires IsPaise(a) && IsPaise(b)
    ensures IsPaise(a - b) && ToFixed2(a - b) == a - b
  {
    var m, n :| a == Paise(m) && b == Paise(n);
    assert a - b == Paise(m - n);
    ToFixed2Fixpoint(a - b);
  }
}
