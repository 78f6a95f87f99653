/** Stock result types and finite-set counting shared by the other modules. */
module Prelude {
  datatype Option<+T> = None | Some(value: T) {
    function GetOr(default: T): T {
      match this
      case Some(v) => v
      case None => default
    }
  }

  /** A return value, or the error that was thrown instead of it. */
  datatype Result<+T, +E> = Ok(value: T) | Err(error: E)

  function MaxInt(a: int, b: int): (m: int)
    ensures m >= a && m >= b && (m == a || m == b)
  {
    if a < b then b else a
  }

  function MaxReal(a: real, b: real): (m: real)
    ensures m >= a && m >= b && (m == a || m == b)
  {
    if a < b then b else a
  }

  function Abs(x: real): (a: real)
    ensures a >= 0.0 && (a == x || a == -x)
  {
    if x < 0.0 then -x else x
  }

  /** A set of indices that maps one-to-one into 0..n has at most n elements. */
  lemma {:induction false} InjectionBound(s: set<int>, f: int -> int, n: nat)
    requires forall i | i in s :: 0 <= f(i) < n
    requires forall i, j | i in s && j in s && i != j :: f(i) != f(j)
    ensures |s| <= n
    decreases n
  {
    if n == 0 {
      assert s == {} by {
        forall i ensures i !in s { }
      }
    } else if i :| i in s && f(i) == n - 1 {
      InjectionBound(s - {i}, f, n - 1);
    } else {
      InjectionBound(s, f, n - 1);
    }
  }

  lemma {:induction false} LeastElement(s: set<int>, w: int) returns (least: int)
    requires w in s
    ensures least in s && forall x | x in s :: least <= x
    decreases |s|
  {
    if x :| x in s && x < w {
      least := LeastElement(s - {w}, x);
      assert forall y | y in s :: y == w || y in s - {w};
    } else {
      least := w;
    }
  }

  /** Math.ceil of a quotient with a positive divisor. */
  function CeilDiv(x: int, y: int): (q: int)
    requires y > 0
    ensures (q - 1) * y < x <= q * y
  {
    (x + y - 1) / y
  }

  lemma {:induction false} Scales(a: int, b: int, d: int)
    requires a <= b && d > 0
    ensures a * d <= b * d
  {
    assert (b - a) * d == b * d - a * d;
  }

  lemma {:induction false} CeilDivGrows(x: int, y: int, d: int)
    requires x <= y && d > 0
    ensures CeilDiv(x, d) <= CeilDiv(y, d)
  {
    var p, q := CeilDiv(x, d), CeilDiv(y, d);
    if q < p { Scales(q, p - 1, d); }
  }

  // ----- runs -----

  /** p holds at every point of a run, before it and after each of its steps. */
  ghost predicate Throughout<S>(steps: seq<S>, p: seq<S> -> bool) {
    forall n | 0 <= n <= |steps| :: p(steps[..n])
  }

  /** p holds of every step of a run, given the steps before it. */
  ghost predicate AtEachTurn<S>(steps: seq<S>, p: (seq<S>, S) -> bool) {
    forall n | 0 <= n < |steps| :: p(steps[..n], steps[n])
  }

  lemma ThroughoutSnoc<S>(steps: seq<S>, p: seq<S> -> bool)
    requires steps != []
    ensures Throughout(steps, p) <==> Throughout(steps[..|steps| - 1], p) && p(steps)
  {
    var init := steps[..|steps| - 1];
    assert steps[..|steps|] == steps;
    forall n | 0 <= n <= |init| ensures init[..n] == steps[..n] { }
    assert Throughout(steps, p) ==> p(steps[..|steps|]);
    forall n | 0 <= n <= |init| && Throughout(steps, p) ensures p(init[..n]) { assert p(steps[..n]); }
    forall n | 0 <= n <= |steps| && Throughout(init, p) && p(steps) ensures p(steps[..n]) {
      if n <= |init| { assert p(init[..n]); }
    }
  }

  lemma AtEachTurnSnoc<S>(steps: seq<S>, p: (seq<S>, S) -> bool)
    requires steps != []
    ensures var init := steps[..|steps| - 1];
      AtEachTurn(steps, p) <==> AtEachTurn(init, p) && p(init, steps[|steps| - 1])
  {
    var init := steps[..|steps| - 1];
    forall n | 0 <= n < |init| ensures init[..n] == steps[..n] && init[n] == steps[n] { }
    assert AtEachTurn(steps, p) ==> p(steps[..|init|], steps[|init|]);
    forall n | 0 <= n < |init| && AtEachTurn(steps, p) ensures p(init[..n], init[n]) { assert p(steps[..n], steps[n]); }
    forall n | 0 <= n < |steps| && AtEachTurn(init, p) && p(init, steps[|init|]) ensures p(steps[..n], steps[n]) {
      if n < |init| { assert p(init[..n], init[n]); }
    }
  }

  /** p holds throughout exactly when q holds at each turn, if q says at each turn whether p goes on holding. */
  lemma {:induction false} ThroughoutIff<S(!new)>(steps: seq<S>, p: seq<S> -> bool, q: (seq<S>, S) -> bool)
    requires p([])
    requires forall init, last | p(init) :: p(init + [last]) <==> q(init, last)
    ensures Throughout(steps, p) <==> AtEachTurn(steps, q)
  {
    if steps == [] {
      assert steps[..0] == [];
    } else {
      var init, last := steps[..|steps| - 1], steps[|steps| - 1];
      ThroughoutIff(init, p, q);
      ThroughoutSnoc(steps, p);
      AtEachTurnSnoc(steps, q);
      assert init + [last] == steps;
      assert init[..|init|] == init;
      assert Throughout(init, p) ==> p(init[..|init|]);
    }
  }
}
