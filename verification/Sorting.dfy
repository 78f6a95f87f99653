/**
 * JavaScript's Array.prototype.sort with a numeric comparator: a stable sort by key.
 * What the callers rely on is that the result is ordered, holds the same elements,
 * and keeps elements with equal keys in their original order.
 */
module Sorting {
  ghost predicate SortedBy<T>(xs: seq<T>, key: T -> real) {
    forall i, j | 0 <= i < j < |xs| :: key(xs[i]) <= key(xs[j])
  }

  ghost predicate StrictlySortedBy<T>(xs: seq<T>, key: T -> real) {
    forall i, j | 0 <= i < j < |xs| :: key(xs[i]) < key(xs[j])
  }

  /** The elements whose key is k, in their order of appearance. */
  function WithKey<T>(xs: seq<T>, key: T -> real, k: real): seq<T> {
    if xs == [] then []
    else WithKey(xs[..|xs| - 1], key, k) + (if key(xs[|xs| - 1]) == k then [xs[|xs| - 1]] else [])
  }

  function Insert<T>(xs: seq<T>, x: T, key: T -> real): seq<T> {
    if xs == [] then [x]
    else if key(x) < key(xs[|xs| - 1]) then Insert(xs[..|xs| - 1], x, key) + [xs[|xs| - 1]]
    else xs + [x]
  }

  function StableSort<T>(xs: seq<T>, key: T -> real): seq<T> {
    if xs == [] then [] else Insert(StableSort(xs[..|xs| - 1], key), xs[|xs| - 1], key)
  }

  /** What WithKey says of a sequence and one more element. */
  lemma {:induction false} WithKeySnoc<T>(xs: seq<T>, x: T, key: T -> real, k: real)
    ensures WithKey(xs + [x], key, k) == WithKey(xs, key, k) + (if key(x) == k then [x] else [])
  {
    assert (xs + [x])[..|xs|] == xs;
  }

  lemma {:induction false} InsertElements<T>(xs: seq<T>, x: T, key: T -> real)
    ensures multiset(Insert(xs, x, key)) == multiset(xs) + multiset{x}
  {
    if xs != [] && key(x) < key(xs[|xs| - 1]) {
      assert xs == xs[..|xs| - 1] + [xs[|xs| - 1]];
      InsertElements(xs[..|xs| - 1], x, key);
    }
  }

  lemma {:induction false} InsertKeepsOrder<T>(xs: seq<T>, x: T, key: T -> real)
    requires SortedBy(xs, key)
    ensures SortedBy(Insert(xs, x, key), key)
  {
    if xs != [] && key(x) < key(xs[|xs| - 1]) {
      var init, last := xs[..|xs| - 1], xs[|xs| - 1];
      InsertKeepsOrder(init, x, key);
      InsertElements(init, x, key);
      var r := Insert(init, x, key);
      forall i | 0 <= i < |r| ensures key(r[i]) <= key(last) {
        assert r[i] in multiset(r);
        assert r[i] == x || r[i] in init;
      }
    }
  }

  lemma {:induction false} InsertIsStable<T>(xs: seq<T>, x: T, key: T -> real, k: real)
    ensures WithKey(Insert(xs, x, key), key, k) == WithKey(xs, key, k) + (if key(x) == k then [x] else [])
    requires SortedBy(xs, key)
  {
    WithKeySnoc(xs, x, key, k);
    if xs != [] && key(x) < key(xs[|xs| - 1]) {
      var init, last := xs[..|xs| - 1], xs[|xs| - 1];
      InsertIsStable(init, x, key, k);
      WithKeySnoc(Insert(init, x, key), last, key, k);
    } else {
      assert xs == [] ==> xs + [x] == [x];
    }
  }

  lemma {:induction false} StableSortFacts<T>(xs: seq<T>, key: T -> real)
    ensures SortedBy(StableSort(xs, key), key)
    ensures multiset(StableSort(xs, key)) == multiset(xs)
    ensures forall k :: WithKey(StableSort(xs, key), key, k) == WithKey(xs, key, k)
  {
    if xs != [] {
      var init, last := xs[..|xs| - 1], xs[|xs| - 1];
      assert xs == init + [last];
      StableSortFacts(init, key);
      InsertElements(StableSort(init, key), last, key);
      InsertKeepsOrder(StableSort(init, key), last, key);
      forall k ensures WithKey(StableSort(xs, key), key, k) == WithKey(xs, key, k) {
        InsertIsStable(StableSort(init, key), last, key, k);
      }
    }
  }

  /** Membership and length, in the forms callers use. */
  lemma StableSortMembers<T>(xs: seq<T>, key: T -> real)
    ensures |StableSort(xs, key)| == |xs|
    ensures forall x :: x in StableSort(xs, key) <==> x in xs
  {
    StableSortFacts(xs, key);
    var s := StableSort(xs, key);
    assert |multiset(s)| == |multiset(xs)|;
    forall x ensures x in s <==> x in xs {
      assert x in multiset(s) <==> x in multiset(xs);
    }
  }

  ghost predicate SameKeys<T(!new)>(f: T -> real, g: T -> real) {
    forall x :: f(x) == g(x)
  }

  lemma {:induction false} InsertBySameKeys<T(!new)>(xs: seq<T>, x: T, f: T -> real, g: T -> real)
    requires SameKeys(f, g)
    ensures Insert(xs, x, f) == Insert(xs, x, g)
  {
    if xs != [] { InsertBySameKeys(xs[..|xs| - 1], x, f, g); }
  }

  /** Two comparators that agree sort alike. */
  lemma {:induction false} SortBySameKeys<T(!new)>(xs: seq<T>, f: T -> real, g: T -> real)
    requires SameKeys(f, g)
    ensures StableSort(xs, f) == StableSort(xs, g)
  {
    if xs != [] {
      SortBySameKeys(xs[..|xs| - 1], f, g);
      InsertBySameKeys(StableSort(xs[..|xs| - 1], f), xs[|xs| - 1], f, g);
    }
  }

  ghost predicate DistinctBy<T>(xs: seq<T>, key: T -> real) {
    forall i, j | 0 <= i < j < |xs| :: key(xs[i]) != key(xs[j])
  }

  lemma {:induction false} InsertStaysStrict<T>(xs: seq<T>, x: T, key: T -> real)
    requires StrictlySortedBy(xs, key) && forall y | y in xs :: key(y) != key(x)
    ensures StrictlySortedBy(Insert(xs, x, key), key)
  {
    if xs != [] && key(x) < key(xs[|xs| - 1]) {
      var init, last := xs[..|xs| - 1], xs[|xs| - 1];
      InsertStaysStrict(init, x, key);
      InsertElements(init, x, key);
      var r := Insert(init, x, key);
      forall i | 0 <= i < |r| ensures key(r[i]) < key(last) {
        assert r[i] in multiset(r);
        assert r[i] == x || r[i] in init;
      }
    } else if xs != [] {
      assert xs[|xs| - 1] in xs;
    }
  }

  /** Distinct keys come out strictly increasing. */
  lemma {:induction false} DistinctKeysSortStrictly<T>(xs: seq<T>, key: T -> real)
    requires DistinctBy(xs, key)
    ensures StrictlySortedBy(StableSort(xs, key), key)
  {
    if xs != [] {
      var init, last := xs[..|xs| - 1], xs[|xs| - 1];
      var order := StableSort(init, key);
      DistinctKeysSortStrictly(init, key);
      StableSortFacts(init, key);
      forall k | 0 <= k < |order| ensures key(order[k]) != key(last) {
        assert order[k] in multiset(order) && order[k] in multiset(init);
        var i :| 0 <= i < |init| && init[i] == order[k];
        assert xs[i] == order[k];
      }
      InsertStaysStrict(order, last, key);
    }
  }

  /** In a strictly ordered sequence only the last element reaches the last key. */
  lemma {:induction false} LastIsGreatest<T>(a: seq<T>, x: T, key: T -> real)
    requires StrictlySortedBy(a, key) && x in a
    ensures key(x) <= key(a[|a| - 1])
    ensures key(x) == key(a[|a| - 1]) ==> x == a[|a| - 1]
    ensures x in a[..|a| - 1] <==> x != a[|a| - 1]
  {
    var i :| 0 <= i < |a| && a[i] == x;
    if i < |a| - 1 { assert a[..|a| - 1][i] == x; }
    if x in a[..|a| - 1] {
      var j :| 0 <= j < |a| - 1 && a[j] == x;
    }
  }

  lemma InInit<T>(a: seq<T>, z: T, key: T -> real)
    requires StrictlySortedBy(a, key) && a != []
    ensures z in a[..|a| - 1] <==> z in a && z != a[|a| - 1]
  {
    assert z in a[..|a| - 1] ==> z in a;
    if z in a { LastIsGreatest(a, z, key); }
  }

  ghost predicate SameMembers<T>(a: seq<T>, b: seq<T>) {
    (forall x | x in a :: x in b) && (forall x | x in b :: x in a)
  }

  lemma SameLast<T>(a: seq<T>, b: seq<T>, key: T -> real)
    requires StrictlySortedBy(a, key) && StrictlySortedBy(b, key) && SameMembers(a, b) && a != [] && b != []
    ensures a[|a| - 1] == b[|b| - 1]
  {
    var x, y := a[|a| - 1], b[|b| - 1];
    assert x in a && y in b;
    LastIsGreatest(a, y, key);
    LastIsGreatest(b, x, key);
  }

  lemma SameInits<T>(a: seq<T>, b: seq<T>, key: T -> real)
    requires StrictlySortedBy(a, key) && StrictlySortedBy(b, key) && SameMembers(a, b) && a != [] && b != []
    ensures SameMembers(a[..|a| - 1], b[..|b| - 1])
  {
    var a', b' := a[..|a| - 1], b[..|b| - 1];
    SameLast(a, b, key);
    forall z | z in a' ensures z in b' {
      InInit(a, z, key);
      InInit(b, z, key);
    }
    forall z | z in b' ensures z in a' {
      InInit(a, z, key);
      InInit(b, z, key);
    }
  }

  /** Strictly increasing keys leave only one possible order. */
  lemma {:induction false} StrictOrderIsUnique<T>(a: seq<T>, b: seq<T>, key: T -> real)
    requires StrictlySortedBy(a, key) && StrictlySortedBy(b, key) && SameMembers(a, b)
    ensures a == b
    decreases |a|
  {
    assert b != [] ==> b[0] in b;
    if a != [] {
      assert a[0] in a;
      SameLast(a, b, key);
      SameInits(a, b, key);
      StrictOrderIsUnique(a[..|a| - 1], b[..|b| - 1], key);
      assert a == a[..|a| - 1] + [a[|a| - 1]] && b == b[..|b| - 1] + [b[|b| - 1]];
    }
  }
}
