/**
 Sequences: regrouping, and a stable sort by an integer key.
 */
module Sequences {

  lemma Regroup<T>(a: seq<T>, b: seq<T>, c: seq<T>)
    ensures (a + b) + c == a + (b + c)
  {
  }

  /** Where `x` goes in a list sorted by `key`, after the elements that tie with it. */
  function Place<T>(x: T, xs: seq<T>, key: T -> int): (k: nat)
    ensures k <= |xs|
    ensures forall i :: k <= i < |xs| ==> key(xs[i]) > key(x)
    ensures k > 0 ==> key(xs[k - 1]) <= key(x)
  {
    if xs == [] || key(xs[|xs| - 1]) <= key(x) then |xs| else Place(x, xs[..|xs| - 1], key)
  }

  /** Stable sort by `key`. */
  function Sorted<T>(xs: seq<T>, key: T -> int): seq<T> {
    if xs == [] then []
    else
      var init := Sorted(xs[..|xs| - 1], key);
      var k := Place(xs[|xs| - 1], init, key);
      init[..k] + [xs[|xs| - 1]] + init[k..]
  }

  predicate InKeyOrder<T>(xs: seq<T>, key: T -> int) {
    forall i, j :: 0 <= i < j < |xs| ==> key(xs[i]) <= key(xs[j])
  }

  lemma PlaceKeepsOrder<T>(x: T, xs: seq<T>, key: T -> int)
    requires InKeyOrder(xs, key)
    ensures var k := Place(x, xs, key); InKeyOrder(xs[..k] + [x] + xs[k..], key)
  {
    var k := Place(x, xs, key);
    forall i | 0 <= i < k ensures key(xs[i]) <= key(x) {
      assert key(xs[i]) <= key(xs[k - 1]);
    }
  }

  lemma PlaceKeepsAll<T>(x: T, xs: seq<T>, k: nat)
    requires k <= |xs|
    ensures multiset(xs[..k] + [x] + xs[k..]) == multiset(xs + [x])
  {
    assert xs == xs[..k] + xs[k..];
  }

  /** The elements of one key, in order. */
  function OfKey<T>(xs: seq<T>, key: T -> int, v: int): seq<T> {
    if xs == [] then [] else OfKey(xs[..|xs| - 1], key, v) + if key(xs[|xs| - 1]) == v then [xs[|xs| - 1]] else []
  }

  lemma {:induction false} OfKeyConcat<T>(a: seq<T>, b: seq<T>, key: T -> int, v: int)
    ensures OfKey(a + b, key, v) == OfKey(a, key, v) + OfKey(b, key, v)
  {
    if b == [] {
      assert a + b == a;
    } else {
      assert (a + b)[..|a + b| - 1] == a + b[..|b| - 1];
      OfKeyConcat(a, b[..|b| - 1], key, v);
    }
  }

  lemma {:induction false} NoneOfKey<T>(xs: seq<T>, key: T -> int, v: int)
    requires forall x :: x in xs ==> key(x) != v
    ensures OfKey(xs, key, v) == []
  {
    if xs != [] {
      NoneOfKey(xs[..|xs| - 1], key, v);
    }
  }

  lemma PlaceKeepsTies<T>(x: T, xs: seq<T>, key: T -> int, v: int)
    ensures var k := Place(x, xs, key); OfKey(xs[..k] + [x] + xs[k..], key, v) == OfKey(xs + [x], key, v)
  {
    hide OfKey;
    var k := Place(x, xs, key);
    assert xs == xs[..k] + xs[k..];
    OfKeyConcat(xs[..k], xs[k..], key, v);
    OfKeyConcat(xs[..k] + [x], xs[k..], key, v);
    OfKeyConcat(xs[..k], [x], key, v);
    OfKeyConcat(xs, [x], key, v);
    if v == key(x) {
      NoneOfKey(xs[k..], key, v);
    } else {
      NoneOfKey([x], key, v);
    }
  }

  /** The sort is stable: elements that tie keep their order. */
  lemma {:induction false} SortedIsStable<T>(xs: seq<T>, key: T -> int, v: int)
    ensures OfKey(Sorted(xs, key), key, v) == OfKey(xs, key, v)
  {
    if xs != [] {
      var rest, x := xs[..|xs| - 1], xs[|xs| - 1];
      SortedIsStable(rest, key, v);
      PlaceKeepsTies(x, Sorted(rest, key), key, v);
      OfKeyConcat(Sorted(rest, key), [x], key, v);
      OfKeyConcat(rest, [x], key, v);
      assert xs == rest + [x];
    }
  }

  /** Sorting orders the elements and keeps each as often as it was. */
  lemma {:induction false} SortedIs<T>(xs: seq<T>, key: T -> int)
    ensures InKeyOrder(Sorted(xs, key), key) && multiset(Sorted(xs, key)) == multiset(xs)
  {
    if xs != [] {
      var rest, x := xs[..|xs| - 1], xs[|xs| - 1];
      var init := Sorted(rest, key);
      SortedIs(rest, key);
      PlaceKeepsOrder(x, init, key);
      PlaceKeepsAll(x, init, Place(x, init, key));
      assert xs == rest + [x];
      assert multiset(init + [x]) == multiset(rest + [x]);
    }
  }
}
