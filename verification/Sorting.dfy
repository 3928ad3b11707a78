/** Stable sorting by an integer key, as Python's sorted does. */
module Sorting {

  predicate SortedBy<T(!new)>(xs: seq<T>, key: T -> int) {
    forall i, j :: 0 <= i < j < |xs| ==> key(xs[i]) <= key(xs[j])
  }

  function Insert<T(!new)>(x: T, xs: seq<T>, key: T -> int): (r: seq<T>)
    requires SortedBy(xs, key)
    ensures SortedBy(r, key) && multiset(r) == multiset(xs) + multiset{x}
    ensures r != [] && (r[0] == x || (xs != [] && r[0] == xs[0]))
  {
    if xs == [] || key(x) <= key(xs[0]) then [x] + xs
    else
      assert xs == [xs[0]] + xs[1..];
      var rest := Insert(x, xs[1..], key);
      assert key(xs[0]) <= key(rest[0]);
      [xs[0]] + rest
  }

  function SortBy<T(!new)>(xs: seq<T>, key: T -> int): (r: seq<T>)
    ensures SortedBy(r, key) && multiset(r) == multiset(xs)
  {
    if xs == [] then []
    else
      assert xs == [xs[0]] + xs[1..];
      Insert(xs[0], SortBy(xs[1..], key), key)
  }

  /** Sorting what is sorted changes nothing. */
  lemma {:induction false} SortedIsFixed<T(!new)>(xs: seq<T>, key: T -> int)
    requires SortedBy(xs, key)
    ensures SortBy(xs, key) == xs
  {
    if xs != [] {
      SortedIsFixed(xs[1..], key);
    }
  }

  /** The elements with a given key, in order. */
  function OfKey<T(!new)>(xs: seq<T>, key: T -> int, k: int): seq<T> {
    if xs == [] then [] else (if key(xs[0]) == k then [xs[0]] else []) + OfKey(xs[1..], key, k)
  }

  lemma {:induction false} InsertIsStable<T(!new)>(x: T, xs: seq<T>, key: T -> int, k: int)
    requires SortedBy(xs, key)
    ensures OfKey(Insert(x, xs, key), key, k) == OfKey([x] + xs, key, k)
  {
    if xs == [] || key(x) <= key(xs[0]) {
    } else {
      InsertIsStable(x, xs[1..], key, k);
      var rest := Insert(x, xs[1..], key);
      assert Insert(x, xs, key) == [xs[0]] + rest;
      OfKeyCons(xs[0], rest, key, k);
      OfKeyCons(x, xs, key, k);
      OfKeyCons(x, xs[1..], key, k);
    }
  }

  lemma OfKeyCons<T(!new)>(x: T, xs: seq<T>, key: T -> int, k: int)
    ensures OfKey([x] + xs, key, k) == (if key(x) == k then [x] else []) + OfKey(xs, key, k)
  {
  }

  /** Elements with the same key keep their relative order. */
  lemma {:induction false} SortIsStable<T(!new)>(xs: seq<T>, key: T -> int, k: int)
    ensures OfKey(SortBy(xs, key), key, k) == OfKey(xs, key, k)
  {
    if xs != [] {
      SortIsStable(xs[1..], key, k);
      InsertIsStable(xs[0], SortBy(xs[1..], key), key, k);
      assert ([xs[0]] + SortBy(xs[1..], key))[1..] == SortBy(xs[1..], key);
    }
  }
}
