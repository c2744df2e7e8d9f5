/** Python's `sorted(xs, key=k, reverse=r)` and `list.sort(key=k, reverse=r)`:
    a stable sort on a real-valued key, ascending or descending.  Modelled as
    a stable insertion sort; what the rest of the model relies on is stated
    by the three lemmas below (ordered, a permutation, stable). */
module Sorting {

  /** `a` may stand before `b` in the sorted order. */
  predicate InOrder<T>(key: T -> real, descending: bool, a: T, b: T) {
    if descending then key(a) >= key(b) else key(a) <= key(b)
  }

  predicate SortedBy<T>(key: T -> real, descending: bool, s: seq<T>) {
    forall i, j :: 0 <= i < j < |s| ==> InOrder(key, descending, s[i], s[j])
  }

  /** The elements of `s` whose key is `v`, in their order in `s`. */
  function WithKey<T>(key: T -> real, v: real, s: seq<T>): seq<T> {
    if s == [] then []
    else (if key(s[0]) == v then [s[0]] else []) + WithKey(key, v, s[1..])
  }

  /** Places `x` before the first element it may precede; an element of
      equal key is preceded, which is what keeps the sort stable when
      elements are inserted from the back of the input forwards. */
  function Insert<T>(key: T -> real, descending: bool, x: T, s: seq<T>): seq<T> {
    if s == [] || InOrder(key, descending, x, s[0]) then [x] + s
    else [s[0]] + Insert(key, descending, x, s[1..])
  }

  function SortBy<T>(key: T -> real, descending: bool, s: seq<T>): seq<T> {
    if s == [] then [] else Insert(key, descending, s[0], SortBy(key, descending, s[1..]))
  }

  lemma {:induction false} InsertPermutes<T>(key: T -> real, descending: bool, x: T, s: seq<T>)
    ensures multiset(Insert(key, descending, x, s)) == multiset([x] + s)
  {
    if s != [] && !InOrder(key, descending, x, s[0]) {
      InsertPermutes(key, descending, x, s[1..]);
      assert s == [s[0]] + s[1..];
    }
  }

  lemma {:induction false} InsertSorted<T>(key: T -> real, descending: bool, x: T, s: seq<T>)
    requires SortedBy(key, descending, s)
    ensures SortedBy(key, descending, Insert(key, descending, x, s))
  {
    if s != [] && !InOrder(key, descending, x, s[0]) {
      var rest := Insert(key, descending, x, s[1..]);
      InsertSorted(key, descending, x, s[1..]);
      InsertPermutes(key, descending, x, s[1..]);
      forall y | y in rest
        ensures InOrder(key, descending, s[0], y)
      {
        assert y in multiset(rest);
        assert y in multiset([x] + s[1..]);
        if y != x {
          assert y in s[1..];
        }
      }
      var r := [s[0]] + rest;
      forall i, j | 0 <= i < j < |r|
        ensures InOrder(key, descending, r[i], r[j])
      {
        if i == 0 {
          assert r[j] in rest;
        } else {
          assert r[i] == rest[i - 1] && r[j] == rest[j - 1];
        }
      }
    }
  }

  lemma {:induction false} InsertWithKey<T>(key: T -> real, descending: bool, x: T, s: seq<T>, v: real)
    ensures WithKey(key, v, Insert(key, descending, x, s))
         == (if key(x) == v then [x] else []) + WithKey(key, v, s)
  {
    var r := Insert(key, descending, x, s);
    if s == [] || InOrder(key, descending, x, s[0]) {
      assert r[0] == x && r[1..] == s;
    } else {
      InsertWithKey(key, descending, x, s[1..], v);
      assert r[0] == s[0] && r[1..] == Insert(key, descending, x, s[1..]);
      assert key(s[0]) != key(x);
    }
  }

  /** The sorted list is ordered by the key. */
  lemma {:induction false} SortBySorted<T>(key: T -> real, descending: bool, s: seq<T>)
    ensures SortedBy(key, descending, SortBy(key, descending, s))
  {
    if s != [] {
      SortBySorted(key, descending, s[1..]);
      InsertSorted(key, descending, s[0], SortBy(key, descending, s[1..]));
    }
  }

  /** The sorted list holds exactly the input's elements. */
  lemma {:induction false} SortByPermutes<T>(key: T -> real, descending: bool, s: seq<T>)
    ensures multiset(SortBy(key, descending, s)) == multiset(s)
    ensures |SortBy(key, descending, s)| == |s|
  {
    if s != [] {
      SortByPermutes(key, descending, s[1..]);
      InsertPermutes(key, descending, s[0], SortBy(key, descending, s[1..]));
      assert s == [s[0]] + s[1..];
    }
    assert |multiset(SortBy(key, descending, s))| == |multiset(s)|;
  }

  /** Stability: elements of equal key keep their relative input order. */
  lemma {:induction false} SortByStable<T>(key: T -> real, descending: bool, s: seq<T>, v: real)
    ensures WithKey(key, v, SortBy(key, descending, s)) == WithKey(key, v, s)
  {
    if s != [] {
      SortByStable(key, descending, s[1..], v);
      InsertWithKey(key, descending, s[0], SortBy(key, descending, s[1..]), v);
    }
  }
}
