/** Keeping the first element of each key, as `drop_duplicates(subset=...)`
    and the `unique_names` loop of `search_by_keyword` do: a later element
    whose key was already kept is dropped, everything else keeps its
    place. */
module Dedup {
  import opened Seqs
  import opened Sorting

  function KeepFirst<T, K(==)>(s: seq<T>, key: T -> K): seq<T> {
    if s == [] then []
    else
      var kept := KeepFirst(AllButLast(s), key);
      if key(Last(s)) in Project(kept, key) then kept else kept + [Last(s)]
  }

  /** One more element: it is kept exactly when its key is new. */
  lemma KeepFirstSnoc<T, K>(s: seq<T>, x: T, key: T -> K)
    ensures KeepFirst(s + [x], key)
         == if key(x) in Project(KeepFirst(s, key), key) then KeepFirst(s, key) else KeepFirst(s, key) + [x]
  {
    assert AllButLast(s + [x]) == s && Last(s + [x]) == x;
  }

  /** Position `k` holds the first element of `s` with its key. */
  predicate FirstOfKey<T, K(==)>(s: seq<T>, key: T -> K, k: int) {
    0 <= k < |s| && forall j :: 0 <= j < k ==> key(s[j]) != key(s[k])
  }

  /** Every kept element comes from the input. */
  lemma {:induction false} KeepFirstWithin<T, K>(s: seq<T>, key: T -> K)
    ensures forall x :: x in KeepFirst(s, key) ==> x in s
  {
    if s != [] {
      KeepFirstWithin(AllButLast(s), key);
      forall x | x in AllButLast(s) ensures x in s {
        var i :| 0 <= i < |AllButLast(s)| && AllButLast(s)[i] == x;
        assert s[i] == x;
      }
    }
  }

  /** No two kept elements share a key. */
  lemma {:induction false} KeepFirstDistinct<T, K>(s: seq<T>, key: T -> K)
    ensures Distinct(Project(KeepFirst(s, key), key))
  {
    if s != [] {
      var kept := KeepFirst(AllButLast(s), key);
      KeepFirstDistinct(AllButLast(s), key);
      if key(Last(s)) !in Project(kept, key) {
        var r := kept + [Last(s)];
        assert Project(r, key) == Project(kept, key) + [key(Last(s))];
      }
    }
  }

  /** Every kept element is the first of its key in the input. */
  lemma {:induction false} KeepFirstSound<T, K>(s: seq<T>, key: T -> K, x: T)
    requires x in KeepFirst(s, key)
    ensures exists k :: FirstOfKey(s, key, k) && s[k] == x
  {
    var init := AllButLast(s);
    var kept := KeepFirst(init, key);
    if x in kept {
      KeepFirstSound(init, key, x);
      var k :| FirstOfKey(init, key, k) && init[k] == x;
      assert FirstOfKey(s, key, k) && s[k] == x;
    } else {
      assert x == Last(s) && key(x) !in Project(kept, key);
      assert key(x) !in SetOf(Project(kept, key));
      KeepFirstKeys(init, key);
      forall j | 0 <= j < |s| - 1 ensures key(s[j]) != key(x) {
        assert Project(init, key)[j] == key(init[j]) == key(s[j]);
        assert key(s[j]) in SetOf(Project(kept, key));
      }
      assert FirstOfKey(s, key, |s| - 1);
    }
  }

  /** The kept keys are exactly the keys of the input. */
  lemma {:induction false} KeepFirstKeys<T, K>(s: seq<T>, key: T -> K)
    ensures SetOf(Project(KeepFirst(s, key), key)) == SetOf(Project(s, key))
  {
    if s != [] {
      var init := AllButLast(s);
      var kept := KeepFirst(init, key);
      KeepFirstKeys(init, key);
      assert s == init + [Last(s)];
      assert Project(s, key) == Project(init, key) + [key(Last(s))];
      SetOfSnoc(Project(init, key), key(Last(s)));
      if key(Last(s)) !in Project(kept, key) {
        assert Project(kept + [Last(s)], key) == Project(kept, key) + [key(Last(s))];
        SetOfSnoc(Project(kept, key), key(Last(s)));
      } else {
        assert key(Last(s)) in SetOf(Project(kept, key)) by {
          var i :| 0 <= i < |Project(kept, key)| && Project(kept, key)[i] == key(Last(s));
        }
      }
    }
  }

  /** The first element of every key is kept. */
  lemma {:induction false} KeepFirstComplete<T, K>(s: seq<T>, key: T -> K, k: int)
    requires FirstOfKey(s, key, k)
    ensures s[k] in KeepFirst(s, key)
  {
    var init := AllButLast(s);
    var kept := KeepFirst(init, key);
    if k < |s| - 1 {
      assert FirstOfKey(init, key, k) && init[k] == s[k];
      KeepFirstComplete(init, key, k);
    } else {
      KeepFirstWithin(init, key);
      forall i | 0 <= i < |kept| ensures Project(kept, key)[i] != key(Last(s)) {
        assert kept[i] in init;
        var j :| 0 <= j < |init| && init[j] == kept[i];
        assert s[j] == kept[i];
      }
    }
  }

  /** Dropping elements keeps a sorted list sorted. */
  lemma {:induction false} KeepFirstSorted<T, K>(s: seq<T>, key: T -> K, order: T -> real, descending: bool)
    requires SortedBy(order, descending, s)
    ensures SortedBy(order, descending, KeepFirst(s, key))
  {
    if s != [] {
      var init := AllButLast(s);
      var kept := KeepFirst(init, key);
      KeepFirstSorted(init, key, order, descending);
      KeepFirstWithin(init, key);
      if key(Last(s)) !in Project(kept, key) {
        var r := kept + [Last(s)];
        forall i, j | 0 <= i < j < |r| ensures InOrder(order, descending, r[i], r[j]) {
          if j == |r| - 1 {
            assert r[i] in init;
            var m :| 0 <= m < |init| && init[m] == r[i];
            assert s[m] == r[i] && s[|s| - 1] == r[j];
          } else {
            assert r[i] == kept[i] && r[j] == kept[j];
          }
        }
      }
    }
  }
}
