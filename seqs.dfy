/** Sequence helpers shared by the indexer, the evaluators and the metrics:
    Python's `list.count`, `set(list)` and duplicate-freedom. */
module Seqs {

  function Last<T>(s: seq<T>): T
    requires s != []
  {
    s[|s| - 1]
  }

  function AllButLast<T>(s: seq<T>): seq<T>
    requires s != []
  {
    s[..|s| - 1]
  }

  /** `[f(x) for x in s]`. */
  function Project<T, K>(s: seq<T>, f: T -> K): (r: seq<K>)
    ensures |r| == |s|
    ensures forall i :: 0 <= i < |s| ==> r[i] == f(s[i])
  {
    seq(|s|, i requires 0 <= i < |s| => f(s[i]))
  }

  /** `s.count(x)`: the number of positions holding `x`. */
  function Count<T(==)>(s: seq<T>, x: T): (n: nat)
    ensures n <= |s|
    ensures n > 0 <==> x in s
  {
    if s == [] then 0 else (if s[0] == x then 1 else 0) + Count(s[1..], x)
  }

  /** Appending one element counts it once more. */
  lemma {:induction false} CountSnoc<T>(s: seq<T>, x: T, y: T)
    ensures Count(s + [x], y) == Count(s, y) + (if x == y then 1 else 0)
  {
    if s != [] {
      CountSnoc(s[1..], x, y);
      assert (s + [x])[1..] == s[1..] + [x];
    }
  }

  /** `set(s)`. */
  function SetOf<T>(s: seq<T>): set<T> {
    set i | 0 <= i < |s| :: s[i]
  }

  predicate Distinct<T(==)>(s: seq<T>) {
    forall i, j :: 0 <= i < j < |s| ==> s[i] != s[j]
  }

  lemma {:induction false} SetOfCons<T>(s: seq<T>)
    requires s != []
    ensures SetOf(s) == {s[0]} + SetOf(s[1..])
  {
    var t := s[1..];
    forall x | x in SetOf(s) ensures x in {s[0]} + SetOf(t) {
      var i :| 0 <= i < |s| && s[i] == x;
      if i > 0 { assert x == t[i - 1]; }
    }
    forall x | x in SetOf(t) ensures x in SetOf(s) {
      var i :| 0 <= i < |t| && t[i] == x;
      assert x == s[i + 1];
    }
  }

  lemma SetOfSnoc<T>(s: seq<T>, x: T)
    ensures SetOf(s + [x]) == SetOf(s) + {x}
  {
    assert (s + [x])[|s|] == x;
    forall y | y in SetOf(s) ensures y in SetOf(s + [x]) {
      var j :| 0 <= j < |s| && s[j] == y;
      assert (s + [x])[j] == y;
    }
  }

  /** A duplicate-free list is as long as the set of its elements. */
  lemma {:induction false} DistinctCardinality<T>(s: seq<T>)
    requires Distinct(s)
    ensures |SetOf(s)| == |s|
  {
    if s != [] {
      var t := s[1..];
      DistinctCardinality(t);
      SetOfCons(s);
      forall i | 0 <= i < |t| ensures t[i] != s[0] {
        assert t[i] == s[i + 1];
      }
    }
  }

  /** A list as long as the set of its elements has no duplicate. */
  lemma {:induction false} CardinalityDistinct<T>(s: seq<T>)
    requires |SetOf(s)| == |s|
    ensures Distinct(s)
  {
    if s != [] {
      var t := s[1..];
      SetOfCons(s);
      SetOfCardinality(t);
      assert SetOf(s) == SetOf(t) + {s[0]};
      assert s[0] !in SetOf(t);
      CardinalityDistinct(t);
      forall i, j | 0 <= i < j < |s| ensures s[i] != s[j] {
        if i == 0 {
          assert s[j] == t[j - 1];
        } else {
          assert s[i] == t[i - 1] && s[j] == t[j - 1];
        }
      }
    }
  }

  /** `len(set(s)) <= len(s)`. */
  lemma {:induction false} SetOfCardinality<T>(s: seq<T>)
    ensures |SetOf(s)| <= |s|
  {
    if s != [] {
      SetOfCardinality(s[1..]);
      SetOfCons(s);
    }
  }

  lemma NoElementEmpty<T>(s: set<T>)
    ensures (forall y :: y !in s) ==> s == {}
  {
  }

  /** A witness that a non-empty set has an element; calling it lets the
      loops that take "any element" of a set choose one. */
  lemma Pick<T>(s: set<T>) returns (x: T)
    requires s != {}
    ensures x in s
  {
    NoElementEmpty(s);
    x :| x in s;
  }

  /** Reordering a list whose projection has no duplicate keeps the set of
      projected values, still without duplicates. */
  lemma PermutationProject<T, K>(a: seq<T>, b: seq<T>, f: T -> K)
    requires multiset(a) == multiset(b) && Distinct(Project(a, f))
    ensures SetOf(Project(b, f)) == SetOf(Project(a, f))
    ensures Distinct(Project(b, f))
  {
    assert |a| == |multiset(a)| == |multiset(b)| == |b|;
    var pa, pb := Project(a, f), Project(b, f);
    forall x | x in SetOf(pb) ensures x in SetOf(pa) {
      var i :| 0 <= i < |pb| && pb[i] == x;
      assert b[i] in multiset(a);
      var j :| 0 <= j < |a| && a[j] == b[i];
      assert pa[j] == x;
    }
    forall x | x in SetOf(pa) ensures x in SetOf(pb) {
      var i :| 0 <= i < |pa| && pa[i] == x;
      assert a[i] in multiset(b);
      var j :| 0 <= j < |b| && b[j] == a[i];
      assert pb[j] == x;
    }
    assert SetOf(pb) == SetOf(pa);
    DistinctCardinality(pa);
    CardinalityDistinct(pb);
  }

  /** Dropping the head keeps projected values distinct. */
  lemma DistinctProjectTail<T, K>(s: seq<T>, f: T -> K)
    requires s != [] && Distinct(Project(s, f))
    ensures Distinct(Project(s[1..], f))
  {
    var p, q := Project(s, f), Project(s[1..], f);
    forall i, j | 0 <= i < j < |q| ensures q[i] != q[j] {
      assert q[i] == p[i + 1] && q[j] == p[j + 1];
    }
  }

  /** A new head whose projected value is not among the rest's keeps the
      projected values distinct. */
  lemma DistinctProjectCons<T, K>(x: T, s: seq<T>, f: T -> K)
    requires Distinct(Project(s, f))
    requires forall y :: y in s ==> f(y) != f(x)
    ensures Distinct(Project([x] + s, f))
  {
    var p, q := Project(s, f), Project([x] + s, f);
    forall i, j | 0 <= i < j < |q| ensures q[i] != q[j] {
      assert ([x] + s)[j] == s[j - 1];
      if i > 0 {
        assert q[i] == p[i - 1] && q[j] == p[j - 1];
      }
    }
  }
}
