/** The Boolean evaluator of `src/boolean_ir.py`.  The query is the list
    `re.split(r'\s+(AND|OR|NOT)\s+', text, flags=re.IGNORECASE)` produces
    (terms at even positions, the captured operators at odd ones); the index
    is `None` when it could not be loaded; `normalize` is
    `full_preprocessing`. */
module BooleanIr {
  import opened Text
  import opened Seqs

  type Term = string
  type DocId = int

  /** `BOOLEAN_INDEX`: term to the set of documents holding it. */
  type BooleanIndex = map<Term, set<DocId>>

  /** `_get_postings`: only the first normalised token of the lower-cased
      term is looked up; a term normalising to nothing, or a token missing
      from the index, matches no document. */
  function GetPostings(index: BooleanIndex, normalize: string -> seq<Term>, rawTerm: string): (r: set<DocId>)
    ensures normalize(Lower(rawTerm)) == [] ==> r == {}
    ensures normalize(Lower(rawTerm)) != [] && normalize(Lower(rawTerm))[0] !in index ==> r == {}
    ensures normalize(Lower(rawTerm)) != [] && normalize(Lower(rawTerm))[0] in index ==>
              r == index[normalize(Lower(rawTerm))[0]]
  {
    var tokens := normalize(Lower(rawTerm));
    if tokens == [] then {}
    else if tokens[0] in index then index[tokens[0]]
    else {}
  }

  /** One step of the fold: AND intersects, OR unites, NOT removes; any other
      word leaves the running set as it is. */
  function Combine(op: string, current: set<DocId>, next: set<DocId>): set<DocId> {
    if op == "AND" then current * next
    else if op == "OR" then current + next
    else if op == "NOT" then current - next
    else current
  }

  /** The left-to-right fold over the `(operator, term)` pairs after the
      first term; `None` when an operator has no following term (the
      `parts[i+1]` IndexError that the evaluator would catch).  A split
      with one capturing group always has an odd number of parts, so this
      case never arises from a real query (`SplitPartsDefined`). */
  function Fold(index: BooleanIndex, normalize: string -> seq<Term>,
                current: set<DocId>, rest: seq<string>): Option<set<DocId>>
    decreases |rest|
  {
    if rest == [] then Some(current)
    else if |rest| == 1 then None
    else Fold(index, normalize,
              Combine(Upper(rest[0]), current, GetPostings(index, normalize, rest[1])), rest[2..])
  }

  /** The value of a whole query: the first term's set, folded. */
  function Evaluate(index: BooleanIndex, normalize: string -> seq<Term>, parts: seq<string>): Option<set<DocId>>
    requires parts != []
  {
    Fold(index, normalize, GetPostings(index, normalize, parts[0]), parts[1..])
  }

  /** `list(s)`: the elements of a set, each once, in some order. */
  method ListOfSet(s: set<DocId>) returns (r: seq<DocId>)
    ensures SetOf(r) == s
    ensures Distinct(r)
    ensures |r| == |s|
  {
    r := [];
    var todo := s;
    while todo != {}
      invariant todo <= s
      invariant SetOf(r) == s - todo
      invariant Distinct(r)
      decreases |todo|
    {
      ghost var w := Pick(todo);
      var x :| x in todo;
      SetOfSnoc(r, x);
      r := r + [x];
      todo := todo - {x};
    }
    DistinctCardinality(r);
  }

  /** `search_boolean`.  An unloaded index gives []; otherwise the result
      lists, once each, exactly the documents of the left-to-right
      evaluation.  The empty list and an even number of parts, which the
      code guards against (`if not parts`, the `except` clause), never come
      out of the split; they are kept here and give []. */
  method SearchBoolean(index: Option<BooleanIndex>, normalize: string -> seq<Term>, parts: seq<string>)
    returns (r: seq<DocId>)
    ensures index.None? || parts == [] ==> r == []
    ensures index.Some? && parts != [] && Evaluate(index.value, normalize, parts).None? ==> r == []
    ensures index.Some? && parts != [] && Evaluate(index.value, normalize, parts).Some? ==>
              SetOf(r) == Evaluate(index.value, normalize, parts).value
    ensures Distinct(r)
  {
    if index.None? {
      return [];
    }
    if parts == [] {
      return [];
    }
    var idx := index.value;
    var current := GetPostings(idx, normalize, parts[0]);
    var i := 1;
    while i < |parts|
      invariant 1 <= i <= |parts|
      invariant i % 2 == 1
      invariant Fold(idx, normalize, current, parts[i..]) == Evaluate(idx, normalize, parts)
    {
      if i + 1 >= |parts| {
        // `parts[i+1]` raises IndexError, caught by the `except` clause.
        assert parts[i..] == [parts[i]];
        return [];
      }
      var operator := Upper(parts[i]);
      var nextTerm := parts[i + 1];
      var nextSet := GetPostings(idx, normalize, nextTerm);
      if operator == "AND" {
        current := current * nextSet;
      } else if operator == "OR" {
        current := current + nextSet;
      } else if operator == "NOT" {
        current := current - nextSet;
      }
      assert parts[i..][2..] == parts[i + 2..];
      i := i + 2;
    }
    assert parts[i..] == [];
    r := ListOfSet(current);
  }

  /** Operators bind strictly left to right with no precedence, whatever
      their case: `a OR b AND c` is `(a ∪ b) ∩ c`. */
  lemma LeftToRight(index: BooleanIndex, normalize: string -> seq<Term>, a: string, b: string, c: string)
    ensures Evaluate(index, normalize, [a, "or", b, "And", c])
         == Some((GetPostings(index, normalize, a) + GetPostings(index, normalize, b)) * GetPostings(index, normalize, c))
  {
    var pa, pb, pc := GetPostings(index, normalize, a), GetPostings(index, normalize, b), GetPostings(index, normalize, c);
    assert Upper("or") == "OR" by {
      assert Upper("or") == [UpperChar('o')] + Upper("r");
    }
    assert Upper("And") == "AND" by {
      assert Upper("And") == [UpperChar('A')] + Upper("nd");
    }
    var parts := [a, "or", b, "And", c];
    assert parts[1..] == ["or", b, "And", c];
    assert ["or", b, "And", c][2..] == ["And", c];
    assert ["And", c][2..] == [];
    assert Fold(index, normalize, pa, ["or", b, "And", c]) == Fold(index, normalize, pa + pb, ["And", c]);
    assert Fold(index, normalize, pa + pb, ["And", c]) == Fold(index, normalize, (pa + pb) * pc, []);
  }

  /** The union of the sets of the terms that follow an OR. */
  function OrOperands(index: BooleanIndex, normalize: string -> seq<Term>, rest: seq<string>): set<DocId>
    decreases |rest|
  {
    if |rest| < 2 then {}
    else (if Upper(rest[0]) == "OR" then GetPostings(index, normalize, rest[1]) else {})
         + OrOperands(index, normalize, rest[2..])
  }

  lemma {:induction false} FoldWithinOrOperands(index: BooleanIndex, normalize: string -> seq<Term>,
                                                current: set<DocId>, rest: seq<string>)
    requires Fold(index, normalize, current, rest).Some?
    ensures Fold(index, normalize, current, rest).value <= current + OrOperands(index, normalize, rest)
    decreases |rest|
  {
    if |rest| >= 2 {
      var next := Combine(Upper(rest[0]), current, GetPostings(index, normalize, rest[1]));
      FoldWithinOrOperands(index, normalize, next, rest[2..]);
    }
  }

  /** Every document returned holds the first term or a term after an OR. */
  lemma ResultWithinOrOperands(index: BooleanIndex, normalize: string -> seq<Term>, parts: seq<string>)
    requires parts != [] && Evaluate(index, normalize, parts).Some?
    ensures Evaluate(index, normalize, parts).value
            <= GetPostings(index, normalize, parts[0]) + OrOperands(index, normalize, parts[1..])
  {
    FoldWithinOrOperands(index, normalize, GetPostings(index, normalize, parts[0]), parts[1..]);
  }

  /** Without any OR, the result never leaves the first term's documents. */
  lemma {:induction false} NoOrStaysWithinFirst(index: BooleanIndex, normalize: string -> seq<Term>,
                                                current: set<DocId>, rest: seq<string>)
    requires forall i :: 0 <= i < |rest| ==> Upper(rest[i]) != "OR"
    requires Fold(index, normalize, current, rest).Some?
    ensures Fold(index, normalize, current, rest).value <= current
    decreases |rest|
  {
    if |rest| >= 2 {
      var next := Combine(Upper(rest[0]), current, GetPostings(index, normalize, rest[1]));
      assert Upper(rest[0]) != "OR";
      NoOrStaysWithinFirst(index, normalize, next, rest[2..]);
    }
  }

  /** A fold over an even number of remaining parts never runs out of terms. */
  lemma {:induction false} FoldDefined(index: BooleanIndex, normalize: string -> seq<Term>,
                                       current: set<DocId>, rest: seq<string>)
    requires |rest| % 2 == 0
    ensures Fold(index, normalize, current, rest).Some?
    decreases |rest|
  {
    if rest != [] {
      var next := Combine(Upper(rest[0]), current, GetPostings(index, normalize, rest[1]));
      FoldDefined(index, normalize, next, rest[2..]);
    }
  }

  /** Every list `re.split` with one capturing group produces (an odd number
      of parts) evaluates without the IndexError. */
  lemma SplitPartsDefined(index: BooleanIndex, normalize: string -> seq<Term>, parts: seq<string>)
    requires |parts| % 2 == 1
    ensures Evaluate(index, normalize, parts).Some?
  {
    FoldDefined(index, normalize, GetPostings(index, normalize, parts[0]), parts[1..]);
  }

  /** A trailing operator, as in "alam OR ", splits into `[a, op, ""]`: the
      empty last term matches nothing (when the normaliser maps "" to no
      tokens), so OR leaves the first term's set and AND empties it. */
  lemma TrailingOperator(index: BooleanIndex, normalize: string -> seq<Term>, a: string, op: string)
    requires normalize("") == []
    ensures Evaluate(index, normalize, [a, op, ""])
         == Some(Combine(Upper(op), GetPostings(index, normalize, a), {}))
    ensures Upper(op) == "OR" ==> Evaluate(index, normalize, [a, op, ""]) == Some(GetPostings(index, normalize, a))
    ensures Upper(op) == "AND" ==> Evaluate(index, normalize, [a, op, ""]) == Some({})
  {
    var pa := GetPostings(index, normalize, a);
    assert Lower("") == "";
    assert GetPostings(index, normalize, "") == {};
    assert [a, op, ""][1..] == [op, ""];
    assert [op, ""][2..] == [];
    assert Fold(index, normalize, pa, [op, ""]) == Fold(index, normalize, Combine(Upper(op), pa, {}), []);
    if Upper(op) == "OR" {
      assert Combine(Upper(op), pa, {}) == pa + {} == pa;
    }
    if Upper(op) == "AND" {
      assert Combine(Upper(op), pa, {}) == pa * {} == {};
    }
  }
}
