/** The retrieval metrics of `eval.py`: precision, recall and F1 over the
    sets of retrieved and relevant documents, and average precision over
    the top `k` of a ranked list.  Python's `/` on these operands is true
    division, modelled on `real`. */
module Evaluation {
  import opened Seqs

  type DocId = int

  datatype Metrics = Metrics(precision: real, recall: real, f1: real,
                             retrievedCount: nat, relevantCount: nat, tpCount: nat)

  /** A subset is the whole set exactly when it is as large. */
  lemma SubsetCardinality<T>(x: set<T>, a: set<T>)
    requires x <= a
    ensures |x| <= |a|
    ensures |x| == |a| <==> x == a
  {
    assert a == x + (a - x);
  }

  lemma QuotientBounds(n: nat, d: nat)
    requires n <= d && d > 0
    ensures 0.0 <= n as real / d as real <= 1.0
  {
  }

  /** `n / d`, with 0.0 for an empty denominator. */
  function Ratio(n: nat, d: nat): (q: real)
    requires n <= d
    ensures d > 0 ==> q == n as real / d as real
    ensures d == 0 ==> q == 0.0
    ensures 0.0 <= q <= 1.0
    ensures q == 1.0 <==> d > 0 && n == d
    ensures q > 0.0 <==> n > 0
  {
    if d == 0 then 0.0 else QuotientBounds(n, d); n as real / d as real
  }

  lemma ProductBelow(p: real, r: real)
    requires 0.0 <= p <= 1.0 && 0.0 <= r <= 1.0
    ensures 0.0 <= p * r <= p && p * r <= r
    ensures 2.0 * (p * r) <= p + r
    ensures p * r > 0.0 <==> p > 0.0 && r > 0.0
  {
    var m := p * r;
    assert m <= p * 1.0;
    assert m <= 1.0 * r;
    assert 2.0 * m == m + m;
  }

  lemma QuotientUnit(x: real, d: real)
    requires 0.0 <= x <= d && d > 0.0
    ensures 0.0 <= x / d <= 1.0
    ensures x / d > 0.0 <==> x > 0.0
  {
  }

  lemma DivSelf(x: real)
    requires x > 0.0
    ensures x / x == 1.0
  {
  }

  lemma DivMono(a: real, b: real, d: real)
    requires 0.0 <= a <= b && d > 0.0
    ensures 0.0 <= a / d <= b / d
  {
  }

  /** The harmonic mean of two values in [0, 1] lies in [0, 1]. */
  lemma HarmonicBounds(p: real, r: real)
    requires 0.0 <= p <= 1.0 && 0.0 <= r <= 1.0 && p + r != 0.0
    ensures 0.0 <= 2.0 * (p * r) / (p + r) <= 1.0
    ensures 2.0 * (p * r) / (p + r) > 0.0 <==> p > 0.0 && r > 0.0
  {
    ProductBelow(p, r);
    QuotientUnit(2.0 * (p * r), p + r);
  }

  /** The F1 line: 0.0 when both are zero, otherwise their harmonic mean. */
  function F1(p: real, r: real): (f: real)
    requires 0.0 <= p <= 1.0 && 0.0 <= r <= 1.0
    ensures p + r != 0.0 ==> f == 2.0 * (p * r) / (p + r)
    ensures p + r == 0.0 ==> f == 0.0
    ensures 0.0 <= f <= 1.0
    ensures f > 0.0 <==> p > 0.0 && r > 0.0
  {
    if p + r == 0.0 then 0.0 else HarmonicBounds(p, r); 2.0 * (p * r) / (p + r)
  }

  /** Some document is on both lists exactly when the two sets meet. */
  lemma CommonDocument(retrieved: seq<DocId>, relevant: seq<DocId>)
    ensures |SetOf(retrieved) * SetOf(relevant)| > 0 <==> exists i :: 0 <= i < |retrieved| && retrieved[i] in relevant
  {
    if |SetOf(retrieved) * SetOf(relevant)| > 0 {
      var x := Pick(SetOf(retrieved) * SetOf(relevant));
      var i :| 0 <= i < |retrieved| && retrieved[i] == x;
    }
    if exists i :: 0 <= i < |retrieved| && retrieved[i] in relevant {
      var i :| 0 <= i < |retrieved| && retrieved[i] in relevant;
      assert retrieved[i] in SetOf(retrieved) * SetOf(relevant);
    }
  }

  /** A list is empty exactly when its set is. */
  lemma EmptySetOf(s: seq<DocId>)
    ensures SetOf(s) == {} <==> s == []
  {
    if s != [] {
      assert s[0] in SetOf(s);
    }
  }

  /** `calc_precision_recall_f1`.  Duplicates are ignored; the true
      positives are the intersection of the two sets; precision and recall
      divide it by the retrieved and the relevant set's size, an empty side
      giving 0.0 instead of dividing by zero; F1 is their harmonic mean.
      Precision (recall) is 1.0 exactly when a non-empty retrieved
      (relevant) set lies inside the other; F1 is positive exactly when
      some retrieved document is relevant. */
  function PrecisionRecallF1(retrieved: seq<DocId>, relevant: seq<DocId>): (m: Metrics)
    ensures m.retrievedCount == |SetOf(retrieved)| && m.relevantCount == |SetOf(relevant)|
    ensures m.tpCount == |SetOf(retrieved) * SetOf(relevant)|
    ensures m.tpCount <= m.retrievedCount && m.tpCount <= m.relevantCount
    ensures 0.0 <= m.precision <= 1.0 && 0.0 <= m.recall <= 1.0 && 0.0 <= m.f1 <= 1.0
    ensures m.precision == Ratio(m.tpCount, m.retrievedCount)
    ensures m.recall == Ratio(m.tpCount, m.relevantCount)
    ensures m.f1 == F1(m.precision, m.recall)
    ensures retrieved == [] ==> m.precision == 0.0
    ensures relevant == [] ==> m.recall == 0.0
    ensures m.precision == 1.0 <==> retrieved != [] && SetOf(retrieved) <= SetOf(relevant)
    ensures m.recall == 1.0 <==> relevant != [] && SetOf(relevant) <= SetOf(retrieved)
    ensures m.f1 > 0.0 <==> m.tpCount > 0
    ensures m.tpCount > 0 <==> exists i :: 0 <= i < |retrieved| && retrieved[i] in relevant
  {
    var retrievedSet, relevantSet := SetOf(retrieved), SetOf(relevant);
    var common := retrievedSet * relevantSet;
    SubsetCardinality(common, retrievedSet);
    SubsetCardinality(common, relevantSet);
    EmptySetOf(retrieved);
    EmptySetOf(relevant);
    CommonDocument(retrieved, relevant);
    var precision := Ratio(|common|, |retrievedSet|);
    var recall := Ratio(|common|, |relevantSet|);
    Metrics(precision, recall, F1(precision, recall), |retrievedSet|, |relevantSet|, |common|)
  }

  // ---------------------------------------------------------------------
  // Average precision

  /** `retrieved_ranked_docs[:k]`, with Python's slice bounds: a `k` past
      the end takes everything, a negative `k` drops that many from the end. */
  function TopK(docs: seq<DocId>, k: int): (r: seq<DocId>)
    ensures r <= docs
    ensures 0 <= k <= |docs| ==> |r| == k
    ensures k > |docs| ==> r == docs
    ensures k < 0 ==> |r| == if |docs| + k < 0 then 0 else |docs| + k
  {
    if k >= |docs| then docs
    else if k >= 0 then docs[..k]
    else if |docs| + k < 0 then []
    else docs[..|docs| + k]
  }

  /** The number of positions of `docs` holding a relevant document. */
  function HitCount(docs: seq<DocId>, relevant: set<DocId>): (n: nat)
    ensures n <= |docs|
    ensures n == 0 <==> forall i :: 0 <= i < |docs| ==> docs[i] !in relevant
  {
    if docs == [] then 0
    else
      var before := HitCount(AllButLast(docs), relevant);
      assert forall i :: 0 <= i < |docs| - 1 ==> AllButLast(docs)[i] == docs[i];
      if Last(docs) in relevant then before + 1 else before
  }

  /** The sum of `precision_at_i`: at each relevant position, the hits so
      far over the rank. */
  function PrecisionSum(docs: seq<DocId>, relevant: set<DocId>): real {
    if docs == [] then 0.0
    else
      PrecisionSum(AllButLast(docs), relevant)
      + if Last(docs) in relevant then HitCount(docs, relevant) as real / |docs| as real else 0.0
  }

  /** `calc_average_precision_map` as a value: 0.0 without relevant
      documents or without a hit in the top `k`, otherwise the sum of the
      precisions at the hits over the length of the relevant LIST. */
  function AveragePrecisionOf(retrieved: seq<DocId>, relevant: seq<DocId>, k: int): real {
    var relevantSet := SetOf(relevant);
    var top := TopK(retrieved, k);
    if relevantSet == {} || HitCount(top, relevantSet) == 0 then 0.0
    else PrecisionSum(top, relevantSet) / |relevant| as real
  }

  function Sum(xs: seq<real>): real {
    if xs == [] then 0.0 else Sum(AllButLast(xs)) + Last(xs)
  }

  /** `calc_average_precision_map`: the loop over the top `k` collects the
      precision at each hit. */
  method AveragePrecision(retrieved: seq<DocId>, relevant: seq<DocId>, k: int) returns (ap: real)
    ensures ap == AveragePrecisionOf(retrieved, relevant, k)
  {
    var relevantSet := SetOf(relevant);
    if relevantSet == {} {
      return 0.0;
    }
    var top := TopK(retrieved, k);
    var precisions: seq<real> := [];
    var hits := 0;
    for i := 0 to |top|
      invariant hits == HitCount(top[..i], relevantSet)
      invariant Sum(precisions) == PrecisionSum(top[..i], relevantSet)
      invariant precisions == [] <==> hits == 0
    {
      assert AllButLast(top[..i + 1]) == top[..i] && Last(top[..i + 1]) == top[i];
      if top[i] in relevantSet {
        hits := hits + 1;
        var current := hits as real / (i + 1) as real;
        assert AllButLast(precisions + [current]) == precisions && Last(precisions + [current]) == current;
        precisions := precisions + [current];
      }
    }
    assert top[..|top|] == top;
    if precisions == [] {
      return 0.0;
    }
    assert relevant != [];
    ap := Sum(precisions) / |relevant| as real;
  }

  /** Each precision is at most 1, so the sum is at most the hit count. */
  lemma {:induction false} PrecisionSumBounds(docs: seq<DocId>, relevant: set<DocId>)
    ensures 0.0 <= PrecisionSum(docs, relevant) <= HitCount(docs, relevant) as real
  {
    if docs != [] {
      PrecisionSumBounds(AllButLast(docs), relevant);
      if Last(docs) in relevant {
        QuotientBounds(HitCount(docs, relevant), |docs|);
      }
    }
  }

  /** Without repeats, the hits are the relevant documents retrieved. */
  lemma {:induction false} HitCountDistinct(docs: seq<DocId>, relevant: set<DocId>)
    requires Distinct(docs)
    ensures HitCount(docs, relevant) == |SetOf(docs) * relevant|
  {
    if docs != [] {
      var init := AllButLast(docs);
      assert Distinct(init);
      HitCountDistinct(init, relevant);
      assert docs == init + [Last(docs)];
      SetOfSnoc(init, Last(docs));
      assert Last(docs) !in SetOf(init);
      if Last(docs) in relevant {
        assert SetOf(docs) * relevant == (SetOf(init) * relevant) + {Last(docs)};
      } else {
        assert SetOf(docs) * relevant == SetOf(init) * relevant;
      }
    }
  }

  /** For a ranking without repeats, average precision lies in [0, 1]. */
  lemma AveragePrecisionBounds(retrieved: seq<DocId>, relevant: seq<DocId>, k: int)
    requires Distinct(TopK(retrieved, k))
    ensures 0.0 <= AveragePrecisionOf(retrieved, relevant, k) <= 1.0
  {
    var relevantSet := SetOf(relevant);
    var top := TopK(retrieved, k);
    if relevantSet != {} && HitCount(top, relevantSet) != 0 {
      PrecisionSumBounds(top, relevantSet);
      HitCountDistinct(top, relevantSet);
      SubsetCardinality(SetOf(top) * relevantSet, relevantSet);
      SetOfCardinality(relevant);
      QuotientBounds(HitCount(top, relevantSet), |relevant|);
      DivMono(PrecisionSum(top, relevantSet), HitCount(top, relevantSet) as real, |relevant| as real);
    }
  }

  /** When every position is a hit, each precision is 1. */
  lemma {:induction false} AllHits(docs: seq<DocId>, relevant: set<DocId>)
    requires forall i :: 0 <= i < |docs| ==> docs[i] in relevant
    ensures HitCount(docs, relevant) == |docs|
    ensures PrecisionSum(docs, relevant) == |docs| as real
  {
    if docs != [] {
      AllHits(AllButLast(docs), relevant);
    }
  }

  /** A ranking whose top `k` is exactly the relevant documents, each once,
      scores 1.0. */
  lemma PerfectRanking(retrieved: seq<DocId>, relevant: seq<DocId>, k: int)
    requires relevant != [] && TopK(retrieved, k) == relevant
    ensures AveragePrecisionOf(retrieved, relevant, k) == 1.0
  {
    var relevantSet := SetOf(relevant);
    var n := |relevant| as real;
    AllHits(relevant, relevantSet);
    assert relevant[0] in relevantSet;
    assert HitCount(relevant, relevantSet) != 0;
    assert AveragePrecisionOf(retrieved, relevant, k) == PrecisionSum(relevant, relevantSet) / n;
    DivSelf(n);
  }

  /** Only the top `k` counts: documents ranked after it change nothing. */
  lemma BeyondCutoff(retrieved: seq<DocId>, later: seq<DocId>, relevant: seq<DocId>, k: int)
    requires 0 <= k <= |retrieved|
    ensures AveragePrecisionOf(retrieved + later, relevant, k) == AveragePrecisionOf(retrieved, relevant, k)
  {
    assert TopK(retrieved + later, k) == TopK(retrieved, k);
  }

  /** The divisor is the length of the relevant list, not of its set: a
      relevant document listed twice halves a perfect score, and a
      retrieved document listed twice counts as two hits. */
  lemma RepeatedDocuments()
    ensures AveragePrecisionOf([7], [7, 7], 10) == 0.5
    ensures AveragePrecisionOf([7, 7], [7], 10) == 2.0
  {
    SetOfSnoc([], 7);
    SetOfSnoc([7], 7);
    assert [] + [7] == [7] && [7] + [7] == [7, 7];
    assert AllButLast([7, 7]) == [7] && AllButLast([7]) == [];
    assert PrecisionSum([7], {7}) == 1.0;
    assert PrecisionSum([7, 7], {7}) == 2.0;
  }
}
