/** The vector-space scorer: `_calculate_vsm_scores` of `src/mesin_pencari.py`
    and the scoring inlined in the older `search_by_keyword` of
    `mesin_pencari.py`.  A query is scored against the postings chains
    saved by the indexer: each document found on the chain of an
    in-vocabulary query term gets the sum, over those terms, of query weight
    times document weight for every node of the chain that names it; the
    documents are then listed by non-increasing score.  The IDF values are
    whatever the index holds and `log10` is left uninterpreted. */
module VsmScorer {
  import opened Text
  import opened Seqs
  import opened Sorting
  import opened Indexer

  type DocId = int

  /** One row of `DF_METADATA`, indexed by its Doc_ID; only the fields the
      search reads are kept. */
  datatype PlaceRow = PlaceRow(docId: DocId, name: string, location: string, avgRating: real)

  /** The three loaded globals; `None` in place of `Some(Assets(..))` when
      any of them failed to load. */
  datatype Assets = Assets(index: Index, metadata: seq<PlaceRow>)

  /** How the document side of a product is weighted.  The refactored scorer
      recomputes a weight from the stored `freq` with the weighting scheme
      ('sublinear', or anything else for plain tf-idf); the older inlined
      scorer uses the stored `freq` as it is. */
  datatype Weighting = Recomputed(scheme: string) | Stored

  /** What a score depends on besides the query. */
  datatype Scorer = Scorer(index: Index, weighting: Weighting, log10: real -> real)

  /** `(1 + log10(tf)) * idf` under 'sublinear' for a positive tf, and
      `tf * idf` otherwise. */
  function SchemeWeight(scheme: string, log10: real -> real, tf: real, idf: real): (w: real)
    ensures scheme != "sublinear" || tf <= 0.0 ==> w == tf * idf
    ensures scheme == "sublinear" && tf > 0.0 ==> w == (1.0 + log10(tf)) * idf
  {
    if scheme == "sublinear" && tf > 0.0 then (1.0 + log10(tf)) * idf else tf * idf
  }

  /** The query side of a product for a term counted `tf` times: the
      scheme's weight in the refactored scorer, `tf * idf` in the older one. */
  function QuerySideWeight(weighting: Weighting, log10: real -> real, tf: real, idf: real): real {
    match weighting
    case Recomputed(scheme) => SchemeWeight(scheme, log10, tf, idf)
    case Stored => tf * idf
  }

  /** `W_q`: the query weight of an in-vocabulary term, from its count in
      the query. */
  function QueryWeight(sc: Scorer, tokens: seq<Term>, t: Term): real
    requires t in sc.index.idf
  {
    QuerySideWeight(sc.weighting, sc.log10, Count(tokens, t) as real, sc.index.idf[t])
  }

  /** The stored `freq` of a posting node (the sentinel stores none). */
  function FreqOf(node: Node): real {
    if node.freq.Some? then node.freq.value else 0.0
  }

  /** The document side of a product for a node storing `freq`: the
      scheme's weight recomputed from `freq` in the refactored scorer,
      `freq` itself in the older one. */
  function DocSideWeight(weighting: Weighting, log10: real -> real, freq: real, idf: real): real {
    match weighting
    case Recomputed(scheme) => SchemeWeight(scheme, log10, freq, idf)
    case Stored => freq
  }

  /** `W_d`: the document weight of a posting node of `t`'s chain. */
  function DocWeight(sc: Scorer, t: Term, node: Node): real
    requires t in sc.index.idf
  {
    DocSideWeight(sc.weighting, sc.log10, FreqOf(node), sc.index.idf[t])
  }

  /** The in-vocabulary query terms: those that get a query weight. */
  function QueryTerms(idf: map<Term, real>, tokens: seq<Term>): set<Term> {
    SetOf(tokens) * idf.Keys
  }

  /** The documents on a chain, the head excluded. */
  function ChainDocs(chain: Chain): set<DocId> {
    set i | 1 <= i < |chain| :: chain[i].docId
  }


  /** `involved_docs`: every document on the chain of an in-vocabulary
      query term. */
  ghost function Candidates(index: Index, tokens: seq<Term>): set<DocId>
    requires WellFormed(index)
  {
    CandidatesOver(index, QueryTerms(index.idf, tokens))
  }

  /** The sum of `W_d * wq` over the nodes of `nodes` that name `d`. */
  function ChainDot(sc: Scorer, t: Term, nodes: seq<Node>, d: DocId, wq: real): real
    requires t in sc.index.idf
  {
    if nodes == [] then 0.0
    else ChainDot(sc, t, AllButLast(nodes), d, wq)
         + (if Last(nodes).docId == d then DocWeight(sc, t, Last(nodes)) * wq else 0.0)
  }

  /** What one query term adds to the score of `d`. */
  function Contribution(sc: Scorer, tokens: seq<Term>, t: Term, d: DocId): real
    requires WellFormed(sc.index) && t in sc.index.idf
  {
    var chain := sc.index.chains[t];
    ChainDot(sc, t, chain[1..], d, QueryWeight(sc, tokens, t))
  }

  lemma TermExists(terms: set<Term>)
    requires terms != {}
    ensures exists t: Term :: t in terms
  {
    var t := Pick(terms);
  }

  /** Some element of a non-empty set of terms; which one does not matter,
      as `ScoreOverRemove` shows. */
  ghost function Choose(terms: set<Term>): (t: Term)
    requires terms != {}
    ensures t in terms
  {
    TermExists(terms);
    var t :| t in terms; t
  }

  /** The union of the chain documents of `terms`. */
  ghost function CandidatesOver(index: Index, terms: set<Term>): set<DocId>
    requires terms <= index.chains.Keys
    decreases terms
  {
    if terms == {} then {}
    else
      var t := Choose(terms);
      ChainDocs(index.chains[t]) + CandidatesOver(index, terms - {t})
  }

  /** The sum of the contributions of `terms` to the score of `d`. */
  ghost function ScoreOver(sc: Scorer, tokens: seq<Term>, terms: set<Term>, d: DocId): real
    requires WellFormed(sc.index) && terms <= sc.index.idf.Keys
    decreases terms
  {
    if terms == {} then 0.0
    else
      var t := Choose(terms);
      Contribution(sc, tokens, t, d) + ScoreOver(sc, tokens, terms - {t}, d)
  }

  /** The dot-product score of `d`: the sum over the in-vocabulary query
      terms of `W_q * W_d`, one product per node of the term's chain that
      names `d`. */
  ghost function Score(sc: Scorer, tokens: seq<Term>, d: DocId): real
    requires WellFormed(sc.index)
  {
    ScoreOver(sc, tokens, QueryTerms(sc.index.idf, tokens), d)
  }

  /** The sum does not depend on the order the terms are taken in: any
      term can be taken out first. */
  lemma {:induction false} ScoreOverRemove(sc: Scorer, tokens: seq<Term>, terms: set<Term>, x: Term, d: DocId)
    requires WellFormed(sc.index) && terms <= sc.index.idf.Keys && x in terms
    ensures ScoreOver(sc, tokens, terms, d)
         == Contribution(sc, tokens, x, d) + ScoreOver(sc, tokens, terms - {x}, d)
    decreases terms
  {
    var y := Choose(terms);
    if y != x {
      ScoreOverRemove(sc, tokens, terms - {y}, x, d);
      assert terms - {y} - {x} == terms - {x} - {y};
      ScoreOverRemove(sc, tokens, terms - {x}, y, d);
    }
  }

  lemma ScoreOverAdd(sc: Scorer, tokens: seq<Term>, terms: set<Term>, x: Term, d: DocId)
    requires WellFormed(sc.index) && terms <= sc.index.idf.Keys && x in sc.index.idf && x !in terms
    ensures ScoreOver(sc, tokens, terms + {x}, d)
         == ScoreOver(sc, tokens, terms, d) + Contribution(sc, tokens, x, d)
  {
    ScoreOverRemove(sc, tokens, terms + {x}, x, d);
    assert terms + {x} - {x} == terms;
  }

  /** The union does not depend on the order the terms are taken in. */
  lemma {:induction false} CandidatesOverRemove(index: Index, terms: set<Term>, x: Term)
    requires terms <= index.chains.Keys && x in terms
    ensures CandidatesOver(index, terms) == ChainDocs(index.chains[x]) + CandidatesOver(index, terms - {x})
    decreases terms
  {
    var y := Choose(terms);
    if y != x {
      CandidatesOverRemove(index, terms - {y}, x);
      assert terms - {y} - {x} == terms - {x} - {y};
      CandidatesOverRemove(index, terms - {x}, y);
    }
  }

  lemma CandidatesOverAdd(index: Index, terms: set<Term>, x: Term)
    requires terms <= index.chains.Keys && x in index.chains && x !in terms
    ensures CandidatesOver(index, terms + {x}) == CandidatesOver(index, terms) + ChainDocs(index.chains[x])
  {
    CandidatesOverRemove(index, terms + {x}, x);
    assert terms + {x} - {x} == terms;
  }

  /** A document is a candidate exactly when it is on the chain of one of
      the terms. */
  lemma {:induction false} CandidatesOverMember(index: Index, terms: set<Term>, d: DocId)
    requires terms <= index.chains.Keys
    ensures d in CandidatesOver(index, terms) <==> exists t :: t in terms && d in ChainDocs(index.chains[t])
    decreases terms
  {
    if terms != {} {
      var y := Choose(terms);
      CandidatesOverMember(index, terms - {y}, d);
      if exists t :: t in terms && d in ChainDocs(index.chains[t]) {
        var t :| t in terms && d in ChainDocs(index.chains[t]);
        if t != y {
          assert t in terms - {y};
        }
      }
    }
  }

  /** The documents of the first `j` nodes of a chain, the head excluded. */
  lemma ChainDocsStep(chain: Chain, j: nat)
    requires 1 <= j < |chain|
    ensures ChainDocs(chain[..j + 1]) == ChainDocs(chain[..j]) + {chain[j].docId}
  {
    var lhs, rhs := ChainDocs(chain[..j + 1]), ChainDocs(chain[..j]) + {chain[j].docId};
    assert chain[..j + 1][j] == chain[j];
    forall d | d in rhs ensures d in lhs {
      if d != chain[j].docId {
        var i :| 1 <= i < j && chain[..j][i].docId == d;
        assert chain[..j + 1][i] == chain[..j][i];
      }
    }
  }

  /** The walk from `head.nextval` to the end of a chain, adding each
      node's document to `involved`. */
  method AddChainDocs(involved0: set<DocId>, chain: Chain) returns (involved: set<DocId>)
    requires chain != []
    ensures involved == involved0 + ChainDocs(chain)
  {
    involved := involved0;
    var j := 1;
    while j < |chain|
      invariant 1 <= j <= |chain|
      invariant involved == involved0 + ChainDocs(chain[..j])
    {
      ChainDocsStep(chain, j);
      involved := involved + {chain[j].docId};
      j := j + 1;
    }
    assert chain[..j] == chain;
  }

  /** One `(term, tf)` of step 1: an in-vocabulary term gets its query
      weight and its chain's documents join the involved set. */
  method AddQueryTerm(sc: Scorer, tokens: seq<Term>, term: Term, tf: nat, ghost done: set<Term>,
                      weights0: map<Term, real>, involved0: set<DocId>)
    returns (weights: map<Term, real>, involved: set<DocId>)
    requires WellFormed(sc.index) && term !in done && tf == Count(tokens, term)
    requires weights0.Keys == done * sc.index.idf.Keys
    requires forall t :: t in weights0 ==> weights0[t] == QueryWeight(sc, tokens, t)
    requires involved0 == CandidatesOver(sc.index, done * sc.index.idf.Keys)
    ensures weights.Keys == (done + {term}) * sc.index.idf.Keys
    ensures forall t :: t in weights ==> weights[t] == QueryWeight(sc, tokens, t)
    ensures involved == CandidatesOver(sc.index, (done + {term}) * sc.index.idf.Keys)
  {
    weights, involved := weights0, involved0;
    if term in sc.index.idf {
      var idf := sc.index.idf[term];
      var wq := QuerySideWeight(sc.weighting, sc.log10, tf as real, idf);
      assert wq == QueryWeight(sc, tokens, term);
      weights := weights[term := wq];
      involved := AddChainDocs(involved, sc.index.chains[term]);
      CandidatesOverAdd(sc.index, done * sc.index.idf.Keys, term);
      assert (done + {term}) * sc.index.idf.Keys == done * sc.index.idf.Keys + {term};
    } else {
      assert (done + {term}) * sc.index.idf.Keys == done * sc.index.idf.Keys;
    }
  }

  /** Step 1 of the scorer (`query_tf`, `query_weights`, `involved_docs`):
      every in-vocabulary query term gets its query weight, and the
      documents on those terms' chains are collected. */
  method CollectCandidates(sc: Scorer, tokens: seq<Term>)
    returns (weights: map<Term, real>, involved: set<DocId>)
    requires WellFormed(sc.index)
    ensures weights.Keys == QueryTerms(sc.index.idf, tokens)
    ensures forall t :: t in weights ==> weights[t] == QueryWeight(sc, tokens, t)
    ensures involved == Candidates(sc.index, tokens)
  {
    var queryTf := map word | word in SetOf(tokens) :: Count(tokens, word);
    weights, involved := map[], {};
    var todo := queryTf.Keys;
    ghost var done: set<Term> := {};
    while todo != {}
      invariant todo + done == SetOf(tokens) && todo !! done
      invariant weights.Keys == done * sc.index.idf.Keys
      invariant forall t :: t in weights ==> weights[t] == QueryWeight(sc, tokens, t)
      invariant involved == CandidatesOver(sc.index, done * sc.index.idf.Keys)
    {
      ghost var some := Pick(todo);
      var term :| term in todo;
      weights, involved := AddQueryTerm(sc, tokens, term, queryTf[term], done, weights, involved);
      todo, done := todo - {term}, done + {term};
    }
  }

  /** The walk along `t`'s chain in step 2: every node whose document has
      a score adds `W_d * W_q` to it. */
  method AddChainProducts(sc: Scorer, t: Term, wq: real, scores0: map<DocId, real>)
    returns (scores: map<DocId, real>)
    requires WellFormed(sc.index) && t in sc.index.idf
    ensures scores.Keys == scores0.Keys
    ensures forall d :: d in scores ==> scores[d] == scores0[d] + ChainDot(sc, t, sc.index.chains[t][1..], d, wq)
  {
    var chain := sc.index.chains[t];
    var idf := sc.index.idf[t];
    scores := scores0;
    var j := 1;
    while j < |chain|
      invariant 1 <= j <= |chain|
      invariant scores.Keys == scores0.Keys
      invariant forall d :: d in scores ==> scores[d] == scores0[d] + ChainDot(sc, t, chain[1..j], d, wq)
    {
      var node := chain[j];
      var docId := node.docId;
      if docId in scores {
        var wd := DocSideWeight(sc.weighting, sc.log10, node.freq.value, idf);
        scores := scores[docId := scores[docId] + wd * wq];
      }
      assert AllButLast(chain[1..j + 1]) == chain[1..j] && Last(chain[1..j + 1]) == node;
      j := j + 1;
    }
    assert chain[1..j] == chain[1..];
  }

  /** Step 2 of the scorer (`doc_scores`): every candidate starts at 0 and
      each weighted term's chain walk adds its products, so each ends with
      its dot-product score. */
  method AccumulateScores(sc: Scorer, tokens: seq<Term>, weights: map<Term, real>, involved: set<DocId>)
    returns (scores: map<DocId, real>)
    requires WellFormed(sc.index)
    requires weights.Keys == QueryTerms(sc.index.idf, tokens)
    requires forall t :: t in weights ==> weights[t] == QueryWeight(sc, tokens, t)
    ensures scores.Keys == involved
    ensures forall d :: d in scores ==> scores[d] == Score(sc, tokens, d)
  {
    scores := map d | d in involved :: 0.0;
    var todo := weights.Keys;
    ghost var done: set<Term> := {};
    while todo != {}
      invariant todo + done == weights.Keys && todo !! done
      invariant scores.Keys == involved
      invariant forall d :: d in scores ==> scores[d] == ScoreOver(sc, tokens, done, d)
    {
      ghost var some := Pick(todo);
      var term :| term in todo;
      var wq := weights[term];
      ghost var before := scores;
      scores := AddChainProducts(sc, term, wq, scores);
      forall d | d in scores ensures scores[d] == ScoreOver(sc, tokens, done + {term}, d) {
        ScoreOverAdd(sc, tokens, done, term, d);
      }
      todo, done := todo - {term}, done + {term};
    }
  }

  function DocOf(item: (DocId, real)): DocId {
    item.0
  }

  /** The documents of a ranked list, in order. */
  function Ids(ranked: seq<(DocId, real)>): seq<DocId> {
    Project(ranked, DocOf)
  }

  /** The sort key of `sorted(doc_scores.items(), key=lambda item: item[1])`. */
  function ScoreOf(item: (DocId, real)): real {
    item.1
  }

  /** `doc_scores.items()`: each entry once, in the dictionary's order. */
  method ItemsOf(scores: map<DocId, real>) returns (items: seq<(DocId, real)>)
    ensures SetOf(Ids(items)) == scores.Keys
    ensures Distinct(Ids(items))
    ensures forall i :: 0 <= i < |items| ==> items[i].0 in scores && items[i].1 == scores[items[i].0]
  {
    items := [];
    var todo := scores.Keys;
    while todo != {}
      invariant todo <= scores.Keys
      invariant SetOf(Ids(items)) == scores.Keys - todo
      invariant Distinct(Ids(items))
      invariant forall i :: 0 <= i < |items| ==> items[i].0 in scores && items[i].1 == scores[items[i].0]
    {
      ghost var some := Pick(todo);
      var d :| d in todo;
      assert Ids(items + [(d, scores[d])]) == Ids(items) + [d];
      SetOfSnoc(Ids(items), d);
      items := items + [(d, scores[d])];
      todo := todo - {d};
    }
  }

  /** What the scorer promises of a ranked list: every candidate exactly
      once, each with its dot-product score, by non-increasing score. */
  ghost predicate IsRanking(sc: Scorer, tokens: seq<Term>, ranked: seq<(DocId, real)>)
    requires WellFormed(sc.index)
  {
    && SetOf(Ids(ranked)) == Candidates(sc.index, tokens)
    && Distinct(Ids(ranked))
    && (forall i :: 0 <= i < |ranked| ==> ranked[i].1 == Score(sc, tokens, ranked[i].0))
    && SortedBy(ScoreOf, true, ranked)
  }

  /** `_calculate_vsm_scores`, and the same steps inlined in the older
      `search_by_keyword`.  Unloaded assets, an empty query and a query
      with no candidate give []; otherwise every candidate appears exactly
      once, with its dot-product score, by non-increasing score. */
  method CalculateVsmScores(assets: Option<Assets>, tokens: seq<Term>, weighting: Weighting, log10: real -> real)
    returns (ranked: seq<(DocId, real)>)
    requires assets.Some? ==> WellFormed(assets.value.index)
    ensures assets.None? || tokens == [] ==> ranked == []
    ensures assets.Some? ==> SetOf(Ids(ranked)) == Candidates(assets.value.index, tokens)
    ensures assets.Some? ==> |ranked| == |Candidates(assets.value.index, tokens)|
    ensures Distinct(Ids(ranked))
    ensures assets.Some? ==> forall i :: 0 <= i < |ranked| ==>
              ranked[i].1 == Score(Scorer(assets.value.index, weighting, log10), tokens, ranked[i].0)
    ensures SortedBy(ScoreOf, true, ranked)
  {
    if assets.None? {
      return [];
    }
    var index := assets.value.index;
    if tokens == [] {
      assert QueryTerms(index.idf, tokens) == {};
      return [];
    }
    var sc := Scorer(index, weighting, log10);
    var weights, involved := CollectCandidates(sc, tokens);
    if involved == {} {
      return [];
    }
    var scores := AccumulateScores(sc, tokens, weights, involved);
    var items := ItemsOf(scores);
    ranked := SortBy(ScoreOf, true, items);
    SortBySorted(ScoreOf, true, items);
    SortByPermutes(ScoreOf, true, items);
    PermutationProject(items, ranked, DocOf);
    DistinctCardinality(Ids(ranked));
    forall i | 0 <= i < |ranked| ensures ranked[i] in items {
      assert ranked[i] in multiset(items);
    }
  }

  lemma {:induction false} ChainDotAbsent(sc: Scorer, t: Term, nodes: seq<Node>, d: DocId, wq: real)
    requires t in sc.index.idf
    requires forall i :: 0 <= i < |nodes| ==> nodes[i].docId != d
    ensures ChainDot(sc, t, nodes, d, wq) == 0.0
  {
    if nodes != [] {
      ChainDotAbsent(sc, t, AllButLast(nodes), d, wq);
    }
  }

  lemma {:induction false} ScoreOverAbsent(sc: Scorer, tokens: seq<Term>, terms: set<Term>, d: DocId)
    requires WellFormed(sc.index) && terms <= sc.index.idf.Keys
    requires d !in CandidatesOver(sc.index, terms)
    ensures ScoreOver(sc, tokens, terms, d) == 0.0
    decreases terms
  {
    if terms != {} {
      var t := Choose(terms);
      var chain := sc.index.chains[t];
      forall i | 0 <= i < |chain[1..]| ensures chain[1..][i].docId != d {
        assert chain[1..][i] == chain[i + 1];
      }
      ChainDotAbsent(sc, t, chain[1..], d, QueryWeight(sc, tokens, t));
      ScoreOverAbsent(sc, tokens, terms - {t}, d);
    }
  }

  /** A document that is on no chain of a query term scores 0: leaving
      non-candidates out of `doc_scores` loses no score. */
  lemma NonCandidateScoresZero(sc: Scorer, tokens: seq<Term>, d: DocId)
    requires WellFormed(sc.index) && d !in Candidates(sc.index, tokens)
    ensures Score(sc, tokens, d) == 0.0
  {
    ScoreOverAbsent(sc, tokens, QueryTerms(sc.index.idf, tokens), d);
  }

  lemma {:induction false} ScoreOverSameWeights(sc: Scorer, tokens1: seq<Term>, tokens2: seq<Term>,
                                                terms: set<Term>, d: DocId)
    requires WellFormed(sc.index) && terms <= sc.index.idf.Keys
    requires forall t :: t in terms ==> QueryWeight(sc, tokens1, t) == QueryWeight(sc, tokens2, t)
    ensures ScoreOver(sc, tokens1, terms, d) == ScoreOver(sc, tokens2, terms, d)
    decreases terms
  {
    if terms != {} {
      var t := Choose(terms);
      ScoreOverSameWeights(sc, tokens1, tokens2, terms - {t}, d);
    }
  }

  /** A query token without an IDF gets no weight: adding it to the query
      changes neither the candidates nor any score. */
  lemma OutOfVocabularyIgnored(sc: Scorer, tokens: seq<Term>, t: Term, d: DocId)
    requires WellFormed(sc.index) && t !in sc.index.idf
    ensures Candidates(sc.index, tokens + [t]) == Candidates(sc.index, tokens)
    ensures Score(sc, tokens + [t], d) == Score(sc, tokens, d)
  {
    SetOfSnoc(tokens, t);
    assert QueryTerms(sc.index.idf, tokens + [t]) == QueryTerms(sc.index.idf, tokens);
    forall u | u in QueryTerms(sc.index.idf, tokens)
      ensures QueryWeight(sc, tokens + [t], u) == QueryWeight(sc, tokens, u)
    {
      CountSnoc(tokens, t, u);
    }
    ScoreOverSameWeights(sc, tokens + [t], tokens, QueryTerms(sc.index.idf, tokens), d);
  }

  /** A one-term query against a chain holding one node `(d, freq)`: the
      older scorer gives `idf * freq`, the refactored one with plain tf-idf
      multiplies the stored `freq` by the IDF once more. */
  lemma SingleNodeScore(index: Index, log10: real -> real, t: Term, d: DocId, freq: real)
    requires WellFormed(index) && t in index.idf
    requires index.chains[t] == [Sentinel, Node(d, Some(freq))]
    ensures Score(Scorer(index, Stored, log10), [t], d) == index.idf[t] * freq
    ensures Score(Scorer(index, Recomputed("tfidf"), log10), [t], d) == index.idf[t] * (freq * index.idf[t])
  {
    var idf := index.idf[t];
    assert QueryTerms(index.idf, [t]) == {t} by {
      SetOfSnoc([], t);
      assert [] + [t] == [t];
    }
    assert Count([t], t) == 1;
    var nodes := index.chains[t][1..];
    assert nodes == [Node(d, Some(freq))];
    assert AllButLast(nodes) == [];
    var stored, recomputed := Scorer(index, Stored, log10), Scorer(index, Recomputed("tfidf"), log10);
    ScoreOverRemove(stored, [t], {t}, t, d);
    ScoreOverRemove(recomputed, [t], {t}, t, d);
    assert {t} - {t} == {};
    assert Last(nodes) == Node(d, Some(freq));
    assert QueryWeight(stored, [t], t) == 1.0 * idf;
    assert QueryWeight(recomputed, [t], t) == 1.0 * idf;
    assert DocWeight(stored, t, Last(nodes)) == freq;
    assert DocWeight(recomputed, t, Last(nodes)) == freq * idf;
    assert ChainDot(stored, t, nodes, d, 1.0 * idf) == ChainDot(stored, t, [], d, 1.0 * idf) + freq * (1.0 * idf);
    assert ChainDot(recomputed, t, nodes, d, 1.0 * idf)
        == ChainDot(recomputed, t, [], d, 1.0 * idf) + (freq * idf) * (1.0 * idf);
  }
}
