/** The indexing phase of `build_index.py`: document frequencies, the IDF
    table and one sentinel-headed postings chain per term.  The corpus is the
    sequence of rows (Doc_ID, Clean_Tokens) in file order; `log10` is the
    floating-point logarithm, left uninterpreted. */
module Indexer {
  import opened Text
  import opened Seqs

  type Term = string

  /** One corpus row: its Doc_ID and its preprocessed tokens. */
  datatype Doc = Doc(id: int, tokens: seq<Term>)

  /** A node of a postings chain: `Node(docId, freq)`; the head of every
      chain is the sentinel `Node(0, None)`, which carries no posting. */
  datatype Node = Node(docId: int, freq: Option<real>)

  const Sentinel: Node := Node(0, None)

  /** The chain as the list of its nodes, head first. */
  type Chain = seq<Node>

  /** What the indexing phase saves: `idf_scores` and `linked_list_data`. */
  datatype Index = Index(idf: map<Term, real>, chains: map<Term, Chain>)

  /** The number of documents whose token list contains `t`. */
  function DocFreq(corpus: seq<Doc>, t: Term): (n: nat)
    ensures n <= |corpus|
  {
    if corpus == [] then 0
    else DocFreq(AllButLast(corpus), t) + (if t in Last(corpus).tokens then 1 else 0)
  }

  /** Every token of every document. */
  function Vocabulary(corpus: seq<Doc>): set<Term> {
    if corpus == [] then {}
    else Vocabulary(AllButLast(corpus)) + SetOf(Last(corpus).tokens)
  }

  /** The postings the indexer appends for `t`, one per document holding
      `t`, in corpus order: `Node(Doc_ID, tf * idf[t])`. */
  function Postings(corpus: seq<Doc>, idf: map<Term, real>, t: Term): seq<Node> {
    if corpus == [] then []
    else Postings(AllButLast(corpus), idf, t) + RowPosting(Last(corpus), idf, t)
  }

  /** `df_counts`: for each document, every distinct token's counter goes
      up by one. */
  method CountDocumentFrequencies(corpus: seq<Doc>) returns (df: map<Term, nat>)
    ensures df.Keys == Vocabulary(corpus)
    ensures forall t :: t in df ==> df[t] == DocFreq(corpus, t)
  {
    df := map[];
    for k := 0 to |corpus|
      invariant df.Keys == Vocabulary(corpus[..k])
      invariant forall t :: t in df ==> df[t] == DocFreq(corpus[..k], t)
    {
      var tokens := corpus[k].tokens;
      var todo := SetOf(tokens);
      ghost var done: set<Term> := {};
      while todo != {}
        invariant todo + done == SetOf(tokens) && todo !! done
        invariant df.Keys == Vocabulary(corpus[..k]) + done
        invariant forall t :: t in df ==> df[t] == DocFreq(corpus[..k], t) + (if t in done then 1 else 0)
      {
        var word :| word in todo;
        VocabularyDocFreq(corpus[..k], word);
        df := df[word := (if word in df then df[word] else 0) + 1];
        todo, done := todo - {word}, done + {word};
      }
      assert corpus[..k + 1][..k] == corpus[..k];
      forall t ensures t in tokens <==> t in done {
        if t in tokens {
          var i :| 0 <= i < |tokens| && tokens[i] == t;
        }
      }
    }
    assert corpus[..|corpus|] == corpus;
  }

  /** `idf_scores[term] = log10(N / count)` for every counted term. */
  method ComputeIdf(df: map<Term, nat>, n: nat, log10: real -> real) returns (idf: map<Term, real>)
    requires forall t :: t in df ==> df[t] >= 1
    ensures idf.Keys == df.Keys
    ensures forall t :: t in idf ==> idf[t] == log10(n as real / df[t] as real)
  {
    idf := map[];
    var todo := df.Keys;
    while todo != {}
      invariant todo <= df.Keys
      invariant idf.Keys == df.Keys - todo
      invariant forall t :: t in idf ==> idf[t] == log10(n as real / df[t] as real)
    {
      var term :| term in todo;
      idf := idf[term := log10(n as real / df[term] as real)];
      todo := todo - {term};
    }
  }

  /** Every counted term gets a chain holding only the sentinel head. */
  method InitChains(terms: set<Term>) returns (chains: map<Term, Chain>)
    ensures chains.Keys == terms
    ensures forall t :: t in chains ==> chains[t] == [Sentinel]
  {
    chains := map[];
    var todo := terms;
    while todo != {}
      invariant todo <= terms
      invariant chains.Keys == terms - todo
      invariant forall t :: t in chains ==> chains[t] == [Sentinel]
    {
      var word :| word in todo;
      chains := chains[word := [Sentinel]];
      todo := todo - {word};
    }
  }

  /** Walks from the head while a next node exists and links `node` after
      the node where the walk stops, ahead of whatever follows it (nothing,
      since the walk stops only at the last node). */
  method AppendAtTail(chain: Chain, node: Node) returns (r: Chain)
    requires chain != []
    ensures r == chain + [node]
    ensures r[0] == chain[0]
  {
    var current := 0;
    while current + 1 < |chain|
      invariant current < |chain|
    {
      current := current + 1;
    }
    assert current == |chain| - 1;
    r := chain[..current + 1] + [node] + chain[current + 1..];
  }

  /** The stored weight `tfidf = tf * idf_scores[term]`, with tf the
      occurrence count of the term in the row's own token list. */
  function TfIdf(d: Doc, idf: map<Term, real>, t: Term): real
    requires t in idf
  {
    Count(d.tokens, t) as real * idf[t]
  }

  /** The node the second pass appends for `t` and one row, if any. */
  function RowPosting(d: Doc, idf: map<Term, real>, t: Term): seq<Node> {
    if t in d.tokens && t in idf then [Node(d.id, Some(TfIdf(d, idf, t)))] else []
  }

  /** One `(term, tf)` of a row: with an IDF, `tf * idf` is appended at the
      tail of the term's chain; no other chain changes. */
  method AppendTerm(d: Doc, idf: map<Term, real>, term: Term, tf: nat, chains0: map<Term, Chain>)
    returns (chains: map<Term, Chain>)
    requires idf.Keys <= chains0.Keys
    requires forall t :: t in chains0 ==> chains0[t] != []
    requires term in d.tokens && tf == Count(d.tokens, term)
    ensures chains.Keys == chains0.Keys
    ensures forall t :: t in chains ==> chains[t] != []
    ensures forall t :: t in chains ==>
              chains[t] == chains0[t] + (if t == term then RowPosting(d, idf, term) else [])
  {
    chains := chains0;
    if term in idf {
      var tfidf := tf as real * idf[term];
      assert tfidf == TfIdf(d, idf, term);
      assert RowPosting(d, idf, term) == [Node(d.id, Some(TfIdf(d, idf, term)))];
      var extended := AppendAtTail(chains[term], Node(d.id, Some(tfidf)));
      chains := chains[term := extended];
    }
  }

  /** One row of the second pass: `tf_in_doc` is built from the distinct
      tokens, and each of them that has an IDF gets one node appended. */
  method AppendRow(d: Doc, idf: map<Term, real>, chains0: map<Term, Chain>)
    returns (chains: map<Term, Chain>)
    requires idf.Keys <= chains0.Keys
    requires forall t :: t in chains0 ==> chains0[t] != []
    ensures chains.Keys == chains0.Keys
    ensures forall t :: t in chains ==> chains[t] == chains0[t] + RowPosting(d, idf, t)
  {
    chains := chains0;
    var tfInDoc := map word | word in SetOf(d.tokens) :: Count(d.tokens, word);
    var todo := tfInDoc.Keys;
    ghost var done: set<Term> := {};
    while todo != {}
      invariant todo + done == SetOf(d.tokens) && todo !! done
      invariant chains.Keys == chains0.Keys
      invariant forall t :: t in chains ==>
                  chains[t] == chains0[t] + (if t in done then RowPosting(d, idf, t) else [])
    {
      var term :| term in todo;
      assert term in d.tokens by {
        var i :| 0 <= i < |d.tokens| && d.tokens[i] == term;
      }
      chains := AppendTerm(d, idf, term, tfInDoc[term], chains);
      todo, done := todo - {term}, done + {term};
    }
    forall t | t in chains ensures chains[t] == chains0[t] + RowPosting(d, idf, t) {
      if t in d.tokens {
        var i :| 0 <= i < |d.tokens| && d.tokens[i] == t;
        assert t in SetOf(d.tokens);
      }
    }
  }

  lemma PostingsStep(corpus: seq<Doc>, idf: map<Term, real>, t: Term, k: int)
    requires 0 <= k < |corpus|
    ensures Postings(corpus[..k + 1], idf, t) == Postings(corpus[..k], idf, t) + RowPosting(corpus[k], idf, t)
  {
    assert AllButLast(corpus[..k + 1]) == corpus[..k] && Last(corpus[..k + 1]) == corpus[k];
  }

  /** The second pass: for each row in order and each distinct token with an
      IDF, one node `(Doc_ID, tf * idf)` is appended to that token's chain. */
  method AppendPostings(corpus: seq<Doc>, idf: map<Term, real>, chains0: map<Term, Chain>)
    returns (chains: map<Term, Chain>)
    requires idf.Keys <= chains0.Keys
    requires forall t :: t in chains0 ==> chains0[t] != []
    ensures chains.Keys == chains0.Keys
    ensures forall t :: t in chains ==> chains[t] == chains0[t] + Postings(corpus, idf, t)
  {
    chains := chains0;
    for k := 0 to |corpus|
      invariant chains.Keys == chains0.Keys
      invariant forall t :: t in chains ==> chains[t] == chains0[t] + Postings(corpus[..k], idf, t)
    {
      chains := AppendRow(corpus[k], idf, chains);
      forall t | t in chains ensures chains[t] == chains0[t] + Postings(corpus[..k + 1], idf, t) {
        PostingsStep(corpus, idf, t, k);
      }
    }
    assert corpus[..|corpus|] == corpus;
  }

  /** The whole indexing phase.  `idf[t] = log10(N / df(t))` for exactly the
      terms of the corpus, and each such term's chain is the sentinel
      followed by one node per document holding it, in corpus order.  An
      empty corpus gives empty tables and performs no division. */
  method BuildIndex(corpus: seq<Doc>, log10: real -> real) returns (index: Index)
    ensures index.idf.Keys == Vocabulary(corpus) && index.chains.Keys == Vocabulary(corpus)
    ensures forall t :: t in index.idf ==>
              DocFreq(corpus, t) >= 1 && index.idf[t] == log10(|corpus| as real / DocFreq(corpus, t) as real)
    ensures forall t :: t in index.chains ==> index.chains[t] == [Sentinel] + Postings(corpus, index.idf, t)
    ensures WellFormed(index)
    ensures corpus == [] ==> index.idf == map[] && index.chains == map[]
  {
    var n := |corpus|;
    var df := CountDocumentFrequencies(corpus);
    forall t | t in df ensures df[t] >= 1 {
      VocabularyDocFreq(corpus, t);
    }
    var idf := ComputeIdf(df, n, log10);
    var chains := InitChains(df.Keys);
    chains := AppendPostings(corpus, idf, chains);
    index := Index(idf, chains);
    forall t | t in index.idf ensures DocFreq(corpus, t) >= 1 {
      VocabularyDocFreq(corpus, t);
    }
    BuiltIndexWellFormed(corpus, index);
  }

  /** A term is in the vocabulary exactly when some document holds it. */
  lemma {:induction false} VocabularyDocFreq(corpus: seq<Doc>, t: Term)
    ensures t in Vocabulary(corpus) <==> DocFreq(corpus, t) >= 1
  {
    if corpus != [] {
      VocabularyDocFreq(AllButLast(corpus), t);
      var tokens := Last(corpus).tokens;
      if t in tokens {
        var i :| 0 <= i < |tokens| && tokens[i] == t;
        assert t in SetOf(tokens);
      }
    }
  }

  /** The `term in idf_scores` guard always holds: every token of every row
      is in the vocabulary, hence in the IDF table. */
  lemma {:induction false} EveryTokenInVocabulary(corpus: seq<Doc>, k: nat, t: Term)
    requires k < |corpus| && t in corpus[k].tokens
    ensures t in Vocabulary(corpus)
  {
    if k == |corpus| - 1 {
      var tokens := corpus[k].tokens;
      var i :| 0 <= i < |tokens| && tokens[i] == t;
      assert t in SetOf(tokens);
    } else {
      EveryTokenInVocabulary(AllButLast(corpus), k, t);
    }
  }

  /** The non-sentinel length of a term's chain is its document frequency. */
  lemma {:induction false} PostingsLength(corpus: seq<Doc>, idf: map<Term, real>, t: Term)
    requires t in idf
    ensures |Postings(corpus, idf, t)| == DocFreq(corpus, t)
  {
    if corpus != [] {
      PostingsLength(AllButLast(corpus), idf, t);
    }
  }

  predicate IdsAscending(corpus: seq<Doc>) {
    forall i, j :: 0 <= i < j < |corpus| ==> corpus[i].id < corpus[j].id
  }

  predicate NodesAscending(nodes: seq<Node>) {
    forall i, j :: 0 <= i < j < |nodes| ==> nodes[i].docId < nodes[j].docId
  }

  /** Row `k` holds `t` and `p` is the node built for it. */
  predicate PostingOfRow(corpus: seq<Doc>, idf: map<Term, real>, t: Term, p: Node, k: int) {
    && 0 <= k < |corpus|
    && t in corpus[k].tokens && t in idf
    && p == Node(corpus[k].id, Some(TfIdf(corpus[k], idf, t)))
  }

  /** Every posting of `t` names a row that holds `t`, with weight
      `tf * idf[t]` where tf is the occurrence count in that row. */
  lemma {:induction false} PostingsSound(corpus: seq<Doc>, idf: map<Term, real>, t: Term, p: Node)
    requires p in Postings(corpus, idf, t)
    ensures exists k :: PostingOfRow(corpus, idf, t, p, k)
  {
    var prefix := AllButLast(corpus);
    if p in Postings(prefix, idf, t) {
      PostingsSound(prefix, idf, t, p);
      var k :| PostingOfRow(prefix, idf, t, p, k);
      assert corpus[k] == prefix[k];
      assert PostingOfRow(corpus, idf, t, p, k);
    } else {
      assert PostingOfRow(corpus, idf, t, p, |corpus| - 1);
    }
  }

  /** Conversely, every row holding a term with an IDF contributes a node. */
  lemma {:induction false} PostingsComplete(corpus: seq<Doc>, idf: map<Term, real>, t: Term, k: nat)
    requires k < |corpus| && t in corpus[k].tokens && t in idf
    ensures Node(corpus[k].id, Some(TfIdf(corpus[k], idf, t))) in Postings(corpus, idf, t)
  {
    var prefix := AllButLast(corpus);
    assert Postings(corpus, idf, t) == Postings(prefix, idf, t) + RowPosting(Last(corpus), idf, t);
    if k < |corpus| - 1 {
      PostingsComplete(prefix, idf, t, k);
      assert prefix[k] == corpus[k];
    }
  }

  /** Appending at the tail keeps corpus order: when the Doc_IDs are
      strictly ascending, every chain is strictly ascending, so no document
      appears twice in one chain. */
  lemma {:induction false} PostingsAscending(corpus: seq<Doc>, idf: map<Term, real>, t: Term)
    requires IdsAscending(corpus)
    ensures NodesAscending(Postings(corpus, idf, t))
  {
    if corpus != [] {
      var prefix := AllButLast(corpus);
      assert IdsAscending(prefix);
      PostingsAscending(prefix, idf, t);
      var before := Postings(prefix, idf, t);
      var row := RowPosting(Last(corpus), idf, t);
      if row != [] {
        forall i | 0 <= i < |before| ensures before[i].docId < row[0].docId {
          assert before[i] in before;
          PostingsSound(prefix, idf, t, before[i]);
          var k :| PostingOfRow(prefix, idf, t, before[i], k);
          assert prefix[k] == corpus[k];
        }
      }
    }
  }

  lemma RatioAgainstOne(n: real, d: real)
    requires 0.0 < d <= n
    ensures d == n ==> n / d == 1.0
    ensures d < n ==> n / d > 1.0
  {
    assert (n / d) * d == n;
  }

  /** A term held by every document gets `log10(1)`, which is 0 for the real
      logarithm; a term missing from some document gets a ratio above 1,
      hence a positive IDF. */
  lemma IdfRatio(corpus: seq<Doc>, t: Term)
    requires t in Vocabulary(corpus)
    ensures DocFreq(corpus, t) >= 1
    ensures DocFreq(corpus, t) == |corpus| ==> |corpus| as real / DocFreq(corpus, t) as real == 1.0
    ensures DocFreq(corpus, t) < |corpus| ==> |corpus| as real / DocFreq(corpus, t) as real > 1.0
  {
    VocabularyDocFreq(corpus, t);
    RatioAgainstOne(|corpus| as real, DocFreq(corpus, t) as real);
  }

  /** What the scorer relies on: every term with an IDF has a chain, every
      chain starts with the sentinel and every later node carries a weight. */
  predicate WellFormed(index: Index) {
    && index.idf.Keys <= index.chains.Keys
    && forall t :: t in index.chains ==>
         index.chains[t] != [] && index.chains[t][0] == Sentinel
         && forall i :: 1 <= i < |index.chains[t]| ==> index.chains[t][i].freq.Some?
  }

  lemma {:induction false} PostingsCarryWeights(corpus: seq<Doc>, idf: map<Term, real>, t: Term)
    ensures forall i :: 0 <= i < |Postings(corpus, idf, t)| ==> Postings(corpus, idf, t)[i].freq.Some?
  {
    if corpus != [] {
      PostingsCarryWeights(AllButLast(corpus), idf, t);
    }
  }

  /** The index the build produces is well formed. */
  lemma BuiltIndexWellFormed(corpus: seq<Doc>, index: Index)
    requires index.idf.Keys == Vocabulary(corpus) && index.chains.Keys == Vocabulary(corpus)
    requires forall t :: t in index.chains ==> index.chains[t] == [Sentinel] + Postings(corpus, index.idf, t)
    ensures WellFormed(index)
  {
    forall t | t in index.chains
      ensures forall i :: 1 <= i < |index.chains[t]| ==> index.chains[t][i].freq.Some?
    {
      PostingsCarryWeights(corpus, index.idf, t);
    }
  }
}
