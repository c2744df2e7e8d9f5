/** The older front end in the repository root, `mesin_pencari.py`.  Its
    `analyze_full_query` is the same as the refactored one
    (`Search.AnalyzeFullQuery`); its `search_by_keyword` scores inline
    against the index that `build_index.py` writes, whose nodes already
    hold tf·idf, so the document side takes the stored weight as it is and
    the query side is `tf * idf`. */
module LegacySearch {
  import opened Text
  import opened Seqs
  import opened Indexer
  import opened VsmScorer
  import opened Search

  /** The stored weights need no logarithm; the scorer's `log10` is never
      consulted under `Stored`. */
  function NoLog(x: real): real {
    0.0
  }

  /** `search_by_keyword` of the root module: unloaded assets give []; the
      'ALL' intent lists every place; an empty query gives []; otherwise the
      documents of the query's terms are ranked by the dot product of the
      stored document weights with `tf * idf`, then assembled one per place
      name and re-sorted by rating as the intent asks. */
  method SearchByKeyword(assets: Option<Assets>, tokens: seq<Term>, intent: Option<string>, region: Option<string>)
    returns (recs: seq<Recommendation>)
    requires assets.Some? ==> WellFormed(assets.value.index)
    ensures assets.None? ==> recs == []
    ensures assets.Some? && intent == Some("ALL") ==>
              exists rows :: IsAllListing(assets.value.metadata, region, rows) && recs == Project(rows, Unscored)
    ensures assets.Some? && intent != Some("ALL") && tokens == [] ==> recs == []
    ensures assets.Some? && intent != Some("ALL") ==>
              exists ranked :: IsRanking(Scorer(assets.value.index, Stored, NoLog), tokens, ranked)
                               && recs == ApplyRatingOrder(intent, Assembled(assets.value.metadata, region, ranked))
  {
    if assets.None? {
      return [];
    }
    if intent == Some("ALL") {
      recs := ListAllPlaces(assets.value.metadata, region);
      return;
    }
    if tokens == [] {
      assert Assembled(assets.value.metadata, region, []) == [];
      return [];
    }
    var ranked := CalculateVsmScores(assets, tokens, Stored, NoLog);
    assert IsRanking(Scorer(assets.value.index, Stored, NoLog), tokens, ranked);
    recs := AssembleRanked(assets.value.metadata, region, ranked);
    recs := ApplyRatingOrder(intent, recs);
  }
}
