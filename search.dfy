/** The search front end of `src/mesin_pencari.py`: `analyze_full_query`
    (intent and region detection with the token fallbacks) and
    `search_by_keyword` (the 'ALL' listing, or the VSM ranking turned into
    one recommendation per place name, optionally re-sorted by rating).
    The display fields (photo URL, maps link, facilities, prices, opening
    hours) are not modelled; a recommendation keeps the name, location,
    average rating and top VSM score. */
module Search {
  import opened Text
  import opened Seqs
  import opened Sorting
  import opened Dedup
  import opened Indexer
  import opened VsmScorer
  import opened Preprocessing

  datatype Recommendation = Recommendation(name: string, location: string, avgRating: real, topVsmScore: real)

  function NameOf(r: Recommendation): string { r.name }
  function RatingOf(r: Recommendation): real { r.avgRating }
  function TopScoreOf(r: Recommendation): real { r.topVsmScore }
  function RowName(row: PlaceRow): string { row.name }
  function RowRating(row: PlaceRow): real { row.avgRating }

  // ---------------------------------------------------------------------
  // analyze_full_query

  /** `generic_fluff_words`. */
  const FluffWords: set<string> := {"cari", "tampil", "lihat", "berikan", "saran", "rekomendasikan"}

  /** `all(token in generic_fluff_words for token in vsm_tokens)`. */
  predicate AllFluff(tokens: seq<Term>) {
    forall i :: 0 <= i < |tokens| ==> tokens[i] in FluffWords
  }

  /** The fallback rules applied to the preprocessed tokens: with a region,
      a query of fluff words only is emptied; an empty query with an intent
      or a region becomes `['kemah']`, and a region without an intent turns
      the intent into 'ALL'. */
  function Fallback(vsmTokens: seq<Term>, intent: Option<string>, region: Option<string>)
    : (r: (seq<Term>, Option<string>))
    ensures r.0 == vsmTokens || r.0 == ["kemah"]
    ensures r.1 == intent || (r.1 == Some("ALL") && !Truthy(intent) && Truthy(region) && r.0 == ["kemah"])
    ensures Truthy(intent) || Truthy(region) ==> r.0 != []
    ensures !Truthy(intent) && !Truthy(region) ==> r == (vsmTokens, intent)
    ensures vsmTokens != [] && (!Truthy(region) || !AllFluff(vsmTokens))
            ==> r == (vsmTokens, intent)
    ensures !Truthy(intent) && Truthy(region) && AllFluff(vsmTokens)
            ==> r == (["kemah"], Some("ALL"))
    ensures Truthy(intent) && (vsmTokens == [] || (Truthy(region) && AllFluff(vsmTokens)))
            ==> r == (["kemah"], intent)
  {
    var tokens :=
      if Truthy(region) && vsmTokens != [] && AllFluff(vsmTokens)
      then [] else vsmTokens;
    if tokens == [] && (Truthy(intent) || Truthy(region)) then
      (["kemah"], if !Truthy(intent) && Truthy(region) then Some("ALL") else intent)
    else (tokens, intent)
  }

  /** `analyze_full_query`: the intent is detected first, the region in
      what remains, the rest is preprocessed into VSM tokens, and then the
      fallback rules apply. */
  method AnalyzeFullQuery(query: string, intentMap: seq<(string, string)>, regionMap: seq<(string, string)>,
                          substitutePhrases: string -> string, stopwords: set<string>, stem: string -> string)
    returns (tokens: seq<Term>, intent: Option<string>, region: Option<string>)
    ensures var (afterIntent, detectedIntent) := Detection(query, intentMap);
            var (vsmText, detectedRegion) := Detection(afterIntent, regionMap);
            region == detectedRegion
            && (tokens, intent)
               == Fallback(FullPreprocessing(Some(vsmText), substitutePhrases, stopwords, stem), detectedIntent, region)
  {
    var queryAfterIntent, specialIntent := DetectIntent(query, intentMap);
    var finalVsmText, regionFilter := DetectRegionAndFilterQuery(queryAfterIntent, regionMap);
    var vsmTokens := FullPreprocessing(Some(finalVsmText), substitutePhrases, stopwords, stem);
    ghost var preprocessed, detectedIntent := vsmTokens, specialIntent;
    if Truthy(regionFilter) {
      if vsmTokens != [] && AllFluff(vsmTokens) {
        vsmTokens := [];
      }
    }
    if vsmTokens == [] && (Truthy(specialIntent) || Truthy(regionFilter)) {
      vsmTokens := ["kemah"];
      if !Truthy(specialIntent) && Truthy(regionFilter) {
        specialIntent := Some("ALL");
      }
    }
    assert (vsmTokens, specialIntent) == Fallback(preprocessed, detectedIntent, regionFilter);
    tokens, intent, region := vsmTokens, specialIntent, regionFilter;
  }

  // ---------------------------------------------------------------------
  // The VSM path of search_by_keyword

  /** `DF_METADATA.loc[doc_id]`: the row labelled `d`, if any. */
  function Lookup(metadata: seq<PlaceRow>, d: DocId): (r: Option<PlaceRow>)
    ensures r.Some? ==> r.value in metadata && r.value.docId == d
    ensures r.None? <==> forall i :: 0 <= i < |metadata| ==> metadata[i].docId != d
  {
    if metadata == [] then None
    else if metadata[0].docId == d then Some(metadata[0])
    else Lookup(metadata[1..], d)
  }

  /** The region test: no region, or the region occurs in the lower-cased
      location. */
  predicate InRegion(region: Option<string>, location: string) {
    !Truthy(region) || Contains(Lower(location), region.value)
  }

  /** The recommendation a ranked document yields when it has a metadata
      row that passes the region test. */
  function PassingOne(metadata: seq<PlaceRow>, region: Option<string>, item: (DocId, real)): seq<Recommendation> {
    match Lookup(metadata, item.0)
    case None => []
    case Some(row) =>
      if InRegion(region, row.location) then [Recommendation(row.name, row.location, row.avgRating, item.1)] else []
  }

  /** The recommendations of the ranked documents, in rank order, before
      duplicate names are dropped. */
  function Passing(metadata: seq<PlaceRow>, region: Option<string>, ranked: seq<(DocId, real)>): seq<Recommendation> {
    if ranked == [] then []
    else Passing(metadata, region, AllButLast(ranked)) + PassingOne(metadata, region, Last(ranked))
  }

  /** `final_recommendations` before the rating re-sort: the first
      recommendation of each place name, in rank order. */
  function Assembled(metadata: seq<PlaceRow>, region: Option<string>, ranked: seq<(DocId, real)>): seq<Recommendation> {
    KeepFirst(Passing(metadata, region, ranked), NameOf)
  }

  /** One pass of the loop over `ranked_results_by_doc`, for the ranked
      item `item` after the items whose recommendations are `before`. */
  method AssembleOne(metadata: seq<PlaceRow>, region: Option<string>, item: (DocId, real),
                     ghost before: seq<Recommendation>, recs0: seq<Recommendation>, uniqueNames0: set<string>)
    returns (recs: seq<Recommendation>, uniqueNames: set<string>)
    requires recs0 == KeepFirst(before, NameOf) && uniqueNames0 == SetOf(Project(recs0, NameOf))
    ensures recs == KeepFirst(before + PassingOne(metadata, region, item), NameOf)
    ensures uniqueNames == SetOf(Project(recs, NameOf))
  {
    recs, uniqueNames := recs0, uniqueNames0;
    var (docId, vsmScore) := item;
    var meta := Lookup(metadata, docId);
    if meta.None? {
      assert before + PassingOne(metadata, region, item) == before;
      return;
    }
    var row := meta.value;
    if Truthy(region) && !Contains(Lower(row.location), region.value) {
      assert before + PassingOne(metadata, region, item) == before;
      return;
    }
    var name := row.name;
    var rec := Recommendation(name, row.location, row.avgRating, vsmScore);
    assert PassingOne(metadata, region, item) == [rec];
    KeepFirstSnoc(before, rec, NameOf);
    if name !in uniqueNames {
      SetOfSnoc(Project(recs, NameOf), name);
      assert Project(recs + [rec], NameOf) == Project(recs, NameOf) + [name];
      uniqueNames := uniqueNames + {name};
      recs := recs + [rec];
    } else {
      var j :| 0 <= j < |Project(recs, NameOf)| && Project(recs, NameOf)[j] == name;
    }
  }

  /** The loop over `ranked_results_by_doc`: documents without metadata or
      outside the region are skipped, and a name already in `unique_names`
      adds nothing. */
  method AssembleRanked(metadata: seq<PlaceRow>, region: Option<string>, ranked: seq<(DocId, real)>)
    returns (recs: seq<Recommendation>)
    ensures recs == Assembled(metadata, region, ranked)
  {
    recs := [];
    var uniqueNames: set<string> := {};
    for i := 0 to |ranked|
      invariant recs == KeepFirst(Passing(metadata, region, ranked[..i]), NameOf)
      invariant uniqueNames == SetOf(Project(recs, NameOf))
    {
      PassingStep(metadata, region, ranked, i);
      recs, uniqueNames := AssembleOne(metadata, region, ranked[i], Passing(metadata, region, ranked[..i]), recs, uniqueNames);
    }
    assert ranked[..|ranked|] == ranked;
  }

  lemma PassingStep(metadata: seq<PlaceRow>, region: Option<string>, ranked: seq<(DocId, real)>, i: int)
    requires 0 <= i < |ranked|
    ensures Passing(metadata, region, ranked[..i + 1])
         == Passing(metadata, region, ranked[..i]) + PassingOne(metadata, region, ranked[i])
  {
    assert AllButLast(ranked[..i + 1]) == ranked[..i] && Last(ranked[..i + 1]) == ranked[i];
  }

  /** The ranked item `item` yields the recommendation `rec`: it has a
      metadata row, the row passes the region test, and `rec` carries the
      row's name, location and rating with the item's score. */
  predicate Yields(metadata: seq<PlaceRow>, region: Option<string>, item: (DocId, real), rec: Recommendation) {
    PassingOne(metadata, region, item) == [rec]
  }

  lemma YieldsFields(metadata: seq<PlaceRow>, region: Option<string>, item: (DocId, real), rec: Recommendation)
    requires Yields(metadata, region, item, rec)
    ensures Lookup(metadata, item.0).Some?
    ensures InRegion(region, Lookup(metadata, item.0).value.location)
    ensures rec.name == Lookup(metadata, item.0).value.name && rec.topVsmScore == item.1
  {
  }

  /** Every recommendation before deduplication comes from a ranked item. */
  lemma {:induction false} PassingSound(metadata: seq<PlaceRow>, region: Option<string>,
                                        ranked: seq<(DocId, real)>, rec: Recommendation)
    requires rec in Passing(metadata, region, ranked)
    ensures exists k :: 0 <= k < |ranked| && Yields(metadata, region, ranked[k], rec)
  {
    var init := AllButLast(ranked);
    if rec in Passing(metadata, region, init) {
      PassingSound(metadata, region, init, rec);
      var k :| 0 <= k < |init| && Yields(metadata, region, init[k], rec);
      assert ranked[k] == init[k];
    } else {
      var one := PassingOne(metadata, region, Last(ranked));
      assert rec in one;
      assert one == [rec];
      assert Yields(metadata, region, ranked[|ranked| - 1], rec);
    }
  }

  /** Every ranked item that yields a recommendation contributes it. */
  lemma {:induction false} PassingComplete(metadata: seq<PlaceRow>, region: Option<string>,
                                           ranked: seq<(DocId, real)>, k: int, rec: Recommendation)
    requires 0 <= k < |ranked| && Yields(metadata, region, ranked[k], rec)
    ensures rec in Passing(metadata, region, ranked)
  {
    var init := AllButLast(ranked);
    if k < |init| {
      assert init[k] == ranked[k];
      PassingComplete(metadata, region, init, k, rec);
    } else {
      assert PassingOne(metadata, region, Last(ranked)) == [rec];
    }
  }

  /** A ranking sorted by score descending stays sorted by top VSM score. */
  lemma {:induction false} PassingSorted(metadata: seq<PlaceRow>, region: Option<string>, ranked: seq<(DocId, real)>)
    requires SortedBy(ScoreOf, true, ranked)
    ensures SortedBy(TopScoreOf, true, Passing(metadata, region, ranked))
  {
    if ranked != [] {
      var init := AllButLast(ranked);
      var before := Passing(metadata, region, init);
      var one := PassingOne(metadata, region, Last(ranked));
      assert SortedBy(ScoreOf, true, init) by {
        forall i, j | 0 <= i < j < |init| ensures InOrder(ScoreOf, true, init[i], init[j]) {
          assert init[i] == ranked[i] && init[j] == ranked[j];
        }
      }
      PassingSorted(metadata, region, init);
      if one != [] {
        var rec := one[0];
        assert one == [rec];
        YieldsFields(metadata, region, Last(ranked), rec);
        var r := before + [rec];
        forall i, j | 0 <= i < j < |r| ensures InOrder(TopScoreOf, true, r[i], r[j]) {
          if j == |r| - 1 {
            assert r[i] in before;
            PassingSound(metadata, region, init, r[i]);
            var k :| 0 <= k < |init| && Yields(metadata, region, init[k], r[i]);
            YieldsFields(metadata, region, init[k], r[i]);
            assert init[k] == ranked[k];
            assert InOrder(ScoreOf, true, ranked[k], ranked[|ranked| - 1]);
          } else {
            assert r[i] == before[i] && r[j] == before[j];
          }
        }
      } else {
        assert before + one == before;
      }
    }
  }

  /** `unique_names`: no place name is recommended twice. */
  lemma AssembledDistinctNames(metadata: seq<PlaceRow>, region: Option<string>, ranked: seq<(DocId, real)>)
    ensures Distinct(Project(Assembled(metadata, region, ranked), NameOf))
  {
    KeepFirstDistinct(Passing(metadata, region, ranked), NameOf);
  }

  /** Every recommendation comes from a ranked document that has metadata
      and passes the region test, and carries that document's score. */
  lemma AssembledSound(metadata: seq<PlaceRow>, region: Option<string>, ranked: seq<(DocId, real)>, rec: Recommendation)
    requires rec in Assembled(metadata, region, ranked)
    ensures exists k :: 0 <= k < |ranked| && Yields(metadata, region, ranked[k], rec)
  {
    KeepFirstWithin(Passing(metadata, region, ranked), NameOf);
    PassingSound(metadata, region, ranked, rec);
  }

  /** Every place name some ranked document yields is recommended. */
  lemma AssembledCoversNames(metadata: seq<PlaceRow>, region: Option<string>, ranked: seq<(DocId, real)>,
                             k: int, rec: Recommendation)
    requires 0 <= k < |ranked| && Yields(metadata, region, ranked[k], rec)
    ensures rec.name in Project(Assembled(metadata, region, ranked), NameOf)
  {
    var p := Passing(metadata, region, ranked);
    PassingComplete(metadata, region, ranked, k, rec);
    KeepFirstKeys(p, NameOf);
    var j :| 0 <= j < |p| && p[j] == rec;
    assert Project(p, NameOf)[j] == rec.name;
    assert rec.name in SetOf(Project(p, NameOf));
  }

  /** Before the rating re-sort the recommendations follow the ranking. */
  lemma AssembledInRankOrder(metadata: seq<PlaceRow>, region: Option<string>, ranked: seq<(DocId, real)>)
    requires SortedBy(ScoreOf, true, ranked)
    ensures SortedBy(TopScoreOf, true, Assembled(metadata, region, ranked))
  {
    PassingSorted(metadata, region, ranked);
    KeepFirstSorted(Passing(metadata, region, ranked), NameOf, TopScoreOf, true);
  }

  /** The recommendation kept for a name carries the best score of any
      ranked document yielding that name. */
  lemma AssembledKeepsBest(metadata: seq<PlaceRow>, region: Option<string>, ranked: seq<(DocId, real)>,
                           rec: Recommendation, k: int, other: Recommendation)
    requires SortedBy(ScoreOf, true, ranked)
    requires rec in Assembled(metadata, region, ranked)
    requires 0 <= k < |ranked| && Yields(metadata, region, ranked[k], other) && other.name == rec.name
    ensures rec.topVsmScore >= ranked[k].1
  {
    var p := Passing(metadata, region, ranked);
    KeepFirstSound(p, NameOf, rec);
    var m :| FirstOfKey(p, NameOf, m) && p[m] == rec;
    PassingComplete(metadata, region, ranked, k, other);
    var j :| 0 <= j < |p| && p[j] == other;
    assert m <= j;
    PassingSorted(metadata, region, ranked);
    if m < j {
      assert InOrder(TopScoreOf, true, p[m], p[j]);
    }
    YieldsFields(metadata, region, ranked[k], other);
  }

  /** `final_recommendations.sort(key=avg_rating, ...)`: RATING_TOP sorts by
      average rating descending, RATING_BOTTOM ascending, any other intent
      keeps the order; the sorts are stable and keep every entry. */
  function ApplyRatingOrder(intent: Option<string>, recs: seq<Recommendation>): (r: seq<Recommendation>)
    ensures multiset(r) == multiset(recs) && |r| == |recs|
    ensures intent == Some("RATING_TOP") ==> SortedBy(RatingOf, true, r)
    ensures intent == Some("RATING_BOTTOM") ==> SortedBy(RatingOf, false, r)
    ensures intent != Some("RATING_TOP") && intent != Some("RATING_BOTTOM") ==> r == recs
  {
    if intent == Some("RATING_TOP") then
      SortBySorted(RatingOf, true, recs);
      SortByPermutes(RatingOf, true, recs);
      SortBy(RatingOf, true, recs)
    else if intent == Some("RATING_BOTTOM") then
      SortBySorted(RatingOf, false, recs);
      SortByPermutes(RatingOf, false, recs);
      SortBy(RatingOf, false, recs)
    else recs
  }

  /** Python's sort is stable: recommendations of equal rating keep their
      relative order under either re-sort. */
  lemma ApplyRatingOrderStable(intent: Option<string>, recs: seq<Recommendation>, v: real)
    ensures WithKey(RatingOf, v, ApplyRatingOrder(intent, recs)) == WithKey(RatingOf, v, recs)
  {
    if intent == Some("RATING_TOP") {
      SortByStable(RatingOf, true, recs, v);
    } else if intent == Some("RATING_BOTTOM") {
      SortByStable(RatingOf, false, recs, v);
    }
  }

  // ---------------------------------------------------------------------
  // The 'ALL' path of search_by_keyword

  /** The rows whose location passes the region test, in order. */
  function RegionRows(rows: seq<PlaceRow>, region: Option<string>): (r: seq<PlaceRow>)
    ensures |r| <= |rows|
    ensures forall x :: x in r ==> x in rows && InRegion(region, x.location)
    ensures forall x :: x in rows && InRegion(region, x.location) ==> x in r
  {
    if rows == [] then []
    else if InRegion(region, rows[0].location) then [rows[0]] + RegionRows(rows[1..], region)
    else RegionRows(rows[1..], region)
  }

  /** The rows the 'ALL' path lists, before sorting:
      `drop_duplicates(subset='Nama_Tempat')`, then the region filter. */
  function UniqueRegionRows(metadata: seq<PlaceRow>, region: Option<string>): seq<PlaceRow> {
    RegionRows(KeepFirst(metadata, RowName), region)
  }

  /** A listing `sort_values(by='Avg_Rating', ascending=False)` may give:
      the unique region rows, best rating first.  The sort is not stable, so
      rows of equal rating may come in any order. */
  predicate IsAllListing(metadata: seq<PlaceRow>, region: Option<string>, rows: seq<PlaceRow>) {
    multiset(rows) == multiset(UniqueRegionRows(metadata, region)) && SortedBy(RowRating, true, rows)
  }

  /** The listing the model builds: the stable sort by rating. */
  function AllPlaceRows(metadata: seq<PlaceRow>, region: Option<string>): (rows: seq<PlaceRow>)
    ensures IsAllListing(metadata, region, rows)
  {
    var unique := UniqueRegionRows(metadata, region);
    SortByPermutes(RowRating, true, unique);
    SortBySorted(RowRating, true, unique);
    SortBy(RowRating, true, unique)
  }

  /** Filtering keeps place names distinct. */
  lemma {:induction false} RegionRowsDistinct(rows: seq<PlaceRow>, region: Option<string>)
    requires Distinct(Project(rows, RowName))
    ensures Distinct(Project(RegionRows(rows, region), RowName))
  {
    if rows != [] {
      var tail := rows[1..];
      DistinctProjectTail(rows, RowName);
      RegionRowsDistinct(tail, region);
      if InRegion(region, rows[0].location) {
        var rest := RegionRows(tail, region);
        forall y | y in rest ensures RowName(y) != RowName(rows[0]) {
          var m :| 0 <= m < |tail| && tail[m] == y;
          assert Project(rows, RowName)[m + 1] == RowName(y);
        }
        DistinctProjectCons(rows[0], rest, RowName);
      }
    }
  }

  /** Any 'ALL' listing names each place once. */
  lemma AllPlacesListing(metadata: seq<PlaceRow>, region: Option<string>, rows: seq<PlaceRow>)
    requires IsAllListing(metadata, region, rows)
    ensures Distinct(Project(rows, RowName))
  {
    var unique := KeepFirst(metadata, RowName);
    KeepFirstDistinct(metadata, RowName);
    RegionRowsDistinct(unique, region);
    PermutationProject(UniqueRegionRows(metadata, region), rows, RowName);
  }

  /** Every listed row lies in the region and is the first row of its
      place name in the metadata. */
  lemma AllPlacesSound(metadata: seq<PlaceRow>, region: Option<string>, rows: seq<PlaceRow>, row: PlaceRow)
    requires IsAllListing(metadata, region, rows) && row in rows
    ensures InRegion(region, row.location)
    ensures exists k :: FirstOfKey(metadata, RowName, k) && metadata[k] == row
  {
    assert row in multiset(rows);
    assert row in UniqueRegionRows(metadata, region);
    KeepFirstSound(metadata, RowName, row);
  }

  /** Every place whose first row lies in the region is listed. */
  lemma AllPlacesComplete(metadata: seq<PlaceRow>, region: Option<string>, rows: seq<PlaceRow>, k: int)
    requires IsAllListing(metadata, region, rows)
    requires FirstOfKey(metadata, RowName, k) && InRegion(region, metadata[k].location)
    ensures metadata[k] in rows
  {
    KeepFirstComplete(metadata, RowName, k);
    assert metadata[k] in UniqueRegionRows(metadata, region);
    assert metadata[k] in multiset(rows);
  }

  /** A row listed by the 'ALL' path, with `top_vsm_score` 0.0. */
  function Unscored(row: PlaceRow): Recommendation {
    Recommendation(row.name, row.location, row.avgRating, 0.0)
  }

  /** The 'ALL' branch: the unique region rows sorted by rating (here by
      the stable sort, one of the orders `sort_values` may give), then the
      loop over `df_unique_places.iterrows()` making one unscored
      recommendation per row. */
  method ListAllPlaces(metadata: seq<PlaceRow>, region: Option<string>) returns (recs: seq<Recommendation>)
    ensures exists rows :: IsAllListing(metadata, region, rows) && recs == Project(rows, Unscored)
  {
    var places := AllPlaceRows(metadata, region);
    recs := [];
    for i := 0 to |places|
      invariant |recs| == i
      invariant forall j :: 0 <= j < i ==> recs[j] == Unscored(places[j])
    {
      var row := places[i];
      recs := recs + [Recommendation(row.name, row.location, row.avgRating, 0.0)];
    }
    assert recs == Project(places, Unscored);
  }

  // ---------------------------------------------------------------------
  // search_by_keyword

  /** `search_by_keyword`: unloaded assets give []; the 'ALL' intent lists
      every place; otherwise the query is ranked with the refactored scorer
      (plain tf-idf) and the ranking is assembled and re-sorted.  Ties among
      equal scores come in no particular order, so the result is stated for
      some ranking that satisfies the scorer's contract. */
  method SearchByKeyword(assets: Option<Assets>, log10: real -> real, tokens: seq<Term>,
                         intent: Option<string>, region: Option<string>)
    returns (recs: seq<Recommendation>)
    requires assets.Some? ==> WellFormed(assets.value.index)
    ensures assets.None? ==> recs == []
    ensures assets.Some? && intent == Some("ALL") ==>
              exists rows :: IsAllListing(assets.value.metadata, region, rows) && recs == Project(rows, Unscored)
    ensures assets.Some? && intent != Some("ALL") && tokens == [] ==> recs == []
    ensures assets.Some? && intent != Some("ALL") ==>
              exists ranked :: IsRanking(Scorer(assets.value.index, Recomputed("tfidf"), log10), tokens, ranked)
                               && recs == ApplyRatingOrder(intent, Assembled(assets.value.metadata, region, ranked))
  {
    if assets.None? {
      return [];
    }
    if intent == Some("ALL") {
      recs := ListAllPlaces(assets.value.metadata, region);
      return;
    }
    var ranked := CalculateVsmScores(assets, tokens, Recomputed("tfidf"), log10);
    assert IsRanking(Scorer(assets.value.index, Recomputed("tfidf"), log10), tokens, ranked);
    if ranked == [] {
      assert Assembled(assets.value.metadata, region, ranked) == [];
      return [];
    }
    recs := AssembleRanked(assets.value.metadata, region, ranked);
    recs := ApplyRatingOrder(intent, recs);
  }
}
