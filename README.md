# Review-search retrieval engine, modelled in Dafny

This project models the retrieval core of a camping-place review search
engine. It covers:

- **the corpus indexer** (`build_index.py`): document frequencies, the IDF
  table, and one sentinel-headed postings chain per term, extended at its
  tail with `Node(Doc_ID, tf * idf)`;
- **the Boolean evaluator** (`src/boolean_ir.py`): a strictly left-to-right
  fold of `AND` / `OR` / `NOT` over term postings sets;
- **the VSM scorer** (`_calculate_vsm_scores` in `src/mesin_pencari.py`):
  query weights, the candidate set, dot-product accumulation, and a ranking
  by score;
- **the search front ends** (`src/mesin_pencari.py` and the older root
  `mesin_pencari.py`):
  - `analyze_full_query` with its fallback rules;
  - `search_by_keyword`, either the 'ALL' listing or the VSM ranking. The
    ranking is turned into one recommendation per place name and then
    re-sorted by rating if the intent asks for it;
- **the evaluation metrics** (`eval.py`): precision, recall, F1, and average
  precision at k;
- **the query text utilities** (`preprocessing.py`): character filtering, the
  token pipeline, and the longest-key-first intent and region detection.

The process-wide globals (`IDF_SCORES`, `VSM_INDEX_TF` / `LINKED_LIST_DATA`,
`BOOLEAN_INDEX`, `DF_METADATA`) are explicit parameters. An unloaded global
is `None`.

Modules:

- `Text`: ASCII `lower` / `upper`, `in`, `replace`, `split`, `" ".join`;
- `Seqs`: `list.count`, `set(list)`, duplicate-freedom;
- `Sorting`: Python's stable `sorted` / `list.sort` on a real key;
- `Preprocessing`;
- `Indexer`;
- `BooleanIr`;
- `VsmScorer`;
- `Dedup`: keeping the first element of each key;
- `Search`: the refactored front end;
- `LegacySearch`: the older front end;
- `Evaluation`.

Python's unordered set and dict iteration is a nondeterministic choice
(`:|`) in the loops. The specifications are therefore order-free: the score
is a sum over a set of terms, and `Sorting` orders only by score. Equal scores
come out in no specified order. The search contracts therefore hold for some
ranking that meets the scorer's contract (`VsmScorer.IsRanking`).

Three behaviours of the code are worth knowing, and the model follows the
code in each:

- **Empty corpus.** For an empty corpus (`N = 0`), `build_index.py` produces
  empty IDF and chain tables and never divides by `N`. `Indexer.BuildIndex`
  states that outcome.
- **Stored weights.** Postings store `tf * idf`, not the raw term frequency
  (`build_index.py:62,70`).
- **Extra idf factor.** The refactored scorer multiplies the stored weight
  by idf again (`src/mesin_pencari.py:108-114`). `VsmScorer.SingleNodeScore`
  shows the consequence: a one-node chain scores `idf * (freq * idf)`, so a
  term occurring once in the document and the query scores idf³. The older
  scorer uses `freq` as it is (`mesin_pencari.py:127-129`) and gives
  `idf * freq`, which is idf².

## Model

| member | source | states |
|---|---|---|
| Text.Lower | preprocessing.py:110 | `str.lower()` keeps the length and lower-cases exactly the ASCII capitals, position by position |
| Text.Upper | src/boolean_ir.py:87 | `str.upper()` keeps the length and upper-cases exactly the ASCII small letters, so operators are matched case-insensitively |
| Text.Split | preprocessing.py:91 | `str.split()` yields only non-empty words without whitespace; `SplitOfLayout` and `LayoutOfSplit` pin the words down exactly |
| Text.RemoveAllAbsent | preprocessing.py:119 | replacing a key that does not occur leaves the text unchanged |
| Text.JoinWordsWellSpaced | preprocessing.py:142 | joining non-empty words with single spaces gives well-spaced text, which is empty exactly when there are no words |
| Text.CollapseSpacesWellSpaced | preprocessing.py:122 | the filtered query text has no leading, trailing or doubled space and no whitespace other than single spaces |
| Text.SplitJoinRoundTrip | preprocessing.py:122 | splitting the space-joined words gives back exactly those words |
| Text.SplitOfLayout | preprocessing.py:91 | a text made of whitespace runs around words (runs between words non-empty) splits into exactly those words, in order |
| Text.LayoutOfSplit | preprocessing.py:91 | every text is whitespace runs around the words of its split, so the split holds all its non-whitespace characters, in order, as maximal runs |
| Text.CollapseSpacesIdempotent | preprocessing.py:142 | normalising the whitespace twice is the same as once |
| Seqs.Count | build_index.py:58 | `tokens.count(word)` is at most the length and positive exactly when the word occurs |
| Sorting.SortBySorted | src/mesin_pencari.py:121 | the sort orders its result by the key, descending or ascending as asked |
| Sorting.SortByPermutes | src/mesin_pencari.py:121 | the sort keeps every element with its multiplicity |
| Sorting.SortByStable | mesin_pencari.py:173-176 | elements of equal key keep their relative input order |
| Preprocessing.KeepAllowed | preprocessing.py:55-56 | the output is the input's ASCII letters, digits and whitespace, all of them, in their original order |
| Preprocessing.RemoveSpecialCharacters | preprocessing.py:51-56 | a non-string gives ""; otherwise exactly the allowed characters of the text, in order |
| Preprocessing.RemoveDigits | preprocessing.py:85 | no digit remains, and every other character is kept, in order |
| Preprocessing.DropStopwords | preprocessing.py:94 | the kept words are exactly the input's non-stopwords, in order, each as often as in the input |
| Preprocessing.StemAll | preprocessing.py:97 | one stem per word, position by position |
| Preprocessing.DropShort | preprocessing.py:100 | the kept tokens are exactly the input's tokens longer than one character, in order, each as often as in the input |
| Preprocessing.FullPreprocessing | preprocessing.py:79-101 | a non-string gives []; otherwise the tokens are exactly the stems of the split text's non-stopwords whose stem has at least two characters, in word order (`StemmedTokens`) |
| Preprocessing.StemmedTokens | preprocessing.py:93-100 | every token is at least two characters long and the stem of a non-stopword of the input; never more tokens than words |
| Preprocessing.PipelineFusion | preprocessing.py:93-100 | the three list comprehensions (drop stopwords, stem, drop short stems) compose to the one-pass token list |
| Preprocessing.FirstOccurring | preprocessing.py:116-120 | the chosen entry is the first whose key occurs in the text, and none is chosen only if no key occurs |
| Preprocessing.FirstOccurringIs | preprocessing.py:116-120 | the first occurring key is the one chosen |
| Preprocessing.DetectAndStrip | preprocessing.py:105-123 | the break loop over the keys in length-descending order computes `Detection`: at most one entry applies, the first key that occurs; its value is detected and all its occurrences are removed; with no key, nothing is detected and the lower-cased text is only whitespace-normalised; the result text is well spaced |
| Preprocessing.DetectRegionAndFilterQuery | preprocessing.py:105-123 | `detect_region_and_filter_query` is that detection over the region map |
| Preprocessing.DetectIntent | preprocessing.py:125-143 | `detect_intent` is that detection over the intent map |
| Preprocessing.NoKeyNoDetection | preprocessing.py:110-123 | when no key occurs in the lower-cased query, nothing is detected and the text is the lower-cased query with its whitespace collapsed |
| Preprocessing.LongestKeyWins | preprocessing.py:113-120 | the detected key is at least as long as any other key occurring in the query |
| Indexer.CountDocumentFrequencies | build_index.py:36-40 | `df_counts` has exactly the corpus vocabulary as keys; `df[t]` is the number of documents holding `t`, each counted once however often `t` repeats |
| Indexer.ComputeIdf | build_index.py:42-44 | one IDF per df entry, `log10(N / df[t])` |
| Indexer.InitChains | build_index.py:47-52 | every vocabulary term gets a chain holding only the sentinel head `Node(0, None)` |
| Indexer.AppendAtTail | build_index.py:64-70 | walking to the tail and linking a node appends it after the last node; the head is untouched |
| Indexer.AppendRow | build_index.py:55-70 | one row appends exactly its posting to each term it holds that has an IDF, and nothing to any other chain |
| Indexer.AppendTerm | build_index.py:60-70 | one (term, tf) of a row appends that row's tf*idf posting to the term's chain and leaves every other chain and the key set unchanged |
| Indexer.AppendPostings | build_index.py:54-70 | after the row loop, each chain is its initial content followed by the postings of all rows in corpus order |
| Indexer.BuildIndex | build_index.py:35-70 | the IDF table and the chains cover exactly the vocabulary; `idf[t] = log10(N / df(t))` with `df(t) >= 1`; each chain is the sentinel followed by the term's postings; the index is well formed; an empty corpus gives empty tables |
| Indexer.VocabularyDocFreq | build_index.py:38-44 | a term is in the vocabulary exactly when its document frequency is at least 1 |
| Indexer.EveryTokenInVocabulary | build_index.py:38-61 | every token of every document has an IDF, so the `term in idf_scores` guard always holds |
| Indexer.PostingsLength | build_index.py:54-70 | the non-sentinel length of a term's chain equals its document frequency |
| Indexer.PostingsSound | build_index.py:58-70 | every posting is `(Doc_ID, tf * idf)` of a row holding the term, where tf is the term's count in that row |
| Indexer.PostingsComplete | build_index.py:58-70 | every row holding the term contributes its posting |
| Indexer.PostingsAscending | build_index.py:54-70 | with ascending Doc_IDs, each chain is strictly ascending, so no document repeats |
| Indexer.PostingsCarryWeights | build_index.py:62-70 | every appended node carries a weight |
| Indexer.IdfRatio | build_index.py:44 | for a vocabulary term, `N / df` is 1 when the term is in every document and greater than 1 otherwise |
| Indexer.BuiltIndexWellFormed | build_index.py:47-70 | tables built this way satisfy the scorer's precondition: each IDF term has a chain, each chain starts with the sentinel, and every later node has a weight |
| BooleanIr.GetPostings | src/boolean_ir.py:38-58 | a term normalising to nothing, or whose first token is not indexed, matches no document; otherwise it matches the first token's set |
| BooleanIr.ListOfSet | src/boolean_ir.py:102 | `list(set)` lists every element once |
| BooleanIr.SearchBoolean | src/boolean_ir.py:63-106 | an unloaded index gives []; otherwise the result lists exactly the documents of the left-to-right evaluation, each once (the empty and even-length part lists the code guards against give [], but `SplitPartsDefined` shows a real split never produces them) |
| BooleanIr.LeftToRight | src/boolean_ir.py:82-100 | there is no precedence and operator case is ignored: `a or b And c` is `(a ∪ b) ∩ c` |
| BooleanIr.FoldWithinOrOperands | src/boolean_ir.py:82-98 | folding never adds a document outside the running set and the OR operands |
| BooleanIr.ResultWithinOrOperands | src/boolean_ir.py:82-98 | every returned document holds the first term or a term following an OR |
| BooleanIr.NoOrStaysWithinFirst | src/boolean_ir.py:93-98 | without OR, the result stays within the first term's documents |
| BooleanIr.SplitPartsDefined | src/boolean_ir.py:75-98 | a part list with an odd number of parts, as `re.split` with one capturing group always gives, evaluates without the `parts[i+1]` IndexError |
| BooleanIr.TrailingOperator | src/boolean_ir.py:75-98 | a trailing operator such as "alam OR " gives the parts `[a, op, '']`; the empty term matches nothing, so OR keeps the first term's set and AND empties it |
| VsmScorer.SchemeWeight | src/mesin_pencari.py:84-87 | `(1 + log10(tf)) * idf` under the sublinear scheme with positive tf, `tf * idf` in every other case |
| VsmScorer.AddChainDocs | src/mesin_pencari.py:92-95 | walking a chain adds exactly its non-sentinel documents to `involved_docs` |
| VsmScorer.CollectCandidates | src/mesin_pencari.py:75-95 | the query weights cover exactly the distinct in-vocabulary query terms, each weighted from its count in the query; the involved documents are exactly the candidate set |
| VsmScorer.AddQueryTerm | src/mesin_pencari.py:80-95 | one query term extends the weights to exactly the processed in-vocabulary terms, each with its query weight, and the involved set to exactly their chains' documents |
| VsmScorer.CandidatesOverMember | src/mesin_pencari.py:80-95 | a document is a candidate exactly when some matched query term's chain holds it |
| VsmScorer.AddChainProducts | src/mesin_pencari.py:103-119 | one chain walk adds that term's `W_d * W_q` to every involved document and changes no key |
| VsmScorer.AccumulateScores | src/mesin_pencari.py:100-119 | `doc_scores` has exactly the candidates as keys, each holding the sum over matched terms of `W_d * W_q` |
| VsmScorer.ScoreOverRemove | src/mesin_pencari.py:100-119 | the sum over matched terms may take any term first, so the dict's iteration order does not matter |
| VsmScorer.ScoreOverAdd | src/mesin_pencari.py:100-119 | adding one more matched term adds its contribution |
| VsmScorer.ItemsOf | src/mesin_pencari.py:121 | `doc_scores.items()` lists each document once with its score |
| VsmScorer.CalculateVsmScores | src/mesin_pencari.py:57-122 | unloaded assets or an empty query give []; otherwise each candidate appears exactly once with the dot-product score, and nothing else appears; scores do not increase along the list |
| VsmScorer.NonCandidateScoresZero | src/mesin_pencari.py:97-101 | a document sharing no matched term would score 0, and it is excluded, not scored |
| VsmScorer.OutOfVocabularyIgnored | src/mesin_pencari.py:80-81 | a term without an IDF changes neither the candidates nor any score |
| VsmScorer.SingleNodeScore | src/mesin_pencari.py:108-117 | for a one-node chain, the refactored 'tfidf' scorer gives `idf * (freq * idf)`, with the stored weight multiplied by idf a second time, while the stored-weight scorer of the older front end (mesin_pencari.py:123-129) gives `idf * freq` |
| Dedup.KeepFirstWithin | src/mesin_pencari.py:181-191 | every kept recommendation comes from the input |
| Dedup.KeepFirstDistinct | src/mesin_pencari.py:181-191 | no two kept recommendations share a name |
| Dedup.KeepFirstSound | src/mesin_pencari.py:181-191 | each kept element is the first of its name in the input |
| Dedup.KeepFirstComplete | src/mesin_pencari.py:181-191 | the first element of every name is kept |
| Dedup.KeepFirstKeys | src/mesin_pencari.py:181-191 | the kept names are exactly the input's names |
| Dedup.KeepFirstSorted | src/mesin_pencari.py:181-191 | dropping duplicates keeps a sorted list sorted |
| Search.Fallback | src/mesin_pencari.py:42-50 | with a region, a fluff-only query is emptied; an empty query with an intent becomes `(['kemah'], intent)`, and with a region but no intent `(['kemah'], 'ALL')`; in every other case the tokens and intent are kept |
| Search.AnalyzeFullQuery | src/mesin_pencari.py:36-52 | intent detection on the query, region detection on what remains, preprocessing of the rest, then the fallback rules; the older front end's `analyze_full_query` (mesin_pencari.py:36-52) is the same |
| Search.Lookup | src/mesin_pencari.py:183-185 | `DF_METADATA.loc[doc_id]` finds a row with that id, and misses only when no row has it |
| Search.AssembleOne | src/mesin_pencari.py:182-191 | one ranked document adds its recommendation exactly when it has metadata, passes the region test and its name is new |
| Search.AssembleRanked | src/mesin_pencari.py:181-219 | the result-building loop yields the first recommendation of each name among the passing documents, in rank order |
| Search.PassingSound | src/mesin_pencari.py:182-188 | every recommendation comes from a ranked document with metadata that passes the region test |
| Search.PassingComplete | src/mesin_pencari.py:182-188 | every ranked document with metadata passing the region test yields its recommendation |
| Search.PassingSorted | src/mesin_pencari.py:181-188 | skipping documents keeps the score order |
| Search.AssembledDistinctNames | src/mesin_pencari.py:181-191 | no place name is recommended twice |
| Search.AssembledSound | src/mesin_pencari.py:181-191 | each recommendation carries a ranked document's metadata and score, and that document passes the region test |
| Search.AssembledCoversNames | src/mesin_pencari.py:181-191 | every name yielded by a passing ranked document is recommended |
| Search.AssembledInRankOrder | src/mesin_pencari.py:181-219 | before the rating re-sort, recommendations follow descending VSM score |
| Search.AssembledKeepsBest | src/mesin_pencari.py:181-191 | the recommendation kept for a name carries the best score of any passing document with that name |
| Search.ApplyRatingOrder | src/mesin_pencari.py:221-224 | RATING_TOP sorts by rating descending, RATING_BOTTOM ascending, any other intent keeps rank order; every recommendation is kept |
| Search.ApplyRatingOrderStable | src/mesin_pencari.py:221-224 | recommendations of equal rating keep their rank order |
| Search.RegionRows | src/mesin_pencari.py:140-141 | the region filter keeps exactly the rows whose lower-cased location contains the region |
| Search.RegionRowsDistinct | src/mesin_pencari.py:138-141 | filtering keeps place names distinct |
| Search.AllPlaceRows | src/mesin_pencari.py:137-143 | the stable sort of the unique region rows by rating is one of the listings `sort_values` may give |
| Search.AllPlacesListing | src/mesin_pencari.py:137-143 | any listing `sort_values` may give names each place once |
| Search.AllPlacesSound | src/mesin_pencari.py:137-143 | every row of any such listing lies in the region and is the first metadata row of its place |
| Search.AllPlacesComplete | src/mesin_pencari.py:137-143 | every place whose first row lies in the region is in any such listing |
| Search.ListAllPlaces | src/mesin_pencari.py:137-175 | the result is one recommendation with `top_vsm_score` 0.0 per row of a listing of the unique region rows sorted by rating, best first, in listing order; rows of equal rating may come in any order |
| Search.SearchByKeyword | src/mesin_pencari.py:127-226 | unloaded assets give []; 'ALL' gives a rating-sorted listing of the unique region rows; an empty query gives []; otherwise the result is a ranking by the refactored scorer, assembled and re-sorted as the intent asks |
| LegacySearch.SearchByKeyword | mesin_pencari.py:57-178 | the same, with 'ALL' checked before the empty query; scoring is the dot product of the stored weights with `tf * idf` |
| Evaluation.Ratio | eval.py:22-30 | `n / d` for a positive denominator and 0.0 for an empty one; in [0, 1]; 1.0 exactly when all are hits; positive exactly when some are |
| Evaluation.HarmonicBounds | eval.py:35 | `2PR/(P+R)` lies in [0, 1] and is positive exactly when both are |
| Evaluation.F1 | eval.py:32-35 | F1 is 0.0 when `P + R = 0`, otherwise `2PR/(P+R)`, in [0, 1] and positive exactly when both are |
| Evaluation.PrecisionRecallF1 | eval.py:13-44 | counts are set sizes, so duplicates are ignored; `tp` is the size of the intersection; precision is `tp` over the retrieved set's size and recall `tp` over the relevant set's size (0.0 for an empty side); F1 is their harmonic mean; every metric is in [0, 1]; precision (recall) is 1.0 exactly when the retrieved (relevant) set is non-empty and lies inside the other; F1 is positive exactly when a retrieved document is relevant |
| Evaluation.CommonDocument | eval.py:17-20 | `tp > 0` exactly when some retrieved document is relevant |
| Evaluation.TopK | eval.py:53 | `[:k]` is a prefix with Python's slice bounds, including negative `k` |
| Evaluation.HitCount | eval.py:56-60 | hits are at most the ranks seen, and zero exactly when no relevant document was seen |
| Evaluation.AveragePrecision | eval.py:46-69 | the loop over the top k computes average precision: 0.0 with nothing relevant or no hit, otherwise the sum of the precisions at the hits over `len(relevant_docs)` |
| Evaluation.PrecisionSumBounds | eval.py:58-63 | each precision at a hit is at most 1, so the sum is at most the hit count |
| Evaluation.HitCountDistinct | eval.py:58-60 | without repeats, the hits are the relevant documents retrieved |
| Evaluation.AveragePrecisionBounds | eval.py:46-69 | for a top k without repeats, AP lies in [0, 1] |
| Evaluation.PerfectRanking | eval.py:46-69 | a top k that is exactly the relevant documents, each once, scores 1.0 |
| Evaluation.BeyondCutoff | eval.py:53 | documents ranked after position k do not change AP |
| Evaluation.RepeatedDocuments | eval.py:49-69 | the divisor is the relevant list's length, so a doubled relevant entry halves a perfect score, and a doubled retrieved hit counts twice and can push AP above 1 |

## Left out

- Loading and saving assets (joblib/pickle, CSV reading), `initialize_mesin`, `initialize_boolean`, and all printing. Loaded globals are parameters, and "not loaded" is `None`.
- Floating point. Weights, scores and metrics are exact `real`s, and `math.log10` is an uninterpreted parameter `log10`.
- Unicode. `lower`, `upper`, `split` and the `\s` class are modelled on ASCII only.
- The regex split of the Boolean query (`re.split(r'\s+(AND|OR|NOT)\s+', ...)`). The evaluator takes the resulting list of parts; that the split always has an odd number of parts is used as a hypothesis (`BooleanIr.SplitPartsDefined`), not derived from the regex.
- The Boolean index. `build_index.py` does not build it (`build_index.py:99-110` saves only the IDF table, the chains and the metadata), and `src/boolean_ir.py:24-27` only loads `boolean_index.pkl`, so it is an input map from terms to document sets.
- The tokenizer pieces: the Sastrawi stemmer, the NLTK stopword list, `substitute_complex_phrases` with its word-boundary regex, and the CSV-loaded phrase, intent and region maps. They are parameters: `stem`, `stopwords`, `substitutePhrases` and the map entry lists.
- Pandas semantics. Metadata is a sequence of rows with the four fields the core reads (Doc_ID, name, location, average rating).
  - `DF_METADATA.loc[doc_id]` takes the first row with that id. Duplicate index labels, for which pandas returns a frame, are not modelled.
  - In the 'ALL' path, `str.contains` is modelled as a plain substring test, not a regular expression.
  - `sort_values` is not a stable sort. The 'ALL' listing is stated as any rating-sorted arrangement of the unique region rows (`Search.IsAllListing`); the model itself builds it with the stable sort, which is one of them.
  - NaN handling is not modelled.
- The display fields: photo URL, maps link, facilities, price items and opening hours. They are built by `urllib.parse.quote` and `pd.isna` fallbacks and carry no algorithmic content.
- Search.SearchByKeyword and LegacySearch.SearchByKeyword: the order of documents with equal VSM score is not fixed. It follows Python's set and dict iteration order, so the contracts hold for some ranking that meets the scorer's contract.
- VsmScorer.CalculateVsmScores: requires a well-formed index: every IDF term has a chain, each chain starts with the sentinel head, and every later node has a weight. The Python starts every chain walk from `head.nextval` whatever the head holds (`src/mesin_pencari.py:92,103`), so a head that is not the sentinel is simply skipped; a missing chain raises KeyError and a later node without a weight raises TypeError. The model requires the sentinel-headed tables that `Indexer.BuildIndex` always produces (`Indexer.BuiltIndexWellFormed`) and does not model other tables.
- The pandas metadata construction at `build_index.py:73-95`, the `search.py` CLI, the Streamlit and JavaScript UI, `Asisten/konversi_data.py` and `run_evaluation` are not part of this model.
