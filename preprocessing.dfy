/** The query-text utilities of `preprocessing.py`: character filtering, the
    token pipeline and the longest-key-first intent and region detection.
    The Sastrawi stemmer, the NLTK stopword set and the dictionary-driven
    phrase substitution are parameters; the intent and region dictionaries
    are given as their items in dictionary order.  A Python value that is
    not a string is `None` here. */
module Preprocessing {
  import opened Text
  import opened Sorting

  /** Characters kept by the pattern `[^a-zA-Z0-9\s]` being deleted. */
  predicate IsKept(c: char) {
    IsAsciiLetter(c) || IsAsciiDigit(c) || IsSpace(c)
  }

  /** `a` is `b` with some elements deleted (order kept). */
  predicate IsSubsequence<T(==)>(a: seq<T>, b: seq<T>)
    decreases |b|
  {
    a == [] || (b != [] && ((a[0] == b[0] && IsSubsequence(a[1..], b[1..])) || IsSubsequence(a, b[1..])))
  }

  /** `re.sub(r'[^a-zA-Z0-9\s]', '', s)`. */
  function KeepAllowed(s: string): (r: string)
    ensures forall i :: 0 <= i < |r| ==> IsKept(r[i])
    ensures IsSubsequence(r, s)
    ensures forall c :: IsKept(c) ==> multiset(r)[c] == multiset(s)[c]
    ensures |r| <= |s|
  {
    if s == [] then []
    else
      var rest := KeepAllowed(s[1..]);
      assert s == [s[0]] + s[1..];
      if IsKept(s[0]) then [s[0]] + rest else rest
  }

  /** `remove_special_characters`: a non-string gives ""; a string keeps
      exactly its ASCII letters, digits and whitespace, in order. */
  function RemoveSpecialCharacters(text: Option<string>): (r: string)
    ensures text.None? ==> r == ""
    ensures forall i :: 0 <= i < |r| ==> IsKept(r[i])
    ensures text.Some? ==> IsSubsequence(r, text.value)
    ensures text.Some? ==> forall c :: IsKept(c) ==> multiset(r)[c] == multiset(text.value)[c]
  {
    if text.None? then "" else KeepAllowed(text.value)
  }

  /** `re.sub(r'\d', '', s)`. */
  function RemoveDigits(s: string): (r: string)
    ensures forall i :: 0 <= i < |r| ==> !IsAsciiDigit(r[i])
    ensures IsSubsequence(r, s)
    ensures forall c :: !IsAsciiDigit(c) ==> multiset(r)[c] == multiset(s)[c]
  {
    if s == [] then []
    else
      assert s == [s[0]] + s[1..];
      if IsAsciiDigit(s[0]) then RemoveDigits(s[1..])
      else [s[0]] + RemoveDigits(s[1..])
  }

  /** `[w for w in words if w not in stopwords_id]`: exactly the
      non-stopwords, in order, each as often as in the input. */
  function DropStopwords(words: seq<string>, stopwords: set<string>): (r: seq<string>)
    ensures |r| <= |words|
    ensures forall i :: 0 <= i < |r| ==> r[i] in words && r[i] !in stopwords
    ensures IsSubsequence(r, words)
    ensures forall w :: w !in stopwords ==> multiset(r)[w] == multiset(words)[w]
  {
    if words == [] then []
    else
      assert words == [words[0]] + words[1..];
      if words[0] in stopwords then DropStopwords(words[1..], stopwords)
    else [words[0]] + DropStopwords(words[1..], stopwords)
  }

  function StemAll(words: seq<string>, stem: string -> string): (r: seq<string>)
    ensures |r| == |words|
    ensures forall i :: 0 <= i < |r| ==> r[i] == stem(words[i])
  {
    if words == [] then [] else [stem(words[0])] + StemAll(words[1..], stem)
  }

  /** `[w for w in ws if len(w) > 1]`: exactly the words longer than one
      character, in order, each as often as in the input. */
  function DropShort(words: seq<string>): (r: seq<string>)
    ensures |r| <= |words|
    ensures forall i :: 0 <= i < |r| ==> |r[i]| > 1 && r[i] in words
    ensures IsSubsequence(r, words)
    ensures forall w :: |w| > 1 ==> multiset(r)[w] == multiset(words)[w]
  {
    if words == [] then []
    else
      assert words == [words[0]] + words[1..];
      if |words[0]| > 1 then [words[0]] + DropShort(words[1..])
    else DropShort(words[1..])
  }

  /** The words `full_preprocessing` splits its text into, before stopword
      removal: lower-cased after the phrase substitution. */
  function PipelineWords(text: string, substitutePhrases: string -> string): seq<string> {
    Split(Lower(substitutePhrases(RemoveDigits(KeepAllowed(text)))))
  }

  /** The tokens a word list yields, in one pass: the stem of each
      non-stopword, in order, kept when the stem is at least two characters
      long. */
  function StemmedTokens(words: seq<string>, stopwords: set<string>, stem: string -> string): (r: seq<string>)
    ensures |r| <= |words|
    ensures forall i :: 0 <= i < |r| ==> |r[i]| >= 2
    ensures forall i :: 0 <= i < |r| ==> exists w :: w in words && w !in stopwords && r[i] == stem(w)
  {
    if words == [] then []
    else
      assert forall w :: w in words[1..] ==> w in words;
      (if words[0] !in stopwords && |stem(words[0])| > 1 then [stem(words[0])] else [])
      + StemmedTokens(words[1..], stopwords, stem)
  }

  /** The three list comprehensions of `full_preprocessing` (drop stopwords,
      stem, drop short stems) compose to the one-pass token list. */
  lemma {:induction false} PipelineFusion(words: seq<string>, stopwords: set<string>, stem: string -> string)
    ensures DropShort(StemAll(DropStopwords(words, stopwords), stem)) == StemmedTokens(words, stopwords, stem)
  {
    if words != [] {
      PipelineFusion(words[1..], stopwords, stem);
      var rest := DropStopwords(words[1..], stopwords);
      if words[0] !in stopwords {
        var kept := [words[0]] + rest;
        assert kept[1..] == rest;
        var stemmed := StemAll(kept, stem);
        assert stemmed == [stem(words[0])] + StemAll(rest, stem);
        assert stemmed[1..] == StemAll(rest, stem);
      }
    }
  }

  /** `full_preprocessing`: a non-string gives []; otherwise the tokens are
      exactly the stems of the text's non-stopword words whose stem is at
      least two characters long, in the words' order. */
  function FullPreprocessing(text: Option<string>, substitutePhrases: string -> string,
                             stopwords: set<string>, stem: string -> string): (r: seq<string>)
    ensures text.None? ==> r == []
    ensures text.Some? ==> r == StemmedTokens(PipelineWords(text.value, substitutePhrases), stopwords, stem)
    ensures text.Some? ==> |r| <= |PipelineWords(text.value, substitutePhrases)|
    ensures forall i :: 0 <= i < |r| ==> |r[i]| >= 2
    ensures text.Some? ==> forall i :: 0 <= i < |r| ==>
              exists w :: w in PipelineWords(text.value, substitutePhrases) && w !in stopwords && r[i] == stem(w)
  {
    if text.None? then []
    else
      var words := PipelineWords(text.value, substitutePhrases);
      PipelineFusion(words, stopwords, stem);
      DropShort(StemAll(DropStopwords(words, stopwords), stem))
  }

  /** Dictionary keys are tried longest first (`sorted(..., key=len, reverse=True)`). */
  function KeyLength(entry: (string, string)): real {
    |entry.0| as real
  }

  function ByKeyLengthDescending(entries: seq<(string, string)>): seq<(string, string)> {
    SortBy(KeyLength, true, entries)
  }

  /** The position of the first entry whose key occurs in `text`. */
  function FirstOccurring(text: string, entries: seq<(string, string)>): (r: Option<nat>)
    ensures r.Some? ==> r.value < |entries| && Contains(text, entries[r.value].0)
    ensures r.Some? ==> forall j :: 0 <= j < r.value ==> !Contains(text, entries[j].0)
    ensures r.None? ==> forall j :: 0 <= j < |entries| ==> !Contains(text, entries[j].0)
  {
    if entries == [] then None
    else if Contains(text, entries[0].0) then Some(0)
    else match FirstOccurring(text, entries[1..])
      case None => None
      case Some(k) => Some(k + 1)
  }

  /** What `detect_intent` and `detect_region_and_filter_query` return for
      a query and the dictionary's items: the stripped text and the value
      detected. */
  function Detection(query: string, entries: seq<(string, string)>): (string, Option<string>) {
    var sorted := ByKeyLengthDescending(entries);
    match FirstOccurring(Lower(query), sorted)
    case None => (CollapseSpaces(Lower(query)), None)
    case Some(k) => (CollapseSpaces(RemoveAll(Lower(query), sorted[k].0)), Some(sorted[k].1))
  }

  /** The shared body of `detect_intent` and `detect_region_and_filter_query`:
      lower-case the query, try the keys longest first, on the first one that
      occurs record its value and delete all its occurrences, then collapse
      whitespace.  At most one entry is applied. */
  method DetectAndStrip(query: string, entries: seq<(string, string)>)
    returns (text: string, detected: Option<string>)
    ensures (text, detected) == Detection(query, entries)
    ensures WellSpaced(text)
  {
    var lowered := Lower(query);
    var sorted := ByKeyLengthDescending(entries);
    detected := None;
    var i := 0;
    while i < |sorted|
      invariant 0 <= i <= |sorted|
      invariant forall j :: 0 <= j < i ==> !Contains(Lower(query), sorted[j].0)
      invariant lowered == Lower(query) && detected == None
    {
      var (term, value) := sorted[i];
      if Contains(lowered, term) {
        detected := Some(value);
        lowered := RemoveAll(lowered, term);
        assert FirstOccurring(Lower(query), sorted) == Some(i) by {
          FirstOccurringIs(Lower(query), sorted, i);
        }
        break;
      }
      i := i + 1;
    }
    text := CollapseSpaces(lowered);
    CollapseSpacesWellSpaced(lowered);
  }

  lemma {:induction false} FirstOccurringIs(text: string, entries: seq<(string, string)>, i: nat)
    requires i < |entries| && Contains(text, entries[i].0)
    requires forall j :: 0 <= j < i ==> !Contains(text, entries[j].0)
    ensures FirstOccurring(text, entries) == Some(i)
  {
    if i > 0 {
      FirstOccurringIs(text, entries[1..], i - 1);
    }
  }

  /** `detect_intent`: the value of the longest intent key occurring in the
      lower-cased query (None if none occurs), and the query with that key
      deleted and whitespace collapsed. */
  method DetectIntent(query: string, intentMap: seq<(string, string)>)
    returns (text: string, intent: Option<string>)
    ensures (text, intent) == Detection(query, intentMap)
    ensures WellSpaced(text)
  {
    text, intent := DetectAndStrip(query, intentMap);
  }

  /** `detect_region_and_filter_query`: the same rule over the region map. */
  method DetectRegionAndFilterQuery(query: string, regionMap: seq<(string, string)>)
    returns (text: string, region: Option<string>)
    ensures (text, region) == Detection(query, regionMap)
    ensures WellSpaced(text)
  {
    text, region := DetectAndStrip(query, regionMap);
  }

  /** When no key of the map occurs, nothing is detected and the text is the
      lower-cased query with its whitespace collapsed. */
  lemma NoKeyNoDetection(query: string, entries: seq<(string, string)>)
    requires forall e :: e in entries ==> !Contains(Lower(query), e.0)
    ensures FirstOccurring(Lower(query), ByKeyLengthDescending(entries)) == None
    ensures Detection(query, entries) == (CollapseSpaces(Lower(query)), None)
  {
    var sorted := ByKeyLengthDescending(entries);
    SortByPermutes(KeyLength, true, entries);
    forall j | 0 <= j < |sorted| ensures !Contains(Lower(query), sorted[j].0) {
      assert sorted[j] in multiset(sorted);
    }
  }

  /** A longer key that occurs always wins over a shorter one. */
  lemma LongestKeyWins(query: string, entries: seq<(string, string)>, k: nat, e: (string, string))
    requires var sorted := ByKeyLengthDescending(entries);
             FirstOccurring(Lower(query), sorted) == Some(k) && k < |sorted|
    requires e in entries && Contains(Lower(query), e.0)
    ensures |ByKeyLengthDescending(entries)[k].0| >= |e.0|
  {
    var sorted := ByKeyLengthDescending(entries);
    SortByPermutes(KeyLength, true, entries);
    SortBySorted(KeyLength, true, entries);
    assert e in multiset(sorted);
    var j :| 0 <= j < |sorted| && sorted[j] == e;
    if j < k {
      assert false;
    } else if j > k {
      assert InOrder(KeyLength, true, sorted[k], sorted[j]);
    }
  }
}
