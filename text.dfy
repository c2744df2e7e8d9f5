/** ASCII text helpers standing in for the Python string operations the
    engine relies on: `str.lower`, `in` on strings, `str.replace(p, '')`,
    `str.split()` and `" ".join(...)`.  Only the ASCII range is modelled. */
module Text {

  datatype Option<+T> = None | Some(value: T)

  /** Python's truthiness of an optional string: `None` and `""` are false. */
  predicate Truthy(o: Option<string>) {
    o.Some? && o.value != ""
  }

  /** The characters Python's `str.split()` and the regex class `\s` treat
      as whitespace, restricted to ASCII: space, \t \n \v \f \r and the
      separators \x1c-\x1f. */
  predicate IsSpace(c: char) {
    c == ' ' || ('\t' <= c <= '\r') || (28 as char <= c <= 31 as char)
  }

  predicate IsAsciiLetter(c: char) {
    ('a' <= c <= 'z') || ('A' <= c <= 'Z')
  }

  predicate IsAsciiDigit(c: char) {
    '0' <= c <= '9'
  }

  function LowerChar(c: char): (r: char)
    ensures 'A' <= c <= 'Z' ==> 'a' <= r <= 'z'
    ensures !('A' <= c <= 'Z') ==> r == c
  {
    if 'A' <= c <= 'Z' then (c as int + 32) as char else c
  }

  /** `str.lower()` on ASCII text: every upper-case letter is replaced by its
      lower-case form, position by position. */
  function Lower(s: string): (r: string)
    ensures |r| == |s|
    ensures forall i :: 0 <= i < |s| ==> r[i] == LowerChar(s[i])
  {
    if s == [] then [] else [LowerChar(s[0])] + Lower(s[1..])
  }

  function UpperChar(c: char): char {
    if 'a' <= c <= 'z' then (c as int - 32) as char else c
  }

  /** `str.upper()` on ASCII text. */
  function Upper(s: string): (r: string)
    ensures |r| == |s|
    ensures forall i :: 0 <= i < |s| ==> r[i] == UpperChar(s[i])
  {
    if s == [] then [] else [UpperChar(s[0])] + Upper(s[1..])
  }

  /** Python's `p in s` for strings: `p` occurs as a contiguous block. */
  predicate Contains(s: string, p: string)
    decreases |s|
  {
    p <= s || (s != [] && Contains(s[1..], p))
  }

  /** `s.replace(p, '')`: one left-to-right scan deleting non-overlapping
      occurrences of `p`; an empty pattern leaves the text alone. */
  function RemoveAll(s: string, p: string): (r: string)
    ensures |r| <= |s|
    decreases |s|
  {
    if p == [] || s == [] then s
    else if p <= s then RemoveAll(s[|p|..], p)
    else [s[0]] + RemoveAll(s[1..], p)
  }

  lemma {:induction false} RemoveAllAbsent(s: string, p: string)
    requires !Contains(s, p)
    ensures RemoveAll(s, p) == s
    decreases |s|
  {
    if p != [] && s != [] {
      RemoveAllAbsent(s[1..], p);
    }
  }

  /** A word of `str.split()`: non-empty and free of whitespace. */
  predicate IsWord(w: string) {
    w != [] && forall i :: 0 <= i < |w| ==> !IsSpace(w[i])
  }

  /** Length of the leading run of non-whitespace characters. */
  function WordLength(s: string): (n: nat)
    ensures n <= |s|
    ensures forall i :: 0 <= i < n ==> !IsSpace(s[i])
    ensures n < |s| ==> IsSpace(s[n])
  {
    if s == [] || IsSpace(s[0]) then 0 else 1 + WordLength(s[1..])
  }

  /** `str.split()` with no argument: the maximal runs of non-whitespace
      characters, in order. */
  function Split(s: string): (r: seq<string>)
    ensures forall i :: 0 <= i < |r| ==> IsWord(r[i])
    decreases |s|
  {
    if s == [] then []
    else if IsSpace(s[0]) then Split(s[1..])
    else
      var n := WordLength(s);
      [s[..n]] + Split(s[n..])
  }

  /** A run of whitespace (possibly empty). */
  predicate AllSpace(g: string) {
    forall i :: 0 <= i < |g| ==> IsSpace(g[i])
  }

  /** The gaps around `n` words: `n + 1` whitespace runs, those between two
      words non-empty. */
  predicate ValidGaps(gaps: seq<string>, n: nat) {
    && |gaps| == n + 1
    && (forall i :: 0 <= i < |gaps| ==> AllSpace(gaps[i]))
    && (forall i :: 0 < i < n ==> gaps[i] != [])
  }

  /** `gaps[0] + words[0] + gaps[1] + ... + words[n-1] + gaps[n]`. */
  function Layout(gaps: seq<string>, words: seq<string>): string
    requires |gaps| == |words| + 1
    decreases |words|
  {
    if words == [] then gaps[0] else gaps[0] + words[0] + Layout(gaps[1..], words[1..])
  }

  /** Leading whitespace does not change the split. */
  lemma {:induction false} SplitSkipsSpace(g: string, t: string)
    requires AllSpace(g)
    ensures Split(g + t) == Split(t)
    decreases |g|
  {
    if g != [] {
      assert (g + t)[0] == g[0] && (g + t)[1..] == g[1..] + t;
      assert Split(g + t) == Split(g[1..] + t);
      SplitSkipsSpace(g[1..], t);
    } else {
      assert g + t == t;
    }
  }

  /** A word followed by whitespace or the end of the text is split off
      whole. */
  lemma {:induction false} SplitWord(w: string, t: string)
    requires IsWord(w) && (t == [] || IsSpace(t[0]))
    ensures Split(w + t) == [w] + Split(t)
  {
    WordLengthOfWord(w, t);
    var s := w + t;
    assert s != [] && !IsSpace(s[0]) by { assert s[0] == w[0]; }
    assert Split(s) == [s[..WordLength(s)]] + Split(s[WordLength(s)..]);
    assert s[|w|..] == t;
  }

  /** Any text laid out as whitespace runs around words splits into exactly
      those words: `str.split()` returns the maximal non-whitespace runs in
      order. */
  lemma {:induction false} SplitOfLayout(gaps: seq<string>, words: seq<string>)
    requires forall i :: 0 <= i < |words| ==> IsWord(words[i])
    requires ValidGaps(gaps, |words|)
    ensures Split(Layout(gaps, words)) == words
    decreases |words|
  {
    if words == [] {
      SplitSkipsSpace(gaps[0], []);
      assert gaps[0] + [] == gaps[0];
    } else {
      var rest := Layout(gaps[1..], words[1..]);
      assert ValidGaps(gaps[1..], |words| - 1);
      SplitOfLayout(gaps[1..], words[1..]);
      if |words| > 1 {
        assert rest == gaps[1] + words[1] + Layout(gaps[2..], words[2..]);
        assert rest[0] == gaps[1][0];
      } else {
        assert rest == gaps[1];
      }
      SplitWord(words[0], rest);
      SplitSkipsSpace(gaps[0], words[0] + rest);
      assert Layout(gaps, words) == gaps[0] + (words[0] + rest);
      assert words == [words[0]] + words[1..];
    }
  }

  lemma LayoutPrependSpace(c: char, gaps: seq<string>, words: seq<string>)
    requires |gaps| == |words| + 1
    ensures Layout([[c] + gaps[0]] + gaps[1..], words) == [c] + Layout(gaps, words)
  {
    var gaps' := [[c] + gaps[0]] + gaps[1..];
    assert gaps'[1..] == gaps[1..];
  }

  lemma LayoutPrependWord(w: string, gaps: seq<string>, words: seq<string>)
    requires |gaps| == |words| + 1
    ensures Layout([[]] + gaps, [w] + words) == w + Layout(gaps, words)
  {
    assert ([[]] + gaps)[1..] == gaps;
    assert ([w] + words)[1..] == words;
  }

  /** A layout starting with whitespace, around at least one word, starts
      with a non-empty gap. */
  lemma LeadingGap(gaps: seq<string>, words: seq<string>)
    requires |gaps| == |words| + 1 && words != [] && IsWord(words[0])
    requires Layout(gaps, words) != [] && IsSpace(Layout(gaps, words)[0])
    ensures gaps[0] != []
  {
    var t := Layout(gaps, words);
    var x := words[0] + Layout(gaps[1..], words[1..]);
    assert t == gaps[0] + x;
    assert x[0] == words[0][0];
    assert t[0] != x[0];
  }

  /** Every text is laid out as whitespace runs around the words of its
      split; with `SplitOfLayout` this pins `Split(s)` down as the maximal
      non-whitespace runs of `s`, in order. */
  lemma {:induction false} LayoutOfSplit(s: string)
    ensures exists gaps :: ValidGaps(gaps, |Split(s)|) && Layout(gaps, Split(s)) == s
    decreases |s|
  {
    if s == [] {
      assert Split(s) == [];
      assert ValidGaps([[]], 0) && Layout([[]], []) == s;
    } else if IsSpace(s[0]) {
      LayoutOfSplit(s[1..]);
      var words := Split(s[1..]);
      var gaps :| ValidGaps(gaps, |words|) && Layout(gaps, words) == s[1..];
      var gaps' := [[s[0]] + gaps[0]] + gaps[1..];
      assert ValidGaps(gaps', |words|);
      LayoutPrependSpace(s[0], gaps, words);
      assert [s[0]] + s[1..] == s;
      assert Split(s) == words;
    } else {
      var n := WordLength(s);
      var w, tail := s[..n], s[n..];
      LayoutOfSplit(tail);
      var words := Split(tail);
      var gaps :| ValidGaps(gaps, |words|) && Layout(gaps, words) == tail;
      if words != [] {
        LeadingGap(gaps, words);
      }
      var gaps' := [[]] + gaps;
      assert ValidGaps(gaps', |words| + 1);
      LayoutPrependWord(w, gaps, words);
      assert w + tail == s;
      assert Split(s) == [w] + words;
    }
  }

  /** `" ".join(words)`. */
  function JoinSpace(words: seq<string>): string {
    if words == [] then ""
    else if |words| == 1 then words[0]
    else words[0] + " " + JoinSpace(words[1..])
  }

  /** The text contains no empty word: no leading or trailing space and no
      two spaces in a row, and no whitespace other than single spaces. */
  predicate WellSpaced(s: string) {
    && (s != [] ==> s[0] != ' ' && s[|s| - 1] != ' ')
    && (forall i :: 0 <= i < |s| ==> (IsSpace(s[i]) ==> s[i] == ' '))
    && (forall i :: 0 <= i < |s| - 1 ==> !(s[i] == ' ' && s[i + 1] == ' '))
  }

  /** `" ".join(w for w in text.split() if w)`: whitespace runs collapsed
      to single spaces and the ends trimmed. */
  function CollapseSpaces(s: string): string {
    JoinSpace(Split(s))
  }

  lemma {:induction false} JoinWordsWellSpaced(words: seq<string>)
    requires forall i :: 0 <= i < |words| ==> IsWord(words[i])
    ensures WellSpaced(JoinSpace(words))
    ensures JoinSpace(words) == [] <==> words == []
  {
    if |words| > 1 {
      JoinWordsWellSpaced(words[1..]);
      var w, rest := words[0], JoinSpace(words[1..]);
      var r := w + " " + rest;
      assert r == JoinSpace(words);
      forall i | 0 <= i < |r| - 1
        ensures !(r[i] == ' ' && r[i + 1] == ' ')
      {
        if i + 1 < |w| {
          assert r[i] == w[i];
        } else if i + 1 == |w| {
          assert r[i] == w[i];
        } else if i == |w| {
          assert r[i + 1] == rest[0];
        } else {
          assert r[i] == rest[i - |w| - 1] && r[i + 1] == rest[i - |w|];
        }
      }
      forall i | 0 <= i < |r|
        ensures IsSpace(r[i]) ==> r[i] == ' '
      {
        if i < |w| {
          assert r[i] == w[i];
        } else if i > |w| {
          assert r[i] == rest[i - |w| - 1];
        }
      }
    }
  }

  /** The collapsed text never holds an empty word, a leading or trailing
      space, or a double space. */
  lemma CollapseSpacesWellSpaced(s: string)
    ensures WellSpaced(CollapseSpaces(s))
  {
    JoinWordsWellSpaced(Split(s));
  }

  lemma {:induction false} SplitWordThenRest(w: string, rest: string)
    requires IsWord(w)
    ensures Split(w + " " + rest) == [w] + Split(rest)
    ensures Split(w) == [w]
  {
    var s := w + " " + rest;
    assert s == w + (" " + rest);
    WordLengthOfWord(w, " " + rest);
    WordLengthOfWord(w, []);
    assert w + [] == w;
    assert s[|w|..] == " " + rest;
    assert (" " + rest)[1..] == rest;
    assert Split(" " + rest) == Split(rest);
    assert !IsSpace(s[0]) by { assert s[0] == w[0]; }
    assert Split(s) == [s[..|w|]] + Split(s[|w|..]);
  }

  lemma {:induction false} WordLengthOfWord(w: string, tail: string)
    requires IsWord(w)
    requires tail == [] || IsSpace(tail[0])
    ensures WordLength(w + tail) == |w|
    ensures (w + tail)[..|w|] == w
    decreases |w|
  {
    if |w| > 1 {
      WordLengthOfWord(w[1..], tail);
      assert (w + tail)[1..] == w[1..] + tail;
    } else {
      assert (w + tail)[1..] == tail;
    }
  }

  /** Splitting a space-joined list of words gives the words back. */
  lemma {:induction false} SplitJoinRoundTrip(words: seq<string>)
    requires forall i :: 0 <= i < |words| ==> IsWord(words[i])
    ensures Split(JoinSpace(words)) == words
  {
    if |words| == 1 {
      SplitWordThenRest(words[0], "");
    } else if |words| > 1 {
      SplitJoinRoundTrip(words[1..]);
      SplitWordThenRest(words[0], JoinSpace(words[1..]));
      assert words == [words[0]] + words[1..];
    }
  }

  /** Collapsing whitespace twice is the same as collapsing it once. */
  lemma CollapseSpacesIdempotent(s: string)
    ensures CollapseSpaces(CollapseSpaces(s)) == CollapseSpaces(s)
  {
    SplitJoinRoundTrip(Split(s));
  }
}
