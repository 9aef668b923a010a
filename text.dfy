/** The string operations of Rust's `str` that the backends rely on:
    `starts_with`, `contains`, `trim_start_matches`, `split_whitespace`,
    `join`, `split_once` and `trim`. Strings are sequences of Unicode
    scalar values, as Rust's `char`s are. */
module Text {
  import opened Wrappers
  import opened Seqs

  /** `char::is_whitespace`: the characters with the Unicode White_Space property. */
  predicate IsWhitespace(c: char) {
    ('\U{9}' <= c <= '\U{D}') || c == ' ' || c == '\U{85}' || c == '\U{A0}'
    || c == '\U{1680}' || ('\U{2000}' <= c <= '\U{200A}') || c == '\U{2028}' || c == '\U{2029}'
    || c == '\U{202F}' || c == '\U{205F}' || c == '\U{3000}'
  }

  predicate NoWhitespace(s: string) {
    forall i | 0 <= i < |s| :: !IsWhitespace(s[i])
  }

  predicate AllWhitespace(s: string) {
    forall i | 0 <= i < |s| :: IsWhitespace(s[i])
  }

  /** `s.starts_with(prefix)` */
  predicate StartsWith(s: string, prefix: string) {
    |prefix| <= |s| && s[..|prefix|] == prefix
  }

  /** `s.contains(needle)`: some position of `s` starts a copy of `needle`. */
  predicate Contains(s: string, needle: string)
    decreases |s|
  {
    StartsWith(s, needle) || (s != [] && Contains(s[1..], needle))
  }

  /** `p` repeated `k` times. */
  ghost function Repeat(p: string, k: nat): string {
    if k == 0 then [] else p + Repeat(p, k - 1)
  }

  /** `s.trim_start_matches(p)`: removes every leading repetition of `p`. */
  function TrimStartMatches(s: string, p: string): (r: string)
    requires p != []
    ensures !StartsWith(r, p)
    decreases |s|
  {
    if StartsWith(s, p) then TrimStartMatches(s[|p|..], p) else s
  }

  /** What `trim_start_matches` removes is a number of whole copies of the pattern. */
  lemma {:induction false} TrimStartMatchesRepeats(s: string, p: string)
    requires p != []
    ensures exists k: nat :: s == Repeat(p, k) + TrimStartMatches(s, p)
    decreases |s|
  {
    var r := TrimStartMatches(s, p);
    if StartsWith(s, p) {
      TrimStartMatchesRepeats(s[|p|..], p);
      var k: nat :| s[|p|..] == Repeat(p, k) + r;
      assert s == p + s[|p|..];
      AppendAssoc3(p, Repeat(p, k), r);
      assert s == Repeat(p, k + 1) + r;
    } else {
      assert s == Repeat(p, 0) + s;
    }
  }

  /** Length of the word at the start of `s`: the characters before the first whitespace. */
  function WordLength(s: string): (n: nat)
    ensures n <= |s| && NoWhitespace(s[..n])
    ensures n == |s| || IsWhitespace(s[n])
  {
    if s == [] || IsWhitespace(s[0]) then 0
    else
      var n := 1 + WordLength(s[1..]);
      assert s[..n] == [s[0]] + s[1..][..n - 1];
      n
  }

  /** `s.split_whitespace()`: the maximal runs of non-whitespace characters, in order. */
  function SplitWhitespace(s: string): seq<string>
    decreases |s|
  {
    if s == [] then []
    else if IsWhitespace(s[0]) then SplitWhitespace(s[1..])
    else
      var n := WordLength(s);
      [s[..n]] + SplitWhitespace(s[n..])
  }

  /** `words.join(sep)` */
  function Join(words: seq<string>, sep: string): string {
    if words == [] then []
    else if |words| == 1 then words[0]
    else words[0] + sep + Join(words[1..], sep)
  }

  /** `s.split_once(c)`: the text before and after the first `c`. */
  function SplitOnce(s: string, c: char): (r: Option<(string, string)>)
    ensures r.None? <==> c !in s
    ensures r.Some? ==> s == r.value.0 + [c] + r.value.1 && c !in r.value.0
  {
    if s == [] then None
    else if s[0] == c then Some(([], s[1..]))
    else match SplitOnce(s[1..], c)
      case None => None
      case Some((before, after)) =>
        assert s == [s[0]] + s[1..];
        Some(([s[0]] + before, after))
  }

  /** Number of whitespace characters at the start of `s`. */
  function LeadingWhitespace(s: string): (n: nat)
    ensures n <= |s| && AllWhitespace(s[..n])
    ensures n == |s| || !IsWhitespace(s[n])
  {
    if s == [] || !IsWhitespace(s[0]) then 0
    else
      var n := 1 + LeadingWhitespace(s[1..]);
      assert s[..n] == [s[0]] + s[1..][..n - 1];
      n
  }

  /** Number of whitespace characters at the end of `s`. */
  function TrailingWhitespace(s: string): (n: nat)
    ensures n <= |s| && AllWhitespace(s[|s| - n..])
    ensures n == |s| || !IsWhitespace(s[|s| - n - 1])
  {
    if s == [] || !IsWhitespace(s[|s| - 1]) then 0
    else
      var m := TrailingWhitespace(s[..|s| - 1]);
      TrailingStep(s, m);
      m + 1
  }

  /** A whitespace character after the trailing whitespace of `init` extends it by one. */
  lemma TrailingStep(s: string, m: nat)
    requires s != [] && IsWhitespace(s[|s| - 1])
    requires m < |s| && AllWhitespace(s[..|s| - 1][|s| - 1 - m..])
    requires m == |s| - 1 || !IsWhitespace(s[..|s| - 1][|s| - 1 - m - 1])
    ensures AllWhitespace(s[|s| - (m + 1)..])
    ensures m + 1 == |s| || !IsWhitespace(s[|s| - (m + 1) - 1])
  {
    var init := s[..|s| - 1];
    assert s[|s| - (m + 1)..] == init[|init| - m..] + [s[|s| - 1]];
  }

  /** `s.trim()` */
  function Trim(s: string): (r: string)
    ensures r == [] || (!IsWhitespace(r[0]) && !IsWhitespace(r[|r| - 1]))
    ensures var i := LeadingWhitespace(s);
      i + |r| <= |s| && r == s[i..i + |r|] && AllWhitespace(s[..i]) && AllWhitespace(s[i + |r|..])
  {
    var t := s[LeadingWhitespace(s)..];
    var n := TrailingWhitespace(t);
    SliceParts(s, LeadingWhitespace(s), n);
    t[..|t| - n]
  }

  /** The two parts of `s[i..]` on either side of its last `n` characters, as slices of `s`. */
  lemma SliceParts<T>(s: seq<T>, i: nat, n: nat)
    requires i + n <= |s|
    ensures s[i..][..|s| - i - n] == s[i..|s| - n]
    ensures s[i..][|s| - i - n..] == s[|s| - n..]
  {
  }

  /** Leading whitespace is skipped by `split_whitespace`. */
  lemma {:induction false} SplitSkipsWhitespace(ws: string, rest: string)
    requires AllWhitespace(ws)
    ensures SplitWhitespace(ws + rest) == SplitWhitespace(rest)
    decreases |ws|
  {
    if ws != [] {
      assert IsWhitespace((ws + rest)[0]);
      assert (ws + rest)[1..] == ws[1..] + rest;
      SplitSkipsWhitespace(ws[1..], rest);
    } else {
      assert ws + rest == rest;
    }
  }

  /** A word followed by whitespace and more text (or by nothing) is split off as the first field. */
  lemma SplitWordFirst(w: string, ws: string, rest: string)
    requires w != [] && NoWhitespace(w) && AllWhitespace(ws)
    requires ws != [] || rest == []
    ensures SplitWhitespace(w + ws + rest) == [w] + SplitWhitespace(rest)
  {
    assert ws + rest == [] || IsWhitespace((ws + rest)[0]);
    FieldThenRest(w, ws + rest);
    SplitSkipsWhitespace(ws, rest);
    AppendAssoc3(w, ws, rest);
  }

  /** Splitting words joined by single spaces gives the words back. */
  lemma {:induction false} SplitJoin(words: seq<string>)
    requires forall w | w in words :: w != [] && NoWhitespace(w)
    ensures SplitWhitespace(Join(words, " ")) == words
    decreases |words|
  {
    if words == [] {
    } else if |words| == 1 {
      assert words[0] in words;
      SplitWordFirst(words[0], [], []);
      assert words[0] + [] + [] == words[0];
    } else {
      assert words[0] in words;
      assert forall w | w in words[1..] :: w in words;
      SplitJoin(words[1..]);
      SplitWordFirst(words[0], " ", Join(words[1..], " "));
    }
  }

  /** A word followed by whitespace or by nothing is split off as the first field. */
  lemma FieldThenRest(w: string, rest: string)
    requires w != [] && NoWhitespace(w)
    requires rest == [] || IsWhitespace(rest[0])
    ensures SplitWhitespace(w + rest) == [w] + SplitWhitespace(rest)
  {
    var s := w + rest;
    assert forall i | 0 <= i < |w| :: s[i] == w[i];
    assert rest != [] ==> s[|w|] == rest[0];
    assert WordLength(s) == |w|;
    assert s[..|w|] == w;
    assert s[|w|..] == rest;
  }

  /** A word followed by a single space is split off as the first field. */
  lemma FieldThenSpace(w: string, rest: string)
    requires w != [] && NoWhitespace(w)
    ensures SplitWhitespace(w + " " + rest) == [w] + SplitWhitespace(rest)
  {
    SplitWordFirst(w, " ", rest);
  }

  /** Every field `split_whitespace` yields is a non-empty word. */
  lemma {:induction false} SplitWhitespaceWords(s: string)
    ensures forall k | 0 <= k < |SplitWhitespace(s)| ::
      SplitWhitespace(s)[k] != [] && NoWhitespace(SplitWhitespace(s)[k])
    decreases |s|
  {
    if s != [] {
      if IsWhitespace(s[0]) {
        SplitWhitespaceWords(s[1..]);
      } else {
        SplitWhitespaceWords(s[WordLength(s)..]);
      }
    }
  }
}
