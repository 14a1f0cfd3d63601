/**
  The string operations the reader relies on: Go's `strings.TrimSpace`, the
  removal of every U+FEFF by `strings.Replace(line, "﻿", "", -1)`, and the
  splitting of a line into the maximal runs of characters that the regular
  expressions' `\S` matches.
 */
module Text {

  import opened DefTypes

  /** The byte order mark U+FEFF. */
  const Bom: char := '\U{FEFF}'

  /** Go's `unicode.IsSpace`, the set `strings.TrimSpace` cuts off. */
  predicate IsSpace(c: char) {
    || c == '\t' || c == '\n' || c == '\U{000B}' || c == '\U{000C}' || c == '\r' || c == ' '
    || c == '\U{0085}' || c == '\U{00A0}' || c == '\U{1680}'
    || ('\U{2000}' <= c <= '\U{200A}')
    || c == '\U{2028}' || c == '\U{2029}' || c == '\U{202F}' || c == '\U{205F}' || c == '\U{3000}'
  }

  /** RE2's `\s`, that is `[\t\n\f\r ]`; `\S` is every other character. */
  predicate IsRegexSpace(c: char) {
    c == '\t' || c == '\n' || c == '\U{000C}' || c == '\r' || c == ' '
  }

  /** Neither end of `s` is a `unicode.IsSpace` character. */
  predicate IsTrimmed(s: string) {
    s != [] ==> !IsSpace(s[0]) && !IsSpace(s[|s| - 1])
  }

  /** A non-empty run of `\S` characters, as one `(\S+)` group captures it. */
  predicate IsToken(t: string) {
    t != [] && forall i :: 0 <= i < |t| ==> !IsRegexSpace(t[i])
  }

  /** The first position at or after `i` that is not a `unicode.IsSpace`
      character, or `|s|`: where `strings.TrimLeft` cuts. */
  function SpaceRunEnd(s: string, i: nat): (r: nat)
    requires i <= |s|
    ensures i <= r <= |s|
    ensures forall j :: i <= j < r ==> IsSpace(s[j])
    ensures r < |s| ==> !IsSpace(s[r])
    decreases |s| - i
  {
    if i == |s| || !IsSpace(s[i]) then i else SpaceRunEnd(s, i + 1)
  }

  /** The last position down from `e` (but not below `lo`) that follows a
      non-space character, or `lo`: where `strings.TrimRight` cuts. */
  function SpaceRunStart(s: string, lo: nat, e: nat): (r: nat)
    requires lo <= e <= |s|
    ensures lo <= r <= e
    ensures forall j :: r <= j < e ==> IsSpace(s[j])
    ensures r > lo ==> !IsSpace(s[r - 1])
    decreases e - lo
  {
    if e == lo || !IsSpace(s[e - 1]) then e else SpaceRunStart(s, lo, e - 1)
  }

  /** Go's `strings.TrimSpace`: neither end of the result is space. */
  function TrimSpace(s: string): (r: string)
    ensures IsTrimmed(r)
    ensures |r| <= |s|
  {
    var a := SpaceRunEnd(s, 0);
    var b := SpaceRunStart(s, a, |s|);
    assert b > a ==> !IsSpace(s[a]);
    s[a..b]
  }

  /** The trimmed line is a slice of the line, and everything cut off on
      either side is space. */
  lemma TrimSpaceCutsSpace(s: string)
    ensures exists a, b :: 0 <= a <= b <= |s| && TrimSpace(s) == s[a..b]
                           && (forall i :: 0 <= i < a ==> IsSpace(s[i]))
                           && (forall i :: b <= i < |s| ==> IsSpace(s[i]))
  {
    var a := SpaceRunEnd(s, 0);
    var b := SpaceRunStart(s, a, |s|);
    assert TrimSpace(s) == s[a..b];
  }

  /** Trimming twice is trimming once, and a trimmed string is left alone. */
  lemma TrimSpaceFixesTrimmed(s: string)
    ensures IsTrimmed(s) ==> TrimSpace(s) == s
    ensures TrimSpace(TrimSpace(s)) == TrimSpace(s)
  {
    if IsTrimmed(s) {
      TrimmedIsFixed(s);
    }
    TrimmedIsFixed(TrimSpace(s));
  }

  lemma TrimmedIsFixed(s: string)
    requires IsTrimmed(s)
    ensures TrimSpace(s) == s
  {
    assert SpaceRunEnd(s, 0) == 0;
    assert SpaceRunStart(s, 0, |s|) == |s|;
    assert s[0..|s|] == s;
  }

  /** `strings.Replace(s, string(c), "", -1)`: every `c` removed, all other
      characters kept in order. */
  function RemoveAll(s: string, c: char): (r: string)
    ensures c !in r
    ensures c !in s ==> r == s
    ensures |r| <= |s|
  {
    if s == [] then []
    else (if s[0] == c then [] else [s[0]]) + RemoveAll(s[1..], c)
  }

  /** Removing `c` keeps exactly the other characters of `s`. */
  lemma {:induction false} RemoveAllKeepsOthers(s: string, c: char)
    ensures forall x :: x in RemoveAll(s, c) <==> x in s && x != c
    decreases |s|
  {
    if s != [] {
      RemoveAllKeepsOthers(s[1..], c);
      assert s == [s[0]] + s[1..];
    }
  }

  /** Removal works character by character: a single character is dropped
      iff it is `c`, and the removal from a concatenation is the
      concatenation of the removals, so every other character keeps its
      count and its order. */
  lemma RemoveAllOne(x: char, c: char)
    ensures RemoveAll([x], c) == if x == c then [] else [x]
  {
    assert [x][1..] == [];
  }

  lemma {:induction false} RemoveAllConcat(a: string, b: string, c: char)
    ensures RemoveAll(a + b, c) == RemoveAll(a, c) + RemoveAll(b, c)
    decreases |a|
  {
    if a == [] {
      assert a + b == b;
    } else {
      assert (a + b)[0] == a[0];
      assert (a + b)[1..] == a[1..] + b;
      RemoveAllConcat(a[1..], b, c);
    }
  }

  /** Drops the leading `\s` characters. */
  function SkipSpaces(s: string): (r: string)
    ensures |r| <= |s| && r == s[|s| - |r|..]
    ensures forall i :: 0 <= i < |s| - |r| ==> IsRegexSpace(s[i])
    ensures r != [] ==> !IsRegexSpace(r[0])
    decreases |s|
  {
    if s != [] && IsRegexSpace(s[0]) then SkipSpaces(s[1..]) else s
  }

  /** The length of the longest `\S` prefix of `s`. */
  function WordLength(s: string): (n: nat)
    ensures n <= |s|
    ensures forall i :: 0 <= i < n ==> !IsRegexSpace(s[i])
    ensures n < |s| ==> IsRegexSpace(s[n])
    decreases |s|
  {
    if s == [] || IsRegexSpace(s[0]) then 0 else 1 + WordLength(s[1..])
  }

  /** The maximal runs of `\S` characters of `s`, left to right. */
  function Tokens(s: string): (ts: seq<string>)
    ensures forall i :: 0 <= i < |ts| ==> IsToken(ts[i])
    decreases |s|
  {
    var t := SkipSpaces(s);
    if t == [] then []
    else
      var n := WordLength(t);
      assert n > 0 && IsToken(t[..n]);
      [t[..n]] + Tokens(t[n..])
  }

  /** A line has no token iff it is all `\s`. */
  lemma TokensEmptyIffBlank(s: string)
    ensures Tokens(s) == [] <==> IsBlankRun(s)
  {
    var t := SkipSpaces(s);
    if t != [] {
      assert t[0] == s[|s| - |t|];
    }
  }

  /** The tokens written out with one blank between neighbours. */
  function JoinTokens(ts: seq<string>): string
  {
    if ts == [] then []
    else if |ts| == 1 then ts[0]
    else ts[0] + " " + JoinTokens(ts[1..])
  }

  /** Splitting undoes joining: the tokenizer recovers exactly the words of a
      blank-separated line. */
  lemma {:induction false} TokensOfJoin(ts: seq<string>)
    requires forall i :: 0 <= i < |ts| ==> IsToken(ts[i])
    ensures Tokens(JoinTokens(ts)) == ts
    decreases |ts|
  {
    if |ts| == 1 {
      TokensOfWord(ts[0]);
    } else if |ts| > 1 {
      var tail := ts[1..];
      TokensOfJoinStep(ts);
      TokensOfJoin(tail);
      ConsOfTail(ts, Tokens(JoinTokens(ts)), Tokens(JoinTokens(tail)));
    }
  }

  lemma ConsOfTail<T>(xs: seq<T>, a: seq<T>, b: seq<T>)
    requires xs != [] && a == [xs[0]] + b && b == xs[1..]
    ensures a == xs
  {
  }

  lemma TokensOfJoinStep(ts: seq<string>)
    requires |ts| > 1 && IsToken(ts[0])
    ensures Tokens(JoinTokens(ts)) == [ts[0]] + Tokens(JoinTokens(ts[1..]))
  {
    var rest := JoinTokens(ts[1..]);
    assert JoinTokens(ts) == ts[0] + " " + rest;
    TokensOfWordThenBlank(ts[0], rest);
  }

  lemma TokensOfWord(w: string)
    requires IsToken(w)
    ensures Tokens(w) == [w]
  {
    WordLengthOfToken(w, []);
    assert w + [] == w;
    assert SkipSpaces(w) == w;
    assert w[..|w|] == w && w[|w|..] == [];
  }

  lemma TokensOfWordThenBlank(w: string, rest: string)
    requires IsToken(w)
    ensures Tokens(w + " " + rest) == [w] + Tokens(rest)
  {
    var s := w + " " + rest;
    assert s == w + (" " + rest);
    assert SkipSpaces(s) == s;
    WordLengthOfToken(w, " " + rest);
    assert s[..|w|] == w;
    assert s[|w|..] == " " + rest;
    TokensAfterBlank(rest);
  }

  lemma TokensAfterBlank(rest: string)
    ensures Tokens(" " + rest) == Tokens(rest)
  {
    assert (" " + rest)[1..] == rest;
    assert SkipSpaces(" " + rest) == SkipSpaces(rest);
  }

  /** Every character is a `\s`; the empty run counts. */
  predicate IsBlankRun(g: string) {
    forall i :: 0 <= i < |g| ==> IsRegexSpace(g[i])
  }

  /** `gaps[i]` follows token `i`: every gap is a run of `\s`, and every gap
      but the trailing one is non-empty. */
  predicate IsLayout(ts: seq<string>, gaps: seq<string>) {
    && |gaps| == |ts|
    && (forall i :: 0 <= i < |gaps| ==> IsBlankRun(gaps[i]))
    && (forall i :: 0 <= i < |gaps| - 1 ==> gaps[i] != [])
  }

  /** The tokens written out, each followed by its gap. */
  function Spaced(ts: seq<string>, gaps: seq<string>): string
    requires |gaps| == |ts|
    decreases |ts|
  {
    if ts == [] then [] else ts[0] + gaps[0] + Spaced(ts[1..], gaps[1..])
  }

  /** Splitting undoes any layout: whatever runs of blanks, tabs, form
      feeds or line ends separate the tokens, lead or trail them, the
      tokenizer recovers exactly the tokens. */
  lemma TokensOfSpaced(lead: string, ts: seq<string>, gaps: seq<string>)
    requires IsBlankRun(lead) && IsLayout(ts, gaps)
    requires forall i :: 0 <= i < |ts| ==> IsToken(ts[i])
    ensures Tokens(lead + Spaced(ts, gaps)) == ts
  {
    TokensAfterSpaces(lead, Spaced(ts, gaps));
    TokensOfSpacedFrom(ts, gaps);
  }

  lemma {:induction false} TokensOfSpacedFrom(ts: seq<string>, gaps: seq<string>)
    requires IsLayout(ts, gaps)
    requires forall i :: 0 <= i < |ts| ==> IsToken(ts[i])
    ensures Tokens(Spaced(ts, gaps)) == ts
    decreases |ts|
  {
    if ts != [] {
      var rest := Spaced(ts[1..], gaps[1..]);
      assert IsLayout(ts[1..], gaps[1..]) by {
        assert forall i :: 0 <= i < |gaps| - 1 ==> gaps[1..][i] == gaps[i + 1];
      }
      assert forall i :: 0 <= i < |ts| - 1 ==> ts[1..][i] == ts[i + 1];
      TokensOfSpacedFrom(ts[1..], gaps[1..]);
      assert gaps[0] == [] ==> rest == [];
      TokensWordGap(ts[0], gaps[0], rest);
      ConsOfTail(ts, Tokens(Spaced(ts, gaps)), Tokens(rest));
    }
  }

  /** Leading `\s` characters do not change the split. */
  lemma {:induction false} TokensAfterSpaces(g: string, rest: string)
    requires IsBlankRun(g)
    ensures Tokens(g + rest) == Tokens(rest)
  {
    SkipSpacesAfter(g, rest);
  }

  lemma {:induction false} SkipSpacesAfter(g: string, rest: string)
    requires IsBlankRun(g)
    ensures SkipSpaces(g + rest) == SkipSpaces(rest)
    decreases |g|
  {
    if g == [] {
      assert g + rest == rest;
    } else {
      assert (g + rest)[0] == g[0];
      assert (g + rest)[1..] == g[1..] + rest;
      SkipSpacesAfter(g[1..], rest);
    }
  }

  /** A token followed by a run of `\s` (empty only at the end) splits off
      as the first token. */
  lemma TokensWordGap(w: string, g: string, rest: string)
    requires IsToken(w) && IsBlankRun(g) && (g == [] ==> rest == [])
    ensures Tokens(w + g + rest) == [w] + Tokens(rest)
  {
    var tail := g + rest;
    var s := w + tail;
    assert w + g + rest == s;
    assert tail == [] || IsRegexSpace(tail[0]);
    assert SkipSpaces(s) == s;
    WordLengthOfToken(w, tail);
    assert s[..|w|] == w;
    assert s[|w|..] == tail;
    TokensAfterSpaces(g, rest);
  }

  lemma {:induction false} WordLengthOfToken(w: string, tail: string)
    requires IsToken(w)
    requires tail == [] || IsRegexSpace(tail[0])
    ensures WordLength(w + tail) == |w|
    decreases |w|
  {
    if |w| > 1 {
      assert (w + tail)[1..] == w[1..] + tail;
      WordLengthOfToken(w[1..], tail);
    } else {
      assert (w + tail)[1..] == tail;
    }
  }

  /** `pat` occurs in `s` starting at position `j`. */
  predicate OccursAt(s: string, pat: string, j: nat) {
    j + |pat| <= |s| && s[j..j + |pat|] == pat
  }

  /** The position of the first occurrence of `pat` in `s`, as Go's
      `strings.Index` finds it. */
  function IndexOf(s: string, pat: string): (r: Option<nat>)
    ensures r.Some? ==> OccursAt(s, pat, r.value)
    ensures r.Some? ==> forall j: nat :: j < r.value ==> !OccursAt(s, pat, j)
    ensures r.None? ==> forall j: nat :: !OccursAt(s, pat, j)
  {
    IndexFrom(s, pat, 0)
  }

  function IndexFrom(s: string, pat: string, from: nat): (r: Option<nat>)
    ensures r.Some? ==> from <= r.value && OccursAt(s, pat, r.value)
    ensures r.Some? ==> forall j: nat :: from <= j < r.value ==> !OccursAt(s, pat, j)
    ensures r.None? ==> forall j: nat :: from <= j ==> !OccursAt(s, pat, j)
    decreases |s| + 1 - from
  {
    if from + |pat| > |s| then None
    else if OccursAt(s, pat, from) then Some(from)
    else IndexFrom(s, pat, from + 1)
  }
}
