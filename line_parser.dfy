/**
  The line level of the definition reader (codegen/xml_def_reader.go):
  `readFileToStrings` without the file I/O, the three line predicates, and
  `newDefHeader`, `newDefBody`, `newDefEntity`.

  The two regular expressions are modelled on the line's tokens, the maximal
  runs of `\S` characters:
  - `bodyReg` is six `(\S+)` groups separated by `\s+`. Its leftmost match
    starts at the first token and every group takes a whole token, so it
    matches iff there are at least six tokens, and the groups are the first
    six.
  - `headerReg` is unanchored too. A match starts inside some token k at an
    occurrence of `CMTCODE:` followed by at least one more character of that
    token (group 1 takes the rest of the token), group 2 is token k+1,
    token k+2 is `PATH:` and more, token k+3 is `ParentCMTCODE:` and more.
    The leftmost match uses the first such token k and the first occurrence
    of `CMTCODE:` in it.
 */
module LineParser {

  import opened DefTypes
  import opened Text

  const CodeKey: string := "CMTCODE:"
  const PathKey: string := "PATH:"
  const ParentKey: string := "ParentCMTCODE:"

  /** The number of `(\S+)` groups of `bodyReg`. */
  const BodyFieldCount: nat := 6

  // ---------------------------------------------------------------------
  // readFileToStrings (the transform applied to the lines read)

  /** One line as `readFileToStrings` stores it: on the first line every
      U+FEFF is removed, then the line is trimmed. */
  function CleanLine(line: string, first: bool): string {
    TrimSpace(if first then RemoveAll(line, Bom) else line)
  }

  /** What `readFileToStrings` returns for the lines the scanner produced. */
  function Preprocess(raw: seq<string>): seq<string> {
    seq(|raw|, i requires 0 <= i < |raw| => CleanLine(raw[i], i == 0))
  }

  /** `readFileToStrings` after the scanner: the `firstLine` flag strips every
      U+FEFF from the first line only, and every line is trimmed. */
  method ReadFileToStrings(raw: seq<string>) returns (lines: seq<string>)
    ensures lines == Preprocess(raw)
    ensures |lines| == |raw|
    ensures |raw| > 0 ==> lines[0] == TrimSpace(RemoveAll(raw[0], Bom)) && Bom !in lines[0]
    ensures forall i :: 1 <= i < |raw| ==> lines[i] == TrimSpace(raw[i])
    ensures forall i :: 0 <= i < |lines| ==> IsTrimmed(lines[i])
  {
    lines := [];
    var firstLine := true;
    for i := 0 to |raw|
      invariant firstLine <==> i == 0
      invariant |lines| == i
      invariant forall k :: 0 <= k < i ==> lines[k] == CleanLine(raw[k], k == 0)
    {
      var line := raw[i];
      if firstLine {
        line := RemoveAll(line, Bom);
        firstLine := false;
      }
      lines := lines + [TrimSpace(line)];
    }
    assert lines == Preprocess(raw) by {
      assert forall k :: 0 <= k < |raw| ==> Preprocess(raw)[k] == CleanLine(raw[k], k == 0);
    }
    PreprocessLines(raw);
  }

  /** Every stored line is trimmed, and the first has no U+FEFF left. */
  lemma {:induction false} PreprocessLines(raw: seq<string>)
    ensures |raw| > 0 ==> Bom !in Preprocess(raw)[0]
    ensures forall i :: 0 <= i < |raw| ==> IsTrimmed(Preprocess(raw)[i])
  {
    if |raw| > 0 {
      var s := RemoveAll(raw[0], Bom);
      var t := Preprocess(raw)[0];
      assert t == TrimSpace(s);
      TrimSpaceCutsSpace(s);
      var a, b :| 0 <= a <= b <= |s| && t == s[a..b];
      assert forall k :: 0 <= k < |t| ==> t[k] == s[a + k];
    }
  }

  // ---------------------------------------------------------------------
  // Line classification

  /** `strings.TrimSpace(line) == ""` */
  predicate IsBlank(line: string) {
    TrimSpace(line) == []
  }

  /** `isComment`: the line starts with `#`. */
  predicate IsComment(line: string): (r: bool)
    ensures r <==> line != [] && line[0] == '#'
  {
    "#" <= line
  }

  /** `isHeader`: the line starts with `CMTCODE:`. Such a line is neither
      blank nor a comment, so the loop never skips it. */
  predicate IsHeader(line: string): (r: bool)
    ensures r ==> line != [] && line[0] == 'C' && !IsComment(line) && !IsBlank(line)
  {
    if CodeKey <= line then
      assert line[0] == 'C' && SpaceRunEnd(line, 0) == 0;
      true
    else false
  }

  /** `isBody` is the negation of `isHeader`: every other line, comments
      included, counts as a body, which is why the loop skips comments
      first. */
  predicate IsBody(line: string): (r: bool)
    ensures r != IsHeader(line)
    ensures IsComment(line) ==> r
  {
    !IsHeader(line)
  }

  // ---------------------------------------------------------------------
  // newDefBody

  /** `newDefBody`: the first six tokens are tag, description, path, the
      required flag (`M` is true), the sign flag (`y` is true) and the type;
      a line with fewer tokens is invalid. */
  function NewDefBody(line: string): (r: Result<Body>)
    ensures r.Ok? <==> |Tokens(line)| >= BodyFieldCount
    ensures r.Err? ==> r.error == InvalidBody(line)
    ensures r.Ok? ==> IsToken(r.value.tag) && IsToken(r.value.desc)
                      && IsToken(r.value.path) && IsToken(r.value.typ)
    ensures r.Ok? ==> !r.value.isEmbeddedSet && r.value.embeddedSet == None
  {
    var ts := Tokens(line);
    if |ts| < BodyFieldCount then Err(InvalidBody(line))
    else Ok(Body(ts[0], ts[1], ts[2], ts[3] == "M", ts[4] == "y", ts[5], false, None))
  }

  /** A body written as a definition line, with `M`/`O` and `y`/`n` flags. */
  function FormatBody(b: Body): string {
    JoinTokens([b.tag, b.desc, b.path, if b.required then "M" else "O",
                if b.sign then "y" else "n", b.typ])
  }

  /** A written body is its six fields separated by single blanks. */
  lemma FormatBodyFields(b: Body)
    ensures FormatBody(b) == b.tag + " " + b.desc + " " + b.path + " " + (if b.required then "M" else "O")
                             + " " + (if b.sign then "y" else "n") + " " + b.typ
  {
    JoinSix(b.tag, b.desc, b.path, if b.required then "M" else "O", if b.sign then "y" else "n", b.typ);
  }

  lemma JoinSix(t0: string, t1: string, t2: string, t3: string, t4: string, t5: string)
    ensures JoinTokens([t0, t1, t2, t3, t4, t5]) == t0 + " " + t1 + " " + t2 + " " + t3 + " " + t4 + " " + t5
  {
    var ts := [t0, t1, t2, t3, t4, t5];
    assert ts[1..] == [t1, t2, t3, t4, t5];
    JoinFive(t1, t2, t3, t4, t5);
  }

  lemma JoinFive(t1: string, t2: string, t3: string, t4: string, t5: string)
    ensures JoinTokens([t1, t2, t3, t4, t5]) == t1 + " " + t2 + " " + t3 + " " + t4 + " " + t5
  {
    var ts := [t1, t2, t3, t4, t5];
    assert ts[1..] == [t2, t3, t4, t5];
    JoinFour(t2, t3, t4, t5);
  }

  lemma JoinFour(t2: string, t3: string, t4: string, t5: string)
    ensures JoinTokens([t2, t3, t4, t5]) == t2 + " " + t3 + " " + t4 + " " + t5
  {
    var ts := [t2, t3, t4, t5];
    assert ts[1..] == [t3, t4, t5];
    assert [t3, t4, t5][1..] == [t4, t5];
    assert [t4, t5][1..] == [t5];
    assert JoinTokens([t4, t5]) == t4 + " " + t5;
    assert JoinTokens([t3, t4, t5]) == t3 + " " + (t4 + " " + t5);
  }

  /** A written body line without space at either end is left alone by
      `readFileToStrings` on any line but the first, and on the first line
      too when it holds no U+FEFF. */
  lemma CleanFormatBody(b: Body, first: bool)
    requires IsToken(b.tag) && IsToken(b.typ)
    requires !IsSpace(b.tag[0]) && !IsSpace(b.typ[|b.typ| - 1])
    requires first ==> Bom !in b.tag && Bom !in b.desc && Bom !in b.path && Bom !in b.typ
    ensures CleanLine(FormatBody(b), first) == FormatBody(b)
  {
    var line := FormatBody(b);
    assert IsTrimmed(line) && (first ==> Bom !in line) by {
      FormatBodyFields(b);
      assert line[0] == b.tag[0];
      assert line[|line| - 1] == b.typ[|b.typ| - 1];
    }
    TrimmedIsFixed(line);
  }

  /** Reading back a written body yields the same body. */
  lemma NewDefBodyOfFormat(b: Body)
    requires IsToken(b.tag) && IsToken(b.desc) && IsToken(b.path) && IsToken(b.typ)
    requires !b.isEmbeddedSet && b.embeddedSet == None
    ensures NewDefBody(FormatBody(b)) == Ok(b)
  {
    var req, sign := if b.required then "M" else "O", if b.sign then "y" else "n";
    FlagsReadBack(b.required, b.sign);
    var ts := [b.tag, b.desc, b.path, req, sign, b.typ];
    TokensOfJoin(ts);
  }

  /** The written flags are tokens and read back as the flags they encode. */
  lemma FlagsReadBack(required: bool, sign: bool)
    ensures var req := if required then "M" else "O";
      IsToken(req) && (req == "M") == required
    ensures var sg := if sign then "y" else "n";
      IsToken(sg) && (sg == "y") == sign
  {
  }

  /** Tokens after the sixth are ignored, and the flags are exact matches,
      whatever runs of `\s` separate the tokens or surround the line. */
  lemma NewDefBodyOfSpaced(lead: string, ts: seq<string>, gaps: seq<string>)
    requires IsBlankRun(lead) && IsLayout(ts, gaps)
    requires forall i :: 0 <= i < |ts| ==> IsToken(ts[i])
    ensures var line := lead + Spaced(ts, gaps);
      NewDefBody(line).Ok? <==> |ts| >= BodyFieldCount
    ensures var line := lead + Spaced(ts, gaps);
      |ts| >= BodyFieldCount ==>
      NewDefBody(line) == Ok(Body(ts[0], ts[1], ts[2], ts[3] == "M", ts[4] == "y", ts[5], false, None))
  {
    TokensOfSpaced(lead, ts, gaps);
  }

  // ---------------------------------------------------------------------
  // newDefHeader

  /** Every element is a token. */
  predicate AllTokens(ts: seq<string>) {
    forall i :: 0 <= i < |ts| ==> IsToken(ts[i])
  }

  /** The header `headerReg` captures when its match starts in token `k`. */
  function HeaderAt(ts: seq<string>, k: nat): (h: Option<Header>)
    requires AllTokens(ts)
    ensures h.Some? ==> k + 3 < |ts| && PathKey < ts[k + 2] && ParentKey < ts[k + 3]
    ensures h.Some? ==> IsToken(h.value.cmtCode) && IsToken(h.value.path) && IsToken(h.value.parent)
    ensures h.Some? ==> h.value.path == ts[k + 2][|PathKey|..] && h.value.parent == ts[k + 3][|ParentKey|..]
  {
    if k + 3 < |ts| && PathKey < ts[k + 2] && ParentKey < ts[k + 3] then
      match IndexOf(ts[k], CodeKey)
      case Some(o) =>
        if o + |CodeKey| < |ts[k]| then
          TokenSuffix(ts[k], o + |CodeKey|);
          TokenSuffix(ts[k + 2], |PathKey|);
          TokenSuffix(ts[k + 3], |ParentKey|);
          Some(Header(ts[k][o + |CodeKey|..], ts[k + 2][|PathKey|..], ts[k + 3][|ParentKey|..]))
        else None
      case None => None
    else None
  }

  lemma TokenSuffix(t: string, n: nat)
    requires IsToken(t) && n < |t|
    ensures IsToken(t[n..])
  {
    assert forall i :: 0 <= i < |t| - n ==> t[n..][i] == t[n + i];
  }

  /** The first token, from `k` on, where a match of `headerReg` can start. */
  function FirstHeaderIndex(ts: seq<string>, k: nat): (j: Option<nat>)
    requires AllTokens(ts)
    ensures j.None? ==> forall i :: k <= i ==> HeaderAt(ts, i).None?
    ensures j.Some? ==> k <= j.value && HeaderAt(ts, j.value).Some?
    ensures j.Some? ==> forall i :: k <= i < j.value ==> HeaderAt(ts, i).None?
    decreases |ts| - k
  {
    if k >= |ts| then None
    else if HeaderAt(ts, k).Some? then Some(k)
    else FirstHeaderIndex(ts, k + 1)
  }

  /** `newDefHeader`: code, path and parent from the leftmost match of
      `headerReg`; the second token of the match is discarded. A line without
      a match is invalid. */
  function NewDefHeader(line: string): (r: Result<Header>)
    ensures r.Err? <==> FirstHeaderIndex(Tokens(line), 0).None?
    ensures r.Err? ==> r.error == InvalidHeader(line)
    ensures r.Ok? ==> IsToken(r.value.cmtCode) && IsToken(r.value.path) && IsToken(r.value.parent)
  {
    var ts := Tokens(line);
    match FirstHeaderIndex(ts, 0)
    case Some(j) => Ok(HeaderAt(ts, j).value)
    case None => Err(InvalidHeader(line))
  }

  /** When the first four tokens have the header's shape the match starts at
      the first token: code, path and parent are the rests of tokens 1, 3 and
      4 after their keys, and token 2 is ignored. */
  lemma NewDefHeaderAtFirstToken(line: string)
    requires var ts := Tokens(line);
      |ts| >= 4 && CodeKey < ts[0] && PathKey < ts[2] && ParentKey < ts[3]
    ensures var ts := Tokens(line);
      NewDefHeader(line) == Ok(Header(ts[0][|CodeKey|..], ts[2][|PathKey|..], ts[3][|ParentKey|..]))
  {
    HeaderAtFirst(Tokens(line));
  }

  lemma HeaderAtFirst(ts: seq<string>)
    requires AllTokens(ts)
    requires |ts| >= 4 && CodeKey < ts[0] && PathKey < ts[2] && ParentKey < ts[3]
    ensures FirstHeaderIndex(ts, 0) == Some(0)
    ensures HeaderAt(ts, 0) == Some(Header(ts[0][|CodeKey|..], ts[2][|PathKey|..], ts[3][|ParentKey|..]))
  {
    IndexOfPrefix(ts[0], CodeKey);
  }

  lemma IndexOfPrefix(s: string, pat: string)
    requires pat <= s
    ensures IndexOf(s, pat) == Some(0)
  {
    assert OccursAt(s, pat, 0);
  }

  /** The four tokens of a header line, with `ignored` as the second. */
  function HeaderTokens(h: Header, ignored: string): (ts: seq<string>)
    ensures |ts| == 4 && ts[1] == ignored
    ensures CodeKey <= ts[0] && PathKey <= ts[2] && ParentKey <= ts[3]
    ensures ts[0][|CodeKey|..] == h.cmtCode && ts[2][|PathKey|..] == h.path
            && ts[3][|ParentKey|..] == h.parent
  {
    [CodeKey + h.cmtCode, ignored, PathKey + h.path, ParentKey + h.parent]
  }

  /** A header written as a definition line, with `ignored` as its second token. */
  function FormatHeader(h: Header, ignored: string): string {
    JoinTokens(HeaderTokens(h, ignored))
  }

  /** A written header is its four tokens separated by single blanks. */
  lemma FormatHeaderFields(h: Header, ignored: string)
    ensures FormatHeader(h, ignored) == CodeKey + h.cmtCode + " " + ignored + " " + PathKey + h.path
                                        + " " + ParentKey + h.parent
  {
    JoinFour(CodeKey + h.cmtCode, ignored, PathKey + h.path, ParentKey + h.parent);
  }

  /** The header's tokens are tokens when its fields are. */
  lemma HeaderTokensAreTokens(h: Header, ignored: string)
    requires IsToken(h.cmtCode) && IsToken(h.path) && IsToken(h.parent) && IsToken(ignored)
    ensures AllTokens(HeaderTokens(h, ignored))
  {
    var ts := HeaderTokens(h, ignored);
    assert IsToken(ts[0]) by { assert forall i :: 0 <= i < |ts[0]| ==> ts[0][i] == (CodeKey + h.cmtCode)[i]; }
    assert IsToken(ts[2]) by { assert forall i :: 0 <= i < |ts[2]| ==> ts[2][i] == (PathKey + h.path)[i]; }
    assert IsToken(ts[3]) by { assert forall i :: 0 <= i < |ts[3]| ==> ts[3][i] == (ParentKey + h.parent)[i]; }
  }

  /** Reading back a written header yields the same header, whatever the
      second token is. */
  lemma NewDefHeaderOfFormat(h: Header, ignored: string)
    requires IsToken(h.cmtCode) && IsToken(h.path) && IsToken(h.parent) && IsToken(ignored)
    ensures NewDefHeader(FormatHeader(h, ignored)) == Ok(h)
  {
    HeaderTokensAreTokens(h, ignored);
    TokensOfJoin(HeaderTokens(h, ignored));
    NewDefHeaderAtFirstToken(FormatHeader(h, ignored));
  }

  /** The same holds for a header line followed by any further tokens, with
      any runs of `\s` between the tokens and around the line. */
  lemma NewDefHeaderOfSpaced(h: Header, ignored: string, more: seq<string>,
                             lead: string, gaps: seq<string>)
    requires IsToken(h.cmtCode) && IsToken(h.path) && IsToken(h.parent) && IsToken(ignored)
    requires AllTokens(more)
    requires IsBlankRun(lead) && IsLayout(HeaderTokens(h, ignored) + more, gaps)
    ensures NewDefHeader(lead + Spaced(HeaderTokens(h, ignored) + more, gaps)) == Ok(h)
  {
    var hs := HeaderTokens(h, ignored);
    var ts := hs + more;
    HeaderTokensAreTokens(h, ignored);
    assert forall i :: 0 <= i < |ts| ==> IsToken(ts[i]) by {
      forall i | 0 <= i < |ts| ensures IsToken(ts[i]) {
        if i < 4 { assert ts[i] == hs[i]; } else { assert ts[i] == more[i - 4]; }
      }
    }
    TokensOfSpaced(lead, ts, gaps);
    assert ts[0] == hs[0] && ts[2] == hs[2] && ts[3] == hs[3];
    NewDefHeaderAtFirstToken(lead + Spaced(ts, gaps));
  }

  /** A written header line without space at its end is left alone by
      `readFileToStrings` on any line but the first, and on the first line
      too when it holds no U+FEFF. */
  lemma CleanFormatHeader(h: Header, ignored: string, first: bool)
    requires IsToken(h.parent) && !IsSpace(h.parent[|h.parent| - 1])
    requires first ==> Bom !in h.cmtCode && Bom !in ignored && Bom !in h.path && Bom !in h.parent
    ensures CleanLine(FormatHeader(h, ignored), first) == FormatHeader(h, ignored)
  {
    var line := FormatHeader(h, ignored);
    assert IsTrimmed(line) && (first ==> Bom !in line) by {
      FormatHeaderFields(h, ignored);
      assert line[0] == 'C';
      assert line[|line| - 1] == h.parent[|h.parent| - 1];
    }
    TrimmedIsFixed(line);
  }

  // ---------------------------------------------------------------------
  // newDefEntity

  /** `newDefEntity` followed by `entity.Header = header`: no bodies yet. */
  function NewDefEntity(h: Header): (e: Entity)
    ensures e.header == h && e.bodies == []
  {
    Entity(h, [])
  }
}
