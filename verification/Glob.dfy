/**
 * The glob compiler of src/glob.ts.
 *
 * A pattern is compiled to the text of a regular expression; the text is read back by a reader of
 * ECMAScript regular-expression syntax and the result is given its language. The glob semantics
 * that the file header promises is written down separately, segment by segment, as `Covers`.
 */
module Glob {
  import opened Prelude
  import opened Text

  /** A UTF-16 code unit: without the `u` flag that is what a JavaScript regular expression matches. */
  type CodeUnit = u: int | 0 <= u < 0x1_0000
  type UnitString = seq<CodeUnit>

  const SLASH: CodeUnit := 0x2F
  const STAR: CodeUnit := 0x2A
  const QUESTION: CodeUnit := 0x3F
  const PLUS: CodeUnit := 0x2B
  const DOT: CodeUnit := 0x2E
  const CARET: CodeUnit := 0x5E
  const DOLLAR: CodeUnit := 0x24
  const BACKSLASH: CodeUnit := 0x5C
  const COLON: CodeUnit := 0x3A
  const PIPE: CodeUnit := 0x7C
  const LPAREN: CodeUnit := 0x28
  const RPAREN: CodeUnit := 0x29
  const LBRACKET: CodeUnit := 0x5B
  const RBRACKET: CodeUnit := 0x5D
  const LBRACE: CodeUnit := 0x7B
  const RBRACE: CodeUnit := 0x7D

  const DOUBLE_STAR: UnitString := [STAR, STAR]

  // -----------------------------------------------------------------------
  // What a glob means
  // -----------------------------------------------------------------------

  predicate OneLine(s: UnitString) {
    forall u :: u in s ==> !IsLineTerminator(u)
  }

  /** `*` is any run inside the segment, `?` one unit, anything else itself. */
  ghost predicate Wild(pattern: UnitString, segment: UnitString) {
    if pattern == [] then segment == []
    else if pattern[0] == STAR then
      exists k :: 0 <= k <= |segment| && Free(segment[..k], SLASH) && Wild(pattern[1..], segment[k..])
    else
      && segment != []
      && (if pattern[0] == QUESTION then segment[0] != SLASH else segment[0] == pattern[0])
      && Wild(pattern[1..], segment[1..])
  }

  /**
   * The pattern's segments cover the path's segments: a full `**` stands for zero or more whole
   * segments, and a final `**` for everything that is left.
   */
  ghost predicate Covers(pattern: seq<UnitString>, path: seq<UnitString>)
    requires pattern != [] && path != []
    decreases |pattern| + |path|
  {
    if pattern[0] == DOUBLE_STAR then
      || |pattern| == 1
      || Covers(pattern[1..], path)
      || (|path| > 1 && Covers(pattern, path[1..]))
    else
      && Wild(pattern[0], path[0])
      && (if |pattern| == 1 then |path| == 1 else |path| > 1 && Covers(pattern[1..], path[1..]))
  }

  /** A trailing `/` means the directory and everything under it. */
  function Segments(pattern: UnitString): (segments: seq<UnitString>)
    ensures segments != []
  {
    var parts := Split(pattern, SLASH);
    if |parts| > 1 && parts[|parts| - 1] == [] then parts[..|parts| - 1] + [DOUBLE_STAR] else parts
  }

  /** A normalised path has no empty segment, except that the root itself is the empty path. */
  ghost predicate Normalised(path: UnitString) {
    path == [] || forall segment :: segment in Split(path, SLASH) ==> segment != []
  }

  // -----------------------------------------------------------------------
  // Regular expressions and their languages
  // -----------------------------------------------------------------------

  datatype Re =
    | Literal(unit: CodeUnit)
    | NotSlash
    | AnyUnit
    | Star(body: Re)
    | Plus(body: Re)
    | Optional(body: Re)
    | Group(terms: seq<Re>)

  ghost predicate Lang(re: Re, s: UnitString)
    decreases re, |s|, 0
  {
    match re
    case Literal(u) => s == [u]
    case NotSlash => |s| == 1 && s[0] != SLASH
    case AnyUnit => |s| == 1 && !IsLineTerminator(s[0])
    case Star(body) => Repeats(body, s)
    case Plus(body) => exists k :: 0 <= k <= |s| && Lang(body, s[..k]) && Repeats(body, s[k..])
    case Optional(body) => s == [] || Lang(body, s)
    case Group(terms) => LangSeq(terms, s)
  }

  ghost predicate Repeats(body: Re, s: UnitString)
    decreases body, |s|, 1
  {
    s == [] || exists k :: 0 < k <= |s| && Lang(body, s[..k]) && Repeats(body, s[k..])
  }

  ghost predicate LangSeq(terms: seq<Re>, s: UnitString)
    decreases terms, |s|, 0
  {
    if terms == [] then s == []
    else exists k :: 0 <= k <= |s| && Lang(terms[0], s[..k]) && LangSeq(terms[1..], s[k..])
  }

  /** The expression built for a pattern, as a tree. */
  function UnitTerm(u: CodeUnit): Re {
    if u == STAR then Star(NotSlash) else if u == QUESTION then NotSlash else Literal(u)
  }

  function SegmentTerms(segment: UnitString): seq<Re> {
    if segment == [] then [] else [UnitTerm(segment[0])] + SegmentTerms(segment[1..])
  }

  const REST: Re := Optional(Group([Star(AnyUnit)]))
  const WHOLE_SEGMENT: Re := Group([Plus(NotSlash), Literal(SLASH)])

  function PieceTerms(segment: UnitString, last: bool): seq<Re> {
    if segment == DOUBLE_STAR then if last then [REST] else [Star(WHOLE_SEGMENT)]
    else SegmentTerms(segment) + if last then [] else [Literal(SLASH)]
  }

  function PatternTerms(segments: seq<UnitString>): seq<Re>
    requires segments != []
  {
    PieceTerms(segments[0], |segments| == 1) + if |segments| == 1 then [] else PatternTerms(segments[1..])
  }

  // -----------------------------------------------------------------------
  // The text that is compiled
  // -----------------------------------------------------------------------

  predicate IsRegexSpecial(u: CodeUnit) {
    u in [DOT, PLUS, CARET, DOLLAR, LBRACE, RBRACE, LPAREN, RPAREN, PIPE, LBRACKET, RBRACKET, BACKSLASH]
  }

  const NOT_SLASH_TEXT: UnitString := [LBRACKET, CARET, SLASH, RBRACKET]
  const REST_TEXT: UnitString := [LPAREN, QUESTION, COLON, DOT, STAR, RPAREN, QUESTION]
  const WHOLE_SEGMENTS_TEXT: UnitString :=
    [LPAREN, QUESTION, COLON] + NOT_SLASH_TEXT + [PLUS, SLASH, RPAREN, STAR]

  function UnitText(u: CodeUnit): UnitString {
    if u == STAR then NOT_SLASH_TEXT + [STAR]
    else if u == QUESTION then NOT_SLASH_TEXT
    else if IsRegexSpecial(u) then [BACKSLASH, u]
    else [u]
  }

  function SegmentText(segment: UnitString): UnitString {
    if segment == [] then [] else UnitText(segment[0]) + SegmentText(segment[1..])
  }

  function PieceText(segment: UnitString, last: bool): UnitString {
    if segment == DOUBLE_STAR then if last then REST_TEXT else WHOLE_SEGMENTS_TEXT
    else SegmentText(segment) + if last then [] else [SLASH]
  }

  function PatternText(segments: seq<UnitString>): UnitString
    requires segments != []
  {
    PieceText(segments[0], |segments| == 1) + if |segments| == 1 then [] else PatternText(segments[1..])
  }

  function GlobText(pattern: UnitString): UnitString {
    [CARET] + PatternText(Segments(pattern)) + [DOLLAR]
  }

  method SegmentToRegex(segment: UnitString) returns (out: UnitString)
    ensures out == SegmentText(segment)
  {
    out := [];
    for i := 0 to |segment|
      invariant out == SegmentText(segment[..i])
    {
      var ch := segment[i];
      SegmentTextSnoc(segment[..i], ch);
      assert segment[..i] + [ch] == segment[..i + 1];
      if ch == STAR {
        out := out + (NOT_SLASH_TEXT + [STAR]);
      } else if ch == QUESTION {
        out := out + NOT_SLASH_TEXT;
      } else {
        out := out + if IsRegexSpecial(ch) then [BACKSLASH, ch] else [ch];
      }
    }
    assert segment[..|segment|] == segment;
  }

  lemma {:induction false} SegmentTextSnoc(segment: UnitString, u: CodeUnit)
    ensures SegmentText(segment + [u]) == SegmentText(segment) + UnitText(u)
  {
    if segment == [] {
      assert SegmentText([u]) == UnitText(u) + SegmentText([]);
    } else {
      SegmentTextSnoc(segment[1..], u);
      assert (segment + [u])[1..] == segment[1..] + [u];
      Grouped(UnitText(segment[0]), SegmentText(segment[1..]), UnitText(u));
    }
  }

  method GlobToRegExp(pattern: UnitString) returns (re: UnitString)
    ensures re == GlobText(pattern)
  {
    var normalized := if pattern != [] && pattern[|pattern| - 1] == SLASH then pattern + DOUBLE_STAR else pattern;
    var segments := Split(normalized, SLASH);
    re := [CARET];
    for i := 0 to |segments|
      invariant re + TextFrom(segments, i) == [CARET] + PatternText(segments)
    {
      var seg, last := segments[i], i == |segments| - 1;
      Grouped(re, PieceText(seg, last), TextFrom(segments, i + 1));
      if seg == DOUBLE_STAR {
        re := re + if last then REST_TEXT else WHOLE_SEGMENTS_TEXT;
      } else {
        var text := SegmentToRegex(seg);
        re := re + (text + if last then [] else [SLASH]);
      }
    }
    re := re + [DOLLAR];
    TrailingSlash(pattern);
  }

  /** What is still to be written once the first `i` segments are. */
  ghost function TextFrom(segments: seq<UnitString>, i: nat): (text: UnitString)
    requires i <= |segments|
    ensures i < |segments| ==> text == PieceText(segments[i], i == |segments| - 1) + TextFrom(segments, i + 1)
    ensures i == 0 < |segments| ==> text == PatternText(segments)
    decreases |segments| - i
  {
    if i == |segments| then []
    else
      assert segments[i..][1..] == segments[i + 1..];
      assert i == 0 ==> segments[i..] == segments;
      PatternText(segments[i..])
  }

  /** Appending `**` to a pattern that ends in `/` replaces its last, empty segment by `**`. */
  lemma TrailingSlash(pattern: UnitString)
    ensures Segments(pattern) ==
      Split(if pattern != [] && pattern[|pattern| - 1] == SLASH then pattern + DOUBLE_STAR else pattern, SLASH)
  {
    if pattern != [] && pattern[|pattern| - 1] == SLASH {
      LastUnit(pattern);
      DirectoryPattern(pattern, pattern[..|pattern| - 1]);
    } else {
      NoTrailingSlash(pattern);
    }
  }

  lemma LastUnit(pattern: UnitString)
    requires pattern != []
    ensures pattern == pattern[..|pattern| - 1] + [pattern[|pattern| - 1]]
  {}

  lemma DirectoryPattern(pattern: UnitString, dir: UnitString)
    requires pattern == dir + [SLASH]
    ensures Segments(pattern) == Split(pattern + DOUBLE_STAR, SLASH)
  {
    StarsAreFree();
    DirectorySegments(pattern, dir, DOUBLE_STAR);
    SegmentsOfDirectory(pattern, Split(dir, SLASH));
  }

  lemma StarsAreFree()
    ensures Free(DOUBLE_STAR, SLASH)
  {}

  lemma SegmentsOfDirectory(pattern: UnitString, heads: seq<UnitString>)
    requires heads != [] && Split(pattern, SLASH) == heads + [[]]
    ensures Segments(pattern) == heads + [DOUBLE_STAR]
  {
    var parts := Split(pattern, SLASH);
    assert |parts| == |heads| + 1 && parts[|parts| - 1] == [] && parts[..|parts| - 1] == heads;
  }

  lemma DirectorySegments(pattern: UnitString, dir: UnitString, under: UnitString)
    requires pattern == dir + [SLASH] && Free(under, SLASH)
    ensures Split(pattern, SLASH) == Split(dir, SLASH) + [[]]
    ensures Split(pattern + under, SLASH) == Split(dir, SLASH) + [under]
  {
    assert pattern == dir + [SLASH] + [];
    SplitTail(dir, [], SLASH);
    SplitTail(dir, under, SLASH);
  }

  lemma NoTrailingSlash(pattern: UnitString)
    requires pattern == [] || pattern[|pattern| - 1] != SLASH
    ensures Segments(pattern) == Split(pattern, SLASH)
  {
    NotEndingEmpty(pattern, Split(pattern, SLASH));
  }

  lemma NotEndingEmpty(pattern: UnitString, parts: seq<UnitString>)
    requires parts == Split(pattern, SLASH) && (pattern == [] || pattern[|pattern| - 1] != SLASH)
    ensures |parts| == 1 || parts[|parts| - 1] != []
  {
    JoinSplit(pattern, SLASH);
    if |parts| > 1 && parts[|parts| - 1] == [] {
      JoinEndsInSeparator(parts, SLASH);
    }
  }

  lemma SplitTail<T>(left: seq<T>, right: seq<T>, sep: T)
    requires Free(right, sep)
    ensures Split(left + [sep] + right, sep) == Split(left, sep) + [right]
  {
    SplitAppend(left, right, sep);
    SplitFree(right, sep);
  }

  lemma {:induction false} JoinEndsInSeparator<T>(parts: seq<seq<T>>, sep: T)
    requires |parts| > 1 && parts[|parts| - 1] == []
    ensures var text := Join(parts, sep); text != [] && text[|text| - 1] == sep
  {
    if |parts| > 2 {
      JoinEndsInSeparator(parts[1..], sep);
    } else {
      assert Join(parts[1..], sep) == [];
    }
  }

  // -----------------------------------------------------------------------
  // Reading regular-expression syntax
  // -----------------------------------------------------------------------

  predicate IsQuantifier(u: CodeUnit) {
    u == STAR || u == PLUS || u == QUESTION
  }

  /**
   * One atom of ECMAScript pattern syntax, with the text after it. Constructs the compiler never
   * writes (alternation, other classes, other escapes, counted repeats) are not read at all.
   */
  function ReadAtom(s: UnitString): (r: Option<(Re, UnitString)>)
    requires s != []
    ensures r.Some? ==> |r.value.1| < |s|
    decreases |s|, 0
  {
    if s[0] == LBRACKET then
      if NOT_SLASH_TEXT <= s then Some((NotSlash, s[4..])) else None
    else if s[0] == LPAREN then
      if [LPAREN, QUESTION, COLON] <= s then
        var inner := ReadTerms(s[3..]);
        if inner.Some? && inner.value.1 != [] && inner.value.1[0] == RPAREN
        then Some((Group(inner.value.0), inner.value.1[1..])) else None
      else None
    else if s[0] == BACKSLASH then
      if |s| > 1 && (IsRegexSpecial(s[1]) || IsQuantifier(s[1])) then Some((Literal(s[1]), s[2..])) else None
    else if s[0] == DOT then Some((AnyUnit, s[1..]))
    else if IsRegexSpecial(s[0]) || IsQuantifier(s[0]) then None
    else Some((Literal(s[0]), s[1..]))
  }

  function Quantified(atom: Re, quantifier: CodeUnit): Re
    requires IsQuantifier(quantifier)
  {
    if quantifier == STAR then Star(atom) else if quantifier == PLUS then Plus(atom) else Optional(atom)
  }

  /** A run of terms, up to the end, a `)` or a `$`. */
  function ReadTerms(s: UnitString): (r: Option<(seq<Re>, UnitString)>)
    ensures r.Some? ==> |r.value.1| <= |s|
    decreases |s|, 1
  {
    if s == [] || s[0] == RPAREN || s[0] == DOLLAR then Some(([], s))
    else
      match ReadAtom(s)
      case None => None
      case Some((atom, rest)) =>
        if rest != [] && IsQuantifier(rest[0]) then
          if |rest| > 1 && IsQuantifier(rest[1]) then None
          else PrependTerm(Quantified(atom, rest[0]), ReadTerms(rest[1..]))
        else PrependTerm(atom, ReadTerms(rest))
  }

  function PrependTerm(term: Re, tail: Option<(seq<Re>, UnitString)>): Option<(seq<Re>, UnitString)> {
    match tail
    case None => None
    case Some((terms, rest)) => Some(([term] + terms, rest))
  }

  /** The terms between `^` and `$` of an anchored expression. */
  function ReadAnchored(text: UnitString): Option<seq<Re>> {
    if text == [] || text[0] != CARET then None
    else
      match ReadTerms(text[1..])
      case None => None
      case Some((terms, rest)) => if rest == [DOLLAR] then Some(terms) else None
  }

  /** `new RegExp(text).test(path)`, for a text that this reader understands. */
  ghost predicate Test(text: UnitString, path: UnitString) {
    match ReadAnchored(text)
    case None => false
    case Some(terms) => LangSeq(terms, path)
  }

  /** What may follow a piece: something readable that does not quantify the piece. */
  predicate Follows(rest: UnitString) {
    rest != [] && !IsQuantifier(rest[0]) && ReadTerms(rest).Some?
  }

  lemma ReadUnit(u: CodeUnit, rest: UnitString)
    requires Follows(rest) && u != SLASH
    ensures var tail := ReadTerms(rest).value;
      Follows(UnitText(u) + rest) && ReadTerms(UnitText(u) + rest) == Some(([UnitTerm(u)] + tail.0, tail.1))
  {
    var s := UnitText(u) + rest;
    if u == STAR {
      assert NOT_SLASH_TEXT <= s && s[4..] == [STAR] + rest && s[4..][1..] == rest;
    } else if u == QUESTION {
      assert NOT_SLASH_TEXT <= s && s[4..] == rest;
    } else if IsRegexSpecial(u) {
      assert s[2..] == rest;
    } else {
      assert s[1..] == rest;
    }
  }

  lemma {:induction false} ReadSegment(segment: UnitString, rest: UnitString)
    requires Follows(rest) && Free(segment, SLASH)
    ensures var tail := ReadTerms(rest).value;
      && Follows(SegmentText(segment) + rest)
      && ReadTerms(SegmentText(segment) + rest) == Some((SegmentTerms(segment) + tail.0, tail.1))
  {
    if segment == [] {
      assert SegmentText(segment) + rest == rest;
      assert SegmentTerms(segment) + ReadTerms(rest).value.0 == ReadTerms(rest).value.0;
    } else {
      var more := SegmentText(segment[1..]) + rest;
      ReadSegment(segment[1..], rest);
      ReadUnit(segment[0], more);
      Grouped([UnitTerm(segment[0])], SegmentTerms(segment[1..]), ReadTerms(rest).value.0);
      Grouped(UnitText(segment[0]), SegmentText(segment[1..]), rest);
    }
  }

  /** A group without alternatives, followed by a quantifier. */
  lemma ReadGroup(s: UnitString, inner: UnitString, terms: seq<Re>, quantifier: CodeUnit, rest: UnitString)
    requires s == [LPAREN, QUESTION, COLON] + inner && IsQuantifier(quantifier) && Follows(rest)
    requires ReadTerms(inner) == Some((terms, [RPAREN, quantifier] + rest))
    ensures var tail := ReadTerms(rest).value;
      Follows(s) && ReadTerms(s) == Some(([Quantified(Group(terms), quantifier)] + tail.0, tail.1))
  {
    assert s[3..] == inner;
    var end := [RPAREN, quantifier] + rest;
    assert end[1..] == [quantifier] + rest && end[1..][1..] == rest;
    assert ReadAtom(s) == Some((Group(terms), end[1..]));
  }

  lemma ReadLast(s: UnitString, u: CodeUnit, end: UnitString)
    requires s == [u] + end && !IsRegexSpecial(u) && !IsQuantifier(u) && end != [] && end[0] == RPAREN
    ensures ReadTerms(s) == Some(([Literal(u)], end))
  {
    assert s[1..] == end;
    assert [Literal(u)] + [] == [Literal(u)];
  }

  lemma ReadRest(rest: UnitString)
    requires Follows(rest)
    ensures var tail := ReadTerms(rest).value;
      && Follows(REST_TEXT + rest)
      && ReadTerms(REST_TEXT + rest) == Some(([REST] + tail.0, tail.1))
  {
    var end := [RPAREN, QUESTION] + rest;
    var inner := [DOT, STAR] + end;
    assert inner[1..] == [STAR] + end && inner[1..][1..] == end;
    assert [Star(AnyUnit)] + [] == [Star(AnyUnit)];
    assert REST_TEXT + rest == [LPAREN, QUESTION, COLON] + inner;
    ReadGroup(REST_TEXT + rest, inner, [Star(AnyUnit)], QUESTION, rest);
  }

  lemma ReadWholeSegments(rest: UnitString)
    requires Follows(rest)
    ensures var tail := ReadTerms(rest).value;
      && Follows(WHOLE_SEGMENTS_TEXT + rest)
      && ReadTerms(WHOLE_SEGMENTS_TEXT + rest) == Some(([Star(WHOLE_SEGMENT)] + tail.0, tail.1))
  {
    var end := [RPAREN, STAR] + rest;
    var slashed := [SLASH] + end;
    var inner := NOT_SLASH_TEXT + ([PLUS] + slashed);
    ReadLast(slashed, SLASH, end);
    ReadSlashless(inner, slashed);
    ReadInside(inner, [Plus(NotSlash)], Literal(SLASH), end);
    WholeSegmentsLayout(rest, inner);
    ReadGroup(WHOLE_SEGMENTS_TEXT + rest, inner, [Plus(NotSlash), Literal(SLASH)], STAR, rest);
  }

  lemma WholeSegmentsLayout(rest: UnitString, inner: UnitString)
    requires inner == NOT_SLASH_TEXT + ([PLUS] + ([SLASH] + ([RPAREN, STAR] + rest)))
    ensures WHOLE_SEGMENTS_TEXT + rest == [LPAREN, QUESTION, COLON] + inner
  {}

  lemma ReadInside(inner: UnitString, first: seq<Re>, second: Re, end: UnitString)
    requires |first| == 1 && ReadTerms(inner) == Some((first + [second], end))
    ensures ReadTerms(inner) == Some(([first[0], second], end))
  {
    assert first + [second] == [first[0], second];
  }

  lemma ReadSlashless(s: UnitString, rest: UnitString)
    requires s == NOT_SLASH_TEXT + ([PLUS] + rest) && Follows(rest)
    ensures var tail := ReadTerms(rest).value; ReadTerms(s) == Some(([Plus(NotSlash)] + tail.0, tail.1))
  {
    assert NOT_SLASH_TEXT <= s && s[4..] == [PLUS] + rest && s[4..][1..] == rest;
  }

  lemma ReadPiece(segment: UnitString, last: bool, rest: UnitString)
    requires Follows(rest) && Free(segment, SLASH)
    ensures var text, tail := PieceText(segment, last) + rest, ReadTerms(rest).value;
      Follows(text) && ReadTerms(text) == Some((PieceTerms(segment, last) + tail.0, tail.1))
  {
    if segment == DOUBLE_STAR {
      if last { ReadRest(rest); } else { ReadWholeSegments(rest); }
    } else if last {
      ReadSegment(segment, rest);
      assert PieceText(segment, last) == SegmentText(segment);
      assert PieceTerms(segment, last) == SegmentTerms(segment);
    } else {
      var slashed := [SLASH] + rest;
      assert slashed[1..] == rest;
      ReadSegment(segment, slashed);
      Grouped(SegmentText(segment), [SLASH], rest);
      Grouped(SegmentTerms(segment), [Literal(SLASH)], ReadTerms(rest).value.0);
    }
  }

  lemma {:induction false} ReadPattern(segments: seq<UnitString>)
    requires segments != [] && forall segment :: segment in segments ==> Free(segment, SLASH)
    ensures var text := PatternText(segments) + [DOLLAR];
      Follows(text) && ReadTerms(text) == Some((PatternTerms(segments), [DOLLAR]))
  {
    var last := |segments| == 1;
    if last {
      ReadPiece(segments[0], last, [DOLLAR]);
      assert PatternText(segments) == PieceText(segments[0], last);
      assert PatternTerms(segments) == PieceTerms(segments[0], last) + [];
    } else {
      ReadPattern(segments[1..]);
      ReadPiece(segments[0], last, PatternText(segments[1..]) + [DOLLAR]);
      Grouped(PieceText(segments[0], last), PatternText(segments[1..]), [DOLLAR]);
    }
  }

  lemma SegmentsFree(pattern: UnitString)
    ensures forall segment :: segment in Segments(pattern) ==> Free(segment, SLASH)
  {
    SplitPartsFree(pattern, SLASH);
  }

  lemma Anchored(text: UnitString)
    ensures ([CARET] + text + [DOLLAR])[1..] == text + [DOLLAR]
  {}

  /**
   * The compiled text reads back as exactly the intended expression: every literal unit of the
   * pattern, special or not, stands for itself, and no unit joins up with its neighbours.
   */
  lemma CompiledTextReadsBack(pattern: UnitString)
    ensures ReadAnchored(GlobText(pattern)) == Some(PatternTerms(Segments(pattern)))
  {
    SegmentsFree(pattern);
    ReadPattern(Segments(pattern));
    Anchored(PatternText(Segments(pattern)));
  }

  // -----------------------------------------------------------------------
  // The language of the compiled expression
  // -----------------------------------------------------------------------

  /** As `Covers`, but a final `**` takes one line only and a middle `**` no empty segment. */
  ghost predicate CoversOneLine(pattern: seq<UnitString>, path: seq<UnitString>)
    requires pattern != [] && path != []
    decreases |pattern| + |path|
  {
    if pattern[0] == DOUBLE_STAR then
      if |pattern| == 1 then OneLine(Join(path, SLASH))
      else
        || CoversOneLine(pattern[1..], path)
        || (|path| > 1 && path[0] != [] && CoversOneLine(pattern, path[1..]))
    else
      && Wild(pattern[0], path[0])
      && (if |pattern| == 1 then |path| == 1 else |path| > 1 && CoversOneLine(pattern[1..], path[1..]))
  }

  /** Two cuts of a text, one after the other and at once. */
  lemma TwoCuts(s: UnitString, k: nat, m: nat)
    requires k + m <= |s|
    ensures s[..k + m][..k] == s[..k] && s[..k + m][k..] == s[k..][..m] && s[k + m..] == s[k..][m..]
  {}

  lemma {:induction false} LangAppend(left: seq<Re>, right: seq<Re>, s: UnitString)
    ensures LangSeq(left + right, s) <==> exists k :: 0 <= k <= |s| && LangSeq(left, s[..k]) && LangSeq(right, s[k..])
  {
    if LangSeq(left + right, s) {
      var k := LangAppendSplits(left, right, s);
    }
    if k :| 0 <= k <= |s| && LangSeq(left, s[..k]) && LangSeq(right, s[k..]) {
      LangAppendJoins(left, right, s, k);
    }
  }

  lemma LangCons(terms: seq<Re>, s: UnitString, k: nat)
    requires terms != [] && k <= |s| && Lang(terms[0], s[..k]) && LangSeq(terms[1..], s[k..])
    ensures LangSeq(terms, s)
  {}

  lemma AppendParts<T>(left: seq<T>, right: seq<T>)
    ensures left == [] ==> left + right == right
    ensures left != [] ==> (left + right)[0] == left[0] && (left + right)[1..] == left[1..] + right
  {}

  lemma WholeText(s: UnitString)
    ensures s[0..] == s && s[..0] == [] && s[..|s|] == s && s[|s|..] == []
  {}

  lemma {:induction false} LangAppendSplits(left: seq<Re>, right: seq<Re>, s: UnitString) returns (n: nat)
    requires LangSeq(left + right, s)
    ensures n <= |s| && LangSeq(left, s[..n]) && LangSeq(right, s[n..])
  {
    AppendParts(left, right);
    if left == [] {
      n := 0;
      WholeText(s);
    } else {
      var k :| 0 <= k <= |s| && Lang((left + right)[0], s[..k]) && LangSeq((left + right)[1..], s[k..]);
      var m := LangAppendSplits(left[1..], right, s[k..]);
      n := k + m;
      TwoCuts(s, k, m);
      LangCons(left, s[..n], k);
    }
  }

  lemma {:induction false} LangAppendJoins(left: seq<Re>, right: seq<Re>, s: UnitString, n: nat)
    requires n <= |s| && LangSeq(left, s[..n]) && LangSeq(right, s[n..])
    ensures LangSeq(left + right, s)
  {
    AppendParts(left, right);
    if left == [] {
      WholeText(s);
    } else {
      var k :| 0 <= k <= n && Lang(left[0], s[..n][..k]) && LangSeq(left[1..], s[..n][k..]);
      TwoCuts(s, k, n - k);
      LangAppendJoins(left[1..], right, s[k..], n - k);
      LangCons(left + right, s, k);
    }
  }

  lemma LangOne(re: Re, s: UnitString)
    ensures LangSeq([re], s) <==> Lang(re, s)
  {
    if LangSeq([re], s) {
      var k :| 0 <= k <= |s| && Lang(re, s[..k]) && LangSeq([re][1..], s[k..]);
      assert s[..k] == s;
    }
    if Lang(re, s) {
      assert s[..|s|] == s && LangSeq([re][1..], s[|s|..]);
    }
  }

  /** Repeating a one-unit class matches exactly the texts all of whose units are in the class. */
  lemma {:induction false} RepeatsClass(body: Re, s: UnitString)
    requires body == NotSlash || body == AnyUnit
    ensures Repeats(body, s) <==> forall u :: u in s ==> Lang(body, [u])
  {
    if s != [] {
      RepeatsClass(body, s[1..]);
      assert s[..1] == [s[0]];
      assert forall k :: 0 < k <= |s| && Lang(body, s[..k]) ==> k == 1;
      assert forall u :: u in s <==> u == s[0] || u in s[1..];
    }
  }

  lemma {:induction false} SegmentLang(segment: UnitString, s: UnitString)
    ensures LangSeq(SegmentTerms(segment), s) <==> Wild(segment, s)
  {
    if segment != [] {
      var term := UnitTerm(segment[0]);
      var tail := SegmentTerms(segment[1..]);
      assert SegmentTerms(segment)[1..] == tail;
      forall k | 0 <= k <= |s|
        ensures LangSeq(tail, s[k..]) <==> Wild(segment[1..], s[k..])
        ensures segment[0] == STAR ==> (Lang(term, s[..k]) <==> Free(s[..k], SLASH))
      {
        SegmentLang(segment[1..], s[k..]);
        RepeatsClass(NotSlash, s[..k]);
      }
      if segment[0] != STAR && s != [] {
        assert s[..1] == [s[0]];
      }
    }
  }

  lemma {:induction false} WildFree(pattern: UnitString, s: UnitString)
    requires Wild(pattern, s) && Free(pattern, SLASH)
    ensures Free(s, SLASH)
  {
    if pattern != [] {
      if pattern[0] == STAR {
        var k :| 0 <= k <= |s| && Free(s[..k], SLASH) && Wild(pattern[1..], s[k..]);
        WildFree(pattern[1..], s[k..]);
        assert s == s[..k] + s[k..];
      } else {
        WildFree(pattern[1..], s[1..]);
        assert s == [s[0]] + s[1..];
      }
    }
  }

  lemma SlashThen(more: seq<Re>, t: UnitString)
    ensures LangSeq([Literal(SLASH)] + more, t) <==> t != [] && t[0] == SLASH && LangSeq(more, t[1..])
  {
    var all := [Literal(SLASH)] + more;
    assert all[1..] == more && all[0] == Literal(SLASH);
    if t != [] {
      assert t[..1] == [t[0]];
    }
  }

  /** `head/` followed by more, where the head cannot contain a slash. */
  lemma SlashedLang(head: seq<Re>, more: seq<Re>, s: UnitString)
    ensures LangSeq(head + [Literal(SLASH)] + more, s) <==>
            exists k :: 0 <= k < |s| && LangSeq(head, s[..k]) && s[k] == SLASH && LangSeq(more, s[k + 1..])
  {
    Grouped(head, [Literal(SLASH)], more);
    LangAppend(head, [Literal(SLASH)] + more, s);
    forall k | 0 <= k <= |s|
      ensures LangSeq([Literal(SLASH)] + more, s[k..]) <==> k < |s| && s[k] == SLASH && LangSeq(more, s[k + 1..])
    {
      SlashThen(more, s[k..]);
      if k < |s| {
        assert s[k..][1..] == s[k + 1..];
      }
    }
  }

  /** The first slash decides how a slash-free head and the text after it divide the path. */
  lemma FirstSlash(s: UnitString, k: nat)
    requires k < |s| && s[k] == SLASH && Free(s[..k], SLASH)
    ensures Split(s, SLASH) == [s[..k]] + Split(s[k + 1..], SLASH)
  {
    assert s == s[..k] + [SLASH] + s[k + 1..];
    SplitHead(s[..k], s[k + 1..], SLASH);
  }

  lemma RestLang(s: UnitString)
    ensures LangSeq([REST], s) <==> OneLine(s)
  {
    LangOne(REST, s);
    LangOne(Star(AnyUnit), s);
    RepeatsClass(AnyUnit, s);
  }

  /** One whole segment and its slash. */
  lemma WholeSegmentLang(s: UnitString)
    ensures Lang(WHOLE_SEGMENT, s) <==> |s| > 1 && s[|s| - 1] == SLASH && Free(s[..|s| - 1], SLASH)
  {
    assert WHOLE_SEGMENT.terms == [Plus(NotSlash)] + [Literal(SLASH)] + [];
    SlashedLang([Plus(NotSlash)], [], s);
    forall k | 0 <= k < |s|
      ensures LangSeq([Plus(NotSlash)], s[..k]) <==> k > 0 && Free(s[..k], SLASH)
    {
      PlusLang(s[..k]);
    }
  }

  lemma PlusLang(t: UnitString)
    ensures LangSeq([Plus(NotSlash)], t) <==> t != [] && Free(t, SLASH)
  {
    LangOne(Plus(NotSlash), t);
    if t != [] {
      assert t[..1] == [t[0]];
      RepeatsClass(NotSlash, t[1..]);
      assert forall k :: 0 <= k <= |t| && Lang(NotSlash, t[..k]) ==> k == 1;
      assert forall u :: u in t <==> u == t[0] || u in t[1..];
    }
  }

  lemma {:induction false} RepeatsFirst(t: UnitString) returns (m: nat)
    requires t != [] && Repeats(WHOLE_SEGMENT, t)
    ensures 1 < m <= |t| && t[m - 1] == SLASH && Free(t[..m - 1], SLASH) && Repeats(WHOLE_SEGMENT, t[m..])
  {
    m :| 0 < m <= |t| && Lang(WHOLE_SEGMENT, t[..m]) && Repeats(WHOLE_SEGMENT, t[m..]);
    WholeSegmentLang(t[..m]);
    assert t[..m][..m - 1] == t[..m - 1] && t[..m][m - 1] == t[m - 1];
  }

  lemma RepeatsMore(t: UnitString, m: nat)
    requires 1 < m <= |t| && t[m - 1] == SLASH && Free(t[..m - 1], SLASH) && Repeats(WHOLE_SEGMENT, t[m..])
    ensures Repeats(WHOLE_SEGMENT, t)
  {
    WholeSegmentLang(t[..m]);
    assert t[..m][..m - 1] == t[..m - 1];
    assert Lang(WHOLE_SEGMENT, t[..m]) && Repeats(WHOLE_SEGMENT, t[m..]);
  }

  ghost predicate StarThen(more: seq<Re>, s: UnitString, n: nat)
    requires n <= |s|
  {
    Repeats(WHOLE_SEGMENT, s[..n]) && LangSeq(more, s[n..])
  }

  lemma StarThenLang(more: seq<Re>, s: UnitString)
    ensures LangSeq([Star(WHOLE_SEGMENT)] + more, s) <==> exists n: nat :: n <= |s| && StarThen(more, s, n)
  {
    var all := [Star(WHOLE_SEGMENT)] + more;
    assert all[1..] == more && all[0] == Star(WHOLE_SEGMENT);
    if LangSeq(all, s) {
      var n :| 0 <= n <= |s| && Lang(all[0], s[..n]) && LangSeq(all[1..], s[n..]);
      assert StarThen(more, s, n);
    }
    if n: nat :| n <= |s| && StarThen(more, s, n) {
      assert Lang(all[0], s[..n]) && LangSeq(all[1..], s[n..]);
    }
  }

  /** Taking a whole segment first. */
  ghost predicate TakesSegment(all: seq<Re>, s: UnitString, k: int) {
    0 < k < |s| && s[k] == SLASH && Free(s[..k], SLASH) && LangSeq(all, s[k + 1..])
  }

  lemma StarTakes(more: seq<Re>, s: UnitString, n: nat) returns (k: int)
    requires 0 < n <= |s| && StarThen(more, s, n)
    ensures TakesSegment([Star(WHOLE_SEGMENT)] + more, s, k)
  {
    var m := RepeatsFirst(s[..n]);
    k := m - 1;
    var t := s[m..];
    TwoCuts(s, m, n - m);
    assert s[..n][..k] == s[..k] && s[..n][m..] == t[..n - m];
    assert StarThen(more, t, n - m);
    StarThenLang(more, t);
  }

  lemma StarTook(more: seq<Re>, s: UnitString, k: int)
    requires TakesSegment([Star(WHOLE_SEGMENT)] + more, s, k)
    ensures LangSeq([Star(WHOLE_SEGMENT)] + more, s)
  {
    var t := s[k + 1..];
    StarThenLang(more, t);
    var n: nat :| n <= |t| && StarThen(more, t, n);
    TwoCuts(s, k + 1, n);
    var head := s[..k + 1 + n];
    assert head[..k] == s[..k] && head[k] == SLASH;
    RepeatsMore(head, k + 1);
    assert StarThen(more, s, k + 1 + n);
    StarThenLang(more, s);
  }

  /** A middle `**` either stops or takes the first whole segment and goes on. */
  lemma StarUnrolls(more: seq<Re>, s: UnitString)
    ensures var all := [Star(WHOLE_SEGMENT)] + more;
      LangSeq(all, s) <==> (LangSeq(more, s) || exists k :: TakesSegment(all, s, k))
  {
    StarThenLang(more, s);
    assert s[0..] == s;
    if n: nat :| n <= |s| && StarThen(more, s, n) {
      if n > 0 {
        var k := StarTakes(more, s, n);
      }
    }
    if LangSeq(more, s) {
      assert StarThen(more, s, 0);
    }
    if k :| TakesSegment([Star(WHOLE_SEGMENT)] + more, s, k) {
      StarTook(more, s, k);
    }
  }

  lemma {:induction false} PatternLang(segments: seq<UnitString>, s: UnitString)
    requires segments != [] && forall segment :: segment in segments ==> Free(segment, SLASH)
    ensures LangSeq(PatternTerms(segments), s) <==> CoversOneLine(segments, Split(s, SLASH))
    decreases |segments| + |s|
  {
    var head, last, path := segments[0], |segments| == 1, Split(s, SLASH);
    SplitCases(s, SLASH);
    JoinSplit(s, SLASH);
    if last {
      assert PatternTerms(segments) == PieceTerms(head, last);
      if head == DOUBLE_STAR {
        RestLang(s);
      } else {
        assert PatternTerms(segments) == SegmentTerms(head);
        SegmentLang(head, s);
        if Wild(head, s) {
          WildFree(head, s);
          SplitFree(s, SLASH);
        }
      }
    } else if head == DOUBLE_STAR {
      MiddleStarLang(segments, s);
    } else {
      MiddleSegmentLang(segments, s);
    }
  }

  lemma {:induction false} MiddleStarLang(segments: seq<UnitString>, s: UnitString)
    requires |segments| > 1 && segments[0] == DOUBLE_STAR
    requires forall segment :: segment in segments ==> Free(segment, SLASH)
    ensures LangSeq(PatternTerms(segments), s) <==> CoversOneLine(segments, Split(s, SLASH))
    decreases |segments| + |s|, 0
  {
    var path, all := Split(s, SLASH), PatternTerms(segments);
    assert all == [Star(WHOLE_SEGMENT)] + PatternTerms(segments[1..]);
    StarUnrolls(PatternTerms(segments[1..]), s);
    PatternLang(segments[1..], s);
    SplitCases(s, SLASH);
    if k :| TakesSegment(all, s, k) {
      TakenIsFirst(all, s, k);
      PatternLang(segments, s[k + 1..]);
    }
    if |path| > 1 && path[0] != [] {
      FirstIsTaken(all, s);
      PatternLang(segments, s[|path[0]| + 1..]);
    }
  }

  lemma TakenIsFirst(all: seq<Re>, s: UnitString, k: int)
    requires TakesSegment(all, s, k)
    ensures var path := Split(s, SLASH);
      |path| > 1 && path[0] == s[..k] && path[0] != [] && path[1..] == Split(s[k + 1..], SLASH)
        && LangSeq(all, s[k + 1..])
  {
    FirstSlash(s, k);
  }

  lemma FirstIsTaken(all: seq<Re>, s: UnitString)
    requires |Split(s, SLASH)| > 1 && Split(s, SLASH)[0] != []
    ensures var path := Split(s, SLASH); var k := |path[0]|;
      k < |s| && path[1..] == Split(s[k + 1..], SLASH) && (TakesSegment(all, s, k) <==> LangSeq(all, s[k + 1..]))
  {
    SplitCases(s, SLASH);
  }

  lemma {:induction false} MiddleSegmentLang(segments: seq<UnitString>, s: UnitString)
    requires |segments| > 1 && segments[0] != DOUBLE_STAR
    requires forall segment :: segment in segments ==> Free(segment, SLASH)
    ensures LangSeq(PatternTerms(segments), s) <==> CoversOneLine(segments, Split(s, SLASH))
    decreases |segments| + |s|, 0
  {
    var head, path, more := segments[0], Split(s, SLASH), PatternTerms(segments[1..]);
    SlashedLang(SegmentTerms(head), more, s);
    SplitCases(s, SLASH);
    if LangSeq(PatternTerms(segments), s) {
      var k :| 0 <= k < |s| && LangSeq(SegmentTerms(head), s[..k]) && s[k] == SLASH && LangSeq(more, s[k + 1..]);
      SegmentLang(head, s[..k]);
      WildFree(head, s[..k]);
      FirstSlash(s, k);
      PatternLang(segments[1..], s[k + 1..]);
      assert path[1..] == Split(s[k + 1..], SLASH);
    }
    if CoversOneLine(segments, path) {
      var k := |path[0]|;
      SegmentLang(head, s[..k]);
      PatternLang(segments[1..], s[k + 1..]);
      assert s[k] == SLASH;
    }
  }

  // -----------------------------------------------------------------------
  // What is promised
  // -----------------------------------------------------------------------

  /** Exactly which texts the compiled expression accepts, for every pattern and every text. */
  lemma CompiledLanguage(pattern: UnitString, path: UnitString)
    ensures Test(GlobText(pattern), path) <==> CoversOneLine(Segments(pattern), Split(path, SLASH))
  {
    CompiledTextReadsBack(pattern);
    SegmentsFree(pattern);
    PatternLang(Segments(pattern), path);
  }

  lemma {:induction false} OneLineCovers(pattern: seq<UnitString>, path: seq<UnitString>)
    requires pattern != [] && path != []
    ensures CoversOneLine(pattern, path) ==> Covers(pattern, path)
    decreases |pattern| + |path|
  {
    if |pattern| > 1 {
      OneLineCovers(pattern[1..], path);
      if |path| > 1 { OneLineCovers(pattern[1..], path[1..]); }
    }
    if |path| > 1 { OneLineCovers(pattern, path[1..]); }
  }

  lemma {:induction false} CoversOnOneLine(pattern: seq<UnitString>, path: seq<UnitString>)
    requires pattern != [] && path != [] && (path == [[]] || [] !in path)
    requires OneLine(Join(path, SLASH)) || pattern[|pattern| - 1] != DOUBLE_STAR
    ensures Covers(pattern, path) ==> CoversOneLine(pattern, path)
    decreases |pattern| + |path|
  {
    if |path| > 1 {
      assert Join(path, SLASH) == path[0] + [SLASH] + Join(path[1..], SLASH);
      CoversOnOneLine(pattern, path[1..]);
    }
    if |pattern| > 1 {
      CoversOnOneLine(pattern[1..], path);
      if |path| > 1 { CoversOnOneLine(pattern[1..], path[1..]); }
    }
  }

  /** Compilation only ever under-matches: what the expression accepts, the glob covers. */
  lemma CompiledIsConservative(pattern: UnitString, path: UnitString)
    requires Test(GlobText(pattern), path)
    ensures Covers(Segments(pattern), Split(path, SLASH))
  {
    CompiledLanguage(pattern, path);
    OneLineCovers(Segments(pattern), Split(path, SLASH));
  }

  /** A pattern that does not end in `**` is compiled exactly, whatever the normalised path holds. */
  lemma CompiledExactlyWithoutFinalStars(pattern: UnitString, path: UnitString)
    requires Normalised(path) && var segments := Segments(pattern); segments[|segments| - 1] != DOUBLE_STAR
    ensures Test(GlobText(pattern), path) <==> Covers(Segments(pattern), Split(path, SLASH))
  {
    CompiledLanguage(pattern, path);
    OneLineCovers(Segments(pattern), Split(path, SLASH));
    CoversOnOneLine(Segments(pattern), Split(path, SLASH));
  }

  /**
   * The paths on which every pattern is compiled exactly are the ones without a line terminator:
   * on any other path the pattern `**` already fails to match what the glob covers.
   */
  lemma CompiledExactlyIffOneLine(path: UnitString)
    requires Normalised(path)
    ensures OneLine(path) <==>
            forall pattern :: Test(GlobText(pattern), path) <==> Covers(Segments(pattern), Split(path, SLASH))
  {
    JoinSplit(path, SLASH);
    if OneLine(path) {
      forall pattern ensures Test(GlobText(pattern), path) <==> Covers(Segments(pattern), Split(path, SLASH)) {
        CompiledLanguage(pattern, path);
        OneLineCovers(Segments(pattern), Split(path, SLASH));
        CoversOnOneLine(Segments(pattern), Split(path, SLASH));
      }
    } else {
      CompiledLanguage(DOUBLE_STAR, path);
      SplitFree(DOUBLE_STAR, SLASH);
      assert !Test(GlobText(DOUBLE_STAR), path);
    }
  }
}
