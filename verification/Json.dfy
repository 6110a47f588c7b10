/**
 * JSON text: what `JSON.stringify` writes and `JSON.parse` reads.
 *
 * Numbers are kept as their text. Text is a sequence of Unicode scalar values, so an escaped lone
 * surrogate, which `JSON.stringify` never writes for such text, is not read.
 */
module Json {
  import opened Prelude
  import Text

  datatype J =
    | Null
    | Bool(value: bool)
    | Num(text: string)
    | Str(s: string)
    | Arr(items: seq<J>)
    | Obj(fields: seq<Field>)

  datatype Field = Field(key: string, value: J)

  // -----------------------------------------------------------------------
  // Numbers
  // -----------------------------------------------------------------------

  predicate IsDigit(c: char) { '0' <= c <= '9' }

  predicate IsNumberChar(c: char) {
    IsDigit(c) || c == '-' || c == '+' || c == '.' || c == 'e' || c == 'E'
  }

  function DropDigits(s: string): string {
    if s != [] && IsDigit(s[0]) then DropDigits(s[1..]) else s
  }

  /** `-? (0 | [1-9][0-9]*) (. [0-9]+)? ([eE] [+-]? [0-9]+)?` */
  predicate IsNumber(s: string) {
    && (forall c :: c in s ==> IsNumberChar(c))
    && var a := if s != [] && s[0] == '-' then s[1..] else s;
       && a != [] && IsDigit(a[0])
       && var b := if a[0] == '0' then a[1..] else DropDigits(a);
          && (b != [] && b[0] == '.' ==> |b| > 1 && IsDigit(b[1]))
          && var c := if b != [] && b[0] == '.' then DropDigits(b[1..]) else b;
             && (c != [] ==>
                   && (c[0] == 'e' || c[0] == 'E')
                   && var d := if |c| > 1 && (c[1] == '+' || c[1] == '-') then c[2..] else c[1..];
                      d != [] && DropDigits(d) == [])
  }

  /** The leading run of characters that can belong to a number. */
  function NumberRun(s: string): (n: nat)
    ensures n <= |s| && (forall i :: 0 <= i < n ==> IsNumberChar(s[i])) && (n < |s| ==> !IsNumberChar(s[n]))
  {
    if s != [] && IsNumberChar(s[0]) then 1 + NumberRun(s[1..]) else 0
  }

  ghost predicate WellFormed(j: J) {
    match j
    case Num(text) => IsNumber(text)
    case Arr(items) => forall i :: 0 <= i < |items| ==> WellFormed(items[i])
    case Obj(fields) => forall i :: 0 <= i < |fields| ==> WellFormed(fields[i].value)
    case _ => true
  }

  // -----------------------------------------------------------------------
  // Writing
  // -----------------------------------------------------------------------

  function HexDigit(n: nat): char
    requires n < 16
  {
    if n < 10 then '0' + (n as char) else 'a' + ((n - 10) as char)
  }

  function EscapeChar(c: char): string {
    if c == '"' then ['\\', '"']
    else if c == '\\' then ['\\', '\\']
    else if c == 8 as char then ['\\', 'b']
    else if c == 12 as char then ['\\', 'f']
    else if c == '\n' then ['\\', 'n']
    else if c == '\r' then ['\\', 'r']
    else if c == '\t' then ['\\', 't']
    else if c < ' ' then ['\\', 'u', '0', '0', HexDigit(c as int / 16), HexDigit(c as int % 16)]
    else [c]
  }

  function Escape(s: string): string {
    if s == [] then [] else EscapeChar(s[0]) + Escape(s[1..])
  }

  function Quote(s: string): string {
    ['"'] + (Escape(s) + ['"'])
  }

  function Print(j: J): string
    decreases j, 0
  {
    match j
    case Null => ['n', 'u', 'l', 'l']
    case Bool(b) => if b then ['t', 'r', 'u', 'e'] else ['f', 'a', 'l', 's', 'e']
    case Num(text) => text
    case Str(s) => Quote(s)
    case Arr(items) => ['['] + PrintItems(items)
    case Obj(fields) => ['{'] + PrintFields(fields)
  }

  /** The items and the closing bracket. */
  function PrintItems(items: seq<J>): string
    decreases items, 1
  {
    if items == [] then [']']
    else if |items| == 1 then Print(items[0]) + [']']
    else Print(items[0]) + ([','] + PrintItems(items[1..]))
  }

  /** The fields and the closing brace. */
  function PrintFields(fields: seq<Field>): string
    decreases fields, 1
  {
    if fields == [] then ['}']
    else if |fields| == 1 then PrintField(fields[0]) + ['}']
    else PrintField(fields[0]) + ([','] + PrintFields(fields[1..]))
  }

  function PrintField(f: Field): string
    decreases f, 0
  {
    Quote(f.key) + ([':'] + Print(f.value))
  }

  // -----------------------------------------------------------------------
  // Reading
  // -----------------------------------------------------------------------

  predicate IsSpace(c: char) { c == ' ' || c == '\t' || c == '\n' || c == '\r' }

  function SkipSpace(s: string): (r: string)
    ensures |r| <= |s| && (r != [] ==> !IsSpace(r[0]))
  {
    if s != [] && IsSpace(s[0]) then SkipSpace(s[1..]) else s
  }

  function HexValue(c: char): Option<nat> {
    if '0' <= c <= '9' then Some(c as int - '0' as int)
    else if 'a' <= c <= 'f' then Some(c as int - 'a' as int + 10)
    else if 'A' <= c <= 'F' then Some(c as int - 'A' as int + 10)
    else None
  }

  /** The character after a backslash, with the number of characters it takes. */
  function ReadEscape(s: string): Option<(char, nat)>
    requires s != []
    ensures ReadEscape(s).Some? ==> 1 <= ReadEscape(s).value.1 <= |s|
  {
    var c := s[0];
    if c == '"' || c == '\\' || c == '/' then Some((c, 1))
    else if c == 'b' then Some((8 as char, 1))
    else if c == 'f' then Some((12 as char, 1))
    else if c == 'n' then Some(('\n', 1))
    else if c == 'r' then Some(('\r', 1))
    else if c == 't' then Some(('\t', 1))
    else if c == 'u' && |s| >= 5 then
      var a, b, d, e := HexValue(s[1]), HexValue(s[2]), HexValue(s[3]), HexValue(s[4]);
      if a.Some? && b.Some? && d.Some? && e.Some? then
        var n := ((a.value * 16 + b.value) * 16 + d.value) * 16 + e.value;
        if n < 0xD800 || 0xE000 <= n < 0x10000 then Some((n as char, 5)) else None
      else None
    else None
  }

  /** The characters of a string literal, past its closing quote. */
  function ReadChars(s: string): (r: Option<(string, string)>)
    ensures r.Some? ==> |r.value.1| < |s|
  {
    if s == [] then None
    else if s[0] == '"' then Some(([], s[1..]))
    else if s[0] == '\\' then
      if |s| == 1 then None
      else
        match ReadEscape(s[1..])
        case None => None
        case Some((c, n)) => Cons(c, ReadChars(s[1 + n..]))
    else if s[0] < ' ' then None
    else Cons(s[0], ReadChars(s[1..]))
  }

  function Cons<T>(head: T, tail: Option<(seq<T>, string)>): Option<(seq<T>, string)> {
    match tail
    case None => None
    case Some((list, rest)) => Some(([head] + list, rest))
  }

  function ReadValue(s: string): (r: Option<(J, string)>)
    ensures r.Some? ==> |r.value.1| < |s|
    decreases |s|, 0
  {
    var t := SkipSpace(s);
    if t == [] then None
    else if t[0] == '{' then ReadObject(t[1..])
    else if t[0] == '[' then ReadArray(t[1..])
    else ReadScalar(t)
  }

  /** A literal, a string or a number. */
  function ReadScalar(t: string): (r: Option<(J, string)>)
    requires t != []
    ensures r.Some? ==> |r.value.1| < |t|
  {
    if t[0] == '"' then
      match ReadChars(t[1..])
      case None => None
      case Some((chars, rest)) => Some((Str(chars), rest))
    else if ['t', 'r', 'u', 'e'] <= t then Some((Bool(true), t[4..]))
    else if ['f', 'a', 'l', 's', 'e'] <= t then Some((Bool(false), t[5..]))
    else if ['n', 'u', 'l', 'l'] <= t then Some((Null, t[4..]))
    else
      var n := NumberRun(t);
      if n > 0 && IsNumber(t[..n]) then Some((Num(t[..n]), t[n..])) else None
  }

  /** What follows an opening brace. */
  function ReadObject(s: string): (r: Option<(J, string)>)
    ensures r.Some? ==> |r.value.1| < |s|
    decreases |s|, 2
  {
    var u := SkipSpace(s);
    if u != [] && u[0] == '}' then Some((Obj([]), u[1..]))
    else
      match ReadFields(s)
      case None => None
      case Some((fields, rest)) => Some((Obj(fields), rest))
  }

  /** What follows an opening bracket. */
  function ReadArray(s: string): (r: Option<(J, string)>)
    ensures r.Some? ==> |r.value.1| < |s|
    decreases |s|, 2
  {
    var u := SkipSpace(s);
    if u != [] && u[0] == ']' then Some((Arr([]), u[1..]))
    else
      match ReadItems(s)
      case None => None
      case Some((items, rest)) => Some((Arr(items), rest))
  }

  function ReadItems(s: string): (r: Option<(seq<J>, string)>)
    ensures r.Some? ==> |r.value.1| < |s|
    decreases |s|, 1
  {
    match ReadValue(s)
    case None => None
    case Some((item, rest)) =>
      var t := SkipSpace(rest);
      if t == [] then None
      else if t[0] == ']' then Some(([item], t[1..]))
      else if t[0] == ',' then Cons(item, ReadItems(t[1..]))
      else None
  }

  function ReadFields(s: string): (r: Option<(seq<Field>, string)>)
    ensures r.Some? ==> |r.value.1| < |s|
    decreases |s|, 1
  {
    match ReadKey(s)
    case None => None
    case Some((key, afterKey)) =>
      match ReadValue(afterKey)
      case None => None
      case Some((value, rest)) =>
        var t := SkipSpace(rest);
        if t == [] then None
        else if t[0] == '}' then Some(([Field(key, value)], t[1..]))
        else if t[0] == ',' then Cons(Field(key, value), ReadFields(t[1..]))
        else None
  }

  /** A key and its colon. */
  function ReadKey(s: string): (r: Option<(string, string)>)
    ensures r.Some? ==> |r.value.1| < |s|
  {
    var t := SkipSpace(s);
    if t == [] || t[0] != '"' then None
    else
      match ReadChars(t[1..])
      case None => None
      case Some((key, rest)) =>
        var u := SkipSpace(rest);
        if u != [] && u[0] == ':' then Some((key, u[1..])) else None
  }

  /** `JSON.parse`: one value and nothing but white space around it. */
  function Parse(s: string): Option<J> {
    match ReadValue(s)
    case None => None
    case Some((j, rest)) => if SkipSpace(rest) == [] then Some(j) else None
  }

  // -----------------------------------------------------------------------
  // Reading what was written
  // -----------------------------------------------------------------------

  lemma HexReads(n: nat)
    requires n < 16
    ensures HexValue(HexDigit(n)) == Some(n)
  {}

  /** Six characters: a control character by its number. */
  lemma ReadControl(t: string, c: char)
    requires |t| >= 5 && c < ' '
    requires t[0] == 'u' && t[1] == '0' && t[2] == '0' && t[3] == HexDigit(c as int / 16)
             && t[4] == HexDigit(c as int % 16)
    ensures ReadEscape(t) == Some((c, 5))
  {
    HexReads(c as int / 16);
    HexReads(c as int % 16);
    HexReads(0);
  }

  /** Two characters: a backslash and a letter or a mark. */
  lemma ReadShort(t: string, c: char)
    requires t != [] && |EscapeChar(c)| == 2 && t[0] == EscapeChar(c)[1]
    ensures ReadEscape(t) == Some((c, 1))
  {}

  /** After a backslash, reading goes on behind the escape. */
  lemma ReadBehind(s: string, c: char, n: nat)
    requires |s| > 1 && s[0] == '\\' && ReadEscape(s[1..]) == Some((c, n))
    ensures 1 + n <= |s| && ReadChars(s) == Cons(c, ReadChars(s[1 + n..]))
  {}

  lemma ReadEscaped(c: char, rest: string)
    ensures ReadChars(EscapeChar(c) + rest) == Cons(c, ReadChars(rest))
  {
    var e := EscapeChar(c);
    assert (e + rest)[|e|..] == rest;
    if |e| == 6 {
      ReadEscapedControl(c, e + rest);
    } else if |e| == 2 {
      ReadEscapedShort(c, e + rest);
    } else {
      assert (e + rest)[0] == c;
    }
  }

  lemma ReadEscapedControl(c: char, s: string)
    requires |EscapeChar(c)| == 6 && EscapeChar(c) <= s
    ensures ReadChars(s) == Cons(c, ReadChars(s[6..]))
  {
    assert forall i :: 0 <= i < 5 ==> s[1..][i] == EscapeChar(c)[i + 1];
    ReadControl(s[1..], c);
    ReadBehind(s, c, 5);
  }

  lemma ReadEscapedShort(c: char, s: string)
    requires |EscapeChar(c)| == 2 && EscapeChar(c) <= s
    ensures ReadChars(s) == Cons(c, ReadChars(s[2..]))
  {
    assert s[1..][0] == EscapeChar(c)[1];
    ReadShort(s[1..], c);
    ReadBehind(s, c, 1);
  }

  lemma {:induction false} ReadEscapedText(s: string, rest: string)
    ensures ReadChars(Escape(s) + (['"'] + rest)) == Some((s, rest))
  {
    var end := ['"'] + rest;
    if s == [] {
      assert Escape(s) + end == end && end[1..] == rest;
    } else {
      ReadEscapedText(s[1..], rest);
      ReadEscaped(s[0], Escape(s[1..]) + end);
      Text.Grouped(EscapeChar(s[0]), Escape(s[1..]), end);
      assert [s[0]] + s[1..] == s;
    }
  }

  lemma QuoteSplits(s: string, rest: string)
    ensures Quote(s) + rest == ['"'] + (Escape(s) + (['"'] + rest))
  {}

  lemma ReadQuoted(s: string, rest: string)
    ensures ReadValue(Quote(s) + rest) == Some((Str(s), rest))
  {
    QuoteSplits(s, rest);
    ReadEscapedText(s, rest);
    var t := Quote(s) + rest;
    assert t[1..] == Escape(s) + (['"'] + rest);
  }

  lemma ReadQuotedKey(s: string, rest: string)
    ensures ReadKey(Quote(s) + ([':'] + rest)) == Some((s, rest))
  {
    QuoteSplits(s, [':'] + rest);
    ReadEscapedText(s, [':'] + rest);
    var t := Quote(s) + ([':'] + rest);
    assert t[1..] == Escape(s) + (['"'] + ([':'] + rest));
    assert ([':'] + rest)[1..] == rest;
  }

  lemma {:induction false} RunOf(text: string, rest: string)
    requires (forall c :: c in text ==> IsNumberChar(c)) && Ends(rest)
    ensures NumberRun(text + rest) == |text|
  {
    if text == [] {
      assert text + rest == rest;
    } else {
      RunOf(text[1..], rest);
      assert (text + rest)[1..] == text[1..] + rest;
    }
  }

  lemma NumberStarts(text: string)
    requires IsNumber(text)
    ensures text != [] && IsNumberChar(text[0]) && forall c :: c in text ==> IsNumberChar(c)
  {
    assert text[0] in text;
  }

  lemma ReadNumberText(text: string, rest: string)
    requires IsNumber(text) && Ends(rest)
    ensures ReadValue(text + rest) == Some((Num(text), rest))
  {
    NumberStarts(text);
    RunOf(text, rest);
    ReadRun(text + rest, |text|);
    assert (text + rest)[..|text|] == text && (text + rest)[|text|..] == rest;
  }

  /** A text that opens with a number character is read as a number, or not at all. */
  lemma ReadRun(s: string, n: nat)
    requires s != [] && IsNumberChar(s[0]) && n == NumberRun(s) && n > 0 && IsNumber(s[..n])
    ensures ReadValue(s) == Some((Num(s[..n]), s[n..]))
  {
    ScalarRun(s, n);
    assert SkipSpace(s) == s && s[0] != '{' && s[0] != '[';
  }

  lemma ScalarRun(s: string, n: nat)
    requires s != [] && IsNumberChar(s[0]) && n == NumberRun(s) && n > 0 && IsNumber(s[..n])
    ensures ReadScalar(s) == Some((Num(s[..n]), s[n..]))
  {
    assert s[0] != '"' && s[0] != 't' && s[0] != 'f' && s[0] != 'n';
  }

  /** The rest of the text does not continue a number. */
  predicate Ends(rest: string) {
    rest == [] || !IsNumberChar(rest[0])
  }

  /** A printed value starts with none of the characters that would be skipped or close a list. */
  lemma PrintStarts(j: J)
    requires WellFormed(j)
    ensures Print(j) != [] && !IsSpace(Print(j)[0]) && Print(j)[0] != ']' && Print(j)[0] != '}'
  {
    if j.Num? { assert j.text[0] in j.text; }
  }

  lemma ReadKeyword(j: J, rest: string)
    requires j.Null? || j.Bool?
    ensures ReadValue(Print(j) + rest) == Some((j, rest))
  {
    var s, word := Print(j) + rest, Print(j);
    assert s[0] == word[0] && s[|word|..] == rest && word <= s;
  }

  lemma {:induction false} ReadPrinted(j: J, rest: string)
    requires WellFormed(j) && Ends(rest)
    ensures ReadValue(Print(j) + rest) == Some((j, rest))
    decreases j, 0
  {
    match j {
      case Null => ReadKeyword(j, rest);
      case Bool(b) => ReadKeyword(j, rest);
      case Num(text) => ReadNumberText(text, rest);
      case Str(t) => ReadQuoted(t, rest);
      case Arr(items) =>
        ReadPrintedItems(items, rest);
        ReadPrintedList('[', PrintItems(items), rest);
      case Obj(fields) =>
        ReadPrintedFields(fields, rest);
        ReadPrintedList('{', PrintFields(fields), rest);
    }
  }

  lemma ReadPrintedList(open: char, inner: string, rest: string)
    requires open == '[' || open == '{'
    ensures ReadValue(([open] + inner) + rest) == if open == '[' then ReadArray(inner + rest)
            else ReadObject(inner + rest)
  {
    Text.Grouped([open], inner, rest);
    ReadOpened(open, inner + rest);
  }

  lemma ReadOpened(open: char, s: string)
    requires open == '[' || open == '{'
    ensures ReadValue([open] + s) == if open == '[' then ReadArray(s) else ReadObject(s)
  {
    var t := [open] + s;
    assert SkipSpace(t) == t && t[1..] == s;
  }

  lemma ItemsReadAs(s: string, item: J, tail: string)
    requires ReadValue(s) == Some((item, tail)) && tail != [] && !IsSpace(tail[0])
    ensures tail[0] == ']' ==> ReadItems(s) == Some(([item], tail[1..]))
    ensures tail[0] == ',' ==> ReadItems(s) == Cons(item, ReadItems(tail[1..]))
  {}

  lemma ArrayOf(s: string, items: seq<J>, rest: string)
    requires s != [] && !IsSpace(s[0]) && s[0] != ']' && ReadItems(s) == Some((items, rest))
    ensures ReadArray(s) == Some((Arr(items), rest))
  {}

  lemma {:induction false} ReadPrintedItems(items: seq<J>, rest: string)
    requires forall i :: 0 <= i < |items| ==> WellFormed(items[i])
    ensures items != [] ==> ReadItems(PrintItems(items) + rest) == Some((items, rest))
    ensures ReadArray(PrintItems(items) + rest) == Some((Arr(items), rest))
    decreases items, 1
  {
    var s := PrintItems(items) + rest;
    if items == [] {
      assert s == [']'] + rest && s[1..] == rest;
    } else {
      var more := items[1..];
      var tail := if more == [] then [']'] + rest else [','] + (PrintItems(more) + rest);
      assert s == Print(items[0]) + tail;
      ReadPrinted(items[0], tail);
      ItemsReadAs(s, items[0], tail);
      assert [items[0]] + more == items;
      if more == [] {
        assert tail[1..] == rest && [items[0]] == items;
      } else {
        ReadPrintedItems(more, rest);
        assert tail[1..] == PrintItems(more) + rest;
      }
      PrintStarts(items[0]);
      assert s[0] == Print(items[0])[0];
      assert ReadItems(s) == Some((items, rest));
      ArrayOf(s, items, rest);
    }
  }

  lemma FieldsReadAs(s: string, f: Field, behind: string, tail: string)
    requires ReadKey(s) == Some((f.key, behind)) && ReadValue(behind) == Some((f.value, tail))
    requires tail != [] && !IsSpace(tail[0])
    ensures tail[0] == '}' ==> ReadFields(s) == Some(([f], tail[1..]))
    ensures tail[0] == ',' ==> ReadFields(s) == Cons(f, ReadFields(tail[1..]))
  {}

  lemma ObjectOf(s: string, fields: seq<Field>, rest: string)
    requires s != [] && !IsSpace(s[0]) && s[0] != '}' && ReadFields(s) == Some((fields, rest))
    ensures ReadObject(s) == Some((Obj(fields), rest))
  {}

  lemma {:induction false} ReadPrintedFields(fields: seq<Field>, rest: string)
    requires forall i :: 0 <= i < |fields| ==> WellFormed(fields[i].value)
    ensures fields != [] ==> ReadFields(PrintFields(fields) + rest) == Some((fields, rest))
    ensures ReadObject(PrintFields(fields) + rest) == Some((Obj(fields), rest))
    decreases fields, 1
  {
    var s := PrintFields(fields) + rest;
    if fields == [] {
      assert s == ['}'] + rest && s[1..] == rest;
    } else {
      var f, more := fields[0], fields[1..];
      var tail := if more == [] then ['}'] + rest else [','] + (PrintFields(more) + rest);
      assert s == PrintField(f) + tail by {
        Text.Grouped(PrintField(f), [','] + PrintFields(more), rest);
        Text.Grouped([','], PrintFields(more), rest);
        Text.Grouped(PrintField(f), ['}'], rest);
      }
      ReadPrintedField(f, tail);
      FieldsReadAs(s, f, Print(f.value) + tail, tail);
      assert [f] + more == fields;
      if more == [] {
        assert tail[1..] == rest && [f] == fields;
      } else {
        ReadPrintedFields(more, rest);
        assert tail[1..] == PrintFields(more) + rest;
      }
      assert ReadFields(s) == Some((fields, rest));
      ObjectOf(s, fields, rest);
    }
  }

  lemma {:induction false} ReadPrintedField(f: Field, tail: string)
    requires WellFormed(f.value) && Ends(tail)
    ensures ReadKey(PrintField(f) + tail) == Some((f.key, Print(f.value) + tail))
    ensures ReadValue(Print(f.value) + tail) == Some((f.value, tail))
    ensures (PrintField(f) + tail)[0] == '"'
    decreases f, 0
  {
    Text.Grouped(Quote(f.key), [':'] + Print(f.value), tail);
    Text.Grouped([':'], Print(f.value), tail);
    ReadQuotedKey(f.key, Print(f.value) + tail);
    ReadPrinted(f.value, tail);
  }

  /** `JSON.parse(JSON.stringify(j))` is `j`. */
  lemma ParsePrint(j: J)
    requires WellFormed(j)
    ensures Parse(Print(j)) == Some(j)
  {
    ReadPrinted(j, []);
    assert Print(j) + [] == Print(j);
  }

  // -----------------------------------------------------------------------
  // Longer text
  // -----------------------------------------------------------------------

  /** The reader looks no further than it has to: more text after a value is left over. */
  ghost predicate Extends<T(!new)>(short: Option<(T, string)>, long: Option<(T, string)>, more: string) {
    short.Some? ==> long == Some((short.value.0, short.value.1 + more))
  }

  lemma {:induction false} SkipSpaceExtends(s: string, more: string)
    ensures SkipSpace(s) != [] ==> SkipSpace(s + more) == SkipSpace(s) + more
  {
    if s != [] && IsSpace(s[0]) {
      SkipSpaceExtends(s[1..], more);
      assert (s + more)[1..] == s[1..] + more;
    }
  }

  lemma DropOfLonger(s: string, n: nat, more: string)
    requires n <= |s|
    ensures (s + more)[n..] == s[n..] + more && (n < |s| ==> (s + more)[n] == s[n])
  {}

  lemma ReadEscapeExtends(t: string, more: string)
    requires t != [] && ReadEscape(t).Some?
    ensures ReadEscape(t + more) == ReadEscape(t)
  {
    assert forall i :: 0 <= i < |t| ==> (t + more)[i] == t[i];
  }

  lemma {:induction false} ReadCharsExtends(s: string, more: string)
    ensures Extends(ReadChars(s), ReadChars(s + more), more)
    decreases |s|
  {
    if s != [] {
      DropOfLonger(s, 0, more);
      DropOfLonger(s, 1, more);
      if s[0] == '\\' && |s| > 1 {
        var e := ReadEscape(s[1..]);
        if e.Some? {
          ReadEscapeExtends(s[1..], more);
          var n := e.value.1;
          ReadCharsExtends(s[1 + n..], more);
          DropOfLonger(s, 1 + n, more);
        }
      } else {
        ReadCharsExtends(s[1..], more);
      }
    }
  }

  lemma {:induction false} NumberRunExtends(s: string, more: string)
    requires NumberRun(s) < |s|
    ensures NumberRun(s + more) == NumberRun(s)
  {
    if IsNumberChar(s[0]) {
      NumberRunExtends(s[1..], more);
      assert (s + more)[1..] == s[1..] + more;
    }
  }

  lemma PrefixExtends(word: string, t: string, more: string)
    requires word <= t
    ensures word <= t + more && (t + more)[|word|..] == t[|word|..] + more
  {}

  lemma NumberExtends(t: string, more: string)
    requires t != [] && ReadScalar(t).Some? && ReadScalar(t).value.0.Num? && ReadScalar(t).value.1 != []
    ensures Extends(ReadScalar(t), ReadScalar(t + more), more)
  {
    var n := NumberRun(t);
    assert IsNumberChar(t[0]) && (t + more)[0] == t[0];
    NumberRunExtends(t, more);
    assert (t + more)[..n] == t[..n] && (t + more)[n..] == t[n..] + more;
  }

  lemma KeywordExtends(t: string, more: string)
    requires t != [] && ReadScalar(t).Some? && (ReadScalar(t).value.0.Bool? || ReadScalar(t).value.0.Null?)
    ensures Extends(ReadScalar(t), ReadScalar(t + more), more)
  {
    assert (t + more)[0] == t[0];
    if ['t', 'r', 'u', 'e'] <= t {
      PrefixExtends(['t', 'r', 'u', 'e'], t, more);
    } else if ['f', 'a', 'l', 's', 'e'] <= t {
      PrefixExtends(['f', 'a', 'l', 's', 'e'], t, more);
    } else {
      PrefixExtends(['n', 'u', 'l', 'l'], t, more);
    }
  }

  lemma ReadScalarExtends(t: string, more: string)
    requires t != [] && (ReadScalar(t).Some? ==> ReadScalar(t).value.1 != [] || !ReadScalar(t).value.0.Num?)
    ensures Extends(ReadScalar(t), ReadScalar(t + more), more)
  {
    if t[0] == '"' {
      ReadCharsExtends(t[1..], more);
      assert (t + more)[1..] == t[1..] + more;
    } else if ReadScalar(t).Some? {
      if ReadScalar(t).value.0.Num? {
        NumberExtends(t, more);
      } else {
        KeywordExtends(t, more);
      }
    }
  }

  lemma {:induction false} ReadValueExtends(s: string, more: string)
    requires ReadValue(s).Some? ==> ReadValue(s).value.1 != [] || !ReadValue(s).value.0.Num?
    ensures Extends(ReadValue(s), ReadValue(s + more), more)
    decreases |s|, 0
  {
    var t := SkipSpace(s);
    SkipSpaceExtends(s, more);
    if t != [] {
      assert (t + more)[1..] == t[1..] + more;
      if t[0] == '{' {
        ReadObjectExtends(t[1..], more);
      } else if t[0] == '[' {
        ReadArrayExtends(t[1..], more);
      } else {
        ReadScalarExtends(t, more);
      }
    }
  }

  lemma {:induction false} ReadObjectExtends(s: string, more: string)
    ensures Extends(ReadObject(s), ReadObject(s + more), more)
    decreases |s|, 2
  {
    var u := SkipSpace(s);
    SkipSpaceExtends(s, more);
    ReadFieldsExtends(s, more);
    if u != [] {
      assert (u + more)[1..] == u[1..] + more;
    }
  }

  lemma {:induction false} ReadArrayExtends(s: string, more: string)
    ensures Extends(ReadArray(s), ReadArray(s + more), more)
    decreases |s|, 2
  {
    var u := SkipSpace(s);
    SkipSpaceExtends(s, more);
    ReadItemsExtends(s, more);
    if u != [] {
      assert (u + more)[1..] == u[1..] + more;
    } else {
      assert ReadValue(s) == None;
    }
  }

  lemma {:induction false} ReadItemsExtends(s: string, more: string)
    ensures Extends(ReadItems(s), ReadItems(s + more), more)
    decreases |s|, 1
  {
    if ReadItems(s).Some? {
      ReadValueExtends(s, more);
      var rest := ReadValue(s).value.1;
      SkipSpaceExtends(rest, more);
      var t := SkipSpace(rest);
      assert (t + more)[1..] == t[1..] + more;
      ReadItemsExtends(t[1..], more);
    }
  }

  lemma {:induction false} ReadFieldsExtends(s: string, more: string)
    ensures Extends(ReadFields(s), ReadFields(s + more), more)
    decreases |s|, 1
  {
    if ReadFields(s).Some? {
      ReadKeyExtends(s, more);
      var afterKey := ReadKey(s).value.1;
      ReadValueExtends(afterKey, more);
      var rest := ReadValue(afterKey).value.1;
      SkipSpaceExtends(rest, more);
      var t := SkipSpace(rest);
      assert (t + more)[1..] == t[1..] + more;
      ReadFieldsExtends(t[1..], more);
    }
  }

  lemma ReadKeyExtends(s: string, more: string)
    ensures Extends(ReadKey(s), ReadKey(s + more), more)
  {
    if ReadKey(s).Some? {
      var t := SkipSpace(s);
      SkipSpaceExtends(s, more);
      ReadCharsExtends(t[1..], more);
      assert (t + more)[1..] == t[1..] + more;
      var rest := ReadChars(t[1..]).value.1;
      SkipSpaceExtends(rest, more);
      var u := SkipSpace(rest);
      assert (u + more)[1..] == u[1..] + more;
    }
  }

  /** No proper prefix of the text of an object is itself JSON text. */
  lemma NoPrefixParses(j: J, n: nat)
    requires WellFormed(j) && j.Obj? && n < |Print(j)|
    ensures Parse(Print(j)[..n]) == None
  {
    var text := Print(j);
    var cut, more := text[..n], text[n..];
    assert cut + more == text && text + [] == text;
    ReadPrinted(j, []);
    if n > 0 {
      assert cut == ['{'] + cut[1..];
      ReadOpened('{', cut[1..]);
      ReadValueExtends(cut, more);
    }
  }

  lemma {:induction false} PrintOnOneLine(j: J)
    requires WellFormed(j)
    ensures '\n' !in Print(j)
    decreases j, 0
  {
    match j {
      case Null =>
      case Bool(b) =>
      case Num(text) => NumberStarts(text);
      case Str(s) => QuoteOnOneLine(s);
      case Arr(items) => ItemsOnOneLine(items);
      case Obj(fields) => FieldsOnOneLine(fields);
    }
  }

  lemma {:induction false} EscapeOnOneLine(s: string)
    ensures '\n' !in Escape(s)
  {
    if s != [] {
      EscapeOnOneLine(s[1..]);
      assert '\n' !in EscapeChar(s[0]);
    }
  }

  lemma QuoteOnOneLine(s: string)
    ensures '\n' !in Quote(s)
  {
    EscapeOnOneLine(s);
  }

  lemma {:induction false} ItemsOnOneLine(items: seq<J>)
    requires forall i :: 0 <= i < |items| ==> WellFormed(items[i])
    ensures '\n' !in PrintItems(items)
    decreases items, 1
  {
    if items != [] {
      PrintOnOneLine(items[0]);
      ItemsOnOneLine(items[1..]);
    }
  }

  lemma {:induction false} FieldsOnOneLine(fields: seq<Field>)
    requires forall i :: 0 <= i < |fields| ==> WellFormed(fields[i].value)
    ensures '\n' !in PrintFields(fields)
    decreases fields, 1
  {
    if fields != [] {
      FieldOnOneLine(fields[0]);
      FieldsOnOneLine(fields[1..]);
    }
  }

  lemma {:induction false} FieldOnOneLine(f: Field)
    requires WellFormed(f.value)
    ensures '\n' !in PrintField(f)
    decreases f, 0
  {
    QuoteOnOneLine(f.key);
    PrintOnOneLine(f.value);
  }

  // -----------------------------------------------------------------------
  // Properties of objects
  // -----------------------------------------------------------------------

  /** The value of a property: the last one given wins, as in `JSON.parse`. */
  function Lookup(fields: seq<Field>, key: string): Option<J> {
    if fields == [] then None
    else
      var last := fields[|fields| - 1];
      if last.key == key then Some(last.value) else Lookup(fields[..|fields| - 1], key)
  }

  /** All the other properties, as `delete` leaves them. */
  function Without(fields: seq<Field>, key: string): seq<Field> {
    if fields == [] then []
    else if fields[0].key == key then Without(fields[1..], key)
    else [fields[0]] + Without(fields[1..], key)
  }

  lemma {:induction false} AbsentIsNotFound(fields: seq<Field>, key: string)
    requires forall i :: 0 <= i < |fields| ==> fields[i].key != key
    ensures Lookup(fields, key).None?
  {
    if fields != [] {
      AbsentIsNotFound(fields[..|fields| - 1], key);
    }
  }
}
