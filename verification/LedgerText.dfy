/**
 * The ledger as text: newline-terminated JSON, one event a line, and what can be recovered from any
 * cut of it (src/ledger.ts).
 */
module LedgerText {
  import opened Prelude
  import opened Text
  import opened Json
  import opened Ledger

  // -----------------------------------------------------------------------
  // Writing and reading
  // -----------------------------------------------------------------------

  function Lines(values: seq<J>): (lines: seq<string>)
    ensures |lines| == |values| && forall i :: 0 <= i < |lines| ==> lines[i] == Print(values[i])
  {
    seq(|values|, i requires 0 <= i < |values| => Print(values[i]))
  }

  /** `serializeLedger`, on the JSON values of the events. */
  function Serialize(values: seq<J>): string {
    Join(Lines(values), '\n') + ['\n']
  }

  /** What `String.prototype.trim` removes. */
  predicate IsTrimmed(c: char) {
    || '\t' <= c <= '\r' || c == ' ' || c == '\U{A0}' || c == '\U{1680}' || '\U{2000}' <= c <= '\U{200A}'
    || c == '\U{2028}' || c == '\U{2029}' || c == '\U{202F}' || c == '\U{205F}' || c == '\U{3000}' || c == '\U{FEFF}'
  }

  predicate IsBlank(line: string) {
    forall c :: c in line ==> IsTrimmed(c)
  }

  /** White space of JSON (section 2 of RFC 8259) is blank, and nothing that a value can begin with is. */
  lemma BlankIsWhiteSpace(c: char)
    ensures c in [' ', '\t', '\n', '\r'] ==> IsBlank([c])
    ensures '!' <= c <= '~' ==> !IsBlank([c])
  {
    assert c in [c] && forall d :: d in [c] ==> d == c;
  }

  /** Without the empty lines at the end. */
  function DropEmptyTail(lines: seq<string>): (r: seq<string>)
    ensures r <= lines && (r != [] ==> r[|r| - 1] != [])
  {
    if lines != [] && lines[|lines| - 1] == [] then DropEmptyTail(lines[..|lines| - 1]) else lines
  }

  /** A line that is neither blank nor JSON. */
  predicate IsCorrupt(line: string) {
    !IsBlank(line) && Parse(line).None?
  }

  /** The values on the first `n` lines, in order. */
  function ValuesOf(lines: seq<string>, n: nat): seq<J>
    requires n <= |lines|
  {
    if n == 0 then []
    else
      ValuesOf(lines, n - 1) +
      if !IsBlank(lines[n - 1]) && Parse(lines[n - 1]).Some? then [Parse(lines[n - 1]).value] else []
  }

  /** The 1-based numbers of the corrupt lines among the first `n`. */
  function CorruptOf(lines: seq<string>, n: nat): seq<nat>
    requires n <= |lines|
  {
    if n == 0 then [] else CorruptOf(lines, n - 1) + if IsCorrupt(lines[n - 1]) then [n] else []
  }

  datatype Parsed = Parsed(events: seq<J>, partialFinalLineDropped: bool, corruptLines: seq<nat>)

  /** What parsing a list of lines yields: only the last line may be a partial write. */
  function ParsedOf(lines: seq<string>): Parsed {
    if lines == [] then Parsed([], false, [])
    else Parsed(ValuesOf(lines, |lines|), IsCorrupt(lines[|lines| - 1]), CorruptOf(lines, |lines| - 1))
  }

  function LinesOf(text: string): seq<string> {
    DropEmptyTail(Split(text, '\n'))
  }

  /** The lines without the empty ones at the end. */
  method ReadLines(text: string) returns (lines: seq<string>)
    ensures lines == LinesOf(text)
  {
    lines := Split(text, '\n');
    while |lines| > 0 && lines[|lines| - 1] == []
      invariant DropEmptyTail(lines) == LinesOf(text)
    {
      lines := lines[..|lines| - 1];
    }
  }

  method ParseLedgerText(text: string) returns (r: Parsed)
    ensures r == ParsedOf(LinesOf(text))
  {
    var lines := ReadLines(text);
    var events: seq<J>, corruptLines: seq<nat>, partialFinalLineDropped := [], [], false;
    for idx := 0 to |lines|
      invariant events == ValuesOf(lines, idx)
      invariant corruptLines == CorruptOf(lines, if idx == |lines| > 0 then idx - 1 else idx)
      invariant partialFinalLineDropped <==> idx == |lines| > 0 && IsCorrupt(lines[idx - 1])
    {
      var line := lines[idx];
      if IsBlank(line) { continue; }
      var parsed := Parse(line);
      match parsed {
        case Some(value) => events := events + [value];
        case None =>
          if idx == |lines| - 1 { partialFinalLineDropped := true; } else { corruptLines := corruptLines + [idx + 1]; }
      }
    }
    r := Parsed(events, partialFinalLineDropped, corruptLines);
  }

  lemma {:induction false} CorruptNumbers(lines: seq<string>, k: nat, n: nat)
    requires k <= |lines|
    ensures n in CorruptOf(lines, k) <==> 1 <= n <= k && IsCorrupt(lines[n - 1])
  {
    if k > 0 {
      CorruptNumbers(lines, k - 1, n);
    }
  }

  function Blanks(lines: seq<string>, n: nat): nat
    requires n <= |lines|
  {
    if n == 0 then 0 else Blanks(lines, n - 1) + if IsBlank(lines[n - 1]) then 1 else 0
  }

  lemma OneMoreAccounted(events: seq<J>, corrupt: seq<nat>, blanks: nat, n: nat, blank: bool, read: Option<J>)
    requires |events| + |corrupt| + blanks == n
    ensures |events + if !blank && read.Some? then [read.value] else []|
            + |corrupt + if !blank && read.None? then [n + 1] else []| + (blanks + if blank then 1 else 0) == n + 1
  {}

  lemma {:induction false} Accounted(lines: seq<string>, n: nat)
    requires n <= |lines|
    ensures |ValuesOf(lines, n)| + |CorruptOf(lines, n)| + Blanks(lines, n) == n
  {
    if n > 0 {
      var line := lines[n - 1];
      Accounted(lines, n - 1);
      OneMoreAccounted(ValuesOf(lines, n - 1), CorruptOf(lines, n - 1), Blanks(lines, n - 1), n - 1, IsBlank(line),
                       Parse(line));
    }
  }

  /**
   * Every line is an event, a corrupt line under its 1-based number, the partial last line, or blank. A corrupt
   * line is partial exactly when it is the last.
   */
  lemma EveryLineIsAccountedFor(lines: seq<string>, n: nat)
    ensures var r := ParsedOf(lines);
      var dropped := if r.partialFinalLineDropped then 1 else 0;
      && |r.events| + |r.corruptLines| + dropped + Blanks(lines, |lines|) == |lines|
      && (n in r.corruptLines <==> 1 <= n < |lines| && IsCorrupt(lines[n - 1]))
      && (r.partialFinalLineDropped <==> lines != [] && IsCorrupt(lines[|lines| - 1]))
  {
    Accounted(lines, |lines|);
    if lines != [] {
      CorruptNumbers(lines, |lines| - 1, n);
    }
  }

  // -----------------------------------------------------------------------
  // Cutting the text
  // -----------------------------------------------------------------------

  ghost predicate Objects(values: seq<J>) {
    forall i :: 0 <= i < |values| ==> WellFormed(values[i]) && values[i].Obj?
  }

  /** Where line `i` starts; `Starts(values, |values|)` is the length of a ledger with events. */
  function Starts(values: seq<J>, i: nat): nat
    requires i <= |values|
  {
    if i == 0 then 0 else Starts(values, i - 1) + |Print(values[i - 1])| + 1
  }

  /** A cut of `n` characters keeps `k` whole lines and the first `rest` characters of the next. */
  ghost predicate Keeps(values: seq<J>, n: nat, k: nat, rest: nat) {
    && k <= |values| && n == Starts(values, k) + rest
    && (if k < |values| then rest <= |Print(values[k])| else rest == 0)
  }

  /** The text of the kept lines and of the part that is left of the next. */
  function Kept(values: seq<J>, k: nat, rest: nat): seq<string>
    requires k <= |values| && (k < |values| ==> rest <= |Print(values[k])|)
  {
    Lines(values[..k]) + [if k < |values| then Print(values[k])[..rest] else []]
  }

  lemma {:induction false} CutExists(values: seq<J>, n: nat)
    requires values != [] && n <= |Serialize(values)|
    ensures exists k, rest :: Keeps(values, n, k, rest)
  {
    SerializeLength(values);
    var k := 0;
    while k < |values| && n > Starts(values, k) + |Print(values[k])|
      invariant k <= |values| && Starts(values, k) <= n
    {
      k := k + 1;
    }
    assert Keeps(values, n, k, n - Starts(values, k));
  }

  lemma {:induction false} StartsShift(values: seq<J>, i: nat)
    requires 0 < i <= |values|
    ensures Starts(values, i) == |Print(values[0])| + 1 + Starts(values[1..], i - 1)
  {
    if i > 1 {
      StartsShift(values, i - 1);
    }
  }

  lemma SerializeTail(values: seq<J>)
    requires values != []
    ensures Serialize(values) == Print(values[0]) + ['\n'] + if |values| == 1 then [] else Serialize(values[1..])
  {
    assert Lines(values)[1..] == Lines(values[1..]);
    assert Lines(values)[0] == Print(values[0]);
  }

  lemma {:induction false} SerializeLength(values: seq<J>)
    requires values != []
    ensures |Serialize(values)| == Starts(values, |values|)
  {
    SerializeTail(values);
    StartsShift(values, |values|);
    if |values| > 1 {
      SerializeLength(values[1..]);
    }
  }

  lemma KeptTail(values: seq<J>, k: nat, rest: nat)
    requires 0 < k <= |values| && (k < |values| ==> rest <= |Print(values[k])|)
    ensures |values| == 1 ==> Kept(values, k, rest) == [Print(values[0]), []]
    ensures |values| > 1 ==> Kept(values, k, rest) == [Print(values[0])] + Kept(values[1..], k - 1, rest)
  {
    assert values[1..][..k - 1] == values[1..k];
    assert Lines(values[..k]) == [Print(values[0])] + Lines(values[1..k]);
  }

  lemma FirstLineCut(text: string, line: string, more: string, m: nat)
    requires text == line + ['\n'] + more && m <= |more| && '\n' !in line
    ensures Split(text[..|line| + 1 + m], '\n') == [line] + Split(more[..m], '\n')
  {
    assert text[..|line| + 1 + m] == line + ['\n'] + more[..m];
    SplitHead(line, more[..m], '\n');
  }

  lemma FirstLinePart(values: seq<J>, rest: nat)
    requires values != [] && Objects(values) && rest <= |Print(values[0])|
    ensures rest <= |Serialize(values)| && Split(Serialize(values)[..rest], '\n') == Kept(values, 0, rest)
  {
    SerializeTail(values);
    PrintOnOneLine(values[0]);
    var part := Print(values[0])[..rest];
    assert Serialize(values)[..rest] == part && '\n' !in part;
    SplitFree(part, '\n');
    assert Kept(values, 0, rest) == [part];
  }

  /** The lines of a cut are the whole lines before it and the part of the line that it falls in. */
  lemma {:induction false} CutLines(values: seq<J>, n: nat, k: nat, rest: nat)
    requires values != [] && Objects(values) && Keeps(values, n, k, rest)
    ensures n <= |Serialize(values)|
    ensures Split(Serialize(values)[..n], '\n') == Kept(values, k, rest)
  {
    if k == 0 {
      FirstLinePart(values, rest);
    } else {
      var m := TailKeeps(values, n, k, rest);
      KeptTail(values, k, rest);
      if |values| == 1 {
        LaterLines(values, n, [], 0);
        SplitEmpty();
      } else {
        CutLines(values[1..], m, k - 1, rest);
        LaterLines(values, n, Serialize(values[1..]), m);
      }
    }
  }

  /** Behind the first line the cut is a cut of the other lines. */
  lemma TailKeeps(values: seq<J>, n: nat, k: nat, rest: nat) returns (m: nat)
    requires values != [] && Objects(values) && Keeps(values, n, k, rest) && k > 0
    ensures n == |Print(values[0])| + 1 + m && Objects(values[1..]) && Keeps(values[1..], m, k - 1, rest)
    ensures |values| == 1 ==> m == 0
  {
    StartsShift(values, k);
    m := n - |Print(values[0])| - 1;
    assert k < |values| ==> values[1..][k - 1] == values[k];
  }

  lemma SplitEmpty()
    ensures Split<char>([], '\n') == [[]]
  {}

  lemma LaterLines(values: seq<J>, n: nat, more: string, m: nat)
    requires values != [] && Objects(values) && n == |Print(values[0])| + 1 + m && m <= |more|
    requires more == if |values| == 1 then [] else Serialize(values[1..])
    ensures n <= |Serialize(values)|
            && Split(Serialize(values)[..n], '\n') == [Print(values[0])] + Split(more[..m], '\n')
  {
    SerializeTail(values);
    PrintOnOneLine(values[0]);
    FirstLineCut(Serialize(values), Print(values[0]), more, m);
  }

  lemma PrintIsLine(j: J)
    requires WellFormed(j) && j.Obj?
    ensures forall m :: 0 < m <= |Print(j)| ==> !IsBlank(Print(j)[..m])
    ensures Print(j) != [] && !IsBlank(Print(j)) && Parse(Print(j)) == Some(j)
  {
    ParsePrint(j);
    forall m | 0 < m <= |Print(j)| ensures !IsBlank(Print(j)[..m]) {
      assert Print(j)[..m][0] == '{' && '{' in Print(j)[..m];
    }
    assert Print(j)[..|Print(j)|] == Print(j);
  }

  lemma LineReads(j: J)
    requires WellFormed(j) && j.Obj?
    ensures !IsBlank(Print(j)) && Parse(Print(j)) == Some(j)
  {
    PrintIsLine(j);
  }

  lemma OneMoreLine(lines: seq<string>, k: nat, line: string, j: J)
    requires 0 < k <= |lines| && lines[k - 1] == line && !IsBlank(line) && Parse(line) == Some(j)
    ensures ValuesOf(lines, k) == ValuesOf(lines, k - 1) + [j] && CorruptOf(lines, k) == CorruptOf(lines, k - 1)
  {}

  ghost predicate PrintedLine(line: string, j: J) {
    line == Print(j) && WellFormed(j) && j.Obj?
  }

  /** The first `k` lines print the first `k` values. */
  ghost predicate PrintedLines(lines: seq<string>, values: seq<J>, k: nat)
    requires k <= |lines| && k <= |values|
  {
    k == 0 || (PrintedLines(lines, values, k - 1) && PrintedLine(lines[k - 1], values[k - 1]))
  }

  lemma PrintedLineReads(lines: seq<string>, k: nat, j: J)
    requires k < |lines| && PrintedLine(lines[k], j)
    ensures ValuesOf(lines, k + 1) == ValuesOf(lines, k) + [j] && CorruptOf(lines, k + 1) == CorruptOf(lines, k)
  {
    LineReads(j);
    OneMoreLine(lines, k + 1, lines[k], j);
  }

  lemma PrefixGrows<T>(values: seq<T>, k: nat)
    requires 0 < k <= |values|
    ensures values[..k] == values[..k - 1] + [values[k - 1]]
  {}

  lemma {:induction false} WholeLines(lines: seq<string>, values: seq<J>, k: nat)
    requires k <= |values| && k <= |lines| && PrintedLines(lines, values, k)
    ensures ValuesOf(lines, k) == values[..k] && CorruptOf(lines, k) == []
  {
    if k > 0 {
      WholeLines(lines, values, k - 1);
      PrintedLineReads(lines, k - 1, values[k - 1]);
      PrefixGrows(values, k);
    }
  }

  lemma {:induction false} LinesArePrinted(values: seq<J>, lines: seq<string>, k: nat)
    requires k <= |values| && k <= |lines| && Objects(values) && forall i :: 0 <= i < k ==> lines[i] == Print(values[i])
    ensures PrintedLines(lines, values, k)
  {
    if k > 0 {
      LinesArePrinted(values, lines, k - 1);
    }
  }

  /** Which events a cut leaves whole: those whose text is complete, with or without its newline. */
  function Whole(values: seq<J>, k: nat, rest: nat): nat
    requires k <= |values|
  {
    if k < |values| && rest == |Print(values[k])| then k + 1 else k
  }

  lemma WholeParses(values: seq<J>)
    requires Objects(values)
    ensures ParsedOf(Lines(values)) == Parsed(values, false, [])
    ensures DropEmptyTail(Lines(values)) == Lines(values)
    ensures DropEmptyTail(Lines(values) + [[]]) == Lines(values)
  {
    LinesArePrinted(values, Lines(values), |values|);
    PrintedLinesRead(Lines(values), values);
  }

  lemma PrintedLinesRead(lines: seq<string>, values: seq<J>)
    requires |lines| == |values| && PrintedLines(lines, values, |values|)
    ensures ParsedOf(lines) == Parsed(values, false, [])
    ensures DropEmptyTail(lines) == lines && DropEmptyTail(lines + [[]]) == lines
  {
    if values != [] {
      LastLineReads(lines, values);
    }
    WholeLines(lines, values, |values|);
    WholePrefix(values);
    NoLineDropped(lines);
    AllLinesRead(lines, values);
  }

  lemma LastLineReads(lines: seq<string>, values: seq<J>)
    requires |lines| == |values| > 0 && PrintedLines(lines, values, |values|)
    ensures CorruptOf(lines, |lines| - 1) == [] && lines[|lines| - 1] != [] && !IsCorrupt(lines[|lines| - 1])
  {
    WholeLines(lines, values, |values| - 1);
    PrintIsLine(values[|values| - 1]);
  }

  lemma WholePrefix<T>(values: seq<T>)
    ensures values[..|values|] == values
  {}

  lemma NoLineDropped(lines: seq<string>)
    requires lines != [] ==> lines[|lines| - 1] != []
    ensures DropEmptyTail(lines) == lines && DropEmptyTail(lines + [[]]) == lines
  {
    assert (lines + [[]])[..|lines|] == lines;
  }

  lemma AllLinesRead(lines: seq<string>, values: seq<J>)
    requires ValuesOf(lines, |lines|) == values
    requires lines != [] ==> CorruptOf(lines, |lines| - 1) == [] && !IsCorrupt(lines[|lines| - 1])
    requires lines == [] ==> values == []
    ensures ParsedOf(lines) == Parsed(values, false, [])
  {}

  lemma PartialParses(values: seq<J>, next: J, rest: nat)
    requires Objects(values) && WellFormed(next) && next.Obj? && 0 < rest < |Print(next)|
    ensures var lines := Lines(values) + [Print(next)[..rest]];
      DropEmptyTail(lines) == lines && ParsedOf(lines) == Parsed(values, true, [])
  {
    var lines := Lines(values) + [Print(next)[..rest]];
    assert !IsBlank(Print(next)[..rest]) && Print(next)[..rest] != [] by {
      PrintIsLine(next);
    }
    NoPrefixParses(next, rest);
    LinesArePrinted(values, lines, |values|);
    WholeLines(lines, values, |values|);
    assert values[..|values|] == values;
    PartialLast(lines, Print(next)[..rest], values);
  }

  lemma PartialLast(lines: seq<string>, part: string, values: seq<J>)
    requires |lines| == |values| + 1 && lines[|values|] == part && part != [] && IsCorrupt(part)
    requires ValuesOf(lines, |values|) == values && CorruptOf(lines, |values|) == []
    ensures DropEmptyTail(lines) == lines && ParsedOf(lines) == Parsed(values, true, [])
  {}

  lemma CutTail(values: seq<J>, k: nat, rest: nat)
    requires values != [] && Objects(values) && k <= |values|
             && (if k < |values| then rest <= |Print(values[k])| else rest == 0)
    ensures ParsedOf(DropEmptyTail(Kept(values, k, rest))) ==
            Parsed(values[..Whole(values, k, rest)], k < |values| && 0 < rest < |Print(values[k])|, [])
  {
    WholeParses(values[..k]);
    if k < |values| {
      PrintIsLine(values[k]);
      if rest == |Print(values[k])| {
        WholeParses(values[..k + 1]);
        KeptWhole(values, k);
      } else if rest > 0 {
        PartialParses(values[..k], values[k], rest);
      }
    }
  }

  lemma KeptWhole(values: seq<J>, k: nat)
    requires k < |values|
    ensures Kept(values, k, |Print(values[k])|) == Lines(values[..k + 1])
  {
    assert Print(values[k])[..|Print(values[k])|] == Print(values[k]);
  }

  /**
   * Cutting the text of a ledger anywhere yields exactly the events whose text is complete, no
   * corrupt line, and the partial flag exactly when the cut falls inside a line.
   */
  lemma CutParses(values: seq<J>, n: nat, k: nat, rest: nat)
    requires values != [] && Objects(values) && Keeps(values, n, k, rest)
    ensures n <= |Serialize(values)|
    ensures ParsedOf(LinesOf(Serialize(values)[..n])) ==
            Parsed(values[..Whole(values, k, rest)], k < |values| && 0 < rest < |Print(values[k])|, [])
  {
    CutLines(values, n, k, rest);
    CutTail(values, k, rest);
  }

  /** In particular, parsing what was serialised gives it back. */
  lemma ParseSerialized(values: seq<J>)
    requires Objects(values)
    ensures ParsedOf(LinesOf(Serialize(values))) == Parsed(values, false, [])
  {
    var text := Serialize(values);
    if values == [] {
      assert text == [] + ['\n'] + [];
      SplitHead<char>([], [], '\n');
      assert Split(text, '\n') == [[], []];
      assert DropEmptyTail([[], []]) == DropEmptyTail([[], []][..1]);
      assert DropEmptyTail([[]]) == [];
    } else {
      SerializeLength(values);
      CutParses(values, |text|, |values|, 0);
      assert text[..|text|] == text && values[..|values|] == values;
    }
  }

  // -----------------------------------------------------------------------
  // Recovering a cut ledger
  // -----------------------------------------------------------------------

  function Written(s: Schema, events: seq<Event>): (values: seq<J>)
    ensures |values| == |events| && forall i :: 0 <= i < |events| ==> values[i] == s.write(events[i])
  {
    seq(|events|, i requires 0 <= i < |events| => s.write(events[i]))
  }

  /** A ledger that the runtime itself produced. */
  ghost predicate Produced(s: Schema, h: HashFn, drafts: seq<Draft>) {
    && Faithful(s) && OneRun(drafts) && DistinctIds(drafts)
    && forall i :: 0 <= i < |drafts| ==> s.admits(SealAll(h, drafts)[i])
  }

  lemma ProducedPrefixIsSound(s: Schema, h: HashFn, drafts: seq<Draft>, n: nat)
    requires Produced(s, h, drafts) && n <= |drafts|
    ensures Sound(s, h, Written(s, SealAll(h, drafts))[..n])
    ensures Objects(Written(s, SealAll(h, drafts)))
  {
    ProducedAreObjects(s, h, drafts);
    ProducedPrefixReads(s, h, drafts, n);
    SealedIsSound(s, h, Written(s, SealAll(h, drafts))[..n], drafts[..n]);
  }

  lemma ProducedPrefixReads(s: Schema, h: HashFn, drafts: seq<Draft>, n: nat)
    requires Produced(s, h, drafts) && n <= |drafts|
    ensures ReadsAs(s, Written(s, SealAll(h, drafts))[..n], SealAll(h, drafts[..n]))
    ensures OneRun(drafts[..n]) && DistinctIds(drafts[..n])
  {
    SealAllPrefix(h, drafts, n);
    WrittenReadsBack(s, SealAll(h, drafts), n, SealAll(h, drafts[..n]));
    PrefixOfRun(drafts, n);
  }

  lemma WrittenReadsBack(s: Schema, events: seq<Event>, n: nat, prefix: seq<Event>)
    requires Faithful(s) && n <= |events| && prefix == events[..n]
    requires forall i :: 0 <= i < |events| ==> s.admits(events[i])
    ensures ReadsAs(s, Written(s, events)[..n], prefix)
  {
    forall i | 0 <= i < n
      ensures s.read(Written(s, events)[..n][i]) == Some(prefix[i])
    {
      assert s.admits(events[i]);
    }
  }

  lemma PrefixOfRun(drafts: seq<Draft>, n: nat)
    requires n <= |drafts| && OneRun(drafts) && DistinctIds(drafts)
    ensures OneRun(drafts[..n]) && DistinctIds(drafts[..n])
  {}

  lemma ProducedAreObjects(s: Schema, h: HashFn, drafts: seq<Draft>)
    requires Produced(s, h, drafts)
    ensures Objects(Written(s, SealAll(h, drafts)))
  {}

  lemma {:induction false} StartsGrow(values: seq<J>, i: nat, j: nat)
    requires i <= j <= |values|
    ensures Starts(values, i) <= Starts(values, j)
    ensures i < j ==> Starts(values, i) + |Print(values[i])| + 1 <= Starts(values, j)
  {
    if i < j {
      StartsGrow(values, i, j - 1);
    }
  }

  function CutOptions(text: string, expected: Option<nat>): Options {
    var parsed := ParsedOf(LinesOf(text));
    Options(parsed.partialFinalLineDropped, expected, parsed.corruptLines)
  }

  /** No line of the text is corrupt. */
  ghost predicate EveryLineReads(lines: seq<string>) {
    forall n :: 0 <= n < |lines| ==> !IsCorrupt(lines[n])
  }

  lemma NothingDroppedIff(lines: seq<string>)
    ensures EveryLineReads(lines) <==>
            !ParsedOf(lines).partialFinalLineDropped && ParsedOf(lines).corruptLines == []
  {
    forall n: nat ensures n in ParsedOf(lines).corruptLines <==> 1 <= n < |lines| && IsCorrupt(lines[n - 1]) {
      EveryLineIsAccountedFor(lines, n);
    }
    EveryLineIsAccountedFor(lines, 0);
    var corrupt := ParsedOf(lines).corruptLines;
    if corrupt != [] {
      assert corrupt[0] in corrupt;
      assert IsCorrupt(lines[corrupt[0] - 1]);
    } else {
      forall n | 0 <= n < |lines| - 1 ensures !IsCorrupt(lines[n]) {
        assert n + 1 !in corrupt;
      }
    }
  }

  /**
   * Of any text at all: recovery is valid exactly when every line reads, the values are what appending drafts of
   * one run with distinct ids produces, and there are as many as expected. A single corrupt line, wherever it
   * stands, makes it a hold.
   */
  lemma TextRecoversExactly(s: Schema, h: HashFn, text: string, expected: Option<nat>)
    ensures var lines := LinesOf(text);
      var events := ParsedOf(lines).events;
      RecoversValid(s, h, events, CutOptions(text, expected)) <==>
      && EveryLineReads(lines)
      && (exists drafts :: OneRun(drafts) && DistinctIds(drafts) && ReadsAs(s, events, SealAll(h, drafts)))
      && (expected.Some? ==> |events| >= expected.value)
  {
    NothingDroppedIff(LinesOf(text));
    SoundIffSealed(s, h, ParsedOf(LinesOf(text)).events);
  }

  /**
   * Recovery of a ledger cut after `n` characters. It keeps exactly the whole events and never
   * reports past them. Told how many events to expect, it is valid only if nothing but the final
   * newline is gone; not told, it accepts every cut that falls between two lines.
   */
  lemma CutRecovers(s: Schema, h: HashFn, drafts: seq<Draft>, n: nat, k: nat, rest: nat)
    requires Produced(s, h, drafts) && drafts != []
    requires Keeps(Written(s, SealAll(h, drafts)), n, k, rest)
    ensures var values := Written(s, SealAll(h, drafts));
      var text := Serialize(values);
      && n <= |text|
      && var events := ParsedOf(LinesOf(text[..n])).events;
         && events == values[..Whole(values, k, rest)]
         && LongestLinkedPrefix(h, Readable(s, events), |events|)
         && (RecoversValid(s, h, events, CutOptions(text[..n], Some(|drafts|))) <==> n >= |text| - 1)
         && (RecoversValid(s, h, events, CutOptions(text[..n], None)) <==>
             !(k < |values| && 0 < rest < |Print(values[k])|))
  {
    var values := Written(s, SealAll(h, drafts));
    var text, whole := Serialize(values), Whole(values, k, rest);
    ProducedPrefixIsSound(s, h, drafts, whole);
    CutParses(values, n, k, rest);
    SoundIsLinked(s, h, values[..whole], whole);
    NothingLost(values, n, k, rest);
    var parsed := ParsedOf(LinesOf(text[..n]));
    assert parsed == Parsed(values[..whole], k < |values| && 0 < rest < |Print(values[k])|, []);
  }

  lemma NothingLost(values: seq<J>, n: nat, k: nat, rest: nat)
    requires values != [] && Keeps(values, n, k, rest)
    ensures Whole(values, k, rest) == |values| <==> n >= |Serialize(values)| - 1
    ensures Whole(values, k, rest) == |values| ==> !(k < |values| && 0 < rest < |Print(values[k])|)
  {
    SerializeLength(values);
    if k < |values| {
      StartsGrow(values, k, |values| - 1);
      StartsGrow(values, k, |values|);
    }
  }
}
