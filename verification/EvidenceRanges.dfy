/** The evidence cell of a rendered receipt (src/render/pr.ts): runs of ids are shortened to ranges. */
module EvidenceRanges {
  import opened Prelude
  import opened Decimal
  import opened EvidenceIds
  import Text

  const TICK: char := '`'
  const ELLIPSIS: char := '\U{2026}'
  const DASH: char := '\U{2014}'

  const MAX_EXACT: nat := 9007199254740992

  /** `Number` on digits, and the escaping of text that no code span can hold. */
  datatype Tools = Tools(number: string -> int, escape: string -> string)

  /** Numbers below 2^53 are read exactly. */
  ghost predicate Exact(t: Tools) {
    forall s :: AllDigits(s) && ValueOf(s) < MAX_EXACT ==> t.number(s) == ValueOf(s)
  }

  // -----------------------------------------------------------------------
  // Printing
  // -----------------------------------------------------------------------

  /** What can stand in a code span as it is, line 85. */
  predicate IsCodeSafe(s: string) {
    s != [] && forall i :: 0 <= i < |s| ==> IsCodeSafeChar(s[i])
  }

  predicate IsCodeSafeChar(c: char) {
    'A' <= c <= 'Z' || 'a' <= c <= 'z' || '0' <= c <= '9' || c == '_' || c == '.' || c == ':' || c == '-'
      || c == ELLIPSIS
  }

  function CodeSpan(t: Tools, s: string): string {
    if IsCodeSafe(s) then [TICK] + s + [TICK] else t.escape(s)
  }

  /** A text that would end its code span, or have none, is escaped instead. */
  lemma NoBrokenSpan(t: Tools, s: string)
    ensures s == [] || TICK in s ==> CodeSpan(t, s) == t.escape(s)
    ensures CodeSpan(t, s) != t.escape(s) ==> CodeSpan(t, s) == [TICK] + s + [TICK] && s != [] && TICK !in s
  {
    if IsCodeSafe(s) {
      forall c | c in s ensures c != TICK {
        var i :| 0 <= i < |s| && s[i] == c;
        assert IsCodeSafeChar(s[i]);
      }
    }
  }

  /** `/^(.*_)(\d+)$/`: up to the last underscore, and the digits after it. */
  function SplitId(s: string): Option<(string, string)> {
    SplitAt(s, |s|)
  }

  function SplitAt(s: string, k: nat): Option<(string, string)>
    requires k <= |s|
  {
    if k == 0 then None
    else if s[k - 1] != '_' then SplitAt(s, k - 1)
    else if k < |s| && AllDigits(s[k..]) && (forall i :: 0 <= i < k ==> !Text.IsLineTerminator(s[i] as int))
      then Some((s[..k], s[k..]))
    else None
  }

  /** The prefix is the same and the number one more, lines 91 to 96. */
  predicate IsSuccessor(t: Tools, a: string, b: string) {
    var ma, mb := SplitId(a), SplitId(b);
    ma.Some? && mb.Some? && ma.value.0 == mb.value.0 && t.number(mb.value.1) == t.number(ma.value.1) + 1
  }

  /** Where the run that starts at `i` ends. */
  function RunEnd(t: Tools, ids: seq<string>, i: nat): (j: nat)
    requires i < |ids|
    ensures i <= j < |ids|
    decreases |ids| - i
  {
    if i + 1 < |ids| && IsSuccessor(t, ids[i], ids[i + 1]) then RunEnd(t, ids, i + 1) else i
  }

  function Spans(t: Tools, ids: seq<string>): seq<string> {
    if ids == [] then [] else [CodeSpan(t, ids[0])] + Spans(t, ids[1..])
  }

  /** A run of three and more becomes a range. */
  function RunParts(t: Tools, ids: seq<string>, i: nat, j: nat): seq<string>
    requires i <= j < |ids|
  {
    if j - i >= 2 then [CodeSpan(t, ids[i] + [ELLIPSIS] + ids[j])] else Spans(t, ids[i..j + 1])
  }

  function Parts(t: Tools, ids: seq<string>, i: nat): seq<string>
    requires i <= |ids|
    decreases |ids| - i
  {
    if i == |ids| then []
    else
      var j := RunEnd(t, ids, i);
      RunParts(t, ids, i, j) + Parts(t, ids, j + 1)
  }

  /** `parts.join(", ")` */
  function Commas(parts: seq<string>): string {
    if parts == [] then [] else if |parts| == 1 then parts[0] else parts[0] + [',', ' '] + Commas(parts[1..])
  }

  function Cell(t: Tools, ids: seq<string>): string {
    if ids == [] then [DASH]
    else if |ids| <= 4 then Commas(Spans(t, ids))
    else Commas(Parts(t, ids, 0))
  }

  /** How far the run that starts at `i` goes, line 110. */
  method FindRunEnd(t: Tools, ids: seq<string>, i: nat) returns (j: nat)
    requires i < |ids|
    ensures j == RunEnd(t, ids, i)
  {
    j := i;
    while j + 1 < |ids| && IsSuccessor(t, ids[j], ids[j + 1])
      invariant i <= j < |ids| && RunEnd(t, ids, i) == RunEnd(t, ids, j)
    {
      j := j + 1;
    }
  }

  /** Every id in a span of its own, line 115. */
  method ListSpans(t: Tools, ids: seq<string>) returns (spans: seq<string>)
    ensures spans == Spans(t, ids)
  {
    spans := [];
    for k := 0 to |ids|
      invariant spans + Spans(t, ids[k..]) == Spans(t, ids)
    {
      assert ids[k..][1..] == ids[k + 1..];
      spans := spans + [CodeSpan(t, ids[k])];
    }
  }

  /** A run of three or more as a range, a shorter one id by id: lines 111 to 116. */
  method PrintRun(t: Tools, ids: seq<string>, i: nat, j: nat) returns (parts: seq<string>)
    requires i <= j < |ids|
    ensures parts == RunParts(t, ids, i, j)
  {
    if j - i >= 2 {
      parts := [CodeSpan(t, ids[i] + [ELLIPSIS] + ids[j])];
    } else {
      parts := ListSpans(t, ids[i..j + 1]);
    }
  }

  /** `compressEvidence`, lines 103 to 120. */
  method CompressEvidence(t: Tools, ids: seq<string>) returns (cell: string)
    ensures cell == Cell(t, ids)
  {
    if ids == [] {
      return [DASH];
    }
    if |ids| <= 4 {
      return Commas(Spans(t, ids));
    }
    var parts := CompressRuns(t, ids);
    cell := Commas(parts);
  }

  method CompressRuns(t: Tools, ids: seq<string>) returns (parts: seq<string>)
    ensures parts == Parts(t, ids, 0)
  {
    parts := [];
    var i := 0;
    ghost var open := Parts(t, ids, 0);
    while i < |ids|
      invariant 0 <= i <= |ids| && open == Parts(t, ids, i)
      invariant parts + open == Parts(t, ids, 0)
    {
      var more, next := CompressRun(t, ids, i);
      ghost var later := Parts(t, ids, next);
      Appended(parts, open, more, later);
      parts, i, open := parts + more, next, later;
    }
    assert parts + [] == parts;
  }

  /** One round: the run that starts at `i`, and where the next starts. */
  method CompressRun(t: Tools, ids: seq<string>, i: nat) returns (parts: seq<string>, next: nat)
    requires i < |ids|
    ensures i < next <= |ids| && Parts(t, ids, i) == parts + Parts(t, ids, next)
  {
    var j := FindRunEnd(t, ids, i);
    parts := PrintRun(t, ids, i, j);
    next := j + 1;
  }

  lemma Appended<T>(done: seq<T>, open: seq<T>, next: seq<T>, later: seq<T>)
    requires open == next + later
    ensures done + next + later == done + open
  {}

  /** The next id counts on. */
  predicate Continues(t: Tools, ids: seq<string>, k: nat) {
    k + 1 < |ids| && IsSuccessor(t, ids[k], ids[k + 1])
  }

  predicate IsRun(t: Tools, ids: seq<string>, i: nat, j: nat) {
    forall k :: i <= k < j ==> Continues(t, ids, k)
  }

  /** A run goes as far as it can. */
  lemma {:induction false} RunEndIsMaximal(t: Tools, ids: seq<string>, i: nat)
    requires i < |ids|
    ensures IsRun(t, ids, i, RunEnd(t, ids, i)) && !Continues(t, ids, RunEnd(t, ids, i))
    decreases |ids| - i
  {
    if i + 1 < |ids| && IsSuccessor(t, ids[i], ids[i + 1]) {
      RunEndIsMaximal(t, ids, i + 1);
    }
  }

  /** How a run is shown: one or two ids each by itself, three and more as the range from the first to the last. */
  function Shown(t: Tools, first: string, last: string, count: nat): seq<string> {
    if count == 1 then [CodeSpan(t, first)]
    else if count == 2 then [CodeSpan(t, first), CodeSpan(t, last)]
    else [CodeSpan(t, first + [ELLIPSIS] + last)]
  }

  lemma RunPartsShown(t: Tools, ids: seq<string>, i: nat, j: nat)
    requires i <= j < |ids|
    ensures RunParts(t, ids, i, j) == Shown(t, ids[i], ids[j], j - i + 1)
  {
    if j - i < 2 {
      var run := ids[i..j + 1];
      assert run[1..] == ids[i + 1..j + 1] && Spans(t, run) == [CodeSpan(t, ids[i])] + Spans(t, run[1..]);
      if j == i + 1 {
        assert run[1..] == [ids[j]] && [ids[j]][1..] == [];
        assert Spans(t, [ids[j]]) == [CodeSpan(t, ids[j])] + Spans(t, [ids[j]][1..]);
      } else {
        assert run[1..] == [];
      }
    }
  }

  function PartsFrom(t: Tools, ids: seq<string>): nat -> seq<string> {
    (i: nat) => if i <= |ids| then Parts(t, ids, i) else []
  }

  function RunFrom(t: Tools, ids: seq<string>): nat -> seq<string> {
    (i: nat) => if i < |ids| then RunParts(t, ids, i, RunEnd(t, ids, i)) else []
  }

  function EndFrom(t: Tools, ids: seq<string>): nat -> nat {
    (i: nat) => if i < |ids| then RunEnd(t, ids, i) else i
  }

  /** Where something starts there is a run, and the rest behind its end. */
  ghost predicate RunByRun(parts: nat -> seq<string>, run: nat -> seq<string>, end: nat -> nat, n: nat) {
    forall i: nat :: i < n ==> i <= end(i) < n && parts(i) == run(i) + parts(end(i) + 1)
  }

  lemma InFront<T>(run: seq<T>, rest: seq<T>, before: seq<T>, shown: seq<T>, after: seq<T>)
    requires rest == before + shown + after
    ensures run + rest == (run + before) + shown + after
  {}

  /** A place that no earlier run crosses is reached. */
  lemma {:induction false} RunIsReached(parts: nat -> seq<string>, run: nat -> seq<string>, end: nat -> nat, n: nat,
                                        s: nat, i: nat)
    returns (before: seq<string>, after: seq<string>)
    requires RunByRun(parts, run, end, n) && s <= i < n && forall k: nat :: k < i ==> end(k) < i
    ensures parts(s) == before + run(i) + after
    decreases i - s
  {
    if s == i {
      before, after := [], parts(end(i) + 1);
      assert [] + run(i) == run(i);
    } else {
      before, after := RunIsReached(parts, run, end, n, end(s) + 1, i);
      InFront(run(s), parts(end(s) + 1), before, run(i), after);
      before := run(s) + before;
    }
  }

  lemma PartsGoRunByRun(t: Tools, ids: seq<string>)
    ensures RunByRun(PartsFrom(t, ids), RunFrom(t, ids), EndFrom(t, ids), |ids|)
  {}

  /** A run that goes on to `j` and no further ends there, and none goes on over a place where it stops. */
  lemma EndOfRun(t: Tools, ids: seq<string>, i: nat, j: nat)
    requires i <= j < |ids| && IsRun(t, ids, i, j) && !Continues(t, ids, j)
    ensures RunEnd(t, ids, i) == j
  {
    RunEndIsMaximal(t, ids, i);
  }

  lemma NoneCrosses(t: Tools, ids: seq<string>, k: nat, i: nat)
    requires k < i < |ids| && !Continues(t, ids, i - 1)
    ensures RunEnd(t, ids, k) < i
  {
    RunEndIsMaximal(t, ids, k);
  }

  /** Each maximal run of a longer list has its parts in the cell: two ids are never a range, three always. */
  lemma MaximalRunIsShown(t: Tools, ids: seq<string>, i: nat, j: nat) returns (before: seq<string>, after: seq<string>)
    requires i <= j < |ids| && IsRun(t, ids, i, j) && !Continues(t, ids, j)
    requires i == 0 || !Continues(t, ids, i - 1)
    ensures Parts(t, ids, 0) == before + Shown(t, ids[i], ids[j], j - i + 1) + after
  {
    PartsGoRunByRun(t, ids);
    forall k: nat | k < i ensures EndFrom(t, ids)(k) < i {
      NoneCrosses(t, ids, k, i);
    }
    EndOfRun(t, ids, i, j);
    RunPartsShown(t, ids, i, j);
    before, after := RunIsReached(PartsFrom(t, ids), RunFrom(t, ids), EndFrom(t, ids), |ids|, 0, i);
  }

  lemma {:induction false} SpansAt(t: Tools, ids: seq<string>)
    ensures |Spans(t, ids)| == |ids| && forall k :: 0 <= k < |ids| ==> Spans(t, ids)[k] == CodeSpan(t, ids[k])
  {
    if ids != [] {
      SpansAt(t, ids[1..]);
    }
  }

  /** Up to four ids are all listed, whatever runs they form; of more, the runs are shown as above. */
  lemma WhenRangesAreUsed(t: Tools, ids: seq<string>)
    ensures 0 < |ids| <= 4 ==> Cell(t, ids) == Commas(seq(|ids|, k requires 0 <= k < |ids| => CodeSpan(t, ids[k])))
    ensures |ids| > 4 ==> Cell(t, ids) == Commas(Parts(t, ids, 0))
  {
    SpansAt(t, ids);
    assert Spans(t, ids) == seq(|ids|, k requires 0 <= k < |ids| => CodeSpan(t, ids[k]));
  }

  // -----------------------------------------------------------------------
  // Reading a cell back
  // -----------------------------------------------------------------------

  /** The ids numbered m to n. */
  function IdRange(name: nat -> string, m: nat, n: nat): seq<string>
    decreases n - m
  {
    if m > n then [] else [name(m)] + IdRange(name, m + 1, n)
  }

  function NumberOf(id: string): nat {
    var split := SplitId(id);
    if split.Some? && AllDigits(split.value.1) then ValueOf(split.value.1) else 0
  }

  /** One part without its code span: an id, or the two ends of a range. */
  function ExpandPart(name: nat -> string, part: string): seq<string> {
    var inner := if |part| >= 2 then part[1..|part| - 1] else part;
    var ends := Text.Split(inner, ELLIPSIS);
    if |ends| == 2 then IdRange(name, NumberOf(ends[0]), NumberOf(ends[1])) else [inner]
  }

  function Reader(name: nat -> string): string -> seq<string> {
    part => ExpandPart(name, part)
  }

  /** `parts.flatMap(f)` */
  function FlatMap(f: string -> seq<string>, parts: seq<string>): seq<string> {
    if parts == [] then [] else f(parts[0]) + FlatMap(f, parts[1..])
  }

  /** The parts after the first begin with the space of their separator. */
  function Unspaced(parts: seq<string>): seq<string> {
    if parts == [] then [] else [if parts[0] == [] then [] else parts[0][1..]] + Unspaced(parts[1..])
  }

  function Expand(name: nat -> string, cell: string): seq<string> {
    if cell == [DASH] then []
    else
      var pieces := Text.Split(cell, ',');
      FlatMap(Reader(name), [pieces[0]] + Unspaced(pieces[1..]))
  }

  // -----------------------------------------------------------------------
  // The pipeline's ids
  // -----------------------------------------------------------------------

  /** Every id has a number that is read exactly. */
  ghost predicate FromPipeline(name: nat -> string, ids: seq<string>) {
    forall i :: 0 <= i < |ids| ==> IsPipelineId(name, ids[i])
  }

  ghost predicate IsPipelineId(name: nat -> string, id: string) {
    exists n :: 0 <= n < MAX_EXACT && id == name(n)
  }

  /** A text of the characters that ids have, none of which structures the cell. */
  predicate IsWord(s: string) {
    s != [] && forall i :: 0 <= i < |s| ==> IsCodeSafeChar(s[i]) && s[i] != ELLIPSIS
  }

  /** Ids are words, their numbers can be read back, and only the next number succeeds. */
  ghost predicate Naming(t: Tools, name: nat -> string) {
    && (forall m :: 0 <= m < MAX_EXACT ==> IsWord(name(m)) && NumberOf(name(m)) == m)
    && (forall m, n :: 0 <= m < MAX_EXACT && 0 <= n < MAX_EXACT && IsSuccessor(t, name(m), name(n)) ==> n == m + 1)
  }

  lemma {:induction false} SplitAtDigits(s: string, from: nat, k: nat)
    requires from <= k <= |s| && from > 0 && s[from - 1] == '_' && from < |s|
    requires AllDigits(s[from..]) && forall i :: 0 <= i < from ==> !Text.IsLineTerminator(s[i] as int)
    ensures SplitAt(s, k) == Some((s[..from], s[from..]))
    decreases k - from
  {
    if k > from {
      assert s[k - 1] == s[from..][k - 1 - from];
      SplitAtDigits(s, from, k - 1);
    }
  }

  lemma IdSplits(n: nat)
    ensures SplitId(EvidenceId(n)) == Some((['e', 'v', '_'], PadStart(Digits(n), 4)))
    ensures AllDigits(PadStart(Digits(n), 4)) && ValueOf(PadStart(Digits(n), 4)) == n
    ensures NumberOf(EvidenceId(n)) == n
  {
    var id := EvidenceId(n);
    ValueOfPadded(Digits(n), 4);
    ValueOfDigits(n);
    assert id[3..] == PadStart(Digits(n), 4) && id[..3] == ['e', 'v', '_'];
    SplitAtDigits(id, 3, |id|);
  }

  /** Ids are successors just when their numbers are, across any change of width. */
  lemma SuccessorsCount(t: Tools, m: nat, n: nat)
    requires Exact(t) && m < MAX_EXACT && n < MAX_EXACT
    ensures IsSuccessor(t, EvidenceId(m), EvidenceId(n)) <==> n == m + 1
  {
    IdSplits(m);
    IdSplits(n);
  }

  lemma IdIsWord(n: nat)
    ensures IsWord(EvidenceId(n))
  {
    IdSplits(n);
    var id, digits := EvidenceId(n), PadStart(Digits(n), 4);
    forall i | 0 <= i < |id|
      ensures IsCodeSafeChar(id[i]) && id[i] != ELLIPSIS
    {
      assert i >= 3 ==> id[i] == digits[i - 3];
    }
  }

  lemma PipelineNames(t: Tools)
    requires Exact(t)
    ensures Naming(t, EvidenceId)
  {
    forall m | 0 <= m < MAX_EXACT
      ensures IsWord(EvidenceId(m)) && NumberOf(EvidenceId(m)) == m
    {
      IdSplits(m);
      IdIsWord(m);
    }
    forall m, n | 0 <= m < MAX_EXACT && 0 <= n < MAX_EXACT && IsSuccessor(t, EvidenceId(m), EvidenceId(n))
      ensures n == m + 1
    {
      SuccessorsCount(t, m, n);
    }
  }

  lemma NextInRun(t: Tools, name: nat -> string, ids: seq<string>, i: nat, m: nat)
    requires Naming(t, name) && m < MAX_EXACT && Continues(t, ids, i) && ids[i] == name(m)
             && IsPipelineId(name, ids[i + 1])
    ensures ids[i + 1] == name(m + 1) && m + 1 < MAX_EXACT
  {
    var n :| 0 <= n < MAX_EXACT && ids[i + 1] == name(n);
    assert IsSuccessor(t, name(m), name(n));
  }

  lemma RangeOfOne(name: nat -> string, m: nat)
    ensures IdRange(name, m, m) == [name(m)]
  {
    assert IdRange(name, m + 1, m) == [];
  }

  lemma SliceFirst(ids: seq<string>, i: nat, j: nat)
    requires i <= j < |ids|
    ensures i < j ==> ids[i..j + 1] == [ids[i]] + ids[i + 1..j + 1]
    ensures i == j ==> ids[i..j + 1] == [ids[i]]
  {}

  /** A run counts up from its first id. */
  lemma {:induction false} RunIsRange(t: Tools, name: nat -> string, ids: seq<string>, i: nat, j: nat, m: nat)
    requires Naming(t, name) && FromPipeline(name, ids) && i <= j < |ids| && m < MAX_EXACT && ids[i] == name(m)
    requires IsRun(t, ids, i, j)
    ensures m + (j - i) < MAX_EXACT
    ensures ids[j] == name(m + (j - i)) && ids[i..j + 1] == IdRange(name, m, m + (j - i))
    decreases j - i
  {
    SliceFirst(ids, i, j);
    if i < j {
      assert Continues(t, ids, i) && IsPipelineId(name, ids[i + 1]);
      NextInRun(t, name, ids, i, m);
      RunIsRange(t, name, ids, i + 1, j, m + 1);
      RangeFrom(name, m, m + (j - i), ids[i..j + 1], ids[i + 1..j + 1]);
    } else {
      RangeOfOne(name, m);
    }
  }

  lemma RangeFrom(name: nat -> string, m: nat, n: nat, slice: seq<string>, rest: seq<string>)
    requires m < n && slice == [name(m)] + rest && rest == IdRange(name, m + 1, n)
    ensures slice == IdRange(name, m, n)
  {}

  // -----------------------------------------------------------------------
  // Round trip
  // -----------------------------------------------------------------------

  function Ticked(s: string): string {
    [TICK] + s + [TICK]
  }

  lemma TickedInner(s: string)
    ensures |Ticked(s)| >= 2 && Ticked(s)[1..|Ticked(s)| - 1] == s && Ticked(s)[0] == TICK
    ensures ',' !in s ==> ',' !in Ticked(s)
  {}

  lemma WordIsFree(s: string)
    requires IsWord(s)
    ensures IsCodeSafe(s) && Text.Free(s, ELLIPSIS) && ',' !in s
  {}

  lemma RangeIsSafe(a: string, b: string)
    requires IsWord(a) && IsWord(b)
    ensures IsCodeSafe(a + [ELLIPSIS] + b) && ',' !in a + [ELLIPSIS] + b
  {
    var range := a + [ELLIPSIS] + b;
    forall i | 0 <= i < |range|
      ensures IsCodeSafeChar(range[i])
    {
      assert range[i] == if i < |a| then a[i] else if i == |a| then ELLIPSIS else b[i - |a| - 1];
    }
  }

  lemma SpanOfWord(t: Tools, name: nat -> string, a: string)
    requires IsWord(a)
    ensures CodeSpan(t, a) == Ticked(a) && ExpandPart(name, Ticked(a)) == [a]
    ensures ',' !in Ticked(a) && Ticked(a)[0] == TICK
  {
    WordIsFree(a);
    TickedInner(a);
    Text.SplitFree(a, ELLIPSIS);
  }

  lemma SpanOfRange(t: Tools, name: nat -> string, a: string, b: string)
    requires IsWord(a) && IsWord(b)
    ensures CodeSpan(t, a + [ELLIPSIS] + b) == Ticked(a + [ELLIPSIS] + b)
    ensures ExpandPart(name, Ticked(a + [ELLIPSIS] + b)) == IdRange(name, NumberOf(a), NumberOf(b))
    ensures ',' !in Ticked(a + [ELLIPSIS] + b) && Ticked(a + [ELLIPSIS] + b)[0] == TICK
  {
    RangeIsSafe(a, b);
    WordIsFree(a);
    WordIsFree(b);
    TickedInner(a + [ELLIPSIS] + b);
    RangeEnds(a, b);
  }

  lemma RangeEnds(a: string, b: string)
    requires Text.Free(a, ELLIPSIS) && Text.Free(b, ELLIPSIS)
    ensures Text.Split(a + [ELLIPSIS] + b, ELLIPSIS) == [a, b]
  {
    Text.SplitHead(a, b, ELLIPSIS);
    Text.SplitFree(b, ELLIPSIS);
    assert [a] + [b] == [a, b];
  }

  /** A code span without a comma. */
  predicate IsSpan(part: string) {
    part != [] && part[0] == TICK && ',' !in part
  }

  predicate CommaFree(parts: seq<string>) {
    parts == [] || (IsSpan(parts[0]) && CommaFree(parts[1..]))
  }

  lemma SliceFromPipeline(name: nat -> string, ids: seq<string>, i: nat, j: nat)
    requires FromPipeline(name, ids) && i <= j <= |ids|
    ensures FromPipeline(name, ids[i..j])
  {
    forall k | 0 <= k < j - i
      ensures IsPipelineId(name, ids[i..j][k])
    {
      assert IsPipelineId(name, ids[i + k]);
    }
  }

  lemma {:induction false} CommaFreeAppend(a: seq<string>, b: seq<string>)
    requires CommaFree(a) && CommaFree(b)
    ensures CommaFree(a + b)
  {
    if a == [] {
      assert a + b == b;
    } else {
      assert (a + b)[0] == a[0] && (a + b)[1..] == a[1..] + b;
      CommaFreeAppend(a[1..], b);
    }
  }

  lemma CommaFreeOne(part: string)
    requires IsSpan(part)
    ensures CommaFree([part])
  {
    assert [part][0] == part && [part][1..] == [];
  }

  lemma {:induction false} FlatMapAppend(f: string -> seq<string>, a: seq<string>, b: seq<string>)
    ensures FlatMap(f, a + b) == FlatMap(f, a) + FlatMap(f, b)
  {
    if a == [] {
      assert a + b == b;
    } else {
      assert (a + b)[1..] == a[1..] + b;
      FlatMapAppend(f, a[1..], b);
    }
  }

  lemma FlatMapOne(f: string -> seq<string>, part: string)
    ensures FlatMap(f, [part]) == f(part)
  {
    assert [part][1..] == [] && FlatMap(f, []) == [];
  }

  /** The reader `f` reads the span of every id, and of every run. */
  ghost predicate Reads(t: Tools, ids: seq<string>, f: string -> seq<string>) {
    && (forall k :: 0 <= k < |ids| ==> ReadsId(t, ids[k], f))
    && (forall i, j :: 0 <= i && i + 2 <= j < |ids| && IsRun(t, ids, i, j) ==> ReadsRun(t, ids, i, j, f))
  }

  ghost predicate ReadsId(t: Tools, id: string, f: string -> seq<string>) {
    f(CodeSpan(t, id)) == [id]
  }

  ghost predicate ReadsRun(t: Tools, ids: seq<string>, i: nat, j: nat, f: string -> seq<string>)
    requires i <= j < |ids|
  {
    f(CodeSpan(t, ids[i] + [ELLIPSIS] + ids[j])) == ids[i..j + 1]
  }

  lemma {:induction false} SpansFlatten(t: Tools, ids: seq<string>, f: string -> seq<string>)
    requires forall k :: 0 <= k < |ids| ==> ReadsId(t, ids[k], f)
    ensures FlatMap(f, Spans(t, ids)) == ids
  {
    if ids != [] {
      assert ReadsId(t, ids[0], f);
      forall k | 0 <= k < |ids[1..]|
        ensures ReadsId(t, ids[1..][k], f)
      {
        assert ReadsId(t, ids[k + 1], f);
      }
      SpansFlatten(t, ids[1..], f);
      FlatMapOne(f, CodeSpan(t, ids[0]));
      FlatMapAppend(f, [CodeSpan(t, ids[0])], Spans(t, ids[1..]));
      assert ids == [ids[0]] + ids[1..];
    }
  }

  lemma RunFlattens(t: Tools, ids: seq<string>, i: nat, j: nat, f: string -> seq<string>)
    requires Reads(t, ids, f) && i <= j < |ids| && IsRun(t, ids, i, j)
    ensures FlatMap(f, RunParts(t, ids, i, j)) == ids[i..j + 1]
  {
    if j - i >= 2 {
      assert ReadsRun(t, ids, i, j, f);
      FlatMapOne(f, CodeSpan(t, ids[i] + [ELLIPSIS] + ids[j]));
    } else {
      var run := ids[i..j + 1];
      forall k | 0 <= k < |run|
        ensures ReadsId(t, run[k], f)
      {
        assert ReadsId(t, ids[i + k], f);
      }
      SpansFlatten(t, run, f);
    }
  }

  lemma FlattenedJoin(f: string -> seq<string>, first: seq<string>, rest: seq<string>, ids: seq<string>, i: nat, j: nat)
    requires i <= j <= |ids| && FlatMap(f, first) == ids[i..j] && FlatMap(f, rest) == ids[j..]
    ensures FlatMap(f, first + rest) == ids[i..]
  {
    FlatMapAppend(f, first, rest);
    CutAt(ids, i, j);
  }

  lemma CutAt<T>(s: seq<T>, i: nat, j: nat)
    requires i <= j <= |s|
    ensures s[i..] == s[i..j] + s[j..]
  {}

  ghost predicate RunReads(run: nat -> seq<string>, end: nat -> nat, ids: seq<string>, k: nat, f: string -> seq<string>)
  {
    k <= end(k) < |ids| && FlatMap(f, run(k)) == ids[k..end(k) + 1]
  }

  lemma EachRunReads(t: Tools, ids: seq<string>, k: nat, f: string -> seq<string>)
    requires Reads(t, ids, f) && k < |ids|
    ensures RunReads(RunFrom(t, ids), EndFrom(t, ids), ids, k, f)
  {
    RunEndIsMaximal(t, ids, k);
    RunFlattens(t, ids, k, RunEnd(t, ids, k), f);
  }

  /** If the parts of each run flatten to its ids, all parts flatten to all ids. */
  lemma {:induction false} RunsFlatten(parts: nat -> seq<string>, run: nat -> seq<string>, end: nat -> nat,
                                       ids: seq<string>, i: nat, f: string -> seq<string>)
    requires RunByRun(parts, run, end, |ids|) && parts(|ids|) == [] && i <= |ids|
    requires forall k: nat :: k < |ids| ==> RunReads(run, end, ids, k, f)
    ensures FlatMap(f, parts(i)) == ids[i..]
    decreases |ids| - i
  {
    if i < |ids| {
      assert RunReads(run, end, ids, i, f);
      RunsFlatten(parts, run, end, ids, end(i) + 1, f);
      FlattenedJoin(f, run(i), parts(end(i) + 1), ids, i, end(i) + 1);
    }
  }

  /** A reader that reads ids and runs reads the whole cell. */
  lemma PartsFlatten(t: Tools, ids: seq<string>, f: string -> seq<string>)
    requires Reads(t, ids, f)
    ensures FlatMap(f, Parts(t, ids, 0)) == ids
  {
    PartsGoRunByRun(t, ids);
    forall k: nat | k < |ids| ensures RunReads(RunFrom(t, ids), EndFrom(t, ids), ids, k, f) {
      EachRunReads(t, ids, k, f);
    }
    RunsFlatten(PartsFrom(t, ids), RunFrom(t, ids), EndFrom(t, ids), ids, 0, f);
    assert ids[0..] == ids;
  }

  /** The reader reads the span of any word, and of any range between two. */
  ghost predicate Faithful(t: Tools, name: nat -> string, f: string -> seq<string>) {
    && (forall a :: IsWord(a) ==> IsSpan(CodeSpan(t, a)) && ReadsId(t, a, f))
    && (forall a, b :: IsWord(a) && IsWord(b) ==> ReadsBetween(t, name, a, b, f))
  }

  ghost predicate ReadsBetween(t: Tools, name: nat -> string, a: string, b: string, f: string -> seq<string>) {
    var span := CodeSpan(t, a + [ELLIPSIS] + b);
    IsSpan(span) && f(span) == IdRange(name, NumberOf(a), NumberOf(b))
  }

  lemma ReaderIsFaithful(t: Tools, name: nat -> string)
    ensures Faithful(t, name, Reader(name))
  {
    forall a | IsWord(a)
      ensures IsSpan(CodeSpan(t, a)) && ReadsId(t, a, Reader(name))
    {
      SpanOfWord(t, name, a);
    }
    forall a, b | IsWord(a) && IsWord(b)
      ensures ReadsBetween(t, name, a, b, Reader(name))
    {
      SpanOfRange(t, name, a, b);
    }
  }

  lemma ReadsPipelineId(t: Tools, name: nat -> string, id: string, f: string -> seq<string>)
    requires Naming(t, name) && IsPipelineId(name, id) && Faithful(t, name, f)
    ensures ReadsId(t, id, f) && IsSpan(CodeSpan(t, id))
  {
    var n :| 0 <= n < MAX_EXACT && id == name(n);
    assert IsWord(name(n));
  }

  lemma ReadsPipelineRun(t: Tools, name: nat -> string, ids: seq<string>, i: nat, j: nat, f: string -> seq<string>)
    requires Naming(t, name) && FromPipeline(name, ids) && Faithful(t, name, f) && i <= j < |ids| && IsRun(t, ids, i, j)
    ensures ReadsRun(t, ids, i, j, f) && IsSpan(CodeSpan(t, ids[i] + [ELLIPSIS] + ids[j]))
  {
    assert IsPipelineId(name, ids[i]);
    var m :| 0 <= m < MAX_EXACT && ids[i] == name(m);
    RunIsRange(t, name, ids, i, j, m);
    assert IsWord(name(m)) && IsWord(name(m + (j - i)));
    assert ReadsBetween(t, name, ids[i], ids[j], f);
  }

  /** The reading function reads what the pipeline's ids print as. */
  lemma ReadsPipeline(t: Tools, name: nat -> string, ids: seq<string>, f: string -> seq<string>)
    requires Naming(t, name) && FromPipeline(name, ids) && Faithful(t, name, f)
    ensures Reads(t, ids, f)
  {
    forall k | 0 <= k < |ids|
      ensures ReadsId(t, ids[k], f)
    {
      assert IsPipelineId(name, ids[k]);
      ReadsPipelineId(t, name, ids[k], f);
    }
    forall i, j | 0 <= i && i + 2 <= j < |ids| && IsRun(t, ids, i, j)
      ensures ReadsRun(t, ids, i, j, f)
    {
      ReadsPipelineRun(t, name, ids, i, j, f);
    }
  }

  lemma {:induction false} SpansAreSpans(t: Tools, name: nat -> string, ids: seq<string>, f: string -> seq<string>)
    requires Naming(t, name) && FromPipeline(name, ids) && Faithful(t, name, f)
    ensures CommaFree(Spans(t, ids)) && |Spans(t, ids)| == |ids|
  {
    if ids != [] {
      assert IsPipelineId(name, ids[0]);
      ReadsPipelineId(t, name, ids[0], f);
      SliceFromPipeline(name, ids, 1, |ids|);
      assert ids[1..|ids|] == ids[1..];
      SpansAreSpans(t, name, ids[1..], f);
      CommaFreeOne(CodeSpan(t, ids[0]));
      CommaFreeAppend([CodeSpan(t, ids[0])], Spans(t, ids[1..]));
    }
  }

  lemma RunIsSpans(t: Tools, name: nat -> string, ids: seq<string>, i: nat, j: nat, f: string -> seq<string>)
    requires Naming(t, name) && FromPipeline(name, ids) && Faithful(t, name, f) && i <= j < |ids| && IsRun(t, ids, i, j)
    ensures CommaFree(RunParts(t, ids, i, j)) && RunParts(t, ids, i, j) != []
  {
    if j - i >= 2 {
      ReadsPipelineRun(t, name, ids, i, j, f);
      CommaFreeOne(CodeSpan(t, ids[i] + [ELLIPSIS] + ids[j]));
    } else {
      SliceFromPipeline(name, ids, i, j + 1);
      SpansAreSpans(t, name, ids[i..j + 1], f);
    }
  }

  lemma {:induction false} PartsAreSpans(t: Tools, name: nat -> string, ids: seq<string>, i: nat,
                                         f: string -> seq<string>)
    requires Naming(t, name) && FromPipeline(name, ids) && Faithful(t, name, f) && i <= |ids|
    ensures CommaFree(Parts(t, ids, i)) && (i < |ids| ==> Parts(t, ids, i) != [])
    decreases |ids| - i
  {
    if i < |ids| {
      var j := RunEnd(t, ids, i);
      RunEndIsMaximal(t, ids, i);
      RunIsSpans(t, name, ids, i, j, f);
      PartsAreSpans(t, name, ids, j + 1, f);
      CommaFreeAppend(RunParts(t, ids, i, j), Parts(t, ids, j + 1));
    }
  }

  /** Splitting at the commas gives the parts back, all but the first after a space. */
  lemma {:induction false} CommasSplit(parts: seq<string>)
    requires parts != [] && CommaFree(parts)
    ensures var pieces := Text.Split(Commas(parts), ',');
      |pieces| == |parts| && pieces[0] == parts[0] && Unspaced(pieces[1..]) == parts[1..]
  {
    if |parts| == 1 {
      Text.SplitFree(parts[0], ',');
    } else {
      CommasSplit(parts[1..]);
      OneMoreComma(parts[0], parts[1..], Text.Split(Commas(parts[1..]), ','));
      assert Commas(parts) == parts[0] + [',', ' '] + Commas(parts[1..]);
    }
  }

  lemma OneMoreComma(part: string, more: seq<string>, pieces: seq<string>)
    requires ',' !in part && more != [] && pieces == Text.Split(Commas(more), ',')
    requires |pieces| == |more| && pieces[0] == more[0] && Unspaced(pieces[1..]) == more[1..]
    ensures var all := Text.Split(part + [',', ' '] + Commas(more), ',');
      |all| == |more| + 1 && all[0] == part && Unspaced(all[1..]) == more
  {
    assert part + [',', ' '] + Commas(more) == part + [','] + ([' '] + Commas(more));
    Text.SplitHead(part, [' '] + Commas(more), ',');
    SpaceStays(Commas(more));
    UnspacedFirst(pieces, more);
  }

  lemma UnspacedFirst(pieces: seq<string>, more: seq<string>)
    requires pieces != [] && more != [] && pieces[0] == more[0] && Unspaced(pieces[1..]) == more[1..]
    ensures Unspaced([[' '] + pieces[0]] + pieces[1..]) == more
  {
    var spaced := [[' '] + pieces[0]] + pieces[1..];
    assert spaced[1..] == pieces[1..] && spaced[0][1..] == pieces[0];
    assert more == [more[0]] + more[1..];
  }

  lemma SpaceStays(s: string)
    ensures Text.Split([' '] + s, ',') == [[' '] + Text.Split(s, ',')[0]] + Text.Split(s, ',')[1..]
  {
    assert ([' '] + s)[1..] == s;
  }

  /** Parts are told from the dash that stands for no ids. */
  lemma CellOfParts(name: nat -> string, parts: seq<string>)
    requires parts != [] && CommaFree(parts)
    ensures Expand(name, Commas(parts)) == FlatMap(Reader(name), parts)
  {
    CommasSplit(parts);
    var pieces := Text.Split(Commas(parts), ',');
    assert [pieces[0]] + Unspaced(pieces[1..]) == parts;
    assert IsSpan(parts[0]) && Commas(parts)[0] == TICK;
  }

  lemma CellReads(t: Tools, name: nat -> string, ids: seq<string>)
    requires Naming(t, name) && FromPipeline(name, ids)
    ensures Expand(name, Cell(t, ids)) == ids
  {
    var f := Reader(name);
    ReaderIsFaithful(t, name);
    ReadsPipeline(t, name, ids, f);
    if ids != [] {
      if |ids| <= 4 {
        SpansAreSpans(t, name, ids, f);
        CellOfParts(name, Spans(t, ids));
        SpansFlatten(t, ids, f);
      } else {
        PartsAreSpans(t, name, ids, 0, f);
        CellOfParts(name, Parts(t, ids, 0));
        PartsFlatten(t, ids, f);
      }
    }
  }

  /** A list of ids can be read back from its cell: compression leaves out only ids that are in sequence. */
  lemma CellExpands(t: Tools, ids: seq<string>)
    requires Exact(t) && FromPipeline(EvidenceId, ids)
    ensures Expand(EvidenceId, Cell(t, ids)) == ids
  {
    PipelineNames(t);
    CellReads(t, EvidenceId, ids);
  }
}
