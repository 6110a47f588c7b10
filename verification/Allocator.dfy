/**
 * Allocation of compile identities (src/compiler/compile-id.ts), retrying the pack writer on a name
 * that is taken. The commit callback is the one of src/compiler/compile-v02.ts: a candidate may be
 * given up before the writer is reached, and otherwise the writer's answer is passed on.
 */
module Allocator {
  import opened Prelude
  import opened PackWriter

  const ATTEMPTS: nat := 16

  // -----------------------------------------------------------------------
  // Identities
  // -----------------------------------------------------------------------

  function Digit(d: nat): (c: char)
    requires d < 36
    ensures c != '_'
  {
    if d < 10 then '0' + (d as char) else 'a' + ((d - 10) as char)
  }

  lemma DigitInjective(a: nat, b: nat)
    requires a < 36 && b < 36 && Digit(a) == Digit(b)
    ensures a == b
  {}

  /** `n.toString(36)`. */
  function Base36(n: nat): (s: string)
    ensures s != []
  {
    if n < 36 then [Digit(n)] else Base36(n / 36) + [Digit(n % 36)]
  }

  lemma {:induction false} Base36Injective(a: nat, b: nat)
    requires Base36(a) == Base36(b)
    ensures a == b
  {
    var s := Base36(a);
    var last := |s| - 1;
    assert s[last] == Digit(a % 36) && s[last] == Digit(b % 36);
    DigitInjective(a % 36, b % 36);
    if a >= 36 && b >= 36 {
      assert s[..last] == Base36(a / 36) && s[..last] == Base36(b / 36);
      Base36Injective(a / 36, b / 36);
    }
  }

  function Hex(bytes: seq<Byte>): (s: string)
    ensures |s| == 2 * |bytes|
  {
    if bytes == [] then [] else [Digit(bytes[0] / 16), Digit(bytes[0] % 16)] + Hex(bytes[1..])
  }

  lemma {:induction false} HexInjective(a: seq<Byte>, b: seq<Byte>)
    requires Hex(a) == Hex(b)
    ensures a == b
  {
    if a != [] && b != [] {
      var s := Hex(a);
      assert s[0] == Digit(a[0] / 16) && s[0] == Digit(b[0] / 16);
      assert s[1] == Digit(a[0] % 16) && s[1] == Digit(b[0] % 16);
      DigitInjective(a[0] / 16, b[0] / 16);
      DigitInjective(a[0] % 16, b[0] % 16);
      assert s[2..] == Hex(a[1..]) && s[2..] == Hex(b[1..]);
      HexInjective(a[1..], b[1..]);
      assert a == [a[0]] + a[1..] && b == [b[0]] + b[1..];
    }
  }

  /** `parseInt(c, 36)` */
  function DigitOf(c: char): nat {
    if '0' <= c <= '9' then c as int - '0' as int
    else if 'a' <= c <= 'z' then c as int - 'a' as int + 10
    else 0
  }

  function Value36(s: string): nat {
    if s == [] then 0 else Value36(s[..|s| - 1]) * 36 + DigitOf(s[|s| - 1])
  }

  lemma DigitReads(d: nat)
    requires d < 36
    ensures DigitOf(Digit(d)) == d && ('0' <= Digit(d) <= '9' || 'a' <= Digit(d) <= 'z')
    ensures d < 16 ==> '0' <= Digit(d) <= '9' || 'a' <= Digit(d) <= 'f'
  {}

  /** The clock part is a numeral in base 36 that reads as the clock. */
  lemma {:induction false} ClockReadsBack(n: nat)
    ensures Value36(Base36(n)) == n
    ensures forall c :: c in Base36(n) ==> '0' <= c <= '9' || 'a' <= c <= 'z'
  {
    var s := Base36(n);
    DigitReads(n % 36);
    if n >= 36 {
      ClockReadsBack(n / 36);
      assert s[..|s| - 1] == Base36(n / 36);
    } else {
      assert s[..0] == [] && Value36([]) == 0;
    }
  }

  /** The random part is two hex digits a byte. */
  lemma {:induction false} EntropyReadsBack(bytes: seq<Byte>, i: nat)
    requires i < |bytes|
    ensures DigitOf(Hex(bytes)[2 * i]) * 16 + DigitOf(Hex(bytes)[2 * i + 1]) == bytes[i]
    ensures forall k :: 2 * i <= k <= 2 * i + 1 ==> '0' <= Hex(bytes)[k] <= '9' || 'a' <= Hex(bytes)[k] <= 'f'
  {
    if i > 0 {
      EntropyReadsBack(bytes[1..], i - 1);
      assert Hex(bytes)[2..] == Hex(bytes[1..]);
      assert Hex(bytes)[2 * i] == Hex(bytes[1..])[2 * (i - 1)];
      assert Hex(bytes)[2 * i + 1] == Hex(bytes[1..])[2 * (i - 1) + 1];
    } else {
      DigitReads(bytes[0] / 16);
      DigitReads(bytes[0] % 16);
    }
  }

  function Token(clock: nat, entropy: seq<Byte>): string {
    Base36(clock) + "_" + Hex(entropy)
  }

  function CompileId(token: string): string {
    "compile_" + token
  }

  /** Two candidates share a name only if they share the clock reading and all eight random bytes. */
  lemma CompileIdsDiffer(c1: nat, e1: seq<Byte>, c2: nat, e2: seq<Byte>)
    requires |e1| == 8 && |e2| == 8 && CompileId(Token(c1, e1)) == CompileId(Token(c2, e2))
    ensures c1 == c2 && e1 == e2
  {
    var t1, t2 := Token(c1, e1), Token(c2, e2);
    assert CompileId(t1)[8..] == t1 && CompileId(t2)[8..] == t2;
    var cut := |t1| - 17;
    assert t1[cut + 1..] == Hex(e1) && t2[cut + 1..] == Hex(e2);
    assert t1[..cut] == Base36(c1) && t2[..cut] == Base36(c2);
    HexInjective(e1, e2);
    Base36Injective(c1, c2);
  }

  // -----------------------------------------------------------------------
  // Candidates and their commit
  // -----------------------------------------------------------------------

  datatype Commit =
    | Wrote(packRef: string) | DestinationExists | Aborted | InvalidCapture | CaptureFailed
    | Unavailable | Mismatch | Unconfirmed | Threw | Malformed

  /**
   * The random bytes, none when their generator throws; what ends the candidate before the writer is
   * reached, if anything; the request; how many states the writer goes through before its parent kills it,
   * if it does; the reference reported back, when not the pack's own name.
   */
  datatype Candidate = Candidate(
    entropy: seq<Byte>, before: Option<Commit>, content: Request, killedAfter: Option<nat>, reported: Option<string>)

  predicate ValidCandidate(c: Candidate, fs: Fs) {
    && (c.before.Some? ==> !c.before.value.Wrote? && !c.before.value.DestinationExists?)
    && ValidRequest(c.content)
    && (c.content.standalone.Some? ==> c.content.standalone.value.at in fs.dirs)
  }

  datatype Outcome =
    | Allocated(compileId: string)
    | StoreInvalid | CandidateAborted | CollisionLimit | InvalidOutputCapture | OutputCaptureFailed
    | HelperUnavailable | IdentityChanged | DurabilityUnknown

  function IdOf(clock: nat, c: Candidate): string {
    CompileId(Token(clock, c.entropy))
  }

  function RequestOf(clock: nat, c: Candidate): Request
  {
    c.content.(packName := IdOf(clock, c))
  }

  predicate Usable(c: Candidate) {
    |c.entropy| == 8
  }

  /** The same names and files, whatever identities have been used up. */
  predicate SameNamespace(a: Fs, b: Fs) {
    a.dirs == b.dirs && a.files == b.files
  }

  lemma SafeFromSameNamespace(a: Fs, b: Fs, fs: Fs, req: Request)
    requires SameNamespace(a, b) && Safe(b, fs, req)
    ensures Safe(a, fs, req)
  {}

  lemma SameNamespaceStaysWellFormed(a: Fs, b: Fs)
    requires WellFormed(a) && SameNamespace(a, b) && b.next >= a.next
    ensures WellFormed(b)
  {}

  function Reported(clock: nat, c: Candidate): string {
    if c.reported.Some? then c.reported.value else IdOf(clock, c)
  }

  /** How the callback passes the writer's answer on. */
  predicate PassedOn(answer: Response, r: Commit, packRef: string) {
    && (answer.Ok? <==> r == Wrote(packRef)) && (answer.PackExists? <==> r.DestinationExists?)
    && (answer.StandaloneExists? <==> r.Aborted?) && (answer.IdentityMismatch? <==> r.Mismatch?)
    && (answer.DurabilityUnconfirmed? <==> r.Unconfirmed?)
  }

  /** What goes with each answer of the writer. */
  ghost predicate Answers(was: Fs, fs: Fs, req: Request, answer: Response) {
    && (answer.Ok? ==> Committed(was, fs, req))
    && (answer in {PackExists, StandaloneExists, IdentityMismatch} ==> SameNamespace(was, fs))
    && (answer.PackExists? ==> req.storeId in fs.dirs && req.packName in fs.dirs[req.storeId])
    && (answer.StandaloneExists? ==> StandaloneTaken(was, req))
  }

  /** The parent killed the writer after this many states: it went through no more. */
  predicate CutShort(c: Candidate, states: nat) {
    c.before.None? && c.killedAfter == Some(states)
  }

  /**
   * The callback of lines 311 to 393 of src/compiler/compile-v02.ts. The writer runs in a process of its own
   * (src/io/compiler-writer-helper.ts), which is killed when it takes too long: whatever it had written by
   * then stays, and the answer is "unavailable". `answer` is the writer's, if it came to one.
   */
  method CommitCandidate(writer: Writer, clock: nat, c: Candidate) returns (r: Commit, ghost answer: Option<Response>)
    requires Usable(c) && ValidCandidate(c, writer.fs) && WellFormed(writer.fs) && writer.cwd in writer.fs.dirs
    modifies writer
    ensures old(writer.log) <= writer.log && writer.SafeSince(old(writer.fs), RequestOf(clock, c), |old(writer.log)|)
    ensures Safe(old(writer.fs), writer.fs, RequestOf(clock, c))
    // given up before the writer is reached
    ensures c.before.Some? ==>
              r == c.before.value && answer.None? && writer.fs == old(writer.fs) && writer.log == old(writer.log)
    // killed: the state is the last one it went through
    ensures var states := |writer.log| - |old(writer.log)|;
      CutShort(c, states) ==>
        && r.Unavailable? && answer.None?
        && writer.fs == if states == 0 then old(writer.fs) else writer.log[|writer.log| - 1]
    // answered
    ensures c.before.None? && !CutShort(c, |writer.log| - |old(writer.log)|) ==>
              && answer.Some? && PassedOn(answer.value, r, Reported(clock, c))
              && Answers(old(writer.fs), writer.fs, RequestOf(clock, c), answer.value)
              && (old(writer.Quiet()) ==>
                    answer.value == Expected(old(writer.fs), old(writer.cwd), RequestOf(clock, c)))
    ensures r.Wrote? ==> Committed(old(writer.fs), writer.fs, RequestOf(clock, c))
    ensures r.Wrote? ==> r.packRef == Reported(clock, c)
    ensures r.DestinationExists? ==> SameNamespace(old(writer.fs), writer.fs) && writer.cwd == old(writer.cwd)
    ensures r.DestinationExists? ==> writer.fs.next >= old(writer.fs).next
    // killed right after it made the pack
    ensures CutShort(c, 1) && writer.GoRightUntil(old(writer.clock) + 6)
            && old(writer.cwd) == c.content.storeId && IdOf(clock, c) !in old(writer.fs).dirs[old(writer.cwd)] ==>
              r.Unavailable? && writer.fs == AddDir(old(writer.fs), old(writer.cwd), IdOf(clock, c))
  {
    answer := None;
    if c.before.Some? {
      return c.before.value, None;
    }
    var began, from := writer.fs, |writer.log|;
    var written := writer.Execute(RequestOf(clock, c));
    if c.killedAfter.Some? && from + c.killedAfter.value <= |writer.log| {
      writer.Die(began, from, c.killedAfter.value);
      return Unavailable, None;
    }
    answer := Some(written);
    r := match written
      case Ok => Wrote(Reported(clock, c))
      case PackExists => DestinationExists
      case StandaloneExists => Aborted
      case IdentityMismatch => Commit.Mismatch
      case DurabilityUnconfirmed => Unconfirmed;
  }

  function OutcomeOf(r: Commit, compileId: string): (o: Outcome)
    requires !r.DestinationExists?
    ensures o.Allocated? <==> r.Wrote? && r.packRef == compileId
    ensures o.Allocated? ==> o.compileId == compileId
  {
    match r
    case Wrote(packRef) => if packRef == compileId then Allocated(compileId) else InvalidOutputCapture
    case Aborted => CandidateAborted
    case InvalidCapture => InvalidOutputCapture
    case CaptureFailed => OutputCaptureFailed
    case Mismatch => IdentityChanged
    case Unconfirmed => DurabilityUnknown
    case _ => HelperUnavailable
  }

  /** The outcome of the last commit, by the writer's own answer. */
  lemma OutcomeByAnswer(answer: Response, r: Commit, packRef: string, compileId: string)
    requires PassedOn(answer, r, packRef) && !answer.PackExists?
    ensures var o := OutcomeOf(r, compileId);
      && (o.Allocated? <==> answer.Ok? && packRef == compileId)
      && (o.InvalidOutputCapture? <==> answer.Ok? && packRef != compileId)
      && (o.CandidateAborted? <==> answer.StandaloneExists?)
      && (o.IdentityChanged? <==> answer.IdentityMismatch?)
      && (o.DurabilityUnknown? <==> answer.DurabilityUnconfirmed?)
  {}

  /** A commit that came to no answer of the writer, or to one that is none of these, is "unavailable". */
  lemma OutcomeWithoutAnswer(r: Commit, compileId: string)
    requires !r.DestinationExists? && !r.Wrote?
    ensures var o := OutcomeOf(r, compileId);
      && (o.HelperUnavailable? <==> r.Unavailable? || r.Threw? || r.Malformed?)
      && (o.InvalidOutputCapture? <==> r.InvalidCapture?) && (o.OutputCaptureFailed? <==> r.CaptureFailed?)
      && !o.StoreInvalid? && !o.CollisionLimit?
  {}

  /** Every state in `states` is one of the candidates' writing over the namespace of `base`. */
  ghost predicate EachOfOneCandidate(base: Fs, states: seq<Fs>, clock: nat, tried: seq<Candidate>) {
    forall i :: 0 <= i < |states| ==> OfOneCandidate(base, states[i], clock, tried)
  }

  ghost predicate OfOneCandidate(base: Fs, fs: Fs, clock: nat, tried: seq<Candidate>) {
    exists k :: 0 <= k < |tried| && Safe(base, fs, RequestOf(clock, tried[k]))
  }

  lemma OneMoreCandidate(base: Fs, states: seq<Fs>, more: seq<Fs>, clock: nat, tried: seq<Candidate>, c: Candidate)
    requires EachOfOneCandidate(base, states, clock, tried)
    requires forall i :: 0 <= i < |more| ==> Safe(base, more[i], RequestOf(clock, c))
    ensures EachOfOneCandidate(base, states + more, clock, tried + [c])
  {
    var all := states + more;
    forall i | 0 <= i < |all|
      ensures OfOneCandidate(base, all[i], clock, tried + [c])
    {
      if i < |states| {
        var k :| 0 <= k < |tried| && Safe(base, states[i], RequestOf(clock, tried[k]));
        assert (tried + [c])[k] == tried[k];
      } else {
        assert (tried + [c])[|tried|] == c;
      }
    }
  }

  /** One commit, over the namespace of `base`. */
  method CommitOver(writer: Writer, clock: nat, c: Candidate, ghost base: Fs, ghost before: seq<Fs>,
                    ghost tried: seq<Candidate>)
    returns (r: Commit, ghost more: seq<Fs>)
    requires EachOfOneCandidate(base, before, clock, tried)
    requires Usable(c) && ValidCandidate(c, writer.fs) && WellFormed(base) && writer.cwd in base.dirs
    requires SameNamespace(base, writer.fs) && writer.fs.next >= base.next
    modifies writer
    ensures writer.log == old(writer.log) + more
    ensures EachOfOneCandidate(base, before + more, clock, tried + [c])
    ensures Safe(base, writer.fs, RequestOf(clock, c))
    ensures r.Wrote? ==> Committed(base, writer.fs, RequestOf(clock, c))
    ensures r.Wrote? ==> r.packRef == if c.reported.Some? then c.reported.value else IdOf(clock, c)
    ensures r.DestinationExists? ==>
              SameNamespace(base, writer.fs) && writer.cwd == old(writer.cwd) && writer.fs.next >= base.next
  {
    SameNamespaceStaysWellFormed(base, writer.fs);
    ghost var start, logged := writer.fs, writer.log;
    ghost var answer;
    r, answer := CommitCandidate(writer, clock, c);
    more := writer.log[|logged|..];
    forall i | 0 <= i < |more|
      ensures Safe(base, more[i], RequestOf(clock, c))
    {
      SafeFromSameNamespace(base, start, more[i], RequestOf(clock, c));
    }
    OneMoreCandidate(base, before, more, clock, tried, c);
    SafeFromSameNamespace(base, start, writer.fs, RequestOf(clock, c));
  }

  predicate ClockReads(now: Option<int>) {
    now.Some? && 0 <= now.value <= MAX_SAFE
  }

  /** How a run of answers reads: every answer but the last is a name that was taken. */
  ghost predicate Retried(answers: seq<Commit>, candidates: seq<Candidate>) {
    && |answers| <= |candidates|
    && (forall k :: 0 <= k < |answers| ==> Usable(candidates[k]))
    && (forall k :: 0 <= k < |answers| - 1 ==> answers[k].DestinationExists?)
  }

  /** Whether the namespace is still as it was, as far as the answers tell. */
  predicate NothingKept(answers: seq<Commit>) {
    answers == [] || answers[|answers| - 1].DestinationExists?
  }

  /** Trying stops early only at an answer that is not a taken name, or for want of eight random bytes. */
  predicate StopsForReason(answers: seq<Commit>, candidates: seq<Candidate>) {
    NothingKept(answers) && |answers| < |candidates| ==> !Usable(candidates[|answers|])
  }

  /** What the answers to the candidates come to. */
  function Verdict(answers: seq<Commit>, clock: nat, candidates: seq<Candidate>): Outcome
    requires |answers| <= |candidates|
  {
    if !NothingKept(answers) then OutcomeOf(answers[|answers| - 1], IdOf(clock, candidates[|answers| - 1]))
    else if |answers| == ATTEMPTS then CollisionLimit
    else HelperUnavailable
  }

  /** What the last answer says about the filesystem. */
  ghost predicate Kept(base: Fs, fs: Fs, answers: seq<Commit>, clock: nat, candidates: seq<Candidate>)
    requires |answers| <= |candidates|
  {
    if NothingKept(answers) then SameNamespace(base, fs)
    else LastKept(base, fs, answers[|answers| - 1], RequestOf(clock, candidates[|answers| - 1]))
  }

  ghost predicate LastKept(base: Fs, fs: Fs, answer: Commit, req: Request) {
    Safe(base, fs, req) && (answer.Wrote? ==> Committed(base, fs, req))
  }

  /** One round of the loop, lines 127 to 169. */
  method TryOne(writer: Writer, clock: nat, candidates: seq<Candidate>, k: nat, ghost base: Fs, ghost states: seq<Fs>)
    returns (r: Commit, ghost more: seq<Fs>)
    requires k < |candidates| && Usable(candidates[k]) && ValidCandidate(candidates[k], base)
    requires WellFormed(base) && writer.cwd in base.dirs && SameNamespace(base, writer.fs)
             && writer.fs.next >= base.next
    requires EachOfOneCandidate(base, states, clock, candidates[..k])
    modifies writer
    ensures writer.log == old(writer.log) + more
    ensures EachOfOneCandidate(base, states + more, clock, candidates[..k + 1])
    ensures r.DestinationExists? ==>
              SameNamespace(base, writer.fs) && writer.cwd in base.dirs && writer.fs.next >= base.next
    ensures !r.DestinationExists? ==> LastKept(base, writer.fs, r, RequestOf(clock, candidates[k]))
  {
    r, more := CommitOver(writer, clock, candidates[k], base, states, candidates[..k]);
    assert candidates[..k] + [candidates[k]] == candidates[..k + 1];
  }

  /** One more answer: the loop goes on, or this is the last. */
  lemma Answered(base: Fs, fs: Fs, answers: seq<Commit>, r: Commit, clock: nat, candidates: seq<Candidate>)
    requires Retried(answers, candidates) && NothingKept(answers)
    requires |answers| < |candidates| && Usable(candidates[|answers|])
    ensures Retried(answers + [r], candidates)
    ensures NothingKept(answers + [r]) <==> r.DestinationExists?
    ensures !r.DestinationExists? ==>
              && Verdict(answers + [r], clock, candidates) == OutcomeOf(r, IdOf(clock, candidates[|answers|]))
              && (LastKept(base, fs, r, RequestOf(clock, candidates[|answers|])) ==>
                  Kept(base, fs, answers + [r], clock, candidates))
  {
    var more := answers + [r];
    assert more[|answers|] == r && forall k :: 0 <= k < |answers| ==> more[k] == answers[k];
  }

  /** Lines 126 to 192. `answers` is what each commit answered, `states` the states logged on the way. */
  method TryCandidates(writer: Writer, clock: nat, candidates: seq<Candidate>)
    returns (outcome: Outcome, answers: seq<Commit>, ghost states: seq<Fs>)
    requires WellFormed(writer.fs) && writer.cwd in writer.fs.dirs && |candidates| == ATTEMPTS
    requires forall k :: 0 <= k < ATTEMPTS ==> ValidCandidate(candidates[k], writer.fs)
    modifies writer
    ensures Retried(answers, candidates) && outcome == Verdict(answers, clock, candidates)
    ensures StopsForReason(answers, candidates)
    ensures Kept(old(writer.fs), writer.fs, answers, clock, candidates)
    ensures writer.log == old(writer.log) + states
    ensures EachOfOneCandidate(old(writer.fs), states, clock, candidates[..|answers|])
  {
    answers, states := [], [];
    ghost var base := writer.fs;
    var attempt := 0;
    while attempt < ATTEMPTS
      invariant 0 <= attempt <= ATTEMPTS && |answers| == attempt
      invariant Retried(answers, candidates) && NothingKept(answers)
      invariant SameNamespace(base, writer.fs) && writer.cwd in base.dirs && writer.fs.next >= base.next
      invariant writer.log == old(writer.log) + states
      invariant EachOfOneCandidate(base, states, clock, candidates[..attempt])
    {
      if !Usable(candidates[attempt]) {
        return HelperUnavailable, answers, states;
      }
      var r;
      ghost var more;
      r, more := TryOne(writer, clock, candidates, attempt, base, states);
      Answered(base, writer.fs, answers, r, clock, candidates);
      states, answers := states + more, answers + [r];
      attempt := attempt + 1;
      if !r.DestinationExists? {
        outcome := OutcomeOf(r, IdOf(clock, candidates[attempt - 1]));
        return;
      }
    }
    outcome := CollisionLimit;
  }

  /**
   * `allocateAndCommitCompileIdentityV02`, lines 97 to 193.
   *
   * Whatever state a crash leaves, it is a state of one candidate's writing over the namespace as it was
   * before the allocation: at most one new pack directory, and no manifest before its content.
   */
  method Allocate(writer: Writer, storeValid: bool, now: Option<int>, candidates: seq<Candidate>)
    returns (outcome: Outcome, answers: seq<Commit>, ghost states: seq<Fs>)
    requires WellFormed(writer.fs) && writer.cwd in writer.fs.dirs && |candidates| == ATTEMPTS
    requires forall k :: 0 <= k < ATTEMPTS ==> ValidCandidate(candidates[k], writer.fs)
    modifies writer
    ensures Retried(answers, candidates) && writer.log == old(writer.log) + states
    ensures !storeValid ==> outcome == StoreInvalid
    ensures storeValid && !ClockReads(now) ==> outcome == HelperUnavailable
    ensures !(storeValid && ClockReads(now)) ==> answers == [] && states == [] && writer.fs == old(writer.fs)
    ensures storeValid && ClockReads(now) ==>
              && outcome == Verdict(answers, now.value, candidates) && StopsForReason(answers, candidates)
              && Kept(old(writer.fs), writer.fs, answers, now.value, candidates)
              && EachOfOneCandidate(old(writer.fs), states, now.value, candidates[..|answers|])
  {
    if !storeValid {
      return StoreInvalid, [], [];
    }
    if now.None? || now.value < 0 || now.value > MAX_SAFE {
      return HelperUnavailable, [], [];
    }
    outcome, answers, states := TryCandidates(writer, now.value, candidates);
  }

  /** Success names the last candidate, whose whole request is on disk; the limit means sixteen taken names. */
  lemma WhatTheOutcomeMeans(base: Fs, fs: Fs, answers: seq<Commit>, clock: nat, candidates: seq<Candidate>)
    requires Retried(answers, candidates) && |candidates| == ATTEMPTS
    requires Kept(base, fs, answers, clock, candidates) && StopsForReason(answers, candidates)
    ensures forall k :: 0 <= k < |answers| ==> |candidates[k].entropy| == 8
    ensures NothingKept(answers) && |answers| < ATTEMPTS ==> |candidates[|answers|].entropy| != 8
    ensures var outcome := Verdict(answers, clock, candidates);
      && (!NothingKept(answers) ==>
            var last := answers[|answers| - 1];
            && (outcome.IdentityChanged? <==> last.Mismatch?) && (outcome.DurabilityUnknown? <==> last.Unconfirmed?)
            && (outcome.CandidateAborted? <==> last.Aborted?) && (last.Unavailable? ==> outcome.HelperUnavailable?))
      && (NothingKept(answers) ==> outcome.CollisionLimit? || outcome.HelperUnavailable?)
      && (outcome.Allocated? ==>
            && answers != [] && outcome.compileId == IdOf(clock, candidates[|answers| - 1])
            && Committed(base, fs, RequestOf(clock, candidates[|answers| - 1])))
      && (outcome.CollisionLimit? <==>
            |answers| == ATTEMPTS && forall k :: 0 <= k < ATTEMPTS ==> answers[k].DestinationExists?)
      && (outcome.CollisionLimit? ==> SameNamespace(base, fs))
      && (forall d, e :: d in fs.dirs && e in fs.dirs && d !in base.dirs && e !in base.dirs ==> d == e)
  {
    if !NothingKept(answers) {
      var req := RequestOf(clock, candidates[|answers| - 1]);
      forall d, e | d in fs.dirs && e in fs.dirs && d !in base.dirs && e !in base.dirs
        ensures d == e
      {
        assert fs.dirs[req.storeId][req.packName] == d && fs.dirs[req.storeId][req.packName] == e;
      }
    }
  }
}
