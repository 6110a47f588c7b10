/**
 * The hash-chained ledger (src/ledger.ts): sealing, serialising, tolerant parsing, validation and
 * recovery.
 *
 * The hash of an unsealed event is a parameter; nothing is assumed of it except, where a result
 * needs it, that it is injective. The strict event schema is a parameter too: a reader and a writer
 * of JSON values that agree on the events the schema admits.
 */
module Ledger {
  import opened Prelude
  import opened Json

  datatype Draft = Draft(eventId: string, runId: string, eventType: string, rest: seq<Field>)
  datatype Unsealed = Unsealed(draft: Draft, sequence: nat, previous: Option<string>)
  datatype Event = Event(unsealed: Unsealed, hash: string)
  type HashFn = Unsealed -> string

  datatype Schema = Schema(read: J -> Option<Event>, write: Event -> J, admits: Event -> bool)

  ghost predicate Faithful(s: Schema) {
    && (forall e :: s.admits(e) ==>
          WellFormed(s.write(e)) && s.write(e).Obj? && s.read(s.write(e)) == Some(e))
    && forall j :: s.read(j).Some? ==> s.admits(s.read(j).value)
  }

  // -----------------------------------------------------------------------
  // Sealing
  // -----------------------------------------------------------------------

  function HeadHash(events: seq<Event>): Option<string> {
    if events == [] then None else Some(events[|events| - 1].hash)
  }

  /** `appendToLedger`. */
  function Seal(h: HashFn, existing: seq<Event>, draft: Draft): Event {
    var unsealed := Unsealed(draft, |existing| + 1, HeadHash(existing));
    Event(unsealed, h(unsealed))
  }

  /** The ledger that appending the drafts one by one produces. */
  function SealAll(h: HashFn, drafts: seq<Draft>): (events: seq<Event>)
    ensures |events| == |drafts|
  {
    if drafts == [] then []
    else
      var existing := SealAll(h, drafts[..|drafts| - 1]);
      existing + [Seal(h, existing, drafts[|drafts| - 1])]
  }

  /** Event `i` sits at its place, is linked to the one before, and carries the hash of its content. */
  ghost predicate LinkedAt(h: HashFn, events: seq<Event>, i: nat)
    requires i < |events|
  {
    PlacedAt(events, i) && events[i].hash == h(events[i].unsealed)
  }

  ghost predicate PlacedAt(events: seq<Event>, i: nat)
    requires i < |events|
  {
    && events[i].unsealed.sequence == i + 1
    && events[i].unsealed.previous == if i == 0 then None else Some(events[i - 1].hash)
  }

  ghost predicate OneRun(drafts: seq<Draft>) {
    forall i :: 0 <= i < |drafts| ==> drafts[i].runId == drafts[0].runId
  }

  ghost predicate DistinctIds(drafts: seq<Draft>) {
    forall i, j :: 0 <= i < j < |drafts| ==> drafts[i].eventId != drafts[j].eventId
  }

  function Drafts(events: seq<Event>): (drafts: seq<Draft>)
    ensures |drafts| == |events| && forall i :: 0 <= i < |events| ==> drafts[i] == events[i].unsealed.draft
  {
    seq(|events|, i requires 0 <= i < |events| => events[i].unsealed.draft)
  }

  lemma {:induction false} SealAllPrefix(h: HashFn, drafts: seq<Draft>, n: nat)
    requires n <= |drafts|
    ensures SealAll(h, drafts)[..n] == SealAll(h, drafts[..n])
    decreases |drafts|
  {
    if n < |drafts| {
      var init := drafts[..|drafts| - 1];
      SealAllPrefix(h, init, n);
      assert init[..n] == drafts[..n];
    } else {
      assert drafts[..n] == drafts;
    }
  }

  lemma {:induction false} SealAllLinked(h: HashFn, drafts: seq<Draft>)
    ensures var events := SealAll(h, drafts);
      Drafts(events) == drafts && forall i :: 0 <= i < |events| ==> LinkedAt(h, events, i)
  {
    if drafts != [] {
      var init := drafts[..|drafts| - 1];
      SealAllLinked(h, init);
      var existing, events := SealAll(h, init), SealAll(h, drafts);
      forall i | 0 <= i < |events| ensures LinkedAt(h, events, i) && Drafts(events)[i] == drafts[i] {
        if i < |init| {
          assert LinkedAt(h, existing, i) && events[i] == existing[i] && Drafts(existing)[i] == init[i];
          assert i > 0 ==> events[i - 1] == existing[i - 1];
        }
      }
    }
  }

  /** Being linked throughout is being what sealing one's own drafts produces. */
  lemma {:induction false} LinkedIsSealed(h: HashFn, events: seq<Event>)
    requires forall i :: 0 <= i < |events| ==> LinkedAt(h, events, i)
    ensures events == SealAll(h, Drafts(events))
  {
    if events != [] {
      var init, last := events[..|events| - 1], events[|events| - 1];
      forall i | 0 <= i < |init| ensures LinkedAt(h, init, i) {
        assert LinkedAt(h, events, i) && (i > 0 ==> init[i - 1] == events[i - 1]);
      }
      LinkedIsSealed(h, init);
      assert Drafts(events)[..|events| - 1] == Drafts(init);
      assert LinkedAt(h, events, |init|);
      assert events == init + [last];
    }
  }

  ghost predicate Injective(h: HashFn) {
    forall a, b :: h(a) == h(b) ==> a == b
  }

  /** Under an injective hash the head hash determines the whole ledger. */
  lemma {:induction false} HeadDetermines(h: HashFn, a: seq<Event>, b: seq<Event>)
    requires Injective(h) && HeadHash(a) == HeadHash(b)
    requires forall i :: 0 <= i < |a| ==> LinkedAt(h, a, i)
    requires forall i :: 0 <= i < |b| ==> LinkedAt(h, b, i)
    ensures a == b
  {
    if a != [] {
      var a', b' := a[..|a| - 1], b[..|b| - 1];
      assert LinkedAt(h, a, |a'|) && LinkedAt(h, b, |b'|);
      assert a[|a'|].unsealed == b[|b'|].unsealed;
      forall i | 0 <= i < |a'| ensures LinkedAt(h, a', i) { assert LinkedAt(h, a, i); }
      forall i | 0 <= i < |b'| ensures LinkedAt(h, b', i) { assert LinkedAt(h, b, i); }
      HeadDetermines(h, a', b');
      assert a == a' + [a[|a'|]] && b == b' + [b[|b'|]];
    }
  }

  // -----------------------------------------------------------------------
  // Validation
  // -----------------------------------------------------------------------

  datatype Issue =
    | BadShape(i: nat) | RunMismatch(i: nat) | DuplicateId(i: nat)
    | BadSequence(i: nat) | BadLink(i: nat) | BadHash(i: nat)

  /** Raw event `k` reads, is placed in order, and belongs to the first event's run under an id of its own. */
  ghost predicate Fits(s: Schema, raw: seq<J>, k: nat)
    requires k < |raw|
  {
    && s.read(raw[k]).Some?
    && var e := s.read(raw[k]).value.unsealed;
       && e.sequence == k + 1
       && (if k == 0 then e.previous == None
           else s.read(raw[k - 1]).Some? && e.previous == Some(s.read(raw[k - 1]).value.hash))
       && s.read(raw[0]).Some? && e.draft.runId == s.read(raw[0]).value.unsealed.draft.runId
       && forall j :: 0 <= j < k && s.read(raw[j]).Some? ==>
            s.read(raw[j]).value.unsealed.draft.eventId != e.draft.eventId
  }

  ghost predicate Chained(s: Schema, raw: seq<J>, n: nat)
    requires n <= |raw|
  {
    forall k :: 0 <= k < n ==> Fits(s, raw, k)
  }

  method ValidateLedger(s: Schema, raw: seq<J>) returns (issues: seq<Issue>)
    ensures issues == [] <==> Chained(s, raw, |raw|)
  {
    issues := [];
    var prevHash, runId: Option<string> := None, None;
    var eventIds: set<string> := {};
    for i := 0 to |raw|
      invariant issues == [] <==> Chained(s, raw, i)
      invariant issues == [] && i > 0 ==> s.read(raw[0]).Some? && s.read(raw[i - 1]).Some?
      invariant issues == [] && i > 0 ==> prevHash == Some(s.read(raw[i - 1]).value.hash)
      invariant issues == [] && i > 0 ==> runId == Some(s.read(raw[0]).value.unsealed.draft.runId)
      invariant i == 0 ==> runId == None
      invariant forall id :: id in eventIds <==>
        exists k :: 0 <= k < i && s.read(raw[k]).Some? && s.read(raw[k]).value.unsealed.draft.eventId == id
    {
      ghost var before := issues;
      var parsed := s.read(raw[i]);
      if parsed.None? {
        issues := issues + [BadShape(i)];
      } else {
        var ev := parsed.value;
        if runId.None? {
          runId := Some(ev.unsealed.draft.runId);
        } else if ev.unsealed.draft.runId != runId.value {
          issues := issues + [RunMismatch(i)];
        }
        if ev.unsealed.draft.eventId in eventIds {
          issues := issues + [DuplicateId(i)];
        }
        eventIds := eventIds + {ev.unsealed.draft.eventId};
        if ev.unsealed.sequence != i + 1 {
          issues := issues + [BadSequence(i)];
        }
        if i == 0 {
          if ev.unsealed.previous != None {
            issues := issues + [BadLink(i)];
          }
        } else if ev.unsealed.previous != prevHash {
          issues := issues + [BadLink(i)];
        }
        prevHash := Some(ev.hash);
      }
      assert before == [] ==> (issues == [] <==> Fits(s, raw, i));
      assert before != [] ==> issues != [];
      assert issues == [] ==> Fits(s, raw, i);
    }
  }

  method VerifyEventHashes(h: HashFn, events: seq<Event>) returns (issues: seq<Issue>)
    ensures issues == [] <==> forall i :: 0 <= i < |events| ==> events[i].hash == h(events[i].unsealed)
  {
    issues := [];
    for i := 0 to |events|
      invariant issues == [] <==> forall k :: 0 <= k < i ==> events[k].hash == h(events[k].unsealed)
    {
      if h(events[i].unsealed) != events[i].hash {
        issues := issues + [BadHash(i)];
      }
    }
  }

  // -----------------------------------------------------------------------
  // Recovery
  // -----------------------------------------------------------------------

  /** The raw events that read, in order. */
  function Readable(s: Schema, raw: seq<J>): seq<Event> {
    if raw == [] then []
    else
      var last := s.read(raw[|raw| - 1]);
      Readable(s, raw[..|raw| - 1]) + if last.Some? then [last.value] else []
  }

  datatype Options = Options(partialFinalLineDropped: bool, expectedLastSequence: Option<nat>, corruptLines: seq<nat>)
  datatype Finding = PartialLine | CorruptLines | Chain(issue: Issue) | Integrity(issue: Issue) | Truncation
  datatype Recovery = Recovery(valid: bool, runState: string, lastValidSequence: nat, terminated: bool,
                               findings: seq<Finding>)

  function RunState(eventType: string): string {
    match eventType
    case "run.completed" => "completed"
    case "run.failed" => "failed"
    case "run.interrupted" => "interrupted"
    case "run.recovering" => "recovering"
    case "run.held" => "held"
    case _ => "running"
  }

  predicate IsTerminal(eventType: string) {
    eventType in ["run.completed", "run.failed", "run.held", "run.archived"]
  }

  /**
   * Which event gives which state: each of the five lifecycle events its own, so that a failed run never reads as
   * completed, and any other event "running".
   */
  lemma StateTable(eventType: string)
    ensures var state := RunState(eventType);
      && (state == "completed" <==> eventType == "run.completed") && (state == "failed" <==> eventType == "run.failed")
      && (state == "interrupted" <==> eventType == "run.interrupted")
      && (state == "recovering" <==> eventType == "run.recovering") && (state == "held" <==> eventType == "run.held")
      && (state == "running" <==>
          eventType !in {"run.completed", "run.failed", "run.interrupted", "run.recovering", "run.held"})
      && state != "planned"
  {
    StatesDiffer();
  }

  lemma StatesDiffer()
    ensures "completed" != "failed" && "completed" != "interrupted" && "completed" != "recovering"
    ensures "completed" != "held" && "completed" != "running" && "completed" != "planned"
    ensures "failed" != "interrupted" && "failed" != "recovering" && "failed" != "held" && "failed" != "running"
    ensures "failed" != "planned" && "interrupted" != "recovering" && "interrupted" != "held"
    ensures "interrupted" != "running" && "interrupted" != "planned" && "recovering" != "held"
    ensures "recovering" != "running" && "recovering" != "planned" && "held" != "running" && "held" != "planned"
    ensures "running" != "planned"
  {
    assert |"completed"| == 9 && |"failed"| == 6 && |"interrupted"| == 11 && |"recovering"| == 10 && |"held"| == 4;
    assert |"running"| == 7 && |"planned"| == 7 && "running"[0] == 'r' && "planned"[0] == 'p';
  }

  /**
   * A run has ended exactly when its state is completed, failed or held, or its last event is "run.archived":
   * an archived run has ended although its state reads "running".
   */
  lemma TerminalStates(eventType: string)
    ensures IsTerminal(eventType) <==>
            RunState(eventType) in {"completed", "failed", "held"} || eventType == "run.archived"
    ensures IsTerminal(eventType) && RunState(eventType) == "running" <==> eventType == "run.archived"
  {
    StateTable(eventType);
    ArchivedIsNoState();
  }

  lemma ArchivedIsNoState()
    ensures "run.archived" !in {"run.completed", "run.failed", "run.interrupted", "run.recovering", "run.held"}
  {
    assert "run.archived"[4] == 'a' && "run.completed"[4] == 'c' && "run.failed"[4] == 'f';
    assert "run.interrupted"[4] == 'i' && "run.recovering"[4] == 'r' && "run.held"[4] == 'h';
  }

  /** The number of leading events that are linked and hash-correct. */
  ghost predicate LongestLinkedPrefix(h: HashFn, events: seq<Event>, n: nat) {
    && n <= |events|
    && (forall i :: 0 <= i < n ==> LinkedAt(h, events, i))
    && (n < |events| ==> !LinkedAt(h, events, n))
  }

  lemma OneLongestPrefix(h: HashFn, events: seq<Event>, m: nat, n: nat)
    requires LongestLinkedPrefix(h, events, m) && LongestLinkedPrefix(h, events, n)
    ensures m == n
  {}

  /** The state of a run with these raw events: that of the last event of the longest linked prefix. */
  ghost predicate DerivesState(s: Schema, h: HashFn, raw: seq<J>, state: string) {
    exists n :: LongestLinkedPrefix(h, Readable(s, raw), n) && state == StateAfter(Readable(s, raw), n)
  }

  function StateAfter(events: seq<Event>, n: nat): string
    requires n <= |events|
  {
    if n == 0 then "planned" else RunState(events[n - 1].unsealed.draft.eventType)
  }

  lemma OneDerivedState(s: Schema, h: HashFn, raw: seq<J>, a: string, b: string)
    requires DerivesState(s, h, raw, a) && DerivesState(s, h, raw, b)
    ensures a == b
  {
    var m :| LongestLinkedPrefix(h, Readable(s, raw), m) && a == StateAfter(Readable(s, raw), m);
    var n :| LongestLinkedPrefix(h, Readable(s, raw), n) && b == StateAfter(Readable(s, raw), n);
    OneLongestPrefix(h, Readable(s, raw), m, n);
  }

  /** What recovery demands for "valid". */
  ghost predicate Sound(s: Schema, h: HashFn, raw: seq<J>) {
    && Chained(s, raw, |raw|)
    && forall k :: 0 <= k < |raw| ==>
         s.read(raw[k]).Some? && s.read(raw[k]).value.hash == h(s.read(raw[k]).value.unsealed)
  }

  ghost predicate RecoversValid(s: Schema, h: HashFn, raw: seq<J>, opts: Options) {
    && Sound(s, h, raw) && !opts.partialFinalLineDropped && opts.corruptLines == []
    && (opts.expectedLastSequence.Some? ==> |raw| >= opts.expectedLastSequence.value)
  }

  /** A sound ledger is linked to its end. */
  lemma SoundIsLinked(s: Schema, h: HashFn, raw: seq<J>, n: nat)
    requires Sound(s, h, raw)
    ensures |Readable(s, raw)| == |raw| && (LongestLinkedPrefix(h, Readable(s, raw), n) <==> n == |raw|)
  {
    var events := Readable(s, raw);
    forall k | 0 <= k < |raw| ensures s.read(raw[k]).Some? {
      assert Fits(s, raw, k);
    }
    ReadableAll(s, raw);
    forall i | 0 <= i < |events| ensures LinkedAt(h, events, i) {
      assert Fits(s, raw, i);
      assert events[i] == s.read(raw[i]).value && (i > 0 ==> events[i - 1] == s.read(raw[i - 1]).value);
    }
  }

  method RecoverLedger(s: Schema, h: HashFn, raw: seq<J>, opts: Options) returns (r: Recovery)
    ensures r.valid <==> RecoversValid(s, h, raw, opts)
    ensures LongestLinkedPrefix(h, Readable(s, raw), r.lastValidSequence)
    ensures r.valid <==> r.findings == []
    ensures r.lastValidSequence == 0 ==> r.runState == "planned" && !r.terminated
    ensures r.lastValidSequence > 0 ==>
              var last := Readable(s, raw)[r.lastValidSequence - 1].unsealed.draft.eventType;
              r.runState == RunState(last) && r.terminated == IsTerminal(last)
  {
    var findings: seq<Finding> := [];
    if opts.partialFinalLineDropped { findings := findings + [PartialLine]; }
    if |opts.corruptLines| > 0 { findings := findings + [CorruptLines]; }
    var chainIssues := ValidateLedger(s, raw);
    findings := findings + seq(|chainIssues|, i requires 0 <= i < |chainIssues| => Chain(chainIssues[i]));
    var sealed := Readable(s, raw);
    if chainIssues == [] {
      forall k | 0 <= k < |raw| ensures s.read(raw[k]).Some? {
        assert Fits(s, raw, k);
      }
      ReadableAll(s, raw);
      var issues := VerifyEventHashes(h, sealed);
      findings := findings + seq(|issues|, i requires 0 <= i < |issues| => Integrity(issues[i]));
    }
    assert findings == [] <==> Sound(s, h, raw) && !opts.partialFinalLineDropped && opts.corruptLines == [];
    var validCount := LinkedCount(h, sealed);
    if chainIssues == [] && findings == [] { SoundIsLinked(s, h, raw, validCount); }
    if opts.expectedLastSequence.Some? && validCount < opts.expectedLastSequence.value {
      findings := findings + [Truncation];
    }
    if validCount > 0 {
      var last := sealed[validCount - 1].unsealed.draft.eventType;
      r := Recovery(findings == [], RunState(last), validCount, IsTerminal(last), findings);
    } else {
      r := Recovery(findings == [], "planned", 0, false, findings);
    }
  }

  /** The loop that finds the longest valid prefix; the last event's sequence is its length. */
  method LinkedCount(h: HashFn, sealed: seq<Event>) returns (validCount: nat)
    ensures LongestLinkedPrefix(h, sealed, validCount)
    ensures validCount > 0 ==> sealed[validCount - 1].unsealed.sequence == validCount
  {
    validCount := 0;
    var prevHash: Option<string> := None;
    for i := 0 to |sealed|
      invariant validCount == i && forall k :: 0 <= k < i ==> LinkedAt(h, sealed, k)
      invariant i > 0 ==> prevHash == Some(sealed[i - 1].hash) && sealed[i - 1].unsealed.sequence == i
    {
      var ev := sealed[i];
      var ok :=
        && ev.unsealed.sequence == i + 1
        && (if i == 0 then ev.unsealed.previous == None else ev.unsealed.previous == prevHash)
        && h(ev.unsealed) == ev.hash;
      if !ok { return; }
      validCount := i + 1;
      prevHash := Some(ev.hash);
    }
  }

  lemma {:induction false} ReadableAll(s: Schema, raw: seq<J>)
    requires forall k :: 0 <= k < |raw| ==> s.read(raw[k]).Some?
    ensures |Readable(s, raw)| == |raw|
    ensures forall k :: 0 <= k < |raw| ==> Readable(s, raw)[k] == s.read(raw[k]).value
  {
    if raw != [] {
      ReadableAll(s, raw[..|raw| - 1]);
    }
  }

  /** The raw events are those that sealing these drafts produces. */
  ghost predicate ReadsAs(s: Schema, raw: seq<J>, events: seq<Event>) {
    |raw| == |events| && forall i :: 0 <= i < |raw| ==> s.read(raw[i]) == Some(events[i])
  }

  /**
   * A ledger recovers as valid exactly when it is what appending drafts of one run, with distinct
   * event ids, produces.
   */
  lemma SoundIffSealed(s: Schema, h: HashFn, raw: seq<J>)
    ensures Sound(s, h, raw) <==>
            exists drafts :: OneRun(drafts) && DistinctIds(drafts) && ReadsAs(s, raw, SealAll(h, drafts))
  {
    if Sound(s, h, raw) {
      var events := Readable(s, raw);
      SoundIsLinked(s, h, raw, |raw|);
      ReadableAll(s, raw);
      LinkedIsSealed(h, events);
      var drafts := Drafts(events);
      forall i, j | 0 <= i < j < |drafts|
        ensures drafts[i].eventId != drafts[j].eventId && drafts[j].runId == drafts[0].runId
      {
        assert Fits(s, raw, j) && events[i] == s.read(raw[i]).value && events[0] == s.read(raw[0]).value;
      }
      assert OneRun(drafts) && DistinctIds(drafts) && ReadsAs(s, raw, SealAll(h, drafts));
    }
    if drafts :| OneRun(drafts) && DistinctIds(drafts) && ReadsAs(s, raw, SealAll(h, drafts)) {
      SealedIsSound(s, h, raw, drafts);
    }
  }

  lemma SealedIsSound(s: Schema, h: HashFn, raw: seq<J>, drafts: seq<Draft>)
    requires OneRun(drafts) && DistinctIds(drafts) && ReadsAs(s, raw, SealAll(h, drafts))
    ensures Sound(s, h, raw)
  {
    SealAllLinked(h, drafts);
    var events := SealAll(h, drafts);
    forall k | 0 <= k < |raw|
      ensures s.read(raw[k]) == Some(events[k]) && LinkedAt(h, events, k) && events[k].unsealed.draft == drafts[k]
    {
      assert Drafts(events)[k] == drafts[k];
    }
    forall k | 0 <= k < |raw| ensures Fits(s, raw, k) {
      assert LinkedAt(h, events, k) && s.read(raw[k]) == Some(events[k]) && s.read(raw[0]) == Some(events[0]);
      assert k > 0 ==> s.read(raw[k - 1]) == Some(events[k - 1]);
    }
  }
}
