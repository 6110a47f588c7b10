/**
 * The verdict engine (src/verdicts.ts): observed events convict, missing events never acquit.
 *
 * The runner and assertion recognisers, the digests and the wording of texts and reasons are
 * parameters. A reason is built from a `Reason`, which has no room for the text of a command.
 */
module Verdicts {
  import opened Prelude
  import opened EvidenceIds
  import opened Glob
  import opened Paths
  import opened Json
  import Text
  import L = LedgerText
  import R = Receipt

  datatype ChangeKind = Delete | Add | Update | OtherKind(string)
  datatype Change = Change(path: UnitString, kind: Option<ChangeKind>)

  datatype Event =
    | Command(command: Option<string>, exitCode: Option<int>, raw: J)
    | FileChange(changes: seq<Change>, raw: J)
    | ToolCall(raw: J)
    | NotEvidence(raw: J)

  datatype ForbiddenKind = DeletePaths | WritePaths
  datatype Forbidden =
    | Freeform(id: string, title: string)
    | PathClause(id: string, title: string, kind: ForbiddenKind, globs: seq<UnitString>)

  datatype Acceptance = Acceptance(id: string, title: string, freeform: bool)
  datatype Brief = Brief(forbidden: seq<Forbidden>, acceptance: seq<Acceptance>, scope: seq<UnitString>)

  datatype Assertion = Assertion(text: string, passed: nat, total: nat)

  datatype Reason =
    | PathViolations(kind: Option<ForbiddenKind>, shown: seq<(string, UnitString)>)
    | Unnormalizable | NoChangeKind | NoViolation | FreeformReason
    | PartialCapture | SuiteMutated(clause: string) | NotAFullPass(passed: nat, total: nat)
    | ExitedWhileClaimed(id: string, code: int, claimed: string)
    | Exited(id: string, code: int) | NoExitCode(id: string) | NoRunner

  datatype Words = Words(forbidden: string, scope: string, acceptance: string, testsRan: string, recognized: string,
                         scopeClause: string, assertionClaim: string)

  /** `test` is `RegExp.prototype.test` on the compiled glob. */
  datatype Tools = Tools(
    test: (UnitString, UnitString) -> bool, isRunner: string -> bool, recognise: string -> Option<Assertion>,
    describe: Event -> seq<Field>, describeText: string -> seq<Field>,
    clauseId: string -> string, claimId: string -> string, clean: string -> string,
    scopeText: seq<UnitString> -> string,
    render: Reason -> string, words: Words)

  ghost predicate Honest(t: Tools) {
    forall text, path :: t.test(text, path) <==> Test(text, path)
  }

  // -----------------------------------------------------------------------
  // The evidence index
  // -----------------------------------------------------------------------

  datatype CommandEvidence = CommandEvidence(id: string, command: Option<string>, exitCode: Option<int>)
  datatype FileEvidence = FileEvidence(id: string, changes: seq<Change>)
  datatype Index = Index(evidence: seq<R.Evidence>, commands: seq<CommandEvidence>, files: seq<FileEvidence>)

  function AddEvent(t: Tools, index: Index, e: Event): Index {
    var id := EvidenceId(|index.evidence| + 1);
    match e
    case NotEvidence(_) => index
    case Command(command, code, _) =>
      Index(index.evidence + [R.Evidence(id, t.describe(e))], index.commands + [CommandEvidence(id, command, code)],
            index.files)
    case FileChange(changes, _) =>
      Index(index.evidence + [R.Evidence(id, t.describe(e))], index.commands, index.files + [FileEvidence(id, changes)])
    case ToolCall(_) =>
      Index(index.evidence + [R.Evidence(id, t.describe(e))], index.commands, index.files)
  }

  function Indexed(t: Tools, events: seq<Event>): Index {
    if events == [] then Index([], [], []) else AddEvent(t, Indexed(t, events[..|events| - 1]), events[|events| - 1])
  }

  /** Number the events that verdicts can cite, lines 240 to 275. */
  method IndexEvidence(t: Tools, events: seq<Event>) returns (index: Index)
    ensures index == Indexed(t, events)
  {
    index := Index([], [], []);
    for i := 0 to |events|
      invariant index == Indexed(t, events[..i])
    {
      assert events[..i + 1][..i] == events[..i];
      index := AddEvent(t, index, events[i]);
    }
    assert events[..|events|] == events;
  }

  /** Numbered in order, every command and file change under an id of the list. */
  ghost predicate Numbered(index: Index) {
    && (forall i :: 0 <= i < |index.evidence| ==> index.evidence[i].id == EvidenceId(i + 1))
    && (forall i :: 0 <= i < |index.commands| ==> IsListed(index.evidence, index.commands[i].id))
    && (forall i :: 0 <= i < |index.files| ==> IsListed(index.evidence, index.files[i].id))
  }

  ghost predicate IsListed(evidence: seq<R.Evidence>, id: string) {
    exists i :: 0 <= i < |evidence| && evidence[i].id == id
  }

  lemma ListedStays(evidence: seq<R.Evidence>, more: R.Evidence, id: string)
    requires IsListed(evidence, id)
    ensures IsListed(evidence + [more], id)
  {
    var i :| 0 <= i < |evidence| && evidence[i].id == id;
    assert (evidence + [more])[i].id == id;
  }

  lemma {:induction false} IndexIsNumbered(t: Tools, events: seq<Event>)
    ensures Numbered(Indexed(t, events))
  {
    if events != [] {
      var was := Indexed(t, events[..|events| - 1]);
      var index := Indexed(t, events);
      IndexIsNumbered(t, events[..|events| - 1]);
      if index.evidence != was.evidence {
        var last := index.evidence[|was.evidence|];
        assert index.evidence == was.evidence + [last];
        forall id | IsListed(was.evidence, id)
          ensures IsListed(index.evidence, id)
        {
          ListedStays(was.evidence, last, id);
        }
        assert IsListed(index.evidence, last.id);
      }
    }
  }

  /** How many of the events are evidence. */
  function Entries(events: seq<Event>): nat {
    if events == [] then 0
    else Entries(events[..|events| - 1]) + if events[|events| - 1].NotEvidence? then 0 else 1
  }

  /** The id of the event at this place: it counts the evidence up to and with it. */
  function IdAt(events: seq<Event>, i: nat): string
    requires i < |events|
  {
    EvidenceId(Entries(events[..i]) + 1)
  }

  lemma {:induction false} EntriesCount(t: Tools, events: seq<Event>)
    ensures |Indexed(t, events).evidence| == Entries(events)
  {
    if events != [] {
      EntriesCount(t, events[..|events| - 1]);
    }
  }

  lemma PrefixKeepsIds(rest: seq<Event>, last: Event, i: nat)
    requires i < |rest|
    ensures (rest + [last])[i] == rest[i] && IdAt(rest + [last], i) == IdAt(rest, i)
  {
    assert (rest + [last])[..i] == rest[..i];
  }

  lemma LastHasNextId(t: Tools, rest: seq<Event>, last: Event)
    ensures IdAt(rest + [last], |rest|) == EvidenceId(|Indexed(t, rest).evidence| + 1)
    ensures Indexed(t, rest + [last]) == AddEvent(t, Indexed(t, rest), last)
  {
    EntriesCount(t, rest);
    assert (rest + [last])[..|rest|] == rest;
  }

  /** Each evidence event has its own entry, under its own id. */
  lemma {:induction false} EntryAt(t: Tools, events: seq<Event>, i: nat)
    requires i < |events| && !events[i].NotEvidence?
    ensures var evidence, k := Indexed(t, events).evidence, Entries(events[..i]);
            |evidence| == Entries(events) && k < |evidence|
            && evidence[k] == R.Evidence(EvidenceId(k + 1), t.describe(events[i]))
    decreases |events|
  {
    var rest, last := events[..|events| - 1], events[|events| - 1];
    assert events == rest + [last];
    EntriesCount(t, events);
    LastHasNextId(t, rest, last);
    if i < |rest| {
      EntryAt(t, rest, i);
      assert rest[..i] == events[..i];
    } else {
      EntriesCount(t, rest);
    }
  }

  /** What the index keeps of the file change at this place of the stream. */
  predicate FileAt(events: seq<Event>, i: nat, f: FileEvidence) {
    i < |events| && events[i].FileChange? && f == FileEvidence(IdAt(events, i), events[i].changes)
  }

  predicate StreamHas(events: seq<Event>, f: FileEvidence) {
    exists i: nat :: i < |events| && FileAt(events, i, f)
  }

  lemma OneMoreEvent(rest: seq<Event>, last: Event, f: FileEvidence)
    ensures StreamHas(rest + [last], f) <==> StreamHas(rest, f) || FileAt(rest + [last], |rest|, f)
  {
    var events := rest + [last];
    forall i: nat | i < |rest|
      ensures FileAt(events, i, f) <==> FileAt(rest, i, f)
    {
      PrefixKeepsIds(rest, last, i);
    }
  }

  /** The index lists exactly the file changes of the stream, each under the id of its own event. */
  lemma {:induction false} FilesAreTheStreams(t: Tools, events: seq<Event>, f: FileEvidence)
    ensures StreamHas(events, f) <==> f in Indexed(t, events).files
  {
    if events != [] {
      var rest, last := events[..|events| - 1], events[|events| - 1];
      assert events == rest + [last];
      FilesAreTheStreams(t, rest, f);
      OneMoreEvent(rest, last, f);
      LastHasNextId(t, rest, last);
    }
  }

  // -----------------------------------------------------------------------
  // Violations
  // -----------------------------------------------------------------------

  /** What a path may not do: be changed in this way where these globs match, or be changed where none of them does. */
  datatype Rule = Forbids(kind: ForbiddenKind, globs: seq<UnitString>) | Confines(globs: seq<UnitString>)

  datatype Violation = Violation(id: string, path: UnitString)

  predicate AnyGlob(t: Tools, globs: seq<UnitString>, path: UnitString) {
    exists i :: 0 <= i < |globs| && t.test(GlobText(globs[i]), path)
  }

  /** Whether a change of this kind is one that the clause forbids, lines 293 to 296. */
  predicate KindMatches(kind: Option<ChangeKind>, forbidden: ForbiddenKind) {
    match forbidden
    case DeletePaths => kind == Some(Delete)
    case WritePaths => kind == Some(Add) || kind == Some(Update)
  }

  datatype Judgement = Clear | Breaks(path: UnitString) | Excluded | Unclear

  /** One change: lines 332 to 342, and 393 to 400. A change under the globs without a kind cannot be ruled out. */
  function JudgeChange(t: Tools, rule: Rule, root: Option<UnitString>, c: Change): Judgement {
    match Canonical(c.path, root)
    case None => Excluded
    case Some(path) =>
      match rule
      case Forbids(kind, globs) =>
        if !AnyGlob(t, globs, path) then Clear
        else if KindMatches(c.kind, kind) then Breaks(path)
        else if c.kind.None? then Unclear
        else Clear
      case Confines(globs) => if AnyGlob(t, globs, path) then Clear else Breaks(path)
  }

  type Judge = Change -> Judgement

  function JudgeOf(t: Tools, rule: Rule, root: Option<UnitString>): Judge {
    (c: Change) => JudgeChange(t, rule, root, c)
  }

  /** What going through changes brings up. */
  datatype Seen = Seen(violations: seq<Violation>, excluded: bool, ambiguous: bool)

  const NOTHING := Seen([], false, false)

  function Merge(a: Seen, b: Seen): Seen {
    Seen(a.violations + b.violations, a.excluded || b.excluded, a.ambiguous || b.ambiguous)
  }

  lemma Merging(a: Seen, b: Seen, c: Seen)
    ensures Merge(Merge(a, b), c) == Merge(a, Merge(b, c)) && Merge(NOTHING, a) == a && Merge(a, NOTHING) == a
  {
    assert (a.violations + b.violations) + c.violations == a.violations + (b.violations + c.violations);
    assert [] + a.violations == a.violations && a.violations + [] == a.violations;
  }

  function InChange(judge: Judge, id: string, c: Change): Seen {
    match judge(c)
    case Clear => NOTHING
    case Breaks(path) => Seen([Violation(id, path)], false, false)
    case Excluded => Seen([], true, false)
    case Unclear => Seen([], false, true)
  }

  function InChanges(judge: Judge, id: string, changes: seq<Change>): Seen {
    if changes == [] then NOTHING else Merge(InChange(judge, id, changes[0]), InChanges(judge, id, changes[1..]))
  }

  function InFiles(judge: Judge, files: seq<FileEvidence>): Seen {
    if files == [] then NOTHING else Merge(InChanges(judge, files[0].id, files[0].changes), InFiles(judge, files[1..]))
  }

  /** Lines 326 to 344 and 388 to 402. */
  method Collect(t: Tools, rule: Rule, files: seq<FileEvidence>, root: Option<UnitString>) returns (seen: Seen)
    ensures seen == InFiles(JudgeOf(t, rule, root), files)
  {
    ghost var judge := JudgeOf(t, rule, root);
    seen := NOTHING;
    var i := 0;
    Merging(InFiles(judge, files), NOTHING, NOTHING);
    while i < |files|
      invariant 0 <= i <= |files|
      invariant Merge(seen, InFiles(judge, files[i..])) == InFiles(judge, files)
    {
      assert files[i..][1..] == files[i + 1..];
      var changes := files[i].changes;
      ghost var after := InFiles(judge, files[i + 1..]);
      var j := 0;
      while j < |changes|
        invariant 0 <= j <= |changes|
        invariant Merge(seen, Merge(InChanges(judge, files[i].id, changes[j..]), after)) == InFiles(judge, files)
      {
        assert changes[j..][1..] == changes[j + 1..];
        var judgement := InspectChange(t, rule, root, changes[j]);
        var one := match judgement
          case Clear => NOTHING
          case Breaks(path) => Seen([Violation(files[i].id, path)], false, false)
          case Excluded => Seen([], true, false)
          case Unclear => Seen([], false, true);
        ghost var rest := InChanges(judge, files[i].id, changes[j + 1..]);
        Merging(one, rest, after);
        Merging(seen, one, Merge(rest, after));
        seen := Merge(seen, one);
        j := j + 1;
      }
      Merging(after, NOTHING, NOTHING);
      i := i + 1;
    }
    Merging(seen, NOTHING, NOTHING);
  }

  method InspectChange(t: Tools, rule: Rule, root: Option<UnitString>, c: Change) returns (judgement: Judgement)
    ensures judgement == JudgeChange(t, rule, root, c)
  {
    var normalized := NormalizePath(c.path, root);
    if normalized.None? {
      return Excluded;
    }
    var path := normalized.value;
    var matched := MatchesAny(t, rule.globs, path);
    match rule {
      case Forbids(kind, _) =>
        if !matched {
          judgement := Clear;
        } else if KindMatches(c.kind, kind) {
          judgement := Breaks(path);
        } else if c.kind.None? {
          judgement := Unclear;
        } else {
          judgement := Clear;
        }
      case Confines(_) =>
        judgement := if matched then Clear else Breaks(path);
    }
  }

  function Hits(t: Tools, path: UnitString): UnitString -> bool {
    (glob: UnitString) => t.test(GlobText(glob), path)
  }

  /** The first `n` globs do not match. */
  predicate NoneOf(hits: UnitString -> bool, globs: seq<UnitString>, n: nat)
    requires n <= |globs|
  {
    n == 0 || (NoneOf(hits, globs, n - 1) && !hits(globs[n - 1]))
  }

  lemma {:induction false} NoneOfThem(hits: UnitString -> bool, globs: seq<UnitString>, n: nat, k: nat)
    requires k < n <= |globs| && NoneOf(hits, globs, n)
    ensures !hits(globs[k])
  {
    if k < n - 1 {
      NoneOfThem(hits, globs, n - 1, k);
    }
  }

  lemma NoneMeansNotAny(t: Tools, globs: seq<UnitString>, path: UnitString)
    requires NoneOf(Hits(t, path), globs, |globs|)
    ensures !AnyGlob(t, globs, path)
  {
    forall i | 0 <= i < |globs|
      ensures !t.test(GlobText(globs[i]), path)
    {
      NoneOfThem(Hits(t, path), globs, |globs|, i);
    }
  }

  method MatchesAny(t: Tools, globs: seq<UnitString>, path: UnitString) returns (matched: bool)
    ensures matched <==> AnyGlob(t, globs, path)
  {
    for i := 0 to |globs|
      invariant NoneOf(Hits(t, path), globs, i)
    {
      var re := GlobToRegExp(globs[i]);
      if t.test(re, path) {
        return true;
      }
    }
    NoneMeansNotAny(t, globs, path);
    matched := false;
  }

  // -----------------------------------------------------------------------
  // Rows
  // -----------------------------------------------------------------------

  /** `[...new Set(ids)]` */
  function Dedup(ids: seq<string>): seq<string> {
    if ids == [] then []
    else
      var rest, last := Dedup(ids[..|ids| - 1]), ids[|ids| - 1];
      if last in ids[..|ids| - 1] then rest else rest + [last]
  }

  lemma {:induction false} DedupMembers(ids: seq<string>)
    ensures forall id :: id in Dedup(ids) <==> id in ids
    ensures R.AllDistinct(Dedup(ids))
  {
    if ids != [] {
      DedupMembers(ids[..|ids| - 1]);
      assert ids == ids[..|ids| - 1] + [ids[|ids| - 1]];
    }
  }

  function IdsOf(vs: seq<Violation>): (ids: seq<string>)
    ensures |ids| == |vs| && forall i :: 0 <= i < |ids| ==> ids[i] == vs[i].id
  {
    if vs == [] then [] else [vs[0].id] + IdsOf(vs[1..])
  }

  function Shown(vs: seq<Violation>): seq<(string, UnitString)> {
    if vs == [] then [] else [(vs[0].id, vs[0].path)] + Shown(vs[1..])
  }

  function FirstThree(vs: seq<Violation>): seq<Violation> {
    if |vs| <= 3 then vs else vs[..3]
  }

  /** Of a long list of violations the reason shows the first three, each path with the id of its event. */
  lemma {:induction false} ShownAreTheFirst(vs: seq<Violation>)
    ensures |Shown(vs)| == |vs| && forall k :: 0 <= k < |vs| ==> Shown(vs)[k] == (vs[k].id, vs[k].path)
    ensures |Shown(FirstThree(vs))| == if |vs| < 3 then |vs| else 3
    ensures forall k :: 0 <= k < |vs| && k < 3 ==> Shown(FirstThree(vs))[k] == (vs[k].id, vs[k].path)
    decreases |vs|
  {
    if vs != [] {
      ShownAreTheFirst(vs[1..]);
      if |vs| > 3 {
        ShownAreTheFirst(vs[..3]);
      }
    }
  }

  /** What a containment clause comes to; the row never says that a promise was kept. */
  function Settled(t: Tools, id: string, kind: string, text: string, forbids: Option<ForbiddenKind>,
                   seen: Seen): R.Clause {
    if seen.violations != [] then
      R.Clause(id, kind, text, R.PromiseBroken, Dedup(IdsOf(seen.violations)),
               Some(t.render(PathViolations(forbids, Shown(FirstThree(seen.violations))))))
    else
      R.Clause(id, kind, text, R.Unevaluated, [],
               Some(t.render(if seen.excluded then Unnormalizable else if seen.ambiguous then NoChangeKind
                             else NoViolation)))
  }

  function ForbiddenRow(t: Tools, clause: Forbidden, files: seq<FileEvidence>, root: Option<UnitString>): R.Clause {
    match clause
    case Freeform(id, title) => R.Clause(t.clauseId(id), t.words.forbidden, t.clean(title), R.Unevaluated, [],
                                         Some(t.render(FreeformReason)))
    case PathClause(id, title, kind, globs) =>
      Settled(t, t.clauseId(id), t.words.forbidden, t.clean(title), Some(kind),
              InFiles(JudgeOf(t, Forbids(kind, globs), root), files))
  }

  function ScopeRow(t: Tools, scope: seq<UnitString>, files: seq<FileEvidence>, root: Option<UnitString>): R.Clause {
    Settled(t, t.words.scopeClause, t.words.scope, t.clean(t.scopeText(scope)), None,
            InFiles(JudgeOf(t, Confines(scope), root), files))
  }

  /** Lines 315 to 371, and 540 to 546. */
  method AdjudicateForbidden(t: Tools, clause: Forbidden, files: seq<FileEvidence>, root: Option<UnitString>)
    returns (row: R.Clause)
    ensures row == ForbiddenRow(t, clause, files, root)
  {
    match clause {
      case Freeform(id, title) =>
        row := R.Clause(t.clauseId(id), t.words.forbidden, t.clean(title), R.Unevaluated, [],
                        Some(t.render(FreeformReason)));
      case PathClause(id, title, kind, globs) =>
        var seen := Collect(t, Forbids(kind, globs), files, root);
        row := Settled(t, t.clauseId(id), t.words.forbidden, t.clean(title), Some(kind), seen);
    }
  }

  /** The row of the scope clause, lines 377 to 418. */
  method AdjudicateScope(t: Tools, scope: seq<UnitString>, files: seq<FileEvidence>, root: Option<UnitString>)
    returns (row: R.Clause)
    ensures row == ScopeRow(t, scope, files, root)
  {
    var seen := Collect(t, Confines(scope), files, root);
    row := Settled(t, t.words.scopeClause, t.words.scope, t.clean(t.scopeText(scope)), None, seen);
  }

  // -----------------------------------------------------------------------
  // Tests ran
  // -----------------------------------------------------------------------

  function Runners(t: Tools, commands: seq<CommandEvidence>): seq<CommandEvidence> {
    if commands == [] then []
    else
      var rest, last := Runners(t, commands[..|commands| - 1]), commands[|commands| - 1];
      if last.command.Some? && t.isRunner(last.command.value) then rest + [last] else rest
  }

  predicate FullSuccess(a: Assertion) {
    a.total > 0 && a.passed == a.total
  }

  datatype Mutation = Mutation(clause: string, ids: seq<string>)
  datatype TestVerdict = TestVerdict(verdict: R.ClaimVerdict, ids: seq<string>, reason: Option<Reason>)

  /** What the runners of the run show about the tests, lines 435 to 498. */
  function TestsRan(runners: seq<CommandEvidence>, full: bool, mutation: Option<Mutation>,
                    assertion: Option<Assertion>): TestVerdict {
    var last := if runners == [] then None else Some(runners[|runners| - 1]);
    var cited := if last.None? then [] else [last.value.id];
    if !full then TestVerdict(R.Unsupported, cited, Some(PartialCapture))
    else if mutation.Some? then
      TestVerdict(R.Unsupported, Dedup(cited + mutation.value.ids), Some(SuiteMutated(mutation.value.clause)))
    else if assertion.Some? && !FullSuccess(assertion.value) then
      TestVerdict(R.Unsupported, cited, Some(NotAFullPass(assertion.value.passed, assertion.value.total)))
    else if last.None? then TestVerdict(R.Unsupported, [], Some(NoRunner))
    else
      match last.value.exitCode
      case None => TestVerdict(R.Unsupported, cited, Some(NoExitCode(last.value.id)))
      case Some(code) =>
        if code == 0 then TestVerdict(R.Verified, cited, None)
        else if assertion.Some? then
          TestVerdict(R.Contradicted, cited, Some(ExitedWhileClaimed(last.value.id, code, assertion.value.text)))
        else TestVerdict(R.Unsupported, cited, Some(Exited(last.value.id, code)))
  }

  /** The clause that a tests claim decides, lines 500 to 504. */
  function ClauseVerdictOf(v: R.ClaimVerdict): R.ClauseVerdict {
    match v
    case Verified => R.Kept
    case Contradicted => R.PromiseBroken
    case Unsupported => R.Unevaluated
  }

  function Rendered(t: Tools, reason: Option<Reason>): Option<string> {
    match reason
    case None => None
    case Some(r) => Some(t.render(r))
  }

  // -----------------------------------------------------------------------
  // All verdicts of a run
  // -----------------------------------------------------------------------

  /** `full` says that command capture is complete. */
  datatype Input = Input(brief: Brief, events: seq<Event>, full: bool, finalText: Option<string>,
                         root: Option<UnitString>)

  datatype Output = Output(claims: seq<R.Claim>, clauses: seq<R.Clause>, evidence: seq<R.Evidence>)

  function FinalAssertion(t: Tools, input: Input): Option<Assertion> {
    if input.finalText.None? then None else t.recognise(input.finalText.value)
  }

  /** Lines 523 to 534: a recognised assertion is one more piece of evidence. */
  function AllEvidence(t: Tools, input: Input): seq<R.Evidence> {
    var evidence := Indexed(t, input.events).evidence;
    if FinalAssertion(t, input).None? then evidence
    else evidence + [R.Evidence(EvidenceId(|evidence| + 1), t.describeText(input.finalText.value))]
  }

  function ForbiddenRows(t: Tools, clauses: seq<Forbidden>, files: seq<FileEvidence>,
                         root: Option<UnitString>): seq<R.Clause>
  {
    if clauses == [] then []
    else
      ForbiddenRows(t, clauses[..|clauses| - 1], files, root)
      + [ForbiddenRow(t, clauses[|clauses| - 1], files, root)]
  }

  /** Lines 549 to 556: the first broken clause caps what tests can show. */
  function MutationOf(rows: seq<R.Clause>): Option<Mutation> {
    if rows == [] then None
    else if rows[0].verdict == R.PromiseBroken then Some(Mutation(rows[0].text, rows[0].evidenceIds))
    else MutationOf(rows[1..])
  }

  function ClaimFor(t: Tools, a: Acceptance, v: TestVerdict, assertion: Option<Assertion>): R.Claim {
    var text := if assertion.Some? then assertion.value.text else t.clean(a.title);
    R.Claim(t.claimId(a.id), t.words.testsRan, text, v.verdict, v.ids, Rendered(t, v.reason))
  }

  function AcceptanceRow(t: Tools, a: Acceptance, v: TestVerdict): R.Clause {
    if a.freeform then R.Clause(t.clauseId(a.id), t.words.acceptance, t.clean(a.title), R.Unevaluated, [],
                                Some(t.render(FreeformReason)))
    else R.Clause(t.clauseId(a.id), t.words.acceptance, t.clean(a.title), ClauseVerdictOf(v.verdict), v.ids,
                  Rendered(t, v.reason))
  }

  function AcceptanceRows(t: Tools, acceptance: seq<Acceptance>, v: TestVerdict): seq<R.Clause>
  {
    if acceptance == [] then []
    else AcceptanceRows(t, acceptance[..|acceptance| - 1], v) + [AcceptanceRow(t, acceptance[|acceptance| - 1], v)]
  }

  function Claims(t: Tools, acceptance: seq<Acceptance>, v: TestVerdict, assertion: Option<Assertion>): seq<R.Claim>
  {
    if acceptance == [] then []
    else
      var before, last := Claims(t, acceptance[..|acceptance| - 1], v, assertion), acceptance[|acceptance| - 1];
      if last.freeform then before else before + [ClaimFor(t, last, v, assertion)]
  }

  /** The verdict that every tests claim of the run shares. */
  function RunVerdict(t: Tools, input: Input): TestVerdict {
    var index := Indexed(t, input.events);
    TestsRan(Runners(t, index.commands), input.full,
             MutationOf(ForbiddenRows(t, input.brief.forbidden, index.files, input.root)), FinalAssertion(t, input))
  }

  /** Lines 600 to 617: an assertion that no acceptance clause takes up is a claim of its own. */
  function AllClaims(t: Tools, input: Input): seq<R.Claim> {
    var v, assertion := RunVerdict(t, input), FinalAssertion(t, input);
    var claims := Claims(t, input.brief.acceptance, v, assertion);
    if claims == [] && assertion.Some? then
      [R.Claim(t.words.assertionClaim, t.words.recognized, assertion.value.text, v.verdict, v.ids,
               Rendered(t, v.reason))]
    else claims
  }

  function ScopeRows(t: Tools, input: Input): seq<R.Clause> {
    if input.brief.scope == [] then [] else [ScopeRow(t, input.brief.scope, Indexed(t, input.events).files, input.root)]
  }

  function AllClauses(t: Tools, input: Input): seq<R.Clause> {
    AcceptanceRows(t, input.brief.acceptance, RunVerdict(t, input))
    + ForbiddenRows(t, input.brief.forbidden, Indexed(t, input.events).files, input.root)
    + ScopeRows(t, input)
  }

  method SelectRunners(t: Tools, commands: seq<CommandEvidence>) returns (runners: seq<CommandEvidence>)
    ensures runners == Runners(t, commands)
  {
    runners := [];
    for i := 0 to |commands|
      invariant runners == Runners(t, commands[..i])
    {
      assert commands[..i + 1][..i] == commands[..i];
      if commands[i].command.Some? && t.isRunner(commands[i].command.value) {
        runners := runners + [commands[i]];
      }
    }
    assert commands[..|commands|] == commands;
  }

  method AdjudicateAllForbidden(t: Tools, clauses: seq<Forbidden>, files: seq<FileEvidence>, root: Option<UnitString>)
    returns (rows: seq<R.Clause>)
    ensures rows == ForbiddenRows(t, clauses, files, root)
  {
    rows := [];
    for i := 0 to |clauses|
      invariant rows == ForbiddenRows(t, clauses[..i], files, root)
    {
      var row := AdjudicateForbidden(t, clauses[i], files, root);
      assert clauses[..i + 1][..i] == clauses[..i];
      rows := rows + [row];
    }
    assert clauses[..|clauses|] == clauses;
  }

  /** Claims and rows of the acceptance criteria, lines 558 to 598. */
  method AdjudicateAcceptance(t: Tools, acceptance: seq<Acceptance>, v: TestVerdict, assertion: Option<Assertion>)
    returns (claims: seq<R.Claim>, rows: seq<R.Clause>, consumed: bool)
    ensures claims == Claims(t, acceptance, v, assertion) && rows == AcceptanceRows(t, acceptance, v)
    ensures consumed <==> claims != []
  {
    claims, rows, consumed := [], [], false;
    for i := 0 to |acceptance|
      invariant claims == Claims(t, acceptance[..i], v, assertion)
      invariant rows == AcceptanceRows(t, acceptance[..i], v)
      invariant consumed <==> claims != []
    {
      assert acceptance[..i + 1][..i] == acceptance[..i];
      rows := rows + [AcceptanceRow(t, acceptance[i], v)];
      if !acceptance[i].freeform {
        consumed := true;
        claims := claims + [ClaimFor(t, acceptance[i], v, assertion)];
      }
    }
    assert acceptance[..|acceptance|] == acceptance;
  }

  /** `computeVerdicts`, lines 515 to 628. */
  method ComputeVerdicts(t: Tools, input: Input) returns (out: Output)
    ensures out == Output(AllClaims(t, input), AllClauses(t, input), AllEvidence(t, input))
  {
    var index := IndexEvidence(t, input.events);
    var assertion := FinalAssertion(t, input);
    var evidence := index.evidence;
    if assertion.Some? {
      evidence := evidence + [R.Evidence(EvidenceId(|evidence| + 1), t.describeText(input.finalText.value))];
    }
    var forbidden := AdjudicateAllForbidden(t, input.brief.forbidden, index.files, input.root);
    var runners := SelectRunners(t, index.commands);
    var v := TestsRan(runners, input.full, MutationOf(forbidden), assertion);
    var claims, acceptance, consumed := AdjudicateAcceptance(t, input.brief.acceptance, v, assertion);
    if assertion.Some? && !consumed {
      claims := claims + [R.Claim(t.words.assertionClaim, t.words.recognized, assertion.value.text, v.verdict, v.ids,
                                  Rendered(t, v.reason))];
    }
    var scope := [];
    if input.brief.scope != [] {
      var row := AdjudicateScope(t, input.brief.scope, index.files, input.root);
      scope := [row];
    }
    out := Output(claims, acceptance + forbidden + scope, evidence);
  }

  // -----------------------------------------------------------------------
  // Conviction is monotone, absence never acquits
  // -----------------------------------------------------------------------

  /** What a judgement adds to what is seen. */
  datatype Finding = AViolation | AnExcludedPath | AnUnclearKind

  predicate Finds(j: Judgement, f: Finding) {
    match f
    case AViolation => j.Breaks?
    case AnExcludedPath => j.Excluded?
    case AnUnclearKind => j.Unclear?
  }

  predicate Reports(seen: Seen, f: Finding) {
    match f
    case AViolation => seen.violations != []
    case AnExcludedPath => seen.excluded
    case AnUnclearKind => seen.ambiguous
  }

  predicate FileShows(judge: Judge, changes: seq<Change>, f: Finding) {
    exists j :: 0 <= j < |changes| && Finds(judge(changes[j]), f)
  }

  /** A change in the stream that is judged so. */
  predicate Shows(judge: Judge, events: seq<Event>, f: Finding) {
    exists i :: 0 <= i < |events| && events[i].FileChange? && FileShows(judge, events[i].changes, f)
  }

  /** A change in the stream that is judged a violation. */
  predicate Witnessed(judge: Judge, events: seq<Event>) {
    Shows(judge, events, AViolation)
  }

  /** A file change of this id shows a violation. */
  predicate Breaking(judge: Judge, files: seq<FileEvidence>, id: string) {
    exists file :: file in files && file.id == id && FileShows(judge, file.changes, AViolation)
  }

  predicate CitesViolation(seen: Seen, id: string) {
    exists v :: v in seen.violations && v.id == id
  }

  lemma {:induction false} ChangesShow(judge: Judge, id: string, changes: seq<Change>, f: Finding)
    ensures Reports(InChanges(judge, id, changes), f) <==> FileShows(judge, changes, f)
    ensures forall v :: v in InChanges(judge, id, changes).violations ==> v.id == id
  {
    if changes != [] {
      var rest := changes[1..];
      ChangesShow(judge, id, rest, f);
      if FileShows(judge, changes, f) {
        var j :| 0 <= j < |changes| && Finds(judge(changes[j]), f);
        assert j > 0 ==> Finds(judge(rest[j - 1]), f);
      }
      if FileShows(judge, rest, f) {
        var j :| 0 <= j < |rest| && Finds(judge(rest[j]), f);
        assert Finds(judge(changes[j + 1]), f);
      }
    }
  }

  lemma {:induction false} FilesShow(judge: Judge, files: seq<FileEvidence>, f: Finding)
    ensures Reports(InFiles(judge, files), f) <==>
            exists file :: file in files && FileShows(judge, file.changes, f)
  {
    if files != [] {
      FilesShow(judge, files[1..], f);
      ChangesShow(judge, files[0].id, files[0].changes, f);
      assert files == [files[0]] + files[1..];
    }
  }

  lemma OneMoreBreaking(judge: Judge, first: FileEvidence, rest: seq<FileEvidence>, id: string)
    ensures Breaking(judge, [first] + rest, id) <==>
            Breaking(judge, rest, id) || (first.id == id && FileShows(judge, first.changes, AViolation))
  {
    forall file ensures file in [first] + rest <==> file == first || file in rest {}
  }

  /** The ids of the violations are those of the file changes that show one. */
  lemma {:induction false} ViolationsNameFiles(judge: Judge, files: seq<FileEvidence>, id: string)
    ensures CitesViolation(InFiles(judge, files), id) <==> Breaking(judge, files, id)
  {
    if files != [] {
      var first, after := InChanges(judge, files[0].id, files[0].changes), InFiles(judge, files[1..]);
      ViolationsNameFiles(judge, files[1..], id);
      ChangesShow(judge, files[0].id, files[0].changes, AViolation);
      OneMoreBreaking(judge, files[0], files[1..], id);
      assert files == [files[0]] + files[1..];
      if first.violations != [] {
        assert first.violations[0] in InFiles(judge, files).violations;
      }
    }
  }

  /** What a rule finds in the index is exactly what the stream shows. */
  lemma FindingsAreShown(t: Tools, judge: Judge, events: seq<Event>, f: Finding)
    ensures Reports(InFiles(judge, Indexed(t, events).files), f) <==> Shows(judge, events, f)
  {
    var files := Indexed(t, events).files;
    FilesShow(judge, files, f);
    if Shows(judge, events, f) {
      var i :| 0 <= i < |events| && events[i].FileChange? && FileShows(judge, events[i].changes, f);
      var file := FileEvidence(IdAt(events, i), events[i].changes);
      assert FileAt(events, i, file);
      FilesAreTheStreams(t, events, file);
    }
    if Reports(InFiles(judge, files), f) {
      var file :| file in files && FileShows(judge, file.changes, f);
      FilesAreTheStreams(t, events, file);
      var i: nat :| i < |events| && FileAt(events, i, file);
      assert events[i].FileChange? && FileShows(judge, events[i].changes, f);
    }
  }

  lemma ViolationsAreWitnessed(t: Tools, judge: Judge, events: seq<Event>)
    ensures InFiles(judge, Indexed(t, events).files).violations != [] <==> Witnessed(judge, events)
  {
    FindingsAreShown(t, judge, events, AViolation);
  }

  /** Every event of the one stream occurs in the other. */
  predicate Within(events: seq<Event>, more: seq<Event>) {
    forall i :: 0 <= i < |events| ==> events[i] in more
  }

  lemma WitnessesStay(judge: Judge, events: seq<Event>, more: seq<Event>)
    requires Within(events, more)
    ensures Witnessed(judge, events) ==> Witnessed(judge, more)
  {
    if Witnessed(judge, events) {
      var i :| 0 <= i < |events| && events[i].FileChange? && FileShows(judge, events[i].changes, AViolation);
      var k :| 0 <= k < |more| && more[k] == events[i];
      assert more[k].FileChange? && FileShows(judge, more[k].changes, AViolation);
    }
  }

  /** Why a clause that is not broken stays open. */
  ghost function OpenReason(judge: Judge, events: seq<Event>): Reason {
    if Shows(judge, events, AnExcludedPath) then Unnormalizable
    else if Shows(judge, events, AnUnclearKind) then NoChangeKind
    else NoViolation
  }

  lemma SettledByStream(t: Tools, id: string, kind: string, text: string, forbids: Option<ForbiddenKind>,
                        judge: Judge, events: seq<Event>)
    ensures var row := Settled(t, id, kind, text, forbids, InFiles(judge, Indexed(t, events).files));
      && row.verdict != R.Kept && (row.verdict == R.PromiseBroken <==> Witnessed(judge, events))
      && (row.verdict != R.PromiseBroken ==>
            row.evidenceIds == [] && row.reason == Some(t.render(OpenReason(judge, events))))
  {
    FindingsAreShown(t, judge, events, AViolation);
    FindingsAreShown(t, judge, events, AnExcludedPath);
    FindingsAreShown(t, judge, events, AnUnclearKind);
  }

  /**
   * A forbidden clause is broken exactly when the stream shows it broken, and is never kept; while it is open
   * the reason is the first of what the stream shows: an excluded path, an unclear kind, nothing.
   */
  lemma ForbiddenVerdict(t: Tools, clause: Forbidden, events: seq<Event>, root: Option<UnitString>)
    ensures var row := ForbiddenRow(t, clause, Indexed(t, events).files, root);
      && row.verdict != R.Kept
      && (row.verdict == R.PromiseBroken <==>
            clause.PathClause? && Witnessed(JudgeOf(t, Forbids(clause.kind, clause.globs), root), events))
      && (clause.PathClause? && row.verdict != R.PromiseBroken ==>
            && row.evidenceIds == []
            && row.reason == Some(t.render(OpenReason(JudgeOf(t, Forbids(clause.kind, clause.globs), root), events))))
  {
    if clause.PathClause? {
      SettledByStream(t, t.clauseId(clause.id), t.words.forbidden, t.clean(clause.title), Some(clause.kind),
                      JudgeOf(t, Forbids(clause.kind, clause.globs), root), events);
    }
  }

  lemma ScopeVerdict(t: Tools, scope: seq<UnitString>, events: seq<Event>, root: Option<UnitString>)
    ensures var row, judge := ScopeRow(t, scope, Indexed(t, events).files, root), JudgeOf(t, Confines(scope), root);
      && row.verdict != R.Kept && (row.verdict == R.PromiseBroken <==> Witnessed(judge, events))
      && (row.verdict != R.PromiseBroken ==>
            row.evidenceIds == [] && row.reason == Some(t.render(OpenReason(judge, events))))
  {
    SettledByStream(t, t.words.scopeClause, t.words.scope, t.clean(t.scopeText(scope)), None,
                    JudgeOf(t, Confines(scope), root), events);
  }

  /** The id is that of an event whose file change shows a violation. */
  ghost predicate IdBreaks(judge: Judge, events: seq<Event>, id: string) {
    exists i: nat :: i < |events| && events[i].FileChange? && FileShows(judge, events[i].changes, AViolation)
                     && id == IdAt(events, i)
  }

  lemma BreakingByStream(t: Tools, judge: Judge, events: seq<Event>, id: string)
    ensures Breaking(judge, Indexed(t, events).files, id) <==> IdBreaks(judge, events, id)
  {
    var files := Indexed(t, events).files;
    if Breaking(judge, files, id) {
      var file :| file in files && file.id == id && FileShows(judge, file.changes, AViolation);
      FilesAreTheStreams(t, events, file);
      var i: nat :| i < |events| && FileAt(events, i, file);
    }
    if IdBreaks(judge, events, id) {
      var i: nat :| i < |events| && events[i].FileChange? && FileShows(judge, events[i].changes, AViolation)
        && id == IdAt(events, i);
      var file := FileEvidence(id, events[i].changes);
      assert FileAt(events, i, file);
      FilesAreTheStreams(t, events, file);
    }
  }

  lemma SettledCitesWitnesses(t: Tools, clauseId: string, kind: string, text: string, forbids: Option<ForbiddenKind>,
                              judge: Judge, events: seq<Event>, id: string)
    ensures var row := Settled(t, clauseId, kind, text, forbids, InFiles(judge, Indexed(t, events).files));
      row.verdict == R.PromiseBroken ==> (id in row.evidenceIds <==> IdBreaks(judge, events, id))
  {
    var seen := InFiles(judge, Indexed(t, events).files);
    DedupMembers(IdsOf(seen.violations));
    ViolationsNameFiles(judge, Indexed(t, events).files, id);
    BreakingByStream(t, judge, events, id);
    if id in IdsOf(seen.violations) {
      var k :| 0 <= k < |seen.violations| && seen.violations[k].id == id;
      assert seen.violations[k] in seen.violations;
    }
    if CitesViolation(seen, id) {
      var v :| v in seen.violations && v.id == id;
      var k :| 0 <= k < |seen.violations| && seen.violations[k] == v;
      assert IdsOf(seen.violations)[k] == id;
    }
  }

  /** A broken row cites exactly the events that break it, by the ids under which they are listed. */
  lemma BrokenCitesWitnesses(t: Tools, clause: Forbidden, scope: seq<UnitString>, events: seq<Event>,
                             root: Option<UnitString>, id: string)
    ensures var row := ForbiddenRow(t, clause, Indexed(t, events).files, root);
      row.verdict == R.PromiseBroken ==>
        (id in row.evidenceIds <==> IdBreaks(JudgeOf(t, Forbids(clause.kind, clause.globs), root), events, id))
    ensures var row := ScopeRow(t, scope, Indexed(t, events).files, root);
      row.verdict == R.PromiseBroken ==>
        (id in row.evidenceIds <==> IdBreaks(JudgeOf(t, Confines(scope), root), events, id))
  {
    if clause.PathClause? {
      SettledCitesWitnesses(t, t.clauseId(clause.id), t.words.forbidden, t.clean(clause.title), Some(clause.kind),
                            JudgeOf(t, Forbids(clause.kind, clause.globs), root), events, id);
    }
    SettledCitesWitnesses(t, t.words.scopeClause, t.words.scope, t.clean(t.scopeText(scope)), None,
                          JudgeOf(t, Confines(scope), root), events, id);
  }

  /** Conviction is monotone: more events never mend a broken clause. */
  lemma ConvictionIsMonotone(t: Tools, clause: Forbidden, scope: seq<UnitString>, events: seq<Event>,
                             more: seq<Event>, root: Option<UnitString>)
    requires Within(events, more)
    ensures ForbiddenRow(t, clause, Indexed(t, events).files, root).verdict == R.PromiseBroken ==>
              ForbiddenRow(t, clause, Indexed(t, more).files, root).verdict == R.PromiseBroken
    ensures ScopeRow(t, scope, Indexed(t, events).files, root).verdict == R.PromiseBroken ==>
              ScopeRow(t, scope, Indexed(t, more).files, root).verdict == R.PromiseBroken
  {
    ForbiddenVerdict(t, clause, events, root);
    ForbiddenVerdict(t, clause, more, root);
    ScopeVerdict(t, scope, events, root);
    ScopeVerdict(t, scope, more, root);
    if clause.PathClause? {
      WitnessesStay(JudgeOf(t, Forbids(clause.kind, clause.globs), root), events, more);
    }
    WitnessesStay(JudgeOf(t, Confines(scope), root), events, more);
  }

  ghost predicate AnyCovers(globs: seq<UnitString>, path: UnitString) {
    exists i :: 0 <= i < |globs| && Covers(Segments(globs[i]), Text.Split(path, SLASH))
  }

  lemma AnyGlobOnOneLine(t: Tools, globs: seq<UnitString>, path: UnitString)
    requires Honest(t) && Normalised(path) && OneLine(path)
    ensures AnyGlob(t, globs, path) <==> AnyCovers(globs, path)
  {
    CompiledExactlyIffOneLine(path);
    forall i | 0 <= i < |globs|
      ensures t.test(GlobText(globs[i]), path) <==> Covers(Segments(globs[i]), Text.Split(path, SLASH))
    {
      assert Test(GlobText(globs[i]), path) <==> Covers(Segments(globs[i]), Text.Split(path, SLASH));
    }
  }

  /**
   * With the regular expressions read as they are: a violation names a place inside the workspace that one of
   * the globs covers, and its kind is one that the clause forbids. A clause against deleting forbids nothing
   * else, and a change without a kind never convicts.
   */
  lemma BrokenMeansCovered(t: Tools, kind: ForbiddenKind, globs: seq<UnitString>, root: Option<UnitString>, c: Change)
    requires Honest(t)
    ensures JudgeChange(t, Forbids(kind, globs), root, c).Breaks? ==>
              && Reached(c.path, root).Some? && AnyCovers(globs, Canonical(c.path, root).value)
              && (if kind.DeletePaths? then c.kind == Some(Delete) else c.kind == Some(Add) || c.kind == Some(Update))
  {
    if JudgeChange(t, Forbids(kind, globs), root, c).Breaks? {
      var p := Canonical(c.path, root).value;
      var i :| 0 <= i < |globs| && t.test(GlobText(globs[i]), p);
      OutputIsCanonical(c.path, root);
      CompiledIsConservative(globs[i], p);
    }
  }

  /** On one line that is exact, and what else comes of a change is exact as well. */
  lemma ForbiddenJudgement(t: Tools, kind: ForbiddenKind, globs: seq<UnitString>, root: Option<UnitString>, c: Change)
    requires Honest(t)
    ensures var j := JudgeChange(t, Forbids(kind, globs), root, c);
      && (j == Excluded <==> Canonical(c.path, root) == None)
      && (Canonical(c.path, root).Some? && OneLine(Canonical(c.path, root).value) ==>
            var path := Canonical(c.path, root).value;
            var forbidden := if kind.DeletePaths? then c.kind == Some(Delete)
                             else c.kind == Some(Add) || c.kind == Some(Update);
            && (j == Breaks(path) <==> AnyCovers(globs, path) && forbidden)
            && (j == Unclear <==> AnyCovers(globs, path) && c.kind == None))
  {
    if Canonical(c.path, root).Some? && OneLine(Canonical(c.path, root).value) {
      OutputIsCanonical(c.path, root);
      AnyGlobOnOneLine(t, globs, Canonical(c.path, root).value);
    }
  }

  lemma DoubleStarTakesOneLine(t: Tools, path: UnitString)
    requires Honest(t)
    ensures AnyGlob(t, [DOUBLE_STAR], path) <==> OneLine(path)
    ensures AnyCovers([DOUBLE_STAR], path)
  {
    CompiledLanguage(DOUBLE_STAR, path);
    Text.SplitFree(DOUBLE_STAR, SLASH);
    Text.JoinSplit(path, SLASH);
    var one := [DOUBLE_STAR];
    assert one[0] == DOUBLE_STAR;
    assert t.test(GlobText(one[0]), path) <==> OneLine(path);
    assert Covers(Segments(one[0]), Text.Split(path, SLASH));
  }

  /**
   * Compilation under-matches, and for the scope that is the convicting direction: on one line the scope
   * clause is broken just when no glob covers the path, but a name with a line terminator breaks the
   * scope `**`, which covers everything.
   */
  lemma ScopeJudgement(t: Tools, scope: seq<UnitString>, root: Option<UnitString>, c: Change)
    requires Honest(t) && Canonical(c.path, root).Some?
    ensures var path := Canonical(c.path, root).value;
      && (OneLine(path) ==>
            (JudgeChange(t, Confines(scope), root, c) == if AnyCovers(scope, path) then Clear else Breaks(path)))
      && (JudgeChange(t, Confines([DOUBLE_STAR]), root, c).Breaks? <==> !OneLine(path))
      && AnyCovers([DOUBLE_STAR], path)
  {
    var path := Canonical(c.path, root).value;
    OutputIsCanonical(c.path, root);
    if OneLine(path) {
      AnyGlobOnOneLine(t, scope, path);
    }
    DoubleStarTakesOneLine(t, path);
  }

  // -----------------------------------------------------------------------
  // The run's verdict
  // -----------------------------------------------------------------------

  lemma {:induction false} RowsBroken(t: Tools, clauses: seq<Forbidden>, files: seq<FileEvidence>,
                                      root: Option<UnitString>)
    ensures |ForbiddenRows(t, clauses, files, root)| == |clauses|
    ensures forall i :: 0 <= i < |clauses| ==>
              ForbiddenRows(t, clauses, files, root)[i] == ForbiddenRow(t, clauses[i], files, root)
  {
    if clauses != [] {
      var rest := clauses[..|clauses| - 1];
      RowsBroken(t, rest, files, root);
      forall i | 0 <= i < |clauses|
        ensures ForbiddenRows(t, clauses, files, root)[i] == ForbiddenRow(t, clauses[i], files, root)
      {
        assert i < |rest| ==> rest[i] == clauses[i];
      }
    }
  }

  predicate SomeBroken(rows: seq<R.Clause>) {
    exists i :: 0 <= i < |rows| && rows[i].verdict == R.PromiseBroken
  }

  lemma {:induction false} MutationIsBroken(rows: seq<R.Clause>)
    ensures MutationOf(rows).Some? <==> SomeBroken(rows)
    ensures MutationOf(rows).Some? ==>
              exists i :: 0 <= i < |rows| && rows[i].verdict == R.PromiseBroken
                && MutationOf(rows).value == Mutation(rows[i].text, rows[i].evidenceIds)
  {
    if rows != [] {
      var rest := rows[1..];
      MutationIsBroken(rest);
      if rows[0].verdict != R.PromiseBroken {
        if MutationOf(rest).Some? {
          var i :| 0 <= i < |rest| && rest[i].verdict == R.PromiseBroken
            && MutationOf(rest).value == Mutation(rest[i].text, rest[i].evidenceIds);
          assert rows[i + 1].verdict == R.PromiseBroken;
        }
        if SomeBroken(rows) {
          var i :| 0 <= i < |rows| && rows[i].verdict == R.PromiseBroken;
          assert rest[i - 1].verdict == R.PromiseBroken;
        }
      }
    }
  }

  /** Some forbidden clause is broken by the events. */
  ghost predicate ForbiddenBroken(t: Tools, brief: Brief, events: seq<Event>, root: Option<UnitString>) {
    exists i :: 0 <= i < |brief.forbidden| && brief.forbidden[i].PathClause?
      && Witnessed(JudgeOf(t, Forbids(brief.forbidden[i].kind, brief.forbidden[i].globs), root), events)
  }

  lemma MutationIsWitnessed(t: Tools, input: Input)
    ensures MutationOf(ForbiddenRows(t, input.brief.forbidden, Indexed(t, input.events).files, input.root)).Some?
       <==> ForbiddenBroken(t, input.brief, input.events, input.root)
  {
    var files := Indexed(t, input.events).files;
    var rows := ForbiddenRows(t, input.brief.forbidden, files, input.root);
    RowsBroken(t, input.brief.forbidden, files, input.root);
    MutationIsBroken(rows);
    forall i | 0 <= i < |rows|
      ensures rows[i].verdict == R.PromiseBroken <==>
                input.brief.forbidden[i].PathClause? &&
                Witnessed(JudgeOf(t, Forbids(input.brief.forbidden[i].kind, input.brief.forbidden[i].globs),
                                  input.root), input.events)
    {
      ForbiddenVerdict(t, input.brief.forbidden[i], input.events, input.root);
    }
  }

  lemma {:induction false} ClaimsShare(t: Tools, acceptance: seq<Acceptance>, v: TestVerdict,
                                       assertion: Option<Assertion>)
    ensures forall c :: c in Claims(t, acceptance, v, assertion) ==> c.verdict == v.verdict && c.evidenceIds == v.ids
    ensures |AcceptanceRows(t, acceptance, v)| == |acceptance|
    ensures forall r :: r in AcceptanceRows(t, acceptance, v) ==>
              (r.verdict == R.Unevaluated && r.evidenceIds == [])
                || (r.verdict == ClauseVerdictOf(v.verdict) && r.evidenceIds == v.ids)
  {
    if acceptance != [] {
      ClaimsShare(t, acceptance[..|acceptance| - 1], v, assertion);
    }
  }

  predicate IsRunner(t: Tools, e: Event) {
    e.Command? && e.command.Some? && t.isRunner(e.command.value)
  }

  /** The last event of the stream whose command text is that of a test runner. */
  predicate LastRunner(t: Tools, events: seq<Event>, i: nat) {
    && i < |events| && events[i].Command? && events[i].command.Some? && t.isRunner(events[i].command.value)
    && forall k :: i < k < |events| ==> !IsRunner(t, events[k])
  }

  lemma OneMoreRunner(t: Tools, rest: seq<Event>, last: Event, i: nat)
    ensures LastRunner(t, rest + [last], i) <==>
            if IsRunner(t, last) then i == |rest| else LastRunner(t, rest, i)
    ensures i < |rest| ==> (rest + [last])[i] == rest[i] && IdAt(rest + [last], i) == IdAt(rest, i)
  {
    var events := rest + [last];
    assert events[|rest|] == last;
    if i < |rest| {
      PrefixKeepsIds(rest, last, i);
    }
    forall k | 0 <= k < |rest| ensures events[k] == rest[k] {}
  }

  /** What the index keeps of a command. */
  function CommandAt(events: seq<Event>, i: nat): CommandEvidence
    requires i < |events| && events[i].Command?
  {
    CommandEvidence(IdAt(events, i), events[i].command, events[i].exitCode)
  }

  function LastOf(runners: seq<CommandEvidence>): Option<CommandEvidence> {
    if runners == [] then None else Some(runners[|runners| - 1])
  }

  lemma RunnersOfOneMore(t: Tools, commands: seq<CommandEvidence>, last: CommandEvidence)
    ensures Runners(t, commands + [last]) ==
            if last.command.Some? && t.isRunner(last.command.value) then Runners(t, commands) + [last]
            else Runners(t, commands)
  {
    assert (commands + [last])[..|commands|] == commands;
  }

  /** This is what the index keeps of the last runner event of the stream, if there is one. */
  ghost predicate IsLast(t: Tools, events: seq<Event>, last: Option<CommandEvidence>) {
    match last
    case None => forall i: nat :: !LastRunner(t, events, i)
    case Some(c) => exists i: nat :: LastRunner(t, events, i) && c == CommandAt(events, i)
  }

  lemma IsLastGoesOn(t: Tools, rest: seq<Event>, e: Event, was: Option<CommandEvidence>)
    requires IsLast(t, rest, was)
    ensures IsLast(t, rest + [e], if IsRunner(t, e) then Some(CommandAt(rest + [e], |rest|)) else was)
  {
    if IsRunner(t, e) {
      OneMoreRunner(t, rest, e, |rest|);
      assert LastRunner(t, rest + [e], |rest|);
    } else if was.Some? {
      var i: nat :| LastRunner(t, rest, i) && was.value == CommandAt(rest, i);
      OneMoreRunner(t, rest, e, i);
      assert LastRunner(t, rest + [e], i) && CommandAt(rest + [e], i) == was.value;
    } else {
      forall i: nat ensures !LastRunner(t, rest + [e], i) {
        OneMoreRunner(t, rest, e, i);
      }
    }
  }

  /** The last of the selected runners is the last runner event of the stream, under its own id. */
  lemma {:induction false} RunnersOfEvents(t: Tools, events: seq<Event>)
    ensures IsLast(t, events, LastOf(Runners(t, Indexed(t, events).commands)))
  {
    if events != [] {
      var rest, e := events[..|events| - 1], events[|events| - 1];
      assert events == rest + [e];
      RunnersOfEvents(t, rest);
      LastHasNextId(t, rest, e);
      IsLastGoesOn(t, rest, e, LastOf(Runners(t, Indexed(t, rest).commands)));
      if e.Command? {
        RunnersOfOneMore(t, Indexed(t, rest).commands, CommandAt(rest + [e], |rest|));
      }
    }
  }

  lemma OneLastRunner(t: Tools, events: seq<Event>, i: nat, k: nat)
    requires LastRunner(t, events, i) && LastRunner(t, events, k)
    ensures i == k
  {
    assert i < k ==> !IsRunner(t, events[k]);
    assert k < i ==> !IsRunner(t, events[i]);
  }

  /** Full capture, no forbidden clause broken, and no total reported that is not a full pass. */
  ghost predicate Decidable(t: Tools, input: Input) {
    && input.full && !ForbiddenBroken(t, input.brief, input.events, input.root)
    && (FinalAssertion(t, input).Some? ==>
          var a := FinalAssertion(t, input).value; a.total > 0 && a.passed == a.total)
  }

  /** When a tests claim is VERIFIED: it is decidable, and the last runner of the stream exited with 0. */
  ghost predicate TestsPassed(t: Tools, input: Input) {
    Decidable(t, input) && exists i: nat :: LastRunner(t, input.events, i) && input.events[i].exitCode == Some(0)
  }

  /** A full pass is claimed, and the last runner of the stream was seen to fail. */
  ghost predicate TestsContradict(t: Tools, input: Input) {
    && Decidable(t, input) && FinalAssertion(t, input).Some?
    && exists i: nat :: LastRunner(t, input.events, i) && input.events[i].exitCode.Some?
                        && input.events[i].exitCode.value != 0
  }

  /** The verdict on tests, and what it cites, by the stream. */
  lemma VerifiedExactly(t: Tools, input: Input)
    ensures RunVerdict(t, input).verdict == R.Verified <==> TestsPassed(t, input)
    ensures RunVerdict(t, input).verdict == R.Contradicted <==> TestsContradict(t, input)
    ensures RunVerdict(t, input).verdict != R.Unsupported ==>
              forall i: nat :: LastRunner(t, input.events, i) ==> RunVerdict(t, input).ids == [IdAt(input.events, i)]
  {
    MutationIsWitnessed(t, input);
    RunnersOfEvents(t, input.events);
    forall i: nat, k: nat | LastRunner(t, input.events, i) && LastRunner(t, input.events, k) ensures i == k {
      OneLastRunner(t, input.events, i, k);
    }
  }

  lemma ClausesOutsideAcceptance(t: Tools, input: Input, c: R.Clause)
    requires c in ForbiddenRows(t, input.brief.forbidden, Indexed(t, input.events).files, input.root)
             || c in ScopeRows(t, input)
    ensures c.verdict != R.Kept
  {
    var files := Indexed(t, input.events).files;
    RowsBroken(t, input.brief.forbidden, files, input.root);
    if c in ForbiddenRows(t, input.brief.forbidden, files, input.root) {
      var i :| 0 <= i < |input.brief.forbidden| && c == ForbiddenRow(t, input.brief.forbidden[i], files, input.root);
      ForbiddenVerdict(t, input.brief.forbidden[i], input.events, input.root);
    } else {
      ScopeVerdict(t, input.brief.scope, input.events, input.root);
    }
  }

  /**
   * When a claim is VERIFIED, and when it is CONTRADICTED: in every other run it is UNSUPPORTED. Either way it
   * cites the last runner's event and nothing else.
   */
  lemma RunVerdictExactly(t: Tools, input: Input)
    ensures forall c :: c in AllClaims(t, input) ==> (c.verdict == R.Verified <==> TestsPassed(t, input))
    ensures forall c :: c in AllClaims(t, input) ==> (c.verdict == R.Contradicted <==> TestsContradict(t, input))
    ensures forall c :: c in AllClaims(t, input) && c.verdict != R.Unsupported ==>
              forall i: nat :: LastRunner(t, input.events, i) ==> c.evidenceIds == [IdAt(input.events, i)]
    ensures forall c :: c in AllClauses(t, input) && c.verdict == R.Kept ==> TestsPassed(t, input)
  {
    var v := RunVerdict(t, input);
    VerifiedExactly(t, input);
    ClaimsShare(t, input.brief.acceptance, v, FinalAssertion(t, input));
    forall c | c in AllClauses(t, input) && c.verdict == R.Kept
      ensures TestsPassed(t, input)
    {
      if c !in AcceptanceRows(t, input.brief.acceptance, v) {
        ClausesOutsideAcceptance(t, input, c);
      }
    }
  }

  lemma {:induction false} AcceptanceRowAt(t: Tools, acceptance: seq<Acceptance>, v: TestVerdict, k: nat)
    requires k < |acceptance|
    ensures |AcceptanceRows(t, acceptance, v)| == |acceptance|
    ensures AcceptanceRows(t, acceptance, v)[k] == AcceptanceRow(t, acceptance[k], v)
    decreases |acceptance|
  {
    var rest := acceptance[..|acceptance| - 1];
    if k < |rest| {
      AcceptanceRowAt(t, rest, v, k);
    } else if rest != [] {
      AcceptanceRowAt(t, rest, v, 0);
    }
  }

  /** Every clause of the brief has its row in its place: acceptance, then forbidden, then a scope that is not empty. */
  lemma ClausesInPlace(t: Tools, input: Input, k: nat)
    ensures var rows, a, f := AllClauses(t, input), |input.brief.acceptance|, |input.brief.forbidden|;
      var files := Indexed(t, input.events).files;
      && |rows| == a + f + (if input.brief.scope == [] then 0 else 1)
      && (k < f ==> rows[a + k] == ForbiddenRow(t, input.brief.forbidden[k], files, input.root))
      && (input.brief.scope != [] ==> rows[a + f] == ScopeRow(t, input.brief.scope, files, input.root))
  {
    ClaimsShare(t, input.brief.acceptance, RunVerdict(t, input), FinalAssertion(t, input));
    RowsBroken(t, input.brief.forbidden, Indexed(t, input.events).files, input.root);
  }

  /** A freeform acceptance clause stays open; one on tests is kept or broken exactly as the stream decides. */
  lemma AcceptanceVerdict(t: Tools, input: Input, k: nat)
    requires k < |input.brief.acceptance|
    ensures k < |AllClauses(t, input)|
    ensures var a, row := input.brief.acceptance[k], AllClauses(t, input)[k];
      && row.id == t.clauseId(a.id) && row.kind == t.words.acceptance && row.text == t.clean(a.title)
      && (a.freeform ==> row.verdict == R.Unevaluated && row.evidenceIds == [])
      && (!a.freeform ==> (row.verdict == R.Kept <==> TestsPassed(t, input))
                          && (row.verdict == R.PromiseBroken <==> TestsContradict(t, input)))
  {
    var v := RunVerdict(t, input);
    AcceptanceRowAt(t, input.brief.acceptance, v, k);
    assert AllClauses(t, input)[k] == AcceptanceRows(t, input.brief.acceptance, v)[k];
    VerifiedExactly(t, input);
  }

  /** Claims are made for the acceptance clauses on tests, or else for a recognised assertion. */
  lemma {:induction false} ClaimsAreMade(t: Tools, acceptance: seq<Acceptance>, v: TestVerdict,
                                         assertion: Option<Assertion>)
    ensures Claims(t, acceptance, v, assertion) == [] <==> forall k :: 0 <= k < |acceptance| ==> acceptance[k].freeform
    ensures forall k :: 0 <= k < |acceptance| && !acceptance[k].freeform ==>
              ClaimFor(t, acceptance[k], v, assertion) in Claims(t, acceptance, v, assertion)
  {
    if acceptance != [] {
      ClaimsAreMade(t, acceptance[..|acceptance| - 1], v, assertion);
    }
  }

  lemma EveryTestsClauseIsClaimed(t: Tools, input: Input, k: nat)
    ensures k < |input.brief.acceptance| && !input.brief.acceptance[k].freeform ==>
              exists c :: c in AllClaims(t, input) && c.id == t.claimId(input.brief.acceptance[k].id)
                          && c.text == if FinalAssertion(t, input).Some? then FinalAssertion(t, input).value.text
                                       else t.clean(input.brief.acceptance[k].title)
    ensures AllClaims(t, input) == [] <==>
            FinalAssertion(t, input).None?
            && forall k :: 0 <= k < |input.brief.acceptance| ==> input.brief.acceptance[k].freeform
  {
    var v, assertion := RunVerdict(t, input), FinalAssertion(t, input);
    ClaimsAreMade(t, input.brief.acceptance, v, assertion);
    if k < |input.brief.acceptance| && !input.brief.acceptance[k].freeform {
      assert ClaimFor(t, input.brief.acceptance[k], v, assertion) in AllClaims(t, input);
    }
  }

  /** What is said of a last runner that decides nothing. */
  function ExitReason(events: seq<Event>, i: nat): Reason
    requires i < |events| && events[i].Command?
  {
    match events[i].exitCode
    case None => NoExitCode(IdAt(events, i))
    case Some(code) => Exited(IdAt(events, i), code)
  }

  /** Why nothing could be decided: the first of these that applies. */
  ghost predicate Explains(t: Tools, input: Input, reason: Reason) {
    if !input.full then reason == PartialCapture
    else if ForbiddenBroken(t, input.brief, input.events, input.root) then reason.SuiteMutated?
    else if !Decidable(t, input) then reason.NotAFullPass?
    else if forall i: nat :: !LastRunner(t, input.events, i) then reason == NoRunner
    else exists i: nat :: LastRunner(t, input.events, i) && reason == ExitReason(input.events, i)
  }

  /** An UNSUPPORTED verdict says why, a VERIFIED one says nothing. */
  lemma WhyUnsupported(t: Tools, input: Input)
    ensures var v := RunVerdict(t, input);
      && (v.verdict == R.Unsupported ==> v.reason.Some? && Explains(t, input, v.reason.value))
      && (v.verdict == R.Verified ==> v.reason == None)
  {
    MutationIsWitnessed(t, input);
    RunnersOfEvents(t, input.events);
  }

  /** A recognised assertion is one more piece of evidence, after all events. */
  lemma AssertionIsLast(t: Tools, input: Input)
    ensures Indexed(t, input.events).evidence <= AllEvidence(t, input)
    ensures |AllEvidence(t, input)| == Entries(input.events) + if FinalAssertion(t, input).Some? then 1 else 0
    ensures FinalAssertion(t, input).Some? ==>
              AllEvidence(t, input)[Entries(input.events)].rest == t.describeText(input.finalText.value)
  {
    EntriesCount(t, input.events);
  }

  /** Once a forbidden clause is broken, no longer stream has a VERIFIED claim or a KEPT clause. */
  lemma BrokenNeverVerifies(t: Tools, input: Input, more: seq<Event>)
    requires ForbiddenBroken(t, input.brief, input.events, input.root) && Within(input.events, more)
    ensures forall c :: c in AllClaims(t, input.(events := more)) ==> c.verdict != R.Verified
    ensures forall c :: c in AllClauses(t, input.(events := more)) ==> c.verdict != R.Kept
  {
    var i :| 0 <= i < |input.brief.forbidden| && input.brief.forbidden[i].PathClause?
      && Witnessed(JudgeOf(t, Forbids(input.brief.forbidden[i].kind, input.brief.forbidden[i].globs), input.root),
                   input.events);
    WitnessesStay(JudgeOf(t, Forbids(input.brief.forbidden[i].kind, input.brief.forbidden[i].globs), input.root),
                  input.events, more);
    RunVerdictExactly(t, input.(events := more));
  }

  // -----------------------------------------------------------------------
  // Citations
  // -----------------------------------------------------------------------

  /** Distinct, and all in the evidence list. */
  ghost predicate Cited(ids: seq<string>, evidence: seq<R.Evidence>) {
    R.AllDistinct(ids) && forall id :: id in ids ==> IsListed(evidence, id)
  }

  lemma BreakingIsListed(judge: Judge, index: Index, id: string)
    requires Numbered(index) && Breaking(judge, index.files, id)
    ensures IsListed(index.evidence, id)
  {
    var file :| file in index.files && file.id == id;
    var i :| 0 <= i < |index.files| && index.files[i] == file;
  }

  lemma ViolationsAreCited(t: Tools, judge: Judge, events: seq<Event>)
    ensures var vs := InFiles(judge, Indexed(t, events).files).violations;
      Cited(Dedup(IdsOf(vs)), Indexed(t, events).evidence) && (vs != [] ==> Dedup(IdsOf(vs)) != [])
  {
    var index := Indexed(t, events);
    var vs := InFiles(judge, index.files).violations;
    IndexIsNumbered(t, events);
    DedupMembers(IdsOf(vs));
    forall id | id in Dedup(IdsOf(vs))
      ensures IsListed(index.evidence, id)
    {
      var k :| 0 <= k < |vs| && vs[k].id == id;
      assert vs[k] in vs && CitesViolation(InFiles(judge, index.files), id);
      ViolationsNameFiles(judge, index.files, id);
      BreakingIsListed(judge, index, id);
    }
    if vs != [] {
      assert IdsOf(vs)[0] in Dedup(IdsOf(vs));
    }
  }

  lemma {:induction false} RunnersAreCommands(t: Tools, commands: seq<CommandEvidence>)
    ensures forall c :: c in Runners(t, commands) ==> c in commands
  {
    if commands != [] {
      RunnersAreCommands(t, commands[..|commands| - 1]);
    }
  }

  /** Rows of the containment clauses. */
  lemma ContainmentIsCited(t: Tools, input: Input, c: R.Clause)
    requires c in ForbiddenRows(t, input.brief.forbidden, Indexed(t, input.events).files, input.root)
             || c in ScopeRows(t, input)
    ensures Cited(c.evidenceIds, Indexed(t, input.events).evidence)
    ensures c.verdict == R.PromiseBroken ==> c.evidenceIds != []
  {
    var files := Indexed(t, input.events).files;
    RowsBroken(t, input.brief.forbidden, files, input.root);
    if c in ForbiddenRows(t, input.brief.forbidden, files, input.root) {
      var i :| 0 <= i < |input.brief.forbidden| && c == ForbiddenRow(t, input.brief.forbidden[i], files, input.root);
      if input.brief.forbidden[i].PathClause? {
        ViolationsAreCited(t, JudgeOf(t, Forbids(input.brief.forbidden[i].kind, input.brief.forbidden[i].globs),
                                      input.root), input.events);
      }
    } else {
      ViolationsAreCited(t, JudgeOf(t, Confines(input.brief.scope), input.root), input.events);
    }
  }

  lemma RunnersAreListed(t: Tools, events: seq<Event>)
    ensures forall c :: c in Runners(t, Indexed(t, events).commands) ==> IsListed(Indexed(t, events).evidence, c.id)
  {
    var index := Indexed(t, events);
    IndexIsNumbered(t, events);
    RunnersAreCommands(t, index.commands);
    forall c | c in Runners(t, index.commands)
      ensures IsListed(index.evidence, c.id)
    {
      var k :| 0 <= k < |index.commands| && index.commands[k] == c;
      assert IsListed(index.evidence, index.commands[k].id);
    }
  }

  lemma MutationIsCited(t: Tools, input: Input)
    ensures var m := MutationOf(ForbiddenRows(t, input.brief.forbidden, Indexed(t, input.events).files, input.root));
      m.Some? ==> Cited(m.value.ids, Indexed(t, input.events).evidence)
  {
    var rows := ForbiddenRows(t, input.brief.forbidden, Indexed(t, input.events).files, input.root);
    MutationIsBroken(rows);
    if MutationOf(rows).Some? {
      var i :| 0 <= i < |rows| && rows[i].verdict == R.PromiseBroken
        && MutationOf(rows).value == Mutation(rows[i].text, rows[i].evidenceIds);
      ContainmentIsCited(t, input, rows[i]);
    }
  }

  /** A tests verdict cites the last runner and what broke a forbidden clause, nothing else. */
  lemma TestsRanCites(runners: seq<CommandEvidence>, full: bool, mutation: Option<Mutation>,
                      assertion: Option<Assertion>)
    ensures var v := TestsRan(runners, full, mutation, assertion);
      && R.AllDistinct(v.ids)
      && (forall id :: id in v.ids ==>
          (runners != [] && id == runners[|runners| - 1].id) || (mutation.Some? && id in mutation.value.ids))
      && (v.verdict == R.Contradicted ==> v.ids != [])
  {
    if mutation.Some? {
      DedupMembers((if runners == [] then [] else [runners[|runners| - 1].id]) + mutation.value.ids);
    }
  }

  /** What the tests verdict cites. */
  lemma RunVerdictIsCited(t: Tools, input: Input)
    ensures Cited(RunVerdict(t, input).ids, Indexed(t, input.events).evidence)
    ensures RunVerdict(t, input).verdict == R.Contradicted ==> RunVerdict(t, input).ids != []
  {
    var index := Indexed(t, input.events);
    var runners := Runners(t, index.commands);
    RunnersAreListed(t, input.events);
    MutationIsCited(t, input);
    TestsRanCites(runners, input.full, MutationOf(ForbiddenRows(t, input.brief.forbidden, index.files, input.root)),
                  FinalAssertion(t, input));
    assert runners != [] ==> runners[|runners| - 1] in runners;
  }

  lemma MoreEvidenceStillListed(t: Tools, input: Input, ids: seq<string>)
    requires Cited(ids, Indexed(t, input.events).evidence)
    ensures Cited(ids, AllEvidence(t, input))
  {
    var evidence := Indexed(t, input.events).evidence;
    forall id | id in ids
      ensures IsListed(AllEvidence(t, input), id)
    {
      if FinalAssertion(t, input).Some? {
        ListedStays(evidence, AllEvidence(t, input)[|evidence|], id);
      }
    }
  }

  /** Every row cites distinct ids of the emitted list, and a condemning row cites at least one. */
  lemma EveryRowIsCited(t: Tools, input: Input)
    ensures forall c :: c in AllClaims(t, input) ==>
              Cited(c.evidenceIds, AllEvidence(t, input)) && (c.verdict == R.Contradicted ==> c.evidenceIds != [])
    ensures forall c :: c in AllClauses(t, input) ==>
              Cited(c.evidenceIds, AllEvidence(t, input)) && (c.verdict == R.PromiseBroken ==> c.evidenceIds != [])
  {
    var v := RunVerdict(t, input);
    RunVerdictIsCited(t, input);
    MoreEvidenceStillListed(t, input, v.ids);
    ClaimsShare(t, input.brief.acceptance, v, FinalAssertion(t, input));
    forall c | c in AllClauses(t, input)
      ensures Cited(c.evidenceIds, AllEvidence(t, input)) && (c.verdict == R.PromiseBroken ==> c.evidenceIds != [])
    {
      if c !in AcceptanceRows(t, input.brief.acceptance, v) {
        ContainmentIsCited(t, input, c);
        MoreEvidenceStillListed(t, input, c.evidenceIds);
      }
    }
  }

  /** The emitted ids are `ev_0001`, `ev_0002` and so on, the recognised assertion last; all differ. */
  lemma EvidenceIsNumbered(t: Tools, input: Input)
    ensures forall i :: 0 <= i < |AllEvidence(t, input)| ==> AllEvidence(t, input)[i].id == EvidenceId(i + 1)
    ensures forall i, j :: 0 <= i < j < |AllEvidence(t, input)| ==>
              AllEvidence(t, input)[i].id != AllEvidence(t, input)[j].id
  {
    IndexIsNumbered(t, input.events);
    var evidence := AllEvidence(t, input);
    forall i, j | 0 <= i < j < |evidence|
      ensures evidence[i].id != evidence[j].id
    {
      if evidence[i].id == evidence[j].id {
        EvidenceIdsDiffer(i + 1, j + 1);
      }
    }
  }

  /** A receipt with these rows has no doctrine failure. */
  lemma ComputedRowsMeetDoctrine(t: Tools, input: Input, r: R.Receipt)
    requires r.content.claims == AllClaims(t, input) && r.content.clauses == AllClauses(t, input)
    ensures R.DoctrineClean(R.ReceiptFields(r))
  {
    EveryRowIsCited(t, input);
    EvidenceIsNumbered(t, input);
    forall id | IsListed(AllEvidence(t, input), id)
      ensures !L.IsBlank(id)
    {
      var i :| 0 <= i < |AllEvidence(t, input)| && AllEvidence(t, input)[i].id == id;
      assert id[0] == 'e' && id[0] in id && !L.IsTrimmed('e');
    }
    R.CitedRowsAreClean(r);
  }

  // -----------------------------------------------------------------------
  // Row ids, and what the builder checks
  // -----------------------------------------------------------------------

  function Underscored(id: string): string {
    if id == [] then [] else [if id[0] == '-' then '_' else id[0]] + Underscored(id[1..])
  }

  /** `machineId`, line 207. */
  function MachineId(prefix: string, id: string): string {
    prefix + ['_'] + Underscored(id)
  }

  /** The characters of a human id (src/schema/scalars.ts, line 11). */
  predicate IsKebab(id: string) {
    forall c :: c in id ==> 'a' <= c <= 'z' || '0' <= c <= '9' || c == '-'
  }

  lemma {:induction false} UnderscoredInjective(a: string, b: string)
    requires IsKebab(a) && IsKebab(b) && Underscored(a) == Underscored(b)
    ensures a == b
  {
    if a != [] && b != [] {
      var u := Underscored(a);
      assert u[0] == Underscored(b)[0] && u[1..] == Underscored(a[1..]) && u[1..] == Underscored(b[1..]);
      assert a[0] in a && b[0] in b;
      assert forall c :: c in a[1..] ==> c in a;
      assert forall c :: c in b[1..] ==> c in b;
      UnderscoredInjective(a[1..], b[1..]);
      assert a == [a[0]] + a[1..] && b == [b[0]] + b[1..];
    }
  }

  lemma MachineIdInjective(prefix: string, a: string, b: string)
    requires IsKebab(a) && IsKebab(b)
    ensures MachineId(prefix, a) == MachineId(prefix, b) <==> a == b
  {
    if MachineId(prefix, a) == MachineId(prefix, b) {
      assert MachineId(prefix, a)[|prefix| + 1..] == Underscored(a);
      assert MachineId(prefix, b)[|prefix| + 1..] == Underscored(b);
      UnderscoredInjective(a, b);
    }
  }

  /** Rows are named after the brief's ids, the scope row after the reserved one. */
  ghost predicate NamesRows(t: Tools, clause: string, claim: string, reserved: string) {
    && (forall id :: t.clauseId(id) == MachineId(clause, id)) && (forall id :: t.claimId(id) == MachineId(claim, id))
    && t.words.scopeClause == MachineId(clause, reserved) && IsKebab(reserved)
  }

  function AcceptanceIds(acceptance: seq<Acceptance>): seq<string> {
    seq(|acceptance|, i requires 0 <= i < |acceptance| => acceptance[i].id)
  }

  function ForbiddenIds(clauses: seq<Forbidden>): seq<string> {
    seq(|clauses|, i requires 0 <= i < |clauses| => clauses[i].id)
  }

  /** The ids that the clause rows are named after, in order. */
  function BriefIds(brief: Brief, reserved: string): seq<string> {
    AcceptanceIds(brief.acceptance) + ForbiddenIds(brief.forbidden) + if brief.scope == [] then [] else [reserved]
  }

  /** The brief's own rule: kebab-case ids, each once, none of them reserved (src/schema/brief.ts, lines 64 to 72). */
  ghost predicate ValidBrief(brief: Brief, reserved: string) {
    var ids := AcceptanceIds(brief.acceptance) + ForbiddenIds(brief.forbidden);
    R.AllDistinct(ids) && reserved !in ids && forall id :: id in ids ==> IsKebab(id)
  }

  lemma ValidBriefIds(brief: Brief, reserved: string)
    requires ValidBrief(brief, reserved)
    ensures R.AllDistinct(BriefIds(brief, reserved))
  {}

  lemma {:induction false} AcceptanceRowIds(t: Tools, acceptance: seq<Acceptance>, v: TestVerdict)
    ensures |AcceptanceRows(t, acceptance, v)| == |acceptance|
    ensures forall i :: 0 <= i < |acceptance| ==> AcceptanceRows(t, acceptance, v)[i].id == t.clauseId(acceptance[i].id)
  {
    if acceptance != [] {
      AcceptanceRowIds(t, acceptance[..|acceptance| - 1], v);
    }
  }

  lemma ForbiddenRowIds(t: Tools, clauses: seq<Forbidden>, files: seq<FileEvidence>, root: Option<UnitString>)
    ensures |ForbiddenRows(t, clauses, files, root)| == |clauses|
    ensures forall i :: 0 <= i < |clauses| ==> ForbiddenRows(t, clauses, files, root)[i].id == t.clauseId(clauses[i].id)
  {
    RowsBroken(t, clauses, files, root);
  }

  /** The rows are named after the ids. */
  ghost predicate NamedAfter(rows: seq<R.Clause>, prefix: string, ids: seq<string>) {
    |rows| == |ids| && forall i :: 0 <= i < |ids| ==> rows[i].id == MachineId(prefix, ids[i])
  }

  lemma NamedAfterBoth(a: seq<R.Clause>, b: seq<R.Clause>, prefix: string, ids: seq<string>, more: seq<string>)
    requires NamedAfter(a, prefix, ids) && NamedAfter(b, prefix, more)
    ensures NamedAfter(a + b, prefix, ids + more)
  {}

  lemma AcceptanceNamed(t: Tools, acceptance: seq<Acceptance>, v: TestVerdict, clause: string)
    requires forall id :: t.clauseId(id) == MachineId(clause, id)
    ensures NamedAfter(AcceptanceRows(t, acceptance, v), clause, AcceptanceIds(acceptance))
  {
    AcceptanceRowIds(t, acceptance, v);
  }

  lemma ForbiddenNamed(t: Tools, clauses: seq<Forbidden>, files: seq<FileEvidence>, root: Option<UnitString>,
                       clause: string)
    requires forall id :: t.clauseId(id) == MachineId(clause, id)
    ensures NamedAfter(ForbiddenRows(t, clauses, files, root), clause, ForbiddenIds(clauses))
  {
    ForbiddenRowIds(t, clauses, files, root);
  }

  lemma ScopeNamed(t: Tools, input: Input, clause: string, reserved: string)
    requires t.words.scopeClause == MachineId(clause, reserved)
    ensures NamedAfter(ScopeRows(t, input), clause, if input.brief.scope == [] then [] else [reserved])
  {}

  /** Every clause row is named after its id. */
  lemma ClauseRowIds(t: Tools, input: Input, clause: string, claim: string, reserved: string)
    requires NamesRows(t, clause, claim, reserved)
    ensures NamedAfter(AllClauses(t, input), clause, BriefIds(input.brief, reserved))
  {
    var files := Indexed(t, input.events).files;
    var accepted := AcceptanceRows(t, input.brief.acceptance, RunVerdict(t, input));
    var forbidden := ForbiddenRows(t, input.brief.forbidden, files, input.root);
    AcceptanceNamed(t, input.brief.acceptance, RunVerdict(t, input), clause);
    ForbiddenNamed(t, input.brief.forbidden, files, input.root, clause);
    ScopeNamed(t, input, clause, reserved);
    NamedAfterBoth(accepted, forbidden, clause, AcceptanceIds(input.brief.acceptance),
                   ForbiddenIds(input.brief.forbidden));
    NamedAfterBoth(accepted + forbidden, ScopeRows(t, input), clause,
                   AcceptanceIds(input.brief.acceptance) + ForbiddenIds(input.brief.forbidden),
                   if input.brief.scope == [] then [] else [reserved]);
  }

  /** The claims are named after acceptance clauses, each once. */
  lemma {:induction false} ClaimIds(t: Tools, acceptance: seq<Acceptance>, v: TestVerdict,
                                    assertion: Option<Assertion>, claim: string)
    requires forall id :: t.claimId(id) == MachineId(claim, id)
    requires R.AllDistinct(AcceptanceIds(acceptance)) && forall a :: a in acceptance ==> IsKebab(a.id)
    ensures forall c :: c in Claims(t, acceptance, v, assertion) ==>
              exists k :: 0 <= k < |acceptance| && c.id == MachineId(claim, acceptance[k].id)
    ensures ClaimsDiffer(Claims(t, acceptance, v, assertion))
  {
    if acceptance != [] {
      var init, last := acceptance[..|acceptance| - 1], acceptance[|acceptance| - 1];
      assert AcceptanceIds(init) == AcceptanceIds(acceptance)[..|init|];
      ClaimIds(t, init, v, assertion, claim);
      forall c | c in Claims(t, init, v, assertion)
        ensures c.id != MachineId(claim, last.id)
        ensures exists k :: 0 <= k < |acceptance| && c.id == MachineId(claim, acceptance[k].id)
      {
        var k :| 0 <= k < |init| && c.id == MachineId(claim, init[k].id);
        assert init[k] == acceptance[k];
        assert AcceptanceIds(acceptance)[k] != AcceptanceIds(acceptance)[|init|];
        MachineIdInjective(claim, acceptance[k].id, last.id);
      }
      if !last.freeform {
        assert ClaimFor(t, last, v, assertion).id == MachineId(claim, acceptance[|init|].id);
      }
    }
  }

  predicate ClaimsDiffer(claims: seq<R.Claim>) {
    forall i, j :: 0 <= i < j < |claims| ==> claims[i].id != claims[j].id
  }

  predicate ClausesDiffer(clauses: seq<R.Clause>) {
    forall i, j :: 0 <= i < j < |clauses| ==> clauses[i].id != clauses[j].id
  }

  lemma ClausesDifferAsIds(clauses: seq<R.Clause>, prefix: string, ids: seq<string>)
    requires NamedAfter(clauses, prefix, ids)
    requires forall id :: id in ids ==> IsKebab(id)
    ensures ClausesDiffer(clauses) <==> R.AllDistinct(ids)
  {
    forall i, j | 0 <= i < j < |ids|
      ensures clauses[i].id == clauses[j].id <==> ids[i] == ids[j]
    {
      assert ids[i] in ids && ids[j] in ids;
      MachineIdInjective(prefix, ids[i], ids[j]);
    }
  }

  lemma AllClaimsDiffer(t: Tools, input: Input, clause: string, claim: string, reserved: string)
    requires NamesRows(t, clause, claim, reserved) && R.AllDistinct(BriefIds(input.brief, reserved))
    requires forall id :: id in BriefIds(input.brief, reserved) ==> IsKebab(id)
    ensures ClaimsDiffer(AllClaims(t, input))
  {
    var acceptance := input.brief.acceptance;
    forall a | a in acceptance
      ensures IsKebab(a.id)
    {
      var k :| 0 <= k < |acceptance| && acceptance[k] == a;
      assert BriefIds(input.brief, reserved)[k] == a.id;
    }
    forall i, j | 0 <= i < j < |acceptance|
      ensures AcceptanceIds(acceptance)[i] != AcceptanceIds(acceptance)[j]
    {
      assert BriefIds(input.brief, reserved)[i] != BriefIds(input.brief, reserved)[j];
    }
    ClaimIds(t, acceptance, RunVerdict(t, input), FinalAssertion(t, input), claim);
  }

  /** The rows go into the content as they are. */
  ghost predicate Carries(t: Tools, input: Input, u: R.Unsigned) {
    u.claims == AllClaims(t, input) && u.clauses == AllClauses(t, input) && u.evidence == AllEvidence(t, input)
  }

  lemma CitationsAreKnown(t: Tools, input: Input, u: R.Unsigned)
    requires Carries(t, input, u)
    ensures forall c :: c in u.claims ==> forall id :: id in c.evidenceIds ==> id in R.EvidenceIds(u.evidence)
    ensures forall c :: c in u.clauses ==> forall id :: id in c.evidenceIds ==> id in R.EvidenceIds(u.evidence)
  {
    EveryRowIsCited(t, input);
    forall id | IsListed(AllEvidence(t, input), id)
      ensures id in R.EvidenceIds(u.evidence)
    {
      var i :| 0 <= i < |AllEvidence(t, input)| && AllEvidence(t, input)[i].id == id;
      assert u.evidence[i] in u.evidence;
    }
  }

  lemma ComputedIdsDiffer(t: Tools, input: Input, u: R.Unsigned, clause: string, claim: string, reserved: string)
    requires NamesRows(t, clause, claim, reserved) && Carries(t, input, u)
    requires forall id :: id in BriefIds(input.brief, reserved) ==> IsKebab(id)
    ensures R.IdsDiffer(u) <==> R.AllDistinct(BriefIds(input.brief, reserved))
  {
    ClauseRowIds(t, input, clause, claim, reserved);
    ClausesDifferAsIds(u.clauses, clause, BriefIds(input.brief, reserved));
    EvidenceIsNumbered(t, input);
    if R.AllDistinct(BriefIds(input.brief, reserved)) {
      AllClaimsDiffer(t, input, clause, claim, reserved);
    }
  }

  lemma ComputedCitationsResolve(t: Tools, input: Input, u: R.Unsigned)
    requires Carries(t, input, u)
    ensures R.CitationsResolve(u)
  {
    CitationsAreKnown(t, input, u);
  }

  /**
   * Computed rows pass the builder's cross-field check exactly when the ids they are named after differ; so
   * they do for every valid brief.
   */
  lemma ComputedRowsMeetInvariants(w: R.World, t: Tools, input: Input, u: R.Unsigned, clause: string, claim: string,
                                   reserved: string)
    requires NamesRows(t, clause, claim, reserved) && Carries(t, input, u)
    requires forall id :: id in BriefIds(input.brief, reserved) ==> IsKebab(id)
    requires u.summary == R.ComputeSummary(u.claims, u.clauses) && u.briefHash == w.briefHash(u.brief)
    ensures R.InvariantsHold(w, u) <==> R.AllDistinct(BriefIds(input.brief, reserved))
    ensures ValidBrief(input.brief, reserved) ==> R.InvariantsHold(w, u)
  {
    ComputedIdsDiffer(t, input, u, clause, claim, reserved);
    ComputedCitationsResolve(t, input, u);
    if ValidBrief(input.brief, reserved) {
      ValidBriefIds(input.brief, reserved);
    }
  }

  /** So of the rows computed for a valid brief only the structural schema can keep the builder from a receipt. */
  lemma ComputedReceiptIsBuilt(w: R.World, t: Tools, input: Input, given: R.Input, u: R.Unsigned, key: string,
                               clause: string, claim: string, reserved: string)
    requires R.Honest(w) && NamesRows(t, clause, claim, reserved) && ValidBrief(input.brief, reserved)
    requires R.Assembles(w, u, given) && Carries(t, input, u)
    ensures var r := R.Receipt(u, w.sign(R.UnsignedFields(u), key)); R.SelfCheck(w, r) <==> w.admits(r)
  {
    ComputedRowsMeetInvariants(w, t, input, u, clause, claim, reserved);
  }
}
