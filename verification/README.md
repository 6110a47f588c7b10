# Loopeix: a verified model of its state-heavy engines

A Dafny model of the parts of Loopeix whose correctness rests on state, interleaving, arithmetic or
text, with proofs of what those parts promise. One module models one component:

- `ReportWriter`, `ReportReader`: the crash-recoverable replacement of the three plan-report files, and
  the reader that must never accept a mixture of two generations. The directory is the state, a process
  may die between any two filesystem calls and inside a write, and any number of later processes may
  take over. Hashes are injective.
- `Glob`, `Paths`: the glob compiler, as text that a regular-expression reader reads back, and the path
  normaliser. Texts are sequences of UTF-16 code units.
- `Json`, `Ledger`, `LedgerText`, `Receipt`: the hash-chained ledger, its JSONL text (with a JSON printer
  and parser that are proved inverse), recovery from a cut at any character, and the receipt that binds
  to it. The schema, the signature scheme and the hashes are parameters.
- `PackWriter`, `Allocator`: the manifest-last pack writer under a fault at any call, and the identity
  allocator that retries it.
- `Lock`: the advisory lock, one call at a time and as an interleaving of any number of attempts.
- `SchemaEmbedding`, `SchemaChecker`: embedding a version schema in the dispatcher schema, by recursion
  in the generator and by an in-place worklist over a heap in the checker.
- `Budget`: the control-plane byte budget with its 2^53 - 1 bound.
- `Utf8Order`, `Traversals`: UTF-8 byte order against code-point order, sorted binding records, and the
  explicit-stack traversals of JSON values against recursion.
- `Verdicts`, `EvidenceIds`, `EvidenceRanges`: the verdict engine, and the ranges that a rendered receipt
  shortens its citations to, with their inverse.
- `Prelude`, `Text`, `Decimal`, `Permutation`: shared definitions.

`dafny verify dfyconfig.toml` checks the whole project.

## Where the code does less than it says

- `src/lock.ts` promises "no double-hold". Two attempts that both read the crashed holder's record both end
  up holding when the first is confirmed before the second renames; one steal is enough when the record
  vanishes before it is read (an absent record counts as stale), when the holder releases between the
  read and the liveness probe, or when a holder that is alive holds for longer than the limit.
  `Lock.DoubleHoldFromOverlappingSteals`, `Lock.DoubleHoldFromVanishedRecord`, `Lock.DoubleHoldFromLateProbe`
  and `Lock.DoubleHoldFromAge` give the runs. Exactly when the promise is kept, for every run of any
  number of attempts: two never hold at once if and only if no confirmation succeeds while somebody holds
  (`Lock.ExclusiveIffNoneConfirmedOverHeld`), and no holder ever loses its record, which gives one holder and
  releases that remove only their own record, if and only if the rename of line 101 never lands on a held
  lock (`Lock.KeptIffNoHeldRenamed`). `Lock.MutualExclusion` follows for runs whose steals target crashed
  attempts one at a time, and `Lock.ProbeMutualExclusion` for runs in which the probe alone decides: no uncrashed
  attempt's record is judged dead or old, no record vanishes before a steal, and steals do not overlap.
- `replacePlanReportProjectionSetV02` captures the published set before it tries the lock. A first
  publication that stops between its first and its last rename leaves a partial set, and every later
  call refuses it as stale although the protocol recognises the state.
  `ReportWriter.PartialIffFirstPublicationStopped` gives the exact states,
  `ReportWriter.FirstPublicationCanStick` a run that reaches one, and the contract of
  `ReportWriter.RunDirectory.Replace` shows that nothing else of what a crash leaves is refused.
- The same call creates its lock before it looks at the directory. Over a leftover `plan-report` name, a link or
  a special entry it then answers stale and leaves its lock behind, which stops every later call, also once its
  owner is dead. `ReportWriter.RunDirectory.Replace` has the exact condition and what is left,
  `ReportWriter.BlockedForGood` the two calls.
- A crash that tears the lock while it is written is not recovered from either: every later call of the same request
  is stale, as `ReportWriter.CrashThenResume` says beside what it says of all other crashes.
- "Another authenticated plan-report writer is active" is never said of another process: a writer records an
  identity of its own making, and that of another process is read from `ps`, so another live owner is answered as
  stale: `ReportWriter.BusyIffOwnProcess`.
- The layout filter in front of the writer (`src/run/capture-planned-v02.ts`, line 154) spells the third temp
  name with a dot where the writer spells it with a hyphen, so it rejects the directory exactly while that
  temp exists: `ReportReader.FilteredWhileThirdTempExists`, and `ReportReader.FilterRejectsFirstPublication` for
  a run that gets there from any directory.
- The glob header calls compilation conservative because it under-matches. A final `**` does not match a path
  with a line terminator: `Glob.CompiledExactlyIffOneLine`. For a scope clause that is the convicting
  direction: such a path breaks even the scope `**`: `Verdicts.ScopeJudgement`.
- Recovery of a ledger that is cut between two lines is "valid" unless the caller supplies the expected head
  sequence: `LedgerText.CutRecovers` gives both conditions.
- An archived run has ended for recovery but its state reads "running": `Ledger.TerminalStates`.
- A workspace root that is given with its final slash does not contain itself: the path of the root, without the slash,
  is then excluded from adjudication: `Paths.AbsoluteIsRelative`.
- A failed mode check after the exclusive create leaves a file that the pack writer does not record, so cleanup
  cannot remove it: `PackWriter.FailedModeCheckLeavesFile` gives the run. When one call fails while content is
  written, `PackWriter.Writer.Execute` says exactly what is left: the old names, unless that call was a member's
  mode check, or its create after the effect; then the pack stays with that member's file and nothing else.
  `PackWriter.Writer.CleanupBeforeManifest` is the same for any faults before it: with no call failing any more it
  is clean if and only if each recorded file is still at its name and the pack holds no other name, and then every
  directory has its old names back unless a standalone file went unrecorded.

## Model

| member | source | states |
|---|---|---|
| ReportWriter.StandsOnce | src/io/plan-report-writer-v02.ts:232-275 | A directory stands at one stage of the protocol at most, whichever of the members before and target agree in |
| ReportWriter.ClassifyHashes | src/io/plan-report-writer-v02.ts:225-275 | The chain of hash comparisons finds a stage exactly when the six hashes show one |
| ReportWriter.EffectAdvances | src/io/plan-report-writer-v02.ts:232-274 | The change that each stage calls for leads to the next stage with a smaller rank, and from the last stage to exactly the target trio without temps and lock |
| ReportWriter.CrashIsRecognised | src/io/plan-report-writer-v02.ts:207-275 | Whatever a process leaves that dies before, after or inside the change of its stage is again in flight, or complete |
| ReportWriter.RunsStayRecognised | src/io/plan-report-writer-v02.ts:217-276 | By induction over runs of any number of processes with any number of crashes: every state is in flight or complete, and foreign names are untouched |
| ReportWriter.RunDirectory.WriteTemp | src/io/plan-report-writer-v02.ts:207-210 | Exclusive create and write: refused when the name exists, torn when it fails inside |
| ReportWriter.RunDirectory.Classify | src/io/plan-report-writer-v02.ts:225-275 | The stage of the directory, or none when no stage stands |
| ReportWriter.RunDirectory.ClassifyAndAdvance | src/io/plan-report-writer-v02.ts:217-276 | Stale, changing nothing, exactly when the lock is not authentic or no stage stands; otherwise the one change of that stage or a part of it |
| ReportWriter.RunDirectory.Step | src/io/plan-report-writer-v02.ts:217-276 | Stale exactly off the protocol; every "advanced" strictly decreases the remaining steps; "complete" means exactly the target trio |
| ReportWriter.RunDirectory.Drive | src/io/plan-report-writer-v02.ts:326-334 | The loop ends; it ends with the target trio, or unchanged and stale exactly off the protocol, or stopped by a failing call in a recognised state |
| ReportWriter.RunDirectory.TakeLock | src/io/plan-report-writer-v02.ts:285-324 | A partial published set is refused before the lock is tried; otherwise the lock is created in full, or refused with the reason of what went wrong in creating it and exactly what that leaves; a lock that is there is taken over exactly when its owner is dead and its lineage the same, and answered "busy" exactly when its owner is alive with the recorded start identity; what lineage a new lock has is the next row |
| ReportWriter.ResumedByItsOwnLineage | src/io/plan-report-writer-v02.ts:294-304 | Whatever state a dead writer has reached, it is resumed by exactly the valid requests with the source, generation and declared hashes of its own, so always by its own |
| ReportWriter.BusyForItsWriter | src/io/plan-report-writer-v02.ts:294-318 | The lock a writer makes is found active exactly by the process that made it |
| ReportWriter.RunDirectory.Replace | src/io/plan-report-writer-v02.ts:283-335 | From every state that a crash can leave, the same lineage is refused exactly when the published set is partial, and otherwise ends with the target trio or a recognised state; over any other lock, and over that of a live owner, nothing changes and the answer is busy or stale, busy exactly for a live owner that is told; without a lock it is stale, leaving its own lock, exactly over leftovers, links and special entries; a troubled creation is answered by its trouble; only lock, reports and the temps of that lock change |
| ReportWriter.CrashThenResume | src/io/plan-report-writer-v02.ts:283-335 | Two calls of one request over a fresh directory, the first with any faults: unless the lock itself was torn, the second is stale exactly when the first left a partial set, and otherwise, when nothing fails again, publishes the trio; over a torn lock it is stale |
| ReportWriter.BlockedForGood | src/io/plan-report-writer-v02.ts:291-323 | A call over leftovers leaves its lock, and every later valid call is answered busy or stale |
| ReportWriter.StartsIffFresh | src/io/plan-report-writer-v02.ts:217-246 | The lock just created starts the protocol exactly in a directory without leftovers, links and special entries |
| ReportWriter.LeftLockBlocks | src/io/plan-report-writer-v02.ts:311-323 | A lock that did not start the protocol can be resumed by no request, whatever became of its owner |
| ReportWriter.BusyIffOwnProcess | src/io/plan-report-writer-v02.ts:118-127 | An owner is found active exactly when the lock is the caller's own process's, as own and foreign identities are told differently |
| ReportWriter.FreshIsInFlight | src/io/plan-report-writer-v02.ts:291-306 | Writing the lock over a directory without report leftovers puts it at the first stage, or at the last when before is target |
| ReportWriter.PartialIffFirstPublicationStopped | src/io/plan-report-writer-v02.ts:200-205 | Of the recognised states, exactly a first publication stopped between the first and the last rename shows a partial set |
| ReportWriter.FirstPublicationCanStick | src/io/plan-report-writer-v02.ts:291-292 | Such a state is reached from every directory without reports by four whole steps |
| ReportWriter.LayoutIsProper | src/io/plan-report-writer-v02.ts:219-224 | The repository's own names keep lock, reports and every temp name apart |
| ReportReader.OccursExactlyOnceMeansOnePlace | src/report/plan-open.ts:73-76 | For a literal that cannot overlap itself, the two searches succeed exactly when there is one occurrence |
| ReportReader.MarkersOpenOnce | src/report/plan-open.ts:98-107 | The markdown and HTML markers are literals that cannot overlap themselves |
| ReportReader.MarkersExactly | src/report/plan-open.ts:96-110 | The markers hold exactly when the Markdown begins with its marker on a line of its own and has no other, each HTML marker stands at one place, and no other tag opens under one of the three names |
| ReportReader.TextsNameTheirInput | src/report/plan-open.ts:96-110 | Two inputs whose markers hold in the same two texts have the same generation and plan hash |
| ReportReader.OpenDecision | src/report/plan-open.ts:78-138 | When the answer is "not built", "contaminated" or opened: opened exactly for the core files with the three reports, with an input that names the hashes of plan, manifest, loop, Markdown and HTML, and markers that hold |
| ReportReader.InputFixesTheRest | src/report/plan-open.ts:87-93 | Two directories that open with the same input have the same plan, manifest, loop and texts |
| ReportReader.ReadsOldOrNew | src/io/plan-report-writer-v02.ts:251-262 | Whatever a report name holds at any moment, before the lock, under it or after it, is the whole old or the whole new member |
| ReportReader.NeverAMixture | src/report/plan-open.ts:78-115 | Three reads at any three moments, before, during or after any run: if they validate they are the complete old generation or the complete new one, with the plan, manifest and loop it was built from |
| ReportReader.TakingTheLockIsNotBegun | src/io/plan-report-writer-v02.ts:285-312 | Until the lock is whole, absent or torn as it may be, the reports are those that the lock records as before |
| ReportReader.ListedInFlightIsContaminated | src/report/plan-open.ts:117-138 | A directory listed while the lock is there is refused before anything is read |
| ReportReader.CommittedOpens | src/report/plan-open.ts:117-138 | Once the writer has committed, the directory opens with the new trio exactly when plan, manifest and loop are those it was built from, and is an invalid generation otherwise |
| ReportReader.ThirdTempIsFiltered | src/run/capture-planned-v02.ts:154 | No third temp name passes the filter's expression |
| ReportReader.FilteredWhileThirdTempExists | src/run/capture-planned-v02.ts:143-158 | The filter admits a state of the protocol exactly while the third temp does not exist |
| ReportReader.FilterRejectsFirstPublication | src/run/capture-planned-v02.ts:143-158 | From every directory of core files a first publication goes from a state that the filter admits to one that it rejects |
| Glob.SegmentToRegex | src/glob.ts:33-41 | The loop writes the regex text of a segment |
| Glob.GlobToRegExp | src/glob.ts:44-58 | The loop writes the anchored regex text of a pattern, a trailing slash standing for everything below |
| Glob.TrailingSlash | src/glob.ts:45-46 | Appending `**` to a pattern that ends in a slash is the same as reading its empty last segment as `**` |
| Glob.CompiledTextReadsBack | src/glob.ts:44-58 | Reading the written text as a regular expression gives the intended tree, specials escaped and groups nested as meant |
| Glob.CompiledLanguage | src/glob.ts:44-58 | Exactly which texts the compiled expression accepts, for every pattern and every text |
| Glob.CompiledIsConservative | src/glob.ts:18-25 | What the expression accepts, the segment-wise glob covers |
| Glob.CompiledExactlyWithoutFinalStars | src/glob.ts:48-56 | A pattern that does not end in `**` is compiled exactly on every normalised path |
| Glob.CompiledExactlyIffOneLine | src/glob.ts:52 | Every pattern is compiled exactly on a normalised path if and only if the path has no line terminator |
| Paths.NormalizePath | src/glob.ts:73-116 | The stack machine answers the canonical name of the node that walking the path reaches, or null when there is none |
| Paths.RefusedIffEscapes | src/glob.ts:98-113 | A relative path is refused exactly when some prefix of it steps above the root |
| Paths.AbsoluteIffUnderRoot | src/glob.ts:77-90 | An absolute path is refused without a root, and lies under a root exactly when it is the root or continues it after a slash |
| Paths.AbsoluteIsRelative | src/glob.ts:77-90 | Under the root, named with or without its slash, an absolute path normalises as its rest does from there |
| Paths.OutputIsCanonical | src/glob.ts:98-116 | The output has no empty, `.` or `..` segment |
| Paths.SameTextIffSameNode | src/glob.ts:73-116 | Two paths normalise alike exactly when they reach the same node |
| Paths.Idempotent | src/glob.ts:73-116 | Normalising the output changes nothing |
| Paths.MatchMeansCovered | src/glob.ts:120-130 | A match names a place inside the workspace that the glob covers; on one line also the converse |
| Json.ParsePrint | src/ledger.ts:31-33 | Parsing what was printed gives the value back |
| Json.NoPrefixParses | src/ledger.ts:54-60 | No proper prefix of the text of an object parses |
| Json.PrintOnOneLine | src/ledger.ts:31-33 | A printed value never contains a newline |
| Ledger.ValidateLedger | src/ledger.ts:70-109 | No issue exactly when every event reads, links to its predecessor, carries its position and the ledger's run id, and no event id comes twice |
| Ledger.VerifyEventHashes | src/ledger.ts:116-125 | No issue exactly when every stored hash is the hash of its content |
| Ledger.LinkedCount | src/ledger.ts:175-187 | The count is the length of the longest linked and hash-correct prefix, and the last sequence equals it |
| Ledger.RecoverLedger | src/ledger.ts:151-203 | Valid exactly when the ledger is sound, nothing was dropped and the head reaches the expected sequence; state and termination are those of the longest linked prefix |
| Ledger.StateTable | src/ledger.ts:127-134 | Each of the five lifecycle events gives its own state, any other event "running", none "planned" |
| Ledger.TerminalStates | src/ledger.ts:136 | A run has ended exactly when its state is completed, failed or held or its last event is run.archived, whose state reads "running" |
| Ledger.SoundIffSealed | src/ledger.ts:21-28 | A ledger is sound if and only if it is what appending drafts of one run with distinct event ids produces |
| Ledger.HeadDetermines | src/ledger.ts:95-105 | Under an injective hash, two linked ledgers with the same head hash are the same ledger |
| LedgerText.ParseLedgerText | src/ledger.ts:43-63 | The tolerant loop returns the values of the readable lines, the corrupt line numbers, and the partial flag for a corrupt last line |
| LedgerText.EveryLineIsAccountedFor | src/ledger.ts:43-63 | Every line is an event, a corrupt line under its 1-based number, the partial last line or blank; corrupt is partial exactly on the last line |
| LedgerText.ParseSerialized | src/ledger.ts:31-63 | Parsing a serialised ledger gives its values, no corrupt line and no partial flag |
| LedgerText.TextRecoversExactly | src/ledger.ts:43-203 | Of any text at all: recovery is valid exactly when every line reads, the values are those of drafts of one run with distinct ids appended one by one, and there are as many as expected |
| LedgerText.CutExists | src/ledger.ts:43-63 | Every length of the text is a number of kept lines and a rest of the next |
| LedgerText.CutParses | src/ledger.ts:43-63 | A cut at any character yields exactly the events whose text is complete, no corrupt line, and the partial flag exactly when it falls inside a line |
| LedgerText.CutRecovers | src/ledger.ts:151-203 | After any cut the recovered sequence is the event count; with the expected head it is valid exactly when at most the final newline is gone, without it exactly when the cut is not inside a line |
| Receipt.BuildReceipt | src/receipt.ts:113-166 | A receipt is returned exactly when the content assembled from the input, which nothing leaves open, passes its own check once signed; binding, run state and integrity come from the ledger, the state from the last event of its longest linked prefix |
| Receipt.AssembledOnce | src/receipt.ts:113-150 | Input and ledger determine the whole content |
| Receipt.SignedContentIsWhole | src/receipt.ts:121-150 | Two contents with the same signed JSON are the same: the signature covers every field |
| Receipt.SummaryCounts | src/receipt.ts:85-105 | Each figure is the number of rows with its verdict, and the figures add up to the rows |
| Receipt.CheckInvariants | src/schema/receipt.ts:147-208 | The loops report nothing exactly when ids of a kind differ, every citation resolves, the summary counts the rows and the hash of the brief is recomputed |
| Receipt.DoctrineExactly | src/receipt.ts:169-192 | A written receipt meets the doctrine exactly when every contradicted claim and every broken clause cites an id that is not blank |
| Receipt.DoctrineFailsClosed | src/receipt.ts:169-192 | On raw JSON a list meets the doctrine only as an array without bare values whose condemning rows cite an id |
| Receipt.DoctrineFailures | src/receipt.ts:169-192 | No failure exactly when both lists are arrays of objects whose condemning rows cite an id |
| Receipt.VerifyReceipt | src/receipt.ts:214-353 | Each reported check holds exactly when its condition on the raw text does, in the documented order |
| Receipt.InvariantsImplyDoctrine | src/receipt.ts:169-192 | A receipt that meets schema and cross-field invariants has no doctrine failure in its raw JSON |
| Receipt.ChecksExactly | src/receipt.ts:214-353 | Of any admitted receipt over any ledger each check passes exactly when what it attests holds of the receipt and that ledger |
| Receipt.UnreadableFails | src/receipt.ts:214-353 | Without a receipt that parses no check of it passes, without a signature not that check, without a ledger no deep one |
| Receipt.BuiltReceiptVerifies | src/receipt.ts:214-353 | A built receipt passes all checks against its serialised ledger, the chain check exactly when that ledger recovers as valid |
| Receipt.OnlyTheBoundBytes | src/receipt.ts:307-314 | Under an injective text hash only the bound bytes pass the hash check |
| Receipt.OneLedgerPerReceipt | src/receipt.ts:316-349 | Under an injective event hash, texts that pass the head and chain checks of one receipt hold the same events |
| PackWriter.Writer.UnlinkIfSame | src/io/compiler-writer-child.ts:123-130 | Removes the name exactly if it still leads to the recorded file, when no call fails; under faults removes that name or nothing |
| PackWriter.Writer.ReserveFile | src/io/compiler-writer-child.ts:109-121 | Exclusive create; a failure after it leaves an empty file and no record |
| PackWriter.Writer.CleanupEmptyPack | src/io/compiler-writer-child.ts:132-140 | Either nothing changes or exactly the empty pack goes; a clean answer means it went, and when no call fails it goes exactly if it is empty |
| PackWriter.Writer.CleanupBeforeManifest | src/io/compiler-writer-child.ts:142-170 | Every state on the way is safe and only files of this run go; when no call fails it is clean exactly if every recorded file is at its name and the pack holds no other; a clean answer means that the old namespace is back, unless exactly an unrecorded standalone file is left |
| PackWriter.Writer.OpenPack | src/io/compiler-writer-child.ts:177-206 | The pack is made and identified, or the answer leaves the names as they were unless it is the unconfirmed one |
| PackWriter.Writer.EnterPack | src/io/compiler-writer-child.ts:208-232 | Entering fails only with the pack removed, or unconfirmed |
| PackWriter.Writer.WriteContent | src/io/compiler-writer-child.ts:241-270 | When nothing is thrown every member but the manifest and the standalone file hold their exact synced bytes |
| PackWriter.Writer.WriteManifest | src/io/compiler-writer-child.ts:272-289 | The manifest is added to complete content; success means the whole request is there |
| PackWriter.Writer.Execute | src/io/compiler-writer-child.ts:172-323 | Under any faults: in every logged state nothing old is changed, the manifest name implies complete content and only requested names are new; "exists" and "identity mismatch" leave the namespace as it was; without faults the answer is exactly the expected one; with one failing call while content is written the old names are back, or exactly the one file without a record is left in the pack |
| PackWriter.Writer.GiveUp | src/io/compiler-writer-child.ts:290-322 | Cleanup is used once content has started too: with no further fault it leaves the old names, or in the pack just the file that was lost |
| PackWriter.ExpectedExactly | src/io/compiler-writer-child.ts:172-256 | When no call fails: "exists" exactly for a taken pack name, "identity mismatch" exactly in another directory or over a moved parent, a taken standalone name exactly answered as such, success otherwise |
| PackWriter.OldNamesRead | src/io/compiler-writer-child.ts:172-323 | In every safe state every old name reads as it did |
| PackWriter.ManifestMeansWhole | src/io/compiler-writer-child.ts:272-281 | Whoever finds the manifest in a safe state reads every member and the standalone file whole |
| PackWriter.CommittedReads | src/io/compiler-writer-child.ts:172-289 | After success the pack reads as the request, member by member, with nothing else in it |
| PackWriter.FailedModeCheckLeavesFile | src/io/compiler-writer-child.ts:109-121 | The run in which only the mode check after the first create fails: unconfirmed, and pack and empty file stay |
| PackWriter.ManifestIsLast | src/io/compiler-writer-child.ts:272-281 | Creating, tearing or completing the manifest file keeps every other file complete |
| PackWriter.RemovedUndoesMade | src/io/compiler-writer-child.ts:132-140 | Making the pack and removing it leaves every name and file as it was |
| Allocator.CompileIdsDiffer | src/compiler/compile-id.ts:125-141 | Two candidates share a name only with the same clock reading and the same eight random bytes |
| Allocator.ClockReadsBack | src/compiler/compile-id.ts:125 | The clock part is a base-36 numeral that reads as the clock |
| Allocator.EntropyReadsBack | src/compiler/compile-id.ts:129-131 | The random part is two hex digits a byte, which read as that byte |
| Allocator.CommitCandidate | src/compiler/compile-v02.ts:311-393 | The writer's answer is passed on by the fixed map, a taken standalone name as an abort, and without faults it is the expected one; a writer that is killed leaves the last state it went through, a partly written pack included, and is answered as unavailable |
| Allocator.OutcomeByAnswer | src/compiler/compile-id.ts:152-183 | The outcome by the writer's own answer: a mismatch is "identity changed", an unconfirmed write "durability unknown", a taken standalone name "aborted", a written pack success exactly under its own id |
| Allocator.Allocate | src/compiler/compile-id.ts:97-193 | At most sixteen commits, each but the last answered "exists"; what is kept is the last candidate's; every state on the way is one candidate's writing over the old namespace |
| Allocator.WhatTheOutcomeMeans | src/compiler/compile-id.ts:125-192 | Only candidates with eight random bytes are tried, and trying stops at one without; success names the last candidate, whose whole request is on disk; a failure is that of the last commit; the collision limit means sixteen taken names and an unchanged namespace; at most one new pack directory remains |
| Lock.LockFile.Acquire | src/lock.ts:114-131 | Undisturbed: acquired without a record, over one older than the limit, and within the limit exactly over a dead process other than the caller's; then the record is the caller's, and refused it is kept |
| Lock.Handle.Release | src/lock.ts:135-148 | Removes the record at most once and only if it is the holder's own |
| Lock.StepStaysOrderly | src/lock.ts:82-148 | Every single step keeps the file's record with its holder and the steal windows apart, and unlinks only the releaser's own record |
| Lock.KeptIffNoHeldRenamed | src/lock.ts:97-112 | For every run from a state where holders have their record in the file: that stays so in every state if and only if no rename ever lands while somebody holds |
| Lock.KeptMeansOneHolder | src/lock.ts:13-16 | Where every holder has its own record in the file there is at most one |
| Lock.ExclusiveIffNoneConfirmedOverHeld | src/lock.ts:97-150 | For every run: two attempts never hold at once if and only if no confirmation succeeds while somebody holds; linking and releasing never break it |
| Lock.MutualExclusion | src/lock.ts:82-150 | In every interleaving where each steal reads a crashed attempt's record and no two steal windows overlap: at most one live holder, its record in the file, and no release removes another's record |
| Lock.StaleMeansCrashed | src/lock.ts:125-127 | Where the probe answers truly, what is judged stale is the record of a crashed attempt |
| Lock.ProbeMutualExclusion | src/lock.ts:82-150 | The same with the liveness probe in place of that assumption: no uncrashed attempt's record is judged old or dead, and no record has vanished when a steal reads |
| Lock.StealersRace | src/lock.ts:97-112 | Of two stealers the later to rename always wins, the earlier also wins exactly when it was confirmed before the later renamed |
| Lock.DoubleHoldFromOverlappingSteals | src/lock.ts:13-16 | A run with two holders in which every steal targets the crashed holder |
| Lock.DoubleHoldFromVanishedRecord | src/lock.ts:125-127 | A run with two holders and a single steal, of a record that was gone when it was read |
| Lock.DoubleHoldFromLateProbe | src/lock.ts:125-129 | A run with two holders and a single steal, judged by a probe that came after the release |
| Lock.DoubleHoldFromAge | src/lock.ts:18-19 | A run with two holders in which the first is alive but its record older than the limit |
| SchemaEmbedding.ResolveRebased | scripts/generate-schema.ts:62-73 | Following any pointer commutes with rewriting; what rewriting does is the next two rows |
| SchemaEmbedding.ReferencesAreRewritten | scripts/generate-schema.ts:62-80 | Wherever a reference into the definitions stands in the standalone schema, the embedded one has it in the namespace |
| SchemaEmbedding.NothingElseIsRewritten | scripts/generate-schema.ts:62-80 | At every other pointer there is the same value, the same length or the same keys in the same order, except that identity and dialect of the root are gone |
| SchemaEmbedding.ReferenceKeepsMeaning | scripts/generate-schema.ts:101-112 | A reference into the definitions, once rewritten, resolves inside the dispatcher exactly when it did standalone, and to the rebased image of the same array or object |
| SchemaEmbedding.ReferenceLands | scripts/generate-schema.ts:62-112 | At the place of every reference of the standalone schema the dispatcher has one that leads somewhere exactly when the other did, and to the rebased image of the same array or object |
| SchemaEmbedding.WordsAreProper | scripts/generate-schema.ts:62-110 | The words of the repository are as the theorems ask |
| SchemaEmbedding.NestedIdEmbedded | src/commands/doctor.ts:181-187 | Embedding neither adds nor hides an identifier below the root |
| SchemaChecker.Heap.RewriteInPlace | src/commands/doctor.ts:193-206 | The worklist ends with the tree under its root rebased in place and every other cell untouched |
| SchemaChecker.Heap.Store | src/commands/doctor.ts:190 | The structured clone is a fresh tree with the same value |
| SchemaChecker.EmbeddedVersionSchema | src/commands/doctor.ts:189-208 | The checker's embedding equals the generator's on every schema |
| SchemaChecker.RewritingTwiceDiffers | src/commands/doctor.ts:202-204 | Visiting a cell twice would rewrite its reference again, so it matters that the copy is a tree |
| SchemaChecker.ValidDispatcherSchema | src/commands/doctor.ts:232-246 | Accepts exactly the dispatchers with the fixed header, no nested identifier and the two embedded schemas by text |
| SchemaChecker.AcceptedKeepsMeaning | src/commands/doctor.ts:232-246 | In every dispatcher the checker accepts, rewritten references keep their meaning |
| SchemaChecker.AcceptedRewrites | src/commands/doctor.ts:232-246 | In every dispatcher the checker accepts, every reference into the definitions of a version schema has been rewritten |
| SchemaChecker.NestedIdIsBelow | src/commands/doctor.ts:181-187 | An identifier is nested exactly when some pointer below the root leads to an object that has one |
| SchemaChecker.AcceptedExactly | src/commands/doctor.ts:232-246 | By pointers: accepted exactly without identifiers below the root, with the fixed properties, and with exactly the two embedded schemas as definitions |
| SchemaChecker.GeneratedIsAccepted | src/commands/doctor.ts:232-246 | The checker accepts what the generator makes exactly when neither schema nests an identifier |
| Budget.Derive | src/compiler/control-plane-budget-v02.ts:113-242 | Invalid exactly when the contract fails; otherwise success, EXCEEDS or OVERFLOW exactly as the closed-form total compares with the reserve and 2^53 - 1, with the exact figures |
| Budget.RetryByTask | src/compiler/control-plane-budget-v02.ts:126-132 | The map holds each task's largest maximum |
| Budget.LimitsOfTheContract | src/compiler/control-plane-budget-v02.ts:92-147 | A valid contract has exactly the eleven derived limits, each within 2^53 - 1 |
| Budget.EffectRows | src/compiler/control-plane-budget-v02.ts:148-155 | Accepted exactly when each row names a known task, no task twice, with at least one effect |
| Budget.EventRowsSum | src/compiler/control-plane-budget-v02.ts:166-193 | The event families sum to 2K + 2A + G, and their charge is the closed form |
| Budget.RowsOverflowTogether | src/compiler/control-plane-budget-v02.ts:213-223 | No row can be too large to report while the total is not |
| Budget.TotalIsCharge | src/compiler/control-plane-budget-v02.ts:109-111 | The charge of all rows is the closed-form total, which bounds every other reported figure |
| Budget.DerivedFamilies | src/compiler/control-plane-budget-v02.ts:166-211 | A derived budget lists each of the 24 event families and 16 file families once, in order, each with its own ceiling in terms of the plan and its own rate |
| Budget.OrderDoesNotMatter | src/compiler/control-plane-budget-v02.ts:126-161 | The whole answer is the same for every order of tasks, retry rules and side-effect rows |
| Utf8Order.CompareUtf8Bytes | src/catalog/item-v02.ts:30-39 | The result has the sign of code-point lexicographic order and is zero only on equal texts |
| Utf8Order.ByteOrderIsCodePointOrder | src/catalog/item-v02.ts:30-39 | Byte order of UTF-8 encodings is code-point order |
| Utf8Order.DecodeEncode | src/catalog/item-v02.ts:30-39 | Every encoding is one that UTF-8 admits and decodes to its character |
| Utf8Order.RequireSortedUnique | src/catalog/item-v02.ts:117-123 | Objects to exactly the places out of order; no objection if and only if all values are globally strictly sorted |
| Utf8Order.SortedPayloadPasses | src/compiler/binding-input-v02.ts:286-292 | The sorted payload passes the record's check exactly when its keys are unique |
| Utf8Order.PayloadOrderDoesNotMatter | src/compiler/binding-input-v02.ts:286-292 | Payloads with the same entries give the same record |
| Traversals.IsStrictJsonValue | src/compiler/binding-input-v02.ts:24-58 | Ends, and accepts exactly the plain values with finite numbers, depth at most 64 and at most 100000 nodes |
| Traversals.StringLeavesDepthFirst | src/compiler/binding-input-v02.ts:122-138 | Equals the left-to-right recursive list of strings |
| Verdicts.IndexEvidence | src/verdicts.ts:240-275 | The loop builds the numbered index of commands, file changes and tool calls |
| Verdicts.EvidenceIsNumbered | src/verdicts.ts:248 | The emitted ids are numbered in order and all differ |
| Verdicts.EntryAt | src/verdicts.ts:244-256 | Every evidence event has its own entry, at the place and under the id that counts the evidence up to it |
| Verdicts.FilesAreTheStreams | src/verdicts.ts:264-272 | The index lists exactly the file changes of the stream, each under the id of its own event |
| Verdicts.AssertionIsLast | src/verdicts.ts:523-534 | A recognised assertion is one more entry after all events |
| Verdicts.AdjudicateForbidden | src/verdicts.ts:315-371 | The row follows from what all changes bring up: violations first, then excluded paths, then unclear kinds |
| Verdicts.AdjudicateScope | src/verdicts.ts:377-418 | Likewise for the scope, where every normalised path outside all globs is a violation |
| Verdicts.ComputeVerdicts | src/verdicts.ts:515-628 | The loops compute the claims, clauses and evidence that the theorems below are about, which state them by the events |
| Verdicts.ForbiddenVerdict | src/verdicts.ts:346-370 | A forbidden clause is broken exactly when the stream holds a violating change, and is never kept; while it is open the reason is an excluded path, else an unclear kind, else nothing recorded |
| Verdicts.ScopeVerdict | src/verdicts.ts:404-417 | The scope clause is broken exactly when the stream holds a change outside it, and is never kept; the reason of an open one likewise |
| Verdicts.BrokenCitesWitnesses | src/verdicts.ts:346-358 | A broken row cites exactly the events that break it |
| Verdicts.ConvictionIsMonotone | src/verdicts.ts:8-25 | A broken clause stays broken on every stream that contains the events |
| Verdicts.BrokenMeansCovered | src/verdicts.ts:293-304 | A forbidden violation names a place inside the workspace that one of the globs covers, and is a deletion under a clause against deleting, an addition or update under one against writing |
| Verdicts.ForbiddenJudgement | src/verdicts.ts:293-342 | On one line exactly: a change breaks the clause when a glob covers it and its kind is a forbidden one, and is unclear when it has no kind |
| Verdicts.ScopeJudgement | src/verdicts.ts:393-400 | On one line the scope is broken exactly where no glob covers the path; a line terminator breaks even `**` |
| Verdicts.RunVerdictExactly | src/verdicts.ts:435-498 | By the events: VERIFIED exactly with full capture, no broken forbidden clause, no partial total, and a last event that runs tests which exited with 0; CONTRADICTED exactly so with a claimed full pass and another code; either cites that event alone; KEPT only as VERIFIED |
| Verdicts.WhyUnsupported | src/verdicts.ts:447-498 | An UNSUPPORTED verdict gives the first reason that applies: partial capture, a broken clause, a partial total, no runner, or what the last runner exited with |
| Verdicts.AcceptanceVerdict | src/verdicts.ts:500-598 | The row of an acceptance clause carries its id and title; on tests it is kept exactly as the claim is VERIFIED and broken exactly as it is CONTRADICTED; a freeform one stays open |
| Verdicts.EveryTestsClauseIsClaimed | src/verdicts.ts:558-617 | Every acceptance clause on tests has its claim, with the asserted text or its own title, and there is none at all exactly without such a clause and without a recognised assertion |
| Verdicts.ClausesInPlace | src/verdicts.ts:536-628 | Every clause has its row in its place: acceptance, forbidden, then a scope that is not empty |
| Verdicts.BrokenNeverVerifies | src/verdicts.ts:549-556 | Once a forbidden clause is broken no super-stream has a VERIFIED claim or a KEPT clause |
| Verdicts.EveryRowIsCited | src/verdicts.ts:346-358 | Every row cites distinct ids of the emitted list, a condemning row at least one |
| Verdicts.ComputedRowsMeetDoctrine | src/receipt.ts:169-192 | A receipt with the computed rows has no doctrine failure |
| Verdicts.ComputedRowsMeetInvariants | src/schema/receipt.ts:147-200 | Computed rows pass the cross-field check exactly when the brief's ids, the reserved one included, all differ; so they do for every valid brief |
| Verdicts.ComputedReceiptIsBuilt | src/receipt.ts:150-165 | Of the rows computed for a valid brief only the structural schema can keep the builder from a receipt |
| EvidenceRanges.CompressEvidence | src/render/pr.ts:103-120 | The loops print the cell: up to four ids as they are, longer lists with maximal runs of three and more as ranges |
| EvidenceRanges.MaximalRunIsShown | src/render/pr.ts:107-119 | Each maximal run has its parts in the cell: one or two ids by themselves, three and more as one range |
| EvidenceRanges.WhenRangesAreUsed | src/render/pr.ts:103-106 | Up to four ids are all listed |
| EvidenceRanges.NoBrokenSpan | src/render/pr.ts:85-88 | A text that would break its code span is escaped instead |
| EvidenceRanges.SuccessorsCount | src/render/pr.ts:91-96 | Padded ids succeed each other exactly when their numbers do, also across a change of width |
| EvidenceRanges.CellExpands | src/render/pr.ts:98-120 | Expanding the printed ranges gives the cited list back, for every list of pipeline ids below 2^53 |

## Left out

- Power loss, directory-entry durability and fsync internals: the model's crashes are process crashes.
- Concurrent recoverers of one report lock, and a crash while the report lock itself is written beyond leaving a torn lock: the code does not promise more.
- Device and inode comparison of the report lock, its 65536-byte limit, and its JSON text: the captured lock is a value and "unchanged" means the same value.
- The fingerprint checks inside `stableFileHash` and the report reader's helper process: a read returns one state's content.
- `ReportReader.Decide`: the compile-time core names and the classifier's other layouts are a parameter or absent.
- NFC normalisation is the identity, in paths and in patterns.
- `for...of` over a pattern walks code points; the model walks code units, which writes the same text since no special is outside the basic plane.
- JSON numbers are kept as their text, and an escaped lone surrogate is not read; texts are sequences of scalar values.
- Zod schemas, RFC 8785 canonicalisation, hashes and signatures are parameters with the properties that callers rely on.
- `PackWriter.Writer.Execute`: foreign processes do not write inside its directories, the standalone parent path is absolute and leads to a directory that was there before, and the order in which directory entries reach the disk is not modelled.
- `PackWriter.Writer.WriteAndSync`: write, sync and close may each fail, and a crash inside the write may leave any bytes; a partial sync is not told from none.
- The framing, base64 and parsing of the pack writer's request: its result is a valid request.
- `Allocator.Allocate`: deriving the ten other ids, the timestamp text and the store path from the token, which are all functions of it.
- `Lock.LockFile.Acquire`: the host name, the temp files and errors other than "exists" of a single call; the interleaving model has a failing call.
- The lock's liveness probe and clock are parameters of each step.
- `SchemaEmbedding.Dispatcher`: percent-decoding of reference fragments, the `__proto__` key and the reordering of integer-like keys by JavaScript objects.
- `Budget.Derive`: messages, and numbers that are no integers, which take the branch of integers out of range.
- `Traversals.IsStrictJsonValue`: cyclic values, which the node and depth limits end, and the detail of property descriptors behind one flag.
- `Verdicts.ComputeVerdicts`: the runner tokeniser, the assertion pattern, digests and the wording of texts are parameters (row ids are `MachineId` where that matters); reasons are values without room for command text.
- `EvidenceRanges.CompressEvidence`: the escaping of ids that no code span can hold, and the rounding of numbers from 2^53 on, are parameters.
- The band sort and the other rows of the rendered model: a stable sort by a constant.
- Compile-pack reading and replay, gates, retention, redaction patterns, catalogs, oclif commands, Markdown and HTML rendering: plumbing, data or user interface.
