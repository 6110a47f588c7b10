/**
 * The control-plane byte budget (src/compiler/control-plane-budget-v02.ts). Sums are exact; every
 * reported number must fit in 2^53 - 1.
 */
module Budget {
  import opened Permutation
  import opened Prelude

  datatype Rule = Rule(task: string, most: int)
  datatype EffectRow = EffectRow(task: string, effects: nat)

  datatype Limits = Limits(authority: int, agency: int, revocation: int, evidence: int, taskResult: int, manual: int,
                           exportDecision: int, claim: int, finding: int, waiver: int, custody: int)

  /** Collections that only their size matters for are given by their size. */
  datatype Input = Input(
    gates: nat, evaluations: nat, artifacts: nat, criteria: nat, compensations: nat, observations: nat,
    tasks: seq<string>, effects: seq<EffectRow>, rules: seq<Rule>, limits: Limits,
    loopAttempts: int, toolCalls: int, reserve: int)

  datatype Kind =
    | Initialize | Clocks | FenceAdvances | GateResults | EvaluationResults | AuthorityEvents | PolicyDecisions
    | EvidenceRecorded | ManualObservations | ExportDecisions | ClaimsFindings | ActionLifecycle | ToolAdmission
    | ArtifactWrites | LimitBlocks | EffectOutcomes | RedactionCustody | ProgressFacts | AttemptBoundaries
    | TerminalFreeze | CompensationRequests | CompensationEscalation | CompensationSettlements | TerminalSeal
    | AuthorityRecords | AgencyRecords | RevocationRecords | EvidenceRecords | TaskResultRecords | ManualRecords
    | ExportRecords | ClaimRecords | FindingRecords | WaiverRecords | GateRecords | EvaluationRecords
    | ArtifactRecords | DerivativeRecords | Manifests | Reports

  datatype Family = Family(kind: Kind, cardinality: nat, maxBytes: nat)

  datatype Outcome =
    | Invalid
    | Overflow
    | Exceeds(required: nat)
    | Derived(required: nat, nonClock: nat, clocks: nat, terminal: nat, events: seq<Family>, files: seq<Family>)

  predicate Safe(n: int) {
    0 <= n <= MAX_SAFE
  }

  // -----------------------------------------------------------------------
  // What is counted
  // -----------------------------------------------------------------------

  /** The largest maximum that a rule gives the task; 0 when there is none. */
  function Executions(rules: seq<Rule>, task: string): nat {
    if rules == [] then 0
    else
      var rest := Executions(rules[1..], task);
      if rules[0].task == task && rules[0].most > rest then rules[0].most else rest
  }

  function TotalExecutions(tasks: seq<string>, rules: seq<Rule>): nat {
    if tasks == [] then 0 else Executions(rules, tasks[0]) + TotalExecutions(tasks[1..], rules)
  }

  function Effects(rows: seq<EffectRow>, task: string): nat {
    if rows == [] then 0 else if rows[0].task == task then rows[0].effects else Effects(rows[1..], task)
  }

  function TotalOutcomes(tasks: seq<string>, rows: seq<EffectRow>, rules: seq<Rule>): nat {
    if tasks == [] then 0
    else Effects(rows, tasks[0]) * Executions(rules, tasks[0]) + TotalOutcomes(tasks[1..], rows, rules)
  }

  function A(i: Input): nat { TotalExecutions(i.tasks, i.rules) }

  function F(i: Input): nat { TotalOutcomes(i.tasks, i.effects, i.rules) }

  function EvidenceLimit(a: nat, i: Input): nat {
    8 * a + 12 * i.gates + 4 * i.evaluations + 2 * i.artifacts + 32
  }

  function ExpectedLimits(a: nat, i: Input): Limits {
    var evidence := EvidenceLimit(a, i);
    Limits(9 * a + 10 * i.gates,
           8 * (2 * a + i.compensations),
           a + 2 * i.gates,
           evidence,
           a,
           evidence,
           i.artifacts + evidence,
           i.criteria + i.gates + i.evaluations,
           4 * a + 2 * i.gates + 2 * i.evaluations + 2 * i.artifacts + 32,
           i.gates,
           2 * (i.artifacts + evidence))
  }

  predicate SafeLimits(l: Limits) {
    && Safe(l.authority) && Safe(l.agency) && Safe(l.revocation) && Safe(l.evidence) && Safe(l.taskResult)
    && Safe(l.manual)
    && Safe(l.exportDecision) && Safe(l.claim) && Safe(l.finding) && Safe(l.waiver) && Safe(l.custody)
  }

  predicate SafeCounts(i: Input) {
    && Safe(i.gates) && Safe(i.evaluations) && Safe(i.artifacts) && Safe(i.criteria) && Safe(i.compensations)
    && Safe(i.observations) && Safe(i.loopAttempts) && Safe(i.toolCalls) && Safe(i.reserve)
  }

  function TaskOf(row: EffectRow): string { row.task }

  /** Each effect row is the only one of its task. */
  predicate Single(rows: seq<EffectRow>) {
    DistinctBy(rows, TaskOf)
  }

  predicate RowsMatch(i: Input) {
    && (forall k :: 0 <= k < |i.effects| ==> i.effects[k].effects >= 1 && i.effects[k].task in i.tasks)
    && Single(i.effects)
    && (forall k :: 0 <= k < |i.tasks| ==> exists l :: 0 <= l < |i.effects| && i.effects[l].task == i.tasks[k])
  }

  predicate RulesCover(i: Input) {
    && (forall k :: 0 <= k < |i.rules| ==> 1 <= i.rules[k].most <= MAX_SAFE)
    && (forall k :: 0 <= k < |i.tasks| ==> Executions(i.rules, i.tasks[k]) > 0)
  }

  /** What the checks demand: each task has a rule and exactly one effect row, and the limits are the derived ones. */
  predicate Contract(i: Input) {
    && SafeCounts(i)
    && RulesCover(i)
    && i.limits == ExpectedLimits(A(i), i) && SafeLimits(i.limits)
    && RowsMatch(i)
  }

  // -----------------------------------------------------------------------
  // The exact figures, in closed form
  // -----------------------------------------------------------------------

  const STANDARD_LEDGER: nat := 131072
  const AUTHORITY_LEDGER: nat := 524288
  const STANDARD_RECORD: nat := 262144
  const AUTHORITY_RECORD: nat := 1048576
  const MANIFEST: nat := 4194304
  const REPORT: nat := 4194304

  /** Events that are charged at the authority rate. */
  function AuthorityRate(a: nat, i: Input): nat {
    28 * a + 13 * i.gates + 9 * i.compensations
  }

  /** All primary events but clocks. */
  function NonClock(a: nat, f: nat, i: Input): nat
    requires i.loopAttempts >= 0 && i.toolCalls >= 0
  {
    45 + 41 * a + 18 * i.gates + 5 * i.evaluations + 7 * i.artifacts + i.criteria + f + i.toolCalls
    + 5 * EvidenceLimit(a, i) + i.loopAttempts * (i.observations + 1)
    + (if i.compensations == 0 then 0 else 12 * i.compensations + 7)
  }

  /** The bytes required. */
  function Total(i: Input): nat
    requires i.loopAttempts >= 0 && i.toolCalls >= 0
  {
    var a, k := A(i), NonClock(A(i), F(i), i);
    STANDARD_LEDGER * (2 * k + 2 * a + i.gates - AuthorityRate(a, i)) + AUTHORITY_LEDGER * AuthorityRate(a, i)
    + AUTHORITY_RECORD * (26 * a + 12 * i.gates + 8 * i.compensations)
    + STANDARD_RECORD * (5 * a + 5 * i.gates + 4 * i.evaluations + 5 * i.artifacts + i.criteria + 32
                         + 4 * EvidenceLimit(a, i))
    + 2 * MANIFEST + 3 * REPORT
  }

  // -----------------------------------------------------------------------
  // Rows and their charge
  // -----------------------------------------------------------------------

  function Charge(rows: seq<Family>): nat {
    if rows == [] then 0 else rows[0].cardinality * rows[0].maxBytes + Charge(rows[1..])
  }

  function Cardinalities(rows: seq<Family>): nat {
    if rows == [] then 0 else rows[0].cardinality + Cardinalities(rows[1..])
  }

  lemma {:induction false} ChargeAppend(a: seq<Family>, b: seq<Family>)
    ensures Charge(a + b) == Charge(a) + Charge(b)
    ensures Cardinalities(a + b) == Cardinalities(a) + Cardinalities(b)
  {
    if a == [] {
      assert a + b == b;
    } else {
      assert (a + b)[1..] == a[1..] + b;
      ChargeAppend(a[1..], b);
    }
  }

  lemma ChargeOne(f: Family)
    ensures Charge([f]) == f.cardinality * f.maxBytes && Cardinalities([f]) == f.cardinality
  {}

  lemma ChargeFour(f: Family, g: Family, h: Family, k: Family)
    ensures Charge([f, g, h, k]) == f.cardinality * f.maxBytes + g.cardinality * g.maxBytes
            + h.cardinality * h.maxBytes + k.cardinality * k.maxBytes
    ensures Cardinalities([f, g, h, k]) == f.cardinality + g.cardinality + h.cardinality + k.cardinality
  {
    assert [f, g, h, k] == [f] + ([g] + ([h] + [k]));
    ChargeAppend([f], [g] + ([h] + [k]));
    ChargeAppend([g], [h] + [k]);
    ChargeAppend([h], [k]);
  }

  /** A row charged at least a byte apiece is bounded by the charge of all. */
  lemma {:induction false} RowWithinCharge(rows: seq<Family>, n: nat)
    requires n < |rows| && forall k :: 0 <= k < |rows| ==> rows[k].maxBytes >= 1
    ensures rows[n].cardinality <= Charge(rows)
  {
    if n > 0 {
      RowWithinCharge(rows[1..], n - 1);
    }
    AtLeastOneEach(rows[0].cardinality, rows[0].maxBytes);
  }

  lemma AtLeastOneEach(count: nat, each: nat)
    requires each >= 1
    ensures count * each >= count
  {}

  /** Lines 168 to 189, every event family but the first and the clocks, in five groups of four and two more. */
  function FenceRows(a: nat, i: Input): seq<Family> {
    [ Family(FenceAdvances, a + 3, STANDARD_LEDGER),
      Family(GateResults, 2 * i.gates, STANDARD_LEDGER),
      Family(EvaluationResults, 2 * i.evaluations, STANDARD_LEDGER),
      Family(AuthorityEvents, 26 * a + 13 * i.gates + 8 * i.compensations, AUTHORITY_LEDGER) ]
  }

  function DecisionRows(a: nat, i: Input): seq<Family> {
    [ Family(PolicyDecisions, 2 * a + i.compensations, AUTHORITY_LEDGER),
      Family(EvidenceRecorded, ExpectedLimits(a, i).evidence, STANDARD_LEDGER),
      Family(ManualObservations, ExpectedLimits(a, i).manual, STANDARD_LEDGER),
      Family(ExportDecisions, ExpectedLimits(a, i).exportDecision, STANDARD_LEDGER) ]
  }

  function ActionRows(a: nat, i: Input): seq<Family>
    requires i.toolCalls >= 0
  {
    [ Family(ClaimsFindings, ExpectedLimits(a, i).claim + ExpectedLimits(a, i).finding, STANDARD_LEDGER),
      Family(ActionLifecycle, 7 * a, STANDARD_LEDGER),
      Family(ToolAdmission, i.toolCalls, STANDARD_LEDGER),
      Family(ArtifactWrites, 2 * i.artifacts, STANDARD_LEDGER) ]
  }

  function OutcomeRows(a: nat, f: nat, i: Input): seq<Family> {
    [ Family(LimitBlocks, i.compensations + 1, STANDARD_LEDGER),
      Family(EffectOutcomes, f, STANDARD_LEDGER),
      Family(RedactionCustody, ExpectedLimits(a, i).custody, STANDARD_LEDGER),
      Family(ProgressFacts, a, STANDARD_LEDGER) ]
  }

  function EndingRows(i: Input): seq<Family>
    requires i.loopAttempts >= 0
  {
    [ Family(AttemptBoundaries, i.loopAttempts * (i.observations + 1), STANDARD_LEDGER),
      Family(TerminalFreeze, 7, STANDARD_LEDGER),
      Family(CompensationRequests, if i.compensations == 0 then 0 else i.compensations + 3, STANDARD_LEDGER),
      Family(CompensationEscalation, if i.compensations == 0 then 0 else 4, STANDARD_LEDGER) ]
  }

  function LaterRows(a: nat, f: nat, i: Input): seq<Family>
    requires i.loopAttempts >= 0 && i.toolCalls >= 0
  {
    FenceRows(a, i) + DecisionRows(a, i) + ActionRows(a, i) + OutcomeRows(a, f, i) + EndingRows(i)
    + [ Family(CompensationSettlements, i.compensations, STANDARD_LEDGER) ]
    + [ Family(TerminalSeal, 1, STANDARD_LEDGER) ]
  }

  /** The control files of authority records and their windows, lines 194 to 211. */
  function AuthorityFileRows(a: nat, i: Input): seq<Family> {
    [ Family(AuthorityRecords, ExpectedLimits(a, i).authority, AUTHORITY_RECORD),
      Family(AgencyRecords, ExpectedLimits(a, i).agency, AUTHORITY_RECORD),
      Family(RevocationRecords, ExpectedLimits(a, i).revocation, AUTHORITY_RECORD),
      Family(EvidenceRecords, ExpectedLimits(a, i).evidence, STANDARD_RECORD) ]
  }

  function ResultFileRows(a: nat, i: Input): seq<Family> {
    [ Family(TaskResultRecords, ExpectedLimits(a, i).taskResult, STANDARD_RECORD),
      Family(ManualRecords, ExpectedLimits(a, i).manual, STANDARD_RECORD),
      Family(ExportRecords, ExpectedLimits(a, i).exportDecision, STANDARD_RECORD),
      Family(ClaimRecords, ExpectedLimits(a, i).claim, STANDARD_RECORD) ]
  }

  function FindingFileRows(a: nat, i: Input): seq<Family> {
    [ Family(FindingRecords, ExpectedLimits(a, i).finding, STANDARD_RECORD),
      Family(WaiverRecords, ExpectedLimits(a, i).waiver, STANDARD_RECORD),
      Family(GateRecords, i.gates, STANDARD_RECORD),
      Family(EvaluationRecords, i.evaluations, STANDARD_RECORD) ]
  }

  function ClosingFileRows(a: nat, i: Input): seq<Family> {
    [ Family(ArtifactRecords, i.artifacts, STANDARD_RECORD),
      Family(DerivativeRecords, ExpectedLimits(a, i).custody / 2, STANDARD_RECORD),
      Family(Manifests, 2, MANIFEST),
      Family(Reports, 3, REPORT) ]
  }

  function FileRows(a: nat, i: Input): seq<Family> {
    AuthorityFileRows(a, i) + ResultFileRows(a, i) + FindingFileRows(a, i) + ClosingFileRows(a, i)
  }

  lemma FenceRowsSum(a: nat, i: Input)
    ensures Cardinalities(FenceRows(a, i)) == 3 + 27 * a + 15 * i.gates + 2 * i.evaluations + 8 * i.compensations
    ensures Charge(FenceRows(a, i)) == STANDARD_LEDGER * (a + 3 + 2 * i.gates + 2 * i.evaluations)
                                     + AUTHORITY_LEDGER * (26 * a + 13 * i.gates + 8 * i.compensations)
  {
    var r := FenceRows(a, i);
    ChargeFour(r[0], r[1], r[2], r[3]);
  }

  lemma DecisionRowsSum(a: nat, i: Input)
    ensures Cardinalities(DecisionRows(a, i)) == 2 * a + i.compensations + 3 * EvidenceLimit(a, i) + i.artifacts
    ensures Charge(DecisionRows(a, i)) == STANDARD_LEDGER * (3 * EvidenceLimit(a, i) + i.artifacts)
                                        + AUTHORITY_LEDGER * (2 * a + i.compensations)
  {
    var r := DecisionRows(a, i);
    ChargeFour(r[0], r[1], r[2], r[3]);
  }

  lemma ActionRowsSum(a: nat, i: Input)
    requires i.toolCalls >= 0
    ensures Cardinalities(ActionRows(a, i)) ==
            i.criteria + 3 * i.gates + 3 * i.evaluations + 11 * a + 4 * i.artifacts + 32 + i.toolCalls
    ensures Charge(ActionRows(a, i)) == STANDARD_LEDGER * Cardinalities(ActionRows(a, i))
  {
    var r := ActionRows(a, i);
    ChargeFour(r[0], r[1], r[2], r[3]);
  }

  lemma OutcomeRowsSum(a: nat, f: nat, i: Input)
    ensures Cardinalities(OutcomeRows(a, f, i)) == i.compensations + 1 + f + 2 * (i.artifacts + EvidenceLimit(a, i)) + a
    ensures Charge(OutcomeRows(a, f, i)) == STANDARD_LEDGER * Cardinalities(OutcomeRows(a, f, i))
  {
    var r := OutcomeRows(a, f, i);
    ChargeFour(r[0], r[1], r[2], r[3]);
  }

  lemma EndingRowsSum(i: Input)
    requires i.loopAttempts >= 0
    ensures Cardinalities(EndingRows(i)) ==
            i.loopAttempts * (i.observations + 1) + 7 + if i.compensations == 0 then 0 else i.compensations + 7
    ensures Charge(EndingRows(i)) == STANDARD_LEDGER * Cardinalities(EndingRows(i))
  {
    var r := EndingRows(i);
    ChargeFour(r[0], r[1], r[2], r[3]);
  }

  /** The two sums of a list of rows. */
  predicate Sums(rows: seq<Family>, cardinalities: int, charge: int) {
    Cardinalities(rows) == cardinalities && Charge(rows) == charge
  }

  lemma SumsAppend(a: seq<Family>, n: int, c: int, b: seq<Family>, m: int, d: int)
    requires Sums(a, n, c) && Sums(b, m, d)
    ensures Sums(a + b, n + m, c + d)
  {
    ChargeAppend(a, b);
  }

  lemma LastRowsSum(i: Input)
    ensures Sums([Family(CompensationSettlements, i.compensations, STANDARD_LEDGER)], i.compensations,
                 STANDARD_LEDGER * i.compensations)
    ensures Sums([Family(TerminalSeal, 1, STANDARD_LEDGER)], 1, STANDARD_LEDGER)
  {}

  lemma FirstRowsSum(a: nat, i: Input)
    ensures Sums(FenceRows(a, i) + DecisionRows(a, i),
                 AuthorityRate(a, i) + a + 3 + 2 * i.gates + 2 * i.evaluations + 3 * EvidenceLimit(a, i) + i.artifacts,
                 AUTHORITY_LEDGER * AuthorityRate(a, i)
                 + STANDARD_LEDGER * (a + 3 + 2 * i.gates + 2 * i.evaluations + 3 * EvidenceLimit(a, i) + i.artifacts))
  {
    FenceRowsSum(a, i);
    DecisionRowsSum(a, i);
    ChargeAppend(FenceRows(a, i), DecisionRows(a, i));
  }

  lemma LaterRowsSum(a: nat, f: nat, i: Input)
    requires i.loopAttempts >= 0 && i.toolCalls >= 0
    ensures Sums(LaterRows(a, f, i), NonClock(a, f, i) - 1,
                 AUTHORITY_LEDGER * AuthorityRate(a, i)
                   + STANDARD_LEDGER * (NonClock(a, f, i) - 1 - AuthorityRate(a, i)))
  {
    var n := a + 3 + 2 * i.gates + 2 * i.evaluations + 3 * EvidenceLimit(a, i) + i.artifacts;
    var n3 := i.criteria + 3 * i.gates + 3 * i.evaluations + 11 * a + 4 * i.artifacts + 32 + i.toolCalls;
    var n4 := i.compensations + 1 + f + 2 * (i.artifacts + EvidenceLimit(a, i)) + a;
    var n5 := i.loopAttempts * (i.observations + 1) + 7 + if i.compensations == 0 then 0 else i.compensations + 7;
    var u := AuthorityRate(a, i);
    var rest := n3 + n4 + n5 + i.compensations + 1;
    FirstRowsSum(a, i);
    SumsOfRest(a, f, i, FenceRows(a, i) + DecisionRows(a, i), u + n, AUTHORITY_LEDGER * u + STANDARD_LEDGER * n, n3,
               n4, n5);
    RestAddsUp(a, f, i, n, rest);
    assert AUTHORITY_LEDGER * u + STANDARD_LEDGER * n + STANDARD_LEDGER * rest == AUTHORITY_LEDGER * u
           + STANDARD_LEDGER * (n + rest);
  }

  lemma RestAddsUp(a: nat, f: nat, i: Input, n: int, rest: int)
    requires i.loopAttempts >= 0 && i.toolCalls >= 0
    requires n == a + 3 + 2 * i.gates + 2 * i.evaluations + 3 * EvidenceLimit(a, i) + i.artifacts
    requires rest == (i.criteria + 3 * i.gates + 3 * i.evaluations + 11 * a + 4 * i.artifacts + 32 + i.toolCalls)
                     + (i.compensations + 1 + f + 2 * (i.artifacts + EvidenceLimit(a, i)) + a)
                     + (i.loopAttempts * (i.observations + 1) + 7 + if i.compensations == 0 then 0
                        else i.compensations + 7)
                     + i.compensations + 1
    ensures AuthorityRate(a, i) + n + rest == NonClock(a, f, i) - 1
  {}

  lemma SumsOfRest(a: nat, f: nat, i: Input, rows: seq<Family>, n: int, charge: int, n3: int, n4: int, n5: int)
    requires i.loopAttempts >= 0 && i.toolCalls >= 0 && Sums(rows, n, charge)
    requires n3 == i.criteria + 3 * i.gates + 3 * i.evaluations + 11 * a + 4 * i.artifacts + 32 + i.toolCalls
    requires n4 == i.compensations + 1 + f + 2 * (i.artifacts + EvidenceLimit(a, i)) + a
    requires n5 == i.loopAttempts * (i.observations + 1) + 7 + if i.compensations == 0 then 0 else i.compensations + 7
    ensures Sums(rows + ActionRows(a, i) + OutcomeRows(a, f, i) + EndingRows(i)
                 + [Family(CompensationSettlements, i.compensations, STANDARD_LEDGER)]
                 + [Family(TerminalSeal, 1, STANDARD_LEDGER)],
                 n + n3 + n4 + n5 + i.compensations + 1,
                   charge + STANDARD_LEDGER * (n3 + n4 + n5 + i.compensations + 1))
  {
    var x, y := Family(CompensationSettlements, i.compensations, STANDARD_LEDGER),
      Family(TerminalSeal, 1, STANDARD_LEDGER);
    ActionRowsSum(a, i);
    OutcomeRowsSum(a, f, i);
    EndingRowsSum(i);
    LastRowsSum(i);
    var r3, r4, r5 := ActionRows(a, i), OutcomeRows(a, f, i), EndingRows(i);
    SumsAppend(rows, n, charge, r3, n3, STANDARD_LEDGER * n3);
    SumsAppend(rows + r3, n + n3, charge + STANDARD_LEDGER * n3, r4, n4, STANDARD_LEDGER * n4);
    SumsAppend(rows + r3 + r4, n + n3 + n4, charge + STANDARD_LEDGER * (n3 + n4), r5, n5, STANDARD_LEDGER * n5);
    SumsAppend(rows + r3 + r4 + r5, n + n3 + n4 + n5, charge + STANDARD_LEDGER * (n3 + n4 + n5),
               [x], i.compensations, STANDARD_LEDGER * i.compensations);
    SumsAppend(rows + r3 + r4 + r5 + [x], n + n3 + n4 + n5 + i.compensations,
               charge + STANDARD_LEDGER * (n3 + n4 + n5 + i.compensations), [y], 1, STANDARD_LEDGER);
  }

  lemma FileRowSums(a: nat, i: Input)
    ensures Charge(AuthorityFileRows(a, i)) ==
            AUTHORITY_RECORD * (26 * a + 12 * i.gates + 8 * i.compensations) + STANDARD_RECORD * EvidenceLimit(a, i)
    ensures Charge(ResultFileRows(a, i)) ==
            STANDARD_RECORD * (a + 2 * EvidenceLimit(a, i) + i.artifacts + i.criteria + i.gates + i.evaluations)
  {
    var p, q := AuthorityFileRows(a, i), ResultFileRows(a, i);
    ChargeFour(p[0], p[1], p[2], p[3]);
    ChargeFour(q[0], q[1], q[2], q[3]);
  }

  lemma MoreFileRowSums(a: nat, i: Input)
    ensures Charge(FindingFileRows(a, i)) ==
            STANDARD_RECORD * (4 * a + 4 * i.gates + 3 * i.evaluations + 2 * i.artifacts + 32)
    ensures Charge(ClosingFileRows(a, i)) == STANDARD_RECORD * (2 * i.artifacts + EvidenceLimit(a, i))
            + 2 * MANIFEST + 3 * REPORT
  {
    var r, s := FindingFileRows(a, i), ClosingFileRows(a, i);
    ChargeFour(r[0], r[1], r[2], r[3]);
    ChargeFour(s[0], s[1], s[2], s[3]);
  }

  lemma FileRowsSum(a: nat, i: Input)
    ensures Charge(FileRows(a, i)) ==
      AUTHORITY_RECORD * (26 * a + 12 * i.gates + 8 * i.compensations)
      + STANDARD_RECORD * (5 * a + 5 * i.gates + 4 * i.evaluations + 5 * i.artifacts + i.criteria + 32
                           + 4 * EvidenceLimit(a, i))
      + 2 * MANIFEST + 3 * REPORT
  {
    var p, q, r, s := AuthorityFileRows(a, i), ResultFileRows(a, i), FindingFileRows(a, i), ClosingFileRows(a, i);
    ChargeAppend(p, q);
    ChargeAppend(p + q, r);
    ChargeAppend(p + q + r, s);
    FileRowSums(a, i);
    MoreFileRowSums(a, i);
  }

  function RawRows(a: nat, f: nat, i: Input): seq<Family>
    requires i.loopAttempts >= 0 && i.toolCalls >= 0
  {
    [Family(Initialize, 1, STANDARD_LEDGER)] + LaterRows(a, f, i)
  }

  /** Line 193: the clocks come second. */
  function EventRows(a: nat, f: nat, i: Input): seq<Family>
    requires i.loopAttempts >= 0 && i.toolCalls >= 0
  {
    [Family(Initialize, 1, STANDARD_LEDGER)]
      + [Family(Clocks, 2 * a + i.gates + NonClock(a, f, i), STANDARD_LEDGER)] + LaterRows(a, f, i)
  }

  // -----------------------------------------------------------------------
  // Each family by itself
  // -----------------------------------------------------------------------

  /**
   * The most that each family can count, by the plan alone: executions, effects, gates, evaluations, artifacts,
   * criteria, compensations, observations, attempts and tool calls.
   */
  function Ceiling(kind: Kind, a: nat, f: nat, i: Input): int {
    var g, e, r, c := i.gates, i.evaluations, i.artifacts, i.compensations;
    match kind
    case Initialize => 1
    case Clocks => 2 * a + g + NonClockOf(a, f, i)
    case FenceAdvances => a + 3
    case GateResults => 2 * g
    case EvaluationResults => 2 * e
    case AuthorityEvents => 26 * a + 13 * g + 8 * c
    case PolicyDecisions => 2 * a + c
    case EvidenceRecorded => 8 * a + 12 * g + 4 * e + 2 * r + 32
    case ManualObservations => 8 * a + 12 * g + 4 * e + 2 * r + 32
    case ExportDecisions => 8 * a + 12 * g + 4 * e + 3 * r + 32
    case ClaimsFindings => 4 * a + 3 * g + 3 * e + 2 * r + i.criteria + 32
    case ActionLifecycle => 7 * a
    case ToolAdmission => i.toolCalls
    case ArtifactWrites => 2 * r
    case LimitBlocks => c + 1
    case EffectOutcomes => f
    case RedactionCustody => 16 * a + 24 * g + 8 * e + 6 * r + 64
    case ProgressFacts => a
    case AttemptBoundaries => i.loopAttempts * (i.observations + 1)
    case TerminalFreeze => 7
    case CompensationRequests => if c == 0 then 0 else c + 3
    case CompensationEscalation => if c == 0 then 0 else 4
    case CompensationSettlements => c
    case TerminalSeal => 1
    case AuthorityRecords => 9 * a + 10 * g
    case AgencyRecords => 16 * a + 8 * c
    case RevocationRecords => a + 2 * g
    case EvidenceRecords => 8 * a + 12 * g + 4 * e + 2 * r + 32
    case TaskResultRecords => a
    case ManualRecords => 8 * a + 12 * g + 4 * e + 2 * r + 32
    case ExportRecords => 8 * a + 12 * g + 4 * e + 3 * r + 32
    case ClaimRecords => i.criteria + g + e
    case FindingRecords => 4 * a + 2 * g + 2 * e + 2 * r + 32
    case WaiverRecords => g
    case GateRecords => g
    case EvaluationRecords => e
    case ArtifactRecords => r
    case DerivativeRecords => 8 * a + 12 * g + 4 * e + 3 * r + 32
    case Manifests => 2
    case Reports => 3
  }

  /** `NonClock`, for any limits. */
  function NonClockOf(a: nat, f: nat, i: Input): int {
    if i.loopAttempts >= 0 && i.toolCalls >= 0 then NonClock(a, f, i) else 0
  }

  function Rate(kind: Kind): nat {
    match kind
    case AuthorityEvents | PolicyDecisions => AUTHORITY_LEDGER
    case AuthorityRecords | AgencyRecords | RevocationRecords => AUTHORITY_RECORD
    case EvidenceRecords | TaskResultRecords | ManualRecords | ExportRecords | ClaimRecords => STANDARD_RECORD
    case FindingRecords | WaiverRecords | GateRecords | EvaluationRecords => STANDARD_RECORD
    case ArtifactRecords | DerivativeRecords => STANDARD_RECORD
    case Manifests => MANIFEST
    case Reports => REPORT
    case _ => STANDARD_LEDGER
  }

  const FENCE_KINDS: seq<Kind> := [FenceAdvances, GateResults, EvaluationResults, AuthorityEvents]
  const DECISION_KINDS: seq<Kind> := [PolicyDecisions, EvidenceRecorded, ManualObservations, ExportDecisions]
  const ACTION_KINDS: seq<Kind> := [ClaimsFindings, ActionLifecycle, ToolAdmission, ArtifactWrites]
  const OUTCOME_KINDS: seq<Kind> := [LimitBlocks, EffectOutcomes, RedactionCustody, ProgressFacts]
  const ENDING_KINDS: seq<Kind> := [AttemptBoundaries, TerminalFreeze, CompensationRequests, CompensationEscalation]

  function EventKinds(): seq<Kind> {
    [Initialize] + [Clocks]
      + (FENCE_KINDS + DECISION_KINDS + ACTION_KINDS + OUTCOME_KINDS + ENDING_KINDS + [CompensationSettlements]
         + [TerminalSeal])
  }

  const AUTHORITY_FILE_KINDS: seq<Kind> := [AuthorityRecords, AgencyRecords, RevocationRecords, EvidenceRecords]
  const RESULT_FILE_KINDS: seq<Kind> := [TaskResultRecords, ManualRecords, ExportRecords, ClaimRecords]
  const FINDING_FILE_KINDS: seq<Kind> := [FindingRecords, WaiverRecords, GateRecords, EvaluationRecords]
  const CLOSING_FILE_KINDS: seq<Kind> := [ArtifactRecords, DerivativeRecords, Manifests, Reports]

  function FileKinds(): seq<Kind> {
    AUTHORITY_FILE_KINDS + RESULT_FILE_KINDS + FINDING_FILE_KINDS + CLOSING_FILE_KINDS
  }

  /** One row for each of the kinds, in order, with its own ceiling at its own rate. */
  ghost predicate RowsOf(rows: seq<Family>, kinds: seq<Kind>, a: nat, f: nat, i: Input) {
    |rows| == |kinds| && forall k :: 0 <= k < |kinds| ==> RowOf(rows[k], kinds[k], a, f, i)
  }

  ghost predicate RowOf(row: Family, kind: Kind, a: nat, f: nat, i: Input) {
    row.kind == kind && row.cardinality == Ceiling(kind, a, f, i) && row.maxBytes == Rate(kind)
  }

  lemma RowsOfBoth(r: seq<Family>, kinds: seq<Kind>, s: seq<Family>, more: seq<Kind>, a: nat, f: nat, i: Input)
    requires RowsOf(r, kinds, a, f, i) && RowsOf(s, more, a, f, i)
    ensures RowsOf(r + s, kinds + more, a, f, i)
  {}

  lemma OneRow(row: Family, kind: Kind, a: nat, f: nat, i: Input)
    requires RowOf(row, kind, a, f, i)
    ensures RowsOf([row], [kind], a, f, i)
  {}

  lemma FourRows(rows: seq<Family>, kinds: seq<Kind>, a: nat, f: nat, i: Input)
    requires |rows| == |kinds| == 4
    requires RowOf(rows[0], kinds[0], a, f, i) && RowOf(rows[1], kinds[1], a, f, i)
    requires RowOf(rows[2], kinds[2], a, f, i) && RowOf(rows[3], kinds[3], a, f, i)
    ensures RowsOf(rows, kinds, a, f, i)
  {}

  lemma FenceFamilies(a: nat, f: nat, i: Input)
    ensures RowsOf(FenceRows(a, i), FENCE_KINDS, a, f, i)
  {
    FourRows(FenceRows(a, i), FENCE_KINDS, a, f, i);
  }

  lemma DecisionFamilies(a: nat, f: nat, i: Input)
    ensures RowsOf(DecisionRows(a, i), DECISION_KINDS, a, f, i)
  {
    FourRows(DecisionRows(a, i), DECISION_KINDS, a, f, i);
  }

  lemma ActionFamilies(a: nat, f: nat, i: Input)
    requires i.toolCalls >= 0
    ensures RowsOf(ActionRows(a, i), ACTION_KINDS, a, f, i)
  {
    FourRows(ActionRows(a, i), ACTION_KINDS, a, f, i);
  }

  lemma OutcomeFamilies(a: nat, f: nat, i: Input)
    ensures RowsOf(OutcomeRows(a, f, i), OUTCOME_KINDS, a, f, i)
  {
    FourRows(OutcomeRows(a, f, i), OUTCOME_KINDS, a, f, i);
  }

  lemma EndingFamilies(a: nat, f: nat, i: Input)
    requires i.loopAttempts >= 0
    ensures RowsOf(EndingRows(i), ENDING_KINDS, a, f, i)
  {
    FourRows(EndingRows(i), ENDING_KINDS, a, f, i);
  }

  lemma LaterFamilies(a: nat, f: nat, i: Input)
    requires i.loopAttempts >= 0 && i.toolCalls >= 0
    ensures RowsOf(LaterRows(a, f, i), FENCE_KINDS + DECISION_KINDS + ACTION_KINDS + OUTCOME_KINDS + ENDING_KINDS
                                       + [CompensationSettlements] + [TerminalSeal], a, f, i)
  {
    var x, y := Family(CompensationSettlements, i.compensations, STANDARD_LEDGER),
      Family(TerminalSeal, 1, STANDARD_LEDGER);
    FenceFamilies(a, f, i);
    DecisionFamilies(a, f, i);
    ActionFamilies(a, f, i);
    OutcomeFamilies(a, f, i);
    EndingFamilies(a, f, i);
    OneRow(x, CompensationSettlements, a, f, i);
    OneRow(y, TerminalSeal, a, f, i);
    SevenGroups(FenceRows(a, i), FENCE_KINDS, DecisionRows(a, i), DECISION_KINDS, ActionRows(a, i), ACTION_KINDS,
                OutcomeRows(a, f, i), OUTCOME_KINDS, EndingRows(i), ENDING_KINDS, [x], [CompensationSettlements],
                [y], [TerminalSeal], a, f, i);
  }

  lemma SevenGroups(r1: seq<Family>, k1: seq<Kind>, r2: seq<Family>, k2: seq<Kind>, r3: seq<Family>, k3: seq<Kind>,
                    r4: seq<Family>, k4: seq<Kind>, r5: seq<Family>, k5: seq<Kind>, r6: seq<Family>, k6: seq<Kind>,
                    r7: seq<Family>, k7: seq<Kind>, a: nat, f: nat, i: Input)
    requires RowsOf(r1, k1, a, f, i) && RowsOf(r2, k2, a, f, i) && RowsOf(r3, k3, a, f, i)
    requires RowsOf(r4, k4, a, f, i) && RowsOf(r5, k5, a, f, i) && RowsOf(r6, k6, a, f, i) && RowsOf(r7, k7, a, f, i)
    ensures RowsOf(r1 + r2 + r3 + r4 + r5 + r6 + r7, k1 + k2 + k3 + k4 + k5 + k6 + k7, a, f, i)
  {
    RowsOfBoth(r1, k1, r2, k2, a, f, i);
    RowsOfBoth(r1 + r2, k1 + k2, r3, k3, a, f, i);
    RowsOfBoth(r1 + r2 + r3, k1 + k2 + k3, r4, k4, a, f, i);
    RowsOfBoth(r1 + r2 + r3 + r4, k1 + k2 + k3 + k4, r5, k5, a, f, i);
    RowsOfBoth(r1 + r2 + r3 + r4 + r5, k1 + k2 + k3 + k4 + k5, r6, k6, a, f, i);
    RowsOfBoth(r1 + r2 + r3 + r4 + r5 + r6, k1 + k2 + k3 + k4 + k5 + k6, r7, k7, a, f, i);
  }

  /** Every event family has a row of its own, with its own count and rate. */
  lemma EventFamilies(a: nat, f: nat, i: Input)
    requires i.loopAttempts >= 0 && i.toolCalls >= 0
    ensures RowsOf(EventRows(a, f, i), EventKinds(), a, f, i)
  {
    var x, y := Family(Initialize, 1, STANDARD_LEDGER),
      Family(Clocks, 2 * a + i.gates + NonClock(a, f, i), STANDARD_LEDGER);
    OneRow(x, Initialize, a, f, i);
    OneRow(y, Clocks, a, f, i);
    LaterFamilies(a, f, i);
    RowsOfBoth([x], [Initialize], [y], [Clocks], a, f, i);
    RowsOfBoth([x] + [y], [Initialize] + [Clocks], LaterRows(a, f, i),
               FENCE_KINDS + DECISION_KINDS + ACTION_KINDS + OUTCOME_KINDS + ENDING_KINDS + [CompensationSettlements]
               + [TerminalSeal], a, f, i);
  }

  lemma AuthorityFileFamilies(a: nat, f: nat, i: Input)
    ensures RowsOf(AuthorityFileRows(a, i), AUTHORITY_FILE_KINDS, a, f, i)
    ensures RowsOf(ResultFileRows(a, i), RESULT_FILE_KINDS, a, f, i)
  {
    FourRows(AuthorityFileRows(a, i), AUTHORITY_FILE_KINDS, a, f, i);
    FourRows(ResultFileRows(a, i), RESULT_FILE_KINDS, a, f, i);
  }

  lemma ClosingFileFamilies(a: nat, f: nat, i: Input)
    ensures RowsOf(FindingFileRows(a, i), FINDING_FILE_KINDS, a, f, i)
    ensures RowsOf(ClosingFileRows(a, i), CLOSING_FILE_KINDS, a, f, i)
  {
    FourRows(FindingFileRows(a, i), FINDING_FILE_KINDS, a, f, i);
    FourRows(ClosingFileRows(a, i), CLOSING_FILE_KINDS, a, f, i);
  }

  /** And so has every family of control files. */
  lemma FileFamilies(a: nat, f: nat, i: Input)
    ensures RowsOf(FileRows(a, i), FileKinds(), a, f, i)
  {
    var p, q, r, s := AuthorityFileRows(a, i), ResultFileRows(a, i), FindingFileRows(a, i), ClosingFileRows(a, i);
    AuthorityFileFamilies(a, f, i);
    ClosingFileFamilies(a, f, i);
    RowsOfBoth(p, AUTHORITY_FILE_KINDS, q, RESULT_FILE_KINDS, a, f, i);
    RowsOfBoth(p + q, AUTHORITY_FILE_KINDS + RESULT_FILE_KINDS, r, FINDING_FILE_KINDS, a, f, i);
    RowsOfBoth(p + q + r, AUTHORITY_FILE_KINDS + RESULT_FILE_KINDS + FINDING_FILE_KINDS, s, CLOSING_FILE_KINDS,
               a, f, i);
  }

  lemma RawRowsSum(a: nat, f: nat, i: Input)
    requires i.loopAttempts >= 0 && i.toolCalls >= 0
    ensures Cardinalities(RawRows(a, f, i)) == NonClock(a, f, i)
  {
    LaterRowsSum(a, f, i);
    ChargeAppend([Family(Initialize, 1, STANDARD_LEDGER)], LaterRows(a, f, i));
    ChargeOne(Family(Initialize, 1, STANDARD_LEDGER));
  }

  /** The event families count every primary event and every clock: 2K + 2A + G. */
  lemma EventRowsSum(a: nat, f: nat, i: Input)
    requires i.loopAttempts >= 0 && i.toolCalls >= 0
    ensures Cardinalities(EventRows(a, f, i)) == 2 * NonClock(a, f, i) + 2 * a + i.gates
    ensures Charge(EventRows(a, f, i)) == AUTHORITY_LEDGER * AuthorityRate(a, i)
              + STANDARD_LEDGER * (2 * NonClock(a, f, i) + 2 * a + i.gates - AuthorityRate(a, i))
  {
    var x, y := Family(Initialize, 1, STANDARD_LEDGER),
      Family(Clocks, 2 * a + i.gates + NonClock(a, f, i), STANDARD_LEDGER);
    LaterRowsSum(a, f, i);
    ChargeAppend([x] + [y], LaterRows(a, f, i));
    ChargeAppend([x], [y]);
    ChargeOne(x);
    ChargeOne(y);
  }

  lemma RowsAreCharged(a: nat, f: nat, i: Input)
    requires i.loopAttempts >= 0 && i.toolCalls >= 0
    ensures forall k :: 0 <= k < |EventRows(a, f, i)| ==> EventRows(a, f, i)[k].maxBytes >= 1
    ensures forall k :: 0 <= k < |FileRows(a, i)| ==> FileRows(a, i)[k].maxBytes >= 1
  {}

  predicate AllSafe(rows: seq<Family>) {
    forall k :: 0 <= k < |rows| ==> Safe(rows[k].cardinality)
  }

  /** A row too large to report makes the total too large: no row overflows on its own. */
  lemma RowsOverflowTogether(rows: seq<Family>)
    requires forall k :: 0 <= k < |rows| ==> rows[k].maxBytes >= 1
    ensures Charge(rows) <= MAX_SAFE ==> AllSafe(rows)
  {
    forall k | 0 <= k < |rows|
      ensures rows[k].cardinality <= Charge(rows)
    {
      RowWithinCharge(rows, k);
    }
  }

  lemma TotalIsCharge(i: Input)
    requires i.loopAttempts >= 0 && i.toolCalls >= 0
    ensures Charge(EventRows(A(i), F(i), i)) + Charge(FileRows(A(i), i)) == Total(i)
    ensures NonClock(A(i), F(i), i) <= Total(i) && 2 * A(i) + i.gates + NonClock(A(i), F(i), i) <= Total(i)
    ensures 15 + 2 * i.compensations <= Total(i)
  {
    EventRowsSum(A(i), F(i), i);
    FileRowsSum(A(i), i);
  }

  predicate Settles(i: Input, o: Outcome)
    requires i.loopAttempts >= 0 && i.toolCalls >= 0
  {
    var total, a, k := Total(i), A(i), NonClock(A(i), F(i), i);
    && (o.Derived? <==> total <= i.reserve)
    && (o.Exceeds? <==> i.reserve < total <= MAX_SAFE)
    && (o.Overflow? <==> total > MAX_SAFE)
    && (o.Exceeds? ==> o.required == total)
    && (o.Derived? ==>
          && o.required == total && o.nonClock == k && o.clocks == 2 * a + i.gates + k
          && o.terminal == (if i.compensations == 0 then 8 else 15 + 2 * i.compensations)
          && o.events == EventRows(a, F(i), i) && o.files == FileRows(a, i)
          && Cardinalities(o.events) == 2 * k + 2 * a + i.gates
          && Charge(o.events) + Charge(o.files) == total)
  }

  /** A derived budget lists each family once, in order, with its own ceiling and rate. */
  lemma DerivedFamilies(i: Input, o: Outcome)
    requires i.loopAttempts >= 0 && i.toolCalls >= 0 && Settles(i, o) && o.Derived?
    ensures RowsOf(o.events, EventKinds(), A(i), F(i), i) && RowsOf(o.files, FileKinds(), A(i), F(i), i)
  {
    EventFamilies(A(i), F(i), i);
    FileFamilies(A(i), F(i), i);
  }

  // -----------------------------------------------------------------------
  // The loops
  // -----------------------------------------------------------------------

  function Known(retry: map<string, nat>, task: string): nat {
    if task in retry then retry[task] else 0
  }

  function Larger(a: nat, b: nat): nat {
    if a > b then a else b
  }

  /** The largest maximum of each task, refused when out of range: lines 126 to 132. */
  method RetryByTask(rules: seq<Rule>) returns (ok: bool, retry: map<string, nat>)
    ensures ok <==> forall k :: 0 <= k < |rules| ==> 1 <= rules[k].most <= MAX_SAFE
    ensures ok ==> forall t :: t in retry <==> Executions(rules, t) > 0
    ensures ok ==> forall t :: t in retry ==> retry[t] == Executions(rules, t)
  {
    retry := map[];
    var k := 0;
    while k < |rules|
      invariant 0 <= k <= |rules|
      invariant forall l :: 0 <= l < k ==> 1 <= rules[l].most <= MAX_SAFE
      invariant forall t :: t in retry ==> retry[t] > 0
      invariant forall t :: Larger(Known(retry, t), Executions(rules[k..], t)) == Executions(rules, t)
    {
      var rule := rules[k];
      if !(Safe(rule.most) && rule.most >= 1) {
        return false, retry;
      }
      ghost var was := retry;
      if rule.most > Known(retry, rule.task) {
        retry := retry[rule.task := rule.most];
      }
      forall t
        ensures Larger(Known(retry, t), Executions(rules[k + 1..], t)) == Executions(rules, t)
      {
        assert rules[k..][1..] == rules[k + 1..];
        assert Larger(Known(was, t), Executions(rules[k..], t)) == Executions(rules, t);
      }
      k := k + 1;
    }
    ok := true;
    forall t
      ensures Known(retry, t) == Executions(rules, t)
    {
      assert Larger(Known(retry, t), Executions(rules[k..], t)) == Executions(rules, t);
    }
  }

  /** The executions of all tasks, each of which must have a rule: lines 133 to 138. */
  method SumExecutions(tasks: seq<string>, ghost rules: seq<Rule>, retry: map<string, nat>) returns (ok: bool, a: nat)
    requires forall t :: t in retry <==> Executions(rules, t) > 0
    requires forall t :: t in retry ==> retry[t] == Executions(rules, t)
    ensures ok <==> forall k :: 0 <= k < |tasks| ==> Executions(rules, tasks[k]) > 0
    ensures ok ==> a == TotalExecutions(tasks, rules)
  {
    a := 0;
    var k := 0;
    while k < |tasks|
      invariant 0 <= k <= |tasks|
      invariant forall l :: 0 <= l < k ==> Executions(rules, tasks[l]) > 0
      invariant a + TotalExecutions(tasks[k..], rules) == TotalExecutions(tasks, rules)
    {
      if tasks[k] !in retry {
        return false, a;
      }
      assert tasks[k..][1..] == tasks[k + 1..];
      a := a + retry[tasks[k]];
      k := k + 1;
    }
    ok := true;
  }

  /** Effects by task, one row each: lines 148 to 155. */
  method EffectRows(tasks: seq<string>, rows: seq<EffectRow>) returns (ok: bool, counts: map<string, nat>)
    ensures ok <==> (forall k :: 0 <= k < |rows| ==> rows[k].effects >= 1 && rows[k].task in tasks) &&
                    Single(rows)
    ensures ok ==> forall t :: t in counts <==> exists k :: 0 <= k < |rows| && rows[k].task == t
    ensures ok ==> forall t :: t in counts ==> counts[t] == Effects(rows, t)
  {
    counts := map[];
    var k := 0;
    while k < |rows|
      invariant 0 <= k <= |rows|
      invariant forall l :: 0 <= l < k ==> rows[l].effects >= 1 && rows[l].task in tasks
      invariant forall l, m :: 0 <= l < m < k ==> TaskOf(rows[l]) != TaskOf(rows[m])
      invariant forall t :: t in counts <==> exists l :: 0 <= l < k && rows[l].task == t
      invariant forall t :: t in counts ==> counts[t] == Effects(rows, t)
      invariant forall t :: t !in counts ==> Effects(rows[k..], t) == Effects(rows, t)
    {
      var row := rows[k];
      if row.task !in tasks || row.task in counts || row.effects < 1 {
        return false, counts;
      }
      assert rows[k..][1..] == rows[k + 1..];
      assert Effects(rows[k..], row.task) == row.effects;
      counts := counts[row.task := row.effects];
      k := k + 1;
    }
    ok := true;
  }

  /** The outcomes of all tasks with effects: lines 156 to 161. */
  method SumOutcomes(tasks: seq<string>, ghost rows: seq<EffectRow>, ghost rules: seq<Rule>,
                     counts: map<string, nat>, retry: map<string, nat>)
    returns (ok: bool, f: nat)
    requires forall t :: t in tasks ==> t in retry
    requires forall t :: t in retry ==> retry[t] == Executions(rules, t)
    requires forall t :: t in counts ==> counts[t] == Effects(rows, t)
    ensures ok <==> forall k :: 0 <= k < |tasks| ==> tasks[k] in counts
    ensures ok ==> f == TotalOutcomes(tasks, rows, rules)
  {
    f := 0;
    var k := 0;
    while k < |tasks|
      invariant 0 <= k <= |tasks|
      invariant forall l :: 0 <= l < k ==> tasks[l] in counts
      invariant f + TotalOutcomes(tasks[k..], rows, rules) == TotalOutcomes(tasks, rows, rules)
    {
      if tasks[k] !in counts {
        return false, f;
      }
      assert tasks[k..][1..] == tasks[k + 1..];
      f := f + counts[tasks[k]] * retry[tasks[k]];
      k := k + 1;
    }
    ok := true;
  }

  /** Both steps together, lines 148 to 161. */
  method CountOutcomes(i: Input, retry: map<string, nat>) returns (ok: bool, f: nat)
    requires forall t :: t in i.tasks ==> t in retry
    requires forall t :: t in retry ==> retry[t] == Executions(i.rules, t)
    ensures ok <==> RowsMatch(i)
    ensures ok ==> f == F(i)
  {
    var rowsOk, counts := EffectRows(i.tasks, i.effects);
    if !rowsOk {
      return false, 0;
    }
    ok, f := SumOutcomes(i.tasks, i.effects, i.rules, counts, retry);
  }

  /** Both steps together, lines 126 to 138. */
  method CountExecutions(i: Input) returns (ok: bool, a: nat, retry: map<string, nat>)
    ensures ok <==> RulesCover(i)
    ensures ok ==> a == A(i) && forall t :: t in i.tasks ==> t in retry
    ensures ok ==> forall t :: t in retry ==> retry[t] == Executions(i.rules, t)
  {
    a := 0;
    ok, retry := RetryByTask(i.rules);
    if ok {
      ok, a := SumExecutions(i.tasks, i.rules, retry);
    }
  }

  /** `deriveControlPlaneBudgetV02`, lines 113 to 242. */
  method Derive(i: Input) returns (o: Outcome)
    ensures o.Invalid? <==> !Contract(i)
    ensures Contract(i) ==> Settles(i, o)
  {
    if !SafeCounts(i) {
      return Invalid;
    }
    var tasksOk, a, retry := CountExecutions(i);
    if !tasksOk || !(SafeLimits(i.limits) && i.limits == ExpectedLimits(a, i)) {
      return Invalid;
    }
    var effectsOk, f := CountOutcomes(i, retry);
    if !effectsOk {
      return Invalid;
    }
    o := Settle(i, a, f);
  }

  /** From the two sums to the answer: rows, bounds, comparison with the reserve. Lines 163 to 241. */
  method Settle(i: Input, a: nat, f: nat) returns (o: Outcome)
    requires SafeCounts(i) && a == A(i) && f == F(i)
    ensures !o.Invalid? && Settles(i, o)
  {
    var terminal := if i.compensations == 0 then 8 else 15 + 2 * i.compensations;
    var raw := RawRows(a, f, i);
    var k := Cardinalities(raw);
    RawRowsSum(a, f, i);
    var clocks := 2 * a + i.gates + k;
    var events := raw[..1] + [Family(Clocks, clocks, STANDARD_LEDGER)] + raw[1..];
    var files := FileRows(a, i);
    assert raw[..1] == [Family(Initialize, 1, STANDARD_LEDGER)] && raw[1..] == LaterRows(a, f, i);
    assert events == EventRows(a, f, i);
    TotalIsCharge(i);
    EventRowsSum(a, f, i);
    RowsAreCharged(a, f, i);
    RowsOverflowTogether(events);
    RowsOverflowTogether(files);
    if !(AllSafe(events) && AllSafe(files)) {
      return Overflow;
    }
    var required := Charge(events) + Charge(files);
    if !(Safe(required) && Safe(k) && Safe(clocks) && Safe(terminal)) {
      return Overflow;
    }
    if required > i.reserve {
      return Exceeds(required);
    }
    o := Derived(required, k, clocks, terminal, events, files);
  }

  /** The contract demands these limits, each of which fits. */
  lemma LimitsOfTheContract(i: Input)
    requires Contract(i)
    ensures var a, g, e, r, c, l := A(i), i.gates, i.evaluations, i.artifacts, i.compensations, i.limits;
      && 0 <= l.authority == 9 * a + 10 * g <= MAX_SAFE && 0 <= l.agency == 16 * a + 8 * c <= MAX_SAFE
      && 0 <= l.revocation == a + 2 * g <= MAX_SAFE && 0 <= l.taskResult == a <= MAX_SAFE
      && 0 <= l.evidence == l.manual == 8 * a + 12 * g + 4 * e + 2 * r + 32 <= MAX_SAFE
      && 0 <= l.exportDecision == 8 * a + 12 * g + 4 * e + 3 * r + 32 <= MAX_SAFE
      && 0 <= l.claim == i.criteria + g + e <= MAX_SAFE && 0 <= l.waiver == g <= MAX_SAFE
      && 0 <= l.finding == 4 * a + 2 * g + 2 * e + 2 * r + 32 <= MAX_SAFE
      && 0 <= l.custody == 16 * a + 24 * g + 8 * e + 6 * r + 64 <= MAX_SAFE
  {}

  // -----------------------------------------------------------------------
  // Order does not matter
  // -----------------------------------------------------------------------

  /** The same input with tasks, rules and effect rows listed in another order. */
  predicate Reordered(i: Input, j: Input) {
    && multiset(i.tasks) == multiset(j.tasks) && multiset(i.rules) == multiset(j.rules)
    && multiset(i.effects) == multiset(j.effects)
    && i.(tasks := [], rules := [], effects := []) == j.(tasks := [], rules := [], effects := [])
  }

  lemma {:induction false} ExecutionsIsMaximum(rules: seq<Rule>, task: string)
    ensures forall k :: 0 <= k < |rules| && rules[k].task == task ==> rules[k].most <= Executions(rules, task)
    ensures Executions(rules, task) > 0 ==> Rule(task, Executions(rules, task)) in rules
  {
    if rules != [] {
      ExecutionsIsMaximum(rules[1..], task);
      forall k | 0 <= k < |rules| && rules[k].task == task
        ensures rules[k].most <= Executions(rules, task)
      {
        assert k > 0 ==> rules[k] == rules[1..][k - 1];
      }
    }
  }

  lemma ExecutionsReordered(r: seq<Rule>, s: seq<Rule>, task: string)
    requires multiset(r) == multiset(s)
    ensures Executions(r, task) == Executions(s, task)
  {
    ExecutionsIsMaximum(r, task);
    ExecutionsIsMaximum(s, task);
    forall x ensures x in r <==> x in s {
      assert x in multiset(r) <==> x in multiset(s);
    }
    if Executions(r, task) > 0 {
      assert Rule(task, Executions(r, task)) in s;
    }
    if Executions(s, task) > 0 {
      assert Rule(task, Executions(s, task)) in r;
    }
  }

  lemma {:induction false} EffectsOfOnlyRow(rows: seq<EffectRow>, n: nat)
    requires n < |rows| && Single(rows)
    ensures Effects(rows, rows[n].task) == rows[n].effects
  {
    if n > 0 {
      EffectsOfOnlyRow(rows[1..], n - 1);
    }
  }

  lemma {:induction false} TotalReordered(s: seq<string>, t: seq<string>, rows: seq<EffectRow>, rules: seq<Rule>)
    requires multiset(s) == multiset(t)
    ensures TotalExecutions(s, rules) == TotalExecutions(t, rules)
    ensures TotalOutcomes(s, rows, rules) == TotalOutcomes(t, rows, rules)
  {
    if s == [] {
      assert |multiset(t)| == 0;
    } else {
      var n := SameHead(s, t);
      var rest := t[..n] + t[n + 1..];
      TotalReordered(s[1..], rest, rows, rules);
      TotalWithout(t, n, rows, rules);
    }
  }

  lemma {:induction false} TotalWithout(t: seq<string>, n: nat, rows: seq<EffectRow>, rules: seq<Rule>)
    requires n < |t|
    ensures TotalExecutions(t, rules) == Executions(rules, t[n]) + TotalExecutions(t[..n] + t[n + 1..], rules)
    ensures TotalOutcomes(t, rows, rules) ==
            Effects(rows, t[n]) * Executions(rules, t[n]) + TotalOutcomes(t[..n] + t[n + 1..], rows, rules)
  {
    if n == 0 {
      assert t[..0] + t[1..] == t[1..];
    } else {
      TotalWithout(t[1..], n - 1, rows, rules);
      assert (t[..n] + t[n + 1..])[1..] == t[1..][..n - 1] + t[1..][n..];
    }
  }

  lemma RowsReordered(i: Input, j: Input)
    requires Reordered(i, j) && Single(i.effects) && Single(j.effects)
    ensures forall t :: Effects(i.effects, t) == Effects(j.effects, t)
  {
    forall t
      ensures Effects(i.effects, t) == Effects(j.effects, t)
    {
      EffectsSomewhere(i.effects, t);
      EffectsSomewhere(j.effects, t);
      forall x ensures x in i.effects <==> x in j.effects {
        assert x in multiset(i.effects) <==> x in multiset(j.effects);
      }
      if n :| 0 <= n < |i.effects| && i.effects[n].task == t {
        assert i.effects[n] in j.effects;
        var m :| 0 <= m < |j.effects| && j.effects[m] == i.effects[n];
        EffectsOfOnlyRow(i.effects, n);
        EffectsOfOnlyRow(j.effects, m);
      } else if m :| 0 <= m < |j.effects| && j.effects[m].task == t {
        assert j.effects[m] in i.effects;
      }
    }
  }

  /** A task without a row has no effects. */
  lemma {:induction false} EffectsSomewhere(rows: seq<EffectRow>, t: string)
    ensures (forall n :: 0 <= n < |rows| ==> rows[n].task != t) ==> Effects(rows, t) == 0
  {
    if rows != [] {
      EffectsSomewhere(rows[1..], t);
    }
  }

  lemma RowsMatchReordered(i: Input, j: Input)
    requires Reordered(i, j) && RowsMatch(i)
    ensures RowsMatch(j)
  {
    DistinctReordered(i.effects, j.effects, TaskOf);
    SameMembers(i.effects, j.effects);
    SameMembers(i.tasks, j.tasks);
    forall k | 0 <= k < |j.effects|
      ensures j.effects[k].effects >= 1 && j.effects[k].task in j.tasks
    {
      assert j.effects[k] in i.effects;
    }
    forall k | 0 <= k < |j.tasks|
      ensures exists l :: 0 <= l < |j.effects| && j.effects[l].task == j.tasks[k]
    {
      assert j.tasks[k] in i.tasks;
      var m :| 0 <= m < |i.tasks| && i.tasks[m] == j.tasks[k];
      var n :| 0 <= n < |i.effects| && i.effects[n].task == i.tasks[m];
      assert i.effects[n] in j.effects;
    }
  }

  lemma {:induction false} TotalsFromPointwise(tasks: seq<string>, i: Input, j: Input)
    requires forall t :: Executions(i.rules, t) == Executions(j.rules, t)
    ensures TotalExecutions(tasks, i.rules) == TotalExecutions(tasks, j.rules)
    ensures (forall t :: Effects(i.effects, t) == Effects(j.effects, t)) ==>
              TotalOutcomes(tasks, i.effects, i.rules) == TotalOutcomes(tasks, j.effects, j.rules)
  {
    if tasks != [] {
      TotalsFromPointwise(tasks[1..], i, j);
    }
  }

  /** The counts are the same in any order. */
  lemma CountsReordered(i: Input, j: Input)
    requires Reordered(i, j)
    ensures A(i) == A(j) && (Single(i.effects) ==> F(i) == F(j))
  {
    forall t
      ensures Executions(i.rules, t) == Executions(j.rules, t)
    {
      ExecutionsReordered(i.rules, j.rules, t);
    }
    if Single(i.effects) {
      DistinctReordered(i.effects, j.effects, TaskOf);
      RowsReordered(i, j);
    }
    TotalsFromPointwise(i.tasks, i, j);
    TotalReordered(i.tasks, j.tasks, j.effects, j.rules);
  }

  lemma ContractReordered(i: Input, j: Input)
    requires Reordered(i, j) && Contract(i)
    ensures Contract(j)
  {
    CountsReordered(i, j);
    RowsMatchReordered(i, j);
    RulesCoverReordered(i, j);
  }

  lemma RulesCoverReordered(i: Input, j: Input)
    requires Reordered(i, j) && RulesCover(i)
    ensures RulesCover(j)
  {
    SameMembers(i.rules, j.rules);
    SameMembers(i.tasks, j.tasks);
    forall k | 0 <= k < |j.rules|
      ensures 1 <= j.rules[k].most <= MAX_SAFE
    {
      assert j.rules[k] in i.rules;
    }
    forall k | 0 <= k < |j.tasks|
      ensures Executions(j.rules, j.tasks[k]) > 0
    {
      assert j.tasks[k] in i.tasks;
      ExecutionsReordered(i.rules, j.rules, j.tasks[k]);
    }
  }

  /** What `Derive` promises of its answer. */
  predicate Answers(i: Input, o: Outcome) {
    (o.Invalid? <==> !Contract(i)) && (Contract(i) ==> Settles(i, o))
  }

  /** The whole answer is the same whatever the order of tasks, retry rules and effect rows. */
  lemma OrderDoesNotMatter(i: Input, j: Input, o: Outcome, p: Outcome)
    requires Reordered(i, j) && Answers(i, o) && Answers(j, p)
    ensures o == p
  {
    CountsReordered(i, j);
    if Contract(i) {
      ContractReordered(i, j);
      SameFigures(i, j, A(i), F(i));
    } else if Contract(j) {
      ContractReordered(j, i);
    }
  }

  lemma SameFigures(i: Input, j: Input, a: nat, f: nat)
    requires Reordered(i, j) && i.loopAttempts >= 0 && i.toolCalls >= 0
    ensures NonClock(a, f, i) == NonClock(a, f, j)
    ensures EventRows(a, f, i) == EventRows(a, f, j) && FileRows(a, i) == FileRows(a, j)
    ensures a == A(i) == A(j) && f == F(i) == F(j) ==> Total(i) == Total(j)
  {}
}
