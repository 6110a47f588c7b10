/**
 * The signed receipt that binds to a ledger: builder and offline verifier (src/receipt.ts, with the
 * cross-field invariants of src/schema/receipt.ts).
 *
 * The schema, the signature scheme and the hashes are parameters, gathered in `World`.
 */
module Receipt {
  import opened Prelude
  import opened Json
  import opened Decimal
  import opened Ledger
  import opened LedgerText

  datatype ClaimVerdict = Verified | Contradicted | Unsupported
  datatype ClauseVerdict = Kept | PromiseBroken | Unevaluated

  datatype Claim = Claim(id: string, family: string, text: string, verdict: ClaimVerdict, evidenceIds: seq<string>,
                         reason: Option<string>)
  datatype Clause = Clause(id: string, kind: string, text: string, verdict: ClauseVerdict, evidenceIds: seq<string>,
                           reason: Option<string>)
  datatype Evidence = Evidence(id: string, rest: seq<Field>)
  datatype Summary = Summary(verified: nat, contradicted: nat, unsupported: nat, kept: nat, promiseBroken: nat,
                             unevaluated: nat)
  datatype Binding = Binding(eventCount: nat, headEventHash: string, ledgerSha256: string)

  /** `run` and `capture_gaps` travel as given, apart from the two derived fields of `run`. */
  datatype Unsigned = Unsigned(
    run: seq<Field>, runState: string, integrityValid: bool, brief: seq<Field>, briefHash: string, binding: Binding,
    claims: seq<Claim>, clauses: seq<Clause>, evidence: seq<Evidence>, captureGaps: seq<J>, summary: Summary)
  datatype Receipt = Receipt(content: Unsigned, signature: J)

  // -----------------------------------------------------------------------
  // The receipt as JSON
  // -----------------------------------------------------------------------

  function Strings(list: seq<string>): (items: seq<J>)
    ensures |items| == |list| && forall i :: 0 <= i < |list| ==> items[i] == Str(list[i])
  {
    seq(|list|, i requires 0 <= i < |list| => Str(list[i]))
  }

  function ClaimName(v: ClaimVerdict): string {
    match v
    case Verified => "VERIFIED"
    case Contradicted => "CONTRADICTED"
    case Unsupported => "UNSUPPORTED"
  }

  function ClauseName(v: ClauseVerdict): string {
    match v
    case Kept => "KEPT"
    case PromiseBroken => "PROMISE_BROKEN"
    case Unevaluated => "UNEVALUATED"
  }

  function Rows(id: string, kindName: string, kind: string, text: string, verdict: string, ids: seq<string>,
                reason: Option<string>): J {
    Obj([Field(kindName + "_id", Str(id)), Field(if kindName == "claim" then "family" else "clause_type", Str(kind)),
         Field("text", Str(text)), Field("verdict", Str(verdict)), Field("evidence_ids", Arr(Strings(ids)))]
        + match reason case None => [] case Some(r) => [Field("reason", Str(r))])
  }

  function ClaimJson(c: Claim): J {
    Rows(c.id, "claim", c.family, c.text, ClaimName(c.verdict), c.evidenceIds, c.reason)
  }

  function ClauseJson(c: Clause): J {
    Rows(c.id, "clause", c.kind, c.text, ClauseName(c.verdict), c.evidenceIds, c.reason)
  }

  function ClaimsJson(claims: seq<Claim>): (items: seq<J>)
    ensures |items| == |claims| && forall i :: 0 <= i < |claims| ==> items[i] == ClaimJson(claims[i])
  {
    seq(|claims|, i requires 0 <= i < |claims| => ClaimJson(claims[i]))
  }

  function ClausesJson(clauses: seq<Clause>): (items: seq<J>)
    ensures |items| == |clauses| && forall i :: 0 <= i < |clauses| ==> items[i] == ClauseJson(clauses[i])
  {
    seq(|clauses|, i requires 0 <= i < |clauses| => ClauseJson(clauses[i]))
  }

  function EvidenceJson(evidence: seq<Evidence>): seq<J> {
    seq(|evidence|, i requires 0 <= i < |evidence| => Obj([Field("evidence_id", Str(evidence[i].id))]
                                                          + evidence[i].rest))
  }

  function Count(n: nat): J {
    Num(Digits(n))
  }

  /** A count is written as a JSON number. */
  lemma CountIsNumber(n: nat)
    ensures WellFormed(Count(n))
  {
    DigitsAreNumber(Digits(n));
  }

  lemma DigitsAreNumber(s: string)
    requires s != [] && AllDigits(s) && (s[0] == '0' ==> |s| == 1)
    ensures IsNumber(s)
  {
    assert forall c :: c in s ==> IsDigit(c);
    if s[0] != '0' {
      AllDropped(s);
    }
  }

  lemma {:induction false} AllDropped(s: string)
    requires AllDigits(s)
    ensures DropDigits(s) == []
  {
    if s != [] {
      AllDropped(s[1..]);
    }
  }

  function BindingJson(b: Binding): J {
    Obj([Field("event_count", Count(b.eventCount)), Field("head_event_hash", Str(b.headEventHash)),
         Field("ledger_sha256", Str(b.ledgerSha256))])
  }

  function SummaryJson(s: Summary): J {
    Obj([Field("claims", Obj([Field("verified", Count(s.verified)), Field("contradicted", Count(s.contradicted)),
                              Field("unsupported", Count(s.unsupported))])),
         Field("clauses", Obj([Field("kept", Count(s.kept)), Field("promise_broken", Count(s.promiseBroken)),
                               Field("unevaluated", Count(s.unevaluated))]))])
  }

  /** The two fields of `run` that come from the ledger. */
  function Derived(u: Unsigned): seq<Field> {
    [Field("run_state", Str(u.runState)), Field("integrity_status", Str(if u.integrityValid then "valid" else "hold"))]
  }

  function RunJson(u: Unsigned): J {
    Obj(u.run + Derived(u))
  }

  function BriefJson(u: Unsigned): J {
    Obj(u.brief + [Field("brief_hash", Str(u.briefHash))])
  }

  function UnsignedFields(u: Unsigned): seq<Field> {
    [Field("receipt_version", Str("0.1")),
     Field("run", RunJson(u)),
     Field("brief", BriefJson(u)),
     Field("ledger_binding", BindingJson(u.binding)),
     Field("claims", Arr(ClaimsJson(u.claims))),
     Field("brief_clauses", Arr(ClausesJson(u.clauses))),
     Field("evidence", Arr(EvidenceJson(u.evidence))),
     Field("capture_gaps", Arr(u.captureGaps)),
     Field("summary", SummaryJson(u.summary))]
  }

  function ReceiptFields(r: Receipt): seq<Field> {
    UnsignedFields(r.content) + [Field("signature", r.signature)]
  }

  // -----------------------------------------------------------------------
  // What is signed is everything
  // -----------------------------------------------------------------------

  lemma SameCount(m: nat, n: nat)
    requires Count(m) == Count(n)
    ensures m == n
  {
    ValueOfDigits(m);
    ValueOfDigits(n);
  }

  lemma SameStrings(a: seq<string>, b: seq<string>)
    requires Strings(a) == Strings(b)
    ensures a == b
  {
    forall i | 0 <= i < |a| ensures a[i] == b[i] {
      assert Strings(a)[i] == Strings(b)[i];
    }
  }

  lemma SameTail<T>(a: seq<T>, x: seq<T>, b: seq<T>, y: seq<T>)
    requires a + x == b + y && |x| == |y|
    ensures a == b && x == y
  {
    assert (a + x)[..|a|] == a && (b + y)[..|b|] == b && (a + x)[|a|..] == x && (b + y)[|b|..] == y;
  }

  lemma SameHead<T>(a: seq<T>, x: seq<T>, b: seq<T>, y: seq<T>)
    requires a + x == b + y && |a| == |b|
    ensures a == b && x == y
  {
    assert (a + x)[..|a|] == a && (b + y)[..|b|] == b && (a + x)[|a|..] == x && (b + y)[|b|..] == y;
  }

  lemma SameRows(id: string, id': string, name: string, kind: string, kind': string, text: string, text': string,
                 verdict: string, verdict': string, ids: seq<string>, ids': seq<string>,
                 reason: Option<string>, reason': Option<string>)
    requires Rows(id, name, kind, text, verdict, ids, reason) == Rows(id', name, kind', text', verdict', ids', reason')
    ensures id == id' && kind == kind' && text == text' && verdict == verdict' && ids == ids' && reason == reason'
  {
    var a := Rows(id, name, kind, text, verdict, ids, reason).fields;
    var b := Rows(id', name, kind', text', verdict', ids', reason').fields;
    assert a[0] == b[0] && a[1] == b[1] && a[2] == b[2] && a[3] == b[3] && a[4] == b[4];
    SameStrings(ids, ids');
    assert |a| == |b|;
    if reason.Some? {
      assert a[5] == b[5];
    }
  }

  lemma NamesDiffer(v: ClaimVerdict, v': ClaimVerdict, c: ClauseVerdict, c': ClauseVerdict)
    ensures ClaimName(v) == ClaimName(v') ==> v == v'
    ensures ClauseName(c) == ClauseName(c') ==> c == c'
  {
    assert |"UNSUPPORTED"| == 11 && |"CONTRADICTED"| == 12 && |"VERIFIED"| == 8;
    assert |"UNEVALUATED"| == 11 && |"PROMISE_BROKEN"| == 14 && |"KEPT"| == 4;
  }

  lemma SameClaims(a: seq<Claim>, b: seq<Claim>)
    requires ClaimsJson(a) == ClaimsJson(b)
    ensures a == b
  {
    forall i | 0 <= i < |a| ensures a[i] == b[i] {
      var c, d := a[i], b[i];
      assert ClaimsJson(a)[i] == ClaimsJson(b)[i];
      SameRows(c.id, d.id, "claim", c.family, d.family, c.text, d.text, ClaimName(c.verdict), ClaimName(d.verdict),
               c.evidenceIds, d.evidenceIds, c.reason, d.reason);
      NamesDiffer(c.verdict, d.verdict, Kept, Kept);
    }
  }

  lemma SameClauses(a: seq<Clause>, b: seq<Clause>)
    requires ClausesJson(a) == ClausesJson(b)
    ensures a == b
  {
    forall i | 0 <= i < |a| ensures a[i] == b[i] {
      var c, d := a[i], b[i];
      assert ClausesJson(a)[i] == ClausesJson(b)[i];
      SameRows(c.id, d.id, "clause", c.kind, d.kind, c.text, d.text, ClauseName(c.verdict), ClauseName(d.verdict),
               c.evidenceIds, d.evidenceIds, c.reason, d.reason);
      NamesDiffer(Verified, Verified, c.verdict, d.verdict);
    }
  }

  lemma SameEvidence(a: seq<Evidence>, b: seq<Evidence>)
    requires EvidenceJson(a) == EvidenceJson(b)
    ensures a == b
  {
    assert |a| == |EvidenceJson(a)| == |b|;
    forall i | 0 <= i < |a| ensures a[i] == b[i] {
      assert EvidenceJson(a)[i] == EvidenceJson(b)[i];
      SameHead([Field("evidence_id", Str(a[i].id))], a[i].rest, [Field("evidence_id", Str(b[i].id))], b[i].rest);
    }
  }

  lemma SameSummary(a: Summary, b: Summary)
    requires SummaryJson(a) == SummaryJson(b)
    ensures a == b
  {
    var claims, clauses := SummaryJson(a).fields[0].value.fields, SummaryJson(a).fields[1].value.fields;
    var claims', clauses' := SummaryJson(b).fields[0].value.fields, SummaryJson(b).fields[1].value.fields;
    assert claims[0] == claims'[0] && claims[1] == claims'[1] && claims[2] == claims'[2];
    assert clauses[0] == clauses'[0] && clauses[1] == clauses'[1] && clauses[2] == clauses'[2];
    SameCount(a.verified, b.verified);
    SameCount(a.contradicted, b.contradicted);
    SameCount(a.unsupported, b.unsupported);
    SameCount(a.kept, b.kept);
    SameCount(a.promiseBroken, b.promiseBroken);
    SameCount(a.unevaluated, b.unevaluated);
  }

  lemma SameBinding(a: Binding, b: Binding)
    requires BindingJson(a) == BindingJson(b)
    ensures a == b
  {
    var f, g := BindingJson(a).fields, BindingJson(b).fields;
    assert f[0] == g[0] && f[1] == g[1] && f[2] == g[2];
    SameCount(a.eventCount, b.eventCount);
  }

  lemma SameRun(u: Unsigned, v: Unsigned)
    requires RunJson(u) == RunJson(v)
    ensures u.run == v.run && u.runState == v.runState && u.integrityValid == v.integrityValid
  {
    var x, y := Derived(u), Derived(v);
    SameTail(u.run, x, v.run, y);
    assert x[0] == y[0] && x[1] == y[1];
    assert |"valid"| == 5 && |"hold"| == 4;
  }

  lemma SameBrief(u: Unsigned, v: Unsigned)
    requires BriefJson(u) == BriefJson(v)
    ensures u.brief == v.brief && u.briefHash == v.briefHash
  {
    var x, y := [Field("brief_hash", Str(u.briefHash))], [Field("brief_hash", Str(v.briefHash))];
    SameTail(u.brief, x, v.brief, y);
    assert x[0] == y[0];
  }

  /** Two contents with the same JSON are the same: the signature covers every field of a receipt. */
  lemma SignedContentIsWhole(u: Unsigned, v: Unsigned)
    requires UnsignedFields(u) == UnsignedFields(v)
    ensures u == v
  {
    var f, g := UnsignedFields(u), UnsignedFields(v);
    assert f[1] == g[1] && f[2] == g[2] && f[3] == g[3] && f[4] == g[4] && f[5] == g[5] && f[6] == g[6];
    assert f[7] == g[7] && f[8] == g[8];
    SameRun(u, v);
    SameBrief(u, v);
    SameBinding(u.binding, v.binding);
    SameClaims(u.claims, v.claims);
    SameClauses(u.clauses, v.clauses);
    SameEvidence(u.evidence, v.evidence);
    SameSummary(u.summary, v.summary);
  }

  // -----------------------------------------------------------------------
  // Parameters
  // -----------------------------------------------------------------------

  datatype World = World(
    events: Schema, hash: HashFn, textHash: string -> string, briefHash: seq<Field> -> string,
    readReceipt: J -> Option<Receipt>, admits: Receipt -> bool, numeral: string -> Option<nat>,
    sign: (seq<Field>, string) -> J, verify: (seq<Field>, J) -> bool)

  /** What the structural schema guarantees of a receipt that it admits. */
  ghost predicate ShapeHolds(r: Receipt) {
    && (forall c :: c in r.content.claims && c.verdict == Contradicted ==> c.evidenceIds != [])
    && (forall c :: c in r.content.clauses && c.verdict == PromiseBroken ==> c.evidenceIds != [])
    && (forall e :: e in r.content.evidence ==> !IsBlank(e.id))
  }

  ghost predicate Honest(w: World) {
    && Faithful(w.events)
    && (forall j :: w.events.read(j).Some? ==>
          j.Obj? && Lookup(j.fields, "event_hash") == Some(Str(w.events.read(j).value.hash)))
    && (forall r :: w.admits(r) ==>
          ShapeHolds(r) && WellFormed(Obj(ReceiptFields(r))) && w.readReceipt(Obj(ReceiptFields(r))) == Some(r))
    && (forall n: nat :: w.numeral(Digits(n)) == Some(n))
    && (forall content, key :: w.verify(content, w.sign(content, key)))
  }

  // -----------------------------------------------------------------------
  // Invariants and summary
  // -----------------------------------------------------------------------

  ghost predicate AllDistinct(ids: seq<string>) {
    forall i, j :: 0 <= i < j < |ids| ==> ids[i] != ids[j]
  }

  function CountClaims(claims: seq<Claim>, v: ClaimVerdict): nat {
    if claims == [] then 0
    else CountClaims(claims[..|claims| - 1], v) + if claims[|claims| - 1].verdict == v then 1 else 0
  }

  function CountClauses(clauses: seq<Clause>, v: ClauseVerdict): nat {
    if clauses == [] then 0
    else CountClauses(clauses[..|clauses| - 1], v) + if clauses[|clauses| - 1].verdict == v then 1 else 0
  }

  function ComputeSummary(claims: seq<Claim>, clauses: seq<Clause>): Summary {
    Summary(CountClaims(claims, Verified), CountClaims(claims, Contradicted), CountClaims(claims, Unsupported),
            CountClauses(clauses, Kept), CountClauses(clauses, PromiseBroken), CountClauses(clauses, Unevaluated))
  }

  function ClaimsWith(claims: seq<Claim>, v: ClaimVerdict): set<nat> {
    set i: nat | i < |claims| && claims[i].verdict == v
  }

  function ClausesWith(clauses: seq<Clause>, v: ClauseVerdict): set<nat> {
    set i: nat | i < |clauses| && clauses[i].verdict == v
  }

  lemma {:induction false} CountClaimsIsSize(claims: seq<Claim>, v: ClaimVerdict)
    ensures CountClaims(claims, v) == |ClaimsWith(claims, v)|
  {
    if claims != [] {
      var init, n := claims[..|claims| - 1], |claims| - 1;
      CountClaimsIsSize(init, v);
      var last: set<nat> := if claims[n].verdict == v then {n} else {};
      assert ClaimsWith(claims, v) == ClaimsWith(init, v) + last;
    }
  }

  lemma {:induction false} CountClausesIsSize(clauses: seq<Clause>, v: ClauseVerdict)
    ensures CountClauses(clauses, v) == |ClausesWith(clauses, v)|
  {
    if clauses != [] {
      var init, n := clauses[..|clauses| - 1], |clauses| - 1;
      CountClausesIsSize(init, v);
      var last: set<nat> := if clauses[n].verdict == v then {n} else {};
      assert ClausesWith(clauses, v) == ClausesWith(init, v) + last;
    }
  }

  lemma {:induction false} CountsAddUp(claims: seq<Claim>, clauses: seq<Clause>)
    ensures CountClaims(claims, Verified) + CountClaims(claims, Contradicted) + CountClaims(claims, Unsupported)
            == |claims|
    ensures CountClauses(clauses, Kept) + CountClauses(clauses, PromiseBroken) + CountClauses(clauses, Unevaluated)
            == |clauses|
    decreases |claims| + |clauses|
  {
    if claims != [] {
      CountsAddUp(claims[..|claims| - 1], clauses);
    } else if clauses != [] {
      CountsAddUp(claims, clauses[..|clauses| - 1]);
    }
  }

  /** Each figure of the summary is the number of rows with its verdict, and together they are all rows. */
  lemma SummaryCounts(claims: seq<Claim>, clauses: seq<Clause>)
    ensures var s := ComputeSummary(claims, clauses);
      && s.verified == |ClaimsWith(claims, Verified)| && s.contradicted == |ClaimsWith(claims, Contradicted)|
      && s.unsupported == |ClaimsWith(claims, Unsupported)|
      && s.kept == |ClausesWith(clauses, Kept)| && s.promiseBroken == |ClausesWith(clauses, PromiseBroken)|
      && s.unevaluated == |ClausesWith(clauses, Unevaluated)|
      && s.verified + s.contradicted + s.unsupported == |claims|
      && s.kept + s.promiseBroken + s.unevaluated == |clauses|
  {
    CountClaimsIsSize(claims, Verified);
    CountClaimsIsSize(claims, Contradicted);
    CountClaimsIsSize(claims, Unsupported);
    CountClausesIsSize(clauses, Kept);
    CountClausesIsSize(clauses, PromiseBroken);
    CountClausesIsSize(clauses, Unevaluated);
    CountsAddUp(claims, clauses);
  }

  function EvidenceIds(evidence: seq<Evidence>): set<string> {
    set e | e in evidence :: e.id
  }

  /**
   * The cross-field rules: ids of a kind differ, citations resolve, the summary counts the rows, and the hash
   * of the brief is that of its content.
   */
  ghost predicate InvariantsHold(w: World, u: Unsigned) {
    && IdsDiffer(u) && CitationsResolve(u)
    && u.summary == ComputeSummary(u.claims, u.clauses)
    && u.briefHash == w.briefHash(u.brief)
  }

  ghost predicate IdsDiffer(u: Unsigned) {
    && (forall i, j :: 0 <= i < j < |u.claims| ==> u.claims[i].id != u.claims[j].id)
    && (forall i, j :: 0 <= i < j < |u.clauses| ==> u.clauses[i].id != u.clauses[j].id)
    && (forall i, j :: 0 <= i < j < |u.evidence| ==> u.evidence[i].id != u.evidence[j].id)
  }

  ghost predicate CitationsResolve(u: Unsigned) {
    && (forall c :: c in u.claims ==> forall id :: id in c.evidenceIds ==> id in EvidenceIds(u.evidence))
    && (forall c :: c in u.clauses ==> forall id :: id in c.evidenceIds ==> id in EvidenceIds(u.evidence))
  }

  datatype CrossIssue = Duplicate(list: string, id: string) | Unknown(list: string, i: nat, j: nat) | WrongSummary
    | WrongBriefHash

  /** `dup`, lines 150 to 159 of src/schema/receipt.ts. */
  method Duplicates(list: string, ids: seq<string>) returns (issues: seq<CrossIssue>)
    ensures issues == [] <==> AllDistinct(ids)
  {
    issues := [];
    var seen: set<string> := {};
    for k := 0 to |ids|
      invariant forall id :: id in seen <==> id in ids[..k]
      invariant issues == [] <==> AllDistinct(ids[..k])
    {
      assert ids[..k + 1] == ids[..k] + [ids[k]];
      DistinctSoFar(ids, k);
      if ids[k] in seen {
        issues := issues + [Duplicate(list, ids[k])];
      }
      seen := seen + {ids[k]};
    }
    assert ids[..|ids|] == ids;
  }

  lemma DistinctSoFar(ids: seq<string>, k: nat)
    requires k < |ids|
    ensures AllDistinct(ids[..k + 1]) <==> AllDistinct(ids[..k]) && ids[k] !in ids[..k]
  {
    var init, all := ids[..k], ids[..k + 1];
    assert forall i :: 0 <= i < k ==> init[i] == all[i];
    if ids[k] in init {
      var i :| 0 <= i < k && init[i] == ids[k];
      assert all[i] == all[k];
    }
  }

  predicate AllKnown(ids: seq<string>, known: set<string>) {
    forall id :: id in ids ==> id in known
  }

  /** Lines 161 to 175: the citations of all rows of one list. */
  method Unresolved(list: string, cited: seq<seq<string>>, known: set<string>) returns (issues: seq<CrossIssue>)
    ensures issues == [] <==> forall i :: 0 <= i < |cited| ==> AllKnown(cited[i], known)
  {
    issues := [];
    for i := 0 to |cited|
      invariant issues == [] <==> forall k :: 0 <= k < i ==> AllKnown(cited[k], known)
    {
      var more := UnresolvedIn(list, i, cited[i], known);
      issues := issues + more;
    }
  }

  method UnresolvedIn(list: string, i: nat, ids: seq<string>, known: set<string>) returns (issues: seq<CrossIssue>)
    ensures issues == [] <==> AllKnown(ids, known)
  {
    issues := [];
    for j := 0 to |ids|
      invariant issues == [] <==> AllKnown(ids[..j], known)
    {
      assert ids[..j + 1] == ids[..j] + [ids[j]];
      assert AllKnown(ids[..j + 1], known) <==> AllKnown(ids[..j], known) && ids[j] in known;
      if ids[j] !in known {
        issues := issues + [Unknown(list, i, j)];
      }
    }
    assert ids[..|ids|] == ids;
  }

  /** `checkReceiptInvariants`, lines 147 to 208 of src/schema/receipt.ts. */
  method CheckInvariants(w: World, u: Unsigned) returns (issues: seq<CrossIssue>)
    ensures issues == [] <==> InvariantsHold(w, u)
  {
    issues := CheckIds(u);
    var more := CheckCitations(u);
    issues := issues + more;
    if u.summary != ComputeSummary(u.claims, u.clauses) { issues := issues + [WrongSummary]; }
    if u.briefHash != w.briefHash(u.brief) { issues := issues + [WrongBriefHash]; }
  }

  method CheckIds(u: Unsigned) returns (issues: seq<CrossIssue>)
    ensures issues == [] <==> IdsDiffer(u)
  {
    var claims := seq(|u.claims|, i requires 0 <= i < |u.claims| => u.claims[i].id);
    var clauses := seq(|u.clauses|, i requires 0 <= i < |u.clauses| => u.clauses[i].id);
    var evidence := seq(|u.evidence|, i requires 0 <= i < |u.evidence| => u.evidence[i].id);
    var a := Duplicates("claims", claims);
    var b := Duplicates("brief_clauses", clauses);
    var c := Duplicates("evidence", evidence);
    IdsByRow(u, claims, clauses, evidence);
    issues := a + b + c;
  }

  lemma IdsByRow(u: Unsigned, claims: seq<string>, clauses: seq<string>, evidence: seq<string>)
    requires |claims| == |u.claims| && forall i :: 0 <= i < |u.claims| ==> claims[i] == u.claims[i].id
    requires |clauses| == |u.clauses| && forall i :: 0 <= i < |u.clauses| ==> clauses[i] == u.clauses[i].id
    requires |evidence| == |u.evidence| && forall i :: 0 <= i < |u.evidence| ==> evidence[i] == u.evidence[i].id
    ensures IdsDiffer(u) <==> AllDistinct(claims) && AllDistinct(clauses) && AllDistinct(evidence)
  {}

  method CheckCitations(u: Unsigned) returns (issues: seq<CrossIssue>)
    ensures issues == [] <==> CitationsResolve(u)
  {
    var claims := seq(|u.claims|, i requires 0 <= i < |u.claims| => u.claims[i].evidenceIds);
    var clauses := seq(|u.clauses|, i requires 0 <= i < |u.clauses| => u.clauses[i].evidenceIds);
    var known := EvidenceIds(u.evidence);
    var a := Unresolved("claims", claims, known);
    var b := Unresolved("brief_clauses", clauses, known);
    CitationsByRow(u, claims, clauses);
    issues := a + b;
  }

  lemma CitationsByRow(u: Unsigned, byClaims: seq<seq<string>>, byClauses: seq<seq<string>>)
    requires |byClaims| == |u.claims| && forall i :: 0 <= i < |u.claims| ==> byClaims[i] == u.claims[i].evidenceIds
    requires |byClauses| == |u.clauses| && forall i :: 0 <= i < |u.clauses| ==> byClauses[i] == u.clauses[i].evidenceIds
    ensures var known := EvidenceIds(u.evidence);
      && ((forall i :: 0 <= i < |byClaims| ==> AllKnown(byClaims[i], known)) <==>
          forall c :: c in u.claims ==> forall id :: id in c.evidenceIds ==> id in known)
      && ((forall i :: 0 <= i < |byClauses| ==> AllKnown(byClauses[i], known)) <==>
          forall c :: c in u.clauses ==> forall id :: id in c.evidenceIds ==> id in known)
  {
    var known := EvidenceIds(u.evidence);
    if forall i :: 0 <= i < |byClaims| ==> AllKnown(byClaims[i], known) {
      forall c | c in u.claims ensures AllKnown(c.evidenceIds, known) {
        var i :| 0 <= i < |u.claims| && u.claims[i] == c;
        assert AllKnown(byClaims[i], known);
      }
    }
    if forall i :: 0 <= i < |byClauses| ==> AllKnown(byClauses[i], known) {
      forall c | c in u.clauses ensures AllKnown(c.evidenceIds, known) {
        var i :| 0 <= i < |u.clauses| && u.clauses[i] == c;
        assert AllKnown(byClauses[i], known);
      }
    }
  }

  // -----------------------------------------------------------------------
  // Building
  // -----------------------------------------------------------------------

  datatype Input = Input(
    run: seq<Field>, brief: seq<Field>, claims: seq<Claim>, clauses: seq<Clause>, evidence: seq<Evidence>,
    captureGaps: seq<J>, ledger: seq<Event>)

  const NO_OPTIONS := Options(false, None, [])

  /** What a receipt says about its ledger. */
  ghost predicate Binds(w: World, u: Unsigned, ledger: seq<Event>) {
    && ledger != []
    && u.binding == Binding(|ledger|, ledger[|ledger| - 1].hash, w.textHash(Serialize(Written(w.events, ledger))))
    && (u.integrityValid <==> RecoversValid(w.events, w.hash, Written(w.events, ledger), NO_OPTIONS))
    && DerivesState(w.events, w.hash, Written(w.events, ledger), u.runState)
  }

  /** The content that is assembled from the input: what is given travels as given, the rest is derived. */
  ghost predicate Assembles(w: World, u: Unsigned, input: Input) {
    && Binds(w, u, input.ledger)
    && u.run == input.run && u.brief == input.brief && u.claims == input.claims && u.clauses == input.clauses
    && u.evidence == input.evidence && u.captureGaps == input.captureGaps
    && u.summary == ComputeSummary(input.claims, input.clauses) && u.briefHash == w.briefHash(input.brief)
  }

  /** Nothing of the content is left open. */
  lemma AssembledOnce(w: World, u: Unsigned, v: Unsigned, input: Input)
    requires Assembles(w, u, input) && Assembles(w, v, input)
    ensures u == v
  {
    OneDerivedState(w.events, w.hash, Written(w.events, input.ledger), u.runState, v.runState);
  }

  /** The builder's self-check. */
  ghost predicate SelfCheck(w: World, r: Receipt) {
    w.admits(r) && InvariantsHold(w, r.content) && w.verify(UnsignedFields(r.content), r.signature)
  }

  /** A receipt is returned just when the one assembled and signed from the input passes its self-check. */
  method BuildReceipt(w: World, input: Input, key: string) returns (r: Option<Receipt>)
    ensures r.Some? ==>
              && Assembles(w, r.value.content, input)
              && r.value.signature == w.sign(UnsignedFields(r.value.content), key)
              && SelfCheck(w, r.value)
    ensures r.Some? <==>
              exists u :: Assembles(w, u, input) && SelfCheck(w, Receipt(u, w.sign(UnsignedFields(u), key)))
    ensures r.None? <==>
              || input.ledger == []
              || exists u :: Assembles(w, u, input) && !SelfCheck(w, Receipt(u, w.sign(UnsignedFields(u), key)))
  {
    if input.ledger == [] { return None; }
    var head := input.ledger[|input.ledger| - 1];
    var values := Written(w.events, input.ledger);
    var recovery := RecoverLedger(w.events, w.hash, values, NO_OPTIONS);
    var unsigned := Unsigned(
      input.run, recovery.runState, recovery.valid, input.brief, w.briefHash(input.brief),
      Binding(|input.ledger|, head.hash, w.textHash(Serialize(values))),
      input.claims, input.clauses, input.evidence, input.captureGaps, ComputeSummary(input.claims, input.clauses));
    var receipt := Receipt(unsigned, w.sign(UnsignedFields(unsigned), key));
    assert StateAfter(Readable(w.events, values), recovery.lastValidSequence) == recovery.runState;
    assert Assembles(w, unsigned, input);
    forall u | Assembles(w, u, input) ensures u == unsigned {
      AssembledOnce(w, u, unsigned, input);
    }
    if !w.admits(receipt) { return None; }
    var issues := CheckInvariants(w, unsigned);
    if issues != [] { return None; }
    if !w.verify(UnsignedFields(unsigned), receipt.signature) { return None; }
    r := Some(receipt);
  }

  // -----------------------------------------------------------------------
  // Verifying
  // -----------------------------------------------------------------------

  predicate Cites(row: seq<Field>) {
    var ids := Lookup(row, "evidence_ids");
    && ids.Some? && ids.value.Arr?
    && exists i :: 0 <= i < |ids.value.items| && ids.value.items[i].Str? && !IsBlank(ids.value.items[i].s)
  }

  /** A row that carries the condemning verdict cites evidence; a row that is not an object attests nothing. */
  predicate RowClean(row: J, bad: string) {
    (row.Obj? || row.Arr?) && (row.Obj? && Lookup(row.fields, "verdict") == Some(Str(bad)) ==> Cites(row.fields))
  }

  predicate ListClean(rec: seq<Field>, name: string, bad: string) {
    var list := Lookup(rec, name);
    list.Some? && list.value.Arr? && forall i :: 0 <= i < |list.value.items| ==> RowClean(list.value.items[i], bad)
  }

  ghost predicate DoctrineClean(rec: seq<Field>) {
    ListClean(rec, "claims", "CONTRADICTED") && ListClean(rec, "brief_clauses", "PROMISE_BROKEN")
  }

  datatype Failure = NotAList(list: string) | NotAnObject(list: string, i: nat) | Uncited(list: string, i: nat)

  method Inspect(rec: seq<Field>, name: string, bad: string) returns (failures: seq<Failure>)
    ensures failures == [] <==> ListClean(rec, name, bad)
  {
    var list := Lookup(rec, name);
    if list.None? || !list.value.Arr? { return [NotAList(name)]; }
    var items := list.value.items;
    failures := [];
    for i := 0 to |items|
      invariant failures == [] <==> forall k :: 0 <= k < i ==> RowClean(items[k], bad)
    {
      var item := items[i];
      if !(item.Obj? || item.Arr?) {
        failures := failures + [NotAnObject(name, i)];
      } else if item.Obj? && Lookup(item.fields, "verdict") == Some(Str(bad)) && !Cites(item.fields) {
        failures := failures + [Uncited(name, i)];
      }
    }
  }

  method DoctrineFailures(rec: seq<Field>) returns (failures: seq<Failure>)
    ensures failures == [] <==> DoctrineClean(rec)
  {
    var claims := Inspect(rec, "claims", "CONTRADICTED");
    var clauses := Inspect(rec, "brief_clauses", "PROMISE_BROKEN");
    failures := claims + clauses;
  }

  /** A nested property, if both levels are there. */
  function Nested(rec: seq<Field>, outer: string, inner: string): Option<J> {
    match Lookup(rec, outer)
    case Some(Obj(fields)) => Lookup(fields, inner)
    case _ => None
  }

  function ReadString(rec: seq<Field>, outer: string, inner: string): Option<string> {
    match Nested(rec, outer, inner)
    case Some(Str(s)) => Some(s)
    case _ => None
  }

  function ReadNumber(w: World, rec: seq<Field>, outer: string, inner: string): Option<nat> {
    match Nested(rec, outer, inner)
    case Some(Num(text)) => w.numeral(text)
    case _ => None
  }

  datatype CheckId =
    | ParseCheck | SchemaCheck | InvariantsCheck | DoctrineCheck | SignatureCheck
    | LedgerHash | LedgerHead | LedgerChain

  datatype Check = Check(id: CheckId, ok: bool)

  /** The receipt text as a JSON object. */
  function Parsed'(text: Option<string>): Option<seq<Field>> {
    match text
    case None => None
    case Some(t) =>
      match Parse(t)
      case Some(Obj(fields)) => Some(fields)
      case _ => None
  }

  /** The hash of the last event: a property of the last line that reads as an object. */
  function LastHash(events: seq<J>): Option<string> {
    if events == [] || !events[|events| - 1].Obj? then None
    else
      match Lookup(events[|events| - 1].fields, "event_hash")
      case Some(Str(s)) => Some(s)
      case _ => None
  }

  /** What each check attests; the absence of what it needs fails it. */
  ghost predicate Passes(w: World, id: CheckId, text: Option<string>, ledger: Option<string>) {
    match id
    case LedgerChain =>
      ledger.Some? && RecoversValid(w.events, w.hash, ParsedOf(LinesOf(ledger.value)).events,
                                    CutOptions(ledger.value, None))
    case _ => Parsed'(text).Some? && PassesOn(w, id, Parsed'(text).value, ledger)
  }

  ghost predicate PassesOn(w: World, id: CheckId, rec: seq<Field>, ledger: Option<string>) {
    match id
    case ParseCheck => true
    case SchemaCheck => w.readReceipt(Obj(rec)).Some?
    case InvariantsCheck => w.readReceipt(Obj(rec)).Some? && InvariantsHold(w, w.readReceipt(Obj(rec)).value.content)
    case DoctrineCheck => DoctrineClean(rec)
    case SignatureCheck =>
      Lookup(rec, "signature").Some? && w.verify(Without(rec, "signature"), Lookup(rec, "signature").value)
    case LedgerHash =>
      ledger.Some? && ReadString(rec, "ledger_binding", "ledger_sha256") == Some(w.textHash(ledger.value))
    case LedgerHead =>
      && ledger.Some?
      && var events := ParsedOf(LinesOf(ledger.value)).events;
         && LastHash(events).Some?
         && ReadString(rec, "ledger_binding", "head_event_hash") == LastHash(events)
         && ReadNumber(w, rec, "ledger_binding", "event_count") == Some(|events|)
    case LedgerChain => true
  }

  const SHALLOW: seq<CheckId> := [ParseCheck, SchemaCheck, InvariantsCheck, DoctrineCheck, SignatureCheck]
  const DEEP: seq<CheckId> := [LedgerHash, LedgerHead, LedgerChain]

  /**
   * `verifyReceipt`: every check is reported, in order, and passes exactly when it attests what it
   * should. `text` or `ledger` is none when it could not be read.
   */
  method VerifyReceipt(w: World, text: Option<string>, deep: bool, ledger: Option<string>)
    returns (ok: bool, checks: seq<Check>)
    ensures Reports(w, checks, if deep then SHALLOW + DEEP else SHALLOW, text, ledger)
    ensures ok <==> forall i :: 0 <= i < |checks| ==> checks[i].ok
  {
    var rec := Parsed'(text);
    checks := ShallowChecks(w, text, rec, ledger);
    if deep {
      var more := DeepChecks(w, text, rec, ledger);
      checks := checks + more;
    }
    ok := forall i :: 0 <= i < |checks| ==> checks[i].ok;
  }

  /** Each check reports its id and whether it passes. */
  ghost predicate Reports(w: World, checks: seq<Check>, ids: seq<CheckId>, text: Option<string>,
                          ledger: Option<string>) {
    |checks| == |ids| && forall i :: 0 <= i < |ids| ==>
      checks[i].id == ids[i] && (checks[i].ok <==> Passes(w, ids[i], text, ledger))
  }

  method ShallowChecks(w: World, text: Option<string>, rec: Option<seq<Field>>, ledger: Option<string>)
    returns (checks: seq<Check>)
    requires rec == Parsed'(text)
    ensures Reports(w, checks, SHALLOW, text, ledger)
  {
    if rec.None? {
      return [Check(ParseCheck, false), Check(SchemaCheck, false), Check(InvariantsCheck, false),
              Check(DoctrineCheck, false), Check(SignatureCheck, false)];
    }
    var receipt := w.readReceipt(Obj(rec.value));
    var invariants := false;
    if receipt.Some? {
      var issues := CheckInvariants(w, receipt.value.content);
      invariants := issues == [];
    }
    var failures := DoctrineFailures(rec.value);
    var signature := Lookup(rec.value, "signature");
    checks := [Check(ParseCheck, true), Check(SchemaCheck, receipt.Some?),
               Check(InvariantsCheck, invariants),
               Check(DoctrineCheck, failures == []),
               Check(SignatureCheck, signature.Some? && w.verify(Without(rec.value, "signature"), signature.value))];
  }

  method HashMatches(w: World, rec: Option<seq<Field>>, ledger: string) returns (ok: bool)
    ensures ok <==> rec.Some? && PassesOn(w, LedgerHash, rec.value, Some(ledger))
  {
    if rec.None? { return false; }
    var bound := ReadString(rec.value, "ledger_binding", "ledger_sha256");
    ok := bound == Some(w.textHash(ledger));
  }

  method HeadMatches(w: World, rec: Option<seq<Field>>, ledger: string, events: seq<J>) returns (ok: bool)
    requires events == ParsedOf(LinesOf(ledger)).events
    ensures ok <==> rec.Some? && PassesOn(w, LedgerHead, rec.value, Some(ledger))
  {
    if rec.None? { return false; }
    var boundHead := ReadString(rec.value, "ledger_binding", "head_event_hash");
    var boundCount := ReadNumber(w, rec.value, "ledger_binding", "event_count");
    var lastHash := LastHash(events);
    ok := boundHead.Some? && boundCount.Some? && lastHash.Some? && lastHash == boundHead
      && |events| == boundCount.value;
  }

  method DeepChecks(w: World, text: Option<string>, rec: Option<seq<Field>>, ledger: Option<string>)
    returns (checks: seq<Check>)
    requires rec == Parsed'(text)
    ensures Reports(w, checks, DEEP, text, ledger)
  {
    if ledger.None? { return [Check(LedgerHash, false), Check(LedgerHead, false), Check(LedgerChain, false)]; }
    var hashOk := HashMatches(w, rec, ledger.value);
    var parsed := ParseLedgerText(ledger.value);
    var headOk := HeadMatches(w, rec, ledger.value, parsed.events);
    var recovery := RecoverLedger(w.events, w.hash, parsed.events,
                                  Options(parsed.partialFinalLineDropped, None, parsed.corruptLines));
    assert ledger == Some(ledger.value);
    checks := [Check(LedgerHash, hashOk), Check(LedgerHead, headOk), Check(LedgerChain, recovery.valid)];
    assert hashOk <==> Passes(w, LedgerHash, text, ledger);
    assert headOk <==> Passes(w, LedgerHead, text, ledger);
    assert recovery.valid <==> Passes(w, LedgerChain, text, ledger);
  }

  /** On raw JSON the doctrine fails closed: a list must be there, hold no bare value, and cite what it condemns. */
  lemma DoctrineFailsClosed(rec: seq<Field>, name: string, bad: string)
    requires ListClean(rec, name, bad)
    ensures Lookup(rec, name).Some? && Lookup(rec, name).value.Arr?
    ensures forall row :: row in Lookup(rec, name).value.items ==>
              (row.Obj? || row.Arr?)
              && (row.Obj? && Lookup(row.fields, "verdict") == Some(Str(bad)) ==> Cites(row.fields))
  {
    forall row | row in Lookup(rec, name).value.items ensures RowClean(row, bad) {
      var i :| 0 <= i < |Lookup(rec, name).value.items| && Lookup(rec, name).value.items[i] == row;
    }
  }

  /** Without a receipt that parses to an object no check of it passes, without a ledger no deep check does. */
  lemma UnreadableFails(w: World, text: Option<string>, ledger: Option<string>, id: CheckId)
    requires Passes(w, id, text, ledger)
    ensures id != LedgerChain ==> text.Some? && Parse(text.value).Some? && Parse(text.value).value.Obj?
    ensures id in DEEP ==> ledger.Some?
    ensures id == SignatureCheck ==> Lookup(Parse(text.value).value.fields, "signature").Some?
    ensures id == SchemaCheck || id == InvariantsCheck ==> w.readReceipt(Parse(text.value).value).Some?
  {}

  // -----------------------------------------------------------------------
  // What is promised
  // -----------------------------------------------------------------------

  lemma {:induction false} LookupAppend(fields: seq<Field>, last: Field, key: string)
    ensures Lookup(fields + [last], key) == if last.key == key then Some(last.value) else Lookup(fields, key)
  {
    assert (fields + [last])[..|fields|] == fields;
  }

  /** A property that no later one repeats is found. */
  lemma {:induction false} LookupAt(fields: seq<Field>, i: nat, key: string)
    requires i < |fields| && fields[i].key == key && forall j :: i < j < |fields| ==> fields[j].key != key
    ensures Lookup(fields, key) == Some(fields[i].value)
  {
    if i < |fields| - 1 {
      LookupAt(fields[..|fields| - 1], i, key);
    }
  }

  lemma {:induction false} WithoutLast(fields: seq<Field>, last: Field)
    requires forall i :: 0 <= i < |fields| ==> fields[i].key != last.key
    ensures Without(fields + [last], last.key) == fields
  {
    if fields != [] {
      WithoutLast(fields[1..], last);
      assert (fields + [last])[1..] == fields[1..] + [last];
    }
  }

  /** Where the properties that verification reads sit in a written receipt. */
  lemma ReceiptLookups(r: Receipt)
    ensures var rec := ReceiptFields(r);
      && Lookup(rec, "ledger_binding") == Some(BindingJson(r.content.binding))
      && Lookup(rec, "claims") == Some(Arr(ClaimsJson(r.content.claims)))
      && Lookup(rec, "brief_clauses") == Some(Arr(ClausesJson(r.content.clauses)))
      && Lookup(rec, "signature") == Some(r.signature)
      && Without(rec, "signature") == UnsignedFields(r.content)
  {
    var rec, u := ReceiptFields(r), UnsignedFields(r.content);
    assert rec[3] == u[3] && rec[4] == u[4] && rec[5] == u[5];
    LookupAt(rec, 3, "ledger_binding");
    LookupAt(rec, 4, "claims");
    LookupAt(rec, 5, "brief_clauses");
    LookupAppend(u, Field("signature", r.signature), "signature");
    WithoutLast(u, Field("signature", r.signature));
  }

  lemma BindingLookups(b: Binding)
    ensures var fields := BindingJson(b).fields;
      && Lookup(fields, "event_count") == Some(Count(b.eventCount))
      && Lookup(fields, "head_event_hash") == Some(Str(b.headEventHash))
      && Lookup(fields, "ledger_sha256") == Some(Str(b.ledgerSha256))
  {
    var fields := BindingJson(b).fields;
    LookupAt(fields, 0, "event_count");
    LookupAt(fields, 1, "head_event_hash");
    LookupAt(fields, 2, "ledger_sha256");
  }

  lemma BindingReads(w: World, r: Receipt)
    requires Honest(w)
    ensures var rec, b := ReceiptFields(r), r.content.binding;
      && ReadString(rec, "ledger_binding", "ledger_sha256") == Some(b.ledgerSha256)
      && ReadString(rec, "ledger_binding", "head_event_hash") == Some(b.headEventHash)
      && ReadNumber(w, rec, "ledger_binding", "event_count") == Some(b.eventCount)
  {
    ReceiptLookups(r);
    BindingLookups(r.content.binding);
  }

  lemma RowLookups(id: string, kindName: string, kind: string, text: string, verdict: string, ids: seq<string>,
                   reason: Option<string>)
    ensures var fields := Rows(id, kindName, kind, text, verdict, ids, reason).fields;
      Lookup(fields, "verdict") == Some(Str(verdict)) && Lookup(fields, "evidence_ids") == Some(Arr(Strings(ids)))
  {
    var fields := Rows(id, kindName, kind, text, verdict, ids, reason).fields;
    LookupAt(fields, 3, "verdict");
    LookupAt(fields, 4, "evidence_ids");
  }

  predicate Attested(ids: seq<string>) {
    exists id :: id in ids && !IsBlank(id)
  }

  /** A condemning row is clean under the doctrine exactly when it cites something; any other row is clean anyway. */
  lemma RowIsClean(row: J, verdict: string, bad: string, ids: seq<string>)
    requires row.Obj? && Lookup(row.fields, "verdict") == Some(Str(verdict))
    requires Lookup(row.fields, "evidence_ids") == Some(Arr(Strings(ids)))
    ensures RowClean(row, bad) <==> (verdict == bad ==> Attested(ids))
  {
    var items := Strings(ids);
    if Attested(ids) {
      var id :| id in ids && !IsBlank(id);
      var i :| 0 <= i < |ids| && ids[i] == id;
      assert items[i].Str? && !IsBlank(items[i].s);
    }
    if Cites(row.fields) {
      var i :| 0 <= i < |items| && items[i].Str? && !IsBlank(items[i].s);
      assert ids[i] in ids;
    }
  }

  lemma ClaimIsClean(c: Claim)
    ensures RowClean(ClaimJson(c), "CONTRADICTED") <==> (c.verdict == Contradicted ==> Attested(c.evidenceIds))
  {
    RowLookups(c.id, "claim", c.family, c.text, ClaimName(c.verdict), c.evidenceIds, c.reason);
    ClaimNames(c.verdict);
    RowIsClean(ClaimJson(c), ClaimName(c.verdict), "CONTRADICTED", c.evidenceIds);
  }

  lemma ClauseIsClean(c: Clause)
    ensures RowClean(ClauseJson(c), "PROMISE_BROKEN") <==> (c.verdict == PromiseBroken ==> Attested(c.evidenceIds))
  {
    RowLookups(c.id, "clause", c.kind, c.text, ClauseName(c.verdict), c.evidenceIds, c.reason);
    ClauseNames(c.verdict);
    RowIsClean(ClauseJson(c), ClauseName(c.verdict), "PROMISE_BROKEN", c.evidenceIds);
  }

  /**
   * Of a written receipt the doctrine holds exactly when every contradicted claim and every broken clause cites
   * an id that is not blank.
   */
  lemma DoctrineExactly(r: Receipt)
    ensures DoctrineClean(ReceiptFields(r)) <==>
            && (forall i :: 0 <= i < |r.content.claims| && r.content.claims[i].verdict == Contradicted ==>
                  Attested(r.content.claims[i].evidenceIds))
            && (forall i :: 0 <= i < |r.content.clauses| && r.content.clauses[i].verdict == PromiseBroken ==>
                  Attested(r.content.clauses[i].evidenceIds))
  {
    ReceiptLookups(r);
    forall i | 0 <= i < |r.content.claims|
      ensures RowClean(ClaimsJson(r.content.claims)[i], "CONTRADICTED") <==>
              (r.content.claims[i].verdict == Contradicted ==> Attested(r.content.claims[i].evidenceIds))
    {
      ClaimIsClean(r.content.claims[i]);
    }
    forall i | 0 <= i < |r.content.clauses|
      ensures RowClean(ClausesJson(r.content.clauses)[i], "PROMISE_BROKEN") <==>
              (r.content.clauses[i].verdict == PromiseBroken ==> Attested(r.content.clauses[i].evidenceIds))
    {
      ClauseIsClean(r.content.clauses[i]);
    }
  }

  /** Condemning rows that cite evidence make a receipt clean under the doctrine. */
  lemma CitedRowsAreClean(r: Receipt)
    requires forall c :: c in r.content.claims && c.verdict == Contradicted ==>
               c.evidenceIds != [] && forall id :: id in c.evidenceIds ==> !IsBlank(id)
    requires forall c :: c in r.content.clauses && c.verdict == PromiseBroken ==>
               c.evidenceIds != [] && forall id :: id in c.evidenceIds ==> !IsBlank(id)
    ensures DoctrineClean(ReceiptFields(r))
  {
    DoctrineExactly(r);
    forall c | c in r.content.claims && c.verdict == Contradicted ensures Attested(c.evidenceIds) {
      assert c.evidenceIds[0] in c.evidenceIds;
    }
    forall c | c in r.content.clauses && c.verdict == PromiseBroken ensures Attested(c.evidenceIds) {
      assert c.evidenceIds[0] in c.evidenceIds;
    }
  }

  /** The schema and the cross-field invariants together imply the doctrine on the raw JSON. */
  lemma InvariantsImplyDoctrine(w: World, r: Receipt)
    requires ShapeHolds(r) && InvariantsHold(w, r.content)
    ensures DoctrineClean(ReceiptFields(r))
  {
    CitedRowsAreClean(r);
  }

  lemma ClaimNames(v: ClaimVerdict)
    ensures ClaimName(v) == "CONTRADICTED" <==> v == Contradicted
  {
    assert |"UNSUPPORTED"| == 11 && |"CONTRADICTED"| == 12 && |"VERIFIED"| == 8;
  }

  lemma ClauseNames(v: ClauseVerdict)
    ensures ClauseName(v) == "PROMISE_BROKEN" <==> v == PromiseBroken
  {
    assert |"UNEVALUATED"| == 11 && |"PROMISE_BROKEN"| == 14 && |"KEPT"| == 4;
  }

  function ReceiptText(r: Receipt): string {
    Print(Obj(ReceiptFields(r)))
  }

  function LedgerTextOf(w: World, ledger: seq<Event>): string {
    Serialize(Written(w.events, ledger))
  }

  lemma WrittenHead(w: World, ledger: seq<Event>)
    requires Honest(w) && ledger != [] && w.events.admits(ledger[|ledger| - 1])
    ensures LastHash(Written(w.events, ledger)) == Some(ledger[|ledger| - 1].hash)
  {
    var values, last := Written(w.events, ledger), |ledger| - 1;
    assert w.events.read(values[last]) == Some(ledger[last]);
  }

  lemma WrittenReads(w: World, ledger: seq<Event>)
    requires Honest(w) && ledger != [] && forall i :: 0 <= i < |ledger| ==> w.events.admits(ledger[i])
    ensures var values := Written(w.events, ledger);
      && ParsedOf(LinesOf(Serialize(values))) == Parsed(values, false, [])
      && LastHash(values) == Some(ledger[|ledger| - 1].hash)
  {
    WrittenHead(w, ledger);
    ParseSerialized(Written(w.events, ledger));
  }

  /** What `BuildReceipt` establishes of the receipt it returns. */
  ghost predicate Built(w: World, r: Receipt, ledger: seq<Event>) {
    Binds(w, r.content, ledger) && SelfCheck(w, r)
  }

  /** A raw receipt that carries exactly what `r` was built with. */
  ghost predicate Carries(w: World, rec: seq<Field>, r: Receipt) {
    && rec == ReceiptFields(r) && w.readReceipt(Obj(rec)) == Some(r)
    && Lookup(rec, "signature") == Some(r.signature) && Without(rec, "signature") == UnsignedFields(r.content)
    && ReadString(rec, "ledger_binding", "ledger_sha256") == Some(r.content.binding.ledgerSha256)
    && ReadString(rec, "ledger_binding", "head_event_hash") == Some(r.content.binding.headEventHash)
    && ReadNumber(w, rec, "ledger_binding", "event_count") == Some(r.content.binding.eventCount)
  }

  lemma TextCarries(w: World, r: Receipt) returns (rec: seq<Field>)
    requires Honest(w) && w.admits(r)
    ensures Parsed'(Some(ReceiptText(r))) == Some(rec) && Carries(w, rec, r)
  {
    rec := ReceiptFields(r);
    ParsePrint(Obj(rec));
    ReceiptLookups(r);
    BindingReads(w, r);
  }

  /** What a check asks of a receipt that the schema admits, against the text of a ledger. */
  ghost predicate Attests(w: World, id: CheckId, r: Receipt, ledger: seq<Event>) {
    match id
    case ParseCheck => true
    case SchemaCheck => true
    case InvariantsCheck => InvariantsHold(w, r.content)
    case DoctrineCheck =>
      && (forall i :: 0 <= i < |r.content.claims| && r.content.claims[i].verdict == Contradicted ==>
            Attested(r.content.claims[i].evidenceIds))
      && (forall i :: 0 <= i < |r.content.clauses| && r.content.clauses[i].verdict == PromiseBroken ==>
            Attested(r.content.clauses[i].evidenceIds))
    case SignatureCheck => w.verify(UnsignedFields(r.content), r.signature)
    case LedgerHash => r.content.binding.ledgerSha256 == w.textHash(LedgerTextOf(w, ledger))
    case LedgerHead =>
      && ledger != [] && r.content.binding.headEventHash == ledger[|ledger| - 1].hash
      && r.content.binding.eventCount == |ledger|
    case LedgerChain => RecoversValid(w.events, w.hash, Written(w.events, ledger), NO_OPTIONS)
  }

  lemma HeadAttests(w: World, rec: seq<Field>, r: Receipt, text: string, values: seq<J>, ledger: seq<Event>)
    requires Carries(w, rec, r) && ledger != [] && |values| == |ledger|
    requires ParsedOf(LinesOf(text)).events == values && LastHash(values) == Some(ledger[|ledger| - 1].hash)
    ensures PassesOn(w, LedgerHead, rec, Some(text)) <==> Attests(w, LedgerHead, r, ledger)
  {}

  lemma ShallowAttests(w: World, rec: seq<Field>, r: Receipt, text: Option<string>, ledger: seq<Event>, id: CheckId)
    requires Carries(w, rec, r) && id in SHALLOW
    ensures PassesOn(w, id, rec, text) <==> Attests(w, id, r, ledger)
  {
    DoctrineExactly(r);
  }

  /** Of any admitted receipt and any ledger each check passes exactly when what it attests is so. */
  lemma ChecksExactly(w: World, r: Receipt, ledger: seq<Event>, id: CheckId)
    requires Honest(w) && w.admits(r)
    requires ledger != [] && forall i :: 0 <= i < |ledger| ==> w.events.admits(ledger[i])
    ensures Passes(w, id, Some(ReceiptText(r)), Some(LedgerTextOf(w, ledger))) <==> Attests(w, id, r, ledger)
  {
    var text, values := LedgerTextOf(w, ledger), Written(w.events, ledger);
    WrittenReads(w, ledger);
    if id == LedgerChain {
      assert CutOptions(text, None) == NO_OPTIONS;
    } else {
      var rec := TextCarries(w, r);
      if id == LedgerHash {
        CarriedHash(w, rec, r, text);
      } else if id == LedgerHead {
        HeadAttests(w, rec, r, text, values, ledger);
      } else {
        ShallowAttests(w, rec, r, Some(text), ledger, id);
      }
    }
  }

  /**
   * A receipt that was built over a ledger passes every check against that ledger's text, except
   * that the chain check passes exactly when the ledger recovers as valid.
   */
  lemma BuiltReceiptVerifies(w: World, r: Receipt, ledger: seq<Event>, id: CheckId)
    requires Honest(w) && Built(w, r, ledger)
    requires forall i :: 0 <= i < |ledger| ==> w.events.admits(ledger[i])
    ensures Passes(w, id, Some(ReceiptText(r)), Some(LedgerTextOf(w, ledger))) <==>
            (id != LedgerChain || RecoversValid(w.events, w.hash, Written(w.events, ledger), NO_OPTIONS))
  {
    ChecksExactly(w, r, ledger, id);
    InvariantsImplyDoctrine(w, r);
    DoctrineExactly(r);
  }

  lemma HashCheckComparesHashes(w: World, r: Receipt, text: string)
    requires Honest(w) && w.admits(r)
    ensures Passes(w, LedgerHash, Some(ReceiptText(r)), Some(text)) <==>
              w.textHash(text) == r.content.binding.ledgerSha256
  {
    var rec := TextCarries(w, r);
    CarriedHash(w, rec, r, text);
  }

  lemma CarriedHash(w: World, rec: seq<Field>, r: Receipt, text: string)
    requires Carries(w, rec, r)
    ensures PassesOn(w, LedgerHash, rec, Some(text)) <==> w.textHash(text) == r.content.binding.ledgerSha256
  {}

  ghost predicate InjectiveText(f: string -> string) {
    forall a, b :: f(a) == f(b) ==> a == b
  }

  /** Under an injective text hash, only the bound bytes pass the hash check. */
  lemma OnlyTheBoundBytes(w: World, r: Receipt, ledger: seq<Event>, text: string)
    requires Honest(w) && Built(w, r, ledger) && InjectiveText(w.textHash)
    ensures Passes(w, LedgerHash, Some(ReceiptText(r)), Some(text)) <==> text == LedgerTextOf(w, ledger)
  {
    HashCheckComparesHashes(w, r, text);
  }

  /**
   * Without looking at the bytes at all: under an injective event hash, two ledger texts that pass
   * the head and chain checks of one receipt text hold the same events.
   */
  lemma OneLedgerPerReceipt(w: World, text: string, a: string, b: string)
    requires Honest(w) && Injective(w.hash)
    requires Passes(w, LedgerHead, Some(text), Some(a)) && Passes(w, LedgerChain, Some(text), Some(a))
    requires Passes(w, LedgerHead, Some(text), Some(b)) && Passes(w, LedgerChain, Some(text), Some(b))
    ensures Readable(w.events, ParsedOf(LinesOf(a)).events) == Readable(w.events, ParsedOf(LinesOf(b)).events)
  {
    var left, right := ParsedOf(LinesOf(a)).events, ParsedOf(LinesOf(b)).events;
    SoundHead(w, left);
    SoundHead(w, right);
    HeadDetermines(w.hash, Readable(w.events, left), Readable(w.events, right));
  }

  lemma SoundHead(w: World, raw: seq<J>)
    requires Honest(w) && Sound(w.events, w.hash, raw) && raw != []
    ensures var events := Readable(w.events, raw);
      && HeadHash(events) == LastHash(raw)
      && forall i :: 0 <= i < |events| ==> LinkedAt(w.hash, events, i)
  {
    SoundIsLinked(w.events, w.hash, raw, |raw|);
    ReadableAll(w.events, raw);
  }
}
