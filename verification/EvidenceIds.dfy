/** The ids of evidence: `ev_` and the position, padded to four digits (src/verdicts.ts, line 248). */
module EvidenceIds {
  import opened Decimal

  function EvidenceId(n: nat): string {
    ['e', 'v', '_'] + PadStart(Digits(n), 4)
  }

  lemma EvidenceIdsDiffer(m: nat, n: nat)
    requires EvidenceId(m) == EvidenceId(n)
    ensures m == n
  {
    assert EvidenceId(m)[3..] == PadStart(Digits(m), 4) && EvidenceId(n)[3..] == PadStart(Digits(n), 4);
    ValueOfPadded(Digits(m), 4);
    ValueOfPadded(Digits(n), 4);
    ValueOfDigits(m);
    ValueOfDigits(n);
  }
}
