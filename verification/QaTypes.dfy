/** Assurance results and the roles that must report one. */
module QaTypes {
  import opened Jobs

  datatype QaResult = PENDING | PASS | FAIL | STALE_REJECTED | INCONCLUSIVE

  predicate TerminalResult(r: QaResult) {
    r in {PASS, FAIL, STALE_REJECTED, INCONCLUSIVE}
  }

  /** Every result but pending is terminal. */
  lemma TerminalIffNotPending(r: QaResult)
    ensures TerminalResult(r) <==> r != PENDING
  {
    match r
    case PENDING =>
    case PASS =>
    case FAIL =>
    case STALE_REJECTED =>
    case INCONCLUSIVE =>
  }

  const REQUIRED := [ASSURANCE_FUNCTIONAL, ASSURANCE_INTEGRATION, ASSURANCE_SECURITY, ASSURANCE_QUALITY]

  predicate IsAssessor(q: Queue) {
    q in {ASSURANCE_FUNCTIONAL, ASSURANCE_INTEGRATION, ASSURANCE_SECURITY, ASSURANCE_QUALITY}
  }

  lemma RequiredAreAssessors(q: Queue)
    ensures q in REQUIRED <==> IsAssessor(q)
  {
  }
}
