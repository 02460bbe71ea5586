/** Run statuses, outcomes and the events that announce them. */
module RunStates {
  import opened Prelude

  datatype RunStatus =
    | PLANNING | WAITING_APPROVAL | WAITING_FOR_SPONSOR | ACTIVE
    | CLOSED_COMPLETED | CLOSED_BLOCKED | CLOSED_FAILED | CLOSED_CANCELLED | CLOSED_ESCALATED

  predicate TerminalStatus(s: RunStatus) {
    s in {CLOSED_COMPLETED, CLOSED_BLOCKED, CLOSED_FAILED, CLOSED_CANCELLED, CLOSED_ESCALATED}
  }

  /** The business outcomes a run can be closed with. */
  datatype RunOutcome =
    | SUCCESS | SPONSOR_DECISION_REQUIRED | UNRECOVERABLE_TECHNICAL | MAX_REMEDIATION_EXCEEDED | CANCELLED_BY_SPONSOR

  datatype EventType =
    | RUN_COMPLETED | RUN_BLOCKED | RUN_ESCALATED | RUN_CANCELLED | RUN_FAILED
    | AWAITING_SPONSOR | DECISION_REQUESTED | RELEASE_PUBLISHED | SPONSOR_OUTCOME_INCOMPLETE
    | OtherEvent(text: string)

  /** The events that count as closing a run, the legacy RUN_FAILED included. */
  predicate Closing(t: EventType) {
    t in {RUN_COMPLETED, RUN_BLOCKED, RUN_ESCALATED, RUN_CANCELLED, RUN_FAILED}
  }

  function EventFor(o: RunOutcome): EventType {
    match o
    case SUCCESS => RUN_COMPLETED
    case SPONSOR_DECISION_REQUIRED => AWAITING_SPONSOR
    case UNRECOVERABLE_TECHNICAL => RUN_BLOCKED
    case MAX_REMEDIATION_EXCEEDED => RUN_ESCALATED
    case CANCELLED_BY_SPONSOR => RUN_CANCELLED
  }

  function StatusFor(o: RunOutcome): RunStatus {
    match o
    case SUCCESS => CLOSED_COMPLETED
    case SPONSOR_DECISION_REQUIRED => WAITING_FOR_SPONSOR
    case UNRECOVERABLE_TECHNICAL => CLOSED_BLOCKED
    case MAX_REMEDIATION_EXCEEDED => CLOSED_ESCALATED
    case CANCELLED_BY_SPONSOR => CLOSED_CANCELLED
  }

  /** The outcome taxonomy is consistent: one event per outcome, and an outcome closes the run by
      its event exactly when it closes it by its status. */
  lemma OutcomesAreConsistent(o: RunOutcome, o': RunOutcome)
    ensures Closing(EventFor(o)) <==> TerminalStatus(StatusFor(o))
    ensures Closing(EventFor(o)) <==> o != SPONSOR_DECISION_REQUIRED
    ensures EventFor(o) == EventFor(o') ==> o == o'
  {
  }
}
