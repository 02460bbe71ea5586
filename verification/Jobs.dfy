/** Queues and statuses of orchestration jobs. */
module Jobs {

  datatype Queue =
    | PM | ARCHITECTURE | DELIVERY
    | ASSURANCE_FUNCTIONAL | ASSURANCE_INTEGRATION | ASSURANCE_SECURITY | ASSURANCE_QUALITY
    | QA_MANAGER | RELEASE | INTEGRATION
    | UnknownQueue(text: string)

  datatype JobStatus =
    | QUEUED | READY | LEASED | RUNNING | SUCCEEDED | FAILED | BLOCKED | RETRY_WAIT | CANCELLED

  datatype Outcome = NoOutcome | INVALIDATED | SUPERSEDED | NO_CHANGE | OtherOutcome(text: string)

  /** Outcomes that disqualify a SUCCEEDED job. */
  predicate InvalidOutcome(o: Outcome) {
    o in {INVALIDATED, SUPERSEDED, NO_CHANGE}
  }

  /** Statuses of remediation work. */
  datatype WorkStatus = WORK_ASSIGNED | WORK_RUNNING | WORK_COMPLETED | WORK_FAILED | WORK_BLOCKED | WORK_PENDING
}
