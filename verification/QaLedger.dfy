/** The QA evidence ledger: every step that writes assurance evidence, and the gate that reads it.

    Jobs and evidence rows are identified by their position in their table. */
module QaLedger {
  import opened Prelude
  import opened Jobs
  import opened QaTypes
  import opened JobIds

  datatype Job = Job(
    humanId: Name, project: Name, queue: Queue, role: Queue, status: JobStatus, outcome: Outcome,
    candidate: Option<Name>, base: Option<Name>, sourceSha: Option<Name>, sourceJob: Option<nat>)

  datatype Row = Row(
    project: Name, delivery: nat, job: nat, candidate: Name, role: Queue, run: Option<Name>, result: QaResult)

  datatype Ledger = Ledger(jobs: seq<Job>, rows: seq<Row>)

  datatype AssuranceVerdict = VERDICT_PASS | VERDICT_FAIL | VERDICT_INCONCLUSIVE | InvalidVerdict(text: string)

  /** What a worker reports.  `explained` says that findings or a summary are present. */
  datatype Report = Report(verdict: AssuranceVerdict, candidate: Name, job: Name, role: Queue, explained: bool)

  // ---------------------------------------------------------------------------
  // Single updates
  // ---------------------------------------------------------------------------

  predicate Matches(r: Row, job: nat, candidate: Name) {
    r.job == job && r.candidate == candidate
  }

  /** The first row of a job and candidate among the first `n`. */
  function FirstMatch(rows: seq<Row>, job: nat, candidate: Name, n: nat): Option<nat>
    requires n <= |rows|
    ensures FirstMatch(rows, job, candidate, n).Some? ==> FirstMatch(rows, job, candidate, n).value < n
  {
    if n == 0 then None
    else
      var first := FirstMatch(rows, job, candidate, n - 1);
      if first.None? && Matches(rows[n - 1], job, candidate) then Some(n - 1) else first
  }

  /** The guard looks at the first matching row only; the update then writes every matching row. */
  predicate MayUpdate(rows: seq<Row>, job: nat, candidate: Name, result: QaResult) {
    var first := FirstMatch(rows, job, candidate, |rows|);
    first.Some? && !(TerminalResult(rows[first.value].result) && rows[first.value].result != result)
  }

  function SetAll(rows: seq<Row>, job: nat, candidate: Name, result: QaResult): (r: seq<Row>)
    ensures |r| == |rows|
    ensures forall i :: 0 <= i < |rows| ==> r[i] == if Matches(rows[i], job, candidate) then rows[i].(result := result) else rows[i]
  {
    seq(|rows|, i requires 0 <= i < |rows| => if Matches(rows[i], job, candidate) then rows[i].(result := result) else rows[i])
  }

  function Updated(rows: seq<Row>, job: nat, candidate: Name, result: QaResult): seq<Row> {
    if MayUpdate(rows, job, candidate, result) then SetAll(rows, job, candidate, result) else rows
  }

  // ---------------------------------------------------------------------------
  // Hand-off and retries
  // ---------------------------------------------------------------------------

  predicate NameTaken(jobs: seq<Job>, id: Name) {
    exists j :: 0 <= j < |jobs| && jobs[j].humanId == id
  }

  function AssuranceJob(delivery: nat, d: Job, candidate: Name, queue: Queue): Job {
    Job(AssuranceId(d.humanId, queue), d.project, queue, queue, READY, NoOutcome, None,
        if queue == QA_MANAGER then None else Some(candidate), Some(candidate), Some(delivery))
  }

  const HANDOFF_QUEUES := REQUIRED + [QA_MANAGER]

  predicate HandOffAllowed(s: Ledger, delivery: nat, candidate: Name) {
    && delivery < |s.jobs|
    && s.jobs[delivery].base != Some(candidate) && !InvalidOutcome(s.jobs[delivery].outcome)
    && forall q :: q in HANDOFF_QUEUES ==> !NameTaken(s.jobs, AssuranceId(s.jobs[delivery].humanId, q))
  }

  /** Jobs and pending rows for the first `n` queues of a hand-off. */
  function Opened(s: Ledger, delivery: nat, candidate: Name, run: Option<Name>, n: nat): Ledger
    requires delivery < |s.jobs| && n <= |HANDOFF_QUEUES|
  {
    if n == 0 then s
    else
      var t := Opened(s, delivery, candidate, run, n - 1);
      var q := HANDOFF_QUEUES[n - 1];
      Ledger(t.jobs + [AssuranceJob(delivery, s.jobs[delivery], candidate, q)],
             t.rows + [Row(s.jobs[delivery].project, delivery, |t.jobs|, candidate, q, run, PENDING)])
  }

  function HandedOff(s: Ledger, delivery: nat, candidate: Name, run: Option<Name>): Ledger {
    if HandOffAllowed(s, delivery, candidate) then Opened(s, delivery, candidate, run, |HANDOFF_QUEUES|) else s
  }

  function Retried(s: Ledger, run: Name, candidate: Name, role: Queue, producer: nat, attempt: nat): Ledger {
    if producer >= |s.jobs| || NameTaken(s.jobs, RetryId(run, candidate, role, attempt)) then s
    else
      Ledger(
        s.jobs + [Job(RetryId(run, candidate, role, attempt), s.jobs[producer].project, role, role, READY, NoOutcome, None,
                      Some(candidate), Some(candidate), Some(producer))],
        s.rows + [Row(s.jobs[producer].project, producer, |s.jobs|, candidate, role, Some(run), PENDING)])
  }

  // ---------------------------------------------------------------------------
  // Recording
  // ---------------------------------------------------------------------------

  predicate CodeModifying(q: Queue) {
    q in {DELIVERY, ARCHITECTURE, INTEGRATION}
  }

  /** Only independent assurance jobs with a source candidate may record. */
  predicate MayRecord(j: Job) {
    IsAssessor(j.queue) && !CodeModifying(j.role) && j.sourceSha.Some?
  }

  /** The delivery under assurance has produced another candidate since. */
  predicate MovedOn(s: Ledger, j: Job)
    requires j.sourceSha.Some?
  {
    && j.sourceJob.Some? && j.sourceJob.value < |s.jobs|
    && s.jobs[j.sourceJob.value].candidate.Some? && s.jobs[j.sourceJob.value].candidate != j.sourceSha
  }

  /** Server-side validation of a worker's report. */
  predicate Valid(r: Report, j: Job) {
    && !r.verdict.InvalidVerdict?
    && (if j.sourceSha.Some? then j.sourceSha == Some(r.candidate) else j.base == Some(r.candidate))
    && r.job == j.humanId && r.role == j.queue
    && (r.verdict.VERDICT_FAIL? ==> r.explained)
  }

  function ResultOf(v: AssuranceVerdict): QaResult {
    match v
    case VERDICT_PASS => PASS
    case VERDICT_FAIL => FAIL
    case _ => INCONCLUSIVE
  }

  /** The evidence a worker's output, parsed or not, amounts to: stale evidence is rejected first, an
      invalid or missing report is inconclusive, and a valid one sets its verdict. */
  function RecordedResult(s: Ledger, j: Job, report: Option<Report>): QaResult
    requires j.sourceSha.Some?
  {
    if MovedOn(s, j) then STALE_REJECTED
    else if report.Some? && Valid(report.value, j) then ResultOf(report.value.verdict)
    else INCONCLUSIVE
  }

  function Recorded(s: Ledger, job: nat, report: Option<Report>): Ledger {
    if job >= |s.jobs| || !MayRecord(s.jobs[job]) then s
    else
      var j := s.jobs[job];
      s.(rows := Updated(s.rows, job, j.sourceSha.value, RecordedResult(s, j, report)))
  }

  // ---------------------------------------------------------------------------
  // Aggregation and cancellation
  // ---------------------------------------------------------------------------

  /** A selection of evidence rows: the gate's scope, or the assessors of a delivery's candidate. */
  datatype Scope =
    | GateScope(project: Name, sha: Option<Name>, run: Option<Name>)
    | Assessors(delivery: nat, candidate: Name)

  predicate InScope(r: Row, scope: Scope) {
    match scope
    case GateScope(project, sha, run) =>
      r.project == project && (sha.Some? ==> r.candidate == sha.value) && (run.Some? ==> r.run == run)
    case Assessors(delivery, candidate) => r.delivery == delivery && r.candidate == candidate && r.role in REQUIRED
  }

  function Results(rows: seq<Row>, scope: Scope): seq<QaResult> {
    if rows == [] then []
    else
      var last := rows[|rows| - 1];
      Results(rows[..|rows| - 1], scope) + if InScope(last, scope) then [last.result] else []
  }

  /** The manager's verdict on a list of recorded results. */
  function Aggregate(results: seq<QaResult>): QaResult {
    if FAIL in results || STALE_REJECTED in results then FAIL
    else if INCONCLUSIVE in results then INCONCLUSIVE
    else if PENDING in results || results == [] then PENDING
    else if forall r :: r in results ==> r == PASS then PASS
    else PENDING
  }

  predicate RolePresent(rows: seq<Row>, scope: Scope, role: Queue) {
    exists i :: 0 <= i < |rows| && InScope(rows[i], scope) && rows[i].role == role
  }

  /** The candidate a manager's job is about. */
  function Subject(j: Job): Option<Name> {
    if j.sourceSha.Some? then j.sourceSha else j.base
  }

  function Aggregated(s: Ledger, job: nat): Ledger {
    if job >= |s.jobs| || s.jobs[job].queue != QA_MANAGER || Subject(s.jobs[job]).None? || s.jobs[job].sourceJob.None? then s
    else
      var scope := Assessors(s.jobs[job].sourceJob.value, Subject(s.jobs[job]).value);
      if exists role :: role in REQUIRED && !RolePresent(s.rows, scope, role) then s
      else s.(rows := Updated(s.rows, job, scope.candidate, Aggregate(Results(s.rows, scope))))
  }

  function CancelRow(r: Row, delivery: nat): Row {
    if r.delivery == delivery && r.result == PENDING then r.(result := STALE_REJECTED) else r
  }

  /** The job is assured against the delivery, or its id matches the pattern for derived ids. */
  predicate Derived(j: Job, delivery: nat, id: Name) {
    j.humanId != id && (j.sourceJob == Some(delivery) || Like(DerivedPattern(id), j.humanId.text))
  }

  predicate Cancellable(s: JobStatus) {
    s !in {CANCELLED, SUCCEEDED, FAILED, BLOCKED}
  }

  function CancelJob(j: Job, delivery: nat, id: Name): Job {
    if Derived(j, delivery, id) && Cancellable(j.status) then j.(status := CANCELLED) else j
  }

  function Cancelled(s: Ledger, delivery: nat): (r: Ledger)
    requires delivery < |s.jobs|
    ensures |r.jobs| == |s.jobs|
    ensures forall i :: 0 <= i < |s.jobs| ==> r.jobs[i] == CancelJob(s.jobs[i], delivery, s.jobs[delivery].humanId)
    ensures |r.rows| == |s.rows| && forall i :: 0 <= i < |s.rows| ==> r.rows[i] == CancelRow(s.rows[i], delivery)
  {
    Ledger(seq(|s.jobs|, i requires 0 <= i < |s.jobs| => CancelJob(s.jobs[i], delivery, s.jobs[delivery].humanId)),
           seq(|s.rows|, i requires 0 <= i < |s.rows| => CancelRow(s.rows[i], delivery)))
  }

  // ---------------------------------------------------------------------------
  // Runs
  // ---------------------------------------------------------------------------

  datatype Step =
    | NewJob(name: Name, project: Name, queue: Queue, base: Option<Name>)
    | Work(job: nat, status: JobStatus, outcome: Outcome, produced: Option<Name>)
    | HandOff(delivery: nat, candidate: Name, run: Option<Name>)
    | Retry(retryRun: Name, candidate: Name, role: Queue, producer: nat, attempt: nat)
    | Record(job: nat, report: Option<Report>)
    | AggregateBy(job: nat)
    | Cancel(delivery: nat)

  function Apply(s: Ledger, step: Step): Ledger {
    match step
    case NewJob(name, project, queue, base) =>
      if NameTaken(s.jobs, name) then s
      else s.(jobs := s.jobs + [Job(name, project, queue, queue, READY, NoOutcome, None, base, None, None)])
    case Work(job, status, outcome, candidate) =>
      if job >= |s.jobs| then s
      else s.(jobs := s.jobs[job := s.jobs[job].(status := status, outcome := outcome, candidate := candidate)])
    case HandOff(delivery, candidate, run) => HandedOff(s, delivery, candidate, run)
    case Retry(run, candidate, role, producer, attempt) => Retried(s, run, candidate, role, producer, attempt)
    case Record(job, report) => Recorded(s, job, report)
    case AggregateBy(job) => Aggregated(s, job)
    case Cancel(delivery) => if delivery < |s.jobs| then Cancelled(s, delivery) else s
  }

  const EMPTY_LEDGER := Ledger([], [])

  function Run(steps: seq<Step>): Ledger {
    if steps == [] then EMPTY_LEDGER else Apply(Run(steps[..|steps| - 1]), steps[|steps| - 1])
  }

  // ---------------------------------------------------------------------------
  // The gate
  // ---------------------------------------------------------------------------

  datatype Gate = GATE_FAILED | GATE_INCONCLUSIVE | GATE_PASSED | GATE_PENDING

  /** What the gate means: one bad row fails it, otherwise one inconclusive row makes it
      inconclusive, and it passes only when there is evidence and all of it passed. */
  function GateOf(results: seq<QaResult>): Gate {
    if FAIL in results || STALE_REJECTED in results then GATE_FAILED
    else if INCONCLUSIVE in results then GATE_INCONCLUSIVE
    else if results != [] && forall r :: r in results ==> r == PASS then GATE_PASSED
    else GATE_PENDING
  }

  function GateFor(s: Ledger, project: Name, sha: Option<Name>, run: Option<Name>): Gate {
    GateOf(Results(s.rows, GateScope(project, sha, run)))
  }

  datatype GateFacts = GateFacts(total: nat, completed: nat, needAttention: nat, pending: nat, inconclusive: nat, gate: Gate)

  /** Sorts the rows in scope into four lists and reads the gate off them. */
  method CollectGateFacts(rows: seq<Row>, scope: Scope) returns (facts: GateFacts)
    ensures facts.gate == GateOf(Results(rows, scope))
    ensures facts.total == facts.completed + facts.needAttention + facts.pending + facts.inconclusive == |Results(rows, scope)|
    ensures Classified(Results(rows, scope), facts.completed, facts.needAttention, facts.pending, facts.inconclusive)
    ensures facts.gate == GATE_PASSED <==> facts.total > 0 && facts.completed == facts.total
  {
    var passed: seq<Row>, failed: seq<Row>, pending: seq<Row>, inconclusive: seq<Row> := [], [], [], [];
    var total := 0;
    for n := 0 to |rows|
      invariant total == |Results(rows[..n], scope)|
      invariant Classified(Results(rows[..n], scope), |passed|, |failed|, |pending|, |inconclusive|)
    {
      var r := rows[n];
      assert rows[..n + 1][..n] == rows[..n];
      ClassifiedStep(Results(rows[..n], scope), r.result, |passed|, |failed|, |pending|, |inconclusive|);
      if InScope(r, scope) {
        total := total + 1;
        if r.result in {FAIL, STALE_REJECTED} {
          failed := failed + [r];
        } else if r.result == PASS {
          passed := passed + [r];
        } else if r.result == INCONCLUSIVE {
          inconclusive := inconclusive + [r];
        } else {
          pending := pending + [r];
        }
      }
    }
    assert rows[..|rows|] == rows;
    var gate :=
      if failed != [] then GATE_FAILED
      else if inconclusive != [] then GATE_INCONCLUSIVE
      else if total > 0 && pending == [] && |passed| == total then GATE_PASSED
      else GATE_PENDING;
    GateFromCounts(Results(rows, scope), |passed|, |failed|, |pending|, |inconclusive|);
    facts := GateFacts(total, |passed|, |failed|, |pending|, |inconclusive|, gate);
  }

  lemma GateFromCounts(results: seq<QaResult>, passed: nat, failed: nat, pending: nat, inconclusive: nat)
    requires Classified(results, passed, failed, pending, inconclusive)
    ensures GateOf(results) ==
      if failed > 0 then GATE_FAILED
      else if inconclusive > 0 then GATE_INCONCLUSIVE
      else if |results| > 0 && passed == |results| then GATE_PASSED
      else GATE_PENDING
  {
    OnlyPasses(results);
    assert forall x :: x in results <==> multiset(results)[x] > 0;
  }

  /** The lengths of the four lists account for the results, kind by kind. */
  ghost predicate Classified(results: seq<QaResult>, passed: nat, failed: nat, pending: nat, inconclusive: nat) {
    && |results| == passed + failed + pending + inconclusive
    && failed == multiset(results)[FAIL] + multiset(results)[STALE_REJECTED]
    && inconclusive == multiset(results)[INCONCLUSIVE]
    && pending == multiset(results)[PENDING]
    && passed == multiset(results)[PASS]
  }

  lemma ClassifiedStep(results: seq<QaResult>, r: QaResult, passed: nat, failed: nat, pending: nat, inconclusive: nat)
    requires Classified(results, passed, failed, pending, inconclusive)
    ensures Classified(results + [r],
      passed + if r == PASS then 1 else 0, failed + if r in {FAIL, STALE_REJECTED} then 1 else 0,
      pending + if r == PENDING then 1 else 0, inconclusive + if r == INCONCLUSIVE then 1 else 0)
  {
    assert multiset(results + [r]) == multiset(results) + multiset{r};
  }

  lemma OnlyPasses(results: seq<QaResult>)
    ensures (forall r :: r in results ==> r == PASS) <==>
      FAIL !in results && STALE_REJECTED !in results && INCONCLUSIVE !in results && PENDING !in results
  {
  }

  // ---------------------------------------------------------------------------
  // The manager is not a fifth verdict
  // ---------------------------------------------------------------------------

  function GateOfResult(r: QaResult): Gate {
    match r
    case FAIL => GATE_FAILED
    case STALE_REJECTED => GATE_FAILED
    case INCONCLUSIVE => GATE_INCONCLUSIVE
    case PASS => GATE_PASSED
    case PENDING => GATE_PENDING
  }

  /** The manager's aggregate agrees with the gate on every list of results, and adding the
      manager's own row carrying that aggregate never changes the gate. */
  lemma ManagerAgreesWithGate(results: seq<QaResult>)
    ensures GateOfResult(Aggregate(results)) == GateOf(results)
    ensures GateOf(results + [Aggregate(results)]) == GateOf(results)
  {
    OnlyPasses(results);
    var more := results + [Aggregate(results)];
    OnlyPasses(more);
    assert forall r :: r in more <==> r in results || r == Aggregate(results);
  }
}
