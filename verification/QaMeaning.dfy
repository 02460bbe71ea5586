/** What the ledger's steps and its gate mean, column by column. */
module QaMeaning {
  import opened Prelude
  import opened Jobs
  import opened QaTypes
  import opened JobIds
  import opened QaLedger
  import opened QaProperties

  // ---------------------------------------------------------------------------
  // Recording a worker's output
  // ---------------------------------------------------------------------------

  /** The delivery has produced another candidate than the one the row is about. */
  predicate Overtaken(s: Ledger, r: Row)
    requires r.delivery < |s.jobs|
  {
    s.jobs[r.delivery].candidate.Some? && s.jobs[r.delivery].candidate.value != r.candidate
  }

  /** The report names this row's job, role and candidate. */
  predicate IsAbout(report: Report, s: Ledger, r: Row)
    requires r.job < |s.jobs|
  {
    report.job == s.jobs[r.job].humanId && report.role == r.role && report.candidate == r.candidate
  }

  /** What an assessor's output sets its pending row to. */
  ghost predicate Sets(s: Ledger, r: Row, report: Option<Report>, result: QaResult)
    requires r.job < |s.jobs| && r.delivery < |s.jobs|
  {
    match result
    case STALE_REJECTED => Overtaken(s, r)
    case PASS => !Overtaken(s, r) && report.Some? && IsAbout(report.value, s, r) && report.value.verdict == VERDICT_PASS
    case FAIL => !Overtaken(s, r) && report.Some? && IsAbout(report.value, s, r) && report.value.verdict == VERDICT_FAIL && report.value.explained
    case INCONCLUSIVE =>
      && !Overtaken(s, r)
      && (|| report.None? || !IsAbout(report.value, s, r)
          || report.value.verdict == VERDICT_INCONCLUSIVE || report.value.verdict.InvalidVerdict?
          || (report.value.verdict == VERDICT_FAIL && !report.value.explained))
    case PENDING => false
  }

  lemma OnlyRowOfJob(s: Ledger, i: nat)
    requires Inv(s) && i < |s.rows|
    ensures FirstMatch(s.rows, s.rows[i].job, s.rows[i].candidate, |s.rows|) == Some(i)
    ensures forall k :: 0 <= k < |s.rows| && Matches(s.rows[k], s.rows[i].job, s.rows[i].candidate) ==> k == i
  {
    var r := s.rows[i];
    FirstMatchIs(s.rows, r.job, r.candidate, |s.rows|);
    assert Matches(r, r.job, r.candidate);
    assert forall k :: 0 <= k < |s.rows| && s.rows[k].job == r.job ==> k == i;
  }

  /** Recording touches one row: an assessor's pending row takes exactly the result its output calls for,
      and every other row stays. */
  lemma RecordingSets(s: Ledger, i: nat, report: Option<Report>)
    requires Inv(s) && i < |s.rows| && IsAssessor(s.rows[i].role) && s.rows[i].result == PENDING
    ensures
      var t := Apply(s, Record(s.rows[i].job, report));
      && t.jobs == s.jobs && |t.rows| == |s.rows|
      && (forall k :: 0 <= k < |s.rows| && k != i ==> t.rows[k] == s.rows[k])
      && RowOfJob(s, s.rows[i]) && Sets(s, s.rows[i], report, t.rows[i].result) && t.rows[i] == s.rows[i].(result := t.rows[i].result)
  {
    assert RowOfJob(s, s.rows[i]);
    OnlyRowOfJob(s, i);
  }

  /** Only assessors record: output of any other job, of one in a code-modifying role, or of one without a source
      candidate changes nothing. */
  lemma OthersDoNotRecord(s: Ledger, job: nat, report: Option<Report>)
    requires job < |s.jobs| ==>
      || s.jobs[job].queue !in {ASSURANCE_FUNCTIONAL, ASSURANCE_INTEGRATION, ASSURANCE_SECURITY, ASSURANCE_QUALITY}
      || s.jobs[job].role in {DELIVERY, ARCHITECTURE, INTEGRATION} || s.jobs[job].sourceSha == None
    ensures Apply(s, Record(job, report)) == s
  {
  }

  // ---------------------------------------------------------------------------
  // The gate
  // ---------------------------------------------------------------------------

  /** Evidence of the project, for the candidate and the run if they are given. */
  predicate Concerns(r: Row, project: Name, sha: Option<Name>, run: Option<Name>) {
    r.project == project && (sha == None || r.candidate == sha.value) && (run == None || r.run == run)
  }

  ghost predicate SomeResult(s: Ledger, project: Name, sha: Option<Name>, run: Option<Name>, x: QaResult) {
    exists i :: 0 <= i < |s.rows| && Concerns(s.rows[i], project, sha, run) && s.rows[i].result == x
  }

  lemma ResultConcerns(s: Ledger, project: Name, sha: Option<Name>, run: Option<Name>, x: QaResult)
    ensures x in Results(s.rows, GateScope(project, sha, run)) <==> SomeResult(s, project, sha, run, x)
  {
    ResultsHave(s.rows, GateScope(project, sha, run), x);
    assert forall i :: 0 <= i < |s.rows| ==> (InScope(s.rows[i], GateScope(project, sha, run)) <==> Concerns(s.rows[i], project, sha, run));
  }

  /** The gate in terms of the rows it concerns: one bad row fails it, otherwise one inconclusive row
      makes it inconclusive, otherwise one pending row, or none at all, keeps it pending. */
  lemma GateMeans(s: Ledger, project: Name, sha: Option<Name>, run: Option<Name>)
    ensures
      var bad := SomeResult(s, project, sha, run, FAIL) || SomeResult(s, project, sha, run, STALE_REJECTED);
      var open, unclear, good :=
        SomeResult(s, project, sha, run, PENDING), SomeResult(s, project, sha, run, INCONCLUSIVE), SomeResult(s, project, sha, run, PASS);
      && (GateFor(s, project, sha, run) == GATE_FAILED <==> bad)
      && (GateFor(s, project, sha, run) == GATE_INCONCLUSIVE <==> !bad && unclear)
      && (GateFor(s, project, sha, run) == GATE_PENDING <==> !bad && !unclear && (open || !good))
      && (GateFor(s, project, sha, run) == GATE_PASSED <==> !bad && !unclear && !open && good)
  {
    var results := Results(s.rows, GateScope(project, sha, run));
    ResultConcerns(s, project, sha, run, FAIL);
    ResultConcerns(s, project, sha, run, STALE_REJECTED);
    ResultConcerns(s, project, sha, run, PENDING);
    ResultConcerns(s, project, sha, run, INCONCLUSIVE);
    ResultConcerns(s, project, sha, run, PASS);
    OnlyPasses(results);
    assert results != [] ==> results[0] in results;
  }

  /** The manager writes what the gate over the delivery's assessor rows says: the worst result counts. */
  lemma AggregateMeans(s: Ledger, i: nat)
    requires Inv(s) && i < |s.rows| && s.rows[i].role == QA_MANAGER && s.rows[i].result == PENDING
    ensures
      var r, t := s.rows[i], Apply(s, AggregateBy(s.rows[i].job));
      && t.jobs == s.jobs && |t.rows| == |s.rows| && (forall k :: 0 <= k < |s.rows| && k != i ==> t.rows[k] == s.rows[k])
      && t.rows[i] == r.(result := t.rows[i].result)
      && (t.rows[i].result == PASS <==>
          EveryRole(s, r) && !Assessed(s, r, FAIL) && !Assessed(s, r, STALE_REJECTED) && !Assessed(s, r, INCONCLUSIVE) && !Assessed(s, r, PENDING))
      && (t.rows[i].result == FAIL <==> EveryRole(s, r) && (Assessed(s, r, FAIL) || Assessed(s, r, STALE_REJECTED)))
      && (t.rows[i].result == INCONCLUSIVE <==>
          EveryRole(s, r) && !Assessed(s, r, FAIL) && !Assessed(s, r, STALE_REJECTED) && Assessed(s, r, INCONCLUSIVE))
      && t.rows[i].result != STALE_REJECTED
  {
    var r := s.rows[i];
    AggregationSets(s, i);
    var scope := Assessors(r.delivery, r.candidate);
    AssessedResult(s, r, FAIL);
    AssessedResult(s, r, STALE_REJECTED);
    AssessedResult(s, r, INCONCLUSIVE);
    AssessedResult(s, r, PENDING);
    OnlyPasses(Results(s.rows, scope));
    RolesMean(s, r);
  }

  lemma AggregationSets(s: Ledger, i: nat)
    requires Inv(s) && i < |s.rows| && s.rows[i].role == QA_MANAGER && s.rows[i].result == PENDING
    ensures
      var r, t := s.rows[i], Apply(s, AggregateBy(s.rows[i].job));
      && t.jobs == s.jobs && |t.rows| == |s.rows| && (forall k :: 0 <= k < |s.rows| && k != i ==> t.rows[k] == s.rows[k])
      && t.rows[i] == r.(result := if EveryRole(s, r) then Aggregate(Results(s.rows, Assessors(r.delivery, r.candidate))) else PENDING)
  {
    assert RowOfJob(s, s.rows[i]);
    OnlyRowOfJob(s, i);
    RolesMean(s, s.rows[i]);
  }

  /** An assessor's row on the same delivery and candidate has the result. */
  ghost predicate Assessed(s: Ledger, m: Row, x: QaResult) {
    exists k :: 0 <= k < |s.rows| && AssessorRow(s.rows[k], m) && s.rows[k].result == x
  }

  predicate AssessorRow(r: Row, m: Row) {
    && r.delivery == m.delivery && r.candidate == m.candidate
    && r.role in {ASSURANCE_FUNCTIONAL, ASSURANCE_INTEGRATION, ASSURANCE_SECURITY, ASSURANCE_QUALITY}
  }

  ghost predicate RoleSeen(s: Ledger, m: Row, role: Queue) {
    exists k :: 0 <= k < |s.rows| && AssessorRow(s.rows[k], m) && s.rows[k].role == role
  }

  ghost predicate EveryRole(s: Ledger, m: Row) {
    && RoleSeen(s, m, ASSURANCE_FUNCTIONAL) && RoleSeen(s, m, ASSURANCE_INTEGRATION)
    && RoleSeen(s, m, ASSURANCE_SECURITY) && RoleSeen(s, m, ASSURANCE_QUALITY)
  }

  lemma AssessorScope(r: Row, m: Row)
    ensures InScope(r, Assessors(m.delivery, m.candidate)) <==> AssessorRow(r, m)
  {
    RequiredAreAssessors(r.role);
  }

  lemma AssessedResult(s: Ledger, m: Row, x: QaResult)
    ensures x in Results(s.rows, Assessors(m.delivery, m.candidate)) <==> Assessed(s, m, x)
  {
    ResultsHave(s.rows, Assessors(m.delivery, m.candidate), x);
    forall k | 0 <= k < |s.rows|
      ensures InScope(s.rows[k], Assessors(m.delivery, m.candidate)) <==> AssessorRow(s.rows[k], m)
    {
      AssessorScope(s.rows[k], m);
    }
  }

  lemma RolesMean(s: Ledger, m: Row)
    ensures (forall role :: role in REQUIRED ==> RolePresent(s.rows, Assessors(m.delivery, m.candidate), role)) <==> EveryRole(s, m)
    ensures EveryRole(s, m) ==> Results(s.rows, Assessors(m.delivery, m.candidate)) != []
  {
    RoleMeans(s, m, ASSURANCE_FUNCTIONAL);
    RoleMeans(s, m, ASSURANCE_INTEGRATION);
    RoleMeans(s, m, ASSURANCE_SECURITY);
    RoleMeans(s, m, ASSURANCE_QUALITY);
    if EveryRole(s, m) {
      var k :| 0 <= k < |s.rows| && AssessorRow(s.rows[k], m) && s.rows[k].role == ASSURANCE_FUNCTIONAL;
      AssessedResult(s, m, s.rows[k].result);
    }
    assert REQUIRED[0] == ASSURANCE_FUNCTIONAL && REQUIRED[1] == ASSURANCE_INTEGRATION && REQUIRED[2] == ASSURANCE_SECURITY && REQUIRED[3] == ASSURANCE_QUALITY;
  }

  lemma RoleMeans(s: Ledger, m: Row, role: Queue)
    ensures RolePresent(s.rows, Assessors(m.delivery, m.candidate), role) <==> RoleSeen(s, m, role)
  {
    forall k | 0 <= k < |s.rows|
      ensures InScope(s.rows[k], Assessors(m.delivery, m.candidate)) <==> AssessorRow(s.rows[k], m)
    {
      AssessorScope(s.rows[k], m);
    }
  }

  // ---------------------------------------------------------------------------
  // Hand-off, retry, cancellation
  // ---------------------------------------------------------------------------

  /** A hand-off is refused for the base commit itself, for a delivery with a disqualifying outcome, and
      when one of its job names is taken. */
  lemma HandOffRefusedIff(s: Ledger, delivery: nat, candidate: Name, run: Option<Name>)
    requires delivery < |s.jobs|
    ensures
      var d := s.jobs[delivery];
      Apply(s, HandOff(delivery, candidate, run)) == s <==>
        || d.base == Some(candidate) || d.outcome == INVALIDATED || d.outcome == SUPERSEDED || d.outcome == NO_CHANGE
        || exists q, j :: q in HANDOFF_QUEUES && 0 <= j < |s.jobs| && s.jobs[j].humanId == AssuranceId(d.humanId, q)
  {
    if HandOffAllowed(s, delivery, candidate) {
      OpenedSize(s, delivery, candidate, run, |HANDOFF_QUEUES|);
      assert |HANDOFF_QUEUES| == 5;
    }
  }

  lemma {:induction false} OpenedSize(s: Ledger, delivery: nat, candidate: Name, run: Option<Name>, n: nat)
    requires delivery < |s.jobs| && n <= |HANDOFF_QUEUES|
    ensures |Opened(s, delivery, candidate, run, n).jobs| == |s.jobs| + n
  {
    if n > 0 {
      OpenedSize(s, delivery, candidate, run, n - 1);
    }
  }

  /** The queues a hand-off opens, in order. */
  function Opens(k: nat): Queue {
    if k == 0 then ASSURANCE_FUNCTIONAL else if k == 1 then ASSURANCE_INTEGRATION
    else if k == 2 then ASSURANCE_SECURITY else if k == 3 then ASSURANCE_QUALITY else QA_MANAGER
  }

  /** A hand-off adds five READY jobs, four assessors and the manager, each tied to the delivery and the
      candidate, and one pending row for each. */
  lemma HandOffOpens(s: Ledger, delivery: nat, candidate: Name, run: Option<Name>, k: nat)
    requires Inv(s) && HandOffAllowed(s, delivery, candidate) && k < 5
    ensures
      var d, t := s.jobs[delivery], Apply(s, HandOff(delivery, candidate, run));
      && |t.jobs| == |s.jobs| + 5 && |t.rows| == |s.rows| + 5 && t.jobs[..|s.jobs|] == s.jobs && t.rows[..|s.rows|] == s.rows
      && var j, r := t.jobs[|s.jobs| + k], t.rows[|s.rows| + k];
         && j.humanId == AssuranceId(d.humanId, Opens(k)) && j.project == d.project && j.queue == j.role == Opens(k)
         && j.status == READY && j.outcome == NoOutcome && j.candidate == None
         && j.sourceSha == Some(candidate) && j.sourceJob == Some(delivery)
         && (k < 4 ==> j.base == Some(candidate))
         && r == Row(d.project, delivery, |s.jobs| + k, candidate, Opens(k), run, PENDING)
  {
    QueueAt(k);
    HandOffGrows(s, delivery, candidate, run);
    OpenedJobs(s, delivery, candidate, run, 5, k);
  }

  lemma QueueAt(k: nat)
    requires k < 5
    ensures |HANDOFF_QUEUES| == 5 && HANDOFF_QUEUES[k] == Opens(k)
  {
    assert HANDOFF_QUEUES == [ASSURANCE_FUNCTIONAL, ASSURANCE_INTEGRATION, ASSURANCE_SECURITY, ASSURANCE_QUALITY, QA_MANAGER];
  }

  lemma HandOffGrows(s: Ledger, delivery: nat, candidate: Name, run: Option<Name>)
    requires Inv(s) && HandOffAllowed(s, delivery, candidate)
    ensures
      var t := Apply(s, HandOff(delivery, candidate, run));
      |HANDOFF_QUEUES| == 5 && t == Opened(s, delivery, candidate, run, 5) && Grown(s, t, delivery, candidate, run, 5)
  {
    QueueAt(0);
    OpenedGrows(s, delivery, candidate, run, |HANDOFF_QUEUES|);
  }

  lemma {:induction false} OpenedJobs(s: Ledger, delivery: nat, candidate: Name, run: Option<Name>, n: nat, k: nat)
    requires delivery < |s.jobs| && k < n <= |HANDOFF_QUEUES|
    ensures
      var t := Opened(s, delivery, candidate, run, n);
      |t.jobs| == |s.jobs| + n && t.jobs[|s.jobs| + k] == AssuranceJob(delivery, s.jobs[delivery], candidate, HANDOFF_QUEUES[k])
  {
    OpenedSize(s, delivery, candidate, run, n - 1);
    if k < n - 1 {
      OpenedJobs(s, delivery, candidate, run, n - 1, k);
    }
  }

  /** A retry adds one READY job of the role and its pending row, unless that attempt exists. */
  lemma RetryAdds(s: Ledger, run: Name, candidate: Name, role: Queue, producer: nat, attempt: nat)
    requires producer < |s.jobs|
    ensures
      var id, t := RetryId(run, candidate, role, attempt), Apply(s, Retry(run, candidate, role, producer, attempt));
      if exists j :: 0 <= j < |s.jobs| && s.jobs[j].humanId == id then t == s
      else
        && |t.jobs| == |s.jobs| + 1 && t.jobs[..|s.jobs|] == s.jobs
        && t.rows == s.rows + [Row(s.jobs[producer].project, producer, |s.jobs|, candidate, role, Some(run), PENDING)]
        && var j := t.jobs[|s.jobs|];
           && j.humanId == id && j.project == s.jobs[producer].project && j.queue == j.role == role && j.status == READY
           && j.sourceSha == j.base == Some(candidate) && j.sourceJob == Some(producer) && j.candidate == None
  {
  }

  /** After a cancellation no evidence of the delivery is pending: what was pending is rejected as stale,
      and nothing else changes.  No job assured against it is left to run. */
  lemma CancelRejects(s: Ledger, delivery: nat)
    requires delivery < |s.jobs|
    ensures
      var t := Apply(s, Cancel(delivery));
      && |t.rows| == |s.rows| && |t.jobs| == |s.jobs|
      && (forall i :: 0 <= i < |s.rows| ==>
        t.rows[i] == s.rows[i].(result := if s.rows[i].delivery == delivery && s.rows[i].result == PENDING then STALE_REJECTED else s.rows[i].result))
      && (forall j :: 0 <= j < |s.jobs| ==> t.jobs[j] == s.jobs[j].(status := t.jobs[j].status))
      && (forall j :: 0 <= j < |s.jobs| && s.jobs[j].sourceJob == Some(delivery) && s.jobs[j].humanId != s.jobs[delivery].humanId ==>
        t.jobs[j].status in {CANCELLED, SUCCEEDED, FAILED, BLOCKED})
      && (forall j :: 0 <= j < |s.jobs| && s.jobs[j].status in {CANCELLED, SUCCEEDED, FAILED, BLOCKED} ==> t.jobs[j] == s.jobs[j])
  {
    var t := Apply(s, Cancel(delivery));
    forall i | 0 <= i < |s.rows|
      ensures t.rows[i] == CancelRow(s.rows[i], delivery)
    {
    }
    forall j | 0 <= j < |s.jobs|
      ensures t.jobs[j] == CancelJob(s.jobs[j], delivery, s.jobs[delivery].humanId)
    {
    }
  }
}
