/** What holds over every run of the evidence ledger. */
module QaProperties {
  import opened Prelude
  import opened Jobs
  import opened QaTypes
  import opened QaLedger
  import opened JobIds

  // ---------------------------------------------------------------------------
  // Invariant and evolution
  // ---------------------------------------------------------------------------

  /** A row describes the job it belongs to. */
  ghost predicate RowOfJob(s: Ledger, r: Row) {
    && r.job < |s.jobs| && r.delivery < |s.jobs|
    && s.jobs[r.job].queue == r.role && s.jobs[r.job].role == r.role
    && s.jobs[r.job].sourceSha == Some(r.candidate) && s.jobs[r.job].sourceJob == Some(r.delivery)
  }

  ghost predicate OneRowPerJob(rows: seq<Row>) {
    forall i, j :: 0 <= i < j < |rows| ==> rows[i].job != rows[j].job
  }

  ghost predicate Inv(s: Ledger) {
    OneRowPerJob(s.rows) && forall i :: 0 <= i < |s.rows| ==> RowOfJob(s, s.rows[i])
  }

  /** The ledger is append-only, and a terminal result is immutable. */
  ghost predicate Extends(rows: seq<Row>, rows': seq<Row>) {
    && |rows| <= |rows'|
    && forall i :: 0 <= i < |rows| ==> RowKept(rows[i], rows'[i])
  }

  ghost predicate RowKept(r: Row, r': Row) {
    r' == r.(result := r'.result) && (r.result != PENDING ==> r'.result == r.result)
  }

  /** A job keeps what identifies it. */
  ghost predicate JobsKept(jobs: seq<Job>, jobs': seq<Job>) {
    && |jobs| <= |jobs'|
    && forall j :: 0 <= j < |jobs| ==>
      jobs'[j] == jobs[j].(status := jobs'[j].status, outcome := jobs'[j].outcome, candidate := jobs'[j].candidate)
  }

  lemma {:induction false} FirstMatchIs(rows: seq<Row>, job: nat, candidate: Name, n: nat)
    requires n <= |rows|
    ensures
      var first := FirstMatch(rows, job, candidate, n);
      && (first.Some? ==> Matches(rows[first.value], job, candidate) && forall i :: 0 <= i < first.value ==> !Matches(rows[i], job, candidate))
      && (first.None? ==> forall i :: 0 <= i < n ==> !Matches(rows[i], job, candidate))
  {
    if n > 0 {
      FirstMatchIs(rows, job, candidate, n - 1);
    }
  }

  /** With one row per job the guard on the first matching row guards every row it writes. */
  lemma UpdateExtends(rows: seq<Row>, job: nat, candidate: Name, result: QaResult)
    requires OneRowPerJob(rows)
    ensures Extends(rows, Updated(rows, job, candidate, result)) && |Updated(rows, job, candidate, result)| == |rows|
  {
    FirstMatchIs(rows, job, candidate, |rows|);
    var rows' := Updated(rows, job, candidate, result);
    forall i | 0 <= i < |rows|
      ensures RowKept(rows[i], rows'[i])
    {
      if rows'[i] != rows[i] {
        var first := FirstMatch(rows, job, candidate, |rows|).value;
        assert rows[i].job == rows[first].job;
        assert i == first;
      }
    }
  }

  /** The rows and jobs of `t` are those of `s` and then the first `n` of a hand-off. */
  ghost predicate Grown(s: Ledger, t: Ledger, delivery: nat, candidate: Name, run: Option<Name>, n: nat)
    requires delivery < |s.jobs| && n <= |HANDOFF_QUEUES|
  {
    && |t.rows| == |s.rows| + n && t.rows[..|s.rows|] == s.rows && |t.jobs| == |s.jobs| + n && t.jobs[..|s.jobs|] == s.jobs
    && (forall i :: 0 <= i < |s.rows| ==> t.rows[i] == s.rows[i])
    && (forall i :: |s.rows| <= i < |t.rows| ==> t.rows[i] == OpenedRow(s, delivery, candidate, run, i - |s.rows|))
  }

  function OpenedRow(s: Ledger, delivery: nat, candidate: Name, run: Option<Name>, k: nat): Row
    requires delivery < |s.jobs| && k < |HANDOFF_QUEUES|
  {
    Row(s.jobs[delivery].project, delivery, |s.jobs| + k, candidate, HANDOFF_QUEUES[k], run, PENDING)
  }

  lemma GrownStep(s: Ledger, t: Ledger, delivery: nat, candidate: Name, run: Option<Name>, n: nat, j: Job)
    requires delivery < |s.jobs| && n < |HANDOFF_QUEUES| && Grown(s, t, delivery, candidate, run, n)
    ensures Grown(s, Ledger(t.jobs + [j], t.rows + [OpenedRow(s, delivery, candidate, run, n)]), delivery, candidate, run, n + 1)
  {
  }

  lemma {:induction false} OpenedGrows(s: Ledger, delivery: nat, candidate: Name, run: Option<Name>, n: nat)
    requires Inv(s) && delivery < |s.jobs| && n <= |HANDOFF_QUEUES|
    ensures Inv(Opened(s, delivery, candidate, run, n)) && Grown(s, Opened(s, delivery, candidate, run, n), delivery, candidate, run, n)
  {
    if n > 0 {
      OpenedGrows(s, delivery, candidate, run, n - 1);
      var t := Opened(s, delivery, candidate, run, n - 1);
      var j := AssuranceJob(delivery, s.jobs[delivery], candidate, HANDOFF_QUEUES[n - 1]);
      AppendInv(t, j, OpenedRow(s, delivery, candidate, run, n - 1));
      GrownStep(s, t, delivery, candidate, run, n - 1, j);
    }
  }

  lemma AppendInv(s: Ledger, j: Job, r: Row)
    requires Inv(s) && r.job == |s.jobs| && r.delivery < |s.jobs| && j.queue == j.role == r.role && j.sourceSha == Some(r.candidate) && j.sourceJob == Some(r.delivery)
    ensures Inv(Ledger(s.jobs + [j], s.rows + [r]))
  {
    var t := Ledger(s.jobs + [j], s.rows + [r]);
    forall i | 0 <= i < |t.rows|
      ensures RowOfJob(t, t.rows[i])
    {
      if i < |s.rows| {
        assert RowOfJob(s, s.rows[i]);
      }
    }
    forall a, b | 0 <= a < b < |t.rows|
      ensures t.rows[a].job != t.rows[b].job
    {
      assert RowOfJob(s, s.rows[a]);
    }
  }

  lemma KeptInv(s: Ledger, t: Ledger)
    requires Inv(s) && JobsKept(s.jobs, t.jobs) && |t.rows| == |s.rows| && Extends(s.rows, t.rows)
    ensures Inv(t)
  {
    forall i | 0 <= i < |t.rows|
      ensures RowOfJob(t, t.rows[i])
      ensures t.rows[i].job == s.rows[i].job
    {
      assert RowKept(s.rows[i], t.rows[i]) && RowOfJob(s, s.rows[i]);
    }
  }

  lemma WriteStep(s: Ledger, step: Step)
    requires Inv(s) && (step.Record? || step.AggregateBy? || step.Cancel? || step.Work? || step.NewJob?)
    ensures
      var t := Apply(s, step);
      Inv(t) && Extends(s.rows, t.rows) && JobsKept(s.jobs, t.jobs) && |t.rows| == |s.rows|
  {
    var t := Apply(s, step);
    match step
    case Record(job, report) =>
      if job < |s.jobs| && MayRecord(s.jobs[job]) {
        var j := s.jobs[job];
        UpdateExtends(s.rows, job, j.sourceSha.value, RecordedResult(s, j, report));
      }
      KeptInv(s, t);
    case AggregateBy(job) =>
      if t != s {
        var scope := Assessors(s.jobs[job].sourceJob.value, s.jobs[job].sourceSha.value);
        UpdateExtends(s.rows, job, scope.candidate, Aggregate(Results(s.rows, scope)));
      }
      KeptInv(s, t);
    case Cancel(delivery) =>
      KeptInv(s, t);
    case Work(_, _, _, _) =>
      KeptInv(s, t);
    case NewJob(_, _, _, _) =>
      KeptInv(s, t);
  }

  /** Every step keeps the invariant, only appends rows and jobs, and keeps terminal results. */
  lemma StepEvolves(s: Ledger, step: Step)
    requires Inv(s)
    ensures Inv(Apply(s, step)) && Extends(s.rows, Apply(s, step).rows) && JobsKept(s.jobs, Apply(s, step).jobs)
  {
    match step
    case HandOff(delivery, candidate, run) =>
      if HandOffAllowed(s, delivery, candidate) {
        OpenedGrows(s, delivery, candidate, run, |HANDOFF_QUEUES|);
        PrefixEvolves(s, Apply(s, step));
      }
    case Retry(run, candidate, role, producer, attempt) =>
      var t := Apply(s, step);
      if t != s {
        AppendInv(s, t.jobs[|s.jobs|], t.rows[|s.rows|]);
        PrefixEvolves(s, t);
      }
    case _ =>
      WriteStep(s, step);
  }

  lemma PrefixEvolves(s: Ledger, t: Ledger)
    requires |s.rows| <= |t.rows| && |s.jobs| <= |t.jobs| && t.rows[..|s.rows|] == s.rows && t.jobs[..|s.jobs|] == s.jobs
    ensures Extends(s.rows, t.rows) && JobsKept(s.jobs, t.jobs)
  {
    assert forall i :: 0 <= i < |s.rows| ==> t.rows[..|s.rows|][i] == t.rows[i];
    assert forall i :: 0 <= i < |s.jobs| ==> t.jobs[..|s.jobs|][i] == t.jobs[i];
  }

  lemma {:induction false} RunInv(steps: seq<Step>)
    ensures Inv(Run(steps))
  {
    if steps != [] {
      RunInv(steps[..|steps| - 1]);
      StepEvolves(Run(steps[..|steps| - 1]), steps[|steps| - 1]);
    }
  }

  /** Over every run a row keeps its identity and, once terminal, its result. */
  lemma {:induction false} TerminalResultsAreImmutable(steps: seq<Step>, k: nat)
    requires k <= |steps|
    ensures Extends(Run(steps[..k]).rows, Run(steps).rows) && JobsKept(Run(steps[..k]).jobs, Run(steps).jobs)
  {
    if k == |steps| {
      assert steps[..k] == steps;
    } else {
      var front := steps[..|steps| - 1];
      assert front[..k] == steps[..k];
      TerminalResultsAreImmutable(front, k);
      RunInv(front);
      StepEvolves(Run(front), steps[|steps| - 1]);
      ExtendsTrans(Run(steps[..k]).rows, Run(front).rows, Run(steps).rows);
      JobsTrans(Run(steps[..k]).jobs, Run(front).jobs, Run(steps).jobs);
    }
  }

  lemma ExtendsTrans(a: seq<Row>, b: seq<Row>, c: seq<Row>)
    requires Extends(a, b) && Extends(b, c)
    ensures Extends(a, c)
  {
    forall i | 0 <= i < |a|
      ensures RowKept(a[i], c[i])
    {
      assert RowKept(a[i], b[i]) && RowKept(b[i], c[i]);
    }
  }

  lemma JobsTrans(a: seq<Job>, b: seq<Job>, c: seq<Job>)
    requires JobsKept(a, b) && JobsKept(b, c)
    ensures JobsKept(a, c)
  {
  }

  // ---------------------------------------------------------------------------
  // Gates only get worse
  // ---------------------------------------------------------------------------

  lemma {:induction false} ResultsHave(rows: seq<Row>, scope: Scope, x: QaResult)
    ensures x in Results(rows, scope) <==> exists i :: 0 <= i < |rows| && InScope(rows[i], scope) && rows[i].result == x
  {
    if rows != [] {
      var front := rows[..|rows| - 1];
      ResultsHave(front, scope, x);
      assert forall i :: 0 <= i < |front| ==> front[i] == rows[i];
    }
  }

  /** A terminal result in scope stays in scope. */
  lemma TerminalStaysInScope(rows: seq<Row>, rows': seq<Row>, scope: Scope, x: QaResult)
    requires Extends(rows, rows') && x != PENDING && x in Results(rows, scope)
    ensures x in Results(rows', scope)
  {
    ResultsHave(rows, scope, x);
    ResultsHave(rows', scope, x);
    var i :| 0 <= i < |rows| && InScope(rows[i], scope) && rows[i].result == x;
    assert RowKept(rows[i], rows'[i]);
    assert InScope(rows'[i], scope);
  }

  /** Over every run — hand-offs, retries, verdicts, rejections, cancellations and aggregations
      included — a FAILED gate stays FAILED, and an INCONCLUSIVE one never becomes PASSED, so an
      assurance retry on the same candidate and run cannot lift it. */
  lemma GateNeverImproves(steps: seq<Step>, k: nat, project: Name, sha: Option<Name>, run: Option<Name>)
    requires k <= |steps|
    ensures
      var before, after := GateFor(Run(steps[..k]), project, sha, run), GateFor(Run(steps), project, sha, run);
      && (before == GATE_FAILED ==> after == GATE_FAILED)
      && (before == GATE_INCONCLUSIVE ==> after in {GATE_INCONCLUSIVE, GATE_FAILED})
  {
    var scope, rows, rows' := GateScope(project, sha, run), Run(steps[..k]).rows, Run(steps).rows;
    TerminalResultsAreImmutable(steps, k);
    if FAIL in Results(rows, scope) {
      TerminalStaysInScope(rows, rows', scope, FAIL);
    } else if STALE_REJECTED in Results(rows, scope) {
      TerminalStaysInScope(rows, rows', scope, STALE_REJECTED);
    } else if INCONCLUSIVE in Results(rows, scope) {
      TerminalStaysInScope(rows, rows', scope, INCONCLUSIVE);
    }
  }

  // ---------------------------------------------------------------------------
  // A pass is a validated verdict on an unmoved candidate
  // ---------------------------------------------------------------------------

  /** Step `k` recorded a validated PASS for this row's job, role and candidate, at a time when the
      delivery had not produced another candidate. */
  ghost predicate BackedBy(steps: seq<Step>, k: nat, r: Row) {
    && k < |steps| && steps[k].Record? && steps[k].job == r.job && steps[k].report.Some?
    && var s, report := Run(steps[..k]), steps[k].report.value;
       && r.job < |s.jobs| && s.jobs[r.job].queue == r.role && s.jobs[r.job].sourceSha == Some(r.candidate)
       && report.verdict == VERDICT_PASS
       && report.role == r.role && report.candidate == r.candidate && report.job == s.jobs[r.job].humanId
       && r.delivery < |s.jobs| && s.jobs[r.delivery].candidate in {None, Some(r.candidate)}
  }

  /** Only a recording step turns an assessor's row into a pass. */
  lemma BecomesPass(s: Ledger, step: Step, i: nat)
    requires Inv(s) && i < |s.rows| && IsAssessor(s.rows[i].role) && s.rows[i].result != PASS
    requires i < |Apply(s, step).rows| && Apply(s, step).rows[i].result == PASS
    ensures step.Record? && step.job == s.rows[i].job && step.report.Some?
    ensures s.rows[i].job < |s.jobs|
    ensures
      var r, j, report := s.rows[i], s.jobs[s.rows[i].job], step.report.value;
      && report.verdict == VERDICT_PASS && report.role == r.role && report.candidate == r.candidate && report.job == j.humanId
      && r.delivery < |s.jobs| && s.jobs[r.delivery].candidate in {None, Some(r.candidate)}
  {
    assert RowOfJob(s, s.rows[i]);
    match step
    case HandOff(delivery, candidate, run) =>
      if HandOffAllowed(s, delivery, candidate) {
        OpenedGrows(s, delivery, candidate, run, |HANDOFF_QUEUES|);
      }
    case _ =>
  }

  lemma NewRowIsPending(s: Ledger, step: Step, i: nat)
    requires Inv(s) && |s.rows| <= i < |Apply(s, step).rows|
    ensures Apply(s, step).rows[i].result == PENDING
  {
    match step
    case HandOff(delivery, candidate, run) =>
      OpenedGrows(s, delivery, candidate, run, |HANDOFF_QUEUES|);
    case _ =>
  }

  lemma BackedExtends(front: seq<Step>, last: Step, k: nat, r: Row, r': Row)
    requires BackedBy(front, k, r) && r'.job == r.job && r'.role == r.role && r'.candidate == r.candidate && r'.delivery == r.delivery
    ensures BackedBy(front + [last], k, r')
  {
    assert (front + [last])[..k] == front[..k];
  }

  lemma BackedNow(front: seq<Step>, last: Step, i: nat)
    requires i < |Run(front).rows| && IsAssessor(Run(front).rows[i].role) && Run(front).rows[i].result != PASS
    requires i < |Apply(Run(front), last).rows| && Apply(Run(front), last).rows[i].result == PASS
    ensures BackedBy(front + [last], |front|, Run(front).rows[i])
  {
    var s := Run(front);
    RunInv(front);
    BecomesPass(s, last, i);
    assert RowOfJob(s, s.rows[i]);
    assert (front + [last])[..|front|] == front;
  }

  /** Every pass an assessor's row carries was written by a validated PASS verdict. */
  lemma {:induction false} PassIsBacked(steps: seq<Step>, i: nat)
    requires i < |Run(steps).rows| && IsAssessor(Run(steps).rows[i].role) && Run(steps).rows[i].result == PASS
    ensures exists k: nat :: BackedBy(steps, k, Run(steps).rows[i])
  {
    var front, last := steps[..|steps| - 1], steps[|steps| - 1];
    assert steps == front + [last];
    RunInv(front);
    if i >= |Run(front).rows| {
      NewRowIsPending(Run(front), last, i);
    } else {
      StepEvolves(Run(front), last);
      assert RowKept(Run(front).rows[i], Run(steps).rows[i]);
      if Run(front).rows[i].result == PASS {
        PassIsBacked(front, i);
        var k: nat :| BackedBy(front, k, Run(front).rows[i]);
        BackedExtends(front, last, k, Run(front).rows[i], Run(steps).rows[i]);
      } else {
        BackedNow(front, last, i);
        BackedRename(steps, |front|, Run(front).rows[i], Run(steps).rows[i]);
      }
    }
  }

  lemma BackedRename(steps: seq<Step>, k: nat, r: Row, r': Row)
    requires BackedBy(steps, k, r) && r'.job == r.job && r'.role == r.role && r'.candidate == r.candidate && r'.delivery == r.delivery
    ensures BackedBy(steps, k, r')
  {
  }

  /** A role's row in scope that carries a verdict-backed pass. */
  ghost predicate RoleBacked(steps: seq<Step>, scope: Scope, role: Queue) {
    exists i, k: nat :: 0 <= i < |Run(steps).rows| && InScope(Run(steps).rows[i], scope) && Run(steps).rows[i].role == role
      && Run(steps).rows[i].result == PASS && BackedBy(steps, k, Run(steps).rows[i])
  }

  /** When the gate passes, a role is backed by a verdict exactly when it has a row in scope. */
  lemma PassedRoleIsBackedIff(steps: seq<Step>, project: Name, sha: Option<Name>, run: Option<Name>, role: Queue)
    requires GateFor(Run(steps), project, sha, run) == GATE_PASSED && IsAssessor(role)
    ensures RoleBacked(steps, GateScope(project, sha, run), role) <==> RolePresent(Run(steps).rows, GateScope(project, sha, run), role)
  {
    var scope, rows := GateScope(project, sha, run), Run(steps).rows;
    if RolePresent(rows, scope, role) {
      var i :| 0 <= i < |rows| && InScope(rows[i], scope) && rows[i].role == role;
      ResultsHave(rows, scope, rows[i].result);
      PassIsBacked(steps, i);
    }
  }

  /** Step `k` was a hand-off that opened the scope of a project, candidate and run. */
  ghost predicate OpenedAt(steps: seq<Step>, k: nat, project: Name, sha: Name, run: Option<Name>) {
    && k < |steps| && steps[k].HandOff? && steps[k].candidate == sha && steps[k].run == run
    && HandOffAllowed(Run(steps[..k]), steps[k].delivery, sha)
    && Run(steps[..k]).jobs[steps[k].delivery].project == project
  }

  lemma HandOffOpensEveryRole(steps: seq<Step>, k: nat, project: Name, sha: Name, run: Option<Name>, role: Queue)
    requires OpenedAt(steps, k, project, sha, run) && role in REQUIRED
    ensures RolePresent(Run(steps).rows, GateScope(project, Some(sha), run), role)
  {
    RunInv(steps[..k]);
    assert steps[..k + 1][..k] == steps[..k] && steps[..k + 1][k] == steps[k];
    var i := OpenedRole(Run(steps[..k]), steps[k].delivery, sha, run, role);
    var t := Run(steps[..k + 1]);
    TerminalResultsAreImmutable(steps, k + 1);
    assert RowKept(t.rows[i], Run(steps).rows[i]);
  }

  /** A hand-off opens a pending row of each required role, for a job of that role's own. */
  lemma OpenedRole(s: Ledger, delivery: nat, candidate: Name, run: Option<Name>, role: Queue) returns (i: nat)
    requires Inv(s) && HandOffAllowed(s, delivery, candidate) && role in REQUIRED
    ensures
      var t := HandedOff(s, delivery, candidate, run);
      && |s.rows| <= i < |t.rows|
      && t.rows[i] == Row(s.jobs[delivery].project, delivery, |s.jobs| + i - |s.rows|, candidate, role, run, PENDING)
  {
    OpenedGrows(s, delivery, candidate, run, |HANDOFF_QUEUES|);
    var n :| 0 <= n < |REQUIRED| && REQUIRED[n] == role;
    assert HANDOFF_QUEUES[n] == role;
    i := |s.rows| + n;
  }

  /** In a scope opened by the hand-off, a PASSED gate means that all four required roles hold a pass
      written from a validated PASS verdict for that job, role and candidate, recorded while the
      delivery's candidate had not moved on. */
  lemma PassedMeansFourVerdicts(steps: seq<Step>, k: nat, project: Name, sha: Name, run: Option<Name>, role: Queue)
    requires OpenedAt(steps, k, project, sha, run) && role in REQUIRED
    requires GateFor(Run(steps), project, Some(sha), run) == GATE_PASSED
    ensures RoleBacked(steps, GateScope(project, Some(sha), run), role)
  {
    HandOffOpensEveryRole(steps, k, project, sha, run, role);
    RequiredAreAssessors(role);
    PassedRoleIsBackedIff(steps, project, Some(sha), run, role);
  }

  // ---------------------------------------------------------------------------
  // Without a hand-off
  // ---------------------------------------------------------------------------

  /** A delivery, a retry of one role on its candidate, and that role's PASS. */
  function RetryOnly(): seq<Step> {
    var p, run, sha, base := Name("p"), Name("run"), Name("sha"), Name("base");
    [ NewJob(p, p, DELIVERY, Some(base)),
      Retry(run, sha, ASSURANCE_FUNCTIONAL, 0, 1),
      Record(1, Some(Report(VERDICT_PASS, sha, RetryId(run, sha, ASSURANCE_FUNCTIONAL, 1), ASSURANCE_FUNCTIONAL, true))) ]
  }

  lemma RetryIdIsLong(run: Name, candidate: Name, queue: Queue, attempt: nat)
    ensures |RetryId(run, candidate, queue, attempt).text| >= 12
  {
  }

  lemma RetryOnlyOpens()
    ensures
      var s, run, sha := Run(RetryOnly()[..2]), Name("run"), Name("sha");
      && s.rows == [Row(Name("p"), 0, 1, sha, ASSURANCE_FUNCTIONAL, Some(run), PENDING)]
      && |s.jobs| == 2 && s.jobs[0].candidate.None?
      && s.jobs[1] == Job(RetryId(run, sha, ASSURANCE_FUNCTIONAL, 1), Name("p"), ASSURANCE_FUNCTIONAL, ASSURANCE_FUNCTIONAL, READY,
                          NoOutcome, None, Some(sha), Some(sha), Some(0))
  {
    var steps := RetryOnly();
    assert steps[..2][..1] == steps[..1] && steps[..1][..0] == [];
    assert Run(steps[..1]).jobs == [Job(Name("p"), Name("p"), DELIVERY, DELIVERY, READY, NoOutcome, None, Some(Name("base")), None, None)];
    RetryIdIsLong(Name("run"), Name("sha"), ASSURANCE_FUNCTIONAL, 1);
    assert |"p"| == 1;
  }

  lemma RetryOnlyRun()
    ensures Run(RetryOnly()).rows == [Row(Name("p"), 0, 1, Name("sha"), ASSURANCE_FUNCTIONAL, Some(Name("run")), PASS)]
  {
    RetryOnlyOpens();
    var s := Run(RetryOnly()[..2]);
    assert !MovedOn(s, s.jobs[1]);
    FirstMatchIs(s.rows, 1, Name("sha"), 1);
    assert Matches(s.rows[0], 1, Name("sha"));
    assert MayUpdate(s.rows, 1, Name("sha"), PASS);
  }

  /** The four-role guarantee needs the hand-off: a scope opened by a retry alone passes with a
      single role. */
  lemma RetryOnlyScopePasses()
    ensures GateFor(Run(RetryOnly()), Name("p"), Some(Name("sha")), Some(Name("run"))) == GATE_PASSED
    ensures !RolePresent(Run(RetryOnly()).rows, GateScope(Name("p"), Some(Name("sha")), Some(Name("run"))), ASSURANCE_SECURITY)
  {
    RetryOnlyRun();
    var rows := Run(RetryOnly()).rows;
    assert rows[..0] == [];
    assert Results(rows, GateScope(Name("p"), Some(Name("sha")), Some(Name("run")))) == [PASS];
  }

  // ---------------------------------------------------------------------------
  // The manager's pass
  // ---------------------------------------------------------------------------

  /** Step `k` aggregated four present roles whose every row was a pass. */
  ghost predicate SummarisedBy(steps: seq<Step>, k: nat, r: Row) {
    && k < |steps| && steps[k] == AggregateBy(r.job)
    && var s, scope := Run(steps[..k]), Assessors(r.delivery, r.candidate);
       && (forall role :: role in REQUIRED ==> RolePresent(s.rows, scope, role))
       && forall i :: 0 <= i < |s.rows| && InScope(s.rows[i], scope) ==> s.rows[i].result == PASS
  }

  lemma BecomesManagerPass(s: Ledger, step: Step, i: nat)
    requires Inv(s) && i < |s.rows| && s.rows[i].role == QA_MANAGER && s.rows[i].result != PASS
    requires i < |Apply(s, step).rows| && Apply(s, step).rows[i].result == PASS
    ensures step == AggregateBy(s.rows[i].job)
    ensures
      var scope := Assessors(s.rows[i].delivery, s.rows[i].candidate);
      && (forall role :: role in REQUIRED ==> RolePresent(s.rows, scope, role))
      && forall k :: 0 <= k < |s.rows| && InScope(s.rows[k], scope) ==> s.rows[k].result == PASS
  {
    assert RowOfJob(s, s.rows[i]);
    match step
    case HandOff(delivery, candidate, run) =>
      if HandOffAllowed(s, delivery, candidate) {
        OpenedGrows(s, delivery, candidate, run, |HANDOFF_QUEUES|);
      }
    case AggregateBy(job) =>
      var scope := Assessors(s.rows[i].delivery, s.rows[i].candidate);
      forall k | 0 <= k < |s.rows| && InScope(s.rows[k], scope)
        ensures s.rows[k].result in Results(s.rows, scope)
      {
        ResultsHave(s.rows, scope, s.rows[k].result);
      }
    case _ =>
  }

  lemma SummarisedExtends(front: seq<Step>, steps: seq<Step>, k: nat, r: Row, r': Row)
    requires SummarisedBy(front, k, r) && front <= steps
    requires r'.job == r.job && r'.delivery == r.delivery && r'.candidate == r.candidate
    ensures SummarisedBy(steps, k, r')
  {
    assert front[..k] == steps[..k];
  }

  /** A manager's row passes only as a summary of four roles that had all passed. */
  lemma {:induction false} ManagerPassIsSummary(steps: seq<Step>, i: nat)
    requires i < |Run(steps).rows| && Run(steps).rows[i].role == QA_MANAGER && Run(steps).rows[i].result == PASS
    ensures exists k: nat :: SummarisedBy(steps, k, Run(steps).rows[i])
  {
    var front, last := steps[..|steps| - 1], steps[|steps| - 1];
    var s, r := Run(front), Run(steps).rows[i];
    RunInv(front);
    if i >= |s.rows| {
      NewRowIsPending(s, last, i);
    } else {
      StepEvolves(s, last);
      assert RowKept(s.rows[i], r);
      if s.rows[i].result == PASS {
        ManagerPassIsSummary(front, i);
        var k: nat :| SummarisedBy(front, k, s.rows[i]);
        SummarisedExtends(front, steps, k, s.rows[i], r);
      } else {
        BecomesManagerPass(s, last, i);
        assert SummarisedBy(steps, |front|, r);
      }
    }
  }

  // ---------------------------------------------------------------------------
  // Human ids are unique
  // ---------------------------------------------------------------------------

  ghost predicate UniqueIds(jobs: seq<Job>) {
    forall a, b :: 0 <= a < b < |jobs| ==> jobs[a].humanId != jobs[b].humanId
  }

  lemma AppendUnique(jobs: seq<Job>, j: Job)
    requires UniqueIds(jobs) && !NameTaken(jobs, j.humanId)
    ensures UniqueIds(jobs + [j])
  {
  }

  /** The five ids of a hand-off differ in length. */
  lemma HandOffIdsDiffer(parent: Name, a: nat, b: nat)
    requires a < b < |HANDOFF_QUEUES|
    ensures AssuranceId(parent, HANDOFF_QUEUES[a]) != AssuranceId(parent, HANDOFF_QUEUES[b])
  {
    assert |QueueText(HANDOFF_QUEUES[a])| != |QueueText(HANDOFF_QUEUES[b])|;
    assert |AssuranceId(parent, HANDOFF_QUEUES[a]).text| == |parent.text| + 2 + |QueueText(HANDOFF_QUEUES[a])|;
    assert |AssuranceId(parent, HANDOFF_QUEUES[b]).text| == |parent.text| + 2 + |QueueText(HANDOFF_QUEUES[b])|;
  }

  /** The jobs opened so far carry the hand-off's ids and the earlier ones keep theirs. */
  ghost predicate OpenedWith(s: seq<Job>, t: seq<Job>, parent: Name, n: nat)
    requires n <= |HANDOFF_QUEUES|
  {
    && |t| == |s| + n && t[..|s|] == s
    && forall k :: 0 <= k < n ==> t[|s| + k].humanId == AssuranceId(parent, HANDOFF_QUEUES[k])
  }

  /** The next id of the hand-off is still free. */
  lemma NextIdIsFree(s: seq<Job>, t: seq<Job>, parent: Name, n: nat)
    requires n < |HANDOFF_QUEUES| && OpenedWith(s, t, parent, n) && !NameTaken(s, AssuranceId(parent, HANDOFF_QUEUES[n]))
    ensures !NameTaken(t, AssuranceId(parent, HANDOFF_QUEUES[n]))
  {
    forall i | 0 <= i < |t|
      ensures t[i].humanId != AssuranceId(parent, HANDOFF_QUEUES[n])
    {
      if i < |s| {
        assert t[i] == t[..|s|][i] == s[i];
      } else {
        var k := i - |s|;
        assert t[|s| + k] == t[i];
        HandOffIdsDiffer(parent, k, n);
      }
    }
  }

  lemma {:induction false} OpenedIds(s: Ledger, delivery: nat, candidate: Name, run: Option<Name>, n: nat)
    requires UniqueIds(s.jobs) && HandOffAllowed(s, delivery, candidate) && n <= |HANDOFF_QUEUES|
    ensures
      var t := Opened(s, delivery, candidate, run, n);
      UniqueIds(t.jobs) && OpenedWith(s.jobs, t.jobs, s.jobs[delivery].humanId, n)
  {
    if n > 0 {
      OpenedIds(s, delivery, candidate, run, n - 1);
      var t, parent := Opened(s, delivery, candidate, run, n - 1), s.jobs[delivery].humanId;
      assert HANDOFF_QUEUES[n - 1] in HANDOFF_QUEUES;
      NextIdIsFree(s.jobs, t.jobs, parent, n - 1);
      var j := AssuranceJob(delivery, s.jobs[delivery], candidate, HANDOFF_QUEUES[n - 1]);
      AppendUnique(t.jobs, j);
      OpenedWithStep(s.jobs, t.jobs, parent, n - 1, j);
    }
  }

  lemma OpenedWithStep(s: seq<Job>, t: seq<Job>, parent: Name, n: nat, j: Job)
    requires n < |HANDOFF_QUEUES| && OpenedWith(s, t, parent, n) && j.humanId == AssuranceId(parent, HANDOFF_QUEUES[n])
    ensures OpenedWith(s, t + [j], parent, n + 1)
  {
  }

  lemma StepKeepsIds(s: Ledger, step: Step)
    requires Inv(s) && UniqueIds(s.jobs)
    ensures UniqueIds(Apply(s, step).jobs)
  {
    var t := Apply(s, step);
    match step
    case HandOff(delivery, candidate, run) =>
      if HandOffAllowed(s, delivery, candidate) {
        OpenedIds(s, delivery, candidate, run, |HANDOFF_QUEUES|);
      }
    case Retry(run, candidate, role, producer, attempt) =>
      if |t.jobs| > |s.jobs| {
        AppendUnique(s.jobs, t.jobs[|s.jobs|]);
      }
    case NewJob(name, _, _, _) =>
      if |t.jobs| > |s.jobs| {
        AppendUnique(s.jobs, t.jobs[|s.jobs|]);
      }
    case _ =>
      WriteStep(s, step);
  }

  /** In every run the human id tells jobs apart. */
  lemma {:induction false} RunIds(steps: seq<Step>)
    ensures UniqueIds(Run(steps).jobs)
  {
    if steps != [] {
      RunIds(steps[..|steps| - 1]);
      RunInv(steps[..|steps| - 1]);
      StepKeepsIds(Run(steps[..|steps| - 1]), steps[|steps| - 1]);
    }
  }

  // ---------------------------------------------------------------------------
  // Cancellation reaches further than the delivery's own assurance
  // ---------------------------------------------------------------------------

  /** Job `i` is open, not assured against the delivery, and its id matches the delivery's pattern. */
  predicate Stray(s: Ledger, delivery: nat, i: nat)
    requires delivery < |s.jobs| && i < |s.jobs|
  {
    && s.jobs[i].sourceJob != Some(delivery) && Cancellable(s.jobs[i].status)
    && s.jobs[i].humanId != s.jobs[delivery].humanId && Like(DerivedPattern(s.jobs[delivery].humanId), s.jobs[i].humanId.text)
  }

  /** Cancelling a delivery's assurance leaves all other jobs alone exactly when no stray job exists. */
  lemma CancelsOnlyOwnIff(s: Ledger, delivery: nat)
    requires delivery < |s.jobs|
    ensures (forall i :: 0 <= i < |s.jobs| && s.jobs[i].sourceJob != Some(delivery) ==> Cancelled(s, delivery).jobs[i] == s.jobs[i])
      <==> (forall i :: 0 <= i < |s.jobs| ==> !Stray(s, delivery, i))
  {
    var t := Cancelled(s, delivery);
    forall i | 0 <= i < |s.jobs| && s.jobs[i].sourceJob != Some(delivery)
      ensures t.jobs[i] == s.jobs[i] <==> !Stray(s, delivery, i)
    {
      assert t.jobs[i] == CancelJob(s.jobs[i], delivery, s.jobs[delivery].humanId);
    }
  }

  /** Two deliveries, "D-1" and "D-100". */
  function TwoDeliveries(): seq<Step> {
    var p := Name("p");
    [NewJob(Name("D-1"), p, DELIVERY, None), NewJob(Name("D-100"), p, DELIVERY, None), Cancel(0)]
  }

  /** The underscores of the pattern are wildcards: invalidating "D-1" cancels the unrelated "D-100". */
  lemma InvalidationCancelsAnotherDelivery()
    ensures
      var before, after := Run(TwoDeliveries()[..2]), Run(TwoDeliveries());
      && |before.jobs| == |after.jobs| == 2
      && before.jobs[1].status == READY && before.jobs[1].sourceJob.None? && after.jobs[1].status == CANCELLED
  {
    TwoDeliveriesOpened();
    PatternFindsLonger();
    StrayIsCancelled(Run(TwoDeliveries()[..2]), 0, 1);
    assert Run(TwoDeliveries()) == Cancelled(Run(TwoDeliveries()[..2]), 0);
  }

  lemma StrayIsCancelled(s: Ledger, delivery: nat, i: nat)
    requires delivery < |s.jobs| && i < |s.jobs| && Stray(s, delivery, i)
    ensures Cancelled(s, delivery).jobs[i].status == CANCELLED
  {
  }

  lemma PatternFindsLonger()
    ensures Like(DerivedPattern(Name("D-1")), "D-100") && Name("D-1") != Name("D-100")
  {
    assert |"D-1"| == 3 && |"D-100"| == 5;
    assert Begins("D-1", "D-100");
    DerivedPatternFinds("D-1", "D-100");
  }

  lemma TwoDeliveriesOpened()
    ensures
      var s := Run(TwoDeliveries()[..2]);
      && |s.jobs| == 2 && s.jobs[0].humanId == Name("D-1")
      && s.jobs[1] == Job(Name("D-100"), Name("p"), DELIVERY, DELIVERY, READY, NoOutcome, None, None, None, None)
  {
    var steps := TwoDeliveries();
    assert steps[..2][..1] == steps[..1] && steps[..1][..0] == [];
    assert Run(steps[..1]).jobs == [Job(Name("D-1"), Name("p"), DELIVERY, DELIVERY, READY, NoOutcome, None, None, None, None)];
    assert |"D-1"| == 3 && |"D-100"| == 5;
  }
}
