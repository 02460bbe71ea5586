/** The operations that write the evidence ledger. */
module QaStore {
  import opened Prelude
  import opened Jobs
  import opened QaTypes
  import opened QaLedger
  import opened JobIds

  datatype QaError = Missing | Immutable | NotIndependent | Stale | HandOffRefused | NoProducer | NoProvenance | RolesMissing

  class QaDatabase {
    var jobs: seq<Job>
    var rows: seq<Row>

    ghost function State(): Ledger
      reads this
    {
      Ledger(jobs, rows)
    }

    constructor ()
      ensures State() == EMPTY_LEDGER
    {
      jobs, rows := [], [];
    }

    method FindRow(job: nat, candidate: Name) returns (first: Option<nat>)
      ensures first == FirstMatch(rows, job, candidate, |rows|)
    {
      first := None;
      for n := 0 to |rows|
        invariant first == FirstMatch(rows, job, candidate, n)
      {
        if first.None? && Matches(rows[n], job, candidate) {
          first := Some(n);
        }
      }
    }

    /** Sets a result from pending, or repeats a terminal one; refuses any other rewrite. */
    method UpdateResult(job: nat, candidate: Name, result: QaResult) returns (error: Option<QaError>)
      modifies this`rows
      ensures rows == Updated(old(rows), job, candidate, result)
      ensures error.None? <==> MayUpdate(old(rows), job, candidate, result)
      ensures
        var first := FirstMatch(old(rows), job, candidate, |old(rows)|);
        && (error == Some(Missing) <==> first.None?)
        && (error.None? <==> first.Some? && old(rows)[first.value].result in {PENDING, result})
        && (error.Some? ==> error.value in {Missing, Immutable} && rows == old(rows))
    {
      var first := FindRow(job, candidate);
      if first.None? {
        return Some(Missing);
      }
      if TerminalResult(rows[first.value].result) && rows[first.value].result != result {
        return Some(Immutable);
      }
      TerminalIffNotPending(rows[first.value].result);
      ghost var goal := SetAll(rows, job, candidate, result);
      for n := 0 to |rows|
        invariant |rows| == |goal| && forall i :: 0 <= i < |rows| ==> rows[i] == if i < n then goal[i] else old(rows)[i]
      {
        if Matches(rows[n], job, candidate) {
          rows := rows[n := rows[n].(result := result)];
        }
      }
      assert rows == goal;
      return None;
    }

    /** Opens a candidate for assurance: one job and one pending row per required role, and the
        manager's job and row behind them. */
    method CreateAssuranceJobs(delivery: nat, candidate: Name, run: Option<Name>) returns (error: Option<QaError>)
      modifies this
      ensures State() == HandedOff(old(State()), delivery, candidate, run)
      ensures error.None? <==> HandOffAllowed(old(State()), delivery, candidate)
    {
      if !HandOffAllowed(Ledger(jobs, rows), delivery, candidate) {
        return Some(HandOffRefused);
      }
      var d := jobs[delivery];
      for n := 0 to |HANDOFF_QUEUES|
        invariant State() == Opened(old(State()), delivery, candidate, run, n)
      {
        var q := HANDOFF_QUEUES[n];
        rows := rows + [Row(d.project, delivery, |jobs|, candidate, q, run, PENDING)];
        jobs := jobs + [AssuranceJob(delivery, d, candidate, q)];
      }
      return None;
    }

    /** Hands a finished delivery over once: only a valid candidate without earlier evidence. */
    method MaybeHandOff(delivery: nat, run: Option<Name>) returns (done: bool)
      requires delivery < |jobs|
      modifies this
      ensures IsQaCandidate(old(jobs)[delivery]) <==>
        var d := old(jobs)[delivery];
        && d.queue == DELIVERY && d.status == SUCCEEDED && d.outcome != INVALIDATED && d.outcome != SUPERSEDED && d.outcome != NO_CHANGE
        && d.candidate != None && d.base != None && d.candidate != d.base
      ensures done <==>
        && IsQaCandidate(old(jobs)[delivery]) && (forall i :: 0 <= i < |old(rows)| ==> old(rows)[i].delivery != delivery)
        && HandOffAllowed(old(State()), delivery, old(jobs)[delivery].candidate.value)
      ensures State() == if done then HandedOff(old(State()), delivery, old(jobs)[delivery].candidate.value, run) else old(State())
    {
      if !IsQaCandidate(jobs[delivery]) {
        return false;
      }
      if exists i :: 0 <= i < |rows| && rows[i].delivery == delivery {
        return false;
      }
      var error := CreateAssuranceJobs(delivery, jobs[delivery].candidate.value, run);
      return error.None?;
    }

    /** A further attempt of one role on the same candidate. */
    method CreateAssuranceRetry(run: Name, candidate: Name, role: Queue, producer: nat, attempt: nat) returns (error: Option<QaError>)
      modifies this
      ensures State() == Retried(old(State()), run, candidate, role, producer, attempt)
      ensures error.None? <==> producer < |old(jobs)|
    {
      if producer >= |jobs| {
        return Some(NoProducer);
      }
      var id := RetryId(run, candidate, role, attempt);
      if exists j :: 0 <= j < |jobs| && jobs[j].humanId == id {
        return None;
      }
      var p := jobs[producer];
      rows := rows + [Row(p.project, producer, |jobs|, candidate, role, Some(run), PENDING)];
      jobs := jobs + [Job(id, p.project, role, role, READY, NoOutcome, None, Some(candidate), Some(candidate), Some(producer))];
      return None;
    }

    /** Turns a worker's output into evidence; never a pass without a validated PASS verdict. */
    method ProcessWorkerOutput(job: nat, report: Option<Report>) returns (r: Result<QaResult, QaError>)
      requires job < |jobs|
      modifies this`rows
      ensures State() == Recorded(old(State()), job, report)
      ensures r.Ok? <==>
        && MayRecord(jobs[job]) && !MovedOn(old(State()), jobs[job])
        && MayUpdate(old(rows), job, jobs[job].sourceSha.value, RecordedResult(old(State()), jobs[job], report))
      ensures r.Ok? ==> r.value == RecordedResult(old(State()), jobs[job], report)
      ensures r == Ok(PASS) ==>
        && report.Some? && report.value.verdict == VERDICT_PASS && Valid(report.value, jobs[job])
        && MayRecord(jobs[job]) && !MovedOn(old(State()), jobs[job])
    {
      var j := jobs[job];
      if !MayRecord(j) {
        return Err(NotIndependent);
      }
      if MovedOn(Ledger(jobs, rows), j) {
        var error := UpdateResult(job, j.sourceSha.value, STALE_REJECTED);
        return Err(if error.Some? then error.value else Stale);
      }
      var result := INCONCLUSIVE;
      if report.Some? && Valid(report.value, j) {
        result := ResultOf(report.value.verdict);
      }
      var error := UpdateResult(job, j.sourceSha.value, result);
      return if error.Some? then Err(error.value) else Ok(result);
    }

    method CollectResults(scope: Scope) returns (results: seq<QaResult>)
      ensures results == Results(rows, scope)
    {
      results := [];
      for n := 0 to |rows|
        invariant results == Results(rows[..n], scope)
      {
        assert rows[..n + 1][..n] == rows[..n];
        if InScope(rows[n], scope) {
          results := results + [rows[n].result];
        }
      }
      assert rows[..|rows|] == rows;
    }

    /** The manager's job: aggregate the assessors' rows onto its own. */
    method ExecuteAggregation(job: nat) returns (r: Result<QaResult, QaError>)
      requires job < |jobs| && jobs[job].queue == QA_MANAGER
      modifies this`rows
      ensures State() == Aggregated(old(State()), job)
      ensures r.Ok? <==> Aggregates(old(State()), job)
      ensures r.Ok? ==> r.value == Aggregate(Results(old(rows), Assessors(jobs[job].sourceJob.value, Subject(jobs[job]).value)))
    {
      if Subject(jobs[job]).None? || jobs[job].sourceJob.None? {
        return Err(NoProvenance);
      }
      var scope := Assessors(jobs[job].sourceJob.value, Subject(jobs[job]).value);
      if exists role :: role in REQUIRED && !RolePresent(rows, scope, role) {
        return Err(RolesMissing);
      }
      var results := CollectResults(scope);
      var error := UpdateResult(job, scope.candidate, Aggregate(results));
      return if error.Some? then Err(error.value) else Ok(Aggregate(results));
    }

    /** Invalidating a delivery cancels its open assurance jobs and rejects its pending evidence. */
    method CancelAssurance(delivery: nat)
      requires delivery < |jobs|
      modifies this
      ensures State() == Cancelled(old(State()), delivery)
    {
      ghost var goal := Cancelled(State(), delivery);
      var id := jobs[delivery].humanId;
      for n := 0 to |jobs|
        invariant rows == old(rows) && |jobs| == |goal.jobs|
        invariant forall i :: 0 <= i < |jobs| ==> jobs[i] == if i < n then goal.jobs[i] else old(jobs)[i]
      {
        if Derived(jobs[n], delivery, id) && Cancellable(jobs[n].status) {
          jobs := jobs[n := jobs[n].(status := CANCELLED)];
        }
      }
      assert jobs == goal.jobs;
      for n := 0 to |rows|
        invariant jobs == goal.jobs && |rows| == |goal.rows|
        invariant forall i :: 0 <= i < |rows| ==> rows[i] == if i < n then goal.rows[i] else old(rows)[i]
      {
        if rows[n].delivery == delivery && rows[n].result == PENDING {
          rows := rows[n := rows[n].(result := STALE_REJECTED)];
        }
      }
      assert rows == goal.rows;
    }
  }

  /** The manager's job has provenance, all four roles have reported, and its own row may take the
      aggregate. */
  predicate Aggregates(s: Ledger, job: nat)
    requires job < |s.jobs|
  {
    && Subject(s.jobs[job]).Some? && s.jobs[job].sourceJob.Some?
    && var scope := Assessors(s.jobs[job].sourceJob.value, Subject(s.jobs[job]).value);
       && (forall role :: role in REQUIRED ==> RolePresent(s.rows, scope, role))
       && MayUpdate(s.rows, job, scope.candidate, Aggregate(Results(s.rows, scope)))
  }

  /** A SUCCEEDED delivery that may feed assurance. */
  predicate IsQaCandidate(j: Job) {
    && j.queue == DELIVERY && j.status == SUCCEEDED && !InvalidOutcome(j.outcome)
    && j.candidate.Some? && j.base.Some? && j.candidate != j.base
  }
}
