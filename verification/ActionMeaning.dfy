/** What accepting, reconciling and classifying next actions mean, column by column. */
module ActionMeaning {
  import opened Prelude
  import opened Jobs
  import opened RunStates
  import opened NextActions

  predicate Ended(s: JobStatus) {
    s == SUCCEEDED || s == FAILED || s == BLOCKED || s == CANCELLED
  }

  predicate EndedWork(s: WorkStatus) {
    s == WORK_COMPLETED || s == WORK_FAILED || s == WORK_BLOCKED
  }

  predicate EndedRun(s: RunStatus) {
    s == CLOSED_COMPLETED || s == CLOSED_BLOCKED || s == CLOSED_FAILED || s == CLOSED_CANCELLED || s == CLOSED_ESCALATED
  }

  /** The action names an existing job that belongs to its run or to none. */
  predicate NamesJob(db: Db, a: Action) {
    a.job.Some? && a.job.value < |db.jobs| && (db.jobs[a.job.value].run == None || db.jobs[a.job.value].run == Some(a.run))
  }

  predicate NamesWork(db: Db, a: Action) {
    a.work.Some? && a.work.value < |db.works| && db.works[a.work.value].run == a.run
  }

  predicate NamesOpenJob(db: Db, a: Action) {
    NamesJob(db, a) && !Ended(db.jobs[a.job.value].status)
  }

  /** What may be stored for a known run: remediation names its work, and any job it names exists; an assessment a job
      that has not ended and has a candidate; a scheduled retry one that waits for it or has a due time; an
      executable job one that has not ended; and the PM's queue one too, or none while the sponsor is awaited. */
  lemma AcceptedMeans(db: Db, a: Action)
    ensures Accepted(db, a) <==>
      && a.run in db.runs
      && (a.kind == REMEDIATION_WORK ==> NamesWork(db, a) && (a.job == None || NamesJob(db, a)))
      && (a.kind == ACTIVE_ASSESSMENT ==> NamesOpenJob(db, a) && db.jobs[a.job.value].hasCandidate)
      && (a.kind == SCHEDULED_RETRY ==> NamesOpenJob(db, a) && (db.jobs[a.job.value].status == RETRY_WAIT || a.due))
      && (a.kind == EXECUTABLE_JOB ==> NamesOpenJob(db, a))
      && (a.kind == PM_QUEUE ==> if a.job == None then db.runs[a.run] == WAITING_FOR_SPONSOR else NamesOpenJob(db, a))
  {
  }

  /** What drives a run: a wait for the sponsor that is still on, or an action all of whose references can still be
      worked on. */
  predicate Drives(db: Db, a: Action) {
    || (a.kind == PM_QUEUE && a.sponsorWait && a.run in db.runs && db.runs[a.run] == WAITING_FOR_SPONSOR)
    || (&& (if a.job == None then a.kind == REMEDIATION_WORK
            else NamesOpenJob(db, a) && (a.kind == SCHEDULED_RETRY ==> db.jobs[a.job.value].status != QUEUED))
        && (if a.work == None then a.kind != REMEDIATION_WORK else NamesWork(db, a) && !EndedWork(db.works[a.work.value].status)))
  }

  lemma LiveMeans(db: Db, a: Action)
    ensures Live(db, a) <==> Drives(db, a)
  {
    if a.job.Some? && a.job.value < |db.jobs| {
      NonTerminalIsExecutable(db.jobs[a.job.value].status);
    }
  }

  predicate Outstanding(a: Action, run: Name) {
    a.run == run && (a.status == Pending || a.status == Claimed)
  }

  predicate PointsAtEnded(db: Db, a: Action) {
    a.job.Some? && a.job.value < |db.jobs| && Ended(db.jobs[a.job.value].status)
  }

  /** Some pending or claimed action of the run drives it. */
  ghost predicate Driven(db: Db, run: Name) {
    exists i :: 0 <= i < |db.actions| && Outstanding(db.actions[i], run) && Drives(db, db.actions[i])
  }

  lemma DrivenMeans(db: Db, run: Name)
    ensures HasLive(db, run) <==> Driven(db, run)
  {
    forall i | 0 <= i < |db.actions|
      ensures Live(db, db.actions[i]) <==> Drives(db, db.actions[i])
    {
      LiveMeans(db, db.actions[i]);
    }
  }

  predicate Waiting(j: JobRow, run: Name) {
    j.run == Some(run) && (j.status == READY || j.status == LEASED || j.status == RUNNING || j.status == QUEUED || j.status == RETRY_WAIT)
  }

  /** Job `j` is the run's waiting job of least priority number, and of these the oldest. */
  ghost predicate Foremost(jobs: seq<JobRow>, run: Name, j: nat) {
    && j < |jobs| && Waiting(jobs[j], run)
    && forall k :: 0 <= k < |jobs| && k != j && Waiting(jobs[k], run) ==>
      jobs[j].priority < jobs[k].priority || (jobs[j].priority == jobs[k].priority && j < k)
  }

  lemma ForemostIsNext(db: Db, run: Name)
    ensures NextJob(db.jobs, run, |db.jobs|).Some? <==> exists j :: 0 <= j < |db.jobs| && Waiting(db.jobs[j], run)
    ensures NextJob(db.jobs, run, |db.jobs|).Some? ==> Foremost(db.jobs, run, NextJob(db.jobs, run, |db.jobs|).value)
  {
    NextJobIsLeast(db.jobs, run, |db.jobs|);
    assert forall j :: 0 <= j < |db.jobs| ==> (CanRun(db.jobs, run, j) <==> Waiting(db.jobs[j], run));
  }

  /** An outstanding action of the run that points at an ended job is completed, and no other action changes. */
  ghost predicate SweptAction(db: Db, run: Name, a: Action, now: Action) {
    now == a.(status := if Outstanding(a, run) && PointsAtEnded(db, a) then Completed else a.status)
  }

  /** The table after reconciling a run that has not ended: its outstanding actions on ended jobs, pending or
      claimed, are completed; and if then nothing drives it but a job waits, one pending action for the
      foremost such job is added at the end. */
  lemma ReconcileMeans(db: Db, run: Name)
    requires run in db.runs && !EndedRun(db.runs[run])
    ensures
      var acts := After(db, run).actions;
      && |db.actions| <= |acts| <= |db.actions| + 1
      && (forall i :: 0 <= i < |db.actions| ==> SweptAction(db, run, db.actions[i], acts[i]))
      && (|acts| > |db.actions| <==>
          !Driven(db.(actions := acts[..|db.actions|]), run) && exists j :: 0 <= j < |db.jobs| && Waiting(db.jobs[j], run))
      && (|acts| > |db.actions| ==>
          var a := acts[|db.actions|];
          && a.run == run && a.kind == EXECUTABLE_JOB && a.status == Pending && a.work == None && !a.due && !a.sponsorWait
          && a.job.Some? && Foremost(db.jobs, run, a.job.value))
  {
    var acts, swept := After(db, run).actions, Sweep(db, run);
    ForemostIsNext(db, run);
    DrivenMeans(db.(actions := swept), run);
    assert acts[..|db.actions|] == swept;
    forall i | 0 <= i < |db.actions|
      ensures SweptAction(db, run, db.actions[i], acts[i])
    {
      assert acts[i] == swept[i];
    }
  }

  /** A run that has ended or is unknown is not touched. */
  lemma EndedRunStays(db: Db, run: Name)
    requires run !in db.runs || EndedRun(db.runs[run])
    ensures After(db, run) == db && Reconciled(db, run).1 == []
  {
  }

  /** The ids a reconcile reports are those of the actions it completed, in order, and of the one it added. */
  lemma {:induction false} ReportedIds(db: Db, run: Name, n: nat)
    requires n <= |db.actions|
    ensures forall i :: i in StaleIds(db, run, n) <==> 0 <= i < n && Outstanding(db.actions[i], run) && PointsAtEnded(db, db.actions[i])
    ensures forall i, j :: 0 <= i < j < |StaleIds(db, run, n)| ==> StaleIds(db, run, n)[i] < StaleIds(db, run, n)[j]
  {
    if n > 0 {
      ReportedIds(db, run, n - 1);
      var front := StaleIds(db, run, n - 1);
      assert forall i :: 0 <= i < |front| ==> front[i] in front;
    }
  }

  ghost predicate WorkOutstanding(db: Db, run: Name) {
    exists w :: 0 <= w < |db.works| && db.works[w].run == run && (db.works[w].status == WORK_ASSIGNED || db.works[w].status == WORK_RUNNING)
  }

  /** How a run is reported: not at all if it is unknown or has ended, as waiting for the sponsor if it is, by an
      action if one drives it, and otherwise by whether a job or outstanding work moves it. */
  lemma ClassifyMeans(db: Db, run: Name)
    ensures
      var c := Classify(db, run);
      var open := run in db.runs && !EndedRun(db.runs[run]) && db.runs[run] != WAITING_FOR_SPONSOR;
      var jobs := exists j :: 0 <= j < |db.jobs| && Waiting(db.jobs[j], run);
      && (c == NoRunOrTerminal <==> run !in db.runs || EndedRun(db.runs[run]))
      && (c == SponsorWait <==> run in db.runs && db.runs[run] == WAITING_FOR_SPONSOR)
      && (c.DrivenBy? <==> open && Driven(db, run))
      && (c == ExecutableState <==> open && !Driven(db, run) && (jobs || WorkOutstanding(db, run)))
      && (c == Inert <==> open && !Driven(db, run) && !jobs && !WorkOutstanding(db, run))
  {
    FirstLiveIff(db, run, |db.actions|);
    DrivenMeans(db, run);
    assert forall j :: 0 <= j < |db.jobs| ==> (CanRun(db.jobs, run, j) <==> Waiting(db.jobs[j], run));
    assert HasOutstandingWork(db, run) <==> WorkOutstanding(db, run);
  }

  /** The oldest outstanding action of the run that drives it. */
  ghost predicate OldestDriver(db: Db, run: Name, i: nat) {
    && i < |db.actions| && Outstanding(db.actions[i], run) && Drives(db, db.actions[i])
    && forall k :: 0 <= k < i ==> !(Outstanding(db.actions[k], run) && Drives(db, db.actions[k]))
  }

  lemma {:induction false} FirstLiveIsOldest(db: Db, run: Name, i: nat, n: nat)
    requires OldestDriver(db, run, i) && n <= |db.actions|
    ensures FirstLive(db, run, n) == if i < n then Some(i) else None
  {
    if n > 0 {
      FirstLiveIsOldest(db, run, i, n - 1);
      LiveMeans(db, db.actions[n - 1]);
    }
  }

  /** A driven run is reported under the kind of its oldest driving action. */
  lemma ReportedByOldest(db: Db, run: Name, i: nat)
    requires run in db.runs && !EndedRun(db.runs[run]) && db.runs[run] != WAITING_FOR_SPONSOR && OldestDriver(db, run, i)
    ensures Classify(db, run) == DrivenBy(db.actions[i].kind)
  {
    FirstLiveIsOldest(db, run, i, |db.actions|);
  }
}
