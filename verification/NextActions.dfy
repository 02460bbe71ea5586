/** Durable next actions of a run and their agreement with the job table.

    Jobs, remediation work and actions are identified by their position in their table. */
module NextActions {
  import opened Prelude
  import opened Jobs
  import opened RunStates

  datatype JobRow = JobRow(run: Option<Name>, status: JobStatus, priority: int, hasCandidate: bool)
  datatype WorkRow = WorkRow(run: Name, status: WorkStatus)

  datatype ActionType = REMEDIATION_WORK | ACTIVE_ASSESSMENT | PM_QUEUE | SCHEDULED_RETRY | EXECUTABLE_JOB
  datatype ActionStatus = Pending | Claimed | Completed | Cancelled

  datatype Action = Action(
    run: Name, kind: ActionType, status: ActionStatus,
    job: Option<nat>, work: Option<nat>, due: bool, sponsorWait: bool)

  datatype Db = Db(runs: map<Name, RunStatus>, jobs: seq<JobRow>, works: seq<WorkRow>, actions: seq<Action>)

  predicate TerminalJob(s: JobStatus) {
    s in {SUCCEEDED, FAILED, BLOCKED, CANCELLED}
  }

  predicate Executable(s: JobStatus) {
    s in {READY, LEASED, RUNNING, QUEUED, RETRY_WAIT}
  }

  predicate TerminalWork(s: WorkStatus) {
    s in {WORK_COMPLETED, WORK_FAILED, WORK_BLOCKED}
  }

  predicate Open(a: Action) {
    a.status in {Pending, Claimed}
  }

  // ---------------------------------------------------------------------------
  // Acceptance and liveness of an action
  // ---------------------------------------------------------------------------

  /** The referenced job exists and is not bound to another run. */
  predicate JobOfRun(db: Db, job: nat, run: Name) {
    job < |db.jobs| && (db.jobs[job].run.Some? ==> db.jobs[job].run.value == run)
  }

  predicate WorkOfRun(db: Db, work: nat, run: Name) {
    work < |db.works| && db.works[work].run == run
  }

  /** Whether an action may be stored. */
  predicate Accepted(db: Db, a: Action) {
    && a.run in db.runs
    && match a.kind
       case REMEDIATION_WORK =>
         && a.work.Some? && WorkOfRun(db, a.work.value, a.run)
         && (a.job.Some? ==> JobOfRun(db, a.job.value, a.run))
       case ACTIVE_ASSESSMENT =>
         && a.job.Some? && JobOfRun(db, a.job.value, a.run)
         && !TerminalJob(db.jobs[a.job.value].status) && db.jobs[a.job.value].hasCandidate
       case PM_QUEUE =>
         if a.job.None? then db.runs[a.run] == WAITING_FOR_SPONSOR
         else JobOfRun(db, a.job.value, a.run) && !TerminalJob(db.jobs[a.job.value].status)
       case SCHEDULED_RETRY =>
         && a.job.Some? && JobOfRun(db, a.job.value, a.run) && !TerminalJob(db.jobs[a.job.value].status)
         && (db.jobs[a.job.value].status == RETRY_WAIT || a.due)
       case EXECUTABLE_JOB =>
         a.job.Some? && JobOfRun(db, a.job.value, a.run) && !TerminalJob(db.jobs[a.job.value].status)
  }

  /** The job reference of an action, when there is one, can still be worked on. */
  predicate JobRefLive(db: Db, a: Action)
    requires a.job.Some?
  {
    && JobOfRun(db, a.job.value, a.run)
    && var st := db.jobs[a.job.value].status;
       && !TerminalJob(st)
       && (a.kind == ACTIVE_ASSESSMENT ==> Executable(st))
       && (a.kind == SCHEDULED_RETRY ==> st in {RETRY_WAIT, READY, LEASED, RUNNING})
  }

  predicate WorkRefLive(db: Db, a: Action)
    requires a.work.Some?
  {
    WorkOfRun(db, a.work.value, a.run) && !TerminalWork(db.works[a.work.value].status)
  }

  /** Whether a stored action still drives its run. */
  predicate Live(db: Db, a: Action) {
    if a.kind == PM_QUEUE && a.sponsorWait && a.run in db.runs && db.runs[a.run] == WAITING_FOR_SPONSOR then true
    else if a.job.Some? && !JobRefLive(db, a) then false
    else if a.job.None? && a.kind != REMEDIATION_WORK then false
    else if a.work.Some? && !WorkRefLive(db, a) then false
    else if a.work.None? && a.kind == REMEDIATION_WORK then false
    else true
  }

  /** Acceptance does not make an action live; it does exactly when no reference has already ended,
      a scheduled retry does not wait on a QUEUED job, and a jobless PM_QUEUE entry is a sponsor wait. */
  lemma AcceptedIsLiveIff(db: Db, a: Action)
    requires Accepted(db, a)
    ensures Live(db, a) <==>
      || (a.kind == PM_QUEUE && a.sponsorWait && db.runs[a.run] == WAITING_FOR_SPONSOR)
      || (&& (a.work.Some? ==> WorkRefLive(db, a))
          && (a.kind == REMEDIATION_WORK && a.job.Some? ==> !TerminalJob(db.jobs[a.job.value].status))
          && (a.kind == SCHEDULED_RETRY ==> db.jobs[a.job.value].status != QUEUED)
          && (a.kind == PM_QUEUE ==> a.job.Some?))
  {
    if a.job.Some? {
      NonTerminalIsExecutable(db.jobs[a.job.value].status);
    }
    match a.kind
    case REMEDIATION_WORK =>
    case ACTIVE_ASSESSMENT =>
    case PM_QUEUE =>
    case SCHEDULED_RETRY =>
    case EXECUTABLE_JOB =>
  }

  /** A run with one QUEUED job. */
  function OneQueuedJob(): Db {
    Db(map[Name("run") := ACTIVE], [JobRow(Some(Name("run")), QUEUED, 0, false)], [], [])
  }

  /** A retry scheduled with a due time on a QUEUED job is accepted and is not live. */
  lemma AcceptedRetryIsNotLive()
    ensures
      var db, a := OneQueuedJob(), Action(Name("run"), SCHEDULED_RETRY, Pending, Some(0), None, true, false);
      Accepted(db, a) && !Live(db, a)
  {
    AcceptedIsLiveIff(OneQueuedJob(), Action(Name("run"), SCHEDULED_RETRY, Pending, Some(0), None, true, false));
  }

  /** Every status is either terminal or executable. */
  lemma NonTerminalIsExecutable(s: JobStatus)
    ensures TerminalJob(s) <==> !Executable(s)
    ensures s in {RETRY_WAIT, READY, LEASED, RUNNING} <==> !TerminalJob(s) && s != QUEUED
  {
  }

  // ---------------------------------------------------------------------------
  // Reconciliation
  // ---------------------------------------------------------------------------

  /** An open action of the run whose job has ended. */
  predicate Stale(db: Db, run: Name, a: Action) {
    && a.run == run && Open(a) && a.job.Some?
    && a.job.value < |db.jobs| && TerminalJob(db.jobs[a.job.value].status)
  }

  function Sweep(db: Db, run: Name): (r: seq<Action>)
    ensures |r| == |db.actions|
    ensures forall i :: 0 <= i < |r| ==>
      r[i] == if Stale(db, run, db.actions[i]) then db.actions[i].(status := Completed) else db.actions[i]
  {
    seq(|db.actions|, i requires 0 <= i < |db.actions| =>
      if Stale(db, run, db.actions[i]) then db.actions[i].(status := Completed) else db.actions[i])
  }

  function StaleIds(db: Db, run: Name, n: nat): seq<nat>
    requires n <= |db.actions|
  {
    if n == 0 then []
    else StaleIds(db, run, n - 1) + if Stale(db, run, db.actions[n - 1]) then [n - 1] else []
  }

  predicate HasLive(db: Db, run: Name) {
    exists i :: 0 <= i < |db.actions| && db.actions[i].run == run && Open(db.actions[i]) && Live(db, db.actions[i])
  }

  predicate CanRun(jobs: seq<JobRow>, run: Name, job: nat)
    requires job < |jobs|
  {
    jobs[job].run == Some(run) && Executable(jobs[job].status)
  }

  /** The first executable job of the run by priority, then id, among the first `n` jobs. */
  function NextJob(jobs: seq<JobRow>, run: Name, n: nat): Option<nat>
    requires n <= |jobs|
    ensures NextJob(jobs, run, n).Some? ==> NextJob(jobs, run, n).value < n
  {
    if n == 0 then None
    else
      var best := NextJob(jobs, run, n - 1);
      if CanRun(jobs, run, n - 1) && (best.None? || jobs[n - 1].priority < jobs[best.value].priority)
      then Some(n - 1) else best
  }

  lemma {:induction false} NextJobIsLeast(jobs: seq<JobRow>, run: Name, n: nat)
    requires n <= |jobs|
    ensures
      var best := NextJob(jobs, run, n);
      && (best.None? <==> forall j :: 0 <= j < n ==> !CanRun(jobs, run, j))
      && (best.Some? ==> CanRun(jobs, run, best.value) && forall j :: 0 <= j < n && CanRun(jobs, run, j) && j != best.value ==>
        || jobs[best.value].priority < jobs[j].priority
        || (jobs[best.value].priority == jobs[j].priority && best.value < j))
  {
    if n > 0 {
      NextJobIsLeast(jobs, run, n - 1);
    }
  }

  function ExecutableAction(run: Name, job: nat): Action {
    Action(run, EXECUTABLE_JOB, Pending, Some(job), None, false, false)
  }

  /** The action table after a reconcile, and the action ids it reports. */
  function Reconciled(db: Db, run: Name): (seq<Action>, seq<nat>) {
    if run !in db.runs || TerminalStatus(db.runs[run]) then (db.actions, [])
    else
      var swept := Sweep(db, run);
      var touched := StaleIds(db, run, |db.actions|);
      var next := NextJob(db.jobs, run, |db.jobs|);
      if HasLive(db.(actions := swept), run) || next.None? then (swept, touched)
      else (swept + [ExecutableAction(run, next.value)], touched + [|swept|])
  }

  class ActionTable {
    const runs: map<Name, RunStatus>
    const jobs: seq<JobRow>
    const works: seq<WorkRow>
    var actions: seq<Action>

    ghost function State(): Db
      reads this
    {
      Db(runs, jobs, works, actions)
    }

    constructor (db: Db)
      ensures State() == db
    {
      runs, jobs, works, actions := db.runs, db.jobs, db.works, db.actions;
    }

    /** Stores an action the tables back up; refuses any other. */
    method Persist(a: Action) returns (id: Option<nat>)
      modifies this`actions
      ensures id.Some? <==> Accepted(old(State()), a)
      ensures id.Some? ==> id.value == |old(actions)| && actions == old(actions) + [a.(status := Pending)]
      ensures id.None? ==> actions == old(actions)
    {
      if !Accepted(Db(runs, jobs, works, actions), a) {
        return None;
      }
      id := Some(|actions|);
      actions := actions + [a.(status := Pending)];
    }

    method CompleteStale(run: Name) returns (touched: seq<nat>)
      modifies this`actions
      ensures actions == Sweep(old(State()), run)
      ensures touched == StaleIds(old(State()), run, |old(actions)|)
    {
      touched := [];
      ghost var db := State();
      for i := 0 to |actions|
        invariant |actions| == |db.actions| && touched == StaleIds(db, run, i)
        invariant forall k :: 0 <= k < |actions| ==> actions[k] == if k < i then Sweep(db, run)[k] else db.actions[k]
      {
        var a := actions[i];
        if a.run == run && Open(a) && a.job.Some? && a.job.value < |jobs| && TerminalJob(jobs[a.job.value].status) {
          actions := actions[i := a.(status := Completed)];
          touched := touched + [i];
        }
      }
    }

    method FirstExecutable(run: Name) returns (best: Option<nat>)
      ensures best == NextJob(jobs, run, |jobs|)
    {
      best := None;
      for n := 0 to |jobs|
        invariant best == NextJob(jobs, run, n)
      {
        if jobs[n].run == Some(run) && Executable(jobs[n].status) && (best.None? || jobs[n].priority < jobs[best.value].priority) {
          best := Some(n);
        }
      }
    }

    method Reconcile(run: Name) returns (touched: seq<nat>)
      modifies this`actions
      ensures (actions, touched) == Reconciled(old(State()), run)
    {
      if run !in runs || TerminalStatus(runs[run]) {
        return [];
      }
      touched := CompleteStale(run);
      if HasLive(Db(runs, jobs, works, actions), run) {
        return;
      }
      var next := FirstExecutable(run);
      if next.None? {
        return;
      }
      NextJobIsLeast(jobs, run, |jobs|);
      var id := Persist(ExecutableAction(run, next.value));
      touched := touched + [id.value];
    }
  }

  // ---------------------------------------------------------------------------
  // What a reconcile establishes
  // ---------------------------------------------------------------------------

  /** The run has something a worker could pick up. */
  ghost predicate HasExecutable(db: Db, run: Name) {
    exists j :: 0 <= j < |db.jobs| && CanRun(db.jobs, run, j)
  }

  function After(db: Db, run: Name): Db {
    db.(actions := Reconciled(db, run).0)
  }

  lemma SweepIsClean(db: Db, run: Name)
    ensures forall i :: 0 <= i < |Sweep(db, run)| ==> !Stale(db.(actions := Sweep(db, run)), run, Sweep(db, run)[i])
  {
  }

  lemma CreatedActionIsLive(db: Db, run: Name, job: nat)
    requires run in db.runs && job < |db.jobs| && CanRun(db.jobs, run, job)
    ensures Accepted(db, ExecutableAction(run, job)) && Live(db, ExecutableAction(run, job))
    ensures !Stale(db, run, ExecutableAction(run, job))
  {
  }

  /** After reconciling a nonterminal run no open action points at an ended job, and if anything
      is executable some live action exists. */
  lemma ReconcileAgrees(db: Db, run: Name)
    requires run in db.runs && !TerminalStatus(db.runs[run])
    ensures forall i :: 0 <= i < |After(db, run).actions| ==> !Stale(db, run, After(db, run).actions[i])
    ensures HasExecutable(db, run) ==> HasLive(After(db, run), run)
  {
    var swept, acts := Sweep(db, run), After(db, run).actions;
    var next := NextJob(db.jobs, run, |db.jobs|);
    SweepIsClean(db, run);
    NextJobIsLeast(db.jobs, run, |db.jobs|);
    if |acts| > |swept| {
      CreatedActionIsLive(db.(actions := acts), run, next.value);
      assert acts[|swept|] == ExecutableAction(run, next.value);
    }
  }

  /** A reconcile completes stale actions of its own run and nothing else; it creates at most one
      action, only when none was live, for the job that is least by priority, then id. */
  lemma ReconcileChanges(db: Db, run: Name)
    ensures
      var acts := After(db, run).actions;
      && |db.actions| <= |acts| <= |db.actions| + 1
      && (forall i :: 0 <= i < |db.actions| && acts[i] != db.actions[i] ==>
        Stale(db, run, db.actions[i]) && acts[i] == db.actions[i].(status := Completed))
      && (|acts| > |db.actions| ==>
        && !HasLive(db.(actions := acts[..|db.actions|]), run)
        && exists job :: 0 <= job < |db.jobs| && acts[|db.actions|] == ExecutableAction(run, job) && IsLeast(db.jobs, run, job))
  {
    var acts := After(db, run).actions;
    if |acts| > |db.actions| {
      NextJobIsLeast(db.jobs, run, |db.jobs|);
      assert acts[..|db.actions|] == Sweep(db, run);
      assert IsLeast(db.jobs, run, NextJob(db.jobs, run, |db.jobs|).value);
    }
  }

  ghost predicate IsLeast(jobs: seq<JobRow>, run: Name, job: nat)
    requires job < |jobs|
  {
    && CanRun(jobs, run, job)
    && forall j :: 0 <= j < |jobs| && CanRun(jobs, run, j) && j != job ==>
      jobs[job].priority < jobs[j].priority || (jobs[job].priority == jobs[j].priority && job < j)
  }

  lemma {:induction false} NothingStale(db: Db, run: Name, n: nat)
    requires n <= |db.actions| && forall i :: 0 <= i < |db.actions| ==> !Stale(db, run, db.actions[i])
    ensures StaleIds(db, run, n) == []
  {
    if n > 0 {
      NothingStale(db, run, n - 1);
    }
  }

  /** A second reconcile reports nothing and changes nothing. */
  lemma ReconcileIdempotent(db: Db, run: Name)
    ensures Reconciled(After(db, run), run) == (After(db, run).actions, [])
  {
    if run in db.runs && !TerminalStatus(db.runs[run]) {
      var db' := After(db, run);
      ReconcileAgrees(db, run);
      NothingStale(db', run, |db'.actions|);
      assert Sweep(db', run) == db'.actions;
      NextJobIsLeast(db.jobs, run, |db.jobs|);
    }
  }

  // ---------------------------------------------------------------------------
  // The inert-run diagnostic
  // ---------------------------------------------------------------------------

  datatype Classification = NoRunOrTerminal | SponsorWait | DrivenBy(kind: ActionType) | ExecutableState | Inert

  predicate HasOutstandingWork(db: Db, run: Name) {
    exists w :: 0 <= w < |db.works| && db.works[w].run == run && db.works[w].status in {WORK_ASSIGNED, WORK_RUNNING}
  }

  predicate HasDurableAction(db: Db, run: Name) {
    && run in db.runs
    && (|| db.runs[run] == WAITING_FOR_SPONSOR
        || (exists j :: 0 <= j < |db.jobs| && CanRun(db.jobs, run, j))
        || HasOutstandingWork(db, run)
        || HasLive(db, run))
  }

  /** The oldest live action of the run. */
  function FirstLive(db: Db, run: Name, n: nat): Option<nat>
    requires n <= |db.actions|
    ensures FirstLive(db, run, n).Some? ==> FirstLive(db, run, n).value < n
  {
    if n == 0 then None
    else
      var first := FirstLive(db, run, n - 1);
      var a := db.actions[n - 1];
      if first.None? && a.run == run && Open(a) && Live(db, a) then Some(n - 1) else first
  }

  function Classify(db: Db, run: Name): Classification {
    if run !in db.runs || TerminalStatus(db.runs[run]) then NoRunOrTerminal
    else if db.runs[run] == WAITING_FOR_SPONSOR then SponsorWait
    else
      var first := FirstLive(db, run, |db.actions|);
      if first.Some? then DrivenBy(db.actions[first.value].kind)
      else if HasDurableAction(db, run) then ExecutableState
      else Inert
  }

  lemma {:induction false} FirstLiveIff(db: Db, run: Name, n: nat)
    requires n <= |db.actions|
    ensures FirstLive(db, run, n).Some? <==>
      exists i :: 0 <= i < n && db.actions[i].run == run && Open(db.actions[i]) && Live(db, db.actions[i])
  {
    if n > 0 {
      FirstLiveIff(db, run, n - 1);
    }
  }

  /** A run is reported inert exactly when it is open, not waiting for the sponsor, and nothing at
      all would move it; after a reconcile a run with executable work is driven by an action. */
  lemma InertIffNothingMoves(db: Db, run: Name)
    ensures Classify(db, run) == Inert <==>
      && run in db.runs && !TerminalStatus(db.runs[run]) && db.runs[run] != WAITING_FOR_SPONSOR
      && !HasExecutable(db, run) && !HasOutstandingWork(db, run) && !HasLive(db, run)
    ensures HasExecutable(db, run) && run in db.runs && !TerminalStatus(db.runs[run]) && db.runs[run] != WAITING_FOR_SPONSOR
      ==> Classify(After(db, run), run).DrivenBy?
  {
    FirstLiveIff(db, run, |db.actions|);
    FirstLiveIff(After(db, run), run, |After(db, run).actions|);
    if HasExecutable(db, run) && run in db.runs && !TerminalStatus(db.runs[run]) {
      ReconcileAgrees(db, run);
    }
  }
}
