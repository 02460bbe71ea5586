/** Governed reconciliation of a stale RELEASE attempt: historical rows are kept, and a successor
    bound to the authoritative integration candidate supersedes them. */
module ReleaseRetry {
  import opened Prelude
  import opened Jobs
  import opened QaTypes
  import opened ReleaseProvenance

  const REQUIRED_PROJECT := Name("PRJ-003")
  const REQUIRED_ITERATION := Name("ITER-002")
  const AUTHORITATIVE_SHA := Name("5811c17730849fe0282db06690f9d9d7cd5315a1")

  datatype Refusal =
    | NotFound | NotARelease | WrongIdentity | Busy | RetryWaiting
    | NoIntegration | IntegrationNotSuccessful | IntegrationInvalidated | CandidateMissing | IdentityMismatch
    | AmbiguousProvenance | NotAuthoritative | QaIncomplete | GatesClosed | NoStaleDefect

  datatype Verdict = Refused(why: Refusal) | AlreadyReconciled(tip: nat) | CreatedSuccessor(id: nat)

  predicate Retryable(s: JobStatus) {
    s in {BLOCKED, FAILED}
  }

  // ---------------------------------------------------------------------------
  // Supersession links
  // ---------------------------------------------------------------------------

  /** Every RELEASE job is superseded, if at all, by a strictly newer RELEASE job.  Nothing is said
      about other queues, whose links invalidation may point anywhere. */
  ghost predicate Forward(jobs: seq<Job>) {
    forall j :: 0 <= j < |jobs| && jobs[j].queue == RELEASE && jobs[j].supersededBy.Some? ==> NewerRelease(jobs, j, jobs[j].supersededBy.value)
  }

  predicate NewerRelease(jobs: seq<Job>, j: nat, next: nat) {
    j < next < |jobs| && jobs[next].queue == RELEASE
  }

  predicate IsReleaseAt(jobs: seq<Job>, j: nat) {
    j < |jobs| && jobs[j].queue == RELEASE
  }

  /** The end of a RELEASE job's chain of successors. */
  ghost function Walk(jobs: seq<Job>, j: nat): (tip: nat)
    requires Forward(jobs) && IsReleaseAt(jobs, j)
    ensures j <= tip && IsReleaseAt(jobs, tip) && jobs[tip].supersededBy.None?
    decreases |jobs| - j
  {
    if jobs[j].supersededBy.None? then j else Walk(jobs, jobs[j].supersededBy.value)
  }

  /** Follows the links with a guard against revisiting; the guard never stops the walk, since the
      job it returns is not superseded. */
  method WalkSuccessor(jobs: seq<Job>, j: nat) returns (current: nat)
    requires Forward(jobs) && IsReleaseAt(jobs, j)
    ensures current == Walk(jobs, j)
  {
    var seen: set<nat> := {};
    current := j;
    while jobs[current].supersededBy.Some? && current !in seen
      invariant IsReleaseAt(jobs, current) && Walk(jobs, current) == Walk(jobs, j)
      invariant forall s :: s in seen ==> s < current
      decreases |jobs| - current
    {
      seen := seen + {current};
      current := jobs[current].supersededBy.value;
    }
  }

  // ---------------------------------------------------------------------------
  // The integration a stale release must move to
  // ---------------------------------------------------------------------------

  /** The tests a candidate integration goes through, in the order they are applied. */
  datatype Test = InQueue | RowOfIdentity | HasSucceeded | OutcomeValid | HasSha | SameIdentity

  predicate Passes(jobs: seq<Job>, release: Job, t: Test, i: nat) {
    && i < |jobs|
    && match t
       case InQueue => jobs[i].queue == INTEGRATION
       case RowOfIdentity =>
         && jobs[i].queue == INTEGRATION && jobs[i].project == release.project
         && IterationKey(jobs[i].iteration) == IterationKey(release.iteration)
       case HasSucceeded => jobs[i].status == SUCCEEDED
       case OutcomeValid => !InvalidOutcome(jobs[i].outcome)
       case HasSha => jobs[i].candidate.Some?
       case SameIdentity => IdentityMatches(jobs[i], release)
  }

  function Filter(jobs: seq<Job>, release: Job, t: Test, ids: seq<nat>): (r: seq<nat>)
    ensures forall k :: 0 <= k < |r| ==> r[k] < |jobs|
  {
    if ids == [] then []
    else
      var last := ids[|ids| - 1];
      Filter(jobs, release, t, ids[..|ids| - 1]) + if Passes(jobs, release, t, last) then [last] else []
  }

  lemma {:induction false} FilterKeeps(jobs: seq<Job>, release: Job, t: Test, ids: seq<nat>)
    ensures forall x :: x in Filter(jobs, release, t, ids) <==> x in ids && Passes(jobs, release, t, x)
  {
    if ids != [] {
      FilterKeeps(jobs, release, t, ids[..|ids| - 1]);
      assert ids == ids[..|ids| - 1] + [ids[|ids| - 1]];
    }
  }

  /** A missing iteration and an empty one are the same to the row query. */
  function IterationKey(i: Option<Name>): Name {
    if i.None? then Name("") else i.value
  }

  function NumbersBut(n: nat, drop: seq<nat>): seq<nat> {
    if n == 0 then [] else NumbersBut(n - 1, drop) + if n - 1 in drop then [] else [n - 1]
  }

  /** INTEGRATION dependencies first, then the remaining INTEGRATION jobs of the same identity. */
  function Candidates(jobs: seq<Job>, release: Job): seq<nat> {
    var own := Filter(jobs, release, InQueue, release.deps);
    own + Filter(jobs, release, RowOfIdentity, NumbersBut(|jobs|, own))
  }

  lemma CandidatesAre(jobs: seq<Job>, release: Job)
    ensures forall i :: i in Candidates(jobs, release) ==> i < |jobs| && jobs[i].queue == INTEGRATION
    ensures forall i :: i in release.deps && i < |jobs| && jobs[i].queue == INTEGRATION ==> i in Candidates(jobs, release)
  {
    var own := Filter(jobs, release, InQueue, release.deps);
    FilterKeeps(jobs, release, InQueue, release.deps);
    FilterKeeps(jobs, release, RowOfIdentity, NumbersBut(|jobs|, own));
  }

  /** The candidates that passed every test, or the first reason none did. */
  function Survivors(jobs: seq<Job>, release: Job): (r: Result<seq<nat>, Refusal>)
    ensures r.Ok? ==> r.value != [] && r.value[0] < |jobs|
  {
    var found := Candidates(jobs, release);
    if found == [] then Err(NoIntegration)
    else
      var succeeded := Filter(jobs, release, HasSucceeded, found);
      if succeeded == [] then Err(IntegrationNotSuccessful)
      else
        var valid := Filter(jobs, release, OutcomeValid, succeeded);
        if valid == [] then Err(IntegrationInvalidated)
        else
          var withSha := Filter(jobs, release, HasSha, valid);
          if withSha == [] then Err(CandidateMissing)
          else
            var same := Filter(jobs, release, SameIdentity, withSha);
            if same == [] then Err(IdentityMismatch) else Ok(same)
  }

  lemma SurvivorsAreUsable(jobs: seq<Job>, release: Job)
    requires Survivors(jobs, release).Ok?
    ensures Survivors(jobs, release).value != []
    ensures forall i :: i in Survivors(jobs, release).value <==> i in Candidates(jobs, release) && i < |jobs| && Usable(jobs[i], release)
  {
    forall i: nat
      ensures i in Survivors(jobs, release).value <==> i in Candidates(jobs, release) && i < |jobs| && Usable(jobs[i], release)
    {
      SurvivorIff(jobs, release, i);
    }
  }

  lemma SurvivorIff(jobs: seq<Job>, release: Job, i: nat)
    requires Survivors(jobs, release).Ok?
    ensures i in Survivors(jobs, release).value <==> i in Candidates(jobs, release) && i < |jobs| && Usable(jobs[i], release)
  {
    var found := Candidates(jobs, release);
    var succeeded := Filter(jobs, release, HasSucceeded, found);
    var valid := Filter(jobs, release, OutcomeValid, succeeded);
    var withSha := Filter(jobs, release, HasSha, valid);
    CandidatesAre(jobs, release);
    FilterHas(jobs, release, HasSucceeded, found, i);
    FilterHas(jobs, release, OutcomeValid, succeeded, i);
    FilterHas(jobs, release, HasSha, valid, i);
    FilterHas(jobs, release, SameIdentity, withSha, i);
  }

  lemma FilterHas(jobs: seq<Job>, release: Job, t: Test, ids: seq<nat>, i: nat)
    ensures i in Filter(jobs, release, t, ids) <==> i in ids && Passes(jobs, release, t, i)
  {
    FilterKeeps(jobs, release, t, ids);
  }

  predicate OneCandidate(jobs: seq<Job>, ids: seq<nat>) {
    forall a, b :: a in ids && b in ids && a < |jobs| && b < |jobs| ==> jobs[a].candidate == jobs[b].candidate
  }

  /** The integration a stale RELEASE job must move to, or why there is none. */
  function ResolveIntegration(db: Db, release: Job): Result<nat, Refusal>
    requires DepsOk(db.jobs)
  {
    var survivors := Survivors(db.jobs, release);
    if survivors.Err? then Err(survivors.error)
    else if !OneCandidate(db.jobs, survivors.value) then Err(AmbiguousProvenance)
    else
      var integ := survivors.value[0];
      if db.jobs[integ].candidate != Some(AUTHORITATIVE_SHA) then Err(NotAuthoritative)
      else if !QaGatesSatisfied(db, integ) then Err(QaIncomplete)
      else if !AllowsRelease(db, integ, release) then Err(GatesClosed)
      else Ok(integ)
  }

  /** The last check repeats what the filters established and never refuses. */
  lemma GatesClosedIsUnreachable(db: Db, release: Job)
    requires DepsOk(db.jobs)
    ensures ResolveIntegration(db, release) != Err(GatesClosed)
  {
    if Survivors(db.jobs, release).Ok? {
      SurvivorsAreUsable(db.jobs, release);
      var ids := Survivors(db.jobs, release).value;
      assert ids[0] in ids;
    }
  }

  /** An accepted integration allows the release, carries the authoritative SHA, and so does every
      usable integration the release depends on. */
  lemma AcceptedIntegration(db: Db, release: Job)
    requires DepsOk(db.jobs) && ResolveIntegration(db, release).Ok?
    ensures
      var integ := ResolveIntegration(db, release).value;
      && integ < |db.jobs| && AllowsRelease(db, integ, release) && db.jobs[integ].candidate == Some(AUTHORITATIVE_SHA)
    ensures forall i :: i in release.deps && i < |db.jobs| && Usable(db.jobs[i], release) ==>
      db.jobs[i].candidate == Some(AUTHORITATIVE_SHA)
  {
    SurvivorsAreUsable(db.jobs, release);
    CandidatesAre(db.jobs, release);
    var ids := Survivors(db.jobs, release).value;
    assert ids[0] in ids;
  }

  // ---------------------------------------------------------------------------
  // The successor
  // ---------------------------------------------------------------------------

  function Dedup(deps: seq<nat>): seq<nat> {
    if deps == [] then []
    else
      var front, last := Dedup(deps[..|deps| - 1]), deps[|deps| - 1];
      if last in front then front else front + [last]
  }

  lemma {:induction false} DedupMembers(deps: seq<nat>)
    ensures forall x :: x in Dedup(deps) <==> x in deps
  {
    if deps != [] {
      DedupMembers(deps[..|deps| - 1]);
      assert deps == deps[..|deps| - 1] + [deps[|deps| - 1]];
    }
  }

  function WithIntegration(deps: seq<nat>, integ: nat): seq<nat> {
    if integ in deps then deps else deps + [integ]
  }

  /** The row of the successor when binding begins. */
  function Successor(job: Job, name: string, integ: nat, sha: Name): Job {
    Job(name, job.project, job.iteration, RELEASE, RELEASE, QUEUED, NoOutcome, None, Some(sha), None, None, None, 0, false,
        WithIntegration(Dedup(job.deps), integ))
  }

  lemma SuccessorDeps(job: Job, name: string, integ: nat, sha: Name)
    ensures forall x :: x in Successor(job, name, integ, sha).deps <==> x in job.deps || x == integ
  {
    DedupMembers(job.deps);
  }

  lemma AppendManager(jobs: seq<Job>, extra: Job, humanId: string)
    requires ManagerSucceeded(jobs, humanId)
    ensures ManagerSucceeded(jobs + [extra], humanId)
  {
    var m :| 0 <= m < |jobs| && jobs[m].humanId == humanId + "__QA_MANAGER" && jobs[m].status == SUCCEEDED;
    assert (jobs + [extra])[m] == jobs[m];
  }

  lemma AppendDeps(jobs: seq<Job>, extra: Job)
    requires DepsOk(jobs) && forall k :: 0 <= k < |extra.deps| ==> extra.deps[k] < |jobs|
    ensures DepsOk(jobs + [extra])
  {
    var all := jobs + [extra];
    forall j, k | 0 <= j < |all| && 0 <= k < |all[j].deps|
      ensures all[j].deps[k] < |all|
    {
      assert j < |jobs| ==> all[j] == jobs[j];
    }
  }

  /** Adding a row keeps an integration that allows a release doing so, for any release of the
      same identity. */
  lemma AppendAllows(db: Db, extra: Job, integ: nat, release: Job)
    requires DepsOk(db.jobs) && DepsOk(db.jobs + [extra]) && integ < |db.jobs|
    requires AllowsRelease(db, integ, release) && extra.project == release.project && extra.iteration == release.iteration
    ensures AllowsRelease(db.(jobs := db.jobs + [extra]), integ, extra)
  {
    var db' := db.(jobs := db.jobs + [extra]);
    assert db'.jobs[integ] == db.jobs[integ];
    forall k | 0 <= k < |db.jobs[integ].deps|
      ensures
        var d := db'.jobs[integ].deps[k];
        db'.jobs[d].queue == DELIVERY ==> SatisfiesDependency(db'.jobs[d]) && DeliveryQaPassed(db', d)
    {
      var d := db.jobs[integ].deps[k];
      assert db'.jobs[d] == db.jobs[d];
      if db.jobs[d].queue == DELIVERY {
        AppendManager(db.jobs, extra, db.jobs[d].humanId);
      }
    }
  }

  /** Once an integration has been accepted for a stale release, binding the successor cannot
      refuse: its gates are met and its usable dependencies agree on the authoritative SHA. */
  lemma BindingCannotRefuse(db: Db, job: Job, name: string)
    requires DepsOk(db.jobs) && (forall k :: 0 <= k < |job.deps| ==> job.deps[k] < |db.jobs|)
    requires ResolveIntegration(db, job).Ok?
    ensures
      var integ := ResolveIntegration(db, job).value;
      var s := Successor(job, name, integ, AUTHORITATIVE_SHA);
      var db' := db.(jobs := db.jobs + [s]);
      && DepsOk(db'.jobs) && PrerequisitesMet(db', |db.jobs|) && OneSha(db', s)
      && forall k :: 0 <= k < |s.deps| && Usable(db'.jobs[s.deps[k]], s) ==> db'.jobs[s.deps[k]].candidate == Some(AUTHORITATIVE_SHA)
  {
    var integ := ResolveIntegration(db, job).value;
    var s := Successor(job, name, integ, AUTHORITATIVE_SHA);
    var db' := db.(jobs := db.jobs + [s]);
    AcceptedIntegration(db, job);
    SuccessorDeps(job, name, integ, AUTHORITATIVE_SHA);
    forall k | 0 <= k < |s.deps|
      ensures s.deps[k] < |db.jobs|
      ensures Usable(db.jobs[s.deps[k]], s) ==> db.jobs[s.deps[k]].candidate == Some(AUTHORITATIVE_SHA)
    {
      assert s.deps[k] in s.deps;
    }
    AppendDeps(db.jobs, s);
    assert forall k :: 0 <= k < |s.deps| ==> db'.jobs[s.deps[k]] == db.jobs[s.deps[k]];
    AppendAllows(db, s, integ, job);
    assert integ in s.deps;
    var k :| 0 <= k < |s.deps| && s.deps[k] == integ;
    assert DepAllows(db', |db.jobs|, k);
  }
}
