/** What a successful INTEGRATION writes onto the RELEASE jobs that depend on it. */
module ReleaseBinding {
  import opened Prelude
  import opened Jobs
  import opened QaTypes
  import opened ReleaseProvenance

  /** The integration hands its candidate on; QA is not consulted. */
  predicate Announces(integration: Job) {
    && integration.queue == INTEGRATION && integration.status == SUCCEEDED && integration.candidate.Some?
    && !InvalidOutcome(integration.outcome)
  }

  /** Job `r` is a waiting or READY release of the same identity that depends on the integration. */
  predicate Rebinds(jobs: seq<Job>, integration: nat, r: nat)
    requires integration < |jobs| && r < |jobs|
  {
    && Announces(jobs[integration]) && integration in jobs[r].deps
    && jobs[r].queue == RELEASE && jobs[r].status in {READY, QUEUED} && IdentityMatches(jobs[integration], jobs[r])
  }

  /** The table once every such job carries the integration's candidate. */
  function Rebound(jobs: seq<Job>, integration: nat): (r: seq<Job>)
    requires integration < |jobs|
    ensures |r| == |jobs|
    ensures forall j :: 0 <= j < |jobs| ==> r[j] == ReboundRow(jobs, integration, j)
  {
    seq(|jobs|, j requires 0 <= j < |jobs| => ReboundRow(jobs, integration, j))
  }

  function ReboundRow(jobs: seq<Job>, integration: nat, j: nat): Job
    requires integration < |jobs| && j < |jobs|
  {
    if Rebinds(jobs, integration, j) then jobs[j].(sourceSha := jobs[integration].candidate, sourceJob := Some(integration)) else jobs[j]
  }

  lemma ReboundFrame(jobs: seq<Job>, integration: nat)
    requires DepsOk(jobs) && integration < |jobs|
    ensures Frame(jobs, Rebound(jobs, integration)) && DepsOk(Rebound(jobs, integration))
  {
    FrameDeps(jobs, Rebound(jobs, integration));
  }

  // ---------------------------------------------------------------------------
  // When READY releases stay bound to an approved SHA
  // ---------------------------------------------------------------------------

  /** A job that was bound afresh is bound to an approved SHA exactly when the integration's candidate is
      one; a job that was not is bound exactly when it was. */
  lemma ReboundIffApproved(db: Db, integration: nat, r: nat)
    requires DepsOk(db.jobs) && integration < |db.jobs| && r < |db.jobs|
    ensures
      var now := db.(jobs := Rebound(db.jobs, integration));
      && DepsOk(now.jobs)
      && (Bound(now, r) <==>
          if Rebinds(db.jobs, integration, r) then ApprovedSha(db, r, db.jobs[integration].candidate.value) else Bound(db, r))
  {
    ReboundFrame(db.jobs, integration);
    FrameGates(db, Rebound(db.jobs, integration), r);
  }

  /** The integration's own passing gates are enough for that. */
  lemma PassingGatesApprove(db: Db, integration: nat, r: nat)
    requires DepsOk(db.jobs) && integration < |db.jobs| && r < |db.jobs|
    requires Rebinds(db.jobs, integration, r) && QaGatesSatisfied(db, integration)
    ensures ApprovedSha(db, r, db.jobs[integration].candidate.value)
  {
    var k :| 0 <= k < |db.jobs[r].deps| && db.jobs[r].deps[k] == integration;
    assert DepAllows(db, r, k);
    assert CandidateAt(db, r, k) == db.jobs[integration].candidate;
  }

  /** A release that was bound afresh to an unapproved candidate does not run with it: the binding the
      worker repeats before it runs a release refuses. */
  lemma UnapprovedIsRefused(db: Db, integration: nat, r: nat)
    requires DepsOk(db.jobs) && integration < |db.jobs| && r < |db.jobs|
    requires Rebinds(db.jobs, integration, r) && !ApprovedSha(db, r, db.jobs[integration].candidate.value)
    ensures
      var now := db.(jobs := Rebound(db.jobs, integration));
      DepsOk(now.jobs) && !(PrerequisitesMet(now, r) && OneSha(now, now.jobs[r]))
  {
    var now := db.(jobs := Rebound(db.jobs, integration));
    var sha := db.jobs[integration].candidate.value;
    ReboundFrame(db.jobs, integration);
    FrameGates(db, now.jobs, r);
    FoundIsUsable(now, now.jobs[r], now.jobs[r].deps);
    assert Usable(now.jobs[integration], now.jobs[r]);
    assert sha in Found(now, now.jobs[r], now.jobs[r].deps);
    if PrerequisitesMet(now, r) && OneSha(now, now.jobs[r]) {
      ResolvedShaIsApproved(now, r);
    }
  }

  predicate IsReady(j: Job) {
    j.queue == RELEASE && j.status == READY
  }

  /** Every READY release is bound to an approved SHA. */
  ghost predicate ReadyBound(db: Db)
    requires DepsOk(db.jobs)
  {
    forall r :: 0 <= r < |db.jobs| && IsReady(db.jobs[r]) ==> Bound(db, r)
  }

  /** The integration's candidate is approved for every READY release it is written onto. */
  ghost predicate Suits(db: Db, integration: nat)
    requires DepsOk(db.jobs) && integration < |db.jobs|
  {
    forall r :: 0 <= r < |db.jobs| && IsReady(db.jobs[r]) && Rebinds(db.jobs, integration, r) ==>
      ApprovedSha(db, r, db.jobs[integration].candidate.value)
  }

  lemma ReadyStaysBoundIff(db: Db, integration: nat)
    requires DepsOk(db.jobs) && integration < |db.jobs| && ReadyBound(db)
    ensures DepsOk(Rebound(db.jobs, integration))
    ensures ReadyBound(db.(jobs := Rebound(db.jobs, integration))) <==> Suits(db, integration)
  {
    var now := db.(jobs := Rebound(db.jobs, integration));
    ReboundFrame(db.jobs, integration);
    forall r | 0 <= r < |db.jobs| && IsReady(db.jobs[r])
      ensures IsReady(now.jobs[r])
      ensures Bound(now, r) <==> (Rebinds(db.jobs, integration, r) ==> ApprovedSha(db, r, db.jobs[integration].candidate.value))
    {
      ReboundIffApproved(db, integration, r);
    }
    assert forall r :: 0 <= r < |db.jobs| ==> (IsReady(now.jobs[r]) <==> IsReady(db.jobs[r]));
  }

  /** The sweep that follows neither binds badly nor repairs: it leaves READY releases alone and adds
      only bound ones. */
  lemma SweepKeepsReadyBound(db: Db, now: seq<Job>, promoted: seq<nat>, project: Option<Name>, iteration: Option<Name>)
    requires DepsOk(db.jobs) && Swept(db, now, promoted, project, iteration)
    ensures ReadyBound(db.(jobs := now)) <==> ReadyBound(db)
  {
    var db' := db.(jobs := now);
    forall r | 0 <= r < |now|
      ensures IsReady(db.jobs[r]) ==> now[r] == db.jobs[r] && (Bound(db', r) <==> Bound(db, r))
      ensures IsReady(now[r]) && !IsReady(db.jobs[r]) ==> Bound(db', r)
    {
      FrameGates(db, now, r);
      assert now[r] != db.jobs[r] ==> InSweep(db.jobs[r], project, iteration) && r in promoted;
      assert r in promoted ==> SweptOk(db', r);
    }
  }

  // ---------------------------------------------------------------------------
  // The operation
  // ---------------------------------------------------------------------------

  /** The first `n` rows are written. */
  ghost predicate Writing(was: seq<Job>, now: seq<Job>, integration: nat, n: nat, bound: seq<nat>)
    requires integration < |was|
  {
    && |now| == |was|
    && (forall j :: 0 <= j < |was| ==> now[j] == if j < n then ReboundRow(was, integration, j) else was[j])
    && (forall j :: j in bound <==> 0 <= j < n && j < |was| && Rebinds(was, integration, j))
  }

  lemma WritingStep(was: seq<Job>, now: seq<Job>, integration: nat, n: nat, bound: seq<nat>)
    requires integration < |was| && n < |was| && Writing(was, now, integration, n, bound)
    ensures Writing(was, now[n := ReboundRow(was, integration, n)], integration, n + 1,
                    if Rebinds(was, integration, n) then bound + [n] else bound)
    ensures now[n] == was[n] && (!Rebinds(was, integration, n) ==> now[n := ReboundRow(was, integration, n)] == now)
  {
  }

  method WriteCandidate(store: ReleaseStore, integration: nat) returns (bound: seq<nat>)
    requires DepsOk(store.jobs) && integration < |store.jobs|
    modifies store`jobs
    ensures store.jobs == Rebound(old(store.jobs), integration)
    ensures forall j :: j in bound <==> 0 <= j < |store.jobs| && Rebinds(old(store.jobs), integration, j)
  {
    bound := [];
    ghost var was := store.jobs;
    var source := store.jobs[integration];
    for n := 0 to |store.jobs|
      invariant Writing(was, store.jobs, integration, n, bound)
    {
      var rel := store.jobs[n];
      WritingStep(was, store.jobs, integration, n, bound);
      if Announces(source) && integration in rel.deps && rel.queue == RELEASE && rel.status in {READY, QUEUED} && IdentityMatches(source, rel) {
        store.jobs := store.jobs[n := rel.(sourceSha := source.candidate, sourceJob := Some(integration))];
        bound := bound + [n];
      }
    }
    assert store.jobs == Rebound(was, integration);
  }

  /** The sweep ran: it promoted every eligible job, or those before the first whose dependencies disagree. */
  ghost predicate SweptAfter(db: Db, now: seq<Job>, ok: bool, promoted: seq<nat>, project: Option<Name>, iteration: Option<Name>)
    requires DepsOk(db.jobs)
  {
    && Swept(db, now, promoted, project, iteration) && (ok <==> AllAgree(db, project, iteration))
    && if ok then PromotedBelow(db, |db.jobs|, promoted, project, iteration)
       else exists s :: 0 <= s < |db.jobs| && CutAt(db, s, promoted, project, iteration)
  }

  /** An integration's success: its candidate is written onto the dependent releases, READY ones
      included, and then the sweep runs.  Afterwards the READY releases are all bound to approved SHAs,
      if they were before, exactly when the candidate is approved for each READY one it was written on. */
  method BindDependents(store: ReleaseStore, integration: nat) returns (bound: seq<nat>, ok: bool, promoted: seq<nat>)
    requires DepsOk(store.jobs) && integration < |store.jobs|
    modifies store`jobs
    ensures forall j :: j in bound <==> 0 <= j < |old(store.jobs)| && Rebinds(old(store.jobs), integration, j)
    ensures
      var mid := Db(Rebound(old(store.jobs), integration), store.evidence);
      && Frame(old(store.jobs), mid.jobs) && DepsOk(mid.jobs)
      && if Announces(old(store.jobs)[integration])
         then SweptAfter(mid, store.jobs, ok, promoted, Some(mid.jobs[integration].project), mid.jobs[integration].iteration)
         else store.jobs == old(store.jobs) && promoted == [] && ok
    ensures Frame(old(store.jobs), store.jobs) && DepsOk(store.jobs)
    ensures ReadyBound(old(store.State())) ==> (ReadyBound(store.State()) <==> Suits(old(store.State()), integration))
  {
    ghost var db := store.State();
    ReboundFrame(db.jobs, integration);
    if ReadyBound(db) {
      ReadyStaysBoundIff(db, integration);
    }
    ok, promoted := true, [];
    bound := WriteCandidate(store, integration);
    if !Announces(store.jobs[integration]) {
      assert store.jobs == db.jobs;
      FrameSelf(db.jobs);
      return;
    }
    ghost var mid := store.State();
    var project, iteration := Some(store.jobs[integration].project), store.jobs[integration].iteration;
    ok, promoted := store.PromoteEligible(project, iteration);
    SweepKeepsReadyBound(mid, store.jobs, promoted, project, iteration);
    FrameTrans(db.jobs, mid.jobs, store.jobs);
  }

  // ---------------------------------------------------------------------------
  // Two integrations
  // ---------------------------------------------------------------------------

  function Row(queue: Queue, status: JobStatus, candidate: Option<Name>, sourceSha: Option<Name>, deps: seq<nat>): Job {
    Job("", Name("p"), None, queue, queue, status, NoOutcome, candidate, None, sourceSha, None, None, 0, false, deps)
  }

  /** A delivery without assurance, an integration without deliveries, one with the delivery, and a
      READY release that depends on both and is bound to the first. */
  function TwoIntegrations(): Db {
    Db([ Row(DELIVERY, SUCCEEDED, None, None, []),
         Row(INTEGRATION, SUCCEEDED, Some(Name("a")), None, []),
         Row(INTEGRATION, SUCCEEDED, Some(Name("b")), None, [0]),
         Row(RELEASE, READY, None, Some(Name("a")), [1, 2]) ], [])
  }

  /** The second integration takes the READY release away from its approved SHA to one that QA has not
      passed. */
  lemma SecondIntegrationUnbinds()
    ensures DepsOk(TwoIntegrations().jobs) && ReadyBound(TwoIntegrations()) && !Suits(TwoIntegrations(), 2)
    ensures DepsOk(Rebound(TwoIntegrations().jobs, 2))
    ensures !Bound(TwoIntegrations().(jobs := Rebound(TwoIntegrations().jobs, 2)), 3)
  {
    var db := TwoIntegrations();
    assert |"a"| == 1 && "a"[0] == 'a' && "b"[0] == 'b';
    FirstIsApproved();
    SecondIsNotApproved();
    assert db.jobs[3].deps[1] == 2;
    assert Rebinds(db.jobs, 2, 3);
    ReboundIffApproved(db, 2, 3);
  }

  lemma FirstIsApproved()
    ensures DepsOk(TwoIntegrations().jobs) && ApprovedSha(TwoIntegrations(), 3, Name("a"))
  {
    var db := TwoIntegrations();
    assert db.jobs[3].deps[0] == 1;
    assert QaGatesSatisfied(db, 1);
    assert DepAllows(db, 3, 0) && CandidateAt(db, 3, 0) == Some(Name("a"));
  }

  lemma SecondIsNotApproved()
    ensures DepsOk(TwoIntegrations().jobs) && !ApprovedSha(TwoIntegrations(), 3, Name("b"))
  {
    var db := TwoIntegrations();
    assert "a"[0] == 'a' && "b"[0] == 'b';
    assert db.jobs[2].deps[0] == 0 && !DeliveryQaPassed(db, 0);
    assert !QaGatesSatisfied(db, 2);
    assert CandidateAt(db, 3, 0) == Some(Name("a"));
  }
}
