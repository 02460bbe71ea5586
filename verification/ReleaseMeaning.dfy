/** What the release gates ask for, column by column. */
module ReleaseMeaning {
  import opened Prelude
  import opened Jobs
  import opened QaTypes
  import opened ReleaseProvenance
  import opened ReleaseBinding

  // ---------------------------------------------------------------------------
  // QA of a delivery
  // ---------------------------------------------------------------------------

  predicate IsFor(e: Evidence, delivery: nat, candidate: Name, role: Queue) {
    e.delivery == delivery && e.candidate == candidate && e.role == role
  }

  /** Row `i` is the newest evidence on the role, delivery and candidate. */
  ghost predicate NewestAt(evidence: seq<Evidence>, i: nat, delivery: nat, candidate: Name, role: Queue) {
    && i < |evidence| && IsFor(evidence[i], delivery, candidate, role)
    && forall k :: i < k < |evidence| ==> !IsFor(evidence[k], delivery, candidate, role)
  }

  ghost predicate NewestIs(evidence: seq<Evidence>, delivery: nat, candidate: Name, role: Queue, x: QaResult) {
    exists i: nat :: NewestAt(evidence, i, delivery, candidate, role) && evidence[i].result == x
  }

  lemma NewestStep(evidence: seq<Evidence>, i: nat, delivery: nat, candidate: Name, role: Queue)
    requires evidence != []
    ensures
      var n := |evidence| - 1;
      NewestAt(evidence, i, delivery, candidate, role) <==>
        if IsFor(evidence[n], delivery, candidate, role) then i == n else NewestAt(evidence[..n], i, delivery, candidate, role)
  {
    var n := |evidence| - 1;
    assert forall k :: 0 <= k < n ==> evidence[..n][k] == evidence[k];
  }

  lemma NewestIsLast(evidence: seq<Evidence>, delivery: nat, candidate: Name, role: Queue, x: QaResult)
    requires evidence != [] && IsFor(evidence[|evidence| - 1], delivery, candidate, role)
    ensures NewestIs(evidence, delivery, candidate, role, x) <==> evidence[|evidence| - 1].result == x
  {
    var n := |evidence| - 1;
    assert NewestAt(evidence, n, delivery, candidate, role);
    if NewestIs(evidence, delivery, candidate, role, x) {
      var i: nat :| NewestAt(evidence, i, delivery, candidate, role) && evidence[i].result == x;
      assert i == n;
    }
  }

  lemma NewestIsEarlier(evidence: seq<Evidence>, delivery: nat, candidate: Name, role: Queue, x: QaResult)
    requires evidence != [] && !IsFor(evidence[|evidence| - 1], delivery, candidate, role)
    ensures NewestIs(evidence, delivery, candidate, role, x) <==> NewestIs(evidence[..|evidence| - 1], delivery, candidate, role, x)
  {
    var front := evidence[..|evidence| - 1];
    if NewestIs(evidence, delivery, candidate, role, x) {
      var i: nat :| NewestAt(evidence, i, delivery, candidate, role) && evidence[i].result == x;
      NewestStep(evidence, i, delivery, candidate, role);
      assert front[i] == evidence[i];
    }
    if NewestIs(front, delivery, candidate, role, x) {
      var i: nat :| NewestAt(front, i, delivery, candidate, role) && front[i].result == x;
      NewestStep(evidence, i, delivery, candidate, role);
      assert front[i] == evidence[i];
    }
  }

  lemma {:induction false} LastIsNewest(evidence: seq<Evidence>, delivery: nat, candidate: Name, role: Queue, x: QaResult)
    ensures LastResult(evidence, delivery, candidate, role) == Some(x) <==> NewestIs(evidence, delivery, candidate, role, x)
  {
    if evidence != [] {
      LastIsNewest(evidence[..|evidence| - 1], delivery, candidate, role, x);
      if IsFor(evidence[|evidence| - 1], delivery, candidate, role) {
        NewestIsLast(evidence, delivery, candidate, role, x);
      } else {
        NewestIsEarlier(evidence, delivery, candidate, role, x);
      }
    }
  }

  /** The delivery's candidate has newest passes of all four roles, and its QA Manager job succeeded. */
  ghost predicate QaDone(db: Db, d: nat)
    requires d < |db.jobs|
  {
    && db.jobs[d].candidate.Some?
    && var c := db.jobs[d].candidate.value;
       && NewestIs(db.evidence, d, c, ASSURANCE_FUNCTIONAL, PASS) && NewestIs(db.evidence, d, c, ASSURANCE_INTEGRATION, PASS)
       && NewestIs(db.evidence, d, c, ASSURANCE_SECURITY, PASS) && NewestIs(db.evidence, d, c, ASSURANCE_QUALITY, PASS)
       && exists m :: 0 <= m < |db.jobs| && db.jobs[m].humanId == db.jobs[d].humanId + "__QA_MANAGER" && db.jobs[m].status == SUCCEEDED
  }

  lemma QaDoneIff(db: Db, d: nat)
    requires d < |db.jobs|
    ensures DeliveryQaPassed(db, d) <==> QaDone(db, d)
  {
    if db.jobs[d].candidate.Some? {
      var c := db.jobs[d].candidate.value;
      LastIsNewest(db.evidence, d, c, ASSURANCE_FUNCTIONAL, PASS);
      LastIsNewest(db.evidence, d, c, ASSURANCE_INTEGRATION, PASS);
      LastIsNewest(db.evidence, d, c, ASSURANCE_SECURITY, PASS);
      LastIsNewest(db.evidence, d, c, ASSURANCE_QUALITY, PASS);
      assert REQUIRED[0] == ASSURANCE_FUNCTIONAL && REQUIRED[1] == ASSURANCE_INTEGRATION && REQUIRED[2] == ASSURANCE_SECURITY && REQUIRED[3] == ASSURANCE_QUALITY;
    }
  }

  // ---------------------------------------------------------------------------
  // Which integration releases
  // ---------------------------------------------------------------------------

  predicate Stands(j: Job) {
    j.status == SUCCEEDED && j.outcome != INVALIDATED && j.outcome != SUPERSEDED && j.outcome != NO_CHANGE
  }

  /** A standing integration with a candidate, of the release's project and iteration. */
  predicate Offers(integration: Job, release: Job) {
    && integration.queue == INTEGRATION && Stands(integration) && integration.candidate != None
    && integration.project == release.project && integration.iteration == release.iteration
  }

  lemma UsableMeans(integration: Job, release: Job)
    ensures Usable(integration, release) <==> Offers(integration, release)
  {
  }

  /** Every delivery the integration depends on stands and has its QA done. */
  ghost predicate DeliveriesDone(db: Db, i: nat)
    requires DepsOk(db.jobs) && i < |db.jobs|
  {
    forall k :: 0 <= k < |db.jobs[i].deps| && db.jobs[db.jobs[i].deps[k]].queue == DELIVERY ==>
      Stands(db.jobs[db.jobs[i].deps[k]]) && QaDone(db, db.jobs[i].deps[k])
  }

  lemma DeliveriesDoneIff(db: Db, i: nat)
    requires DepsOk(db.jobs) && i < |db.jobs|
    ensures QaGatesSatisfied(db, i) <==> DeliveriesDone(db, i)
  {
    forall k | 0 <= k < |db.jobs[i].deps|
      ensures DeliveryQaPassed(db, db.jobs[i].deps[k]) <==> QaDone(db, db.jobs[i].deps[k])
      ensures SatisfiesDependency(db.jobs[db.jobs[i].deps[k]]) <==> Stands(db.jobs[db.jobs[i].deps[k]])
    {
      QaDoneIff(db, db.jobs[i].deps[k]);
    }
  }

  /** Dependency `k` of the release offers a candidate and has all its deliveries done. */
  ghost predicate Releases(db: Db, r: nat, k: nat)
    requires DepsOk(db.jobs) && r < |db.jobs| && k < |db.jobs[r].deps|
  {
    Offers(db.jobs[db.jobs[r].deps[k]], db.jobs[r]) && DeliveriesDone(db, db.jobs[r].deps[k])
  }

  lemma ReleasesIff(db: Db, r: nat, k: nat)
    requires DepsOk(db.jobs) && r < |db.jobs| && k < |db.jobs[r].deps|
    ensures DepAllows(db, r, k) <==> Releases(db, r, k)
  {
    DeliveriesDoneIff(db, db.jobs[r].deps[k]);
    UsableMeans(db.jobs[db.jobs[r].deps[k]], db.jobs[r]);
  }

  /** A RELEASE job may go ahead exactly when one of its dependencies releases it, and a SHA is approved for
      it exactly when it is the candidate of one that does. */
  lemma GatesMean(db: Db, r: nat, sha: Name)
    requires DepsOk(db.jobs) && r < |db.jobs| && db.jobs[r].queue == RELEASE
    ensures PrerequisitesMet(db, r) <==> exists k :: 0 <= k < |db.jobs[r].deps| && Releases(db, r, k)
    ensures ApprovedSha(db, r, sha) <==>
      exists k :: 0 <= k < |db.jobs[r].deps| && Releases(db, r, k) && db.jobs[db.jobs[r].deps[k]].candidate == Some(sha)
  {
    forall k | 0 <= k < |db.jobs[r].deps|
      ensures DepAllows(db, r, k) <==> Releases(db, r, k)
      ensures CandidateAt(db, r, k) == db.jobs[db.jobs[r].deps[k]].candidate
    {
      ReleasesIff(db, r, k);
    }
  }

  /** The usable dependencies disagree exactly when two of them offer different candidates. */
  lemma DisagreementMeans(db: Db, r: nat)
    requires DepsOk(db.jobs) && r < |db.jobs|
    ensures !OneSha(db, db.jobs[r]) <==>
      exists k, l :: 0 <= k < |db.jobs[r].deps| && 0 <= l < |db.jobs[r].deps| && Offers(db.jobs[db.jobs[r].deps[k]], db.jobs[r])
        && Offers(db.jobs[db.jobs[r].deps[l]], db.jobs[r]) && db.jobs[db.jobs[r].deps[k]].candidate != db.jobs[db.jobs[r].deps[l]].candidate
  {
    forall k | 0 <= k < |db.jobs[r].deps|
      ensures Usable(db.jobs[db.jobs[r].deps[k]], db.jobs[r]) <==> Offers(db.jobs[db.jobs[r].deps[k]], db.jobs[r])
    {
      UsableMeans(db.jobs[db.jobs[r].deps[k]], db.jobs[r]);
    }
  }

  // ---------------------------------------------------------------------------
  // The sweep and the binding of dependents
  // ---------------------------------------------------------------------------

  /** What a sweep did, in terms of the rows: each job it changed was a QUEUED release within the given project and
      iteration, is READY now, and is bound to the candidate of a dependency that releases it. */
  lemma SweepMeans(db: Db, now: seq<Job>, promoted: seq<nat>, project: Option<Name>, iteration: Option<Name>, j: nat)
    requires DepsOk(db.jobs) && Swept(db, now, promoted, project, iteration) && j < |now| && now[j] != db.jobs[j]
    ensures db.jobs[j].queue == RELEASE && db.jobs[j].status == QUEUED && now[j].status == READY && j in promoted
    ensures (project != None ==> db.jobs[j].project == project.value) && (iteration != None ==> db.jobs[j].iteration == iteration)
    ensures DepsOk(now) && exists k :: 0 <= k < |now[j].deps| && Releases(db.(jobs := now), j, k) && now[now[j].deps[k]].candidate == now[j].sourceSha
  {
    var db' := db.(jobs := now);
    assert InSweep(db.jobs[j], project, iteration) && j in promoted;
    assert SweptOk(db', j);
    assert JobFrame(db.jobs[j], now[j]);
    GatesMean(db', j, now[j].sourceSha.value);
  }

  /** Which jobs a sweep looks at. */
  lemma InSweepMeans(j: Job, project: Option<Name>, iteration: Option<Name>)
    ensures InSweep(j, project, iteration) <==>
      && j.queue == RELEASE && j.status == QUEUED
      && (project == None || j.project == project.value) && (iteration == None || j.iteration == Some(iteration.value))
  {
  }

  /** An integration's success reaches exactly the waiting and READY releases of its identity that depend on it, if it
      stands and has a candidate, and changes nothing of them but what they are bound to. */
  lemma ReboundMeans(jobs: seq<Job>, i: nat, r: nat)
    requires i < |jobs| && r < |jobs|
    ensures
      var now := Rebound(jobs, i);
      && |now| == |jobs|
      && (if && jobs[i].queue == INTEGRATION && Stands(jobs[i]) && jobs[i].candidate != None
             && i in jobs[r].deps && jobs[r].queue == RELEASE && (jobs[r].status == READY || jobs[r].status == QUEUED)
             && jobs[i].project == jobs[r].project && jobs[i].iteration == jobs[r].iteration
          then now[r] == jobs[r].(sourceSha := jobs[i].candidate, sourceJob := Some(i))
          else now[r] == jobs[r])
  {
  }
}
