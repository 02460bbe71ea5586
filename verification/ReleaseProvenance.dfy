/** Binding RELEASE jobs to the integrated candidate they must evaluate.

    A job's id is its position in the job table. */
module ReleaseProvenance {
  import opened Prelude
  import opened Jobs
  import opened QaTypes

  datatype Job = Job(
    humanId: string, project: Name, iteration: Option<Name>,
    queue: Queue, role: Queue, status: JobStatus, outcome: Outcome,
    candidate: Option<Name>, base: Option<Name>,
    sourceSha: Option<Name>, sourceJob: Option<nat>,
    supersededBy: Option<nat>, attempt: nat, leased: bool, deps: seq<nat>)

  datatype Evidence = Evidence(delivery: nat, candidate: Name, role: Queue, result: QaResult)

  datatype Db = Db(jobs: seq<Job>, evidence: seq<Evidence>)

  /** Dependency rows refer to existing jobs. */
  ghost predicate DepsOk(jobs: seq<Job>) {
    forall j, k :: 0 <= j < |jobs| && 0 <= k < |jobs[j].deps| ==> jobs[j].deps[k] < |jobs|
  }

  // ---------------------------------------------------------------------------
  // Gates
  // ---------------------------------------------------------------------------

  predicate IdentityMatches(integration: Job, release: Job) {
    integration.project == release.project && integration.iteration == release.iteration
  }

  /** The recorded result of a role for a delivery's candidate; a later row replaces an earlier one. */
  function LastResult(evidence: seq<Evidence>, delivery: nat, candidate: Name, role: Queue): Option<QaResult> {
    if evidence == [] then None
    else
      var e := evidence[|evidence| - 1];
      if e.delivery == delivery && e.candidate == candidate && e.role == role then Some(e.result)
      else LastResult(evidence[..|evidence| - 1], delivery, candidate, role)
  }

  predicate ManagerSucceeded(jobs: seq<Job>, humanId: string) {
    exists m :: 0 <= m < |jobs| && jobs[m].humanId == humanId + "__QA_MANAGER" && jobs[m].status == SUCCEEDED
  }

  predicate DeliveryQaPassed(db: Db, delivery: nat)
    requires delivery < |db.jobs|
  {
    var d := db.jobs[delivery];
    && d.candidate.Some?
    && (forall role :: role in REQUIRED ==> LastResult(db.evidence, delivery, d.candidate.value, role) == Some(PASS))
    && ManagerSucceeded(db.jobs, d.humanId)
  }

  predicate SatisfiesDependency(j: Job) {
    j.status == SUCCEEDED && !InvalidOutcome(j.outcome)
  }

  /** Every DELIVERY predecessor of the integration has passing QA. */
  predicate QaGatesSatisfied(db: Db, integration: nat)
    requires DepsOk(db.jobs) && integration < |db.jobs|
  {
    forall k :: 0 <= k < |db.jobs[integration].deps| ==>
      var d := db.jobs[integration].deps[k];
      db.jobs[d].queue == DELIVERY ==> SatisfiesDependency(db.jobs[d]) && DeliveryQaPassed(db, d)
  }

  /** A successful integration of the same project and iteration with a candidate, QA aside. */
  predicate Usable(integration: Job, release: Job) {
    && integration.queue == INTEGRATION && integration.status == SUCCEEDED && !InvalidOutcome(integration.outcome)
    && integration.candidate.Some? && IdentityMatches(integration, release)
  }

  predicate AllowsRelease(db: Db, integration: nat, release: Job)
    requires DepsOk(db.jobs) && integration < |db.jobs|
  {
    Usable(db.jobs[integration], release) && QaGatesSatisfied(db, integration)
  }

  predicate DepAllows(db: Db, release: nat, k: nat)
    requires DepsOk(db.jobs) && release < |db.jobs| && k < |db.jobs[release].deps|
  {
    AllowsRelease(db, db.jobs[release].deps[k], db.jobs[release])
  }

  predicate PrerequisitesMet(db: Db, release: nat)
    requires DepsOk(db.jobs) && release < |db.jobs|
  {
    db.jobs[release].queue == RELEASE ==> exists k :: 0 <= k < |db.jobs[release].deps| && DepAllows(db, release, k)
  }

  // ---------------------------------------------------------------------------
  // The integrated candidate
  // ---------------------------------------------------------------------------

  /** One id per distinct SHA among the usable dependencies; QA is not consulted. */
  function Found(db: Db, release: Job, deps: seq<nat>): map<Name, nat>
    requires forall k :: 0 <= k < |deps| ==> deps[k] < |db.jobs|
  {
    if deps == [] then map[]
    else
      var d := deps[|deps| - 1];
      var found := Found(db, release, deps[..|deps| - 1]);
      if Usable(db.jobs[d], release) then found[db.jobs[d].candidate.value := d] else found
  }

  lemma {:induction false} FoundIsUsable(db: Db, release: Job, deps: seq<nat>)
    requires forall k :: 0 <= k < |deps| ==> deps[k] < |db.jobs|
    ensures forall k :: 0 <= k < |deps| && Usable(db.jobs[deps[k]], release) ==>
      db.jobs[deps[k]].candidate.value in Found(db, release, deps)
    ensures forall sha :: sha in Found(db, release, deps) ==>
      var d := Found(db, release, deps)[sha];
      d in deps && d < |db.jobs| && Usable(db.jobs[d], release) && db.jobs[d].candidate == Some(sha)
  {
    if deps != [] {
      var front := deps[..|deps| - 1];
      FoundIsUsable(db, release, front);
      assert forall k :: 0 <= k < |front| ==> front[k] == deps[k];
    }
  }

  /** All usable dependencies of a RELEASE job carry the same SHA. */
  ghost predicate OneSha(db: Db, release: Job)
    requires forall k :: 0 <= k < |release.deps| ==> release.deps[k] < |db.jobs|
  {
    forall k, l :: 0 <= k < |release.deps| && 0 <= l < |release.deps| ==>
      var a, b := db.jobs[release.deps[k]], db.jobs[release.deps[l]];
      Usable(a, release) && Usable(b, release) ==> a.candidate == b.candidate
  }

  lemma SingletonMap(m: map<Name, nat>, a: Name, b: Name)
    requires a in m && b in m && a != b
    ensures |m| > 1
  {
    SubsetCardinality({a, b}, m.Keys);
    assert |m| == |m.Keys|;
  }

  lemma FoundSizeIsOneSha(db: Db, release: Job)
    requires forall k :: 0 <= k < |release.deps| ==> release.deps[k] < |db.jobs|
    ensures |Found(db, release, release.deps)| <= 1 <==> OneSha(db, release)
  {
    if |Found(db, release, release.deps)| > 1 {
      TwoFoundDisagree(db, release);
    } else if !OneSha(db, release) {
      DisagreementIsFound(db, release);
    }
  }

  lemma TwoFoundDisagree(db: Db, release: Job)
    requires forall k :: 0 <= k < |release.deps| ==> release.deps[k] < |db.jobs|
    requires |Found(db, release, release.deps)| > 1
    ensures !OneSha(db, release)
  {
    var found := Found(db, release, release.deps);
    var a, b := TwoKeys(found);
    FoundIsUsable(db, release, release.deps);
    var k :| 0 <= k < |release.deps| && release.deps[k] == found[a];
    var l :| 0 <= l < |release.deps| && release.deps[l] == found[b];
    assert Usable(db.jobs[release.deps[k]], release) && Usable(db.jobs[release.deps[l]], release);
  }

  lemma TwoKeys(m: map<Name, nat>) returns (a: Name, b: Name)
    requires |m| > 1
    ensures a in m && b in m && a != b
  {
    a :| a in m;
    assert m.Keys != {a};
    b :| b in m && b != a;
  }

  lemma DisagreementIsFound(db: Db, release: Job)
    requires forall k :: 0 <= k < |release.deps| ==> release.deps[k] < |db.jobs|
    requires !OneSha(db, release)
    ensures |Found(db, release, release.deps)| > 1
  {
    FoundIsUsable(db, release, release.deps);
    var k, l :| 0 <= k < |release.deps| && 0 <= l < |release.deps| && Usable(db.jobs[release.deps[k]], release)
      && Usable(db.jobs[release.deps[l]], release) && db.jobs[release.deps[k]].candidate != db.jobs[release.deps[l]].candidate;
    SingletonMap(Found(db, release, release.deps), db.jobs[release.deps[k]].candidate.value, db.jobs[release.deps[l]].candidate.value);
  }

  /** `sha` is the candidate of a dependency that allows the release, QA included. */
  ghost predicate ApprovedSha(db: Db, release: nat, sha: Name)
    requires DepsOk(db.jobs) && release < |db.jobs|
  {
    exists k :: 0 <= k < |db.jobs[release].deps| && DepAllows(db, release, k) && CandidateAt(db, release, k) == Some(sha)
  }

  function CandidateAt(db: Db, release: nat, k: nat): Option<Name>
    requires DepsOk(db.jobs) && release < |db.jobs| && k < |db.jobs[release].deps|
  {
    db.jobs[db.jobs[release].deps[k]].candidate
  }

  /** The resolver ignores QA and keeps one id per SHA, yet the SHA it finds for a job whose
      prerequisites are met is that of a dependency that passed QA; it never falls back. */
  lemma ResolvedShaIsApproved(db: Db, release: nat)
    requires DepsOk(db.jobs) && release < |db.jobs| && db.jobs[release].queue == RELEASE
    requires PrerequisitesMet(db, release) && OneSha(db, db.jobs[release])
    ensures
      var found := Found(db, db.jobs[release], db.jobs[release].deps);
      && |found| == 1
      && forall sha :: sha in found ==> ApprovedSha(db, release, sha)
  {
    var r := db.jobs[release];
    var found := Found(db, r, r.deps);
    FoundIsUsable(db, r, r.deps);
    FoundSizeIsOneSha(db, r);
    var k :| 0 <= k < |r.deps| && DepAllows(db, release, k);
    var approved := db.jobs[r.deps[k]].candidate.value;
    assert approved in found;
    forall sha | sha in found
      ensures sha == approved
    {
      if sha != approved {
        SingletonMap(found, sha, approved);
      }
    }
  }

  /** A RELEASE job is bound to the SHA of a dependency that allows its release. */
  ghost predicate Bound(db: Db, release: nat)
    requires DepsOk(db.jobs) && release < |db.jobs|
  {
    db.jobs[release].sourceSha.Some? && ApprovedSha(db, release, db.jobs[release].sourceSha.value)
  }

  // ---------------------------------------------------------------------------
  // Binding and promotion only touch provenance and QUEUED -> READY
  // ---------------------------------------------------------------------------

  ghost predicate JobFrame(a: Job, b: Job) {
    && b == a.(sourceSha := b.sourceSha, sourceJob := b.sourceJob, status := b.status)
    && (b.status == a.status || (a.queue == RELEASE && a.status == QUEUED && b.status == READY))
    && (b.sourceSha != a.sourceSha || b.sourceJob != a.sourceJob ==> a.queue == RELEASE)
  }

  ghost predicate Frame(a: seq<Job>, b: seq<Job>) {
    |a| == |b| && forall j :: 0 <= j < |a| ==> JobFrame(a[j], b[j])
  }

  lemma FrameDeps(a: seq<Job>, b: seq<Job>)
    requires Frame(a, b) && DepsOk(a)
    ensures DepsOk(b)
  {
    forall j, k | 0 <= j < |b| && 0 <= k < |b[j].deps|
      ensures b[j].deps[k] < |b|
    {
      assert JobFrame(a[j], b[j]);
    }
  }

  lemma FrameManager(a: seq<Job>, b: seq<Job>, humanId: string)
    requires Frame(a, b)
    ensures ManagerSucceeded(a, humanId) <==> ManagerSucceeded(b, humanId)
  {
    if ManagerSucceeded(a, humanId) {
      var m :| 0 <= m < |a| && a[m].humanId == humanId + "__QA_MANAGER" && a[m].status == SUCCEEDED;
      assert JobFrame(a[m], b[m]);
    }
    if ManagerSucceeded(b, humanId) {
      var m :| 0 <= m < |b| && b[m].humanId == humanId + "__QA_MANAGER" && b[m].status == SUCCEEDED;
      assert JobFrame(a[m], b[m]);
    }
  }

  lemma FrameQa(a: Db, b: seq<Job>, integration: nat)
    requires Frame(a.jobs, b) && DepsOk(a.jobs) && DepsOk(b) && integration < |b|
    ensures QaGatesSatisfied(a, integration) <==> QaGatesSatisfied(a.(jobs := b), integration)
  {
    assert JobFrame(a.jobs[integration], b[integration]);
    forall k | 0 <= k < |b[integration].deps|
      ensures
        var d := b[integration].deps[k];
        && a.jobs[d].queue == b[d].queue
        && (b[d].queue == DELIVERY ==> (SatisfiesDependency(a.jobs[d]) <==> SatisfiesDependency(b[d])))
        && (DeliveryQaPassed(a, d) <==> DeliveryQaPassed(a.(jobs := b), d))
    {
      var d := b[integration].deps[k];
      assert JobFrame(a.jobs[d], b[d]);
      FrameManager(a.jobs, b, b[d].humanId);
    }
  }

  lemma FrameAllows(a: Db, b: seq<Job>, integration: nat, r: Job, r': Job)
    requires Frame(a.jobs, b) && DepsOk(a.jobs) && DepsOk(b) && integration < |b| && JobFrame(r, r')
    ensures AllowsRelease(a, integration, r) <==> AllowsRelease(a.(jobs := b), integration, r')
  {
    assert JobFrame(a.jobs[integration], b[integration]);
    FrameQa(a, b, integration);
  }

  /** Binding or promoting one job leaves every other job's gates as they were. */
  lemma FrameGates(a: Db, b: seq<Job>, release: nat)
    requires Frame(a.jobs, b) && DepsOk(a.jobs) && DepsOk(b) && release < |b|
    ensures PrerequisitesMet(a, release) <==> PrerequisitesMet(a.(jobs := b), release)
    ensures forall sha :: ApprovedSha(a, release, sha) <==> ApprovedSha(a.(jobs := b), release, sha)
  {
    assert JobFrame(a.jobs[release], b[release]);
    forall k | 0 <= k < |b[release].deps|
      ensures DepAllows(a, release, k) <==> DepAllows(a.(jobs := b), release, k)
      ensures CandidateAt(a, release, k) == CandidateAt(a.(jobs := b), release, k)
    {
      assert JobFrame(a.jobs[b[release].deps[k]], b[b[release].deps[k]]);
      FrameAllows(a, b, b[release].deps[k], a.jobs[release], b[release]);
    }
  }

  // ---------------------------------------------------------------------------
  // The store
  // ---------------------------------------------------------------------------

  predicate InSweep(j: Job, project: Option<Name>, iteration: Option<Name>) {
    && j.queue == RELEASE && j.status == QUEUED
    && (project.Some? ==> j.project == project.value)
    && (iteration.Some? ==> j.iteration == iteration)
  }

  /** What writing a resolved candidate onto a RELEASE job establishes. */
  lemma BindEffect(db: Db, release: nat, sha: Name)
    requires DepsOk(db.jobs) && release < |db.jobs| && db.jobs[release].queue == RELEASE
    requires sha in Found(db, db.jobs[release], db.jobs[release].deps) && ApprovedSha(db, release, sha)
    ensures
      var id := Found(db, db.jobs[release], db.jobs[release].deps)[sha];
      var now := db.jobs[release := db.jobs[release].(sourceSha := Some(sha), sourceJob := Some(id))];
      && Frame(db.jobs, now) && DepsOk(now) && Bound(db.(jobs := now), release)
      && id in db.jobs[release].deps && id < |now| && now[id].candidate == Some(sha)
  {
    var id := Found(db, db.jobs[release], db.jobs[release].deps)[sha];
    var now := db.jobs[release := db.jobs[release].(sourceSha := Some(sha), sourceJob := Some(id))];
    FoundIsUsable(db, db.jobs[release], db.jobs[release].deps);
    assert Frame(db.jobs, now);
    FrameDeps(db.jobs, now);
    FrameGates(db, now, release);
  }

  /** Moving a bound job from QUEUED to READY keeps it bound. */
  lemma PromoteEffect(was: seq<Job>, db: Db, id: nat)
    requires DepsOk(db.jobs) && id < |db.jobs| && db.jobs[id].queue == RELEASE && db.jobs[id].status == QUEUED
    requires Frame(was, db.jobs) && Bound(db, id)
    ensures
      var now := db.jobs[id := db.jobs[id].(status := READY)];
      Frame(was, now) && DepsOk(now) && Bound(db.(jobs := now), id)
  {
    var now := db.jobs[id := db.jobs[id].(status := READY)];
    assert Frame(db.jobs, now);
    FrameTrans(was, db.jobs, now);
    FrameDeps(db.jobs, now);
    FrameGates(db, now, id);
  }

  class ReleaseStore {
    var jobs: seq<Job>
    const evidence: seq<Evidence>

    ghost function State(): Db
      reads this
    {
      Db(jobs, evidence)
    }

    constructor (db: Db)
      ensures State() == db
    {
      jobs, evidence := db.jobs, db.evidence;
    }

    method FindCandidates(release: nat) returns (found: map<Name, nat>)
      requires DepsOk(jobs) && release < |jobs|
      ensures found == Found(State(), jobs[release], jobs[release].deps)
    {
      found := map[];
      var deps := jobs[release].deps;
      for k := 0 to |deps|
        invariant found == Found(State(), jobs[release], deps[..k])
      {
        assert deps[..k + 1][..k] == deps[..k];
        var d := jobs[deps[k]];
        if Usable(d, jobs[release]) {
          found := found[d.candidate.value := deps[k]];
        }
      }
      assert deps[..|deps|] == deps;
    }

    /** Records the integrated candidate on a RELEASE job.  It refuses exactly when the gates are not
        met or the usable dependencies disagree on the SHA; the old provenance is never reused. */
    method Bind(release: nat) returns (ok: bool)
      requires DepsOk(jobs) && release < |jobs|
      modifies this`jobs
      ensures Frame(old(jobs), jobs) && DepsOk(jobs)
      ensures ok <==>
        (old(jobs)[release].queue == RELEASE ==> PrerequisitesMet(old(State()), release) && OneSha(old(State()), old(jobs)[release]))
      ensures jobs == old(jobs)[release := jobs[release]] && jobs[release].status == old(jobs)[release].status
      ensures !ok || old(jobs)[release].queue != RELEASE ==> jobs == old(jobs)
      ensures ok && old(jobs)[release].queue == RELEASE ==>
        && Bound(State(), release)
        && jobs[release].sourceJob.Some? && jobs[release].sourceJob.value in jobs[release].deps
        && jobs[release].sourceJob.value < |jobs| && jobs[jobs[release].sourceJob.value].candidate == jobs[release].sourceSha
    {
      if jobs[release].queue != RELEASE {
        return true;
      }
      if !PrerequisitesMet(Db(jobs, evidence), release) {
        return false;
      }
      var found := FindCandidates(release);
      FoundSizeIsOneSha(State(), jobs[release]);
      if |found| > 1 {
        return false;
      }
      ResolvedShaIsApproved(State(), release);
      assert found.Keys != {};
      var sha :| sha in found;
      BindEffect(State(), release, sha);
      jobs := jobs[release := jobs[release].(sourceSha := Some(sha), sourceJob := Some(found[sha]))];
      return true;
    }

    method ListSweep(project: Option<Name>, iteration: Option<Name>) returns (ids: seq<nat>)
      ensures Ascending(ids) && Distinct(ids) && forall j :: j in ids <==> 0 <= j < |jobs| && InSweep(jobs[j], project, iteration)
    {
      ids := [];
      for j := 0 to |jobs|
        invariant Ascending(ids) && forall k :: 0 <= k < |ids| ==> ids[k] < j
        invariant forall i :: i in ids <==> 0 <= i < j && InSweep(jobs[i], project, iteration)
      {
        if InSweep(jobs[j], project, iteration) {
          ids := ids + [j];
        }
      }
    }

    /** One job of the sweep: skip it, or bind it and move it from QUEUED to READY. */
    method PromoteOne(id: nat) returns (ok: bool, promoted: bool)
      requires DepsOk(jobs) && id < |jobs| && jobs[id].queue == RELEASE && jobs[id].status == QUEUED
      modifies this`jobs
      ensures Frame(old(jobs), jobs) && DepsOk(jobs)
      ensures jobs == old(jobs)[id := jobs[id]]
      ensures ok <==> (PrerequisitesMet(old(State()), id) ==> OneSha(old(State()), old(jobs)[id]))
      ensures promoted <==> ok && PrerequisitesMet(old(State()), id)
      ensures promoted ==> jobs[id].status == READY && Bound(State(), id)
      ensures !promoted ==> jobs == old(jobs)
    {
      if !PrerequisitesMet(Db(jobs, evidence), id) {
        return true, false;
      }
      ok := Bind(id);
      promoted := ok;
      if ok {
        PromoteEffect(old(jobs), State(), id);
        jobs := jobs[id := jobs[id].(status := READY)];
      }
    }

    /** The promotion sweep.  Every job it moves to READY is bound to an approved SHA, even when the
        sweep is cut short; it is cut short exactly by a job whose usable dependencies disagree, and
        otherwise promotes every eligible job. */
    method PromoteEligible(project: Option<Name>, iteration: Option<Name>) returns (ok: bool, promoted: seq<nat>)
      requires DepsOk(jobs)
      modifies this`jobs
      ensures Swept(old(State()), jobs, promoted, project, iteration)
      ensures ok ==> PromotedBelow(old(State()), |jobs|, promoted, project, iteration)
      ensures !ok ==> exists s :: 0 <= s < |jobs| && CutAt(old(State()), s, promoted, project, iteration)
      ensures ok <==> AllAgree(old(State()), project, iteration)
    {
      var ids := ListSweep(project, iteration);
      ghost var db := State();
      promoted, ok := [], true;
      FrameSelf(jobs);
      for k := 0 to |ids|
        invariant ok && Sweeping(db, jobs, ids, k, promoted) && Exactly(db, ids, k, promoted)
      {
        assert ids[k] in ids;
        SweepEnters(db, jobs, ids, k, promoted, project, iteration);
        ghost var mid := jobs;
        var did;
        ok, did := PromoteOne(ids[k]);
        SweepStep(db, mid, jobs, ids, k, promoted, ok, did);
        if ok {
          ExactlyStep(db, ids, k, promoted, did);
        }
        if did {
          promoted := promoted + [ids[k]];
        }
        if !ok {
          assert Eligible(db, ids[k], project, iteration) && !OneSha(db, db.jobs[ids[k]]);
          SweepOutcome(db, jobs, ids, k, promoted, project, iteration);
          SweepCut(db, jobs, ids, k, promoted, project, iteration);
          return;
        }
      }
      SweepOutcome(db, jobs, ids, |ids|, promoted, project, iteration);
      SweepComplete(db, ids, promoted, project, iteration);
      ExactlyAll(db, ids, promoted, project, iteration);
    }
  }

  ghost predicate Ascending(ids: seq<nat>) {
    forall a, b :: 0 <= a < b < |ids| ==> ids[a] < ids[b]
  }

  /** Of the jobs below `s` exactly the eligible ones were promoted, and none from `s` on. */
  ghost predicate PromotedBelow(db: Db, s: nat, promoted: seq<nat>, project: Option<Name>, iteration: Option<Name>)
    requires DepsOk(db.jobs)
  {
    forall j :: 0 <= j < |db.jobs| ==> (j in promoted <==> j < s && Eligible(db, j, project, iteration))
  }

  /** The sweep was cut short at job `s`, the first eligible one whose dependencies disagree. */
  ghost predicate CutAt(db: Db, s: nat, promoted: seq<nat>, project: Option<Name>, iteration: Option<Name>)
    requires DepsOk(db.jobs) && s < |db.jobs|
  {
    && Eligible(db, s, project, iteration) && !OneSha(db, db.jobs[s]) && PromotedBelow(db, s, promoted, project, iteration)
    && forall j :: 0 <= j < s && Eligible(db, j, project, iteration) ==> OneSha(db, db.jobs[j])
  }

  /** Exactly the ready ones of the first `k` ids were promoted. */
  ghost predicate Exactly(db: Db, ids: seq<nat>, k: nat, promoted: seq<nat>)
    requires DepsOk(db.jobs) && k <= |ids|
  {
    forall j :: 0 <= j < |db.jobs| ==> (j in promoted <==> j in ids[..k] && PrerequisitesMet(db, j))
  }

  lemma ExactlyStep(db: Db, ids: seq<nat>, k: nat, promoted: seq<nat>, did: bool)
    requires DepsOk(db.jobs) && k < |ids| && ids[k] < |db.jobs| && Exactly(db, ids, k, promoted)
    requires did <==> PrerequisitesMet(db, ids[k])
    ensures Exactly(db, ids, k + 1, if did then promoted + [ids[k]] else promoted)
  {
    assert ids[..k + 1] == ids[..k] + [ids[k]];
  }

  lemma ExactlyAll(db: Db, ids: seq<nat>, promoted: seq<nat>, project: Option<Name>, iteration: Option<Name>)
    requires DepsOk(db.jobs) && Exactly(db, ids, |ids|, promoted)
    requires forall j :: j in ids <==> 0 <= j < |db.jobs| && InSweep(db.jobs[j], project, iteration)
    ensures PromotedBelow(db, |db.jobs|, promoted, project, iteration)
  {
    assert ids[..|ids|] == ids;
  }

  lemma InPrefixIff(ids: seq<nat>, k: nat, j: nat)
    requires Ascending(ids) && k < |ids|
    ensures j in ids[..k] <==> j in ids && j < ids[k]
  {
    if j in ids && j < ids[k] {
      var i :| 0 <= i < |ids| && ids[i] == j;
      assert ids[..k][i] == j;
    }
  }

  lemma SweepCut(db: Db, now: seq<Job>, ids: seq<nat>, k: nat, promoted: seq<nat>, project: Option<Name>, iteration: Option<Name>)
    requires DepsOk(db.jobs) && k < |ids| && Ascending(ids) && Exactly(db, ids, k, promoted) && Sweeping(db, now, ids, k, promoted)
    requires forall j :: j in ids <==> 0 <= j < |db.jobs| && InSweep(db.jobs[j], project, iteration)
    requires ids[k] in ids && Eligible(db, ids[k], project, iteration) && !OneSha(db, db.jobs[ids[k]])
    ensures CutAt(db, ids[k], promoted, project, iteration)
  {
    forall j | 0 <= j < |db.jobs|
      ensures j in ids[..k] <==> j < ids[k] && InSweep(db.jobs[j], project, iteration)
    {
      InPrefixIff(ids, k, j);
    }
    forall j | 0 <= j < ids[k] && Eligible(db, j, project, iteration)
      ensures OneSha(db, db.jobs[j])
    {
      var i :| 0 <= i < k && ids[i] == j;
      assert Handled(db, ids[i], promoted);
    }
  }

  /** The sweep has handled the first `k` ids. */
  ghost predicate Sweeping(db: Db, now: seq<Job>, ids: seq<nat>, k: nat, promoted: seq<nat>)
    requires DepsOk(db.jobs) && k <= |ids|
  {
    && Frame(db.jobs, now) && DepsOk(now)
    && (forall j :: 0 <= j < |now| && j !in promoted ==> now[j] == db.jobs[j])
    && (forall j :: j in promoted ==> j in ids[..k] && SweptOk(db.(jobs := now), j))
    && (forall i :: 0 <= i < k ==> Handled(db, ids[i], promoted))
  }

  /** The job about to be handled looks as it did when the sweep began. */
  lemma SweepEnters(db: Db, now: seq<Job>, ids: seq<nat>, k: nat, promoted: seq<nat>, project: Option<Name>, iteration: Option<Name>)
    requires DepsOk(db.jobs) && k < |ids| && Distinct(ids) && Sweeping(db, now, ids, k, promoted)
    requires ids[k] < |db.jobs| && InSweep(db.jobs[ids[k]], project, iteration)
    ensures ids[k] !in promoted && ids[k] < |now| && now[ids[k]] == db.jobs[ids[k]]
    ensures PrerequisitesMet(db, ids[k]) <==> PrerequisitesMet(db.(jobs := now), ids[k])
    ensures OneSha(db, db.jobs[ids[k]]) <==> OneSha(db.(jobs := now), now[ids[k]])
  {
    assert ids[k] !in ids[..k];
    FrameGates(db, now, ids[k]);
    FrameOneSha(db, now, ids[k]);
  }

  lemma SweepStep(db: Db, mid: seq<Job>, now: seq<Job>, ids: seq<nat>, k: nat, promoted: seq<nat>, ok: bool, did: bool)
    requires DepsOk(db.jobs) && k < |ids| && Sweeping(db, mid, ids, k, promoted)
    requires Frame(mid, now) && DepsOk(now) && ids[k] < |now| && now == mid[ids[k] := now[ids[k]]] && ids[k] !in promoted
    requires ok <==> (PrerequisitesMet(db, ids[k]) ==> OneSha(db, db.jobs[ids[k]]))
    requires did <==> ok && PrerequisitesMet(db, ids[k])
    requires did ==> SweptOk(db.(jobs := now), ids[k])
    requires !did ==> now == mid
    ensures
      var promoted' := if did then promoted + [ids[k]] else promoted;
      if ok then Sweeping(db, now, ids, k + 1, promoted') else Sweeping(db, now, ids, k, promoted')
  {
    if did {
      SweepPromotes(db, mid, now, ids, k, promoted);
    } else if ok {
      SweepSkips(db, now, ids, k, promoted);
    }
  }

  lemma SweepSkips(db: Db, now: seq<Job>, ids: seq<nat>, k: nat, promoted: seq<nat>)
    requires DepsOk(db.jobs) && k < |ids| && Sweeping(db, now, ids, k, promoted) && ids[k] < |now| && !PrerequisitesMet(db, ids[k])
    ensures Sweeping(db, now, ids, k + 1, promoted)
  {
    assert ids[..k + 1] == ids[..k] + [ids[k]];
    assert Handled(db, ids[k], promoted);
  }

  lemma SweepPromotes(db: Db, mid: seq<Job>, now: seq<Job>, ids: seq<nat>, k: nat, promoted: seq<nat>)
    requires DepsOk(db.jobs) && k < |ids| && Sweeping(db, mid, ids, k, promoted)
    requires Frame(mid, now) && DepsOk(now) && ids[k] < |now| && now == mid[ids[k] := now[ids[k]]] && ids[k] !in promoted
    requires OneSha(db, db.jobs[ids[k]]) && SweptOk(db.(jobs := now), ids[k])
    ensures Sweeping(db, now, ids, k + 1, promoted + [ids[k]])
  {
    var promoted' := promoted + [ids[k]];
    FrameTrans(db.jobs, mid, now);
    KeepSwept(db.(jobs := mid), now, promoted, ids[k]);
    assert ids[..k + 1] == ids[..k] + [ids[k]];
    forall i | 0 <= i < k + 1
      ensures Handled(db, ids[i], promoted')
    {
      assert i < k ==> Handled(db, ids[i], promoted);
    }
  }

  /** What a sweep may have done: the frame is kept, it changed only queued jobs of its scope, and each
      one it changed or reports is READY and bound to an approved SHA. */
  ghost predicate Swept(db: Db, now: seq<Job>, promoted: seq<nat>, project: Option<Name>, iteration: Option<Name>)
    requires DepsOk(db.jobs)
  {
    && Frame(db.jobs, now) && DepsOk(now)
    && (forall j :: 0 <= j < |now| && now[j] != db.jobs[j] ==> InSweep(db.jobs[j], project, iteration) && j in promoted)
    && (forall j :: j in promoted ==> SweptOk(db.(jobs := now), j))
  }

  lemma SweepOutcome(db: Db, now: seq<Job>, ids: seq<nat>, k: nat, promoted: seq<nat>, project: Option<Name>, iteration: Option<Name>)
    requires DepsOk(db.jobs) && k <= |ids| && Sweeping(db, now, ids, k, promoted)
    requires forall j :: j in ids ==> 0 <= j < |db.jobs| && InSweep(db.jobs[j], project, iteration)
    ensures Swept(db, now, promoted, project, iteration)
  {
    forall j | j in promoted
      ensures j in ids && SweptOk(db.(jobs := now), j)
    {
      assert j in ids[..k];
    }
  }

  predicate Eligible(db: Db, j: nat, project: Option<Name>, iteration: Option<Name>)
    requires DepsOk(db.jobs) && j < |db.jobs|
  {
    InSweep(db.jobs[j], project, iteration) && PrerequisitesMet(db, j)
  }

  /** No eligible job has usable dependencies with different SHAs. */
  ghost predicate AllAgree(db: Db, project: Option<Name>, iteration: Option<Name>)
    requires DepsOk(db.jobs)
  {
    forall j :: 0 <= j < |db.jobs| && Eligible(db, j, project, iteration) ==> OneSha(db, db.jobs[j])
  }

  ghost predicate SweptOk(db: Db, j: nat)
    requires DepsOk(db.jobs)
  {
    j < |db.jobs| && db.jobs[j].status == READY && Bound(db, j)
  }

  ghost predicate Handled(db: Db, j: nat, promoted: seq<nat>)
    requires DepsOk(db.jobs)
  {
    j < |db.jobs| && (PrerequisitesMet(db, j) ==> j in promoted && OneSha(db, db.jobs[j]))
  }

  lemma FrameSelf(a: seq<Job>)
    ensures Frame(a, a)
  {
  }

  lemma FrameTrans(a: seq<Job>, b: seq<Job>, c: seq<Job>)
    requires Frame(a, b) && Frame(b, c)
    ensures Frame(a, c)
  {
    forall j | 0 <= j < |a|
      ensures JobFrame(a[j], c[j])
    {
      assert JobFrame(a[j], b[j]) && JobFrame(b[j], c[j]);
    }
  }

  lemma FrameOneSha(a: Db, b: seq<Job>, release: nat)
    requires Frame(a.jobs, b) && DepsOk(a.jobs) && DepsOk(b) && release < |b|
    ensures OneSha(a, a.jobs[release]) <==> OneSha(a.(jobs := b), b[release])
  {
    assert JobFrame(a.jobs[release], b[release]);
    forall k | 0 <= k < |b[release].deps|
      ensures
        var d := b[release].deps[k];
        (Usable(a.jobs[d], a.jobs[release]) <==> Usable(b[d], b[release])) && a.jobs[d].candidate == b[d].candidate
    {
      assert JobFrame(a.jobs[b[release].deps[k]], b[b[release].deps[k]]);
    }
  }

  /** Jobs promoted earlier stay READY and bound while another job is handled. */
  lemma KeepSwept(a: Db, b: seq<Job>, promoted: seq<nat>, id: nat)
    requires Frame(a.jobs, b) && DepsOk(a.jobs) && DepsOk(b) && id < |b| && b == a.jobs[id := b[id]] && id !in promoted
    requires forall j :: j in promoted ==> SweptOk(a, j)
    ensures forall j :: j in promoted ==> SweptOk(a.(jobs := b), j)
  {
    forall j | j in promoted
      ensures SweptOk(a.(jobs := b), j)
    {
      assert SweptOk(a, j);
      FrameGates(a, b, j);
    }
  }

  lemma SweepComplete(db: Db, ids: seq<nat>, promoted: seq<nat>, project: Option<Name>, iteration: Option<Name>)
    requires DepsOk(db.jobs)
    requires forall j :: j in ids <==> 0 <= j < |db.jobs| && InSweep(db.jobs[j], project, iteration)
    requires forall i :: 0 <= i < |ids| ==> Handled(db, ids[i], promoted)
    ensures forall j :: 0 <= j < |db.jobs| && Eligible(db, j, project, iteration) ==> j in promoted
    ensures AllAgree(db, project, iteration)
  {
    forall j | 0 <= j < |db.jobs| && Eligible(db, j, project, iteration)
      ensures j in promoted && OneSha(db, db.jobs[j])
    {
      assert j in ids;
      var i :| 0 <= i < |ids| && ids[i] == j;
    }
  }
}
