/** From the worker's verdict to the released SHA: what the promotion sweep and the evidence ledger
    guarantee together. */
module ReleaseEvidence {
  import opened Prelude
  import opened Jobs
  import opened QaTypes
  import opened ReleaseProvenance
  import opened ReleaseBinding
  import QaLedger
  import QaProperties

  /** The release gates read these columns of the ledger. */
  function EvidenceOf(rows: seq<QaLedger.Row>): (r: seq<Evidence>)
    ensures |r| == |rows|
    ensures forall i :: 0 <= i < |rows| ==> r[i] == Evidence(rows[i].delivery, rows[i].candidate, rows[i].role, rows[i].result)
  {
    seq(|rows|, i requires 0 <= i < |rows| => Evidence(rows[i].delivery, rows[i].candidate, rows[i].role, rows[i].result))
  }

  /** The release tables and the ledger agree on the evidence and on the candidates jobs have produced.
      Statuses and provenance of RELEASE jobs are not compared: binding writes them, and the ledger
      does not. */
  ghost predicate ViewOf(db: Db, s: QaLedger.Ledger) {
    && db.evidence == EvidenceOf(s.rows)
    && |db.jobs| == |s.jobs| && forall j :: 0 <= j < |db.jobs| ==> s.jobs[j].candidate == db.jobs[j].candidate
  }

  /** Binding and promoting keep the view. */
  lemma FrameKeepsView(db: Db, jobs: seq<Job>, s: QaLedger.Ledger)
    requires ViewOf(db, s) && Frame(db.jobs, jobs)
    ensures ViewOf(db.(jobs := jobs), s)
  {
    forall j | 0 <= j < |jobs|
      ensures s.jobs[j].candidate == jobs[j].candidate
    {
      assert JobFrame(db.jobs[j], jobs[j]);
    }
  }

  lemma {:induction false} LastResultIsRecorded(rows: seq<QaLedger.Row>, delivery: nat, candidate: Name, role: Queue)
    requires LastResult(EvidenceOf(rows), delivery, candidate, role) == Some(PASS)
    ensures exists i :: 0 <= i < |rows| && PassRow(rows[i], delivery, candidate, role)
  {
    var n := |rows| - 1;
    var last := EvidenceOf(rows)[n];
    if last.delivery == delivery && last.candidate == candidate && last.role == role {
      assert PassRow(rows[n], delivery, candidate, role);
    } else {
      assert EvidenceOf(rows)[..n] == EvidenceOf(rows[..n]);
      LastResultIsRecorded(rows[..n], delivery, candidate, role);
      var i :| 0 <= i < n && PassRow(rows[..n][i], delivery, candidate, role);
      assert rows[..n][i] == rows[i];
    }
  }

  predicate PassRow(r: QaLedger.Row, delivery: nat, candidate: Name, role: Queue) {
    r.delivery == delivery && r.candidate == candidate && r.role == role && r.result == PASS
  }

  /** A pass of the role for this delivery and candidate, written from a validated PASS verdict while
      the delivery had not moved on. */
  ghost predicate RolePassed(steps: seq<QaLedger.Step>, delivery: nat, candidate: Name, role: Queue) {
    exists i, k: nat :: 0 <= i < |QaLedger.Run(steps).rows| && PassRow(QaLedger.Run(steps).rows[i], delivery, candidate, role)
      && QaProperties.BackedBy(steps, k, QaLedger.Run(steps).rows[i])
  }

  /** All four roles passed the delivery's present candidate. */
  ghost predicate Assured(steps: seq<QaLedger.Step>, d: nat) {
    var s := QaLedger.Run(steps);
    && d < |s.jobs| && s.jobs[d].candidate.Some?
    && forall role :: role in REQUIRED ==> RolePassed(steps, d, s.jobs[d].candidate.value, role)
  }

  lemma PassedRoleIsBacked(steps: seq<QaLedger.Step>, delivery: nat, candidate: Name, role: Queue)
    requires LastResult(EvidenceOf(QaLedger.Run(steps).rows), delivery, candidate, role) == Some(PASS) && role in REQUIRED
    ensures RolePassed(steps, delivery, candidate, role)
  {
    var rows := QaLedger.Run(steps).rows;
    LastResultIsRecorded(rows, delivery, candidate, role);
    var i :| 0 <= i < |rows| && PassRow(rows[i], delivery, candidate, role);
    RequiredAreAssessors(role);
    QaProperties.PassIsBacked(steps, i);
    var k: nat :| QaProperties.BackedBy(steps, k, rows[i]);
  }

  lemma PassedDeliveryIsAssured(steps: seq<QaLedger.Step>, db: Db, d: nat)
    requires ViewOf(db, QaLedger.Run(steps)) && d < |db.jobs| && DeliveryQaPassed(db, d)
    ensures Assured(steps, d)
  {
    var s := QaLedger.Run(steps);
    assert s.jobs[d].candidate == db.jobs[d].candidate;
    forall role | role in REQUIRED
      ensures RolePassed(steps, d, s.jobs[d].candidate.value, role)
    {
      PassedRoleIsBacked(steps, d, s.jobs[d].candidate.value, role);
    }
  }

  /** The job is bound to the candidate of a successful integration among its dependencies, and every
      delivery that went into this integration succeeded and is assured by four verdicts. */
  ghost predicate ReleasesAssuredWork(steps: seq<QaLedger.Step>, db: Db, release: nat)
    requires DepsOk(db.jobs) && release < |db.jobs|
  {
    && db.jobs[release].sourceSha.Some?
    && exists k :: 0 <= k < |db.jobs[release].deps| && AssuredIntegration(steps, db, release, k, db.jobs[release].sourceSha.value)
  }

  ghost predicate AssuredIntegration(steps: seq<QaLedger.Step>, db: Db, release: nat, k: nat, sha: Name)
    requires DepsOk(db.jobs) && release < |db.jobs| && k < |db.jobs[release].deps|
  {
    var integration := db.jobs[db.jobs[release].deps[k]];
    && Usable(integration, db.jobs[release]) && integration.candidate == Some(sha)
    && forall m :: 0 <= m < |integration.deps| && db.jobs[integration.deps[m]].queue == DELIVERY ==>
      SatisfiesDependency(db.jobs[integration.deps[m]]) && Assured(steps, integration.deps[m])
  }

  /** A RELEASE job bound to an approved SHA carries the SHA of assured work. */
  lemma ApprovedIsAssured(steps: seq<QaLedger.Step>, db: Db, release: nat, sha: Name) returns (k: nat)
    requires ViewOf(db, QaLedger.Run(steps)) && DepsOk(db.jobs) && release < |db.jobs| && ApprovedSha(db, release, sha)
    ensures k < |db.jobs[release].deps| && AssuredIntegration(steps, db, release, k, sha)
  {
    k :| 0 <= k < |db.jobs[release].deps| && DepAllows(db, release, k) && CandidateAt(db, release, k) == Some(sha);
    var id := db.jobs[release].deps[k];
    assert QaGatesSatisfied(db, id);
    forall m | 0 <= m < |db.jobs[id].deps| && db.jobs[db.jobs[id].deps[m]].queue == DELIVERY
      ensures SatisfiesDependency(db.jobs[db.jobs[id].deps[m]]) && Assured(steps, db.jobs[id].deps[m])
    {
      PassedDeliveryIsAssured(steps, db, db.jobs[id].deps[m]);
    }
  }

  /** Binding and promoting RELEASE jobs touches no integration and no delivery. */
  lemma FrameAssured(steps: seq<QaLedger.Step>, db: Db, jobs: seq<Job>, release: nat, k: nat, sha: Name)
    requires DepsOk(db.jobs) && Frame(db.jobs, jobs) && DepsOk(jobs) && release < |jobs| && k < |jobs[release].deps|
    requires JobFrame(db.jobs[release], jobs[release]) && AssuredIntegration(steps, db, release, k, sha)
    ensures AssuredIntegration(steps, db.(jobs := jobs), release, k, sha)
  {
    var id := jobs[release].deps[k];
    assert JobFrame(db.jobs[id], jobs[id]);
    forall m | 0 <= m < |jobs[id].deps|
      ensures JobFrame(db.jobs[jobs[id].deps[m]], jobs[jobs[id].deps[m]])
    {
    }
  }

  lemma BoundReleasesAssuredWork(steps: seq<QaLedger.Step>, db: Db, jobs: seq<Job>, release: nat)
    requires ViewOf(db, QaLedger.Run(steps)) && DepsOk(db.jobs) && Frame(db.jobs, jobs) && DepsOk(jobs)
    requires release < |jobs| && Bound(db.(jobs := jobs), release)
    ensures ReleasesAssuredWork(steps, db.(jobs := jobs), release)
  {
    var sha := jobs[release].sourceSha.value;
    FrameGates(db, jobs, release);
    var k := ApprovedIsAssured(steps, db, release, sha);
    assert JobFrame(db.jobs[release], jobs[release]);
    FrameAssured(steps, db, jobs, release, k, sha);
  }

  /** What the sweep reports releases assured work, whether or not it was bound before. */
  lemma SweptIsAssured(steps: seq<QaLedger.Step>, db: Db, jobs: seq<Job>, promoted: seq<nat>, project: Option<Name>, iteration: Option<Name>)
    requires ViewOf(db, QaLedger.Run(steps)) && DepsOk(db.jobs) && Swept(db, jobs, promoted, project, iteration)
    ensures ViewOf(db.(jobs := jobs), QaLedger.Run(steps)) && AllAssured(steps, db.(jobs := jobs), promoted)
  {
    FrameKeepsView(db, jobs, QaLedger.Run(steps));
    forall j | j in promoted
      ensures AssuredAt(steps, db.(jobs := jobs), j)
    {
      assert SweptOk(db.(jobs := jobs), j);
      BoundReleasesAssuredWork(steps, db, jobs, j);
    }
  }

  ghost predicate AssuredAt(steps: seq<QaLedger.Step>, db: Db, j: nat)
    requires DepsOk(db.jobs)
  {
    j < |db.jobs| && db.jobs[j].status == READY && ReleasesAssuredWork(steps, db, j)
  }

  ghost predicate AllAssured(steps: seq<QaLedger.Step>, db: Db, promoted: seq<nat>)
    requires DepsOk(db.jobs)
  {
    forall j :: j in promoted ==> AssuredAt(steps, db, j)
  }

  /** End to end: over every run of the ledger, each RELEASE job the promotion sweep moves to READY
      carries the SHA of an integration all of whose deliveries hold, for their present candidate, four
      passes written from validated PASS verdicts recorded in time.  The table keeps its view of the
      ledger, so sweeps follow one another. */
  method Sweep(store: ReleaseStore, project: Option<Name>, iteration: Option<Name>, ghost steps: seq<QaLedger.Step>)
    returns (ok: bool, promoted: seq<nat>)
    requires DepsOk(store.jobs) && ViewOf(store.State(), QaLedger.Run(steps))
    modifies store`jobs
    ensures SweptAfter(old(store.State()), store.jobs, ok, promoted, project, iteration)
    ensures ViewOf(store.State(), QaLedger.Run(steps)) && AllAssured(steps, store.State(), promoted)
  {
    ghost var db := store.State();
    ok, promoted := store.PromoteEligible(project, iteration);
    SweptIsAssured(steps, db, store.jobs, promoted, project, iteration);
  }

  /** The same when an integration's success has first written its candidate onto the dependent releases. */
  method IntegrationSucceeded(store: ReleaseStore, integration: nat, ghost steps: seq<QaLedger.Step>)
    returns (bound: seq<nat>, ok: bool, promoted: seq<nat>)
    requires DepsOk(store.jobs) && integration < |store.jobs| && ViewOf(store.State(), QaLedger.Run(steps))
    modifies store`jobs
    ensures DepsOk(store.jobs) && Frame(old(store.jobs), store.jobs)
    ensures
      var mid := Db(Rebound(old(store.jobs), integration), store.evidence);
      && Frame(old(store.jobs), mid.jobs) && DepsOk(mid.jobs)
      && if Announces(old(store.jobs)[integration])
         then SweptAfter(mid, store.jobs, ok, promoted, Some(mid.jobs[integration].project), mid.jobs[integration].iteration)
         else store.jobs == old(store.jobs) && promoted == [] && ok
    ensures ViewOf(store.State(), QaLedger.Run(steps)) && AllAssured(steps, store.State(), promoted)
  {
    ghost var db := store.State();
    ghost var mid := db.(jobs := Rebound(db.jobs, integration));
    bound, ok, promoted := BindDependents(store, integration);
    FrameKeepsView(db, mid.jobs, QaLedger.Run(steps));
    if Announces(db.jobs[integration]) {
      SweptIsAssured(steps, mid, store.jobs, promoted, Some(mid.jobs[integration].project), mid.jobs[integration].iteration);
    }
  }
}
