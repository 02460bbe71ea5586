/** The reconcile operation itself: what it decides, what it writes, and the chains it builds. */
module ReleaseReconcile {
  import opened Prelude
  import opened Jobs
  import opened QaTypes
  import opened ReleaseProvenance
  import opened ReleaseRetry
  import RetryNames

  /** The table invariants reconciliation relies on and keeps. */
  ghost predicate Sound(jobs: seq<Job>) {
    && DepsOk(jobs) && Forward(jobs)
    && forall i, j :: 0 <= i < j < |jobs| ==> jobs[i].humanId != jobs[j].humanId
  }

  function Precheck(job: Job): Option<Refusal> {
    if job.queue != RELEASE || job.role != RELEASE then Some(NotARelease)
    else if job.project != REQUIRED_PROJECT || job.iteration != Some(REQUIRED_ITERATION) then Some(WrongIdentity)
    else if job.status in {RUNNING, LEASED} || job.leased then Some(Busy)
    else if job.status == RETRY_WAIT then Some(RetryWaiting)
    else None
  }

  function RecordedSha(job: Job): Option<Name> {
    if job.candidate.Some? then job.candidate else job.sourceSha
  }

  /** What a reconcile of job `j` decides. */
  ghost function Decision(db: Db, j: nat): Verdict
    requires DepsOk(db.jobs) && Forward(db.jobs) && j < |db.jobs|
    ensures Decision(db, j).CreatedSuccessor? ==> IsReleaseAt(db.jobs, j)
  {
    var job := db.jobs[j];
    if Precheck(job).Some? then Refused(Precheck(job).value)
    else if ResolveIntegration(db, job).Err? then Refused(ResolveIntegration(db, job).error)
    else
      var tip := Walk(db.jobs, j);
      if RecordedSha(job) in {None, Some(AUTHORITATIVE_SHA)} && !Retryable(job.status) && !Retryable(db.jobs[tip].status)
      then Refused(NoStaleDefect)
      else if tip != j && (db.jobs[tip].sourceSha == Some(AUTHORITATIVE_SHA) || db.jobs[tip].base == Some(AUTHORITATIVE_SHA))
        && !Retryable(db.jobs[tip].status)
      then AlreadyReconciled(tip)
      else CreatedSuccessor(|db.jobs|)
  }

  /** The rows once the successor `s` has been added and linked. */
  function Superseded(jobs: seq<Job>, j: nat, tip: nat, s: Job): seq<Job>
    requires j < |jobs| && tip < |jobs|
  {
    var all := jobs + [s];
    all[j := Retired(jobs[j], |jobs|)][tip := Retired(jobs[tip], |jobs|)]
  }

  function Retired(job: Job, by': nat): Job {
    job.(outcome := SUPERSEDED, supersededBy := Some(by'))
  }

  /** The successor as reconciliation leaves it: bound to the authoritative SHA and READY. */
  ghost predicate SuccessorOf(db: Db, j: nat, name: string, s: Job)
    requires DepsOk(db.jobs) && j < |db.jobs|
  {
    && ResolveIntegration(db, db.jobs[j]).Ok?
    && var started := Successor(db.jobs[j], name, ResolveIntegration(db, db.jobs[j]).value, AUTHORITATIVE_SHA);
       && s == started.(sourceSha := Some(AUTHORITATIVE_SHA), sourceJob := s.sourceJob, status := READY)
       && s.sourceJob.Some? && s.sourceJob.value in s.deps && s.sourceJob.value < |db.jobs|
       && db.jobs[s.sourceJob.value].candidate == Some(AUTHORITATIVE_SHA)
  }

  /** `jobs'` is the table after reconciling job `j`. */
  ghost predicate Reconciles(db: Db, j: nat, jobs': seq<Job>)
    requires DepsOk(db.jobs) && Forward(db.jobs) && j < |db.jobs|
  {
    if Decision(db, j).CreatedSuccessor? then
      exists s :: jobs' == Superseded(db.jobs, j, Walk(db.jobs, j), s) && IsFresh(db.jobs, s.humanId) && SuccessorOf(db, j, s.humanId, s)
    else jobs' == db.jobs
  }

  ghost predicate IsFresh(jobs: seq<Job>, name: string) {
    forall i :: 0 <= i < |jobs| ==> jobs[i].humanId != name
  }

  // ---------------------------------------------------------------------------
  // Chains
  // ---------------------------------------------------------------------------

  lemma SupersededIsForward(jobs: seq<Job>, j: nat, tip: nat, s: Job)
    requires Forward(jobs) && IsReleaseAt(jobs, j) && IsReleaseAt(jobs, tip) && s.queue == RELEASE && s.supersededBy.None?
    ensures Forward(Superseded(jobs, j, tip, s))
  {
    var after := Superseded(jobs, j, tip, s);
    assert forall x :: 0 <= x < |jobs| ==> after[x].queue == jobs[x].queue;
    forall x | 0 <= x < |after| && after[x].queue == RELEASE && after[x].supersededBy.Some?
      ensures NewerRelease(after, x, after[x].supersededBy.value)
    {
      if x != j && x != tip {
        assert NewerRelease(jobs, x, jobs[x].supersededBy.value);
      }
    }
  }

  /** After a successor is created, every job that walked to the old end of the chain walks to the
      successor, which is newer than all of them, and every other chain is as before. */
  lemma {:induction false} ChainsMoveToSuccessor(jobs: seq<Job>, j: nat, s: Job, x: nat)
    requires Forward(jobs) && IsReleaseAt(jobs, j) && IsReleaseAt(jobs, x) && s.queue == RELEASE && s.supersededBy.None?
    ensures
      var tip := Walk(jobs, j);
      var after := Superseded(jobs, j, tip, s);
      Forward(after) && IsReleaseAt(after, x) && Walk(after, x) == if Walk(jobs, x) == tip then |jobs| else Walk(jobs, x)
    decreases |jobs| - x
  {
    var tip := Walk(jobs, j);
    var after := Superseded(jobs, j, tip, s);
    SupersededIsForward(jobs, j, tip, s);
    if x != j && x != tip {
      assert after[x] == jobs[x];
      if jobs[x].supersededBy.Some? {
        ChainsMoveToSuccessor(jobs, j, s, jobs[x].supersededBy.value);
      }
    } else {
      assert after[x].supersededBy == Some(|jobs|);
      assert Walk(after, |jobs|) == |jobs|;
    }
  }

  /** History is kept: only the outcome and link of the named job and of the old chain end change. */
  lemma HistoryPreserved(db: Db, j: nat, jobs': seq<Job>, x: nat)
    requires DepsOk(db.jobs) && Forward(db.jobs) && j < |db.jobs| && Reconciles(db, j, jobs') && x < |db.jobs|
    ensures |db.jobs| <= |jobs'| <= |db.jobs| + 1
    ensures jobs'[x] == db.jobs[x] || (IsReleaseAt(db.jobs, j) && x in {j, Walk(db.jobs, j)} && jobs'[x] == Retired(db.jobs[x], |db.jobs|))
    ensures jobs'[x].status == db.jobs[x].status && jobs'[x].candidate == db.jobs[x].candidate && jobs'[x].attempt == db.jobs[x].attempt
  {
  }

  lemma SuccessorDepsInRange(db: Db, j: nat, s: Job)
    requires DepsOk(db.jobs) && j < |db.jobs| && SuccessorOf(db, j, s.humanId, s)
    ensures forall k :: 0 <= k < |s.deps| ==> s.deps[k] < |db.jobs|
  {
    var integ := ResolveIntegration(db, db.jobs[j]).value;
    AcceptedIntegration(db, db.jobs[j]);
    SuccessorDeps(db.jobs[j], s.humanId, integ, AUTHORITATIVE_SHA);
    forall k | 0 <= k < |s.deps|
      ensures s.deps[k] < |db.jobs|
    {
      assert s.deps[k] in s.deps;
    }
  }

  lemma SupersededKeepsDeps(jobs: seq<Job>, j: nat, tip: nat, s: Job)
    requires DepsOk(jobs) && j < |jobs| && tip < |jobs| && forall k :: 0 <= k < |s.deps| ==> s.deps[k] < |jobs|
    ensures DepsOk(Superseded(jobs, j, tip, s))
  {
    var after := Superseded(jobs, j, tip, s);
    forall x, k | 0 <= x < |after| && 0 <= k < |after[x].deps|
      ensures after[x].deps[k] < |after|
    {
      assert after[x].deps == if x < |jobs| then jobs[x].deps else s.deps;
    }
  }

  lemma SupersededKeepsNames(jobs: seq<Job>, j: nat, tip: nat, s: Job)
    requires j < |jobs| && tip < |jobs| && IsFresh(jobs, s.humanId)
    requires forall a, b :: 0 <= a < b < |jobs| ==> jobs[a].humanId != jobs[b].humanId
    ensures
      var after := Superseded(jobs, j, tip, s);
      forall a, b :: 0 <= a < b < |after| ==> after[a].humanId != after[b].humanId
  {
    var after := Superseded(jobs, j, tip, s);
    assert forall x :: 0 <= x < |after| ==> after[x].humanId == if x < |jobs| then jobs[x].humanId else s.humanId;
  }

  lemma ReconcileKeepsSound(db: Db, j: nat, jobs': seq<Job>)
    requires Sound(db.jobs) && j < |db.jobs| && Reconciles(db, j, jobs')
    ensures Sound(jobs')
  {
    if Decision(db, j).CreatedSuccessor? {
      var tip := Walk(db.jobs, j);
      var s :| jobs' == Superseded(db.jobs, j, tip, s) && IsFresh(db.jobs, s.humanId) && SuccessorOf(db, j, s.humanId, s);
      SupersededIsForward(db.jobs, j, tip, s);
      SuccessorDepsInRange(db, j, s);
      SupersededKeepsDeps(db.jobs, j, tip, s);
      SupersededKeepsNames(db.jobs, j, tip, s);
    }
  }

  /** A chain that ends in a successor on the authoritative SHA is not extended while the successor
      has not failed. */
  lemma HealthyTipIsKept(db: Db, j: nat)
    requires DepsOk(db.jobs) && Forward(db.jobs) && IsReleaseAt(db.jobs, j)
    requires
      var tip := Walk(db.jobs, j);
      tip != j && db.jobs[tip].base == Some(AUTHORITATIVE_SHA) && !Retryable(db.jobs[tip].status)
    ensures !Decision(db, j).CreatedSuccessor?
  {
  }

  /** Repeating a reconcile with nothing changed creates no job and changes no row. */
  lemma ReconcileIsIdempotent(db: Db, j: nat, jobs': seq<Job>, again: seq<Job>)
    requires Sound(db.jobs) && j < |db.jobs| && Reconciles(db, j, jobs')
    ensures Sound(jobs') && j < |jobs'| && !Decision(db.(jobs := jobs'), j).CreatedSuccessor?
    ensures Reconciles(db.(jobs := jobs'), j, again) ==> again == jobs'
  {
    ReconcileKeepsSound(db, j, jobs');
    if Decision(db, j).CreatedSuccessor? {
      var tip := Walk(db.jobs, j);
      var s :| jobs' == Superseded(db.jobs, j, tip, s) && IsFresh(db.jobs, s.humanId) && SuccessorOf(db, j, s.humanId, s);
      SuccessorIsHealthy(db, j, s, jobs');
    }
    if Reconciles(db.(jobs := jobs'), j, again) {
      QuietReconcile(db.(jobs := jobs'), j, again);
    }
  }

  lemma QuietReconcile(db: Db, j: nat, jobs': seq<Job>)
    requires DepsOk(db.jobs) && Forward(db.jobs) && j < |db.jobs| && Reconciles(db, j, jobs')
    ensures !Decision(db, j).CreatedSuccessor? ==> jobs' == db.jobs
  {
  }

  /** Right after a reconcile the chain ends in the new successor, on the authoritative SHA. */
  lemma SuccessorIsHealthy(db: Db, j: nat, s: Job, jobs': seq<Job>)
    requires DepsOk(db.jobs) && Forward(db.jobs) && IsReleaseAt(db.jobs, j) && SuccessorOf(db, j, s.humanId, s)
    requires jobs' == Superseded(db.jobs, j, Walk(db.jobs, j), s) && Forward(jobs')
    ensures |jobs'| == |db.jobs| + 1 && IsReleaseAt(jobs', j) && Walk(jobs', j) == |db.jobs| && jobs'[|db.jobs|] == s
    ensures DepsOk(jobs') ==> !Decision(db.(jobs := jobs'), j).CreatedSuccessor?
  {
    ChainsMoveToSuccessor(db.jobs, j, s, j);
    assert s.base == Some(AUTHORITATIVE_SHA) && s.status == READY;
    if DepsOk(jobs') {
      HealthyTipIsKept(db.(jobs := jobs'), j);
    }
  }

  // ---------------------------------------------------------------------------
  // Runs: reconciles among arbitrary updates, invalidations and new jobs
  // ---------------------------------------------------------------------------

  /** Dependencies on the first `n` rows only. */
  predicate DepsBelow(deps: seq<nat>, n: nat) {
    forall k :: 0 <= k < |deps| ==> deps[k] < n
  }

  /** Workers and rewiring may change anything about a row except its name, its queue and its link,
      as long as dependencies exist. */
  predicate RowUpdate(a: Job, b: Job, n: nat) {
    b.humanId == a.humanId && b.queue == a.queue && b.supersededBy == a.supersededBy && DepsBelow(b.deps, n)
  }

  ghost predicate Updates(jobs: seq<Job>, jobs': seq<Job>) {
    |jobs'| == |jobs| && forall x :: 0 <= x < |jobs| ==> RowUpdate(jobs[x], jobs'[x], |jobs|)
  }

  /** A new job has no successor, a name of its own and dependencies on existing jobs. */
  ghost predicate NewRow(jobs: seq<Job>, extra: Job) {
    extra.supersededBy.None? && IsFresh(jobs, extra.humanId) && DepsBelow(extra.deps, |jobs|)
  }

  /** Invalidating delivery `d` in favour of job `rework`, which may be older. */
  function Invalidated(jobs: seq<Job>, d: nat, rework: nat): seq<Job>
    requires d < |jobs|
  {
    jobs[d := jobs[d].(outcome := INVALIDATED, supersededBy := Some(rework))]
  }

  ghost predicate Invalidates(jobs: seq<Job>, jobs': seq<Job>, d: nat) {
    && d < |jobs| && jobs[d].queue == DELIVERY
    && (|| (exists rework: nat :: rework < |jobs| && jobs' == Invalidated(jobs, d, rework))
        || (exists extra: Job :: NewRow(jobs, extra) && extra.queue == DELIVERY && jobs' == Invalidated(jobs + [extra], d, |jobs|)))
  }

  ghost predicate Next(evidence: seq<Evidence>, jobs: seq<Job>, jobs': seq<Job>)
    requires Sound(jobs)
  {
    || (exists j :: 0 <= j < |jobs| && Reconciles(Db(jobs, evidence), j, jobs'))
    || Updates(jobs, jobs')
    || (exists extra: Job :: NewRow(jobs, extra) && jobs' == jobs + [extra])
    || (exists d: nat :: Invalidates(jobs, jobs', d))
  }

  lemma NextKeepsSound(evidence: seq<Evidence>, jobs: seq<Job>, jobs': seq<Job>)
    requires Sound(jobs) && Next(evidence, jobs, jobs')
    ensures Sound(jobs')
  {
    if j :| 0 <= j < |jobs| && Reconciles(Db(jobs, evidence), j, jobs') {
      ReconcileKeepsSound(Db(jobs, evidence), j, jobs');
    } else if Updates(jobs, jobs') {
      UpdateKeepsSound(jobs, jobs');
    } else if extra: Job :| NewRow(jobs, extra) && jobs' == jobs + [extra] {
      NewRowKeepsSound(jobs, extra);
    } else {
      var d: nat :| Invalidates(jobs, jobs', d);
      InvalidationKeepsSound(jobs, jobs', d);
    }
  }

  lemma UpdateKeepsSound(jobs: seq<Job>, jobs': seq<Job>)
    requires Sound(jobs) && Updates(jobs, jobs')
    ensures Sound(jobs')
  {
    assert forall x :: 0 <= x < |jobs| ==> RowUpdate(jobs[x], jobs'[x], |jobs|);
    forall x | 0 <= x < |jobs'| && jobs'[x].queue == RELEASE && jobs'[x].supersededBy.Some?
      ensures NewerRelease(jobs', x, jobs'[x].supersededBy.value)
    {
      assert NewerRelease(jobs, x, jobs[x].supersededBy.value);
    }
  }

  lemma NewRowKeepsSound(jobs: seq<Job>, extra: Job)
    requires Sound(jobs) && NewRow(jobs, extra)
    ensures Sound(jobs + [extra])
  {
    AppendDeps(jobs, extra);
    var jobs' := jobs + [extra];
    forall x | 0 <= x < |jobs'| && jobs'[x].queue == RELEASE && jobs'[x].supersededBy.Some?
      ensures NewerRelease(jobs', x, jobs'[x].supersededBy.value)
    {
      assert NewerRelease(jobs, x, jobs[x].supersededBy.value);
    }
  }

  /** Links of DELIVERY rows are no part of the invariant. */
  lemma DeliveryLinkKeepsSound(jobs: seq<Job>, d: nat, rework: nat)
    requires Sound(jobs) && d < |jobs| && jobs[d].queue == DELIVERY
    ensures Sound(Invalidated(jobs, d, rework))
  {
    var jobs' := Invalidated(jobs, d, rework);
    assert forall x :: 0 <= x < |jobs| ==> jobs'[x].humanId == jobs[x].humanId && jobs'[x].queue == jobs[x].queue && jobs'[x].deps == jobs[x].deps;
    forall x | 0 <= x < |jobs'| && jobs'[x].queue == RELEASE && jobs'[x].supersededBy.Some?
      ensures NewerRelease(jobs', x, jobs'[x].supersededBy.value)
    {
      assert NewerRelease(jobs, x, jobs[x].supersededBy.value);
    }
  }

  lemma InvalidationKeepsSound(jobs: seq<Job>, jobs': seq<Job>, d: nat)
    requires Sound(jobs) && Invalidates(jobs, jobs', d)
    ensures Sound(jobs')
  {
    if rework: nat :| rework < |jobs| && jobs' == Invalidated(jobs, d, rework) {
      DeliveryLinkKeepsSound(jobs, d, rework);
    } else {
      var extra: Job :| NewRow(jobs, extra) && extra.queue == DELIVERY && jobs' == Invalidated(jobs + [extra], d, |jobs|);
      NewRowKeepsSound(jobs, extra);
      DeliveryLinkKeepsSound(jobs + [extra], d, |jobs|);
    }
  }

  /** In every history from an empty table, invalidations included, the links of RELEASE jobs point to
      strictly newer RELEASE jobs, so every walk ends without its guard. */
  lemma {:induction false} LinksAlwaysForward(evidence: seq<seq<Evidence>>, history: seq<seq<Job>>, n: nat)
    requires n < |history| && |evidence| == |history| && history[0] == []
    requires forall i, k :: 0 <= i && k == i + 1 < |history| && Sound(history[i]) ==> Next(evidence[i], history[i], history[k])
    ensures Sound(history[n])
  {
    if n > 0 {
      LinksAlwaysForward(evidence, history, n - 1);
      NextKeepsSound(evidence[n - 1], history[n - 1], history[n]);
    }
  }

  // ---------------------------------------------------------------------------
  // The operation
  // ---------------------------------------------------------------------------

  method CopyDeps(deps: seq<nat>) returns (copy: seq<nat>)
    ensures copy == Dedup(deps)
  {
    copy := [];
    for k := 0 to |deps|
      invariant copy == Dedup(deps[..k])
    {
      assert deps[..k + 1][..k] == deps[..k];
      if deps[k] !in copy {
        copy := copy + [deps[k]];
      }
    }
    assert deps[..|deps|] == deps;
  }

  /** The named rows with the integration added to the successor's dependencies. */
  function Anchored(jobs: seq<Job>, id: nat, integ: nat): seq<Job>
    requires id < |jobs|
  {
    jobs[id := jobs[id].(deps := WithIntegration(jobs[id].deps, integ))]
  }

  lemma AnchoredDeps(jobs: seq<Job>, id: nat, integ: nat)
    requires DepsOk(jobs) && id < |jobs| && integ < |jobs|
    ensures DepsOk(Anchored(jobs, id, integ))
  {
    var after := Anchored(jobs, id, integ);
    forall x, k | 0 <= x < |after| && 0 <= k < |after[x].deps|
      ensures after[x].deps[k] < |after|
    {
      if x == id && k < |jobs[id].deps| {
        assert after[x].deps[k] == jobs[id].deps[k];
      }
    }
  }

  /** Anchors a QUEUED successor to the integration, binds it and promotes it; refuses, leaving it
      unlinked, exactly when its gates are not met or its usable dependencies disagree. */
  method BindSuccessor(store: ReleaseStore, id: nat, integ: nat) returns (ok: bool)
    requires DepsOk(store.jobs) && id < |store.jobs| && integ < |store.jobs|
    requires store.jobs[id].queue == RELEASE && store.jobs[id].status == QUEUED
    modifies store`jobs
    ensures DepsOk(Anchored(old(store.jobs), id, integ))
    ensures
      var mid := Db(Anchored(old(store.jobs), id, integ), store.evidence);
      && (ok <==> PrerequisitesMet(mid, id) && OneSha(mid, mid.jobs[id]))
      && |store.jobs| == |mid.jobs| && store.jobs == mid.jobs[id := store.jobs[id]]
      && (!ok ==> store.jobs == mid.jobs)
      && (ok ==>
        && store.jobs[id] == mid.jobs[id].(sourceSha := store.jobs[id].sourceSha, sourceJob := store.jobs[id].sourceJob, status := READY)
        && store.jobs[id].sourceJob.Some? && store.jobs[id].sourceJob.value in mid.jobs[id].deps
        && store.jobs[id].sourceJob.value < |mid.jobs|
        && mid.jobs[store.jobs[id].sourceJob.value].candidate == store.jobs[id].sourceSha
        && store.jobs[id].sourceSha.Some? && ApprovedSha(mid, id, store.jobs[id].sourceSha.value))
  {
    AnchoredDeps(store.jobs, id, integ);
    ghost var mid := Db(Anchored(store.jobs, id, integ), store.evidence);
    if integ !in store.jobs[id].deps {
      store.jobs := store.jobs[id := store.jobs[id].(deps := store.jobs[id].deps + [integ])];
    }
    assert store.jobs == mid.jobs;
    ok := store.Bind(id);
    if ok {
      assert JobFrame(mid.jobs[id], store.jobs[id]);
      FrameGates(mid, store.jobs, id);
      store.jobs := store.jobs[id := store.jobs[id].(status := READY)];
    }
  }

  /** An approved SHA of the successor can only be the authoritative one. */
  lemma ApprovedIsAuthoritative(db: Db, j: nat, name: string, sha: Name)
    requires DepsOk(db.jobs) && j < |db.jobs| && ResolveIntegration(db, db.jobs[j]).Ok?
    ensures
      var s := Successor(db.jobs[j], name, ResolveIntegration(db, db.jobs[j]).value, AUTHORITATIVE_SHA);
      var db' := db.(jobs := db.jobs + [s]);
      DepsOk(db'.jobs) && (ApprovedSha(db', |db.jobs|, sha) ==> sha == AUTHORITATIVE_SHA)
  {
    BindingCannotRefuse(db, db.jobs[j], name);
  }

  lemma ReplaceLast(history: seq<Job>, s: Job, s': Job)
    ensures (history + [s])[|history| := s'] == history + [s']
  {
  }

  /** Creates the successor and binds it; the binding step cannot refuse. */
  method AddSuccessor(store: ReleaseStore, j: nat, integ: nat, name: string)
    requires DepsOk(store.jobs) && j < |store.jobs|
    requires ResolveIntegration(store.State(), store.jobs[j]) == Ok(integ) && integ < |store.jobs|
    modifies store`jobs
    ensures |store.jobs| > |old(store.jobs)| && store.jobs == old(store.jobs) + [store.jobs[|old(store.jobs)|]]
    ensures SuccessorOf(old(store.State()), j, name, store.jobs[|old(store.jobs)|])
  {
    ghost var db := store.State();
    var job, n := store.jobs[j], |store.jobs|;
    var deps := CopyDeps(job.deps);
    ghost var started := Successor(job, name, integ, AUTHORITATIVE_SHA);
    var row := Job(name, job.project, job.iteration, RELEASE, RELEASE, QUEUED, NoOutcome, None, Some(AUTHORITATIVE_SHA),
                   None, None, None, 0, false, deps);
    BindingCannotRefuse(db, job, name);
    DedupMembers(job.deps);
    assert forall k :: 0 <= k < |deps| ==> deps[k] in deps;
    AppendDeps(store.jobs, row);
    store.jobs := store.jobs + [row];
    assert Anchored(store.jobs, n, integ) == db.jobs + [started];
    var ok := BindSuccessor(store, n, integ);
    assert ok;
    ApprovedIsAuthoritative(db, j, name, store.jobs[n].sourceSha.value);
    BoundIsSuccessor(db, j, name, store.jobs[n], started);
    ReplaceLast(db.jobs, started, store.jobs[n]);
  }

  /** Marks the named job and the old end of its chain as superseded by the newest row. */
  method LinkSuccessor(store: ReleaseStore, j: nat, tip: nat, ghost history: seq<Job>, ghost s: Job)
    requires store.jobs == history + [s] && j < |history| && tip < |history|
    modifies store`jobs
    ensures store.jobs == Superseded(history, j, tip, s)
  {
    var n := |store.jobs| - 1;
    store.jobs := store.jobs[j := Retired(store.jobs[j], n)];
    if tip != j {
      store.jobs := store.jobs[tip := Retired(store.jobs[tip], n)];
    }
  }

  lemma BoundIsSuccessor(db: Db, j: nat, name: string, s: Job, started: Job)
    requires DepsOk(db.jobs) && j < |db.jobs| && ResolveIntegration(db, db.jobs[j]).Ok?
    requires started == Successor(db.jobs[j], name, ResolveIntegration(db, db.jobs[j]).value, AUTHORITATIVE_SHA)
    requires s == started.(sourceSha := Some(AUTHORITATIVE_SHA), sourceJob := s.sourceJob, status := READY)
    requires s.sourceJob.Some? && s.sourceJob.value in started.deps && s.sourceJob.value < |db.jobs| + 1
    requires (db.jobs + [started])[s.sourceJob.value].candidate == Some(AUTHORITATIVE_SHA)
    ensures SuccessorOf(db, j, name, s)
  {
  }

  method FindByName(jobs: seq<Job>, humanId: string) returns (j: nat)
    ensures j <= |jobs| && (j == |jobs| <==> IsFresh(jobs, humanId)) && (j < |jobs| ==> jobs[j].humanId == humanId)
  {
    j := 0;
    while j < |jobs| && jobs[j].humanId != humanId
      invariant j <= |jobs| && forall i :: 0 <= i < j ==> jobs[i].humanId != humanId
    {
      j := j + 1;
    }
  }

  /** Replaces job `j` and the end of its chain by a bound successor with the next free retry name. */
  method ReplaceJob(store: ReleaseStore, j: nat, tip: nat, integ: nat)
    requires Sound(store.jobs) && j < |store.jobs| && Decision(store.State(), j).CreatedSuccessor?
    requires ResolveIntegration(store.State(), store.jobs[j]) == Ok(integ) && integ < |store.jobs|
    requires tip == Walk(store.jobs, j)
    modifies store`jobs
    ensures Reconciles(old(store.State()), j, store.jobs)
    ensures |store.jobs| == |old(store.jobs)| + 1
    ensures HasRetryName(store.jobs[|old(store.jobs)|], old(store.jobs)[j].humanId)
  {
    ghost var db := store.State();
    var name := FreshRetryName(store.jobs, store.jobs[j].humanId);
    AddSuccessor(store, j, integ, name);
    ghost var s := store.jobs[|db.jobs|];
    LinkSuccessor(store, j, tip, db.jobs, s);
    SuccessorReconciles(db, j, name, s, store.jobs);
  }

  /** The next retry name of a job's base that no job carries. */
  method FreshRetryName(jobs: seq<Job>, humanId: string) returns (name: string)
    ensures IsFresh(jobs, name)
    ensures exists n: nat :: n >= 1 && name == RetryNames.RetryName(RetryNames.RetryBase(humanId), n)
  {
    var taken := set i | 0 <= i < |jobs| :: jobs[i].humanId;
    var n;
    name, n := RetryNames.NextRetryName(taken, RetryNames.RetryBase(humanId));
    assert forall i :: 0 <= i < |jobs| ==> jobs[i].humanId in taken;
  }

  lemma SuccessorReconciles(db: Db, j: nat, name: string, s: Job, jobs': seq<Job>)
    requires Sound(db.jobs) && j < |db.jobs| && Decision(db, j).CreatedSuccessor?
    requires IsFresh(db.jobs, name) && SuccessorOf(db, j, name, s)
    requires jobs' == Superseded(db.jobs, j, Walk(db.jobs, j), s)
    ensures Reconciles(db, j, jobs') && |jobs'| == |db.jobs| + 1 && jobs'[|db.jobs|] == s && s.humanId == name
  {
    assert s.humanId == name;
  }

  /** Decides about job `j` and carries the decision out. */
  method ReconcileJob(store: ReleaseStore, j: nat) returns (v: Verdict)
    requires Sound(store.jobs) && j < |store.jobs|
    modifies store`jobs
    ensures v == Decision(old(store.State()), j) && Reconciles(old(store.State()), j, store.jobs)
    ensures v.CreatedSuccessor? ==> v.id < |store.jobs| && HasRetryName(store.jobs[v.id], old(store.jobs)[j].humanId)
  {
    var job := store.jobs[j];
    if Precheck(job).Some? {
      return Refused(Precheck(job).value);
    }
    var resolved := ResolveIntegration(Db(store.jobs, store.evidence), job);
    if resolved.Err? {
      return Refused(resolved.error);
    }
    AcceptedIntegration(store.State(), job);
    var tip := WalkSuccessor(store.jobs, j);
    var end := store.jobs[tip];
    if RecordedSha(job) in {None, Some(AUTHORITATIVE_SHA)} && !Retryable(job.status) && !Retryable(end.status) {
      return Refused(NoStaleDefect);
    }
    if tip != j && (end.sourceSha == Some(AUTHORITATIVE_SHA) || end.base == Some(AUTHORITATIVE_SHA)) && !Retryable(end.status) {
      return AlreadyReconciled(tip);
    }
    v := CreatedSuccessor(|store.jobs|);
    ReplaceJob(store, j, tip, resolved.value);
  }

  /** Reconciles the named job.  The table moves as decided, a reconcile never leaves an unlinked
      successor behind, and a new successor carries a retry name of the same base. */
  method ReconcileStaleRelease(store: ReleaseStore, humanId: string) returns (v: Verdict)
    requires Sound(store.jobs)
    modifies store`jobs
    ensures Sound(store.jobs)
    ensures IsFresh(old(store.jobs), humanId) ==> v == Refused(NotFound) && store.jobs == old(store.jobs)
    ensures forall j :: 0 <= j < |old(store.jobs)| && old(store.jobs)[j].humanId == humanId ==>
      v == Decision(old(store.State()), j) && Reconciles(old(store.State()), j, store.jobs)
    ensures v.CreatedSuccessor? ==> v.id < |store.jobs| && HasRetryName(store.jobs[v.id], humanId)
  {
    ghost var db := store.State();
    var j := FindByName(store.jobs, humanId);
    if j == |store.jobs| {
      return Refused(NotFound);
    }
    OnlyOneNamed(db.jobs, humanId, j);
    v := ReconcileJob(store, j);
    ReconcileKeepsSound(db, j, store.jobs);
  }

  ghost predicate HasRetryName(job: Job, humanId: string) {
    exists n: nat :: n >= 1 && job.humanId == RetryNames.RetryName(RetryNames.RetryBase(humanId), n)
  }

  lemma OnlyOneNamed(jobs: seq<Job>, humanId: string, j: nat)
    requires Sound(jobs) && j < |jobs| && jobs[j].humanId == humanId
    ensures forall i :: 0 <= i < |jobs| && jobs[i].humanId == humanId ==> i == j
  {
  }
}
