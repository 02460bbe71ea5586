/** What a reconcile decides, column by column: which jobs are refused and why, in the order the reasons
    are tried, and which are replaced. */
module ReleaseDecisions {
  import opened Prelude
  import opened Jobs
  import opened QaTypes
  import opened ReleaseProvenance
  import opened ReleaseRetry
  import opened ReleaseReconcile

  // ---------------------------------------------------------------------------
  // Which integration
  // ---------------------------------------------------------------------------

  /** A missing iteration and an empty one are the same. */
  function IterationText(i: Option<Name>): string {
    if i == None then "" else i.value.text
  }

  /** The integration passes the first `level` tests: it is a dependency or of the same project and
      iteration, it succeeded, its outcome stands, it has a candidate, and its identity is the release's. */
  predicate Passed(jobs: seq<Job>, release: Job, i: nat, level: nat) {
    && i < |jobs| && jobs[i].queue == INTEGRATION
    && (i in release.deps || (jobs[i].project == release.project && IterationText(jobs[i].iteration) == IterationText(release.iteration)))
    && (level >= 2 ==> jobs[i].status == SUCCEEDED)
    && (level >= 3 ==> jobs[i].outcome != INVALIDATED && jobs[i].outcome != SUPERSEDED && jobs[i].outcome != NO_CHANGE)
    && (level >= 4 ==> jobs[i].candidate != None)
    && (level >= 5 ==> jobs[i].project == release.project && jobs[i].iteration == release.iteration)
  }

  ghost predicate SomePass(jobs: seq<Job>, release: Job, level: nat) {
    exists i: nat :: Passed(jobs, release, i, level)
  }

  lemma {:induction false} NumbersButHas(n: nat, drop: seq<nat>, x: nat)
    ensures x in NumbersBut(n, drop) <==> x < n && x !in drop
  {
    if n > 0 {
      NumbersButHas(n - 1, drop, x);
    }
  }

  lemma KeyIsText(a: Option<Name>, b: Option<Name>)
    ensures IterationKey(a) == IterationKey(b) <==> IterationText(a) == IterationText(b)
  {
  }

  lemma CandidateIff(jobs: seq<Job>, release: Job, i: nat)
    ensures i in Candidates(jobs, release) <==> Passed(jobs, release, i, 1)
  {
    var own := Filter(jobs, release, InQueue, release.deps);
    FilterHas(jobs, release, InQueue, release.deps, i);
    NumbersButHas(|jobs|, own, i);
    FilterHas(jobs, release, RowOfIdentity, NumbersBut(|jobs|, own), i);
    if i < |jobs| {
      KeyIsText(jobs[i].iteration, release.iteration);
    }
  }

  function TestOf(level: nat): Test {
    if level == 2 then HasSucceeded else if level == 3 then OutcomeValid else if level == 4 then HasSha else SameIdentity
  }

  /** The list left after the first `level` tests. */
  function Left(jobs: seq<Job>, release: Job, level: nat): seq<nat>
    requires 1 <= level <= 5
  {
    if level == 1 then Candidates(jobs, release) else Filter(jobs, release, TestOf(level), Left(jobs, release, level - 1))
  }

  lemma PassedStep(jobs: seq<Job>, release: Job, i: nat, level: nat)
    requires 2 <= level <= 5
    ensures Passed(jobs, release, i, level) <==> Passed(jobs, release, i, level - 1) && Passes(jobs, release, TestOf(level), i)
  {
  }

  lemma LeftStep(jobs: seq<Job>, release: Job, level: nat, i: nat)
    requires 2 <= level <= 5
    ensures i in Left(jobs, release, level) <==> i in Left(jobs, release, level - 1) && Passes(jobs, release, TestOf(level), i)
  {
    FilterHas(jobs, release, TestOf(level), Left(jobs, release, level - 1), i);
  }

  lemma {:induction false} LeftHas(jobs: seq<Job>, release: Job, level: nat, i: nat)
    requires 1 <= level <= 5
    ensures i in Left(jobs, release, level) <==> Passed(jobs, release, i, level)
  {
    if level == 1 {
      CandidateIff(jobs, release, i);
    } else {
      LeftHas(jobs, release, level - 1, i);
      PassedStep(jobs, release, i, level);
      LeftStep(jobs, release, level, i);
    }
  }

  lemma LeftIsEmptyIff(jobs: seq<Job>, release: Job, level: nat)
    requires 1 <= level <= 5
    ensures Left(jobs, release, level) == [] <==> !SomePass(jobs, release, level)
  {
    if Left(jobs, release, level) != [] {
      LeftHas(jobs, release, level, Left(jobs, release, level)[0]);
    }
    if SomePass(jobs, release, level) {
      var i: nat :| Passed(jobs, release, i, level);
      LeftHas(jobs, release, level, i);
    }
  }

  lemma SurvivorsAreLeft(jobs: seq<Job>, release: Job)
    ensures Survivors(jobs, release) ==
      if Left(jobs, release, 1) == [] then Err(NoIntegration)
      else if Left(jobs, release, 2) == [] then Err(IntegrationNotSuccessful)
      else if Left(jobs, release, 3) == [] then Err(IntegrationInvalidated)
      else if Left(jobs, release, 4) == [] then Err(CandidateMissing)
      else if Left(jobs, release, 5) == [] then Err(IdentityMismatch)
      else Ok(Left(jobs, release, 5))
  {
    assert Left(jobs, release, 2) == Filter(jobs, release, HasSucceeded, Left(jobs, release, 1));
    assert Left(jobs, release, 3) == Filter(jobs, release, OutcomeValid, Left(jobs, release, 2));
    assert Left(jobs, release, 4) == Filter(jobs, release, HasSha, Left(jobs, release, 3));
    assert Left(jobs, release, 5) == Filter(jobs, release, SameIdentity, Left(jobs, release, 4));
  }

  /** All integrations that pass every test carry this SHA. */
  ghost predicate AllCarry(jobs: seq<Job>, release: Job, sha: Name) {
    forall i: nat :: Passed(jobs, release, i, 5) ==> jobs[i].candidate == Some(sha)
  }

  /** Why no integration is accepted: the first test at which none is left, then disagreement, then a SHA
      other than the authoritative one, then QA of the one that would be taken. */
  lemma ResolvedIff(db: Db, release: Job)
    requires DepsOk(db.jobs)
    ensures
      var r, jobs := ResolveIntegration(db, release), db.jobs;
      && (r == Err(NoIntegration) <==> !SomePass(jobs, release, 1))
      && (r == Err(IntegrationNotSuccessful) <==> SomePass(jobs, release, 1) && !SomePass(jobs, release, 2))
      && (r == Err(IntegrationInvalidated) <==> SomePass(jobs, release, 2) && !SomePass(jobs, release, 3))
      && (r == Err(CandidateMissing) <==> SomePass(jobs, release, 3) && !SomePass(jobs, release, 4))
      && (r == Err(IdentityMismatch) <==> SomePass(jobs, release, 4) && !SomePass(jobs, release, 5))
      && (r.Ok? || r in {Err(AmbiguousProvenance), Err(NotAuthoritative), Err(QaIncomplete)} <==> SomePass(jobs, release, 5))
  {
    var jobs := db.jobs;
    SurvivorsAreLeft(jobs, release);
    LeftIsEmptyIff(jobs, release, 1);
    LeftIsEmptyIff(jobs, release, 2);
    LeftIsEmptyIff(jobs, release, 3);
    LeftIsEmptyIff(jobs, release, 4);
    LeftIsEmptyIff(jobs, release, 5);
    GatesClosedIsUnreachable(db, release);
    PassedWeakens(jobs, release);
  }

  lemma PassedWeakens(jobs: seq<Job>, release: Job)
    ensures SomePass(jobs, release, 5) ==> SomePass(jobs, release, 4)
    ensures SomePass(jobs, release, 4) ==> SomePass(jobs, release, 3)
    ensures SomePass(jobs, release, 3) ==> SomePass(jobs, release, 2)
    ensures SomePass(jobs, release, 2) ==> SomePass(jobs, release, 1)
  {
    forall i: nat, level: nat | 2 <= level <= 5 && Passed(jobs, release, i, level)
      ensures Passed(jobs, release, i, level - 1)
    {
    }
    if SomePass(jobs, release, 5) {
      var i: nat :| Passed(jobs, release, i, 5);
      assert Passed(jobs, release, i, 4);
    }
    if SomePass(jobs, release, 4) {
      var i: nat :| Passed(jobs, release, i, 4);
      assert Passed(jobs, release, i, 3);
    }
    if SomePass(jobs, release, 3) {
      var i: nat :| Passed(jobs, release, i, 3);
      assert Passed(jobs, release, i, 2);
    }
    if SomePass(jobs, release, 2) {
      var i: nat :| Passed(jobs, release, i, 2);
      assert Passed(jobs, release, i, 1);
    }
  }

  lemma AllLeft(jobs: seq<Job>, release: Job)
    requires SomePass(jobs, release, 5)
    ensures Survivors(jobs, release) == Ok(Left(jobs, release, 5)) && Left(jobs, release, 5) != []
    ensures forall i: nat :: i in Left(jobs, release, 5) <==> Passed(jobs, release, i, 5)
  {
    SurvivorsAreLeft(jobs, release);
    PassedWeakens(jobs, release);
    forall level | 1 <= level <= 5
      ensures Left(jobs, release, level) != []
    {
      LeftIsEmptyIff(jobs, release, level);
    }
    forall i: nat
      ensures i in Left(jobs, release, 5) <==> Passed(jobs, release, i, 5)
    {
      LeftHas(jobs, release, 5, i);
    }
  }

  /** Among integrations that pass every test: acceptance needs them all on the authoritative SHA. */
  lemma AcceptedIff(db: Db, release: Job)
    requires DepsOk(db.jobs) && SomePass(db.jobs, release, 5)
    ensures
      var r, jobs, sha := ResolveIntegration(db, release), db.jobs, Name("5811c17730849fe0282db06690f9d9d7cd5315a1");
      && (r == Err(AmbiguousProvenance) <==>
          exists a: nat, b: nat :: Passed(jobs, release, a, 5) && Passed(jobs, release, b, 5) && jobs[a].candidate != jobs[b].candidate)
      && (r.Ok? || r == Err(QaIncomplete) <==> AllCarry(jobs, release, sha))
      && (r.Ok? ==> Passed(jobs, release, r.value, 5) && QaGatesSatisfied(db, r.value))
  {
    AllLeft(db.jobs, release);
    GatesClosedIsUnreachable(db, release);
    var first := Left(db.jobs, release, 5)[0];
    assert first in Left(db.jobs, release, 5);
  }

  // ---------------------------------------------------------------------------
  // Which integration is taken
  // ---------------------------------------------------------------------------

  /** The members of a list that pass the first `level` tests, in order. */
  function Keep(jobs: seq<Job>, release: Job, ids: seq<nat>, level: nat): seq<nat> {
    if ids == [] then []
    else
      var last := ids[|ids| - 1];
      Keep(jobs, release, ids[..|ids| - 1], level) + if Passed(jobs, release, last, level) then [last] else []
  }

  lemma {:induction false} KeepStep(jobs: seq<Job>, release: Job, ids: seq<nat>, level: nat)
    requires 2 <= level <= 5
    ensures Filter(jobs, release, TestOf(level), Keep(jobs, release, ids, level - 1)) == Keep(jobs, release, ids, level)
  {
    if ids != [] {
      var front, last := ids[..|ids| - 1], ids[|ids| - 1];
      KeepStep(jobs, release, front, level);
      var kept := Keep(jobs, release, front, level - 1);
      PassedStep(jobs, release, last, level);
      if Passed(jobs, release, last, level - 1) {
        assert Keep(jobs, release, ids, level - 1) == kept + [last] && (kept + [last])[..|kept|] == kept;
      } else {
        assert Keep(jobs, release, ids, level - 1) == kept;
      }
    }
  }

  lemma {:induction false} LeftIsKept(jobs: seq<Job>, release: Job, level: nat)
    requires 1 <= level <= 5
    ensures Left(jobs, release, level) == Keep(jobs, release, Candidates(jobs, release), level)
  {
    if level == 1 {
      CandidatesAreKept(jobs, release);
    } else {
      LeftIsKept(jobs, release, level - 1);
      KeepStep(jobs, release, Candidates(jobs, release), level);
    }
  }

  lemma CandidatesAreKept(jobs: seq<Job>, release: Job)
    ensures Keep(jobs, release, Candidates(jobs, release), 1) == Candidates(jobs, release)
  {
    var found := Candidates(jobs, release);
    forall k | 0 <= k < |found|
      ensures Passed(jobs, release, found[k], 1)
    {
      CandidateIff(jobs, release, found[k]);
    }
    KeepAll(jobs, release, found, 1);
  }

  lemma {:induction false} KeepAll(jobs: seq<Job>, release: Job, ids: seq<nat>, level: nat)
    requires forall k :: 0 <= k < |ids| ==> Passed(jobs, release, ids[k], level)
    ensures Keep(jobs, release, ids, level) == ids
  {
    if ids != [] {
      KeepAll(jobs, release, ids[..|ids| - 1], level);
    }
  }

  lemma {:induction false} KeepConcat(jobs: seq<Job>, release: Job, a: seq<nat>, b: seq<nat>, level: nat)
    ensures Keep(jobs, release, a + b, level) == Keep(jobs, release, a, level) + Keep(jobs, release, b, level)
  {
    if b == [] {
      assert a + b == a;
    } else {
      assert (a + b)[..|a + b| - 1] == a + b[..|b| - 1];
      KeepConcat(jobs, release, a, b[..|b| - 1], level);
    }
  }

  /** The first kept member: nothing before it passes. */
  lemma {:induction false} KeepFirst(jobs: seq<Job>, release: Job, ids: seq<nat>, level: nat) returns (p: nat)
    requires Keep(jobs, release, ids, level) != []
    ensures p < |ids| && ids[p] == Keep(jobs, release, ids, level)[0] && Passed(jobs, release, ids[p], level)
    ensures forall q :: 0 <= q < p ==> !Passed(jobs, release, ids[q], level)
  {
    var front := ids[..|ids| - 1];
    if Keep(jobs, release, front, level) != [] {
      p := KeepFirst(jobs, release, front, level);
    } else {
      p := |ids| - 1;
      forall q | 0 <= q < p
        ensures !Passed(jobs, release, ids[q], level)
      {
        KeepNone(jobs, release, front, level, q);
      }
    }
  }

  lemma {:induction false} KeepNone(jobs: seq<Job>, release: Job, ids: seq<nat>, level: nat, q: nat)
    requires Keep(jobs, release, ids, level) == [] && q < |ids|
    ensures !Passed(jobs, release, ids[q], level)
  {
    if q < |ids| - 1 {
      KeepNone(jobs, release, ids[..|ids| - 1], level, q);
    }
  }

  /** A dependency that passes, with none before it; or, if no dependency passes, the oldest job that does. */
  ghost predicate Preferred(jobs: seq<Job>, release: Job, i: nat) {
    && Passed(jobs, release, i, 5)
    && if i in release.deps then FirstDep(jobs, release, i) else OldestOther(jobs, release, i)
  }

  ghost predicate FirstDep(jobs: seq<Job>, release: Job, i: nat) {
    exists p :: 0 <= p < |release.deps| && release.deps[p] == i && forall q :: 0 <= q < p ==> !Passed(jobs, release, release.deps[q], 5)
  }

  ghost predicate OldestOther(jobs: seq<Job>, release: Job, i: nat) {
    && (forall q :: 0 <= q < |release.deps| ==> !Passed(jobs, release, release.deps[q], 5))
    && forall k: nat :: k < i ==> !Passed(jobs, release, k, 5)
  }

  lemma {:induction false} KeepIntegrations(jobs: seq<Job>, release: Job, ids: seq<nat>)
    ensures Keep(jobs, release, Filter(jobs, release, InQueue, ids), 5) == Keep(jobs, release, ids, 5)
  {
    if ids != [] {
      var front, last := ids[..|ids| - 1], ids[|ids| - 1];
      KeepIntegrations(jobs, release, front);
      var own := Filter(jobs, release, InQueue, front);
      if Passes(jobs, release, InQueue, last) {
        assert Filter(jobs, release, InQueue, ids) == own + [last] && (own + [last])[..|own|] == own;
      } else {
        assert Filter(jobs, release, InQueue, ids) == own;
      }
    }
  }

  ghost predicate Increasing(ids: seq<nat>, n: nat) {
    (forall k :: 0 <= k < |ids| ==> ids[k] < n) && forall a, b :: 0 <= a < b < |ids| ==> ids[a] < ids[b]
  }

  lemma IncreasingGrows(ids: seq<nat>, more: seq<nat>, n: nat)
    requires Increasing(ids, n) && (more == ids || more == ids + [n])
    ensures Increasing(more, n + 1)
  {
  }

  lemma {:induction false} NumbersIncrease(n: nat, own: seq<nat>)
    ensures Increasing(NumbersBut(n, own), n)
  {
    if n > 0 {
      NumbersIncrease(n - 1, own);
      IncreasingGrows(NumbersBut(n - 1, own), NumbersBut(n, own), n - 1);
    }
  }

  lemma {:induction false} FilterIncreases(jobs: seq<Job>, release: Job, t: Test, ids: seq<nat>, n: nat)
    requires Increasing(ids, n)
    ensures Increasing(Filter(jobs, release, t, ids), n)
  {
    if ids != [] {
      var front, last := ids[..|ids| - 1], ids[|ids| - 1];
      FilterIncreases(jobs, release, t, front, last);
      IncreasingGrows(Filter(jobs, release, t, front), Filter(jobs, release, t, ids), last);
    }
  }

  /** The first of the integrations left is the preferred one. */
  lemma FirstLeftIsPreferred(jobs: seq<Job>, release: Job)
    requires Left(jobs, release, 5) != []
    ensures Preferred(jobs, release, Left(jobs, release, 5)[0])
  {
    var own := Filter(jobs, release, InQueue, release.deps);
    var others := Filter(jobs, release, RowOfIdentity, NumbersBut(|jobs|, own));
    LeftIsKept(jobs, release, 5);
    KeepConcat(jobs, release, own, others, 5);
    KeepIntegrations(jobs, release, release.deps);
    if Keep(jobs, release, release.deps, 5) != [] {
      var p := KeepFirst(jobs, release, release.deps, 5);
      assert FirstDep(jobs, release, Left(jobs, release, 5)[0]);
    } else {
      OtherIsOldest(jobs, release, own, others);
    }
  }

  lemma DepsFail(jobs: seq<Job>, release: Job)
    requires Keep(jobs, release, release.deps, 5) == []
    ensures forall q :: 0 <= q < |release.deps| ==> !Passed(jobs, release, release.deps[q], 5)
  {
    forall q | 0 <= q < |release.deps|
      ensures !Passed(jobs, release, release.deps[q], 5)
    {
      KeepNone(jobs, release, release.deps, 5, q);
    }
  }

  lemma EarlierFails(jobs: seq<Job>, release: Job, others: seq<nat>, p: nat, k: nat)
    requires Increasing(others, |jobs|) && p < |others| && k < others[p]
    requires forall q :: 0 <= q < p ==> !Passed(jobs, release, others[q], 5)
    ensures k in others ==> !Passed(jobs, release, k, 5)
  {
  }

  lemma OtherIsOldest(jobs: seq<Job>, release: Job, own: seq<nat>, others: seq<nat>)
    requires own == Filter(jobs, release, InQueue, release.deps) && others == Filter(jobs, release, RowOfIdentity, NumbersBut(|jobs|, own))
    requires Keep(jobs, release, release.deps, 5) == [] && Keep(jobs, release, others, 5) != []
    ensures Preferred(jobs, release, Keep(jobs, release, others, 5)[0])
  {
    var p := KeepFirst(jobs, release, others, 5);
    OthersIncrease(jobs, release, own);
    DepsFail(jobs, release);
    forall k: nat | k < others[p]
      ensures !Passed(jobs, release, k, 5)
    {
      EarlierFails(jobs, release, others, p, k);
      OtherCandidate(jobs, release, own, others, k);
    }
  }

  lemma OthersIncrease(jobs: seq<Job>, release: Job, own: seq<nat>)
    ensures Increasing(Filter(jobs, release, RowOfIdentity, NumbersBut(|jobs|, own)), |jobs|)
  {
    NumbersIncrease(|jobs|, own);
    FilterIncreases(jobs, release, RowOfIdentity, NumbersBut(|jobs|, own), |jobs|);
  }

  lemma OtherCandidate(jobs: seq<Job>, release: Job, own: seq<nat>, others: seq<nat>, k: nat)
    requires own == Filter(jobs, release, InQueue, release.deps) && others == Filter(jobs, release, RowOfIdentity, NumbersBut(|jobs|, own))
    ensures Passed(jobs, release, k, 5) ==> k in others || k in release.deps
  {
    FilterHas(jobs, release, InQueue, release.deps, k);
    CandidateIff(jobs, release, k);
    assert Passed(jobs, release, k, 5) ==> Passed(jobs, release, k, 1);
  }

  /** If all that pass carry the authoritative SHA, the preferred one is taken or refused for its QA. */
  lemma TakesThePreferred(db: Db, release: Job) returns (i: nat)
    requires DepsOk(db.jobs) && SomePass(db.jobs, release, 5) && AllCarry(db.jobs, release, AUTHORITATIVE_SHA)
    ensures Preferred(db.jobs, release, i)
    ensures ResolveIntegration(db, release) == if QaGatesSatisfied(db, i) then Ok(i) else Err(QaIncomplete)
  {
    LeftIsEmptyIff(db.jobs, release, 5);
    FirstLeftIsPreferred(db.jobs, release);
    i := Left(db.jobs, release, 5)[0];
    AcceptedIff(db, release);
    TakesTheFirst(db, release);
  }

  lemma TakesTheFirst(db: Db, release: Job)
    requires DepsOk(db.jobs) && Left(db.jobs, release, 5) != [] && Left(db.jobs, release, 5)[0] < |db.jobs|
    ensures
      var r, i := ResolveIntegration(db, release), Left(db.jobs, release, 5)[0];
      (r.Ok? ==> r == Ok(i)) && (r == Err(QaIncomplete) ==> !QaGatesSatisfied(db, i))
  {
    SurvivorsAreLeft(db.jobs, release);
  }

  // ---------------------------------------------------------------------------
  // The decision
  // ---------------------------------------------------------------------------

  predicate RightQueue(job: Job) {
    job.queue == RELEASE && job.role == RELEASE
  }

  predicate RightIdentity(job: Job) {
    job.project == Name("PRJ-003") && job.iteration == Some(Name("ITER-002"))
  }

  predicate InUse(job: Job) {
    job.status == RUNNING || job.status == LEASED || job.leased
  }

  predicate Failing(job: Job) {
    job.status == BLOCKED || job.status == FAILED
  }

  /** The SHA the job recorded, its candidate before its source, differs from the authoritative one. */
  predicate RecordsOther(job: Job) {
    if job.candidate != None then job.candidate != Some(AUTHORITATIVE_SHA)
    else job.sourceSha != None && job.sourceSha != Some(AUTHORITATIVE_SHA)
  }

  /** The chain already ends in another job on the authoritative SHA that has not failed. */
  predicate Healthy(jobs: seq<Job>, j: nat, tip: nat)
    requires tip < |jobs|
  {
    tip != j && !Failing(jobs[tip]) && (jobs[tip].sourceSha == Some(AUTHORITATIVE_SHA) || jobs[tip].base == Some(AUTHORITATIVE_SHA))
  }

  /** The reasons a job is refused before any integration is looked at, in order. */
  lemma RefusedFirstIff(db: Db, j: nat)
    requires DepsOk(db.jobs) && Forward(db.jobs) && j < |db.jobs|
    ensures
      var job, d := db.jobs[j], Decision(db, j);
      && (d == Refused(NotARelease) <==> !RightQueue(job))
      && (d == Refused(WrongIdentity) <==> RightQueue(job) && !RightIdentity(job))
      && (d == Refused(Busy) <==> RightQueue(job) && RightIdentity(job) && InUse(job))
      && (d == Refused(RetryWaiting) <==> RightQueue(job) && RightIdentity(job) && !InUse(job) && job.status == RETRY_WAIT)
  {
    RefusedForIntegration(db, j);
  }

  predicate Admitted(job: Job) {
    RightQueue(job) && RightIdentity(job) && !InUse(job) && job.status != RETRY_WAIT
  }

  lemma RefusedForIntegration(db: Db, j: nat)
    requires DepsOk(db.jobs)
    ensures j < |db.jobs| ==>
      ResolveIntegration(db, db.jobs[j]) !in {Err(NotFound), Err(NotARelease), Err(WrongIdentity), Err(Busy), Err(RetryWaiting), Err(NoStaleDefect)}
  {
  }

  /** What is decided about an admitted job: it is refused for want of an integration, or because nothing
      is wrong with it, or left alone because its chain is healthy, and replaced otherwise. */
  lemma DecidedIff(db: Db, j: nat)
    requires DepsOk(db.jobs) && Forward(db.jobs) && j < |db.jobs| && Admitted(db.jobs[j])
    ensures IsReleaseAt(db.jobs, j)
    ensures
      var job, d, r, tip := db.jobs[j], Decision(db, j), ResolveIntegration(db, db.jobs[j]), Walk(db.jobs, j);
      var wrong := RecordsOther(job) || Failing(job) || Failing(db.jobs[tip]);
      && (r.Err? ==> d == Refused(r.error))
      && (d == Refused(NoStaleDefect) <==> r.Ok? && !wrong)
      && (d == AlreadyReconciled(tip) <==> r.Ok? && wrong && Healthy(db.jobs, j, tip))
      && (d == CreatedSuccessor(|db.jobs|) <==> r.Ok? && wrong && !Healthy(db.jobs, j, tip))
  {
    RefusedForIntegration(db, j);
  }

  /** A job is replaced if and only if it is an idle RELEASE job of the governed identity with an accepted
      integration that records another SHA or has failed, itself or at the end of its chain, and whose
      chain does not already end well. */
  lemma ReplacedIff(db: Db, j: nat)
    requires DepsOk(db.jobs) && Forward(db.jobs) && j < |db.jobs|
    ensures Decision(db, j).CreatedSuccessor? <==>
      && Admitted(db.jobs[j]) && IsReleaseAt(db.jobs, j) && ResolveIntegration(db, db.jobs[j]).Ok?
      && (RecordsOther(db.jobs[j]) || Failing(db.jobs[j]) || Failing(db.jobs[Walk(db.jobs, j)]))
      && !Healthy(db.jobs, j, Walk(db.jobs, j))
  {
    RefusedFirstIff(db, j);
    if Admitted(db.jobs[j]) {
      DecidedIff(db, j);
    }
  }

  // ---------------------------------------------------------------------------
  // The successor
  // ---------------------------------------------------------------------------

  /** The new row: a READY release of the same identity on the authoritative SHA, never run, that depends
      on what the replaced job did and on the accepted integration. */
  lemma SuccessorMeans(db: Db, j: nat, jobs': seq<Job>)
    requires Sound(db.jobs) && j < |db.jobs| && Reconciles(db, j, jobs') && Decision(db, j).CreatedSuccessor?
    ensures |jobs'| == |db.jobs| + 1 && ResolveIntegration(db, db.jobs[j]).Ok?
    ensures
      var s, job, integ := jobs'[|db.jobs|], db.jobs[j], ResolveIntegration(db, db.jobs[j]).value;
      && s.project == job.project && s.iteration == job.iteration && s.queue == s.role == RELEASE
      && s.status == READY && s.outcome == NoOutcome && s.candidate == None && s.supersededBy == None && s.attempt == 0 && !s.leased
      && s.base == s.sourceSha == Some(AUTHORITATIVE_SHA)
      && (forall x :: x in s.deps <==> x in job.deps || x == integ)
    ensures jobs'[j].outcome == SUPERSEDED && jobs'[j].supersededBy == Some(|db.jobs|)
  {
    var tip := Walk(db.jobs, j);
    var s :| jobs' == Superseded(db.jobs, j, tip, s) && IsFresh(db.jobs, s.humanId) && SuccessorOf(db, j, s.humanId, s);
    SuccessorColumns(db, j, s);
    SupersededColumns(db.jobs, j, tip, s);
  }

  lemma SupersededColumns(jobs: seq<Job>, j: nat, tip: nat, s: Job)
    requires j < |jobs| && tip < |jobs|
    ensures
      var after := Superseded(jobs, j, tip, s);
      |after| == |jobs| + 1 && after[|jobs|] == s && after[j].outcome == SUPERSEDED && after[j].supersededBy == Some(|jobs|)
  {
  }

  lemma SuccessorColumns(db: Db, j: nat, s: Job)
    requires DepsOk(db.jobs) && j < |db.jobs| && SuccessorOf(db, j, s.humanId, s)
    ensures
      var job, integ := db.jobs[j], ResolveIntegration(db, db.jobs[j]).value;
      && s.project == job.project && s.iteration == job.iteration && s.queue == s.role == RELEASE
      && s.status == READY && s.outcome == NoOutcome && s.candidate == None && s.supersededBy == None && s.attempt == 0 && !s.leased
      && s.base == s.sourceSha == Some(AUTHORITATIVE_SHA)
      && (forall x :: x in s.deps <==> x in job.deps || x == integ)
  {
    SuccessorDeps(db.jobs[j], s.humanId, ResolveIntegration(db, db.jobs[j]).value, AUTHORITATIVE_SHA);
  }

  /** Invalidating a delivery marks it and links it to the job that redoes it, and changes nothing else of the old rows. */
  lemma InvalidationMeans(jobs: seq<Job>, jobs': seq<Job>, d: nat)
    requires Invalidates(jobs, jobs', d)
    ensures |jobs| <= |jobs'| <= |jobs| + 1 && jobs[d].queue == DELIVERY
    ensures jobs'[d] == jobs[d].(outcome := INVALIDATED, supersededBy := jobs'[d].supersededBy)
    ensures jobs'[d].supersededBy.Some? && jobs'[d].supersededBy.value < |jobs'|
    ensures |jobs'| > |jobs| ==> jobs'[d].supersededBy.value == |jobs| && jobs'[|jobs|].queue == DELIVERY
    ensures forall i :: 0 <= i < |jobs| && i != d ==> jobs'[i] == jobs[i]
  {
  }
}
