/** The bounded parallel dispatcher: selection of eligible jobs and the submission loop.

    A future is identified by its submission number. */
module Dispatch {
  import opened Prelude

  // ---------------------------------------------------------------------------
  // Selection
  // ---------------------------------------------------------------------------

  /** The jobs of a list that are not already in flight. */
  function Free(jobs: seq<Name>, busy: set<Name>): seq<Name> {
    if jobs == [] then []
    else (if jobs[0] in busy then [] else [jobs[0]]) + Free(jobs[1..], busy)
  }

  function Take<T>(s: seq<T>, n: nat): seq<T> {
    if |s| <= n then s else s[..n]
  }

  lemma {:induction false} FreeIgnoresAbsent(jobs: seq<Name>, busy: set<Name>, x: Name)
    requires x !in jobs
    ensures Free(jobs, busy) == Free(jobs, busy - {x})
  {
    if jobs != [] {
      FreeIgnoresAbsent(jobs[1..], busy, x);
    }
  }

  lemma {:induction false} FreeMembers(jobs: seq<Name>, busy: set<Name>)
    requires Distinct(jobs)
    ensures Distinct(Free(jobs, busy))
    ensures forall x :: x in Free(jobs, busy) <==> x in jobs && x !in busy
  {
    if jobs != [] {
      FreeMembers(jobs[1..], busy);
      assert jobs == [jobs[0]] + jobs[1..];
    }
  }

  /** Asking for only `slots + |busy|` eligible jobs (or more) picks exactly what the whole list would. */
  lemma {:induction false} LimitedQueryIsEnough(jobs: seq<Name>, busy: set<Name>, slots: nat, limit: nat)
    requires Distinct(jobs) && limit >= slots + |busy|
    ensures Take(Free(Take(jobs, limit), busy), slots) == Take(Free(jobs, busy), slots)
  {
    if |jobs| <= limit {
    } else if slots == 0 {
      assert Take(Free(jobs, busy), slots) == [];
    } else {
      TakeTail(jobs, limit);
      var x, rest, query := jobs[0], jobs[1..], Take(jobs, limit);
      assert x !in rest;
      if x in busy {
        assert |busy - {x}| == |busy| - 1;
        LimitedQueryIsEnough(rest, busy - {x}, slots, limit - 1);
        SkipHead(jobs, busy, x);
        SkipHead(query, busy, x);
      } else {
        LimitedQueryIsEnough(rest, busy, slots - 1, limit - 1);
        KeepHead(jobs, busy, slots);
        KeepHead(query, busy, slots);
      }
    }
  }

  lemma TakeTail(jobs: seq<Name>, n: nat)
    requires 0 < n < |jobs|
    ensures Take(jobs, n) != [] && Take(jobs, n)[0] == jobs[0] && Take(jobs, n)[1..] == Take(jobs[1..], n - 1)
    ensures forall x :: x in Take(jobs, n)[1..] ==> x in jobs[1..]
  {
    assert jobs[..n][1..] == jobs[1..][..n - 1];
  }

  /** A busy head can be dropped, from the list and from the busy set. */
  lemma SkipHead(jobs: seq<Name>, busy: set<Name>, x: Name)
    requires jobs != [] && jobs[0] == x && x in busy && x !in jobs[1..]
    ensures Free(jobs, busy) == Free(jobs[1..], busy - {x})
  {
    FreeIgnoresAbsent(jobs[1..], busy, x);
    assert Free(jobs, busy) == [] + Free(jobs[1..], busy);
  }

  lemma KeepHead(jobs: seq<Name>, busy: set<Name>, slots: nat)
    requires jobs != [] && jobs[0] !in busy && 0 < slots
    ensures Take(Free(jobs, busy), slots) == [jobs[0]] + Take(Free(jobs[1..], busy), slots - 1)
  {
    TakeCons(jobs[0], Free(jobs[1..], busy), slots);
  }

  lemma TakeCons(x: Name, s: seq<Name>, n: nat)
    requires n > 0
    ensures Take([x] + s, n) == [x] + Take(s, n - 1)
  {
  }

  lemma {:induction false} FreeAppend(jobs: seq<Name>, x: Name, busy: set<Name>)
    ensures Free(jobs + [x], busy) == Free(jobs, busy) + if x in busy then [] else [x]
  {
    if jobs != [] {
      FreeAppend(jobs[1..], x, busy);
      assert (jobs + [x])[1..] == jobs[1..] + [x];
    }
  }

  lemma FreePrefixTake(jobs: seq<Name>, busy: set<Name>, n: nat, slots: nat)
    requires n <= |jobs| && |Free(jobs[..n], busy)| >= slots
    ensures Take(Free(jobs[..n], busy), slots) == Take(Free(jobs, busy), slots)
    decreases |jobs| - n
  {
    if n == |jobs| {
      assert jobs[..n] == jobs;
    } else {
      assert jobs[..n + 1] == jobs[..n] + [jobs[n]];
      FreeAppend(jobs[..n], jobs[n], busy);
      FreePrefixTake(jobs, busy, n + 1, slots);
    }
  }

  /** Queries only as many jobs as could matter and fills the free slots from them. */
  method SelectJobs(eligible: seq<Name>, busy: set<Name>, slots: nat) returns (selected: seq<Name>)
    requires Distinct(eligible)
    ensures selected == Take(Free(eligible, busy), slots)
    ensures Distinct(selected) && |selected| <= slots
    ensures forall x :: x in selected ==> x in eligible && x !in busy
  {
    FreeMembers(eligible, busy);
    LimitedQueryIsEnough(eligible, busy, slots, slots + |busy|);
    selected := FillSlots(Take(eligible, slots + |busy|), busy, slots);
  }

  /** Scans the query, stopping as soon as every slot is filled. */
  method FillSlots(query: seq<Name>, busy: set<Name>, slots: nat) returns (selected: seq<Name>)
    ensures selected == Take(Free(query, busy), slots)
  {
    selected := [];
    if slots == 0 {
      return;
    }
    for n := 0 to |query|
      invariant selected == Free(query[..n], busy) && |selected| < slots
    {
      assert query[..n + 1] == query[..n] + [query[n]];
      FreeAppend(query[..n], query[n], busy);
      if query[n] !in busy {
        selected := selected + [query[n]];
        if |selected| >= slots {
          FreePrefixTake(query, busy, n + 1, slots);
          return;
        }
      }
    }
    assert query[..|query|] == query;
  }

  // ---------------------------------------------------------------------------
  // The submission loop
  // ---------------------------------------------------------------------------

  /** When a cancellation arrives during a turn of the loop. */
  datatype Cancel = Never | BeforeTurn | BeforeSelect | AfterSubmitting(n: nat) | AfterWait

  /** What the surroundings do during one turn: the eligible list, the futures that complete
      (any others in `done` are ignored), a cancellation, the list seen by the idle check, and
      the futures that complete within a drain's grace period. */
  datatype Round = Round(eligible: seq<Name>, done: set<nat>, cancel: Cancel, later: seq<Name>, drained: set<nat>)

  datatype Flight = Flight(inFlight: map<nat, Name>, submitted: nat, results: seq<nat>)

  /** Everything submitted is in flight or has exactly one result, and no job is in flight twice. */
  ghost predicate Tracked(f: Flight) {
    && (forall k :: k in f.inFlight ==> k < f.submitted && k !in f.results)
    && (forall k, l :: k in f.inFlight && l in f.inFlight && k != l ==> f.inFlight[k] != f.inFlight[l])
    && Distinct(f.results) && (forall k :: k in f.results ==> k < f.submitted)
  }

  /** Nothing submitted has been dropped. */
  ghost predicate NothingLost(f: Flight) {
    forall k :: 0 <= k < f.submitted ==> k in f.inFlight || k in f.results
  }

  function Launch(f: Flight, job: Name): Flight {
    f.(inFlight := f.inFlight[f.submitted := job], submitted := f.submitted + 1)
  }

  function Land(f: Flight, fut: nat): Flight {
    f.(inFlight := f.inFlight - {fut}, results := f.results + [fut])
  }

  lemma LaunchTracked(f: Flight, job: Name)
    requires Tracked(f) && forall k :: k in f.inFlight ==> f.inFlight[k] != job
    ensures Tracked(Launch(f, job)) && |Launch(f, job).inFlight| == |f.inFlight| + 1
    ensures NothingLost(f) ==> NothingLost(Launch(f, job))
  {
    assert f.submitted !in f.inFlight && f.submitted !in f.results;
    OneMoreKey(f.inFlight, f.submitted, job);
    LaunchLosesNothing(f, job);
  }

  lemma OneMoreKey(m: map<nat, Name>, k: nat, job: Name)
    requires k !in m
    ensures |m[k := job]| == |m| + 1
  {
    assert m[k := job].Keys == m.Keys + {k};
    assert |m[k := job].Keys| == |m.Keys| + 1;
  }

  lemma LaunchLosesNothing(f: Flight, job: Name)
    ensures NothingLost(f) ==> NothingLost(Launch(f, job))
  {
    var g := Launch(f, job);
    if NothingLost(f) {
      forall k | 0 <= k < g.submitted
        ensures k in g.inFlight || k in g.results
      {
        assert k < f.submitted ==> k in f.inFlight || k in f.results;
      }
    }
  }

  lemma LandTracked(f: Flight, fut: nat)
    requires Tracked(f) && fut in f.inFlight
    ensures Tracked(Land(f, fut)) && |Land(f, fut).inFlight| <= |f.inFlight|
    ensures NothingLost(f) ==> NothingLost(Land(f, fut))
  {
    FewerKeys(f.inFlight, fut);
  }

  /** No job of the list is in flight. */
  ghost predicate Idle(f: Flight, jobs: seq<Name>) {
    forall k, j :: k in f.inFlight && 0 <= j < |jobs| ==> f.inFlight[k] != jobs[j]
  }

  method Submit(f0: Flight, jobs: seq<Name>) returns (f: Flight)
    requires Tracked(f0) && Distinct(jobs) && Idle(f0, jobs)
    ensures Tracked(f) && f.results == f0.results && f.submitted == f0.submitted + |jobs|
    ensures |f.inFlight| == |f0.inFlight| + |jobs| && Flying(f0, f, jobs, |jobs|)
    ensures NothingLost(f0) ==> NothingLost(f)
  {
    f := f0;
    for n := 0 to |jobs|
      invariant Tracked(f) && f.results == f0.results
      invariant |f.inFlight| == |f0.inFlight| + n && Flying(f0, f, jobs, n)
      invariant forall k, j :: k in f.inFlight && n <= j < |jobs| ==> f.inFlight[k] != jobs[j]
      invariant NothingLost(f0) ==> NothingLost(f)
    {
      LaunchTracked(f, jobs[n]);
      FlyingStep(f0, f, jobs, n);
      f := Launch(f, jobs[n]);
    }
  }

  /** The first `n` jobs have been submitted, in order, on top of what was in flight. */
  ghost predicate Flying(f0: Flight, f: Flight, jobs: seq<Name>, n: nat)
    requires n <= |jobs|
  {
    && f.submitted == f0.submitted + n
    && (forall k :: k in f.inFlight <==> k in f0.inFlight || f0.submitted <= k < f0.submitted + n)
    && (forall k :: k in f0.inFlight ==> f.inFlight[k] == f0.inFlight[k])
    && (forall k :: f0.submitted <= k < f0.submitted + n ==> f.inFlight[k] == jobs[k - f0.submitted])
  }

  lemma FlyingStep(f0: Flight, f: Flight, jobs: seq<Name>, n: nat)
    requires Tracked(f0) && n < |jobs| && Flying(f0, f, jobs, n)
    ensures Flying(f0, Launch(f, jobs[n]), jobs, n + 1)
  {
  }

  /** Moves completed futures from the in-flight table to the results. */
  method Collect(f0: Flight, done: set<nat>) returns (f: Flight)
    requires Tracked(f0)
    ensures Tracked(f) && f.submitted == f0.submitted && |f.inFlight| <= |f0.inFlight|
    ensures f.inFlight == f0.inFlight - done
    ensures f0.results <= f.results && forall k :: k in f.results <==> k in f0.results || (k in done && k in f0.inFlight)
    ensures NothingLost(f0) ==> NothingLost(f)
  {
    f := f0;
    var todo := done * f0.inFlight.Keys;
    CollectingStart(f0, done);
    while todo != {}
      invariant Tracked(f) && |f.inFlight| <= |f0.inFlight| && Collecting(f0, f, done, todo)
      invariant NothingLost(f0) ==> NothingLost(f)
    {
      var fut :| fut in todo;
      CollectingStep(f0, f, done, todo, fut);
      LandTracked(f, fut);
      f := Land(f, fut);
      todo := todo - {fut};
    }
    CollectingEnd(f0, f, done);
  }

  /** All completed futures except `todo` have become results, behind the earlier ones. */
  ghost predicate Collecting(f0: Flight, f: Flight, done: set<nat>, todo: set<nat>) {
    && f.submitted == f0.submitted && todo <= done && todo <= f0.inFlight.Keys
    && f.inFlight == f0.inFlight - (done - todo)
    && f0.results <= f.results
    && forall k :: k in f.results <==> k in f0.results || (k in done - todo && k in f0.inFlight)
  }

  lemma CollectingStart(f0: Flight, done: set<nat>)
    ensures Collecting(f0, f0, done, done * f0.inFlight.Keys)
  {
    assert f0.inFlight == f0.inFlight - (done - done * f0.inFlight.Keys);
  }

  lemma CollectingEnd(f0: Flight, f: Flight, done: set<nat>)
    requires Collecting(f0, f, done, {})
    ensures f.inFlight == f0.inFlight - done
    ensures f0.results <= f.results && forall k :: k in f.results <==> k in f0.results || (k in done && k in f0.inFlight)
  {
    assert done - {} == done;
  }

  lemma CollectingStep(f0: Flight, f: Flight, done: set<nat>, todo: set<nat>, fut: nat)
    requires Collecting(f0, f, done, todo) && fut in todo
    ensures fut in f.inFlight && Collecting(f0, Land(f, fut), done, todo - {fut})
  {
    assert f.inFlight - {fut} == f0.inFlight - (done - (todo - {fut}));
  }

  lemma FewerKeys(m: map<nat, Name>, k: nat)
    ensures |m - {k}| <= |m|
  {
    assert (m - {k}).Keys <= m.Keys;
    SubsetCardinality((m - {k}).Keys, m.Keys);
    assert |m| == |m.Keys| && |m - {k}| == |(m - {k}).Keys|;
  }

  /** Waits out the grace period, then drops whatever is left: earlier results stay, the futures that
      finish in time become results, and exactly the others are lost. */
  method Drain(f0: Flight, drained: set<nat>) returns (f: Flight, ghost late: set<nat>)
    requires Tracked(f0)
    ensures Tracked(f) && f.submitted == f0.submitted && f.inFlight == map[]
    ensures f0.results <= f.results && forall k :: k in f.results <==> k in f0.results || (k in drained && k in f0.inFlight)
    ensures late == f0.inFlight.Keys - drained
    ensures NothingLost(f0) ==> Accounted(f, late)
  {
    f := Collect(f0, drained);
    late := f.inFlight.Keys;
    f := f.(inFlight := map[]);
  }

  /** Every submission is in flight, has its result, or came too late for a drain, and only one of these. */
  ghost predicate Accounted(f: Flight, late: set<nat>) {
    && (forall k :: 0 <= k < f.submitted ==> k in f.inFlight || k in f.results || k in late)
    && (forall k :: k in late ==> k < f.submitted && k !in f.inFlight && k !in f.results)
  }

  /** The jobs chosen for the free slots: distinct eligible ones that are not in flight, the first of them, and fewer than
      the slots only if there are no more. */
  ghost predicate Fills(chosen: seq<Name>, eligible: seq<Name>, busy: set<Name>, slots: nat) {
    && Distinct(chosen) && |chosen| <= slots
    && (forall x :: x in chosen ==> x in eligible && x !in busy)
    && (|chosen| < slots ==> forall x :: x in eligible && x !in busy ==> x in chosen)
    && (forall i, j :: 0 <= i < |eligible| && 0 <= j < |eligible| && eligible[i] in chosen && eligible[j] !in busy && eligible[j] !in chosen ==> i < j)
  }

  /** Filling `n` slots takes all free jobs of a prefix of the list. */
  lemma {:induction false} SlotsCutThePrefix(jobs: seq<Name>, busy: set<Name>, n: nat) returns (m: nat)
    ensures m <= |jobs| && Take(Free(jobs, busy), n) == Free(jobs[..m], busy)
    decreases |jobs|
  {
    if |Free(jobs, busy)| <= n {
      m := |jobs|;
      assert jobs[..m] == jobs;
    } else {
      var init := jobs[..|jobs| - 1];
      assert jobs == init + [jobs[|jobs| - 1]];
      FreeAppend(init, jobs[|jobs| - 1], busy);
      FreePrefixTake(jobs, busy, |jobs| - 1, n);
      m := SlotsCutThePrefix(init, busy, n);
      assert init[..m] == jobs[..m];
    }
  }

  lemma PositionInPrefix(jobs: seq<Name>, m: nat, i: nat)
    requires Distinct(jobs) && m <= |jobs| && i < |jobs|
    ensures jobs[i] in jobs[..m] <==> i < m
  {
    assert i < m ==> jobs[..m][i] == jobs[i];
  }

  lemma SelectionFills(eligible: seq<Name>, busy: set<Name>, slots: nat)
    requires Distinct(eligible)
    ensures Fills(Take(Free(eligible, busy), slots), eligible, busy, slots)
  {
    var chosen := Take(Free(eligible, busy), slots);
    var m := SlotsCutThePrefix(eligible, busy, slots);
    FreeMembers(eligible[..m], busy);
    assert |chosen| < slots ==> chosen == Free(eligible, busy);
    FreeMembers(eligible, busy);
    forall i, j | 0 <= i < |eligible| && 0 <= j < |eligible| && eligible[i] in chosen && eligible[j] !in busy && eligible[j] !in chosen
      ensures i < j
    {
      PositionInPrefix(eligible, m, i);
      PositionInPrefix(eligible, m, j);
    }
  }

  /** Cancelled before anything is selected, after some submissions, or not before the wait. */
  function Submitted(all: seq<Name>, cancel: Cancel): seq<Name> {
    match cancel
    case BeforeTurn => []
    case BeforeSelect => []
    case AfterSubmitting(n) => Take(all, n)
    case _ => all
  }

  /** The completed futures among those in flight join the results. */
  ghost predicate Landed(f0: Flight, f: Flight, done: set<nat>, submitted: nat) {
    && f0.results <= f.results
    && forall k :: k in f.results <==> k in f0.results || (k in done && (k in f0.inFlight || f0.submitted <= k < submitted))
  }

  /** Selects for the free slots, also while work is in flight, and submits as far as a cancellation allows. */
  method SelectAndSubmit(f0: Flight, limit: nat, r: Round) returns (f: Flight, ghost chosen: seq<Name>)
    requires Tracked(f0) && NothingLost(f0) && |f0.inFlight| <= limit && Distinct(r.eligible)
    ensures Tracked(f) && NothingLost(f) && |f.inFlight| <= limit && f.results == f0.results
    ensures Fills(chosen, r.eligible, f0.inFlight.Values, limit - |f0.inFlight|)
    ensures Flying(f0, f, Submitted(chosen, r.cancel), |Submitted(chosen, r.cancel)|)
    ensures |f.inFlight| == |f0.inFlight| + |Submitted(chosen, r.cancel)|
  {
    var busy := f0.inFlight.Values;
    var slots := limit - |f0.inFlight|;
    chosen := Take(Free(r.eligible, busy), slots);
    SelectionFills(r.eligible, busy, slots);
    var selected := [];
    if slots > 0 && r.cancel !in {BeforeTurn, BeforeSelect} {
      selected := SelectJobs(r.eligible, busy, slots);
    }
    selected := Submitted(selected, r.cancel);
    SubmittedIsChosen(chosen, r.cancel);
    assert Idle(f0, selected) by {
      ChosenIsIdle(f0, selected);
    }
    f := Submit(f0, selected);
  }

  lemma SubmittedIsChosen(chosen: seq<Name>, cancel: Cancel)
    ensures |Submitted(chosen, cancel)| <= |chosen|
    ensures forall x :: x in Submitted(chosen, cancel) ==> x in chosen
    ensures Distinct(chosen) ==> Distinct(Submitted(chosen, cancel))
  {
  }

  lemma ChosenIsIdle(f: Flight, jobs: seq<Name>)
    requires forall x :: x in jobs ==> x !in f.inFlight.Values
    ensures Idle(f, jobs)
  {
    forall k, j | k in f.inFlight && 0 <= j < |jobs|
      ensures f.inFlight[k] != jobs[j]
    {
      assert f.inFlight[k] in f.inFlight.Values && jobs[j] in jobs;
    }
  }

  /** Whatever is in flight carries the name it was submitted under. */
  ghost predicate Named(f0: Flight, f: Flight, jobs: seq<Name>) {
    forall k :: k in f.inFlight ==>
      || (k in f0.inFlight && f.inFlight[k] == f0.inFlight[k])
      || (0 <= k - f0.submitted < |jobs| && f.inFlight[k] == jobs[k - f0.submitted])
  }

  lemma FlyingIsNamed(f0: Flight, g: Flight, f: Flight, jobs: seq<Name>, done: set<nat>)
    requires Flying(f0, g, jobs, |jobs|) && f.inFlight == g.inFlight - done
    ensures Named(f0, f, jobs)
  {
  }

  lemma LandedFrom(f0: Flight, g: Flight, f: Flight, jobs: seq<Name>, done: set<nat>)
    requires Flying(f0, g, jobs, |jobs|) && g.results == f0.results && g.results <= f.results
    requires forall k :: k in f.results <==> k in g.results || (k in done && k in g.inFlight)
    ensures Landed(f0, f, done, g.submitted)
  {
  }

  method WaitAndCollect(ghost f0: Flight, g: Flight, ghost jobs: seq<Name>, done: set<nat>) returns (f: Flight)
    requires Tracked(g) && NothingLost(g) && Flying(f0, g, jobs, |jobs|) && g.results == f0.results
    ensures Tracked(f) && NothingLost(f) && |f.inFlight| <= |g.inFlight| && f.submitted == g.submitted
    ensures Landed(f0, f, done, f.submitted) && Named(f0, f, jobs)
  {
    f := Collect(g, done);
    FlyingIsNamed(f0, g, f, jobs, done);
    LandedFrom(f0, g, f, jobs, done);
  }

  /** One turn up to the wave bookkeeping: select, submit, wait, collect. */
  method Turn(f0: Flight, limit: nat, r: Round) returns (f: Flight, empty: bool, cancelled: bool, ghost chosen: seq<Name>)
    requires Tracked(f0) && NothingLost(f0) && |f0.inFlight| <= limit && limit > 0 && Distinct(r.eligible)
    ensures Tracked(f) && NothingLost(f) && |f.inFlight| <= limit
    ensures Fills(chosen, r.eligible, f0.inFlight.Values, limit - |f0.inFlight|)
    ensures f.submitted == f0.submitted + |Submitted(chosen, r.cancel)|
    ensures Named(f0, f, Submitted(chosen, r.cancel))
    ensures Landed(f0, f, if empty || r.cancel == BeforeTurn then {} else r.done, f.submitted)
    ensures empty <==> r.cancel != BeforeTurn && f0.inFlight == map[] && Submitted(chosen, r.cancel) == []
    ensures empty ==> f.inFlight == map[] && (!cancelled ==> r.eligible == [])
    ensures f0.inFlight == map[] && r.eligible == [] && r.cancel != BeforeTurn ==> empty
    ensures cancelled <==> r.cancel != Never && !(empty && r.cancel == AfterWait)
  {
    f, chosen := SelectAndSubmit(f0, limit, r);
    empty, cancelled := false, r.cancel !in {Never, AfterWait};
    if r.cancel == BeforeTurn {
      f := f0;
      return;
    }
    NobodyToChoose(chosen, r);
    empty := f.inFlight == map[];
    if empty {
      NothingToDo(f0, chosen, r, limit);
      return;
    }
    f := WaitAndCollect(f0, f, Submitted(chosen, r.cancel), r.done);
    cancelled := r.cancel != Never;
  }

  lemma NobodyToChoose(chosen: seq<Name>, r: Round)
    requires forall x :: x in chosen ==> x in r.eligible
    ensures r.eligible == [] ==> Submitted(chosen, r.cancel) == []
  {
    assert chosen != [] ==> chosen[0] in chosen;
  }

  lemma NothingToDo(f0: Flight, chosen: seq<Name>, r: Round, limit: nat)
    requires f0.inFlight == map[] && limit > 0 && Submitted(chosen, r.cancel) == []
    requires Fills(chosen, r.eligible, f0.inFlight.Values, limit)
    ensures r.cancel in {Never, AfterWait} ==> r.eligible == []
  {
    assert f0.inFlight.Values == {};
    assert r.eligible != [] ==> r.eligible[0] in r.eligible;
  }

  /** The submission numbers below `n`. */
  ghost function Below(n: nat): set<nat> {
    if n == 0 then {} else Below(n - 1) + {n - 1}
  }

  lemma {:induction false} BelowHas(n: nat)
    ensures |Below(n)| == n && forall k: nat :: k in Below(n) <==> k < n
  {
    if n > 0 {
      BelowHas(n - 1);
    }
  }

  /** No submission yields two results. */
  lemma AtMostOneResultEach(f: Flight)
    requires Tracked(f)
    ensures |f.results| <= f.submitted
  {
    DistinctCardinality(f.results);
    BelowHas(f.submitted);
    SubsetCardinality(Elements(f.results), Below(f.submitted));
  }

  lemma AllAccounted(f: Flight)
    requires Tracked(f) && NothingLost(f) && f.inFlight == map[]
    ensures |f.results| == f.submitted
  {
    BelowHas(f.submitted);
    assert Below(f.submitted) == Elements(f.results);
    DistinctCardinality(f.results);
  }

  /** The loop runs once, or has run its waves. */
  predicate Limited(once: bool, maxWaves: Option<int>, waves: nat) {
    once || (maxWaves.Some? && waves >= maxWaves.value)
  }

  /** Why the loop ended after this turn: it runs once, it has run its waves, it was cancelled, or nothing was left to do. */
  predicate Ends(r: Round, once: bool, maxWaves: Option<int>, turns: nat, cancelled: bool) {
    Limited(once, maxWaves, turns) || cancelled || r.eligible == [] || r.later == []
  }

  /** One iteration of the loop: a turn, then the reasons to stop.  Only a cancelled or limited loop drains. */
  method Iterate(f0: Flight, limit: nat, once: bool, maxWaves: Option<int>, waves: nat, r: Round)
    returns (f: Flight, stop: bool, cancelled: bool, ghost late: set<nat>)
    requires Tracked(f0) && NothingLost(f0) && |f0.inFlight| <= limit && limit > 0 && Distinct(r.eligible)
    ensures Tracked(f) && Accounted(f, late) && |f.inFlight| <= limit
    ensures late == {} ==> NothingLost(f) && Accounted(f, {})
    ensures late != {} ==> stop && late !! r.drained
    ensures stop <==>
      || Limited(once, maxWaves, waves + 1) || r.cancel != Never
      || (f.inFlight == map[] && r.later == []) || (f0.inFlight == map[] && r.eligible == [])
    ensures stop ==> Ends(r, once, maxWaves, waves + 1, cancelled) && f.inFlight == map[]
    ensures stop && !once && maxWaves.None? && !cancelled ==> late == {}
    ensures cancelled ==> r.cancel != Never
    ensures r.cancel !in {Never, AfterWait} ==> cancelled
  {
    var empty;
    ghost var chosen;
    late := {};
    f, empty, cancelled, chosen := Turn(f0, limit, r);
    stop := true;
    if cancelled || (!empty && Limited(once, maxWaves, waves + 1)) {
      f, late := Drain(f, r.drained);
    } else if !empty {
      stop := f.inFlight == map[] && r.later == [];
    }
  }

  /** No cancellation came in the first `n` turns. */
  predicate Quiet(rounds: seq<Round>, n: nat)
    requires n <= |rounds|
  {
    forall i :: 0 <= i < n ==> rounds[i].cancel == Never
  }

  /** Replays the loop against any finite sequence of turns.  `stopped` says that the loop ended
      by itself rather than by running out of turns. */
  method RunDispatch(onceFlag: bool, untilIdle: bool, maxWaves: Option<int>, maxParallel: int, rounds: seq<Round>)
    returns (f: Flight, stopped: bool, cancelled: bool, ghost late: set<nat>, ghost turns: nat)
    requires forall r :: 0 <= r < |rounds| ==> Distinct(rounds[r].eligible)
    ensures Tracked(f) && |f.results| <= f.submitted
    ensures |f.inFlight| <= if maxParallel < 1 then 1 else maxParallel
    ensures Accounted(f, late) && (stopped ==> f.inFlight == map[])
    ensures turns <= |rounds| && (stopped ==> 0 < turns) && (!stopped ==> turns == |rounds| && !cancelled)
    ensures onceFlag || !untilIdle ==> turns <= 1
    ensures maxWaves.Some? ==> turns <= if maxWaves.value < 1 then 1 else maxWaves.value
    ensures stopped ==> Ends(rounds[turns - 1], onceFlag || !untilIdle, maxWaves, turns, cancelled)
    ensures cancelled ==> stopped && rounds[turns - 1].cancel != Never
    ensures Quiet(rounds, if stopped then turns - 1 else turns)
    ensures late != {} ==> stopped && late !! rounds[turns - 1].drained
    ensures stopped && untilIdle && !onceFlag && maxWaves.None? && !cancelled ==>
      late == {} && |f.results| == f.submitted
  {
    var once := onceFlag || !untilIdle;
    var limit := if maxParallel < 1 then 1 else maxParallel;
    f := Flight(map[], 0, []);
    stopped, cancelled, late, turns := false, false, {}, 0;
    var waves := 0;
    for i := 0 to |rounds|
      invariant Tracked(f) && NothingLost(f) && Accounted(f, {}) && |f.inFlight| <= limit
      invariant !stopped && !cancelled && late == {} && turns == waves == i
      invariant i > 0 ==> !Limited(once, maxWaves, i)
      invariant Quiet(rounds, i)
    {
      f, stopped, cancelled, late := Iterate(f, limit, once, maxWaves, waves, rounds[i]);
      turns := i + 1;
      if stopped {
        break;
      }
      assert rounds[i].cancel == Never;
      waves := waves + 1;
    }
    Totals(f, late);
  }

  /** With nobody late, nothing is lost. */
  lemma Totals(f: Flight, late: set<nat>)
    requires Tracked(f) && Accounted(f, late)
    ensures |f.results| <= f.submitted
    ensures late == {} && f.inFlight == map[] ==> |f.results| == f.submitted
  {
    AtMostOneResultEach(f);
    if late == {} && f.inFlight == map[] {
      AllAccounted(f);
    }
  }
}
