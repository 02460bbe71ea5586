/** Persisting an accepted plan: job rows first, then dependency rows, with clean-up on failure. */
module PlanStore {
  import opened Prelude
  import opened Jobs
  import opened PlanGraph
  import opened PlanValidation
  import opened PlanProperties

  /** The project a job belongs to and the repository it works in. */
  datatype Site = Site(project: Name, root: Name)

  datatype JobRow = JobRow(humanId: Name, queue: Queue, status: JobStatus, site: Site)

  datatype StoreError = CrossProject | HumanIdTaken(id: Name) | DuplicateDependency(job: Name, dep: Name)

  type JobTable = map<nat, JobRow>
  type LinkTable = set<(nat, nat)>

  /** RELEASE jobs start QUEUED, all others READY. */
  function RowOf(site: Site, e: Entry): JobRow
    requires HasKey(e)
  {
    JobRow(e.humanId.value, e.queue, if e.queue == RELEASE then QUEUED else READY, site)
  }

  function IdAt(plan: seq<Entry>, i: nat): Name
    requires i < |plan| && HasKey(plan[i])
  {
    plan[i].humanId.value
  }

  ghost predicate Taken(jobs: JobTable, humanId: Name) {
    exists id :: id in jobs && jobs[id].humanId == humanId
  }

  // ---------------------------------------------------------------------------
  // The tables a persisted plan leads to
  // ---------------------------------------------------------------------------

  /** A site fits another when they agree on the project exactly if they agree on the repository. */
  predicate Fits(a: Site, b: Site) {
    a.project == b.project <==> a.root == b.root
  }

  /** Some job ties the project to another repository, or the repository to another project. */
  ghost predicate Conflicts(jobs: JobTable, site: Site) {
    exists id :: id in jobs && !Fits(jobs[id].site, site)
  }

  /** Projects and repositories correspond one to one. */
  ghost predicate Isolated(jobs: JobTable) {
    forall i, j :: i in jobs && j in jobs ==> Fits(jobs[i].site, jobs[j].site)
  }

  /** The first `n` entries, given consecutive ids after `base`. */
  function CreatedJobs(site: Site, jobs: JobTable, base: nat, plan: seq<Entry>, n: nat): JobTable
    requires FieldsOk(plan) && n <= |plan|
  {
    if n == 0 then jobs else CreatedJobs(site, jobs, base, plan, n - 1)[base + n := RowOf(site, plan[n - 1])]
  }

  function IdMap(base: nat, plan: seq<Entry>, n: nat): map<Name, nat>
    requires FieldsOk(plan) && n <= |plan|
  {
    if n == 0 then map[] else IdMap(base, plan, n - 1)[IdAt(plan, n - 1) := base + n]
  }

  /** One dependency row per listed dependency. */
  function LinkRow(ids: map<Name, nat>, job: nat, deps: seq<Name>): LinkTable
    requires forall d :: d in deps ==> d in ids
  {
    if deps == [] then {} else LinkRow(ids, job, deps[..|deps| - 1]) + {(job, ids[deps[|deps| - 1]])}
  }

  ghost predicate Resolvable(plan: seq<Entry>, ids: map<Name, nat>)
    requires FieldsOk(plan)
  {
    forall i :: 0 <= i < |plan| ==> RowResolvable(plan[i], ids)
  }

  ghost predicate RowResolvable(e: Entry, ids: map<Name, nat>)
    requires HasKey(e)
  {
    e.humanId.value in ids && forall d :: d in e.dependsOn ==> d in ids
  }

  ghost function Links(ids: map<Name, nat>, plan: seq<Entry>, n: nat): LinkTable
    requires FieldsOk(plan) && n <= |plan| && Resolvable(plan, ids)
  {
    if n == 0 then {}
    else
      assert RowResolvable(plan[n - 1], ids);
      Links(ids, plan, n - 1) + LinkRow(ids, ids[IdAt(plan, n - 1)], plan[n - 1].dependsOn)
  }

  /** The site conflicts with no job, no entry's id is taken, and no dependency list repeats an id. */
  ghost predicate Persistable(jobs: JobTable, site: Site, plan: seq<Entry>)
    requires FieldsOk(plan)
  {
    && !Conflicts(jobs, site)
    && (forall i :: 0 <= i < |plan| ==> !Taken(jobs, IdAt(plan, i)))
    && (forall i :: 0 <= i < |plan| ==> Distinct(plan[i].dependsOn))
  }

  /** The first dependency the list names again. */
  ghost predicate FirstRepeat(deps: seq<Name>, d: Name) {
    exists k :: 0 <= k < |deps| && deps[k] == d && d in deps[..k] && Distinct(deps[..k])
  }

  ghost predicate RepeatsFirst(plan: seq<Entry>, i: nat, job: Name, d: Name)
    requires FieldsOk(plan) && i < |plan|
  {
    IdAt(plan, i) == job && FirstRepeat(plan[i].dependsOn, d) && forall k :: 0 <= k < i ==> Distinct(plan[k].dependsOn)
  }

  ghost predicate TakenFirst(jobs: JobTable, plan: seq<Entry>, i: nat, h: Name)
    requires FieldsOk(plan) && i < |plan|
  {
    IdAt(plan, i) == h && Taken(jobs, h) && forall k :: 0 <= k < i ==> !Taken(jobs, IdAt(plan, k))
  }

  /** Which refusal a plan meets: the site, then the first taken id, then the first repeated dependency. */
  ghost predicate RefusedAs(jobs: JobTable, site: Site, plan: seq<Entry>, e: StoreError)
    requires FieldsOk(plan)
  {
    match e
    case CrossProject => Conflicts(jobs, site)
    case HumanIdTaken(h) => !Conflicts(jobs, site) && exists i :: 0 <= i < |plan| && TakenFirst(jobs, plan, i, h)
    case DuplicateDependency(job, d) =>
      && !Conflicts(jobs, site) && (forall i :: 0 <= i < |plan| ==> !Taken(jobs, IdAt(plan, i)))
      && exists i :: 0 <= i < |plan| && RepeatsFirst(plan, i, job, d)
  }

  // ---------------------------------------------------------------------------
  // Their contents
  // ---------------------------------------------------------------------------

  lemma {:induction false} CreatedAt(site: Site, jobs: JobTable, base: nat, plan: seq<Entry>, n: nat, id: nat)
    requires FieldsOk(plan) && n <= |plan| && (forall i :: i in jobs ==> i <= base)
    ensures
      var t := CreatedJobs(site, jobs, base, plan, n);
      && (id <= base ==> (id in t <==> id in jobs) && (id in jobs ==> t[id] == jobs[id]))
      && (id > base ==> (id in t <==> id <= base + n))
      && (base < id <= base + n ==> t[id] == RowOf(site, plan[id - base - 1]))
  {
    if n > 0 {
      CreatedAt(site, jobs, base, plan, n - 1, id);
    }
  }

  /** The columns of the row an entry becomes. */
  lemma CreatedRow(site: Site, jobs: JobTable, base: nat, plan: seq<Entry>, i: nat)
    requires FieldsOk(plan) && i < |plan| && (forall id :: id in jobs ==> id <= base)
    ensures
      var t := CreatedJobs(site, jobs, base, plan, |plan|);
      && base + 1 + i in t
      && var row := t[base + 1 + i];
         && plan[i].humanId == Some(row.humanId) && row.queue == plan[i].queue && row.site == site
         && (plan[i].queue == RELEASE ==> row.status == QUEUED) && (plan[i].queue != RELEASE ==> row.status == READY)
  {
    CreatedAt(site, jobs, base, plan, |plan|, base + 1 + i);
  }

  lemma {:induction false} IdMapAt(base: nat, plan: seq<Entry>, n: nat, i: nat)
    requires FieldsOk(plan) && i < n <= |plan|
    ensures IdAt(plan, i) in IdMap(base, plan, n) && IdMap(base, plan, n)[IdAt(plan, i)] == base + 1 + i
  {
    if i < n - 1 {
      IdMapAt(base, plan, n - 1, i);
    }
  }

  lemma {:induction false} IdMapFrom(base: nat, plan: seq<Entry>, n: nat, h: Name) returns (i: nat)
    requires FieldsOk(plan) && n <= |plan| && h in IdMap(base, plan, n)
    ensures i < n && IdAt(plan, i) == h && IdMap(base, plan, n)[h] == base + 1 + i
  {
    if h == IdAt(plan, n - 1) {
      i := n - 1;
    } else {
      i := IdMapFrom(base, plan, n - 1, h);
    }
  }

  /** Every id an accepted plan mentions has been created when the dependency rows are written. */
  lemma AcceptedPlanResolves(base: nat, plan: seq<Entry>)
    requires WellFormedPlan(plan)
    ensures Resolvable(plan, IdMap(base, plan, |plan|))
  {
    var ids := IdMap(base, plan, |plan|);
    forall i | 0 <= i < |plan|
      ensures RowResolvable(plan[i], ids)
    {
      IdMapAt(base, plan, |plan|, i);
      forall d | d in plan[i].dependsOn
        ensures d in ids
      {
        assert PlanHas(plan, d);
        var k :| 0 <= k < |plan| && plan[k].Job? && plan[k].humanId == Some(d);
        IdMapAt(base, plan, |plan|, k);
      }
    }
  }

  lemma {:induction false} LinkRowHas(ids: map<Name, nat>, job: nat, deps: seq<Name>, p: (nat, nat))
    requires forall d :: d in deps ==> d in ids
    ensures p in LinkRow(ids, job, deps) <==> p.0 == job && exists d :: d in deps && ids[d] == p.1
  {
    if deps != [] {
      var front, last := deps[..|deps| - 1], deps[|deps| - 1];
      LinkRowHas(ids, job, front, p);
      assert deps == front + [last];
    }
  }

  /** The dependency rows of a plan are exactly the plan's edges. */
  lemma {:induction false} LinksHave(ids: map<Name, nat>, plan: seq<Entry>, n: nat, p: (nat, nat))
    requires FieldsOk(plan) && n <= |plan| && Resolvable(plan, ids)
    ensures p in Links(ids, plan, n) <==> exists i :: 0 <= i < n && IsLink(ids, plan[i], p)
  {
    if n > 0 {
      LinksHave(ids, plan, n - 1, p);
      assert RowResolvable(plan[n - 1], ids);
      LinkRowHas(ids, ids[IdAt(plan, n - 1)], plan[n - 1].dependsOn, p);
    }
  }

  ghost predicate IsLink(ids: map<Name, nat>, e: Entry, p: (nat, nat))
    requires HasKey(e) && RowResolvable(e, ids)
  {
    p.0 == ids[e.humanId.value] && exists d :: d in e.dependsOn && ids[d] == p.1
  }

  lemma NoSelfDependency(plan: seq<Entry>, i: nat)
    requires WellFormedPlan(plan) && i < |plan|
    ensures IdAt(plan, i) !in plan[i].dependsOn
  {
    var h, g := IdAt(plan, i), GraphOf(plan);
    var order :| Topological(g, order);
    GraphLookup(plan, i);
    assert h in Elements(order);
    var k :| 0 <= k < |order| && order[k] == h;
    assert h in plan[i].dependsOn ==> Edge(g, order[k], h);
  }

  /** Earlier entries only recorded pairs that start at their own, smaller ids. */
  lemma EarlierLinksStartLower(base: nat, plan: seq<Entry>, i: nat, p: (nat, nat))
    requires FieldsOk(plan) && i <= |plan| && Resolvable(plan, IdMap(base, plan, |plan|))
    ensures p in Links(IdMap(base, plan, |plan|), plan, i) ==> base < p.0 <= base + i
  {
    var ids := IdMap(base, plan, |plan|);
    LinksHave(ids, plan, i, p);
    if j :| 0 <= j < i && IsLink(ids, plan[j], p) {
      IdMapAt(base, plan, |plan|, j);
    }
  }

  /** Different names have different ids, so a pair repeats only if its name does. */
  lemma OwnLinksRepeatWithNames(base: nat, plan: seq<Entry>, job: nat, deps: seq<Name>, dep: Name)
    requires FieldsOk(plan)
    requires dep in IdMap(base, plan, |plan|) && forall d :: d in deps ==> d in IdMap(base, plan, |plan|)
    ensures
      var ids := IdMap(base, plan, |plan|);
      (job, ids[dep]) in LinkRow(ids, job, deps) <==> dep in deps
  {
    var ids := IdMap(base, plan, |plan|);
    LinkRowHas(ids, job, deps, (job, ids[dep]));
    var m := IdMapFrom(base, plan, |plan|, dep);
    forall d | d in deps && ids[d] == ids[dep]
      ensures d == dep
    {
      var m' := IdMapFrom(base, plan, |plan|, d);
    }
  }

  /** Entry `i` may record dependency `k` exactly when the list has not named it before. */
  lemma LinkIsFresh(base: nat, plan: seq<Entry>, links: LinkTable, i: nat, k: nat)
    requires WellFormedPlan(plan) && i < |plan| && k < |plan[i].dependsOn|
    requires forall p :: p in links ==> p.0 <= base
    ensures
      var ids := IdMap(base, plan, |plan|);
      && Resolvable(plan, ids) && RowResolvable(plan[i], ids)
      && var job, dep := ids[IdAt(plan, i)], ids[plan[i].dependsOn[k]];
         && job != dep
         && ((job, dep) in links + Links(ids, plan, i) + LinkRow(ids, job, plan[i].dependsOn[..k])
             <==> plan[i].dependsOn[k] in plan[i].dependsOn[..k])
  {
    AcceptedPlanResolves(base, plan);
    var ids, deps := IdMap(base, plan, |plan|), plan[i].dependsOn;
    assert RowResolvable(plan[i], ids);
    var job, dep := ids[IdAt(plan, i)], ids[deps[k]];
    IdMapAt(base, plan, |plan|, i);
    assert job != dep by {
      NoSelfDependency(plan, i);
      var m := IdMapFrom(base, plan, |plan|, deps[k]);
    }
    EarlierLinksStartLower(base, plan, i, (job, dep));
    OwnLinksRepeatWithNames(base, plan, job, deps[..k], deps[k]);
  }

  /** Job "b" names its dependency "a" twice. */
  function TwiceNamed(): seq<Entry> {
    var work := WorkItem(Some(Name("Story")), Some(Name("S-1")), false);
    [Job(Some(Name("a")), DELIVERY, None, work, []), Job(Some(Name("b")), DELIVERY, None, work, [Name("a"), Name("a")])]
  }

  lemma TwiceNamedGraph()
    ensures Repair(TwiceNamed()) == TwiceNamed()
    ensures GraphOf(TwiceNamed()) == map[Name("a") := [], Name("b") := [Name("a"), Name("a")]]
  {
    var plan := TwiceNamed();
    assert plan[..1] == [plan[0]] && plan[..1][..0] == [];
    assert IntegrationIds(plan[..1]) == [];
  }

  lemma TwiceNamedFields()
    ensures FieldsOk(TwiceNamed()) && NoDangling(TwiceNamed()) && ReleasesAnchored(TwiceNamed())
  {
    var plan := TwiceNamed();
    assert plan[0].humanId.value.text[0] == 'a' && plan[1].humanId.value.text[0] == 'b';
    assert 'a' in plan[0].humanId.value.text && 'b' in plan[1].humanId.value.text;
    assert plan[0].humanId == Some(Name("a"));
  }

  lemma TwiceNamedOrder()
    ensures Topological(GraphOf(TwiceNamed()), [Name("a"), Name("b")])
  {
    TwiceNamedGraph();
    var order := [Name("a"), Name("b")];
    assert order[..1] == [Name("a")];
    assert order[0].text[0] == 'a' && order[1].text[0] == 'b';
  }

  /** Acceptance alone does not make a plan persistable: the validator allows a repeated dependency. */
  lemma AcceptedPlanMayRepeatADependency(site: Site)
    ensures PlanErrors(Header(SCHEMA_VERSION, site.project, "approved"), TwiceNamed(), Context(site.project, None, None)) == []
    ensures FieldsOk(TwiceNamed()) && !Persistable(map[], site, TwiceNamed())
  {
    var plan := TwiceNamed();
    TwiceNamedFields();
    TwiceNamedGraph();
    TwiceNamedOrder();
    AcceptedIffWellFormed(Header(SCHEMA_VERSION, site.project, "approved"), plan, Context(site.project, None, None));
    assert plan[1].dependsOn[0] == plan[1].dependsOn[1];
  }

  // ---------------------------------------------------------------------------
  // The store
  // ---------------------------------------------------------------------------

  class JobStore {
    var jobs: JobTable
    var dependencies: LinkTable
    var lastId: nat

    ghost predicate Valid()
      reads this
    {
      && (forall id :: id in jobs ==> id <= lastId)
      && Isolated(jobs)
      && (forall p :: p in dependencies ==> p.0 in jobs && p.1 in jobs)
    }

    constructor ()
      ensures Valid() && jobs == map[] && dependencies == {}
    {
      jobs, dependencies, lastId := map[], {}, 0;
    }

    /** Refuses a site that conflicts with one job of the project or with any other project, and a
        human id that is already in the table. */
    method CreateJob(row: JobRow) returns (r: Result<nat, StoreError>)
      requires Valid()
      modifies this
      ensures Valid() && dependencies == old(dependencies)
      ensures r == Err(CrossProject) <==> Conflicts(old(jobs), row.site)
      ensures r == Err(HumanIdTaken(row.humanId)) <==> !Conflicts(old(jobs), row.site) && Taken(old(jobs), row.humanId)
      ensures r.Err? ==> r.error in {CrossProject, HumanIdTaken(row.humanId)} && unchanged(this)
      ensures r.Ok? ==> r.value == lastId == old(lastId) + 1 && jobs == old(jobs)[r.value := row]
    {
      if own :| own in jobs && jobs[own].site.project == row.site.project {
        if jobs[own].site.root != row.site.root {
          return Err(CrossProject);
        }
      }
      if exists id :: id in jobs && jobs[id].site.project != row.site.project && jobs[id].site.root == row.site.root {
        return Err(CrossProject);
      }
      if exists id :: id in jobs && jobs[id].humanId == row.humanId {
        return Err(HumanIdTaken(row.humanId));
      }
      lastId := lastId + 1;
      jobs := jobs[lastId := row];
      return Ok(lastId);
    }

    /** Refuses a self-dependency and a pair that is already recorded. */
    method AddDependency(job: nat, dep: nat) returns (ok: bool)
      modifies this`dependencies
      ensures ok <==> job != dep && (job, dep) !in old(dependencies)
      ensures dependencies == old(dependencies) + if ok then {(job, dep)} else {}
    {
      ok := job != dep && (job, dep) !in dependencies;
      if ok {
        dependencies := dependencies + {(job, dep)};
      }
    }

    /** Deletes one row; dependency rows go with either end. */
    method DeleteJob(id: nat)
      modifies this`jobs, this`dependencies
      ensures jobs == old(jobs) - {id}
      ensures dependencies == Untouched(old(dependencies), {id})
    {
      jobs := jobs - {id};
      dependencies := set p | p in dependencies && p.0 != id && p.1 != id;
    }

    /** Deletes the created rows one by one. */
    method DeleteJobs(created: seq<nat>)
      modifies this`jobs, this`dependencies
      ensures jobs == old(jobs) - Elements(created)
      ensures dependencies == Untouched(old(dependencies), Elements(created))
    {
      for n := 0 to |created|
        invariant jobs == old(jobs) - Elements(created[..n])
        invariant dependencies == Untouched(old(dependencies), Elements(created[..n]))
      {
        assert Elements(created[..n + 1]) == Elements(created[..n]) + {created[n]};
        DeleteJob(created[n]);
      }
      assert created[..|created|] == created;
    }

    method CreateAll(site: Site, plan: seq<Entry>) returns (error: Option<StoreError>, ids: map<Name, nat>, created: seq<nat>)
      requires Valid() && FieldsOk(plan)
      modifies this
      ensures dependencies == old(dependencies) && |created| <= |plan|
      ensures created == Consecutive(old(lastId), |created|)
      ensures jobs == CreatedJobs(site, old(jobs), old(lastId), plan, |created|)
      ensures lastId == old(lastId) + |created| && Valid()
      ensures error.Some? ==> |created| < |plan| && (Conflicts(old(jobs), site) || Taken(old(jobs), IdAt(plan, |created|)))
      ensures error.Some? ==> error.value == if Conflicts(old(jobs), site) then CrossProject else HumanIdTaken(IdAt(plan, |created|))
      ensures error.Some? ==> RefusedAs(old(jobs), site, plan, error.value)
      ensures error.None? ==> |created| == |plan| && ids == IdMap(old(lastId), plan, |plan|)
      ensures error.None? ==> forall i :: 0 <= i < |plan| ==> !Conflicts(old(jobs), site) && !Taken(old(jobs), IdAt(plan, i))
    {
      ids, error, created := map[], None, [];
      ghost var base, jobs0 := lastId, jobs;
      for i := 0 to |plan|
        invariant |created| == i && Valid() && dependencies == old(dependencies) && lastId == base + i
        invariant created == Consecutive(base, i)
        invariant jobs == CreatedJobs(site, jobs0, base, plan, i) && ids == IdMap(base, plan, i)
        invariant forall k :: 0 <= k < i ==> !Conflicts(jobs0, site) && !Taken(jobs0, IdAt(plan, k))
      {
        StillTaken(site, jobs0, base, plan, i);
        StillConflicts(site, jobs0, base, plan, i);
        var r := CreateJob(RowOf(site, plan[i]));
        if r.Err? {
          error := Some(r.error);
          assert r.error != CrossProject ==> TakenFirst(jobs0, plan, i, IdAt(plan, i));
          return;
        }
        ids := ids[IdAt(plan, i) := r.value];
        created := created + [r.value];
      }
    }

    method LinkJob(plan: seq<Entry>, i: nat, ids: map<Name, nat>, ghost base: nat, ghost links: LinkTable)
      returns (clash: Option<Name>)
      requires WellFormedPlan(plan) && i < |plan| && ids == IdMap(base, plan, |plan|) && Resolvable(plan, ids)
      requires (forall p :: p in links ==> p.0 <= base) && dependencies == links + Links(ids, plan, i)
      modifies this`dependencies
      ensures RowResolvable(plan[i], ids)
      ensures clash.None? <==> Distinct(plan[i].dependsOn)
      ensures clash.Some? ==> FirstRepeat(plan[i].dependsOn, clash.value)
      ensures clash.None? ==> dependencies == links + Links(ids, plan, i + 1)
      ensures old(dependencies) <= dependencies <= old(dependencies) + LinkRow(ids, ids[IdAt(plan, i)], plan[i].dependsOn)
    {
      clash := None;
      var deps := plan[i].dependsOn;
      assert RowResolvable(plan[i], ids);
      var job := ids[IdAt(plan, i)];
      for k := 0 to |deps|
        invariant dependencies == links + Links(ids, plan, i) + LinkRow(ids, job, deps[..k])
        invariant Distinct(deps[..k])
      {
        LinkIsFresh(base, plan, links, i, k);
        assert deps[..k + 1][..k] == deps[..k];
        var ok := AddDependency(job, ids[deps[k]]);
        if !ok {
          assert exists j :: 0 <= j < k && deps[j] == deps[k];
          LinkRowMonotone(ids, job, deps, k);
          return Some(deps[k]);
        }
      }
      assert deps[..|deps|] == deps;
    }

    /** Persists an accepted plan.  No id lookup can miss; it succeeds exactly when the project and
        repository conflict with no job, no human id is taken and no dependency list repeats an id,
        and otherwise the clean-up leaves both tables as they were. */
    method PersistPlan(site: Site, plan: seq<Entry>) returns (r: Result<map<Name, nat>, StoreError>)
      requires Valid() && WellFormedPlan(plan)
      modifies this
      ensures Valid()
      ensures r.Ok? <==> Persistable(old(jobs), site, plan)
      ensures r.Ok? ==>
        && r.value == IdMap(old(lastId), plan, |plan|) && Resolvable(plan, r.value)
        && jobs == CreatedJobs(site, old(jobs), old(lastId), plan, |plan|)
        && dependencies == old(dependencies) + Links(r.value, plan, |plan|)
      ensures r.Err? ==> jobs == old(jobs) && dependencies == old(dependencies) && RefusedAs(old(jobs), site, plan, r.error)
    {
      ghost var base, jobs0, links := lastId, jobs, dependencies;
      var error, ids, created := CreateAll(site, plan);
      ConsecutiveHas(base, |created|);
      if error.Some? {
        CreatedCut(site, jobs0, base, plan, |created|);
        DeleteJobs(created);
        assert dependencies == links;
        return Err(error.value);
      }
      AcceptedPlanResolves(base, plan);
      var failed := LinkAll(plan, ids, base);
      if failed.Some? {
        CreatedCut(site, jobs0, base, plan, |plan|);
        DeleteJobs(created);
        return Err(failed.value);
      }
      LinksResolve(site, jobs0, base, plan);
      return Ok(ids);
    }

    method LinkAll(plan: seq<Entry>, ids: map<Name, nat>, ghost base: nat) returns (error: Option<StoreError>)
      requires WellFormedPlan(plan) && ids == IdMap(base, plan, |plan|) && Resolvable(plan, ids)
      requires forall p :: p in dependencies ==> p.0 <= base && p.1 <= base
      modifies this`dependencies
      ensures error.None? <==> forall k :: 0 <= k < |plan| ==> Distinct(plan[k].dependsOn)
      ensures error.None? ==> dependencies == old(dependencies) + Links(ids, plan, |plan|)
      ensures error.Some? ==> error.value.DuplicateDependency?
      ensures error.Some? ==> exists i :: 0 <= i < |plan| && RepeatsFirst(plan, i, error.value.job, error.value.dep)
      ensures error.Some? ==> Untouched(dependencies, Elements(Consecutive(base, |plan|))) == old(dependencies)
    {
      for i := 0 to |plan|
        invariant dependencies == old(dependencies) + Links(ids, plan, i)
        invariant forall k :: 0 <= k < i ==> Distinct(plan[k].dependsOn)
      {
        var clash := LinkJob(plan, i, ids, base, old(dependencies));
        if clash.Some? {
          LinksCut(base, plan, old(dependencies), i, dependencies);
          assert RepeatsFirst(plan, i, IdAt(plan, i), clash.value);
          return Some(DuplicateDependency(IdAt(plan, i), clash.value));
        }
      }
      return None;
    }
  }

  lemma CreatedCut(site: Site, jobs: JobTable, base: nat, plan: seq<Entry>, n: nat)
    requires FieldsOk(plan) && n <= |plan| && forall id :: id in jobs ==> id <= base
    ensures
      var t := CreatedJobs(site, jobs, base, plan, n);
      t - Elements(Consecutive(base, n)) == jobs
  {
    ConsecutiveHas(base, n);
    forall id {
      CreatedAt(site, jobs, base, plan, n, id);
    }
  }

  /** The ids handed out after `base`. */
  function Consecutive(base: nat, n: nat): (r: seq<nat>)
    ensures |r| == n
  {
    if n == 0 then [] else Consecutive(base, n - 1) + [base + n]
  }

  lemma {:induction false} ConsecutiveHas(base: nat, n: nat)
    ensures forall id :: id in Consecutive(base, n) <==> base < id <= base + n
  {
    if n > 0 {
      ConsecutiveHas(base, n - 1);
    }
  }

  /** The dependency rows with neither end in `gone`. */
  ghost function Untouched(links: LinkTable, gone: set<nat>): LinkTable {
    set p | p in links && p.0 !in gone && p.1 !in gone
  }

  /** Rows of the plan's own site add no conflict. */
  lemma StillConflicts(site: Site, jobs: JobTable, base: nat, plan: seq<Entry>, n: nat)
    requires FieldsOk(plan) && n <= |plan| && forall id :: id in jobs ==> id <= base
    ensures Conflicts(CreatedJobs(site, jobs, base, plan, n), site) <==> Conflicts(jobs, site)
  {
    var t := CreatedJobs(site, jobs, base, plan, n);
    if Conflicts(t, site) {
      var id :| id in t && !Fits(t[id].site, site);
      CreatedAt(site, jobs, base, plan, n, id);
    }
    if Conflicts(jobs, site) {
      var id :| id in jobs && !Fits(jobs[id].site, site);
      CreatedAt(site, jobs, base, plan, n, id);
    }
  }

  lemma LinksCut(base: nat, plan: seq<Entry>, links: LinkTable, i: nat, now: LinkTable)
    requires FieldsOk(plan) && i < |plan| && Resolvable(plan, IdMap(base, plan, |plan|))
    requires forall p :: p in links ==> p.0 <= base && p.1 <= base
    requires links <= now <= links + Links(IdMap(base, plan, |plan|), plan, i + 1)
    ensures Untouched(now, Elements(Consecutive(base, |plan|))) == links
  {
    ConsecutiveHas(base, |plan|);
    forall p | p in now && p !in links
      ensures p.0 in Consecutive(base, |plan|)
    {
      EarlierLinksStartLower(base, plan, i + 1, p);
    }
  }

  lemma LinksResolve(site: Site, jobs: JobTable, base: nat, plan: seq<Entry>)
    requires FieldsOk(plan) && Resolvable(plan, IdMap(base, plan, |plan|)) && forall id :: id in jobs ==> id <= base
    ensures forall p :: p in Links(IdMap(base, plan, |plan|), plan, |plan|) ==>
      p.0 in CreatedJobs(site, jobs, base, plan, |plan|) && p.1 in CreatedJobs(site, jobs, base, plan, |plan|)
    ensures forall id :: id in jobs ==> id in CreatedJobs(site, jobs, base, plan, |plan|)
    ensures forall id :: id in CreatedJobs(site, jobs, base, plan, |plan|) ==> id <= base + |plan|
  {
    var ids := IdMap(base, plan, |plan|);
    forall p | p in Links(ids, plan, |plan|)
      ensures p.0 in CreatedJobs(site, jobs, base, plan, |plan|) && p.1 in CreatedJobs(site, jobs, base, plan, |plan|)
    {
      LinksHave(ids, plan, |plan|, p);
      var i :| 0 <= i < |plan| && IsLink(ids, plan[i], p);
      IdMapAt(base, plan, |plan|, i);
      var d :| d in plan[i].dependsOn && ids[d] == p.1;
      var k := IdMapFrom(base, plan, |plan|, d);
      CreatedAt(site, jobs, base, plan, |plan|, p.0);
      CreatedAt(site, jobs, base, plan, |plan|, p.1);
    }
    forall id {
      CreatedAt(site, jobs, base, plan, |plan|, id);
    }
  }

  lemma {:induction false} LinkRowMonotone(ids: map<Name, nat>, job: nat, deps: seq<Name>, k: nat)
    requires (forall d :: d in deps ==> d in ids) && k <= |deps|
    ensures LinkRow(ids, job, deps[..k]) <= LinkRow(ids, job, deps)
  {
    if k == |deps| {
      assert deps[..k] == deps;
    } else {
      LinkRowMonotone(ids, job, deps[..|deps| - 1], k);
      assert deps[..|deps| - 1][..k] == deps[..k];
    }
  }

  lemma StillTaken(site: Site, jobs: JobTable, base: nat, plan: seq<Entry>, n: nat)
    requires FieldsOk(plan) && n < |plan| && forall id :: id in jobs ==> id <= base
    ensures Taken(CreatedJobs(site, jobs, base, plan, n), IdAt(plan, n)) <==> Taken(jobs, IdAt(plan, n))
  {
    var t := CreatedJobs(site, jobs, base, plan, n);
    if Taken(t, IdAt(plan, n)) {
      var id :| id in t && t[id].humanId == IdAt(plan, n);
      CreatedAt(site, jobs, base, plan, n, id);
    }
    if Taken(jobs, IdAt(plan, n)) {
      var id :| id in jobs && jobs[id].humanId == IdAt(plan, n);
      CreatedAt(site, jobs, base, plan, n, id);
    }
  }
}
