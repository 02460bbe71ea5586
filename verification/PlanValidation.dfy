/** Validation of a plan document: header and field checks, the in-place repair of
    RELEASE -> INTEGRATION edges, dangling dependencies and cycle detection. */
module PlanValidation {
  import opened Prelude
  import opened Jobs
  import opened PlanGraph

  /** The fields of the document itself; `sponsor` is stripped and in lower case. */
  datatype Header = Header(schemaVersion: int, project: Name, sponsor: string)

  /** What a job is about.  `explicitCriteria` says that a requirement reference comes with at least
      one acceptance criterion that is not blank. */
  datatype WorkItem = WorkItem(kind: Option<Name>, id: Option<Name>, explicitCriteria: bool)

  /** One element of `plan.jobs`.  `humanId` is `None` when the field is absent or not a string, and
      an absent queue is `UnknownQueue("")`. */
  datatype Entry =
    | NotAnObject
    | Job(humanId: Option<Name>, queue: Queue, agentRole: Option<Name>, workItem: WorkItem, dependsOn: seq<Name>)

  /** What the caller asks for and knows: the requested project, the project's work items by kind,
      and the work items that already have an active job on a queue. */
  datatype Context = Context(project: Name, known: Option<map<Name, set<Name>>>, active: Option<set<(Name, Queue)>>)

  datatype PlanError =
    | WrongSchemaVersion(version: int)
    | WrongProject(project: Name)
    | SponsorViolation(sponsor: string)
    | EmptyPlan
    | EntryNotAnObject(index: nat)
    | HumanIdRequired(index: nat)
    | DuplicateHumanId(id: Name)
    | QueueInvalid(index: nat)
    | AgentRoleMissing(index: nat)
    | WorkItemRequired(index: nat)
    | UnknownWorkItem(kind: Name, id: Name)
    | DuplicateAssignment(id: Name, queue: Queue)
    | ReleaseNeedsIntegration(job: Option<Name>)
    | ReleaseAmbiguous(job: Option<Name>, candidates: seq<Name>)
    | UnknownDependency(dependent: Name, dep: Name)
    | CycleDetected

  predicate IsBlank(id: Name) {
    forall c :: c in id.text ==> c in " \t\n\r"
  }

  /** A field that passes the `isinstance(str)` and `strip()` tests. */
  predicate HasUsableId(e: Entry) {
    e.Job? && e.humanId.Some? && !IsBlank(e.humanId.value)
  }

  // ---------------------------------------------------------------------------
  // Header and field checks
  // ---------------------------------------------------------------------------

  const SCHEMA_VERSION := 1

  predicate SponsorOk(sponsor: string) {
    sponsor in {"approved", "granted", "authorized", "sponsor-approved"}
  }

  function HeaderErrors(header: Header, ctx: Context): seq<PlanError> {
    (if header.schemaVersion != SCHEMA_VERSION then [WrongSchemaVersion(header.schemaVersion)] else [])
    + (if header.project != ctx.project then [WrongProject(header.project)] else [])
    + (if !SponsorOk(header.sponsor) then [SponsorViolation(header.sponsor)] else [])
  }

  /** DELIVERY work must name a work item or explicit acceptance criteria. */
  predicate Specified(e: Entry)
    requires e.Job?
  {
    e.queue == DELIVERY ==> (e.workItem.kind.Some? && e.workItem.id.Some?) || e.workItem.explicitCriteria
  }

  /** A work item of a kind with known items must be one of them. */
  predicate KnownItem(e: Entry, ctx: Context)
    requires e.Job?
  {
    e.workItem.id.Some? && e.workItem.kind.Some? && ctx.known.Some? && e.workItem.kind.value in ctx.known.value ==>
      ctx.known.value[e.workItem.kind.value] == {} || e.workItem.id.value in ctx.known.value[e.workItem.kind.value]
  }

  predicate Unassigned(e: Entry, ctx: Context)
    requires e.Job?
  {
    e.workItem.id.Some? && e.queue != UnknownQueue("") && ctx.active.Some? ==> (e.workItem.id.value, e.queue) !in ctx.active.value
  }

  function WorkErrors(e: Entry, index: nat, ctx: Context): seq<PlanError>
    requires e.Job?
  {
    (if !Specified(e) then [WorkItemRequired(index)] else [])
    + (if !KnownItem(e, ctx) then [UnknownWorkItem(e.workItem.kind.value, e.workItem.id.value)] else [])
    + (if !Unassigned(e, ctx) then [DuplicateAssignment(e.workItem.id.value, e.queue)] else [])
  }

  /** The usable ids of a list of entries. */
  function UsableIds(entries: seq<Entry>): set<Name> {
    if entries == [] then {}
    else
      var e := entries[|entries| - 1];
      UsableIds(entries[..|entries| - 1]) + if HasUsableId(e) then {e.humanId.value} else {}
  }

  /** The errors of one entry, given the usable ids met before it. */
  function EntryErrors(e: Entry, index: nat, before: set<Name>, ctx: Context): seq<PlanError> {
    if e.NotAnObject? then [EntryNotAnObject(index)]
    else
      (if !HasUsableId(e) then [HumanIdRequired(index)]
       else if e.humanId.value in before then [DuplicateHumanId(e.humanId.value)]
       else [])
      + (if e.queue.UnknownQueue? then [QueueInvalid(index)] else [])
      + (if e.queue.UnknownQueue? && e.agentRole.None? then [AgentRoleMissing(index)] else [])
      + WorkErrors(e, index, ctx)
  }

  function FieldErrors(entries: seq<Entry>, ctx: Context): seq<PlanError> {
    if entries == [] then []
    else
      var n := |entries| - 1;
      FieldErrors(entries[..n], ctx) + EntryErrors(entries[n], n, UsableIds(entries[..n]), ctx)
  }

  method CheckEntry(e: Entry, index: nat, seen0: set<Name>, ctx: Context) returns (errors: seq<PlanError>, seen: set<Name>)
    ensures errors == EntryErrors(e, index, seen0, ctx)
    ensures seen == seen0 + if HasUsableId(e) then {e.humanId.value} else {}
  {
    errors, seen := [], seen0;
    if e.NotAnObject? {
      return [EntryNotAnObject(index)], seen;
    }
    if !HasUsableId(e) {
      errors := [HumanIdRequired(index)];
    } else {
      if e.humanId.value in seen {
        errors := [DuplicateHumanId(e.humanId.value)];
      }
      seen := seen + {e.humanId.value};
    }
    if e.queue.UnknownQueue? {
      errors := errors + [QueueInvalid(index)];
      if e.agentRole.None? {
        errors := errors + [AgentRoleMissing(index)];
      }
    }
    errors := errors + WorkErrors(e, index, ctx);
  }

  method CheckFields(jobs: array<Entry>, ctx: Context) returns (errors: seq<PlanError>)
    ensures errors == FieldErrors(jobs[..], ctx)
  {
    errors := [];
    var humanIds: set<Name> := {};
    for i := 0 to jobs.Length
      invariant humanIds == UsableIds(jobs[..i])
      invariant errors == FieldErrors(jobs[..i], ctx)
    {
      assert jobs[..i + 1][..i] == jobs[..i];
      var found;
      found, humanIds := CheckEntry(jobs[i], i, humanIds, ctx);
      errors := errors + found;
    }
    assert jobs[..jobs.Length] == jobs[..];
  }

  // ---------------------------------------------------------------------------
  // RELEASE repair
  // ---------------------------------------------------------------------------

  predicate IsIntegration(e: Entry) {
    e.Job? && e.queue == INTEGRATION && e.humanId.Some?
  }

  function IntegrationIds(entries: seq<Entry>): seq<Name> {
    if entries == [] then []
    else
      var e := entries[|entries| - 1];
      IntegrationIds(entries[..|entries| - 1]) + if IsIntegration(e) then [e.humanId.value] else []
  }

  predicate IsRelease(e: Entry) {
    e.Job? && e.queue == RELEASE
  }

  predicate DependsOnAny(e: Entry, ids: seq<Name>)
    requires e.Job?
  {
    exists d :: d in e.dependsOn && d in ids
  }

  function RepairEntry(e: Entry, ids: seq<Name>): Entry {
    if IsRelease(e) && !DependsOnAny(e, ids) && |ids| == 1 then e.(dependsOn := e.dependsOn + [ids[0]]) else e
  }

  function ReleaseEntryErrors(e: Entry, ids: seq<Name>): seq<PlanError> {
    if !IsRelease(e) || DependsOnAny(e, ids) || |ids| == 1 then []
    else if ids == [] then [ReleaseNeedsIntegration(e.humanId)]
    else [ReleaseAmbiguous(e.humanId, ids)]
  }

  function RepairWith(entries: seq<Entry>, ids: seq<Name>): (r: seq<Entry>)
    ensures |r| == |entries|
    ensures forall i :: 0 <= i < |entries| ==> r[i] == RepairEntry(entries[i], ids)
  {
    seq(|entries|, i requires 0 <= i < |entries| => RepairEntry(entries[i], ids))
  }

  function ReleaseErrorsWith(entries: seq<Entry>, ids: seq<Name>): seq<PlanError> {
    if entries == [] then []
    else ReleaseErrorsWith(entries[..|entries| - 1], ids) + ReleaseEntryErrors(entries[|entries| - 1], ids)
  }

  function Repair(entries: seq<Entry>): seq<Entry> {
    RepairWith(entries, IntegrationIds(entries))
  }

  function ReleaseErrors(entries: seq<Entry>): seq<PlanError> {
    ReleaseErrorsWith(entries, IntegrationIds(entries))
  }

  method CollectIntegrationIds(jobs: array<Entry>) returns (ids: seq<Name>)
    ensures ids == IntegrationIds(jobs[..])
  {
    ids := [];
    for i := 0 to jobs.Length
      invariant ids == IntegrationIds(jobs[..i])
    {
      assert jobs[..i + 1][..i] == jobs[..i];
      if IsIntegration(jobs[i]) {
        ids := ids + [jobs[i].humanId.value];
      }
    }
    assert jobs[..jobs.Length] == jobs[..];
  }

  method EnsureReleaseDependsOnIntegration(jobs: array<Entry>) returns (errors: seq<PlanError>)
    modifies jobs
    ensures jobs[..] == Repair(old(jobs[..]))
    ensures errors == ReleaseErrors(old(jobs[..]))
  {
    ghost var was := jobs[..];
    var integrationIds := CollectIntegrationIds(jobs);
    errors := [];
    for i := 0 to jobs.Length
      invariant forall k :: 0 <= k < jobs.Length ==> jobs[k] == if k < i then RepairEntry(was[k], integrationIds) else was[k]
      invariant errors == ReleaseErrorsWith(was[..i], integrationIds)
    {
      var job := jobs[i];
      assert was[..i + 1][..i] == was[..i];
      if IsRelease(job) && !DependsOnAny(job, integrationIds) {
        if |integrationIds| == 1 {
          jobs[i] := job.(dependsOn := job.dependsOn + [integrationIds[0]]);
        } else if integrationIds == [] {
          errors := errors + [ReleaseNeedsIntegration(job.humanId)];
        } else {
          errors := errors + [ReleaseAmbiguous(job.humanId, integrationIds)];
        }
      }
    }
    assert was[..|was|] == was;
  }

  // ---------------------------------------------------------------------------
  // The job dictionary and dangling dependencies
  // ---------------------------------------------------------------------------

  predicate HasKey(e: Entry) {
    e.Job? && e.humanId.Some?
  }

  /** The dictionary by id; a repeated id keeps its last entry. */
  function GraphOf(entries: seq<Entry>): Graph {
    if entries == [] then map[]
    else
      var e := entries[|entries| - 1];
      var g := GraphOf(entries[..|entries| - 1]);
      if HasKey(e) then g[e.humanId.value := e.dependsOn] else g
  }

  /** Its keys in the order of first insertion. */
  function KeysOf(entries: seq<Entry>): seq<Name> {
    if entries == [] then []
    else
      var e := entries[|entries| - 1];
      var ids := KeysOf(entries[..|entries| - 1]);
      if HasKey(e) && e.humanId.value !in ids then ids + [e.humanId.value] else ids
  }

  lemma {:induction false} KeysMatchGraph(entries: seq<Entry>)
    ensures Distinct(KeysOf(entries)) && Elements(KeysOf(entries)) == GraphOf(entries).Keys
  {
    if entries != [] {
      KeysMatchGraph(entries[..|entries| - 1]);
    }
  }

  method IndexById(jobs: array<Entry>) returns (g: Graph, ids: seq<Name>)
    ensures g == GraphOf(jobs[..]) && ids == KeysOf(jobs[..])
    ensures Distinct(ids) && Elements(ids) == g.Keys
  {
    g, ids := map[], [];
    for i := 0 to jobs.Length
      invariant g == GraphOf(jobs[..i]) && ids == KeysOf(jobs[..i])
    {
      var e := jobs[i];
      assert jobs[..i + 1][..i] == jobs[..i];
      if HasKey(e) {
        g := g[e.humanId.value := e.dependsOn];
        if e.humanId.value !in ids {
          ids := ids + [e.humanId.value];
        }
      }
    }
    assert jobs[..jobs.Length] == jobs[..];
    KeysMatchGraph(jobs[..]);
  }

  function UnknownOf(g: Graph, job: Name, deps: seq<Name>): seq<PlanError> {
    if deps == [] then []
    else
      var d := deps[|deps| - 1];
      UnknownOf(g, job, deps[..|deps| - 1]) + if d in g then [] else [UnknownDependency(job, d)]
  }

  function UnknownErrors(g: Graph, ids: seq<Name>): seq<PlanError>
    requires forall h :: h in ids ==> h in g
  {
    if ids == [] then []
    else
      var h := ids[|ids| - 1];
      UnknownErrors(g, ids[..|ids| - 1]) + UnknownOf(g, h, g[h])
  }

  method ListUnknown(g: Graph, ids: seq<Name>) returns (errors: seq<PlanError>)
    requires forall h :: h in ids ==> h in g
    ensures errors == UnknownErrors(g, ids)
  {
    errors := [];
    for n := 0 to |ids|
      invariant errors == UnknownErrors(g, ids[..n])
    {
      var job := ids[n];
      var deps := g[job];
      assert ids[..n + 1][..n] == ids[..n];
      ghost var errors0 := errors;
      for k := 0 to |deps|
        invariant errors == errors0 + UnknownOf(g, job, deps[..k])
      {
        assert deps[..k + 1][..k] == deps[..k];
        if deps[k] !in g {
          errors := errors + [UnknownDependency(job, deps[k])];
        }
      }
      assert deps[..|deps|] == deps;
    }
    assert ids[..|ids|] == ids;
  }

  // ---------------------------------------------------------------------------
  // The validator
  // ---------------------------------------------------------------------------

  /** What the validator reports, stated over the document alone. */
  ghost function PlanErrors(header: Header, entries: seq<Entry>, ctx: Context): seq<PlanError> {
    HeaderErrors(header, ctx) + JobErrors(entries, ctx)
  }

  ghost function JobErrors(entries: seq<Entry>, ctx: Context): seq<PlanError> {
    if entries == [] then [EmptyPlan]
    else
      var repaired := Repair(entries);
      var g := GraphOf(repaired);
      KeysMatchGraph(repaired);
      KeysInGraph(repaired);
      FieldErrors(entries, ctx) + ReleaseErrors(entries) + UnknownErrors(g, KeysOf(repaired))
      + if Cyclic(g) then [CycleDetected] else []
  }

  lemma KeysInGraph(entries: seq<Entry>)
    ensures forall h :: h in KeysOf(entries) ==> h in GraphOf(entries)
  {
    KeysMatchGraph(entries);
    assert forall h :: h in KeysOf(entries) ==> h in Elements(KeysOf(entries));
  }

  method ValidatePlanDocument(header: Header, jobs: array<Entry>, ctx: Context) returns (errors: seq<PlanError>)
    modifies jobs
    ensures jobs[..] == Repair(old(jobs[..]))
    ensures errors == PlanErrors(header, old(jobs[..]), ctx)
  {
    errors := HeaderErrors(header, ctx);
    var more := ValidateJobs(jobs, ctx);
    errors := errors + more;
  }

  method ValidateJobs(jobs: array<Entry>, ctx: Context) returns (errors: seq<PlanError>)
    modifies jobs
    ensures jobs[..] == Repair(old(jobs[..]))
    ensures errors == JobErrors(old(jobs[..]), ctx)
  {
    if jobs.Length == 0 {
      errors := [EmptyPlan];
      return;
    }
    ghost var was := jobs[..];
    errors := CheckFields(jobs, ctx);
    var more := EnsureReleaseDependsOnIntegration(jobs);
    errors := errors + more;
    var g, ids := IndexById(jobs);
    KeysInGraph(jobs[..]);
    var unknown := ListUnknown(g, ids);
    errors := errors + unknown;
    var seen, order := CountFinishable(g, ids);
    if |g| > 0 && seen != |g| {
      errors := errors + [CycleDetected];
    }
  }
}
