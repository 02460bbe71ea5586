/** What each message of the plan validator says about the document, column by column, and in which
    order the messages come. */
module PlanReports {
  import opened Prelude
  import opened Jobs
  import opened PlanGraph
  import opened PlanValidation
  import opened PlanProperties

  // ---------------------------------------------------------------------------
  // Dangling dependencies
  // ---------------------------------------------------------------------------

  /** The dependencies reported for a job, in the order of the report. */
  function Reported(errors: seq<PlanError>, h: Name): seq<Name> {
    if errors == [] then []
    else
      var e := errors[|errors| - 1];
      Reported(errors[..|errors| - 1], h) + if e.UnknownDependency? && e.dependent == h then [e.dep] else []
  }

  /** The entries of a dependency list that name no plan job, in list order. */
  function Missing(deps: seq<Name>, g: Graph): seq<Name> {
    if deps == [] then []
    else
      var d := deps[|deps| - 1];
      Missing(deps[..|deps| - 1], g) + if d in g then [] else [d]
  }

  lemma {:induction false} MissingCounts(deps: seq<Name>, g: Graph, d: Name)
    ensures Count(Missing(deps, g), d) == if d in g then 0 else Count(deps, d)
  {
    if deps != [] {
      var n := |deps| - 1;
      MissingCounts(deps[..n], g, d);
      if deps[n] !in g {
        CountAppend(Missing(deps[..n], g), deps[n], d);
      } else {
        assert Missing(deps, g) == Missing(deps[..n], g);
      }
    }
  }

  lemma {:induction false} ReportedAppend(a: seq<PlanError>, b: seq<PlanError>, h: Name)
    ensures Reported(a + b, h) == Reported(a, h) + Reported(b, h)
  {
    if b == [] {
      assert a + b == a;
    } else {
      var n := |b| - 1;
      assert (a + b)[..|a + b| - 1] == a + b[..n];
      ReportedAppend(a, b[..n], h);
    }
  }

  lemma {:induction false} UnknownOfReports(g: Graph, job: Name, deps: seq<Name>, h: Name)
    ensures Reported(UnknownOf(g, job, deps), h) == if h == job then Missing(deps, g) else []
  {
    if deps != [] {
      var n := |deps| - 1;
      UnknownOfReports(g, job, deps[..n], h);
      if deps[n] !in g {
        assert UnknownOf(g, job, deps)[..|UnknownOf(g, job, deps)| - 1] == UnknownOf(g, job, deps[..n]);
      } else {
        assert UnknownOf(g, job, deps) == UnknownOf(g, job, deps[..n]) && Missing(deps, g) == Missing(deps[..n], g);
      }
    }
  }

  lemma {:induction false} UnknownOfIsOfJob(g: Graph, job: Name, deps: seq<Name>)
    ensures forall i :: 0 <= i < |UnknownOf(g, job, deps)| ==>
      UnknownOf(g, job, deps)[i].UnknownDependency? && UnknownOf(g, job, deps)[i].dependent == job
  {
    if deps != [] {
      UnknownOfIsOfJob(g, job, deps[..|deps| - 1]);
    }
  }

  /** For every job the report lists exactly the entries of its list that name no plan job, in list
      order and as often as they occur, and for no other name anything. */
  lemma {:induction false} UnknownReports(g: Graph, ids: seq<Name>, h: Name)
    requires Distinct(ids) && forall x :: x in ids ==> x in g
    ensures Reported(UnknownErrors(g, ids), h) == if h in ids then Missing(g[h], g) else []
  {
    if ids != [] {
      var front, last := ids[..|ids| - 1], ids[|ids| - 1];
      UnknownReports(g, front, h);
      ReportedAppend(UnknownErrors(g, front), UnknownOf(g, last, g[last]), h);
      UnknownOfReports(g, last, g[last], h);
      assert last !in front;
      assert h in ids <==> h in front || h == last;
    }
  }

  ghost predicate InKeyOrder(errors: seq<PlanError>, ids: seq<Name>, a: nat, b: nat)
    requires a < |errors| && b < |errors|
  {
    && errors[a].UnknownDependency? && errors[b].UnknownDependency?
    && exists i, j :: 0 <= i <= j < |ids| && errors[a].dependent == ids[i] && errors[b].dependent == ids[j]
  }

  /** The jobs are reported in key order. */
  lemma {:induction false} UnknownInKeyOrder(g: Graph, ids: seq<Name>, a: nat, b: nat)
    requires (forall x :: x in ids ==> x in g) && a <= b < |UnknownErrors(g, ids)|
    ensures InKeyOrder(UnknownErrors(g, ids), ids, a, b)
  {
    var front, last := ids[..|ids| - 1], ids[|ids| - 1];
    var e, block := UnknownErrors(g, front), UnknownOf(g, last, g[last]);
    assert UnknownErrors(g, ids) == e + block;
    UnknownOfIsOfJob(g, last, g[last]);
    if a < |e| {
      UnknownInKeyOrder(g, front, a, if b < |e| then b else a);
      var i, j :| 0 <= i <= j < |front| && e[a].dependent == front[i] && e[if b < |e| then b else a].dependent == front[j];
      assert ids[i] == front[i] && ids[j] == front[j] && ids[|ids| - 1] == last;
      assert b >= |e| ==> (e + block)[b] == block[b - |e|];
    } else {
      assert (e + block)[a] == block[a - |e|] && (e + block)[b] == block[b - |e|];
      assert ids[|ids| - 1] == last;
    }
  }

  lemma {:induction false} ReportedHas(errors: seq<PlanError>, h: Name, d: Name)
    ensures d in Reported(errors, h) <==> UnknownDependency(h, d) in errors
  {
    if errors != [] {
      var n := |errors| - 1;
      ReportedHas(errors[..n], h, d);
      assert errors == errors[..n] + [errors[n]];
    }
  }

  lemma {:induction false} MissingHas(deps: seq<Name>, g: Graph, d: Name)
    ensures d in Missing(deps, g) <==> d in deps && d !in g
  {
    if deps != [] {
      MissingHas(deps[..|deps| - 1], g, d);
      assert deps == deps[..|deps| - 1] + [deps[|deps| - 1]];
    }
  }

  lemma UnknownReportedIff(g: Graph, ids: seq<Name>, h: Name, d: Name)
    requires Distinct(ids) && forall x :: x in ids ==> x in g
    ensures UnknownDependency(h, d) in UnknownErrors(g, ids) <==> h in ids && d in g[h] && d !in g
  {
    ReportedHas(UnknownErrors(g, ids), h, d);
    UnknownReports(g, ids, h);
    if h in ids {
      MissingHas(g[h], g, d);
    }
  }

  // ---------------------------------------------------------------------------
  // The dictionary
  // ---------------------------------------------------------------------------

  ghost predicate Named(e: Entry, h: Name) {
    e.Job? && e.humanId == Some(h)
  }

  /** Of several entries with one id the last one counts. */
  lemma {:induction false} LastEntryCounts(entries: seq<Entry>, i: nat, h: Name)
    requires i < |entries| && Named(entries[i], h) && forall k :: i < k < |entries| ==> !Named(entries[k], h)
    ensures h in GraphOf(entries) && GraphOf(entries)[h] == entries[i].dependsOn
  {
    var n := |entries| - 1;
    if i < n {
      assert !Named(entries[n], h);
      assert forall k :: 0 <= k < n ==> entries[..n][k] == entries[k];
      LastEntryCounts(entries[..n], i, h);
    }
  }

  /** Keys come in the order in which their ids first occur. */
  lemma {:induction false} KeysInFirstOrder(entries: seq<Entry>, a: nat, b: nat) returns (i: nat)
    requires a < b < |KeysOf(entries)|
    ensures i < |entries| && Named(entries[i], KeysOf(entries)[a])
    ensures forall k :: 0 <= k <= i ==> !Named(entries[k], KeysOf(entries)[b])
  {
    var n := |entries| - 1;
    var front := entries[..n];
    assert forall k :: 0 <= k < n ==> front[k] == entries[k];
    if b < |KeysOf(front)| {
      i := KeysInFirstOrder(front, a, b);
    } else {
      i := KeyOccurs(front, a);
      forall k | 0 <= k <= i
        ensures !Named(entries[k], KeysOf(entries)[b])
      {
        if Named(entries[k], KeysOf(entries)[b]) {
          OccursInKeys(front, k, KeysOf(entries)[b]);
        }
      }
    }
  }

  lemma {:induction false} KeyOccurs(entries: seq<Entry>, a: nat) returns (i: nat)
    requires a < |KeysOf(entries)|
    ensures i < |entries| && Named(entries[i], KeysOf(entries)[a])
  {
    var n := |entries| - 1;
    if a < |KeysOf(entries[..n])| {
      i := KeyOccurs(entries[..n], a);
    } else {
      i := n;
    }
  }

  lemma {:induction false} OccursInKeys(entries: seq<Entry>, k: nat, h: Name)
    requires k < |entries| && Named(entries[k], h)
    ensures h in KeysOf(entries)
  {
    var n := |entries| - 1;
    if k < n {
      assert entries[..n][k] == entries[k];
      OccursInKeys(entries[..n], k, h);
    }
  }

  // ---------------------------------------------------------------------------
  // Field errors
  // ---------------------------------------------------------------------------

  /** The error is about entry `n`, in terms of the document's columns. */
  ghost predicate FaultOf(entries: seq<Entry>, n: nat, ctx: Context, error: PlanError)
    requires n < |entries|
  {
    var e := entries[n];
    match error
    case EntryNotAnObject(i) => i == n && e == NotAnObject
    case HumanIdRequired(i) => i == n && e.Job? && (e.humanId == None || forall c :: c in e.humanId.value.text ==> c in " \t\n\r")
    case DuplicateHumanId(id) => e.Job? && Usable(e, id) && exists m :: 0 <= m < n && Usable(entries[m], id)
    case QueueInvalid(i) => i == n && e.Job? && e.queue.UnknownQueue?
    case AgentRoleMissing(i) => i == n && e.Job? && e.queue.UnknownQueue? && e.agentRole == None
    case WorkItemRequired(i) =>
      && i == n && e.Job? && e.queue == DELIVERY && !e.workItem.explicitCriteria
      && (e.workItem.kind == None || e.workItem.id == None)
    case UnknownWorkItem(kind, id) =>
      && e.Job? && e.workItem.kind == Some(kind) && e.workItem.id == Some(id)
      && ctx.known.Some? && kind in ctx.known.value && ctx.known.value[kind] != {} && id !in ctx.known.value[kind]
    case DuplicateAssignment(id, queue) =>
      && e.Job? && e.workItem.id == Some(id) && e.queue == queue && queue != UnknownQueue("")
      && ctx.active.Some? && (id, queue) in ctx.active.value
    case _ => false
  }

  ghost predicate Usable(e: Entry, id: Name) {
    e.Job? && e.humanId == Some(id) && exists c :: c in id.text && c !in " \t\n\r"
  }

  /** The place of a message among those of one entry. */
  function Rank(error: PlanError): nat {
    match error
    case EntryNotAnObject(_) => 0
    case HumanIdRequired(_) => 0
    case DuplicateHumanId(_) => 0
    case QueueInvalid(_) => 1
    case AgentRoleMissing(_) => 2
    case WorkItemRequired(_) => 3
    case UnknownWorkItem(_, _) => 4
    case DuplicateAssignment(_, _) => 5
    case _ => 6
  }

  ghost predicate Ranked(errors: seq<PlanError>) {
    forall i, j :: 0 <= i < j < |errors| ==> Rank(errors[i]) < Rank(errors[j])
  }

  lemma WorkReports(entries: seq<Entry>, n: nat, ctx: Context, error: PlanError)
    requires n < |entries| && entries[n].Job?
    ensures error in WorkErrors(entries[n], n, ctx) <==> Rank(error) in {3, 4, 5} && FaultOf(entries, n, ctx, error)
    ensures Ranked(WorkErrors(entries[n], n, ctx)) && forall i :: 0 <= i < |WorkErrors(entries[n], n, ctx)| ==> Rank(WorkErrors(entries[n], n, ctx)[i]) >= 3
  {
  }

  lemma {:induction false} UsableBefore(entries: seq<Entry>, n: nat, id: Name)
    requires n <= |entries|
    ensures id in UsableIds(entries[..n]) <==> exists m :: 0 <= m < n && Usable(entries[m], id)
  {
    if n > 0 {
      UsableBefore(entries, n - 1, id);
      assert entries[..n][..n - 1] == entries[..n - 1];
    }
  }

  /** The errors of one entry but for its work item. */
  function IdentityErrors(e: Entry, index: nat, before: set<Name>): seq<PlanError>
    requires e.Job?
  {
    (if !HasUsableId(e) then [HumanIdRequired(index)]
     else if e.humanId.value in before then [DuplicateHumanId(e.humanId.value)]
     else [])
    + (if e.queue.UnknownQueue? then [QueueInvalid(index)] else [])
    + (if e.queue.UnknownQueue? && e.agentRole.None? then [AgentRoleMissing(index)] else [])
  }

  lemma IdentityReports(entries: seq<Entry>, n: nat, ctx: Context, error: PlanError)
    requires n < |entries| && entries[n].Job?
    ensures error in IdentityErrors(entries[n], n, UsableIds(entries[..n])) <==> Rank(error) <= 2 && FaultOf(entries, n, ctx, error)
  {
    if entries[n].humanId.Some? {
      UsableBefore(entries, n, entries[n].humanId.value);
    }
  }

  lemma IdentityRanked(e: Entry, n: nat, before: set<Name>)
    requires e.Job?
    ensures Ranked(IdentityErrors(e, n, before)) && forall i :: 0 <= i < |IdentityErrors(e, n, before)| ==> Rank(IdentityErrors(e, n, before)[i]) <= 2
  {
  }

  lemma RankedConcat(a: seq<PlanError>, b: seq<PlanError>)
    requires Ranked(a) && Ranked(b) && (forall i :: 0 <= i < |a| ==> Rank(a[i]) <= 2) && forall i :: 0 <= i < |b| ==> Rank(b[i]) >= 3
    ensures Ranked(a + b)
  {
  }

  lemma EntryReports(entries: seq<Entry>, n: nat, ctx: Context, error: PlanError)
    requires n < |entries|
    ensures
      var found := EntryErrors(entries[n], n, UsableIds(entries[..n]), ctx);
      (error in found <==> FaultOf(entries, n, ctx, error)) && Ranked(found)
  {
    var e := entries[n];
    if e.Job? {
      var a, b := IdentityErrors(e, n, UsableIds(entries[..n])), WorkErrors(e, n, ctx);
      assert EntryErrors(e, n, UsableIds(entries[..n]), ctx) == a + b;
      IdentityReports(entries, n, ctx, error);
      IdentityRanked(e, n, UsableIds(entries[..n]));
      WorkReports(entries, n, ctx, error);
      RankedConcat(a, b);
      assert error in a + b <==> error in a || error in b;
    }
  }

  /** The report on the first `n + 1` entries continues that on the first `n` with exactly the faults of
      entry `n`, each once, in the order id, queue, role, work item. */
  lemma FieldReports(entries: seq<Entry>, n: nat, ctx: Context)
    requires n < |entries|
    ensures
      var before, after := FieldErrors(entries[..n], ctx), FieldErrors(entries[..n + 1], ctx);
      && before <= after && Ranked(after[|before|..])
      && forall error :: error in after[|before|..] <==> FaultOf(entries, n, ctx, error)
  {
    assert entries[..n + 1][..n] == entries[..n];
    var before, after := FieldErrors(entries[..n], ctx), FieldErrors(entries[..n + 1], ctx);
    var found := EntryErrors(entries[n], n, UsableIds(entries[..n]), ctx);
    assert after == before + found && after[|before|..] == found;
    forall error
      ensures error in found <==> FaultOf(entries, n, ctx, error)
    {
      EntryReports(entries, n, ctx, error);
    }
    EntryReports(entries, n, ctx, EmptyPlan);
  }

  lemma {:induction false} FieldReportedIff(entries: seq<Entry>, n: nat, ctx: Context, error: PlanError)
    requires n <= |entries|
    ensures error in FieldErrors(entries[..n], ctx) <==> FaultBefore(entries, n, ctx, error)
  {
    if n > 0 {
      FieldReportedIff(entries, n - 1, ctx, error);
      EntryReports(entries, n - 1, ctx, error);
      FieldStep(entries, n - 1, ctx);
      InConcat(FieldErrors(entries[..n - 1], ctx), EntryErrors(entries[n - 1], n - 1, UsableIds(entries[..n - 1]), ctx), error);
      FaultBeforeStep(entries, n - 1, ctx, error);
    }
  }

  lemma InConcat(a: seq<PlanError>, b: seq<PlanError>, error: PlanError)
    ensures error in a + b <==> error in a || error in b
  {
  }

  lemma FieldStep(entries: seq<Entry>, n: nat, ctx: Context)
    requires n < |entries|
    ensures FieldErrors(entries[..n + 1], ctx) == FieldErrors(entries[..n], ctx) + EntryErrors(entries[n], n, UsableIds(entries[..n]), ctx)
  {
    assert entries[..n + 1][..n] == entries[..n];
  }

  lemma FaultBeforeStep(entries: seq<Entry>, n: nat, ctx: Context, error: PlanError)
    requires n < |entries|
    ensures FaultBefore(entries, n + 1, ctx, error) <==> FaultBefore(entries, n, ctx, error) || FaultOf(entries, n, ctx, error)
  {
  }

  ghost predicate FaultBefore(entries: seq<Entry>, n: nat, ctx: Context, error: PlanError)
    requires n <= |entries|
  {
    exists i :: 0 <= i < n && FaultOf(entries, i, ctx, error)
  }

  // ---------------------------------------------------------------------------
  // RELEASE errors
  // ---------------------------------------------------------------------------

  ghost predicate Integrates(e: Entry) {
    e.Job? && e.queue == INTEGRATION && e.humanId.Some?
  }

  /** The entry is a RELEASE job none of whose dependencies is an INTEGRATION job of the plan. */
  ghost predicate Unanchored(entries: seq<Entry>, e: Entry) {
    && e.Job? && e.queue == RELEASE
    && forall d, i :: d in e.dependsOn && 0 <= i < |entries| && Integrates(entries[i]) ==> entries[i].humanId != Some(d)
  }

  ghost predicate SeveralIntegrate(entries: seq<Entry>) {
    exists i, j :: 0 <= i < j < |entries| && Integrates(entries[i]) && Integrates(entries[j])
  }

  lemma {:induction false} IntegrationCount(entries: seq<Entry>)
    ensures IntegrationIds(entries) == [] <==> forall i :: 0 <= i < |entries| ==> !Integrates(entries[i])
    ensures |IntegrationIds(entries)| >= 2 <==> SeveralIntegrate(entries)
  {
    if entries != [] {
      var n := |entries| - 1;
      var front := entries[..n];
      IntegrationCount(front);
      assert forall i :: 0 <= i < n ==> front[i] == entries[i];
      if SeveralIntegrate(front) {
        var i, j :| 0 <= i < j < n && Integrates(front[i]) && Integrates(front[j]);
        assert Integrates(entries[i]) && Integrates(entries[j]);
      }
      if |IntegrationIds(front)| == 1 && Integrates(entries[n]) {
        var i :| 0 <= i < n && Integrates(front[i]);
        assert Integrates(entries[i]);
      }
    }
  }

  lemma UnanchoredIff(entries: seq<Entry>, e: Entry)
    requires e.Job? && e.queue == RELEASE
    ensures Unanchored(entries, e) <==> !DependsOnAny(e, IntegrationIds(entries))
  {
    forall d | d in e.dependsOn
      ensures d in IntegrationIds(entries) <==> exists i :: 0 <= i < |entries| && Integrates(entries[i]) && entries[i].humanId == Some(d)
    {
      IntegrationIdsAre(entries, d);
    }
  }

  ghost predicate ReleaseFault(entries: seq<Entry>, e: Entry, error: PlanError) {
    match error
    case ReleaseNeedsIntegration(job) =>
      && Unanchored(entries, e) && e.humanId == job
      && forall i :: 0 <= i < |entries| ==> !Integrates(entries[i])
    case ReleaseAmbiguous(job, candidates) =>
      Unanchored(entries, e) && e.humanId == job && SeveralIntegrate(entries) && candidates == IntegrationIds(entries)
    case _ => false
  }

  lemma ReleaseEntryReports(entries: seq<Entry>, e: Entry, error: PlanError)
    ensures error in ReleaseEntryErrors(e, IntegrationIds(entries)) <==> ReleaseFault(entries, e, error)
  {
    IntegrationCount(entries);
    if e.Job? && e.queue == RELEASE {
      UnanchoredIff(entries, e);
    }
  }

  /** Every RELEASE job that is not anchored and cannot be repaired is reported under its own id, in plan
      order, with the reason that applies; the candidates are the plan's INTEGRATION ids. */
  lemma {:induction false} ReleaseReports(entries: seq<Entry>, n: nat, error: PlanError)
    requires n <= |entries|
    ensures error in ReleaseErrorsWith(entries[..n], IntegrationIds(entries)) <==> ReleaseFaultBefore(entries, n, error)
  {
    if n > 0 {
      ReleaseReports(entries, n - 1, error);
      ReleaseStep(entries, n - 1);
      ReleaseEntryReports(entries, entries[n - 1], error);
      InConcat(ReleaseErrorsWith(entries[..n - 1], IntegrationIds(entries)), ReleaseEntryErrors(entries[n - 1], IntegrationIds(entries)), error);
      ReleaseFaultStep(entries, n - 1, error);
    }
  }

  ghost predicate ReleaseFaultBefore(entries: seq<Entry>, n: nat, error: PlanError)
    requires n <= |entries|
  {
    exists i :: 0 <= i < n && ReleaseFault(entries, entries[i], error)
  }

  lemma ReleaseFaultStep(entries: seq<Entry>, n: nat, error: PlanError)
    requires n < |entries|
    ensures ReleaseFaultBefore(entries, n + 1, error) <==> ReleaseFaultBefore(entries, n, error) || ReleaseFault(entries, entries[n], error)
  {
  }

  /** The report on one more entry continues the report by at most one message. */
  lemma ReleaseStep(entries: seq<Entry>, n: nat)
    requires n < |entries|
    ensures
      var ids := IntegrationIds(entries);
      var before, after := ReleaseErrorsWith(entries[..n], ids), ReleaseErrorsWith(entries[..n + 1], ids);
      before <= after && |after| <= |before| + 1 && after == before + ReleaseEntryErrors(entries[n], ids)
  {
    assert entries[..n + 1][..n] == entries[..n];
  }

  /** The candidates are listed in plan order. */
  lemma {:induction false} IntegrationIdsInOrder(entries: seq<Entry>, n: nat)
    requires n < |entries|
    ensures
      var before, after := IntegrationIds(entries[..n]), IntegrationIds(entries[..n + 1]);
      && before <= after && |after| == |before| + (if Integrates(entries[n]) then 1 else 0)
      && (Integrates(entries[n]) ==> Some(after[|before|]) == entries[n].humanId)
  {
    assert entries[..n + 1][..n] == entries[..n];
  }

  // ---------------------------------------------------------------------------
  // The whole report
  // ---------------------------------------------------------------------------

  /** What the message says, in terms of the document. */
  ghost predicate Justified(header: Header, entries: seq<Entry>, ctx: Context, error: PlanError) {
    match error
    case WrongSchemaVersion(v) => header.schemaVersion == v != 1
    case WrongProject(p) => header.project == p != ctx.project
    case SponsorViolation(text) => header.sponsor == text && text !in {"approved", "granted", "authorized", "sponsor-approved"}
    case EmptyPlan => entries == []
    case ReleaseNeedsIntegration(_) => ReleaseFaultBefore(entries, |entries|, error)
    case ReleaseAmbiguous(_, _) => ReleaseFaultBefore(entries, |entries|, error)
    case UnknownDependency(h, d) =>
      var g := GraphOf(Repair(entries));
      h in g && d in g[h] && d !in g
    case CycleDetected => Cyclic(GraphOf(Repair(entries)))
    case _ => FaultBefore(entries, |entries|, ctx, error)
  }

  /** The order of the report: header, entries, releases, unknown dependencies, cycle. */
  function Phase(error: PlanError): nat {
    match error
    case WrongSchemaVersion(_) => 0
    case WrongProject(_) => 1
    case SponsorViolation(_) => 2
    case EmptyPlan => 3
    case ReleaseNeedsIntegration(_) => 4
    case ReleaseAmbiguous(_, _) => 4
    case UnknownDependency(_, _) => 5
    case CycleDetected => 6
    case _ => 3
  }

  lemma FieldPhase(entries: seq<Entry>, ctx: Context, error: PlanError)
    ensures error in FieldErrors(entries, ctx) <==> FaultBefore(entries, |entries|, ctx, error)
    ensures error in FieldErrors(entries, ctx) ==> Phase(error) == 3 && error != EmptyPlan
  {
    FieldReportedIff(entries, |entries|, ctx, error);
    assert entries[..|entries|] == entries;
  }

  lemma ReleasePhase(entries: seq<Entry>, error: PlanError)
    ensures error in ReleaseErrors(entries) <==> ReleaseFaultBefore(entries, |entries|, error)
    ensures error in ReleaseErrors(entries) ==> Phase(error) == 4
  {
    ReleaseReports(entries, |entries|, error);
    assert entries[..|entries|] == entries;
  }

  lemma UnknownPhase(g: Graph, ids: seq<Name>, error: PlanError)
    requires Distinct(ids) && Elements(ids) == g.Keys && forall h :: h in ids ==> h in g
    ensures error in UnknownErrors(g, ids) <==> error.UnknownDependency? && error.dependent in g && error.dep in g[error.dependent] && error.dep !in g
  {
    if error in UnknownErrors(g, ids) {
      var i :| 0 <= i < |UnknownErrors(g, ids)| && UnknownErrors(g, ids)[i] == error;
      UnknownInKeyOrder(g, ids, i, i);
    }
    if error.UnknownDependency? {
      UnknownReportedIff(g, ids, error.dependent, error.dep);
      assert error.dependent in g <==> error.dependent in Elements(ids);
    }
  }

  lemma JobsReport(entries: seq<Entry>, ctx: Context, error: PlanError)
    requires entries != []
    ensures error in JobErrors(entries, ctx) <==> Phase(error) >= 3 && Justified(Header(1, ctx.project, "approved"), entries, ctx, error)
  {
    var r := Repair(entries);
    var g, ids := GraphOf(r), KeysOf(r);
    KeysMatchGraph(r);
    KeysInGraph(r);
    FieldPhase(entries, ctx, error);
    ReleasePhase(entries, error);
    UnknownPhase(g, ids, error);
    var a, b, c, d := FieldErrors(entries, ctx), ReleaseErrors(entries), UnknownErrors(g, ids), if Cyclic(g) then [CycleDetected] else [];
    InConcat(a, b, error);
    InConcat(a + b, c, error);
    InConcat(a + b + c, d, error);
  }

  /** The validator reports exactly the messages the document justifies. */
  lemma ReportedIffJustified(header: Header, entries: seq<Entry>, ctx: Context, error: PlanError)
    ensures error in PlanErrors(header, entries, ctx) <==> Justified(header, entries, ctx, error)
  {
    assert error in HeaderErrors(header, ctx) <==> Phase(error) <= 2 && Justified(header, entries, ctx, error);
    if entries != [] {
      JobsReport(entries, ctx, error);
    } else {
      assert GraphOf(Repair(entries)) == map[] && Topological(map[], []);
      OrderedIsAcyclic(map[], []);
    }
  }

  ghost predicate InPhases(errors: seq<PlanError>) {
    forall i, j :: 0 <= i < j < |errors| ==> Phase(errors[i]) <= Phase(errors[j])
  }

  lemma PhasesConcat(a: seq<PlanError>, b: seq<PlanError>, p: nat)
    requires InPhases(a) && InPhases(b) && (forall e :: e in a ==> Phase(e) <= p) && (forall e :: e in b ==> Phase(e) >= p)
    ensures InPhases(a + b)
  {
    var all := a + b;
    forall i, j | 0 <= i < j < |all|
      ensures Phase(all[i]) <= Phase(all[j])
    {
      assert i < |a| ==> all[i] in a;
      assert j >= |a| ==> all[j] in b && all[j] == b[j - |a|];
      assert i >= |a| ==> all[i] == b[i - |a|];
    }
  }

  lemma OnePhase(errors: seq<PlanError>, p: nat)
    requires forall e :: e in errors ==> Phase(e) == p
    ensures InPhases(errors)
  {
    assert forall i :: 0 <= i < |errors| ==> errors[i] in errors;
  }

  /** The messages come in the validator's order: header, entries, releases, unknown, cycle. */
  lemma ReportInOrder(header: Header, entries: seq<Entry>, ctx: Context)
    ensures InPhases(PlanErrors(header, entries, ctx))
  {
    assert InPhases(HeaderErrors(header, ctx)) && forall e :: e in HeaderErrors(header, ctx) ==> Phase(e) <= 3;
    JobsInOrder(entries, ctx);
    PhasesConcat(HeaderErrors(header, ctx), JobErrors(entries, ctx), 3);
  }

  lemma JobsInOrder(entries: seq<Entry>, ctx: Context)
    ensures InPhases(JobErrors(entries, ctx)) && forall e :: e in JobErrors(entries, ctx) ==> Phase(e) >= 3
  {
    if entries != [] {
      var r := Repair(entries);
      var g, ids := GraphOf(r), KeysOf(r);
      KeysMatchGraph(r);
      KeysInGraph(r);
      FieldsInPhase(entries, ctx);
      ReleasesInPhase(entries);
      UnknownsInPhase(g, ids);
      var d := if Cyclic(g) then [CycleDetected] else [];
      assert forall e :: e in d ==> Phase(e) == 6;
      FourPhases(FieldErrors(entries, ctx), ReleaseErrors(entries), UnknownErrors(g, ids), d);
      assert JobErrors(entries, ctx) == FieldErrors(entries, ctx) + ReleaseErrors(entries) + UnknownErrors(g, ids) + d;
    }
  }

  lemma FieldsInPhase(entries: seq<Entry>, ctx: Context)
    ensures forall e :: e in FieldErrors(entries, ctx) ==> Phase(e) == 3
  {
    forall e | e in FieldErrors(entries, ctx)
      ensures Phase(e) == 3
    {
      FieldPhase(entries, ctx, e);
    }
  }

  lemma ReleasesInPhase(entries: seq<Entry>)
    ensures forall e :: e in ReleaseErrors(entries) ==> Phase(e) == 4
  {
    forall e | e in ReleaseErrors(entries)
      ensures Phase(e) == 4
    {
      ReleasePhase(entries, e);
    }
  }

  lemma UnknownsInPhase(g: Graph, ids: seq<Name>)
    requires Distinct(ids) && Elements(ids) == g.Keys && forall h :: h in ids ==> h in g
    ensures forall e :: e in UnknownErrors(g, ids) ==> Phase(e) == 5
  {
    forall e | e in UnknownErrors(g, ids)
      ensures Phase(e) == 5
    {
      UnknownPhase(g, ids, e);
    }
  }

  lemma FourPhases(a: seq<PlanError>, b: seq<PlanError>, c: seq<PlanError>, d: seq<PlanError>)
    requires (forall e :: e in a ==> Phase(e) == 3) && (forall e :: e in b ==> Phase(e) == 4)
    requires (forall e :: e in c ==> Phase(e) == 5) && (forall e :: e in d ==> Phase(e) == 6)
    ensures InPhases(a + b + c + d) && forall e :: e in a + b + c + d ==> Phase(e) >= 3
  {
    OnePhase(a, 3);
    OnePhase(b, 4);
    OnePhase(c, 5);
    OnePhase(d, 6);
    PhasesConcat(a, b, 4);
    PhasesConcat(a + b, c, 5);
    PhasesConcat(a + b + c, d, 6);
  }
}
