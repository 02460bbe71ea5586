/** What an accepted plan guarantees, and that validation is stable under its own repair. */
module PlanProperties {
  import opened Prelude
  import opened Jobs
  import opened PlanGraph
  import opened PlanValidation

  // ---------------------------------------------------------------------------
  // The repair
  // ---------------------------------------------------------------------------

  lemma {:induction false} IntegrationIdsPreserved(entries: seq<Entry>, ids: seq<Name>)
    ensures IntegrationIds(RepairWith(entries, ids)) == IntegrationIds(entries)
  {
    if entries != [] {
      var n := |entries| - 1;
      IntegrationIdsPreserved(entries[..n], ids);
      assert RepairWith(entries, ids)[..n] == RepairWith(entries[..n], ids);
    }
  }

  lemma {:induction false} IntegrationIdsAre(entries: seq<Entry>, id: Name)
    ensures id in IntegrationIds(entries) <==> exists e :: e in entries && IsIntegration(e) && e.humanId.value == id
  {
    if entries != [] {
      var front, last := entries[..|entries| - 1], entries[|entries| - 1];
      IntegrationIdsAre(front, id);
      assert entries == front + [last];
    }
  }

  /** Repair appends at most one dependency, only to a RELEASE job that named no INTEGRATION
      job, and the appended id is that of the plan's INTEGRATION job. */
  lemma RepairAddsOneReleaseEdge(entries: seq<Entry>, i: nat)
    requires i < |entries|
    ensures |Repair(entries)| == |entries|
    ensures
      var was, now := entries[i], Repair(entries)[i];
      || now == was
      || (&& IsRelease(was) && |now.dependsOn| == |was.dependsOn| + 1
          && now == was.(dependsOn := now.dependsOn) && now.dependsOn[..|was.dependsOn|] == was.dependsOn
          && (exists e :: e in entries && IsIntegration(e) && e.humanId.value == now.dependsOn[|was.dependsOn|])
          && (forall d, e :: d in was.dependsOn && e in entries && IsIntegration(e) ==> e.humanId.value != d))
  {
    var ids := IntegrationIds(entries);
    var was, now := entries[i], Repair(entries)[i];
    if now != was {
      IntegrationIdsAre(entries, ids[0]);
      forall d, e | d in was.dependsOn && e in entries && IsIntegration(e)
        ensures e.humanId.value != d
      {
        IntegrationIdsAre(entries, d);
      }
    }
  }

  lemma RepairIdempotent(entries: seq<Entry>)
    ensures Repair(Repair(entries)) == Repair(entries)
  {
    var ids := IntegrationIds(entries);
    IntegrationIdsPreserved(entries, ids);
    forall i | 0 <= i < |entries|
      ensures RepairEntry(Repair(entries)[i], ids) == Repair(entries)[i]
    {
      var now := Repair(entries)[i];
      if now != entries[i] {
        assert now.dependsOn[|entries[i].dependsOn|] == ids[0] && ids[0] in now.dependsOn;
        assert DependsOnAny(now, ids);
      }
    }
  }

  lemma {:induction false} ReleaseErrorsStable(entries: seq<Entry>, ids: seq<Name>)
    ensures ReleaseErrorsWith(RepairWith(entries, ids), ids) == ReleaseErrorsWith(entries, ids)
  {
    if entries != [] {
      var n := |entries| - 1;
      ReleaseErrorsStable(entries[..n], ids);
      assert RepairWith(entries, ids)[..n] == RepairWith(entries[..n], ids);
    }
  }

  lemma {:induction false} UsableIdsStable(entries: seq<Entry>, ids: seq<Name>)
    ensures UsableIds(RepairWith(entries, ids)) == UsableIds(entries)
  {
    if entries != [] {
      var n := |entries| - 1;
      UsableIdsStable(entries[..n], ids);
      assert RepairWith(entries, ids)[..n] == RepairWith(entries[..n], ids);
    }
  }

  lemma EntryErrorsStable(e: Entry, ids: seq<Name>, n: nat, before: set<Name>, ctx: Context)
    ensures EntryErrors(RepairEntry(e, ids), n, before, ctx) == EntryErrors(e, n, before, ctx)
  {
  }

  lemma {:induction false} FieldErrorsStable(entries: seq<Entry>, ids: seq<Name>, ctx: Context)
    ensures FieldErrors(RepairWith(entries, ids), ctx) == FieldErrors(entries, ctx)
  {
    if entries != [] {
      var n := |entries| - 1;
      var r := RepairWith(entries, ids);
      FieldErrorsStable(entries[..n], ids, ctx);
      UsableIdsStable(entries[..n], ids);
      assert r[..n] == RepairWith(entries[..n], ids);
      EntryErrorsStable(entries[n], ids, n, UsableIds(entries[..n]), ctx);
      assert FieldErrors(r, ctx) == FieldErrors(r[..n], ctx) + EntryErrors(r[n], n, UsableIds(r[..n]), ctx);
    }
  }

  /** Validating the repaired plan again changes nothing and reports the same errors. */
  lemma RevalidationIsStable(header: Header, entries: seq<Entry>, ctx: Context)
    ensures Repair(Repair(entries)) == Repair(entries)
    ensures PlanErrors(header, Repair(entries), ctx) == PlanErrors(header, entries, ctx)
  {
    var ids := IntegrationIds(entries);
    RepairIdempotent(entries);
    IntegrationIdsPreserved(entries, ids);
    ReleaseErrorsStable(entries, ids);
    FieldErrorsStable(entries, ids, ctx);
  }

  // ---------------------------------------------------------------------------
  // Acceptance
  // ---------------------------------------------------------------------------

  /** A plan that can be executed as written: unique usable ids and known queues, no dangling
      dependency, every RELEASE job behind an INTEGRATION job, and an execution order. */
  ghost predicate WellFormedPlan(entries: seq<Entry>) {
    && entries != []
    && FieldsOk(entries)
    && NoDangling(entries)
    && ReleasesAnchored(entries)
    && (exists order :: Topological(GraphOf(entries), order))
  }

  ghost predicate ReleasesAnchored(entries: seq<Entry>) {
    forall i :: 0 <= i < |entries| && IsRelease(entries[i]) ==> DependsOnIntegration(entries, entries[i])
  }

  ghost predicate PlanHas(entries: seq<Entry>, id: Name) {
    exists i :: 0 <= i < |entries| && entries[i].Job? && entries[i].humanId == Some(id)
  }

  ghost predicate DependsOnIntegration(entries: seq<Entry>, e: Entry)
    requires e.Job?
  {
    exists d, i :: 0 <= i < |entries| && d in e.dependsOn && IsIntegration(entries[i]) && entries[i].humanId == Some(d)
  }

  /** Every id is usable and used once, and every queue is known. */
  ghost predicate FieldsOk(entries: seq<Entry>) {
    && (forall i :: 0 <= i < |entries| ==> HasUsableId(entries[i]) && !entries[i].queue.UnknownQueue?)
    && (forall i, j :: 0 <= i < j < |entries| ==> entries[i].humanId != entries[j].humanId)
  }

  /** A header the validator lets through. */
  predicate HeaderOk(header: Header, ctx: Context) {
    header.schemaVersion == SCHEMA_VERSION && header.project == ctx.project && SponsorOk(header.sponsor)
  }

  /** Every job says what it is about, names a known work item if any, and duplicates no active one. */
  predicate Assignable(entries: seq<Entry>, ctx: Context) {
    forall i :: 0 <= i < |entries| && entries[i].Job? ==>
      Specified(entries[i]) && KnownItem(entries[i], ctx) && Unassigned(entries[i], ctx)
  }

  lemma AssignableStep(entries: seq<Entry>, ctx: Context)
    requires entries != []
    ensures
      var n := |entries| - 1;
      Assignable(entries, ctx) <==> Assignable(entries[..n], ctx) && (entries[n].Job? ==> WorkErrors(entries[n], n, ctx) == [])
  {
    var n := |entries| - 1;
    assert forall i :: 0 <= i < n ==> entries[..n][i] == entries[i];
  }

  lemma AssignableStable(entries: seq<Entry>, ctx: Context)
    ensures Assignable(Repair(entries), ctx) <==> Assignable(entries, ctx)
  {
    var r := Repair(entries);
    assert forall i :: 0 <= i < |entries| ==> (r[i].Job? <==> entries[i].Job?);
    assert forall i :: 0 <= i < |entries| && r[i].Job? ==> r[i].queue == entries[i].queue && r[i].workItem == entries[i].workItem;
  }

  lemma {:induction false} FieldErrorsIff(entries: seq<Entry>, ctx: Context)
    ensures FieldErrors(entries, ctx) == [] <==> FieldsOk(entries) && Assignable(entries, ctx)
  {
    if entries != [] {
      var n := |entries| - 1;
      FieldErrorsIff(entries[..n], ctx);
      FieldsOkStep(entries);
      AssignableStep(entries, ctx);
    }
  }

  lemma FieldsOkStep(entries: seq<Entry>)
    requires entries != []
    ensures
      var n := |entries| - 1;
      FieldsOk(entries) <==>
        && FieldsOk(entries[..n]) && HasUsableId(entries[n]) && !entries[n].queue.UnknownQueue?
        && entries[n].humanId.value !in UsableIds(entries[..n])
  {
    var n := |entries| - 1;
    var front := entries[..n];
    assert forall i :: 0 <= i < n ==> front[i] == entries[i];
    if HasUsableId(entries[n]) {
      UsableIdsAre(front, entries[n].humanId.value);
    }
  }

  lemma {:induction false} UsableIdsAre(entries: seq<Entry>, id: Name)
    ensures id in UsableIds(entries) <==>
      exists i :: 0 <= i < |entries| && HasUsableId(entries[i]) && entries[i].humanId.value == id
  {
    if entries != [] {
      var n := |entries| - 1;
      var front := entries[..n];
      UsableIdsAre(front, id);
      assert forall i :: 0 <= i < n ==> front[i] == entries[i];
    }
  }

  lemma {:induction false} GraphHas(entries: seq<Entry>, id: Name)
    ensures id in GraphOf(entries) <==> PlanHas(entries, id)
  {
    if entries != [] {
      var n := |entries| - 1;
      GraphHas(entries[..n], id);
      if PlanHas(entries[..n], id) {
        var i :| 0 <= i < n && entries[..n][i].Job? && entries[..n][i].humanId == Some(id);
        assert entries[i].humanId == Some(id);
      }
      if PlanHas(entries, id) {
        var i :| 0 <= i < |entries| && entries[i].Job? && entries[i].humanId == Some(id);
        if i < n {
          assert entries[..n][i].humanId == Some(id);
        }
      }
    }
  }

  /** With unique ids the dictionary holds every entry's own dependency list. */
  lemma {:induction false} GraphLookup(entries: seq<Entry>, i: nat)
    requires FieldsOk(entries) && i < |entries|
    ensures entries[i].humanId.value in GraphOf(entries)
    ensures GraphOf(entries)[entries[i].humanId.value] == entries[i].dependsOn
  {
    var n := |entries| - 1;
    if i < n {
      GraphLookup(entries[..n], i);
    }
  }

  lemma {:induction false} UnknownOfIff(g: Graph, job: Name, deps: seq<Name>)
    ensures UnknownOf(g, job, deps) == [] <==> forall d :: d in deps ==> d in g
  {
    if deps != [] {
      var front, last := deps[..|deps| - 1], deps[|deps| - 1];
      UnknownOfIff(g, job, front);
      assert deps == front + [last];
    }
  }

  lemma {:induction false} UnknownOfIsNoCycle(g: Graph, job: Name, deps: seq<Name>)
    ensures CycleDetected !in UnknownOf(g, job, deps)
  {
    if deps != [] {
      UnknownOfIsNoCycle(g, job, deps[..|deps| - 1]);
    }
  }

  lemma {:induction false} UnknownErrorsIff(g: Graph, ids: seq<Name>)
    requires forall h :: h in ids ==> h in g
    ensures UnknownErrors(g, ids) == [] <==> forall h, d :: h in ids && d in g[h] ==> d in g
    ensures CycleDetected !in UnknownErrors(g, ids)
  {
    if ids != [] {
      var front, last := ids[..|ids| - 1], ids[|ids| - 1];
      UnknownErrorsIff(g, front);
      UnknownOfIff(g, last, g[last]);
      UnknownOfIsNoCycle(g, last, g[last]);
      assert ids == front + [last];
    }
  }

  /** No dependency list names an id outside the plan. */
  ghost predicate NoDangling(entries: seq<Entry>)
    requires FieldsOk(entries)
  {
    forall i, d :: 0 <= i < |entries| && d in entries[i].dependsOn ==> PlanHas(entries, d)
  }

  lemma DanglingIsReported(entries: seq<Entry>, i: nat, d: Name)
    requires FieldsOk(entries) && i < |entries| && d in entries[i].dependsOn && !PlanHas(entries, d)
    ensures exists h :: h in KeysOf(entries) && h in GraphOf(entries) && d in GraphOf(entries)[h] && d !in GraphOf(entries)
  {
    var h := entries[i].humanId.value;
    KeysMatchGraph(entries);
    GraphLookup(entries, i);
    GraphHas(entries, d);
    assert h in Elements(KeysOf(entries));
    assert d in GraphOf(entries)[h];
  }

  lemma ReportedIsDangling(entries: seq<Entry>, h: Name, d: Name)
    requires FieldsOk(entries) && h in GraphOf(entries) && d in GraphOf(entries)[h] && d !in GraphOf(entries)
    ensures !NoDangling(entries)
  {
    GraphHas(entries, h);
    GraphHas(entries, d);
    var i :| 0 <= i < |entries| && entries[i].Job? && entries[i].humanId == Some(h);
    GraphLookup(entries, i);
    assert d in entries[i].dependsOn;
  }

  lemma NoUnknownIff(entries: seq<Entry>)
    requires FieldsOk(entries)
    ensures forall h :: h in KeysOf(entries) ==> h in GraphOf(entries)
    ensures UnknownErrors(GraphOf(entries), KeysOf(entries)) == [] <==> NoDangling(entries)
  {
    var g, ids := GraphOf(entries), KeysOf(entries);
    KeysInGraph(entries);
    UnknownErrorsIff(g, ids);
    if !NoDangling(entries) {
      var i, d :| 0 <= i < |entries| && d in entries[i].dependsOn && !PlanHas(entries, d);
      DanglingIsReported(entries, i, d);
    }
    if UnknownErrors(g, ids) != [] {
      var h, d :| h in ids && d in g[h] && d !in g;
      ReportedIsDangling(entries, h, d);
    }
  }

  lemma {:induction false} ReleaseErrorsIff(entries: seq<Entry>, ids: seq<Name>)
    ensures ReleaseErrorsWith(entries, ids) == [] <==>
      forall i :: 0 <= i < |entries| ==> ReleaseEntryErrors(entries[i], ids) == []
  {
    if entries != [] {
      var n := |entries| - 1;
      ReleaseErrorsIff(entries[..n], ids);
      assert forall i :: 0 <= i < n ==> entries[..n][i] == entries[i];
    }
  }

  lemma {:induction false} ReleaseErrorsAreNoCycle(entries: seq<Entry>, ids: seq<Name>)
    ensures CycleDetected !in ReleaseErrorsWith(entries, ids)
  {
    if entries != [] {
      ReleaseErrorsAreNoCycle(entries[..|entries| - 1], ids);
      assert CycleDetected !in ReleaseEntryErrors(entries[|entries| - 1], ids);
    }
  }

  /** After repair a RELEASE job reports no error exactly when it depends on an INTEGRATION job. */
  lemma ReleaseRepairedIff(entries: seq<Entry>, i: nat)
    requires i < |entries|
    ensures ReleaseEntryErrors(entries[i], IntegrationIds(entries)) == [] <==>
      (IsRelease(entries[i]) ==> DependsOnIntegration(Repair(entries), Repair(entries)[i]))
  {
    var ids, r := IntegrationIds(entries), Repair(entries);
    IntegrationIdsPreserved(entries, ids);
    if IsRelease(entries[i]) {
      DependsOnIntegrationIff(r, r[i]);
      if r[i] != entries[i] {
        assert r[i].dependsOn[|entries[i].dependsOn|] == ids[0] && ids[0] in r[i].dependsOn;
        assert DependsOnAny(r[i], ids);
      }
    }
  }

  lemma DependsOnIntegrationIff(entries: seq<Entry>, e: Entry)
    requires e.Job?
    ensures DependsOnIntegration(entries, e) <==> DependsOnAny(e, IntegrationIds(entries))
  {
    var ids := IntegrationIds(entries);
    if DependsOnIntegration(entries, e) {
      var d, i :| 0 <= i < |entries| && d in e.dependsOn && IsIntegration(entries[i]) && entries[i].humanId == Some(d);
      IntegrationIdsAre(entries, d);
    }
    if DependsOnAny(e, ids) {
      var d :| d in e.dependsOn && d in ids;
      IntegrationIdsAre(entries, d);
      var x :| x in entries && IsIntegration(x) && x.humanId.value == d;
      var i :| 0 <= i < |entries| && entries[i] == x;
    }
  }

  lemma AcyclicIffOrdered(g: Graph)
    ensures !Cyclic(g) <==> exists order :: Topological(g, order)
  {
    if order :| Topological(g, order) {
      OrderedIsAcyclic(g, order);
    }
    if !Cyclic(g) {
      var order := PeelAll(g, []);
    }
  }

  /** Without a cycle some open job waits for nothing open, so the peeling goes on to the end. */
  lemma PeelAll(g: Graph, done: seq<Name>) returns (order: seq<Name>)
    requires !Cyclic(g) && Peeled(g, done)
    ensures Topological(g, order)
    decreases |g| - |done|
  {
    DoneIsBounded(g, done);
    var open := g.Keys - Elements(done);
    if open == {} {
      assert g.Keys <= Elements(done) by {
        forall h | h in g.Keys
          ensures h in Elements(done)
        {
          assert h !in open;
        }
      }
      return done;
    }
    if Stuck(g, open) {
      StuckIsCyclic(g, open);
      assert false;
    }
    var h :| h in open && !Waits(g, open, h);
    var next := done + [h];
    forall i, d | 0 <= i < |next| && Edge(g, next[i], d)
      ensures d in next[..i]
    {
      assert i < |done| ==> next[..i] == done[..i];
      assert i == |done| ==> next[..i] == done;
    }
    DoneIsBounded(g, next);
    order := PeelAll(g, next);
  }

  /** The validator accepts a plan exactly when its header is in order, its jobs can be assigned, and
      its repaired form can be executed as written. */
  lemma AcceptedIffWellFormed(header: Header, entries: seq<Entry>, ctx: Context)
    ensures PlanErrors(header, entries, ctx) == [] <==>
      HeaderOk(header, ctx) && Assignable(entries, ctx) && WellFormedPlan(Repair(entries))
  {
    JobsAcceptedIff(entries, ctx);
  }

  lemma JobsAcceptedIff(entries: seq<Entry>, ctx: Context)
    ensures JobErrors(entries, ctx) == [] <==> Assignable(entries, ctx) && WellFormedPlan(Repair(entries))
  {
    if entries != [] {
      var r := Repair(entries);
      FieldErrorsStable(entries, IntegrationIds(entries), ctx);
      FieldErrorsIff(r, ctx);
      AssignableStable(entries, ctx);
      AnchoredIff(entries);
      AcyclicIffOrdered(GraphOf(r));
      KeysInGraph(r);
      if FieldsOk(r) {
        NoUnknownIff(r);
      }
    }
  }

  lemma AnchoredIff(entries: seq<Entry>)
    ensures ReleaseErrors(entries) == [] <==> ReleasesAnchored(Repair(entries))
  {
    var ids, r := IntegrationIds(entries), Repair(entries);
    ReleaseErrorsIff(entries, ids);
    forall i | 0 <= i < |entries|
      ensures ReleaseEntryErrors(entries[i], ids) == [] <==> (IsRelease(r[i]) ==> DependsOnIntegration(r, r[i]))
    {
      ReleaseRepairedIff(entries, i);
    }
  }

  lemma {:induction false} FieldErrorsAreNoCycle(entries: seq<Entry>, ctx: Context)
    ensures CycleDetected !in FieldErrors(entries, ctx)
  {
    if entries != [] {
      var n := |entries| - 1;
      FieldErrorsAreNoCycle(entries[..n], ctx);
      EntryErrorsAreNoCycle(entries[n], n, UsableIds(entries[..n]), ctx);
    }
  }

  lemma EntryErrorsAreNoCycle(e: Entry, n: nat, before: set<Name>, ctx: Context)
    ensures CycleDetected !in EntryErrors(e, n, before, ctx)
  {
    if e.Job? {
      assert CycleDetected !in WorkErrors(e, n, ctx);
    }
  }

  /** "cycle detected" is reported exactly when the repaired dependency graph has a cycle. */
  lemma CycleReportedIff(header: Header, entries: seq<Entry>, ctx: Context)
    ensures CycleDetected in PlanErrors(header, entries, ctx) <==> Cyclic(GraphOf(Repair(entries)))
  {
    assert CycleDetected !in HeaderErrors(header, ctx);
    if entries == [] {
      var g := GraphOf(Repair(entries));
      assert Topological(g, []);
      OrderedIsAcyclic(g, []);
    } else {
      FieldErrorsAreNoCycle(entries, ctx);
      ReleaseErrorsAreNoCycle(entries, IntegrationIds(entries));
      KeysInGraph(Repair(entries));
      UnknownErrorsIff(GraphOf(Repair(entries)), KeysOf(Repair(entries)));
    }
  }
}
