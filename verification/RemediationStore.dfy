/** Remediation work rows and the cycle numbers they use. */
module RemediationStore {
  import opened Prelude
  import opened Jobs

  datatype Agent =
    | DEVELOPER | DELIVERY_AGENT | RELEASE_AGENT
    | ARCHITECTURE_AGENT | SECURITY_AGENT | QA_AGENT | PM_AGENT

  datatype Work = Work(run: Name, cycle: nat, status: WorkStatus, agent: Agent)

  /** Statuses the cycle count looks at. */
  predicate Counts(s: WorkStatus) {
    s in {WORK_COMPLETED, WORK_FAILED, WORK_RUNNING, WORK_ASSIGNED}
  }

  /** The distinct cycle numbers of a run's counted work. */
  function Cycles(works: seq<Work>, run: Name): set<nat> {
    if works == [] then {}
    else
      var w := works[|works| - 1];
      Cycles(works[..|works| - 1], run) + if w.run == run && Counts(w.status) then {w.cycle} else {}
  }

  function CountCycles(works: seq<Work>, run: Name): nat {
    |Cycles(works, run)|
  }

  // ---------------------------------------------------------------------------
  // Who writes work, and with which number
  // ---------------------------------------------------------------------------

  /** A sponsor directive writes cycle 0, capability and release repairs write cycle 1, and the QA
      loop and the internal-defect route write one more than the distinct count. */
  datatype Numbering = Directive | Repair | NextCycle

  datatype Step =
    | Create(run: Name, numbering: Numbering, agent: Agent)
    | SetStatus(work: nat, status: WorkStatus)

  function NumberFor(works: seq<Work>, run: Name, n: Numbering): nat {
    match n
    case Directive => 0
    case Repair => 1
    case NextCycle => CountCycles(works, run) + 1
  }

  function Apply(works: seq<Work>, step: Step): seq<Work> {
    match step
    case Create(run, n, agent) => works + [Work(run, NumberFor(works, run, n), WORK_ASSIGNED, agent)]
    case SetStatus(i, s) => if i < |works| then works[i := works[i].(status := s)] else works
  }

  function Run(works: seq<Work>, steps: seq<Step>): seq<Work> {
    if steps == [] then works else Apply(Run(works, steps[..|steps| - 1]), steps[|steps| - 1])
  }

  /** Work only ever moves between counted statuses. */
  predicate Counted(step: Step) {
    step.SetStatus? ==> Counts(step.status)
  }

  type CountedStep = step: Step | Counted(step) witness Create(Name(""), Directive, DEVELOPER)

  // ---------------------------------------------------------------------------
  // The numbers in use never exceed their distinct count
  // ---------------------------------------------------------------------------

  ghost predicate AllCounted(works: seq<Work>) {
    forall i :: 0 <= i < |works| ==> Counts(works[i].status)
  }

  ghost predicate NumbersBounded(works: seq<Work>, run: Name) {
    forall c :: c in Cycles(works, run) ==> c <= CountCycles(works, run)
  }

  ghost predicate Inv(works: seq<Work>) {
    AllCounted(works) && forall run :: NumbersBounded(works, run)
  }

  lemma {:induction false} CyclesHave(works: seq<Work>, run: Name, c: nat)
    ensures c in Cycles(works, run) <==> exists i :: 0 <= i < |works| && works[i].run == run && Counts(works[i].status) && works[i].cycle == c
  {
    if works != [] {
      var front := works[..|works| - 1];
      CyclesHave(front, run, c);
      assert forall i :: 0 <= i < |front| ==> front[i] == works[i];
    }
  }

  lemma CyclesAppend(works: seq<Work>, w: Work, run: Name)
    ensures Cycles(works + [w], run) == Cycles(works, run) + if w.run == run && Counts(w.status) then {w.cycle} else {}
  {
    assert (works + [w])[..|works|] == works;
  }

  lemma StatusKeepsCycles(works: seq<Work>, i: nat, s: WorkStatus, run: Name)
    requires i < |works| && Counts(works[i].status) && Counts(s)
    ensures Cycles(works[i := works[i].(status := s)], run) == Cycles(works, run)
  {
    var works' := works[i := works[i].(status := s)];
    forall c
      ensures c in Cycles(works', run) <==> c in Cycles(works, run)
    {
      CyclesHave(works, run, c);
      CyclesHave(works', run, c);
      if k :| 0 <= k < |works| && works[k].run == run && Counts(works[k].status) && works[k].cycle == c {
        assert works'[k].run == run && Counts(works'[k].status) && works'[k].cycle == c;
      }
      if k :| 0 <= k < |works'| && works'[k].run == run && Counts(works'[k].status) && works'[k].cycle == c {
        assert works[k].run == run && Counts(works[k].status) && works[k].cycle == c;
      }
    }
  }

  /** The number the QA loop takes has never been used in the run. */
  lemma NextCycleIsFresh(works: seq<Work>, run: Name)
    requires Inv(works)
    ensures forall i :: 0 <= i < |works| && works[i].run == run ==> works[i].cycle < NumberFor(works, run, NextCycle)
  {
    assert NumbersBounded(works, run);
    forall i | 0 <= i < |works| && works[i].run == run
      ensures works[i].cycle <= CountCycles(works, run)
    {
      CyclesHave(works, run, works[i].cycle);
    }
  }

  lemma CreateKeepsBounds(works: seq<Work>, w: Work, run: Name)
    requires Inv(works) && Counts(w.status)
    requires w.cycle <= 1 || w.cycle == CountCycles(works, w.run) + 1 || w.cycle in Cycles(works, w.run)
    ensures NumbersBounded(works + [w], run)
    ensures CountCycles(works, run) <= CountCycles(works + [w], run)
    ensures w.run == run && w.cycle == CountCycles(works, run) + 1 ==> CountCycles(works + [w], run) == CountCycles(works, run) + 1
  {
    CyclesAppend(works, w, run);
    assert NumbersBounded(works, run);
    SubsetCardinality(Cycles(works, run), Cycles(works + [w], run));
    if w.run == run {
      assert w.cycle in Cycles(works + [w], run);
      if w.cycle == CountCycles(works, run) + 1 {
        assert w.cycle !in Cycles(works, run);
      } else {
        SubsetCardinality({w.cycle}, Cycles(works + [w], run));
      }
    }
  }

  /** Every writer keeps the invariant, and no step lowers any run's count. */
  lemma StepKeepsInv(works: seq<Work>, step: Step)
    requires Inv(works) && Counted(step)
    ensures Inv(Apply(works, step))
    ensures forall run :: CountCycles(works, run) <= CountCycles(Apply(works, step), run)
  {
    var works' := Apply(works, step);
    forall run
      ensures NumbersBounded(works', run) && CountCycles(works, run) <= CountCycles(works', run)
    {
      match step
      case Create(r, n, agent) =>
        CreateKeepsBounds(works, Work(r, NumberFor(works, r, n), WORK_ASSIGNED, agent), run);
      case SetStatus(i, s) =>
        assert NumbersBounded(works, run);
        if i < |works| {
          StatusKeepsCycles(works, i, s, run);
        }
    }
  }

  /** Steps append rows and change statuses; what identifies a row stays. */
  ghost predicate SameRows(works: seq<Work>, works': seq<Work>) {
    |works| <= |works'| && forall i :: 0 <= i < |works| ==> works'[i] == works[i].(status := works'[i].status)
  }

  lemma {:induction false} StepsKeepRows(works: seq<Work>, steps: seq<Step>)
    ensures SameRows(works, Run(works, steps))
  {
    if steps != [] {
      StepsKeepRows(works, steps[..|steps| - 1]);
    }
  }

  /** Over every sequence of counted steps the numbers of a run never exceed their distinct count,
      so the next number is always new and the count never falls. */
  lemma {:induction false} CyclesAlwaysBounded(works: seq<Work>, steps: seq<Step>)
    requires Inv(works) && forall i :: 0 <= i < |steps| ==> Counted(steps[i])
    ensures Inv(Run(works, steps))
    ensures forall run :: CountCycles(works, run) <= CountCycles(Run(works, steps), run)
  {
    if steps != [] {
      CyclesAlwaysBounded(works, steps[..|steps| - 1]);
      StepKeepsInv(Run(works, steps[..|steps| - 1]), steps[|steps| - 1]);
    }
  }

  // ---------------------------------------------------------------------------
  // When a row leaves the counted statuses
  // ---------------------------------------------------------------------------

  /** Another row of the run carries the same number. */
  ghost predicate Shared(works: seq<Work>, i: nat)
    requires i < |works|
  {
    exists k :: 0 <= k < |works| && k != i && works[k].run == works[i].run && works[k].cycle == works[i].cycle
  }

  /** No row of the run carries the number. */
  ghost predicate Unused(works: seq<Work>, run: Name, c: nat) {
    forall k :: 0 <= k < |works| && works[k].run == run ==> works[k].cycle != c
  }

  /** Leaving the counted statuses takes a number away exactly when no other row shares it. */
  lemma UncountedCycles(works: seq<Work>, i: nat, s: WorkStatus)
    requires AllCounted(works) && i < |works| && !Counts(s)
    ensures
      var run := works[i].run;
      Cycles(works[i := works[i].(status := s)], run) == Cycles(works, run) - if Shared(works, i) then {} else {works[i].cycle}
  {
    var works', run := works[i := works[i].(status := s)], works[i].run;
    forall c
      ensures c in Cycles(works', run) <==> c in Cycles(works, run) && (c == works[i].cycle ==> Shared(works, i))
    {
      CyclesHave(works, run, c);
      CyclesHave(works', run, c);
      if k :| 0 <= k < |works'| && works'[k].run == run && Counts(works'[k].status) && works'[k].cycle == c {
        assert k != i && works[k] == works'[k];
      }
      if k :| 0 <= k < |works| && k != i && works[k].run == run && works[k].cycle == c {
        assert works'[k] == works[k];
      }
    }
  }

  /** Once a row leaves the counted statuses, the next number is still unused exactly when the row
      shares its number or no row carries the number that equals the count. */
  lemma UncountedStaysFreshIff(works: seq<Work>, i: nat, s: WorkStatus)
    requires Inv(works) && i < |works| && !Counts(s)
    ensures
      var works', run := Apply(works, SetStatus(i, s)), works[i].run;
      Unused(works', run, NumberFor(works', run, NextCycle)) <==> Shared(works, i) || Unused(works, run, CountCycles(works, run))
  {
    var works', run := Apply(works, SetStatus(i, s)), works[i].run;
    UncountedCycles(works, i, s);
    NextCycleIsFresh(works, run);
    CyclesHave(works, run, works[i].cycle);
    assert works[i].cycle in Cycles(works, run);
    assert forall k :: 0 <= k < |works| ==> works'[k].run == works[k].run && works'[k].cycle == works[k].cycle;
    assert Unused(works', run, NumberFor(works', run, NextCycle)) <==> Unused(works, run, NumberFor(works', run, NextCycle));
  }

  /** No present writer makes this move.  If one did: the only row of its run leaves the counted
      statuses, and its number is handed out again. */
  lemma UncountedWorkReusesItsNumber(run: Name, agent: Agent)
    ensures
      var works := Run([], [Create(run, NextCycle, agent), SetStatus(0, WORK_BLOCKED), Create(run, NextCycle, agent)]);
      |works| == 2 && works[0].cycle == works[1].cycle == 1
  {
    var steps := [Create(run, NextCycle, agent), SetStatus(0, WORK_BLOCKED), Create(run, NextCycle, agent)];
    assert steps[..2][..1] == steps[..1] && steps[..1][..0] == [];
    assert Run([], steps[..1]) == [Work(run, 1, WORK_ASSIGNED, agent)];
    var mid := Run([], steps[..2]);
    assert mid == [Work(run, 1, WORK_BLOCKED, agent)];
    assert mid[..0] == [];
    assert Cycles(mid, run) == {};
  }
}
