/** The closed QA remediation loop: evaluate the gate, collect findings, start a numbered cycle of
    corrective work, retest, and stop on a pass or on one of two limits. */
module Remediation {
  import opened Prelude
  import opened Jobs
  import opened QaTypes
  import opened QaLedger
  import opened RemediationStore
  import opened RemediationCapability
  import opened RemediationLog
  import opened RemediationCycle

  datatype LoopResult =
    | Done(gate: Gate, cycles: nat, escalated: bool, findings: seq<Finding>)
    | Raised

  // ---------------------------------------------------------------------------
  // What the loop looks at
  // ---------------------------------------------------------------------------

  /** The active candidate of the run, else the candidate of the project's newest evidence. */
  function Candidate(db: Db, project: Name, run: Name): Option<Name> {
    if run in db.active then Some(db.active[run]) else LastCandidate(db.ledger.rows, project)
  }

  function CurrentScope(db: Db, project: Name, run: Name): Scope {
    GateScope(project, Candidate(db, project, run), Some(run))
  }

  function CurrentGate(db: Db, project: Name, run: Name): Gate {
    GateOf(Results(db.ledger.rows, CurrentScope(db, project, run)))
  }

  function CurrentFindings(db: Db, project: Name, run: Name, digest: Signature -> Name): seq<Finding> {
    Findings(db.ledger, CurrentScope(db, project, run), digest, |db.ledger.rows|)
  }

  /** Some finding has been addressed as often as allowed. */
  predicate Exhausting(db: Db, run: Name, findings: seq<Finding>, maxSame: int) {
    exists i :: 0 <= i < |findings| && Recurrence(db.events, run, findings[i].fingerprint) >= maxSame
  }

  function Escalated(db: Db, run: Name): Db {
    db.(events := db.events + [LimitReached(run)])
  }

  /** One pass through the loop: the tables it leaves and the result it ends with, if it ends. */
  function TurnAfter(db: Db, digest: Signature -> Name, project: Name, run: Name, cycles: nat, maxSame: int, turn: Turn): (Db, Option<LoopResult>) {
    var gate, findings := CurrentGate(db, project, run), CurrentFindings(db, project, run, digest);
    match gate
    case GATE_INCONCLUSIVE => (Happened(db, turn.retry), Some(if turn.retryRaises then Raised else Done(gate, cycles, false, [])))
    case GATE_FAILED =>
      if Exhausting(db, run, findings, maxSame) then (Escalated(db, run), Some(Done(gate, cycles, true, findings)))
      else (CycleAfter(db, run, cycles + 1, findings, turn), if CycleRaises(findings, turn) then Some(Raised) else None)
    case _ => (db, Some(Done(gate, cycles, false, [])))
  }

  // ---------------------------------------------------------------------------
  // What a result says
  // ---------------------------------------------------------------------------

  /** The finding has been addressed as often as allowed; with an injective digest so many starts addressed
      that very evidence row. */
  ghost predicate Exhausted(db: Db, digest: Signature -> Name, run: Name, maxSame: int, f: Finding) {
    Recurrence(db.events, run, f.fingerprint) >= maxSame && (Injective(digest) ==> RowStarts(db.events, run, f.row) >= maxSame)
  }

  /** The loop is over because a limit was reached: either the run has used up its cycles without
      a passing gate, or the gate failed on a finding already addressed as often as allowed. */
  ghost predicate OverLimit(db: Db, digest: Signature -> Name, project: Name, run: Name, maxCycles: int, maxSame: int, result: LoopResult) {
    && result.Done? && CurrentGate(db, project, run) == result.gate != GATE_PASSED
    && (result.cycles < maxCycles ==>
          && result.gate == GATE_FAILED && result.findings == CurrentFindings(db, project, run, digest)
          && exists i :: 0 <= i < |result.findings| && Exhausted(db, digest, run, maxSame, result.findings[i]))
  }

  /** What the result says about the tables the loop leaves behind. */
  ghost predicate Concludes(db: Db, digest: Signature -> Name, project: Name, run: Name, maxCycles: int, maxSame: int, result: LoopResult) {
    result.Done? ==>
      && result.cycles <= CountCycles(db.works, run)
      && (result.escalated ==> OverLimit(db, digest, project, run, maxCycles, maxSame, result))
      && (!result.escalated ==> result.gate != GATE_FAILED && result.findings == [])
      && (result.gate in {GATE_PASSED, GATE_PENDING} ==> result.gate == CurrentGate(db, project, run))
  }

  lemma ExhaustedRow(db: Db, digest: Signature -> Name, project: Name, run: Name, maxSame: int, i: nat)
    requires Consistent(db, digest) && i < |CurrentFindings(db, project, run, digest)|
    requires Recurrence(db.events, run, CurrentFindings(db, project, run, digest)[i].fingerprint) >= maxSame
    ensures Exhausted(Escalated(db, run), digest, run, maxSame, CurrentFindings(db, project, run, digest)[i])
  {
    var scope, f := CurrentScope(db, project, run), CurrentFindings(db, project, run, digest)[i];
    var db' := Escalated(db, run);
    FindingsAreTraced(db.ledger, scope, digest, |db.ledger.rows|);
    EventAppend(db.events, LimitReached(run));
    LogAppend(db.ledger, db.events, LimitReached(run), digest);
    if Injective(digest) {
      RecurrenceIsOfOneRow(db.ledger, db'.events, run, f, digest);
    }
  }

  /** A failed gate always gives the cycle something to do. */
  lemma FailedGateHasGroups(db: Db, digest: Signature -> Name, project: Name, run: Name)
    requires CurrentGate(db, project, run) == GATE_FAILED
    ensures CurrentFindings(db, project, run, digest) != [] && Groups(CurrentFindings(db, project, run, digest)) != []
  {
    FailedGateHasFinding(db.ledger, CurrentScope(db, project, run), digest, |db.ledger.rows|);
    assert db.ledger.rows[..|db.ledger.rows|] == db.ledger.rows;
    GroupsPartition(CurrentFindings(db, project, run, digest));
  }

  // ---------------------------------------------------------------------------
  // What a turn does
  // ---------------------------------------------------------------------------

  /** A decided gate ends the loop with nothing changed; an inconclusive one after the retry's steps; a failed one on
      an exhausted finding with the limit logged and nothing else; and otherwise a cycle runs on the next
      number, and the loop goes on unless it raised. */
  lemma TurnMeans(db: Db, digest: Signature -> Name, project: Name, run: Name, cycles: nat, maxSame: int, turn: Turn)
    ensures
      var (after, result) := TurnAfter(db, digest, project, run, cycles, maxSame, turn);
      var gate, findings := CurrentGate(db, project, run), CurrentFindings(db, project, run, digest);
      && (gate == GATE_PASSED || gate == GATE_PENDING ==> after == db && result == Some(Done(gate, cycles, false, [])))
      && (gate == GATE_INCONCLUSIVE ==>
          && after.events == db.events && after.ledger == LedgerAfter(db.ledger, turn.retry.ledger)
          && (result == Some(Raised) <==> turn.retryRaises) && (result == Some(Done(gate, cycles, false, [])) <==> !turn.retryRaises))
      && (gate == GATE_FAILED && Exhausting(db, run, findings, maxSame) ==>
          && after.events == db.events + [LimitReached(run)] && after.works == db.works && after.ledger == db.ledger && after.active == db.active
          && result == Some(Done(GATE_FAILED, cycles, true, findings)))
      && (gate == GATE_FAILED && !Exhausting(db, run, findings, maxSame) ==>
          && Cycled(db, after, run, cycles + 1, findings, turn, Reach(Groups(findings), turn, 0))
          && (result == Some(Raised) <==> CycleRaises(findings, turn)) && (result == None <==> !CycleRaises(findings, turn)))
  {
    if CurrentGate(db, project, run) == GATE_FAILED {
      FailedGateHasGroups(db, digest, project, run);
      CycleMeans(db, run, cycles + 1, CurrentFindings(db, project, run, digest), turn);
    }
  }

  /** What the loop has kept and spent since it began. */
  ghost predicate Progress(db0: Db, db: Db, digest: Signature -> Name, run: Name, maxCycles: int, maxSame: int) {
    && Keeps(db0, db, digest) && LogGrows(db0.events, db.events) && Recurs(db0.events, db.events, run, maxSame)
    && 0 <= Starts(db.events, run) - Starts(db0.events, run) <= CountCycles(db.works, run) - CountCycles(db0.works, run)
    && (Starts(db.events, run) > Starts(db0.events, run) ==> Starts(db.events, run) - Starts(db0.events, run) <= maxCycles - CountCycles(db0.works, run))
  }

  /** What one pass keeps and spends: it starts at most one cycle, and then uses a new number. */
  ghost predicate Passed(db: Db, after: Db, digest: Signature -> Name, run: Name, maxSame: int) {
    && Keeps(db, after, digest) && LogGrows(db.events, after.events) && Recurs(db.events, after.events, run, maxSame)
    && (|| Starts(after.events, run) == Starts(db.events, run)
        || (Starts(after.events, run) == Starts(db.events, run) + 1 && CountCycles(after.works, run) > CountCycles(db.works, run)))
  }

  lemma QuietPass(db: Db, after: Db, digest: Signature -> Name, run: Name, maxSame: int)
    requires Keeps(db, after, digest) && after.events == db.events
    ensures Passed(db, after, digest, run, maxSame) && Limits(after.events, run) == Limits(db.events, run)
  {
  }

  lemma EscalationPasses(db: Db, digest: Signature -> Name, run: Name, maxSame: int)
    requires Consistent(db, digest)
    ensures Passed(db, Escalated(db, run), digest, run, maxSame) && Limits(Escalated(db, run).events, run) == Limits(db.events, run) + 1
  {
    EventAppend(db.events, LimitReached(run));
    LogAppend(db.ledger, db.events, LimitReached(run), digest);
    SameLedger(db.ledger);
  }

  lemma CyclePasses(db: Db, digest: Signature -> Name, run: Name, findings: seq<Finding>, maxSame: int, turn: Turn)
    requires Consistent(db, digest) && findings != [] && AllTraced(db.ledger, findings, digest) && !Exhausting(db, run, findings, maxSame)
    ensures
      var cycles := CountCycles(db.works, run);
      var after := CycleAfter(db, run, cycles + 1, findings, turn);
      && Passed(db, after, digest, run, maxSame) && CountCycles(after.works, run) > cycles && Limits(after.events, run) == Limits(db.events, run)
  {
    var cycles := CountCycles(db.works, run);
    CycleKeeps(db, digest, run, cycles + 1, findings, turn);
    StartPasses(db, CycleAfter(db, run, cycles + 1, findings, turn), digest, run, findings, maxSame);
  }

  lemma StartPasses(db: Db, after: Db, digest: Signature -> Name, run: Name, findings: seq<Finding>, maxSame: int)
    requires Keeps(db, after, digest) && LogGrows(db.events, after.events) && OneStart(db.events, after.events, run, findings)
    requires CountCycles(after.works, run) > CountCycles(db.works, run) && !Exhausting(db, run, findings, maxSame)
    ensures Passed(db, after, digest, run, maxSame) && Limits(after.events, run) == Limits(db.events, run)
  {
    OneStartRecurs(db.events, db.events, after.events, run, findings, maxSame);
  }

  /** Every pass keeps the tables valid; one that does not end the loop has used up a new number; one that ends it
      concludes rightly, and logs the limit exactly when it escalates. */
  lemma TurnKeeps(db: Db, digest: Signature -> Name, project: Name, run: Name, maxCycles: int, maxSame: int, turn: Turn)
    requires Consistent(db, digest) && CountCycles(db.works, run) < maxCycles
    ensures
      var (after, result) := TurnAfter(db, digest, project, run, CountCycles(db.works, run), maxSame, turn);
      && Passed(db, after, digest, run, maxSame) && (result.None? ==> CountCycles(after.works, run) > CountCycles(db.works, run))
      && (result.Some? ==> Concludes(after, digest, project, run, maxCycles, maxSame, result.value))
      && Limits(after.events, run) == Limits(db.events, run) + if result.Some? && result.value.Done? && result.value.escalated then 1 else 0
  {
    var cycles, gate, findings := CountCycles(db.works, run), CurrentGate(db, project, run), CurrentFindings(db, project, run, digest);
    if gate == GATE_INCONCLUSIVE {
      HappenedKeeps(db, turn.retry, digest);
      QuietPass(db, Happened(db, turn.retry), digest, run, maxSame);
    } else if gate != GATE_FAILED {
      KeepsItself(db, digest);
      QuietPass(db, db, digest, run, maxSame);
    } else if Exhausting(db, run, findings, maxSame) {
      EscalationPasses(db, digest, run, maxSame);
      var i :| 0 <= i < |findings| && Recurrence(db.events, run, findings[i].fingerprint) >= maxSame;
      ExhaustedRow(db, digest, project, run, maxSame, i);
    } else {
      FailedGateHasGroups(db, digest, project, run);
      FindingsAreTraced(db.ledger, CurrentScope(db, project, run), digest, |db.ledger.rows|);
      CyclePasses(db, digest, run, findings, maxSame, turn);
    }
  }

  lemma ProgressStep(db0: Db, db: Db, after: Db, digest: Signature -> Name, run: Name, maxCycles: int, maxSame: int)
    requires Progress(db0, db, digest, run, maxCycles, maxSame) && CountCycles(db.works, run) < maxCycles && Passed(db, after, digest, run, maxSame)
    ensures Progress(db0, after, digest, run, maxCycles, maxSame)
  {
    LogGrowsTransitive(db0.events, db.events, after.events);
    KeepsTransitive(db0, db, after, digest);
  }

  lemma ProgressAtLimit(db0: Db, db: Db, digest: Signature -> Name, run: Name, maxCycles: int, maxSame: int)
    requires Progress(db0, db, digest, run, maxCycles, maxSame)
    ensures Progress(db0, Escalated(db, run), digest, run, maxCycles, maxSame)
    ensures Limits(Escalated(db, run).events, run) == Limits(db.events, run) + 1
  {
    EscalationPasses(db, digest, run, maxSame);
    LogGrowsTransitive(db0.events, db.events, Escalated(db, run).events);
    KeepsTransitive(db0, db, Escalated(db, run), digest);
  }

  // ---------------------------------------------------------------------------
  // A cure
  // ---------------------------------------------------------------------------

  /** The turn cures the run: the gate has failed on no exhausted finding, every group completes, and
      after the retest the gate passes for the candidate the last group produced. */
  ghost predicate Cures(db: Db, digest: Signature -> Name, project: Name, run: Name, maxSame: int, turn: Turn) {
    var findings := CurrentFindings(db, project, run, digest);
    var groups := Groups(findings);
    && CurrentGate(db, project, run) == GATE_FAILED && !Exhausting(db, run, findings, maxSame)
    && groups != [] && AllComplete(groups, turn, |groups|) && !turn.retestRaises
    && var after := LedgerAfter(db.ledger, ResponseSteps(groups, turn, |groups|) + turn.retest.ledger);
       GateOf(Results(after.rows, GateScope(project, Some(LastProduced(groups, turn)), Some(run)))) == GATE_PASSED
  }

  /** A completed correction whose retest passes leaves a passing gate and goes on to report it. */
  lemma CureShows(db: Db, digest: Signature -> Name, project: Name, run: Name, cycles: nat, maxSame: int, turn: Turn)
    requires Cures(db, digest, project, run, maxSame, turn)
    ensures
      var (after, result) := TurnAfter(db, digest, project, run, cycles, maxSame, turn);
      result == None && CurrentGate(after, project, run) == GATE_PASSED
  {
    var findings := CurrentFindings(db, project, run, digest);
    var groups := Groups(findings);
    CycleMeans(db, run, cycles + 1, findings, turn);
  }

  lemma PassIsOfANewCandidate(db0: Db, db: Db, digest: Signature -> Name, project: Name, run: Name)
    requires Keeps(db0, db, digest)
    ensures CurrentGate(db0, project, run) == GATE_FAILED && CurrentGate(db, project, run) == GATE_PASSED ==>
      Candidate(db, project, run) != Candidate(db0, project, run)
  {
    if CurrentGate(db0, project, run) == GATE_FAILED {
      FailedCandidateNeverPasses(db0.ledger, db.ledger, CurrentScope(db0, project, run));
    }
  }

  // ---------------------------------------------------------------------------
  // The loop
  // ---------------------------------------------------------------------------

  class RemediationDb {
    const digest: Signature -> Name
    var works: seq<Work>
    var events: seq<Event>
    var ledger: Ledger
    var active: map<Name, Name>

    ghost function Now(): Db
      reads this
    {
      Db(works, events, ledger, active)
    }

    constructor (digest: Signature -> Name)
      ensures Consistent(Now(), digest) && this.digest == digest && Now() == Db([], [], EMPTY_LEDGER, map[])
    {
      this.digest := digest;
      works, events, ledger, active := [], [], EMPTY_LEDGER, map[];
    }

    /** What others do meanwhile. */
    method Happen(effects: Effects)
      modifies this
      ensures Now() == Happened(old(Now()), effects)
    {
      works := RemediationStore.Run(works, effects.others);
      ledger := LedgerAfter(ledger, effects.ledger);
      active := active + effects.active;
    }

    method SetStatus(i: nat, status: WorkStatus)
      modifies this`works
      ensures works == Marked(old(works), i, status)
    {
      if i < |works| {
        works := works[i := works[i].(status := status)];
      }
    }

    /** Creates the work row of a group, logs its assignment, runs it, and records how it ended. */
    method ExecuteGroup(run: Name, cycle: nat, group: Group, response: Response)
      modifies this
      ensures Now() == Executed(old(Now()), run, cycle, group, response)
    {
      var i := |works|;
      works := works + [Work.Work(run, cycle, WORK_ASSIGNED, group.agent)];
      events := events + [AgentAssigned(run, cycle, group.agent, group.items)];
      SetStatus(i, if response.result.NoWorker? then WORK_FAILED else WORK_RUNNING);
      Happen(response.effects);
      SetStatus(i, StatusAfter(response.result));
      active := active + if response.result.Completed? then map[run := response.result.candidate] else map[];
    }

    /** One work row per group, until a group does not complete. */
    method CorrectAll(run: Name, cycle: nat, groups: seq<Group>, turn: Turn) returns (completed: bool, raised: bool)
      requires groups != []
      modifies this
      ensures Now() == Corrected(old(Now()), run, cycle, groups, turn, Reach(groups, turn, 0))
      ensures completed <==> AllComplete(groups, turn, |groups|)
      ensures raised <==> WorkerRaises(groups, turn, 0)
    {
      ghost var db := Now();
      NothingReached(db, run, cycle, groups, turn);
      for g := 0 to |groups|
        invariant Reached(db, Now(), run, cycle, groups, turn, g)
      {
        var response := turn.responses(groups[g].agent);
        ReachedNext(db, Now(), run, cycle, groups, turn, g);
        ExecuteGroup(run, cycle, groups[g], response);
        if !response.result.Completed? {
          return false, response.result == WorkRaises;
        }
      }
      ReachedEnd(db, Now(), run, cycle, groups, turn);
      return true, false;
    }

    /** Starts a cycle: one start event, then one work row per group until a group does not complete;
        the retest runs only when all did. */
    method StartCycle(run: Name, findings: seq<Finding>, cycle: nat, turn: Turn) returns (raised: bool)
      requires findings != []
      modifies this
      ensures Now() == CycleAfter(old(Now()), run, cycle, findings, turn)
      ensures raised <==> CycleRaises(findings, turn)
    {
      GroupsPartition(findings);
      events := events + [RemediationStarted(run, cycle, findings)];
      var groups := GroupFindings(findings);
      var completed;
      completed, raised := CorrectAll(run, cycle, groups, turn);
      if completed {
        Happen(turn.retest);
        raised := turn.retestRaises;
        if !raised {
          active := active[run := turn.responses(groups[|groups| - 1].agent).result.candidate];
        }
      }
    }

    /** The gate of the run's current candidate. */
    method EvaluateGate(project: Name, run: Name) returns (scope: Scope, gate: Gate)
      ensures scope == CurrentScope(Now(), project, run) && gate == CurrentGate(Now(), project, run)
    {
      scope := GateScope(project, if run in active then Some(active[run]) else LastCandidate(ledger.rows, project), Some(run));
      var facts := CollectGateFacts(ledger.rows, scope);
      gate := facts.gate;
    }

    /** One pass through the loop. */
    method TakeTurn(project: Name, run: Name, cycles: nat, maxSame: int, turn: Turn) returns (result: Option<LoopResult>)
      modifies this
      ensures (Now(), result) == TurnAfter(old(Now()), digest, project, run, cycles, maxSame, turn)
    {
      var scope, gate := EvaluateGate(project, run);
      if gate == GATE_INCONCLUSIVE {
        Happen(turn.retry);
        return Some(if turn.retryRaises then Raised else Done(gate, cycles, false, []));
      }
      if gate != GATE_FAILED {
        return Some(Done(gate, cycles, false, []));
      }
      var findings := CollectFindings(ledger, scope, digest);
      var hit := FirstRecurring(events, run, findings, maxSame);
      if hit.Some? {
        events := events + [LimitReached(run)];
        return Some(Done(GATE_FAILED, cycles, true, findings));
      }
      var raised := StartCycle(run, findings, cycles + 1, turn);
      return if raised then Some(Raised) else None;
    }

    /** Evaluates the gate and remediates until it passes, cannot be decided, or a limit is reached. */
    method RunQaWithRemediation(project: Name, run: Name, maxCycles: int, maxSame: int, turns: nat -> Turn) returns (result: LoopResult)
      requires Consistent(Now(), digest)
      modifies this
      ensures Progress(old(Now()), Now(), digest, run, maxCycles, maxSame)
      ensures Concludes(Now(), digest, project, run, maxCycles, maxSame, result)
      ensures result.Done? ==> CountCycles(old(works), run) <= result.cycles
      ensures Limits(events, run) == Limits(old(events), run) + if result.Done? && result.escalated then 1 else 0
      ensures CurrentGate(old(Now()), project, run) == GATE_FAILED && result.Done? && result.gate == GATE_PASSED ==>
        Candidate(Now(), project, run) != Candidate(old(Now()), project, run)
      ensures CountCycles(old(works), run) < maxCycles && Cures(old(Now()), digest, project, run, maxSame, turns(0)) ==>
        result.Done? && result.gate == GATE_PASSED && !result.escalated
    {
      var ended := TakeTurns(project, run, maxCycles, maxSame, turns);
      if ended.Some? {
        result := ended.value;
      } else {
        ProgressAtLimit(old(Now()), Now(), digest, run, maxCycles, maxSame);
        result := FinishAtLimit(project, run, maxCycles, maxSame);
      }
      PassIsOfANewCandidate(old(Now()), Now(), digest, project, run);
    }

    /** The loop proper; `None` says that the cycles are used up. */
    method TakeTurns(project: Name, run: Name, maxCycles: int, maxSame: int, turns: nat -> Turn) returns (ended: Option<LoopResult>)
      requires Consistent(Now(), digest)
      modifies this
      ensures Progress(old(Now()), Now(), digest, run, maxCycles, maxSame)
      ensures ended.None? ==> CountCycles(works, run) >= maxCycles
      ensures ended.Some? ==> Concludes(Now(), digest, project, run, maxCycles, maxSame, ended.value)
      ensures ended.Some? && ended.value.Done? ==> CountCycles(old(works), run) <= ended.value.cycles
      ensures Limits(events, run) == Limits(old(events), run) + if ended.Some? && ended.value.Done? && ended.value.escalated then 1 else 0
      ensures CountCycles(old(works), run) < maxCycles && Cures(old(Now()), digest, project, run, maxSame, turns(0)) ==>
        if ended.Some? then ended.value.Done? && ended.value.gate == GATE_PASSED && !ended.value.escalated
        else CurrentGate(Now(), project, run) == GATE_PASSED
    {
      var cycles := CountCycles(works, run);
      var k := 0;
      KeepsItself(Now(), digest);
      while cycles < maxCycles
        invariant cycles == CountCycles(works, run) && Progress(old(Now()), Now(), digest, run, maxCycles, maxSame)
        invariant Limits(events, run) == Limits(old(events), run)
        invariant k == 0 ==> Now() == old(Now())
        invariant k > 0 && Cures(old(Now()), digest, project, run, maxSame, turns(0)) ==> CurrentGate(Now(), project, run) == GATE_PASSED
        decreases maxCycles - cycles
      {
        ghost var db := Now();
        TurnKeeps(db, digest, project, run, maxCycles, maxSame, turns(k));
        TurnMeans(db, digest, project, run, cycles, maxSame, turns(k));
        if Cures(db, digest, project, run, maxSame, turns(k)) {
          CureShows(db, digest, project, run, cycles, maxSame, turns(k));
        }
        ended := TakeTurn(project, run, cycles, maxSame, turns(k));
        ProgressStep(old(Now()), db, Now(), digest, run, maxCycles, maxSame);
        if ended.Some? {
          return;
        }
        k := k + 1;
        cycles := CountCycles(works, run);
      }
      ended := None;
    }

    /** All cycles are used up: pass if the gate does, escalate otherwise. */
    method FinishAtLimit(project: Name, run: Name, maxCycles: int, maxSame: int) returns (result: LoopResult)
      requires CountCycles(works, run) >= maxCycles
      modifies this`events
      ensures result == Done(CurrentGate(old(Now()), project, run), CountCycles(works, run), CurrentGate(old(Now()), project, run) != GATE_PASSED, [])
      ensures Now() == if result.escalated then Escalated(old(Now()), run) else old(Now())
      ensures Concludes(Now(), digest, project, run, maxCycles, maxSame, result)
    {
      var scope, gate := EvaluateGate(project, run);
      result := Done(gate, CountCycles(works, run), gate != GATE_PASSED, []);
      if result.escalated {
        events := events + [LimitReached(run)];
      }
    }
  }
}
