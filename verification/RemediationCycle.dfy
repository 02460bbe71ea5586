/** A remediation cycle as a function of what its turn brings, and what every cycle keeps. */
module RemediationCycle {
  import opened Prelude
  import opened Jobs
  import opened QaTypes
  import opened QaLedger
  import opened RemediationStore
  import opened RemediationCapability
  import opened RemediationLog

  // ---------------------------------------------------------------------------
  // What the loop's surroundings do
  // ---------------------------------------------------------------------------

  /** Everything else that happens while a worker runs or a retest executes: other writers create or
      update remediation work, ledger steps run, and runs change their active candidate. */
  datatype Effects = Effects(others: seq<CountedStep>, ledger: seq<QaLedger.Step>, active: map<Name, Name>)

  datatype WorkResult =
    | Completed(candidate: Name) | NotCompleted | Unavailable | NoWorker | WorkRaises

  datatype Response = Response(result: WorkResult, effects: Effects)

  /** One turn of the loop: how each executing agent responds, what the retest does, and what
      scheduling an assurance retry does when the gate is inconclusive. */
  datatype Turn = Turn(
    responses: Agent -> Response, retest: Effects, retestRaises: bool, retry: Effects, retryRaises: bool)

  function StatusAfter(result: WorkResult): WorkStatus {
    match result
    case Completed(_) => WORK_COMPLETED
    case Unavailable => WORK_RUNNING
    case _ => WORK_FAILED
  }

  /** The active candidate of the run, else the candidate of the project's newest evidence. */
  function LastCandidate(rows: seq<Row>, project: Name): Option<Name> {
    if rows == [] then None
    else if rows[|rows| - 1].project == project then Some(rows[|rows| - 1].candidate)
    else LastCandidate(rows[..|rows| - 1], project)
  }

  // ---------------------------------------------------------------------------
  // What a cycle makes of its turn
  // ---------------------------------------------------------------------------

  function ResponseTo(turn: Turn, group: Group): Response {
    turn.responses(group.agent)
  }

  /** The ledger steps of the responses to the first `n` groups, in group order. */
  function ResponseSteps(groups: seq<Group>, turn: Turn, n: nat): seq<QaLedger.Step>
    requires n <= |groups|
  {
    if n == 0 then [] else ResponseSteps(groups, turn, n - 1) + ResponseTo(turn, groups[n - 1]).effects.ledger
  }

  /** One assignment per group, in group order. */
  function Assignments(run: Name, cycle: nat, groups: seq<Group>, n: nat): seq<Event>
    requires n <= |groups|
  {
    if n == 0 then [] else Assignments(run, cycle, groups, n - 1) + [AgentAssigned(run, cycle, groups[n - 1].agent, groups[n - 1].items)]
  }

  /** The runs' active candidates after the first `n` groups: a completed correction becomes the run's. */
  function ActiveAfter(active: map<Name, Name>, run: Name, groups: seq<Group>, turn: Turn, n: nat): map<Name, Name>
    requires n <= |groups|
  {
    if n == 0 then active
    else
      var r := ResponseTo(turn, groups[n - 1]);
      (ActiveAfter(active, run, groups, turn, n - 1) + r.effects.active) + if r.result.Completed? then map[run := r.result.candidate] else map[]
  }

  predicate Completes(groups: seq<Group>, turn: Turn, k: nat)
    requires k < |groups|
  {
    ResponseTo(turn, groups[k]).result.Completed?
  }

  /** The first `n` groups complete. */
  predicate AllComplete(groups: seq<Group>, turn: Turn, n: nat)
    requires n <= |groups|
  {
    n == 0 || (AllComplete(groups, turn, n - 1) && Completes(groups, turn, n - 1))
  }

  lemma {:induction false} AllCompleteIff(groups: seq<Group>, turn: Turn, n: nat)
    requires n <= |groups|
    ensures AllComplete(groups, turn, n) <==> forall k :: 0 <= k < n ==> Completes(groups, turn, k)
  {
    if n > 0 {
      AllCompleteIff(groups, turn, n - 1);
    }
  }

  /** If a group does not complete, not all do. */
  lemma {:induction false} Incomplete(groups: seq<Group>, turn: Turn, k: nat, n: nat)
    requires k < n <= |groups| && !Completes(groups, turn, k)
    ensures !AllComplete(groups, turn, n)
  {
    if k < n - 1 {
      Incomplete(groups, turn, k, n - 1);
    }
  }

  // ---------------------------------------------------------------------------
  // Work rows
  // ---------------------------------------------------------------------------

  /** The run's count never falls and the numbers stay within it. */
  ghost predicate Advances(before: seq<Work>, after: seq<Work>) {
    Inv(after) && forall run :: CountCycles(before, run) <= CountCycles(after, run)
  }

  lemma OthersAdvance(works: seq<Work>, others: seq<CountedStep>)
    requires Inv(works)
    ensures Advances(works, RemediationStore.Run(works, others))
  {
    CyclesAlwaysBounded(works, others);
  }

  /** Creating a row with a fresh or an already used number keeps the invariant and uses the number. */
  lemma CreateAdvances(works: seq<Work>, w: Work)
    requires Inv(works) && Counts(w.status)
    requires w.cycle == CountCycles(works, w.run) + 1 || w.cycle in Cycles(works, w.run)
    ensures Advances(works, works + [w]) && w.cycle in Cycles(works + [w], w.run)
  {
    forall run
      ensures NumbersBounded(works + [w], run) && CountCycles(works, run) <= CountCycles(works + [w], run)
    {
      CreateKeepsBounds(works, w, run);
    }
    CyclesAppend(works, w, w.run);
  }

  lemma StatusAdvances(works: seq<Work>, i: nat, s: WorkStatus)
    requires Inv(works) && i < |works| && Counts(s)
    ensures Advances(works, works[i := works[i].(status := s)])
    ensures forall run :: Cycles(works[i := works[i].(status := s)], run) == Cycles(works, run)
  {
    StepKeepsInv(works, RemediationStore.SetStatus(i, s));
    forall run
      ensures Cycles(works[i := works[i].(status := s)], run) == Cycles(works, run)
    {
      StatusKeepsCycles(works, i, s, run);
    }
  }

  /** Counted steps only ever add numbers. */
  lemma {:induction false} OthersKeepNumbers(works: seq<Work>, others: seq<CountedStep>, run: Name)
    requires Inv(works)
    ensures Cycles(works, run) <= Cycles(RemediationStore.Run(works, others), run)
  {
    if others != [] {
      var front, last := others[..|others| - 1], others[|others| - 1];
      OthersKeepNumbers(works, front, run);
      OthersAdvance(works, front);
      var mid := RemediationStore.Run(works, front);
      match last
      case Create(r, n, agent) => CyclesAppend(mid, Work.Work(r, NumberFor(mid, r, n), WORK_ASSIGNED, agent), run);
      case SetStatus(i, s) =>
        if i < |mid| {
          StatusKeepsCycles(mid, i, s, run);
        }
    }
  }

  /** The work rows once a group's row has been created, run and settled. */
  function WorksAfter(works: seq<Work>, run: Name, cycle: nat, agent: Agent, response: Response): seq<Work> {
    var i := |works|;
    var created := works + [Work.Work(run, cycle, WORK_ASSIGNED, agent)];
    var started := Marked(created, i, if response.result.NoWorker? then WORK_FAILED else WORK_RUNNING);
    Marked(RemediationStore.Run(started, response.effects.others), i, StatusAfter(response.result))
  }

  function Marked(works: seq<Work>, i: nat, status: WorkStatus): seq<Work> {
    if i < |works| then works[i := works[i].(status := status)] else works
  }

  /** The group's row is the run's, on its number and for its agent, and its status tells how the work ended;
      the rows before it are the same but for their statuses. */
  ghost predicate Settled(works: seq<Work>, works': seq<Work>, run: Name, cycle: nat, agent: Agent, result: WorkResult) {
    && SameRows(works, works') && |works| < |works'|
    && var w := works'[|works|];
       && w.run == run && w.cycle == cycle && w.agent == agent
       && (w.status == WORK_COMPLETED <==> result.Completed?) && (w.status == WORK_RUNNING <==> result == Unavailable)
       && (w.status == WORK_FAILED <==> result in {NotCompleted, NoWorker, WorkRaises})
  }

  lemma AdvancesTransitive(a: seq<Work>, b: seq<Work>, c: seq<Work>)
    requires Advances(a, b) && Advances(b, c)
    ensures Advances(a, c)
  {
  }

  lemma MarkedAdvances(works: seq<Work>, i: nat, status: WorkStatus, run: Name)
    requires Inv(works) && Counts(status)
    ensures Advances(works, Marked(works, i, status)) && Cycles(Marked(works, i, status), run) == Cycles(works, run)
    ensures SameRows(works, Marked(works, i, status))
  {
    if i < |works| {
      StatusAdvances(works, i, status);
    }
  }

  lemma SettledFollows(works: seq<Work>, run: Name, cycle: nat, agent: Agent, response: Response)
    requires Inv(works) && (cycle == CountCycles(works, run) + 1 || cycle in Cycles(works, run))
    ensures
      var after := WorksAfter(works, run, cycle, agent, response);
      Advances(works, after) && cycle in Cycles(after, run) && Settled(works, after, run, cycle, agent, response.result)
  {
    var i, w := |works|, Work.Work(run, cycle, WORK_ASSIGNED, agent);
    var created := works + [w];
    var started := Marked(created, i, if response.result.NoWorker? then WORK_FAILED else WORK_RUNNING);
    var ran := RemediationStore.Run(started, response.effects.others);
    CreateAdvances(works, w);
    MarkedAdvances(created, i, if response.result.NoWorker? then WORK_FAILED else WORK_RUNNING, run);
    OthersAdvance(started, response.effects.others);
    OthersKeepNumbers(started, response.effects.others, run);
    StepsKeepRows(started, response.effects.others);
    MarkedAdvances(ran, i, StatusAfter(response.result), run);
    AdvancesTransitive(works, created, started);
    AdvancesTransitive(works, started, ran);
    AdvancesTransitive(works, ran, Marked(ran, i, StatusAfter(response.result)));
    assert started[i].run == run && started[i].cycle == cycle && started[i].agent == agent;
    assert ran[i] == started[i].(status := ran[i].status);
  }

  // ---------------------------------------------------------------------------
  // What one cycle adds to the log
  // ---------------------------------------------------------------------------

  /** The assignment goes to an executing agent and carries only that agent's findings. */
  ghost predicate GoodAssignment(e: Event) {
    e.AgentAssigned? ==> e.items != [] && !AssessorAgent(e.agent) && forall f :: f in e.items ==> AssignedAgent(f) == e.agent
  }

  /** The log only grows, and every assignment added is a good one. */
  ghost predicate LogGrows(before: seq<Event>, after: seq<Event>) {
    before <= after && forall i :: |before| <= i < |after| ==> GoodAssignment(after[i])
  }

  /** No new start and no new limit: what assigning groups does to the counters. */
  ghost predicate SameCounters(before: seq<Event>, after: seq<Event>) {
    && (forall r, fp :: Recurrence(after, r, fp) == Recurrence(before, r, fp))
    && (forall r :: Starts(after, r) == Starts(before, r) && Limits(after, r) == Limits(before, r))
  }

  /** Exactly one start, of this run, addressing exactly these findings. */
  ghost predicate OneStart(before: seq<Event>, after: seq<Event>, run: Name, findings: seq<Finding>) {
    && (forall r, fp :: Recurrence(after, r, fp) == Recurrence(before, r, fp) + if r == run && Mentions(findings, fp) then 1 else 0)
    && (forall r :: Starts(after, r) == Starts(before, r) + if r == run then 1 else 0)
    && (forall r :: Limits(after, r) == Limits(before, r))
  }

  lemma AssignedKeepsCounters(before: seq<Event>, events: seq<Event>, e: Event)
    requires e.AgentAssigned? && GoodAssignment(e) && LogGrows(before, events) && SameCounters(before, events)
    ensures LogGrows(before, events + [e]) && SameCounters(before, events + [e])
  {
    EventAppend(events, e);
  }

  lemma OneStartFollows(before: seq<Event>, after: seq<Event>, run: Name, cycle: nat, findings: seq<Finding>)
    requires
      var started := before + [RemediationStarted(run, cycle, findings)];
      LogGrows(started, after) && SameCounters(started, after)
    ensures LogGrows(before, after) && OneStart(before, after, run, findings)
  {
    var started := before + [RemediationStarted(run, cycle, findings)];
    EventAppend(before, RemediationStarted(run, cycle, findings));
    LogGrowsTransitive(before, started, after);
  }

  lemma LogGrowsTransitive(a: seq<Event>, b: seq<Event>, c: seq<Event>)
    requires LogGrows(a, b) && LogGrows(b, c)
    ensures LogGrows(a, c)
  {
    forall i | |a| <= i < |c|
      ensures GoodAssignment(c[i])
    {
      if i < |b| {
        assert c[i] == b[i];
      }
    }
  }

  /** Only this run's recurrences grow, and none of them past the limit. */
  ghost predicate Recurs(before: seq<Event>, after: seq<Event>, run: Name, limit: int) {
    forall r, fp :: Recurrence(after, r, fp) == Recurrence(before, r, fp) || (r == run && Recurrence(after, r, fp) <= limit)
  }

  lemma OneStartRecurs(start: seq<Event>, before: seq<Event>, after: seq<Event>, run: Name, findings: seq<Finding>, limit: int)
    requires Recurs(start, before, run, limit)
    requires forall i :: 0 <= i < |findings| ==> Recurrence(before, run, findings[i].fingerprint) < limit
    requires OneStart(before, after, run, findings)
    ensures Recurs(start, after, run, limit)
  {
    forall r, fp
      ensures Recurrence(after, r, fp) == Recurrence(start, r, fp) || (r == run && Recurrence(after, r, fp) <= limit)
    {
      if r == run && Mentions(findings, fp) {
        var i :| 0 <= i < |findings| && findings[i].fingerprint == fp;
        assert Recurrence(before, run, findings[i].fingerprint) < limit;
      }
    }
  }

  // ---------------------------------------------------------------------------
  // The tables
  // ---------------------------------------------------------------------------

  /** The tables the loop works on. */
  datatype Db = Db(works: seq<Work>, events: seq<Event>, ledger: Ledger, active: map<Name, Name>)

  /** Cycle numbers stay within their count, the ledger is one the control plane can reach, and every
      logged start is about findings taken from it. */
  ghost predicate Consistent(db: Db, digest: Signature -> Name) {
    Inv(db.works) && Sane(db.ledger) && LogTraced(db.ledger, db.events, digest)
  }

  /** The count never falls and evidence is never rewritten. */
  ghost predicate Keeps(before: Db, after: Db, digest: Signature -> Name) {
    Consistent(after, digest) && Advances(before.works, after.works) && Kept(before.ledger, after.ledger)
  }

  lemma KeepsTransitive(a: Db, b: Db, c: Db, digest: Signature -> Name)
    requires Keeps(a, b, digest) && Keeps(b, c, digest)
    ensures Keeps(a, c, digest)
  {
    AdvancesTransitive(a.works, b.works, c.works);
    KeptTransitive(a.ledger, b.ledger, c.ledger);
  }

  lemma KeepsItself(db: Db, digest: Signature -> Name)
    requires Consistent(db, digest)
    ensures Keeps(db, db, digest)
  {
    SameLedger(db.ledger);
  }

  function Happened(db: Db, e: Effects): Db {
    Db(RemediationStore.Run(db.works, e.others), db.events, LedgerAfter(db.ledger, e.ledger), db.active + e.active)
  }

  lemma HappenedKeeps(db: Db, e: Effects, digest: Signature -> Name)
    requires Consistent(db, digest)
    ensures Keeps(db, Happened(db, e), digest)
    ensures forall run :: Cycles(db.works, run) <= Cycles(Happened(db, e).works, run)
  {
    OthersAdvance(db.works, e.others);
    LedgerIsKept(db.ledger, e.ledger);
    LogIsKept(db.ledger, LedgerAfter(db.ledger, e.ledger), db.events, digest);
    forall run
      ensures Cycles(db.works, run) <= Cycles(Happened(db, e).works, run)
    {
      OthersKeepNumbers(db.works, e.others, run);
    }
  }

  // ---------------------------------------------------------------------------
  // The cycle
  // ---------------------------------------------------------------------------

  function Assignment(run: Name, cycle: nat, group: Group): Event {
    AgentAssigned(run, cycle, group.agent, group.items)
  }

  /** A group's work is created, assigned, run and settled. */
  function Executed(db: Db, run: Name, cycle: nat, group: Group, response: Response): Db {
    Db(WorksAfter(db.works, run, cycle, group.agent, response),
       db.events + [Assignment(run, cycle, group)],
       LedgerAfter(db.ledger, response.effects.ledger),
       (db.active + response.effects.active) + if response.result.Completed? then map[run := response.result.candidate] else map[])
  }

  function Corrected(db: Db, run: Name, cycle: nat, groups: seq<Group>, turn: Turn, n: nat): Db
    requires n <= |groups|
  {
    if n == 0 then db else Executed(Corrected(db, run, cycle, groups, turn, n - 1), run, cycle, groups[n - 1], ResponseTo(turn, groups[n - 1]))
  }

  /** How far the groups are worked through, from group `k` on: to the end, or up to and including the
      first that does not complete. */
  function Reach(groups: seq<Group>, turn: Turn, k: nat): (m: nat)
    requires k <= |groups|
    ensures k <= m <= |groups|
    decreases |groups| - k
  {
    if k == |groups| then k else if !Completes(groups, turn, k) then k + 1 else Reach(groups, turn, k + 1)
  }

  /** The candidate the last group produced. */
  function LastProduced(groups: seq<Group>, turn: Turn): Name
    requires groups != [] && AllComplete(groups, turn, |groups|)
  {
    ResponseTo(turn, groups[|groups| - 1]).result.candidate
  }

  function Started(db: Db, run: Name, cycle: nat, findings: seq<Finding>): Db {
    db.(events := db.events + [RemediationStarted(run, cycle, findings)])
  }

  function Retested(db: Db, run: Name, candidate: Name, turn: Turn): Db {
    var r := Happened(db, turn.retest);
    if turn.retestRaises then r else r.(active := r.active[run := candidate])
  }

  function CycleAfter(db: Db, run: Name, cycle: nat, findings: seq<Finding>, turn: Turn): Db {
    var groups := Groups(findings);
    var worked := Corrected(Started(db, run, cycle, findings), run, cycle, groups, turn, Reach(groups, turn, 0));
    if groups != [] && AllComplete(groups, turn, |groups|) then Retested(worked, run, LastProduced(groups, turn), turn) else worked
  }

  predicate CycleRaises(findings: seq<Finding>, turn: Turn) {
    var groups := Groups(findings);
    groups != [] && if AllComplete(groups, turn, |groups|) then turn.retestRaises else WorkerRaises(groups, turn, 0)
  }

  /** From group `k` on, the first group that does not complete raises. */
  predicate WorkerRaises(groups: seq<Group>, turn: Turn, k: nat)
    requires k <= |groups|
    decreases |groups| - k
  {
    k < |groups| && if !Completes(groups, turn, k) then ResponseTo(turn, groups[k]).result == WorkRaises else WorkerRaises(groups, turn, k + 1)
  }

  /** The first `g` groups have been worked through and completed. */
  ghost predicate Reached(db: Db, now: Db, run: Name, cycle: nat, groups: seq<Group>, turn: Turn, g: nat)
    requires g <= |groups|
  {
    && now == Corrected(db, run, cycle, groups, turn, g) && AllComplete(groups, turn, g)
    && Reach(groups, turn, g) == Reach(groups, turn, 0) && WorkerRaises(groups, turn, g) == WorkerRaises(groups, turn, 0)
  }

  lemma NothingReached(db: Db, run: Name, cycle: nat, groups: seq<Group>, turn: Turn)
    ensures Reached(db, db, run, cycle, groups, turn, 0)
  {
  }

  lemma ReachedStep(db: Db, now: Db, run: Name, cycle: nat, groups: seq<Group>, turn: Turn, g: nat)
    requires g < |groups| && Reached(db, now, run, cycle, groups, turn, g) && Completes(groups, turn, g)
    ensures Reached(db, Executed(now, run, cycle, groups[g], ResponseTo(turn, groups[g])), run, cycle, groups, turn, g + 1)
  {
  }

  lemma ReachedStop(db: Db, now: Db, run: Name, cycle: nat, groups: seq<Group>, turn: Turn, g: nat)
    requires g < |groups| && Reached(db, now, run, cycle, groups, turn, g) && !Completes(groups, turn, g)
    ensures Executed(now, run, cycle, groups[g], ResponseTo(turn, groups[g])) == Corrected(db, run, cycle, groups, turn, Reach(groups, turn, 0))
    ensures !AllComplete(groups, turn, |groups|) && (ResponseTo(turn, groups[g]).result == WorkRaises <==> WorkerRaises(groups, turn, 0))
  {
    Incomplete(groups, turn, g, |groups|);
  }

  /** A completed group leads on to the next one, and any other ends the cycle. */
  lemma ReachedNext(db: Db, now: Db, run: Name, cycle: nat, groups: seq<Group>, turn: Turn, g: nat)
    requires g < |groups| && Reached(db, now, run, cycle, groups, turn, g)
    ensures
      var r := ResponseTo(turn, groups[g]);
      var next := Executed(now, run, cycle, groups[g], r);
      && (r.result.Completed? ==> Reached(db, next, run, cycle, groups, turn, g + 1))
      && (!r.result.Completed? ==>
          && next == Corrected(db, run, cycle, groups, turn, Reach(groups, turn, 0))
          && !AllComplete(groups, turn, |groups|) && (r.result == WorkRaises <==> WorkerRaises(groups, turn, 0)))
  {
    if Completes(groups, turn, g) {
      ReachedStep(db, now, run, cycle, groups, turn, g);
    } else {
      ReachedStop(db, now, run, cycle, groups, turn, g);
    }
  }

  lemma ReachedEnd(db: Db, now: Db, run: Name, cycle: nat, groups: seq<Group>, turn: Turn)
    requires Reached(db, now, run, cycle, groups, turn, |groups|)
    ensures now == Corrected(db, run, cycle, groups, turn, Reach(groups, turn, 0)) && !WorkerRaises(groups, turn, 0)
  {
  }

  // ---------------------------------------------------------------------------
  // What a cycle keeps
  // ---------------------------------------------------------------------------

  lemma ExecutedKeeps(db: Db, digest: Signature -> Name, run: Name, cycle: nat, group: Group, response: Response)
    requires Consistent(db, digest) && (cycle == CountCycles(db.works, run) + 1 || cycle in Cycles(db.works, run))
    ensures
      var after := Executed(db, run, cycle, group, response);
      && Keeps(db, after, digest) && cycle in Cycles(after.works, run)
      && Settled(db.works, after.works, run, cycle, group.agent, response.result)
  {
    var after := Executed(db, run, cycle, group, response);
    SettledFollows(db.works, run, cycle, group.agent, response);
    LedgerIsKept(db.ledger, response.effects.ledger);
    LogIsKept(db.ledger, after.ledger, db.events, digest);
    LogAppend(after.ledger, db.events, Assignment(run, cycle, group), digest);
  }

  lemma {:induction false} CorrectedKeeps(db: Db, digest: Signature -> Name, run: Name, cycle: nat, groups: seq<Group>, turn: Turn, n: nat)
    requires Consistent(db, digest) && cycle == CountCycles(db.works, run) + 1 && n <= |groups|
    ensures Keeps(db, Corrected(db, run, cycle, groups, turn, n), digest)
    ensures if n == 0 then Corrected(db, run, cycle, groups, turn, n) == db else cycle in Cycles(Corrected(db, run, cycle, groups, turn, n).works, run)
  {
    if n == 0 {
      KeepsItself(db, digest);
    } else {
      CorrectedKeeps(db, digest, run, cycle, groups, turn, n - 1);
      var mid := Corrected(db, run, cycle, groups, turn, n - 1);
      ExecutedKeeps(mid, digest, run, cycle, groups[n - 1], ResponseTo(turn, groups[n - 1]));
      KeepsTransitive(db, mid, Executed(mid, run, cycle, groups[n - 1], ResponseTo(turn, groups[n - 1])), digest);
    }
  }

  /** The log, the ledger and the candidates after the first `n` groups, in terms of their responses. */
  ghost predicate Worked(db: Db, after: Db, run: Name, cycle: nat, groups: seq<Group>, turn: Turn, n: nat)
    requires n <= |groups|
  {
    && after.events == db.events + Assignments(run, cycle, groups, n)
    && after.ledger == LedgerAfter(db.ledger, ResponseSteps(groups, turn, n))
    && after.active == ActiveAfter(db.active, run, groups, turn, n)
  }

  lemma {:induction false} CorrectedMeans(db: Db, run: Name, cycle: nat, groups: seq<Group>, turn: Turn, n: nat)
    requires n <= |groups|
    ensures Worked(db, Corrected(db, run, cycle, groups, turn, n), run, cycle, groups, turn, n)
  {
    if n == 0 {
      NothingWorked(db, run, cycle, groups, turn);
    } else {
      CorrectedMeans(db, run, cycle, groups, turn, n - 1);
      WorkedStep(db, Corrected(db, run, cycle, groups, turn, n - 1), run, cycle, groups, turn, n - 1);
    }
  }

  lemma NothingWorked(db: Db, run: Name, cycle: nat, groups: seq<Group>, turn: Turn)
    ensures Worked(db, db, run, cycle, groups, turn, 0)
  {
    assert db.events + [] == db.events;
  }

  lemma WorkedStep(db: Db, mid: Db, run: Name, cycle: nat, groups: seq<Group>, turn: Turn, n: nat)
    requires n < |groups| && Worked(db, mid, run, cycle, groups, turn, n)
    ensures Worked(db, Executed(mid, run, cycle, groups[n], ResponseTo(turn, groups[n])), run, cycle, groups, turn, n + 1)
  {
    var r := ResponseTo(turn, groups[n]);
    LedgerAfterConcat(db.ledger, ResponseSteps(groups, turn, n), r.effects.ledger);
    assert db.events + Assignments(run, cycle, groups, n) + [Assignment(run, cycle, groups[n])] == db.events + Assignments(run, cycle, groups, n + 1);
  }

  lemma {:induction false} AssignmentsGrow(events: seq<Event>, run: Name, cycle: nat, groups: seq<Group>, n: nat)
    requires n <= |groups| && Sorted(groups)
    ensures LogGrows(events, events + Assignments(run, cycle, groups, n)) && SameCounters(events, events + Assignments(run, cycle, groups, n))
  {
    if n == 0 {
      assert events + Assignments(run, cycle, groups, n) == events;
    } else {
      AssignmentsGrow(events, run, cycle, groups, n - 1);
      assert Proper(groups[n - 1]);
      AssignedKeepsCounters(events, events + Assignments(run, cycle, groups, n - 1), Assignment(run, cycle, groups[n - 1]));
      assert events + Assignments(run, cycle, groups, n - 1) + [Assignment(run, cycle, groups[n - 1])] == events + Assignments(run, cycle, groups, n);
    }
  }

  /** The cycle got as far as its first `m` groups: all of them, or up to the first not to complete. */
  ghost predicate GotTo(groups: seq<Group>, turn: Turn, m: nat) {
    0 < m <= |groups| && AllComplete(groups, turn, m - 1) && (m < |groups| ==> !Completes(groups, turn, m - 1))
  }

  lemma {:induction false} ReachIs(groups: seq<Group>, turn: Turn, k: nat)
    requires k <= |groups| && groups != [] && AllComplete(groups, turn, k)
    ensures GotTo(groups, turn, Reach(groups, turn, k))
    ensures AllComplete(groups, turn, |groups|) ==> Reach(groups, turn, k) == |groups|
    ensures !AllComplete(groups, turn, |groups|) ==> (WorkerRaises(groups, turn, k) <==> ResponseTo(turn, groups[Reach(groups, turn, k) - 1]).result == WorkRaises)
    decreases |groups| - k
  {
    if k < |groups| {
      if Completes(groups, turn, k) {
        ReachIs(groups, turn, k + 1);
      } else {
        Incomplete(groups, turn, k, |groups|);
      }
    }
  }

  /** What a cycle makes of its turn.  The log gets the start and then one assignment for each group it got
      to, in order.  If all groups complete, the ledger takes every response's steps in group order and then
      the retest's, and unless the retest raises the last candidate produced is the run's.  If a group is
      the first not to complete, the cycle ends with it: the responses up to it take effect, and there is
      no retest. */
  ghost predicate Cycled(db: Db, after: Db, run: Name, cycle: nat, findings: seq<Finding>, turn: Turn, m: nat) {
    var groups := Groups(findings);
    && GotTo(groups, turn, m)
    && after.events == db.events + [RemediationStarted(run, cycle, findings)] + Assignments(run, cycle, groups, m)
    && if AllComplete(groups, turn, |groups|) then CycledThrough(db, after, run, findings, turn, m) else CycledShort(db, after, run, findings, turn, m)
  }

  ghost predicate CycledThrough(db: Db, after: Db, run: Name, findings: seq<Finding>, turn: Turn, m: nat)
    requires m <= |Groups(findings)|
  {
    var groups := Groups(findings);
    && 0 < m == |groups|
    && after.ledger == LedgerAfter(db.ledger, ResponseSteps(groups, turn, m) + turn.retest.ledger)
    && (!turn.retestRaises ==> run in after.active && Completed(after.active[run]) == ResponseTo(turn, groups[m - 1]).result)
    && (CycleRaises(findings, turn) <==> turn.retestRaises)
  }

  ghost predicate CycledShort(db: Db, after: Db, run: Name, findings: seq<Finding>, turn: Turn, m: nat)
    requires 0 < m <= |Groups(findings)|
  {
    var groups := Groups(findings);
    && after.ledger == LedgerAfter(db.ledger, ResponseSteps(groups, turn, m))
    && after.active == ActiveAfter(db.active, run, groups, turn, m)
    && (CycleRaises(findings, turn) <==> ResponseTo(turn, groups[m - 1]).result == WorkRaises)
  }

  lemma CycleMeans(db: Db, run: Name, cycle: nat, findings: seq<Finding>, turn: Turn)
    requires Groups(findings) != []
    ensures Cycled(db, CycleAfter(db, run, cycle, findings, turn), run, cycle, findings, turn, Reach(Groups(findings), turn, 0))
  {
    var groups := Groups(findings);
    var m := Reach(groups, turn, 0);
    ReachIs(groups, turn, 0);
    var start := Started(db, run, cycle, findings);
    var worked := Corrected(start, run, cycle, groups, turn, m);
    CorrectedMeans(start, run, cycle, groups, turn, m);
    if AllComplete(groups, turn, |groups|) {
      RetestMeans(start, worked, run, cycle, groups, turn);
      assert CycledThrough(db, CycleAfter(db, run, cycle, findings, turn), run, findings, turn, m);
    } else {
      assert CycledShort(db, worked, run, findings, turn, m);
    }
  }

  /** Without findings there is a start and nothing else: no assignment, no retest, no exception. */
  lemma EmptyCycle(db: Db, run: Name, cycle: nat, turn: Turn)
    ensures CycleAfter(db, run, cycle, [], turn) == db.(events := db.events + [RemediationStarted(run, cycle, [])])
    ensures !CycleRaises([], turn)
  {
    assert Groups([]) == [];
  }

  lemma RetestMeans(start: Db, worked: Db, run: Name, cycle: nat, groups: seq<Group>, turn: Turn)
    requires groups != [] && AllComplete(groups, turn, |groups|) && Worked(start, worked, run, cycle, groups, turn, |groups|)
    ensures
      var after := Retested(worked, run, LastProduced(groups, turn), turn);
      && after.events == worked.events
      && after.ledger == LedgerAfter(start.ledger, ResponseSteps(groups, turn, |groups|) + turn.retest.ledger)
      && (!turn.retestRaises ==> run in after.active && Completed(after.active[run]) == ResponseTo(turn, groups[|groups| - 1]).result)
  {
    LedgerAfterConcat(start.ledger, ResponseSteps(groups, turn, |groups|), turn.retest.ledger);
    assert Completes(groups, turn, |groups| - 1);
  }

  /** Every cycle, whatever its turn brings, keeps the tables valid, uses its number, which was new, and logs
      one start and only good assignments. */
  lemma CycleKeeps(db: Db, digest: Signature -> Name, run: Name, cycle: nat, findings: seq<Finding>, turn: Turn)
    requires Consistent(db, digest) && cycle == CountCycles(db.works, run) + 1 && findings != [] && AllTraced(db.ledger, findings, digest)
    ensures
      var after := CycleAfter(db, run, cycle, findings, turn);
      && Groups(findings) != [] && Keeps(db, after, digest) && cycle in Cycles(after.works, run) && CountCycles(after.works, run) >= cycle
      && LogGrows(db.events, after.events) && OneStart(db.events, after.events, run, findings)
      && forall i :: 0 <= i < |db.works| && db.works[i].run == run ==> db.works[i].cycle < cycle
  {
    var groups := Groups(findings);
    GroupsPartition(findings);
    NextCycleIsFresh(db.works, run);
    var m, start, after := Reach(groups, turn, 0), Started(db, run, cycle, findings), CycleAfter(db, run, cycle, findings, turn);
    CycleMeans(db, run, cycle, findings, turn);
    AssignmentsGrow(start.events, run, cycle, groups, m);
    OneStartFollows(db.events, after.events, run, cycle, findings);
    CycleKeepsTables(db, digest, run, cycle, findings, turn);
    assert NumbersBounded(after.works, run);
  }

  lemma CycleKeepsTables(db: Db, digest: Signature -> Name, run: Name, cycle: nat, findings: seq<Finding>, turn: Turn)
    requires Consistent(db, digest) && cycle == CountCycles(db.works, run) + 1 && AllTraced(db.ledger, findings, digest) && Groups(findings) != []
    ensures Keeps(db, CycleAfter(db, run, cycle, findings, turn), digest) && cycle in Cycles(CycleAfter(db, run, cycle, findings, turn).works, run)
  {
    var groups := Groups(findings);
    var m, start := Reach(groups, turn, 0), Started(db, run, cycle, findings);
    LogAppend(db.ledger, db.events, RemediationStarted(run, cycle, findings), digest);
    KeepsItself(start, digest);
    ReachIs(groups, turn, 0);
    CorrectedKeeps(start, digest, run, cycle, groups, turn, m);
    var worked := Corrected(start, run, cycle, groups, turn, m);
    if AllComplete(groups, turn, |groups|) {
      HappenedKeeps(worked, turn.retest, digest);
      KeepsTransitive(start, worked, Happened(worked, turn.retest), digest);
    }
  }
}
