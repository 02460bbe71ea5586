/** Event emission and run closure: emit -> maybe close -> close -> emit. */
module RunClosure {
  import opened Prelude
  import opened Subscribers
  import opened RunStates

  datatype Event = Event(run: Option<Name>, kind: EventType)

  /** Outbox rows are identified by their idempotency key: event position and subscriber. */
  datatype Ledger = Ledger(events: seq<Event>, outbox: set<(nat, Name)>, runs: map<Name, RunStatus>)

  /** Answers from outside: which event kinds pass the truthfulness guard, and whether the
      sponsor's requested outcomes are satisfied. */
  datatype Oracle = Oracle(truthful: EventType -> bool, satisfied: bool)

  function CountClosing(events: seq<Event>, run: Name): nat {
    if events == [] then 0
    else
      var e := events[|events| - 1];
      CountClosing(events[..|events| - 1], run) + if e.run == Some(run) && Closing(e.kind) then 1 else 0
  }

  predicate AlreadyClosed(events: seq<Event>, run: Name) {
    exists i :: 0 <= i < |events| && events[i].run == Some(run) && Closing(events[i].kind)
  }

  // ---------------------------------------------------------------------------
  // One emission
  // ---------------------------------------------------------------------------

  function Keys(event: nat, subscribers: seq<Name>, audit: bool): set<(nat, Name)> {
    set n | n in subscribers && !(audit && n == SLACK) :: (event, n)
  }

  function Recorded(s: Ledger, e: Event, subscribers: seq<Name>, audit: bool): Ledger {
    s.(events := s.events + [e], outbox := s.outbox + Keys(|s.events|, subscribers, audit))
  }

  /** The status an event sets on its run, if any. */
  function StatusAfter(kind: EventType): Option<RunStatus> {
    match kind
    case RUN_COMPLETED => Some(CLOSED_COMPLETED)
    case RUN_BLOCKED => Some(CLOSED_BLOCKED)
    case RUN_ESCALATED => Some(CLOSED_ESCALATED)
    case RUN_CANCELLED => Some(CLOSED_CANCELLED)
    case RUN_FAILED => Some(CLOSED_FAILED)
    case AWAITING_SPONSOR => Some(WAITING_FOR_SPONSOR)
    case DECISION_REQUESTED => Some(WAITING_FOR_SPONSOR)
    case _ => None
  }

  /** Events derive the run's status; a terminal status yields only to a closing event other than
      the legacy RUN_FAILED. */
  function Applied(s: Ledger, e: Event): Ledger {
    if e.run.None? || e.run.value !in s.runs || StatusAfter(e.kind).None? then s
    else if TerminalStatus(s.runs[e.run.value]) && (!Closing(e.kind) || e.kind == RUN_FAILED) then s
    else s.(runs := s.runs[e.run.value := StatusAfter(e.kind).value])
  }

  /** Only a published release can lead an emission to emit again. */
  function Rank(kind: EventType): nat {
    if kind == RELEASE_PUBLISHED then 1 else 0
  }

  function Emitted(s: Ledger, e: Event, subscribers: seq<Name>, audit: bool, o: Oracle): Ledger
    decreases Rank(e.kind), 2
  {
    if !o.truthful(e.kind) then s
    else MaybeClosed(Applied(Recorded(s, e, subscribers, audit), e), e, o)
  }

  function MaybeClosed(s: Ledger, e: Event, o: Oracle): Ledger
    decreases Rank(e.kind), 1
  {
    if e.run.None? || e.run.value !in s.runs || AlreadyClosed(s.events, e.run.value) || e.kind != RELEASE_PUBLISHED then s
    else if o.satisfied then Closed(s, e.run.value, SUCCESS, o)
    else Emitted(s, Event(e.run, SPONSOR_OUTCOME_INCOMPLETE), [SLACK], false, o)
  }

  function Closed(s: Ledger, run: Name, outcome: RunOutcome, o: Oracle): Ledger
    decreases 0, 3
  {
    if run !in s.runs || AlreadyClosed(s.events, run) then s
    else Emitted(s.(runs := s.runs[run := StatusFor(outcome)]), Event(Some(run), EventFor(outcome)), [SLACK], false, o)
  }

  // ---------------------------------------------------------------------------
  // The recursion unrolled
  // ---------------------------------------------------------------------------

  /** The event is a published release of an open run. */
  predicate FollowsUp(s: Ledger, e: Event) {
    e.kind == RELEASE_PUBLISHED && e.run.Some? && e.run.value in s.runs && !AlreadyClosed(s.events, e.run.value)
  }

  function FollowUp(o: Oracle): EventType {
    if o.satisfied then RUN_COMPLETED else SPONSOR_OUTCOME_INCOMPLETE
  }

  /** An emission appends its event and at most one more. */
  function Consequence(s: Ledger, e: Event, o: Oracle): seq<Event> {
    if FollowsUp(s, e) && o.truthful(FollowUp(o)) then [Event(e.run, FollowUp(o))] else []
  }

  lemma ClosedAfterAppend(events: seq<Event>, e: Event, run: Name)
    requires !Closing(e.kind)
    ensures AlreadyClosed(events + [e], run) <==> AlreadyClosed(events, run)
  {
    assert forall i :: 0 <= i < |events| ==> (events + [e])[i] == events[i];
  }

  lemma QuietEmission(s: Ledger, e: Event, subscribers: seq<Name>, audit: bool, o: Oracle)
    requires e.kind != RELEASE_PUBLISHED
    ensures Emitted(s, e, subscribers, audit, o) ==
      if o.truthful(e.kind) then Applied(Recorded(s, e, subscribers, audit), e) else s
  {
  }

  lemma ClosureIsOneEmission(s: Ledger, run: Name, outcome: RunOutcome, o: Oracle)
    requires run in s.runs && !AlreadyClosed(s.events, run)
    ensures Closed(s, run, outcome, o).events == if o.truthful(EventFor(outcome)) then s.events + [Event(Some(run), EventFor(outcome))] else s.events
    ensures Closed(s, run, outcome, o).runs.Keys == s.runs.Keys
  {
    var s' := s.(runs := s.runs[run := StatusFor(outcome)]);
    assert Closed(s, run, outcome, o) == Emitted(s', Event(Some(run), EventFor(outcome)), [SLACK], false, o);
    QuietEmission(s', Event(Some(run), EventFor(outcome)), [SLACK], false, o);
  }

  /** The mutual recursion ends after one further emission: a published release brings exactly one
      follow-up to an open run, and nothing else brings any. */
  lemma EmissionUnrolled(s: Ledger, e: Event, subscribers: seq<Name>, audit: bool, o: Oracle)
    ensures Emitted(s, e, subscribers, audit, o).events ==
      if o.truthful(e.kind) then s.events + [e] + Consequence(s, e, o) else s.events
    ensures Emitted(s, e, subscribers, audit, o).runs.Keys == s.runs.Keys
  {
    if e.kind != RELEASE_PUBLISHED {
      QuietEmission(s, e, subscribers, audit, o);
      assert s.events + [e] + [] == s.events + [e];
    } else if o.truthful(e.kind) {
      var s' := Recorded(s, e, subscribers, audit);
      assert Applied(s', e) == s';
      if e.run.Some? {
        ClosedAfterAppend(s.events, e, e.run.value);
        if e.run.value in s.runs && !AlreadyClosed(s.events, e.run.value) {
          assert Emitted(s, e, subscribers, audit, o) == MaybeClosed(s', e, o);
          if o.satisfied {
            ClosureIsOneEmission(s', e.run.value, SUCCESS, o);
          } else {
            QuietEmission(s', Event(e.run, SPONSOR_OUTCOME_INCOMPLETE), [SLACK], false, o);
          }
        }
      }
    }
  }

  lemma ClosureUnrolled(s: Ledger, run: Name, outcome: RunOutcome, o: Oracle)
    ensures Closed(s, run, outcome, o).events ==
      if run in s.runs && !AlreadyClosed(s.events, run) && o.truthful(EventFor(outcome))
      then s.events + [Event(Some(run), EventFor(outcome))] else s.events
    ensures Closed(s, run, outcome, o).runs.Keys == s.runs.Keys
  {
    if run in s.runs && !AlreadyClosed(s.events, run) {
      ClosureIsOneEmission(s, run, outcome, o);
    }
  }

  // ---------------------------------------------------------------------------
  // Runs of the control plane
  // ---------------------------------------------------------------------------

  datatype Step =
    | Open(run: Name)
    | Emit(event: Event, subscribers: seq<Name>, audit: bool, oracle: Oracle)
    | Close(run: Name, outcome: RunOutcome, oracle: Oracle)
    | Pause(run: Name, oracle: Oracle)

  function Apply(s: Ledger, step: Step): Ledger {
    match step
    case Open(run) => if run in s.runs then s else s.(runs := s.runs[run := PLANNING])
    case Emit(e, subs, audit, o) => Emitted(s, e, subs, audit, o)
    case Close(run, outcome, o) => Closed(s, run, outcome, o)
    case Pause(run, o) =>
      var s' := if run in s.runs then s.(runs := s.runs[run := WAITING_FOR_SPONSOR]) else s;
      Emitted(s', Event(Some(run), AWAITING_SPONSOR), [SLACK], false, o)
  }

  function Run(steps: seq<Step>): Ledger {
    if steps == [] then Ledger([], {}, map[]) else Apply(Run(steps[..|steps| - 1]), steps[|steps| - 1])
  }

  /** Closing kinds come only out of `Close`; nobody emits them directly. */
  predicate Disciplined(step: Step) {
    step.Emit? ==> !Closing(step.event.kind)
  }

  lemma {:induction false} CountIsClosed(events: seq<Event>, run: Name)
    ensures CountClosing(events, run) > 0 <==> AlreadyClosed(events, run)
  {
    if events != [] {
      var front := events[..|events| - 1];
      CountIsClosed(front, run);
      assert forall i :: 0 <= i < |front| ==> front[i] == events[i];
    }
  }

  lemma CountAppend(events: seq<Event>, e: Event, run: Name)
    ensures CountClosing(events + [e], run) == CountClosing(events, run) + if e.run == Some(run) && Closing(e.kind) then 1 else 0
  {
    assert (events + [e])[..|events|] == events;
  }

  lemma {:induction false} CountAppendAll(events: seq<Event>, more: seq<Event>, run: Name)
    ensures CountClosing(events + more, run) == CountClosing(events, run) + CountClosing(more, run)
  {
    if more == [] {
      assert events + more == events;
    } else {
      var front, last := more[..|more| - 1], more[|more| - 1];
      CountAppendAll(events, front, run);
      CountAppend(events + front, last, run);
      assert events + more == events + front + [last];
    }
  }

  /** What a step appends to the event log. */
  function Appended(s: Ledger, step: Step): seq<Event> {
    match step
    case Open(_) => []
    case Emit(e, _, _, o) => if o.truthful(e.kind) then [e] + Consequence(s, e, o) else []
    case Close(run, outcome, o) =>
      if run in s.runs && !AlreadyClosed(s.events, run) && o.truthful(EventFor(outcome)) then [Event(Some(run), EventFor(outcome))] else []
    case Pause(run, o) => if o.truthful(AWAITING_SPONSOR) then [Event(Some(run), AWAITING_SPONSOR)] else []
  }

  lemma StepAppends(s: Ledger, step: Step)
    ensures Apply(s, step).events == s.events + Appended(s, step)
  {
    match step
    case Open(_) =>
      assert s.events + [] == s.events;
    case Emit(e, subs, audit, o) =>
      EmissionUnrolled(s, e, subs, audit, o);
      assert s.events + ([e] + Consequence(s, e, o)) == s.events + [e] + Consequence(s, e, o);
    case Close(run, outcome, o) =>
      ClosureUnrolled(s, run, outcome, o);
    case Pause(run, o) =>
      var s' := if run in s.runs then s.(runs := s.runs[run := WAITING_FOR_SPONSOR]) else s;
      EmissionUnrolled(s', Event(Some(run), AWAITING_SPONSOR), [SLACK], false, o);
      assert s.events + [Event(Some(run), AWAITING_SPONSOR)] + [] == s.events + [Event(Some(run), AWAITING_SPONSOR)];
  }

  lemma CountSingle(e: Event, run: Name)
    ensures CountClosing([e], run) == if e.run == Some(run) && Closing(e.kind) then 1 else 0
  {
    CountAppend([], e, run);
    assert [] + [e] == [e];
  }

  /** A disciplined step closes a run only if it was open, and then once. */
  lemma DisciplinedStep(s: Ledger, step: Step, run: Name)
    requires Disciplined(step)
    ensures CountClosing(Appended(s, step), run) <= if AlreadyClosed(s.events, run) then 0 else 1
  {
    match step
    case Open(_) =>
    case Emit(e, _, _, o) =>
      if o.truthful(e.kind) {
        CountAppendAll([e], Consequence(s, e, o), run);
        CountSingle(e, run);
        if Consequence(s, e, o) != [] {
          CountSingle(Consequence(s, e, o)[0], run);
        }
      }
    case Close(r, outcome, o) =>
      CountSingle(Event(Some(r), EventFor(outcome)), run);
    case Pause(r, o) =>
      CountSingle(Event(Some(r), AWAITING_SPONSOR), run);
  }

  /** Over every disciplined run of the control plane, each run receives at most one closing event. */
  lemma {:induction false} ClosedAtMostOnce(steps: seq<Step>, run: Name)
    requires forall i :: 0 <= i < |steps| ==> Disciplined(steps[i])
    ensures CountClosing(Run(steps).events, run) <= 1
  {
    if steps != [] {
      var front, last := steps[..|steps| - 1], steps[|steps| - 1];
      ClosedAtMostOnce(front, run);
      var s := Run(front);
      StepAppends(s, last);
      CountAppendAll(s.events, Appended(s, last), run);
      DisciplinedStep(s, last, run);
      CountIsClosed(s.events, run);
    }
  }

  /** The discipline is needed exactly at direct emissions: a step closes an already closed run
      again if and only if it emits a closing kind for it directly and the guard lets it pass. */
  lemma ReclosedIff(s: Ledger, step: Step, run: Name)
    requires AlreadyClosed(s.events, run)
    ensures CountClosing(Apply(s, step).events, run) > CountClosing(s.events, run) <==>
      step.Emit? && Closing(step.event.kind) && step.event.run == Some(run) && step.oracle.truthful(step.event.kind)
  {
    StepAppends(s, step);
    CountAppendAll(s.events, Appended(s, step), run);
    if Disciplined(step) {
      DisciplinedStep(s, step, run);
    } else {
      var e, o := step.event, step.oracle;
      assert Consequence(s, e, o) == [];
      assert [e] + [] == [e];
      CountSingle(e, run);
    }
  }

  /** A run is opened, closed, and then reported complete by a direct emission. */
  function CloseTwice(run: Name, o: Oracle): seq<Step> {
    [Open(run), Close(run, SUCCESS, o), Emit(Event(Some(run), RUN_COMPLETED), [], false, o)]
  }

  /** A direct emission gives a closed run a second closing event. */
  lemma DirectEmissionRecloses(run: Name, o: Oracle)
    requires o.truthful(RUN_COMPLETED)
    ensures CountClosing(Run(CloseTwice(run, o)[..2]).events, run) == 1 && CountClosing(Run(CloseTwice(run, o)).events, run) == 2
  {
    var steps := CloseTwice(run, o);
    assert steps[..2][..1] == steps[..1] && steps[..1][..0] == [];
    var a, b := Run(steps[..1]), Run(steps[..2]);
    assert a == Apply(Run([]), Open(run));
    ClosesOpen(a, run, o);
    EmitsDirectly(b, run, o);
    CountAppend(a.events, Event(Some(run), RUN_COMPLETED), run);
    CountAppend(b.events, Event(Some(run), RUN_COMPLETED), run);
  }

  lemma ClosesOpen(s: Ledger, run: Name, o: Oracle)
    requires run in s.runs && s.events == [] && o.truthful(RUN_COMPLETED)
    ensures Apply(s, Close(run, SUCCESS, o)).events == s.events + [Event(Some(run), RUN_COMPLETED)]
  {
    StepAppends(s, Close(run, SUCCESS, o));
  }

  lemma EmitsDirectly(s: Ledger, run: Name, o: Oracle)
    requires o.truthful(RUN_COMPLETED)
    ensures Apply(s, Emit(Event(Some(run), RUN_COMPLETED), [], false, o)).events == s.events + [Event(Some(run), RUN_COMPLETED)]
  {
    StepAppends(s, Emit(Event(Some(run), RUN_COMPLETED), [], false, o));
    assert Consequence(s, Event(Some(run), RUN_COMPLETED), o) == [];
  }

  // ---------------------------------------------------------------------------
  // The ledger
  // ---------------------------------------------------------------------------

  class RunLedger {
    var events: seq<Event>
    var outbox: set<(nat, Name)>
    var runs: map<Name, RunStatus>

    ghost function State(): Ledger
      reads this
    {
      Ledger(events, outbox, runs)
    }

    constructor ()
      ensures State() == Ledger([], {}, map[])
    {
      events, outbox, runs := [], {}, map[];
    }

    /** `ok` is false when a guard refused this event or one it led to. */
    method Emit(e: Event, subscribers: seq<Name>, audit: bool, o: Oracle) returns (ok: bool)
      modifies this
      ensures State() == Emitted(old(State()), e, subscribers, audit, o)
      ensures ok <==> o.truthful(e.kind) && (FollowsUp(old(State()), e) ==> o.truthful(FollowUp(o)))
      decreases Rank(e.kind), 2
    {
      if !o.truthful(e.kind) {
        return false;
      }
      ghost var s := Recorded(State(), e, subscribers, audit);
      var id := |events|;
      events := events + [e];
      ghost var keys := outbox;
      for n := 0 to |subscribers|
        invariant events == s.events && runs == s.runs && outbox == keys + Keys(id, subscribers[..n], audit)
      {
        assert subscribers[..n + 1] == subscribers[..n] + [subscribers[n]];
        if !(audit && subscribers[n] == SLACK) {
          outbox := outbox + {(id, subscribers[n])};
        }
      }
      assert subscribers[..|subscribers|] == subscribers;
      assert State() == s;
      if e.run.Some? {
        var status := StatusAfter(e.kind);
        if e.run.value in runs && status.Some?
          && !(TerminalStatus(runs[e.run.value]) && (!Closing(e.kind) || e.kind == RUN_FAILED))
        {
          runs := runs[e.run.value := status.value];
        }
        ghost var applied := State();
        assert FollowsUp(applied, e) <==> FollowsUp(old(State()), e) by {
          if e.kind == RELEASE_PUBLISHED {
            ClosedAfterAppend(old(events), e, e.run.value);
          }
        }
        ok := MaybeClose(e, o);
      } else {
        ok := true;
      }
      EmissionUnrolled(old(State()), e, subscribers, audit, o);
    }

    method MaybeClose(e: Event, o: Oracle) returns (ok: bool)
      modifies this
      ensures State() == MaybeClosed(old(State()), e, o)
      ensures ok <==> (FollowsUp(old(State()), e) ==> o.truthful(FollowUp(o)))
      decreases Rank(e.kind), 1
    {
      if e.run.None? || e.run.value !in runs || AlreadyClosed(events, e.run.value) {
        return true;
      }
      if e.kind != RELEASE_PUBLISHED {
        return true;
      }
      if o.satisfied {
        ok := Close(e.run.value, SUCCESS, o);
      } else {
        ok := Emit(Event(e.run, SPONSOR_OUTCOME_INCOMPLETE), [SLACK], false, o);
      }
    }

    method Close(run: Name, outcome: RunOutcome, o: Oracle) returns (ok: bool)
      modifies this
      ensures State() == Closed(old(State()), run, outcome, o)
      ensures ok <==> (run in old(runs) && !AlreadyClosed(old(events), run) ==> o.truthful(EventFor(outcome)))
      decreases 0, 3
    {
      if run !in runs || AlreadyClosed(events, run) {
        return true;
      }
      runs := runs[run := StatusFor(outcome)];
      ok := Emit(Event(Some(run), EventFor(outcome)), [SLACK], false, o);
    }
  }
}
