/** What emitting an event and closing a run leave on the run, the log and the outbox, column by column. */
module RunMeaning {
  import opened Prelude
  import opened RunStates
  import opened RunClosure

  /** The run has no closing event. */
  ghost predicate IsOpen(s: Ledger, run: Name) {
    run in s.runs && forall i :: 0 <= i < |s.events| && s.events[i].run == Some(run) ==>
      s.events[i].kind !in {RUN_COMPLETED, RUN_BLOCKED, RUN_ESCALATED, RUN_CANCELLED, RUN_FAILED}
  }

  /** The event and the status a run is closed with. */
  function ClosesAs(outcome: RunOutcome): (EventType, RunStatus) {
    if outcome == SUCCESS then (RUN_COMPLETED, CLOSED_COMPLETED)
    else if outcome == UNRECOVERABLE_TECHNICAL then (RUN_BLOCKED, CLOSED_BLOCKED)
    else if outcome == MAX_REMEDIATION_EXCEEDED then (RUN_ESCALATED, CLOSED_ESCALATED)
    else if outcome == CANCELLED_BY_SPONSOR then (RUN_CANCELLED, CLOSED_CANCELLED)
    else (AWAITING_SPONSOR, WAITING_FOR_SPONSOR)
  }

  /** Closing an open run sets its status to the outcome's, whether or not the guard admits the event; it
      logs the outcome's event and one Slack delivery if the guard does; and it leaves all other runs
      alone.  Closing anything else changes nothing. */
  lemma ClosingMeans(s: Ledger, run: Name, outcome: RunOutcome, o: Oracle)
    ensures
      var t, (kind, status) := Closed(s, run, outcome, o), ClosesAs(outcome);
      if IsOpen(s, run) then
        && t.runs == s.runs[run := status]
        && t.events == s.events + (if o.truthful(kind) then [Event(Some(run), kind)] else [])
        && t.outbox == s.outbox + (if o.truthful(kind) then {(|s.events|, Name("slack"))} else {})
      else t == s
  {
    if IsOpen(s, run) {
      var (kind, status) := ClosesAs(outcome);
      var s' := s.(runs := s.runs[run := status]);
      assert !AlreadyClosed(s.events, run);
      assert kind == EventFor(outcome) && status == StatusFor(outcome);
      QuietEmission(s', Event(Some(run), kind), [Name("slack")], false, o);
      KeysAre(|s.events|, [Name("slack")], false, Name("slack"));
      assert Keys(|s.events|, [Name("slack")], false) == {(|s.events|, Name("slack"))};
    } else {
      assert run in s.runs ==> AlreadyClosed(s.events, run);
    }
  }

  lemma KeysAre(event: nat, subscribers: seq<Name>, audit: bool, n: Name)
    ensures (event, n) in Keys(event, subscribers, audit) <==> n in subscribers && !(audit && n == Name("slack"))
  {
  }

  /** The status an event leaves on its run: a closing kind closes it, a wait for the sponsor pauses it, and
      anything else keeps it; a run that has ended yields only to a closing kind other than RUN_FAILED. */
  function StatusLeft(status: RunStatus, kind: EventType): RunStatus {
    var ended := status in {CLOSED_COMPLETED, CLOSED_BLOCKED, CLOSED_FAILED, CLOSED_CANCELLED, CLOSED_ESCALATED};
    if kind == RUN_COMPLETED then CLOSED_COMPLETED
    else if kind == RUN_BLOCKED then CLOSED_BLOCKED
    else if kind == RUN_ESCALATED then CLOSED_ESCALATED
    else if kind == RUN_CANCELLED then CLOSED_CANCELLED
    else if ended then status
    else if kind == RUN_FAILED then CLOSED_FAILED
    else if kind == AWAITING_SPONSOR || kind == DECISION_REQUESTED then WAITING_FOR_SPONSOR
    else status
  }

  /** An admitted event other than a published release: the log grows by it, its run's status is the one it
      leaves, every other run stays, and each subscriber gets one delivery, Slack none of an audit event. */
  lemma EmissionMeans(s: Ledger, e: Event, subscribers: seq<Name>, audit: bool, o: Oracle)
    requires e.kind != RELEASE_PUBLISHED && o.truthful(e.kind)
    ensures
      var t := Emitted(s, e, subscribers, audit, o);
      && t.events == s.events + [e]
      && t.runs == (if e.run.Some? && e.run.value in s.runs then s.runs[e.run.value := StatusLeft(s.runs[e.run.value], e.kind)] else s.runs)
      && (forall k, n :: (k, n) in t.outbox <==> (k, n) in s.outbox || (k == |s.events| && n in subscribers && !(audit && n == Name("slack"))))
  {
    QuietEmission(s, e, subscribers, audit, o);
    var t := Emitted(s, e, subscribers, audit, o);
    forall k, n
      ensures (k, n) in t.outbox <==> (k, n) in s.outbox || (k == |s.events| && n in subscribers && !(audit && n == Name("slack")))
    {
      KeysAre(|s.events|, subscribers, audit, n);
    }
  }

  /** A published release of an open run is followed, if the guard admits it, by RUN_COMPLETED when the
      sponsor's outcomes are satisfied and by a report that they are not otherwise; of a run that is not
      open it is followed by nothing. */
  lemma PublicationMeans(s: Ledger, run: Name, subscribers: seq<Name>, audit: bool, o: Oracle)
    requires o.truthful(RELEASE_PUBLISHED)
    ensures
      var e := Event(Some(run), RELEASE_PUBLISHED);
      var t := Emitted(s, e, subscribers, audit, o);
      var next := if o.satisfied then RUN_COMPLETED else SPONSOR_OUTCOME_INCOMPLETE;
      && t.events == s.events + [e] + (if IsOpen(s, run) && o.truthful(next) then [Event(Some(run), next)] else [])
      && t.runs == (if IsOpen(s, run) && o.satisfied then s.runs[run := CLOSED_COMPLETED] else s.runs)
  {
    var e := Event(Some(run), RELEASE_PUBLISHED);
    EmissionUnrolled(s, e, subscribers, audit, o);
    var r := Recorded(s, e, subscribers, audit);
    OpenAfter(s, e, subscribers, audit, run);
    if IsOpen(s, run) {
      assert !AlreadyClosed(s.events, run) && !AlreadyClosed(r.events, run);
      if o.satisfied {
        ClosingMeans(r, run, SUCCESS, o);
      } else {
        QuietEmission(r, Event(Some(run), SPONSOR_OUTCOME_INCOMPLETE), [Name("slack")], false, o);
      }
    } else {
      assert run in s.runs ==> AlreadyClosed(s.events, run);
      assert run in s.runs ==> AlreadyClosed(r.events, run);
    }
  }

  lemma OpenAfter(s: Ledger, e: Event, subscribers: seq<Name>, audit: bool, run: Name)
    requires e.kind == RELEASE_PUBLISHED
    ensures IsOpen(Recorded(s, e, subscribers, audit), run) <==> IsOpen(s, run)
    ensures AlreadyClosed(Recorded(s, e, subscribers, audit).events, run) <==> AlreadyClosed(s.events, run)
  {
    ClosedAfterAppend(s.events, e, run);
    var r := Recorded(s, e, subscribers, audit);
    assert forall i :: 0 <= i < |s.events| ==> r.events[i] == s.events[i];
  }

  /** Pausing leaves a known run waiting for the sponsor, whether or not the guard admits the event. */
  lemma PauseMeans(s: Ledger, run: Name, o: Oracle)
    requires run in s.runs
    ensures
      var t := Apply(s, Pause(run, o));
      && t.runs == s.runs[run := WAITING_FOR_SPONSOR]
      && t.events == s.events + (if o.truthful(AWAITING_SPONSOR) then [Event(Some(run), AWAITING_SPONSOR)] else [])
  {
    var s' := s.(runs := s.runs[run := WAITING_FOR_SPONSOR]);
    QuietEmission(s', Event(Some(run), AWAITING_SPONSOR), [Name("slack")], false, o);
  }
}
