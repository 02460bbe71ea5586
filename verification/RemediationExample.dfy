/** Two remediation cycles that fail alike are, to the recurrence limit, two different findings. */
module RemediationExample {
  import opened Prelude
  import opened Jobs
  import opened QaTypes
  import opened JobIds
  import opened QaLedger
  import opened QaProperties
  import opened RemediationCapability
  import opened RemediationLog

  /** A producer's job, its hand-off, and a FAIL verdict of the functional assessor. */
  function FailingCycle(producer: nat, name: Name, project: Name, candidate: Name, run: Name): seq<QaLedger.Step> {
    [ NewJob(name, project, DELIVERY, None),
      HandOff(producer, candidate, Some(run)),
      Record(producer + 1, Some(FailReport(name, candidate))) ]
  }

  function FailReport(name: Name, candidate: Name): Report {
    Report(VERDICT_FAIL, candidate, AssuranceId(name, ASSURANCE_FUNCTIONAL), ASSURANCE_FUNCTIONAL, true)
  }

  /** All ids begin with the given character. */
  predicate AllBegin(jobs: seq<Job>, c: char) {
    forall j :: 0 <= j < |jobs| ==> |jobs[j].humanId.text| > 0 && jobs[j].humanId.text[0] == c
  }

  lemma IdBegins(name: Name, queue: Queue)
    requires |name.text| > 0
    ensures |AssuranceId(name, queue).text| > 0 && AssuranceId(name, queue).text[0] == name.text[0]
  {
  }

  /** The producer's job, when no id begins like its own. */
  lemma Produced(s: Ledger, name: Name, project: Name, c: char)
    requires Sane(s) && AllBegin(s.jobs, c) && |name.text| > 0 && name.text[0] != c
    ensures
      var t := Apply(s, NewJob(name, project, DELIVERY, None));
      && t.rows == s.rows && t.jobs == s.jobs + [Job(name, project, DELIVERY, DELIVERY, READY, NoOutcome, None, None, None, None)]
      && Sane(t) && forall q :: !NameTaken(t.jobs, AssuranceId(name, q))
  {
    var step := NewJob(name, project, DELIVERY, None);
    var t := Apply(s, step);
    StepEvolves(s, step);
    StepKeepsIds(s, step);
    forall q
      ensures !NameTaken(t.jobs, AssuranceId(name, q))
    {
      IdBegins(name, q);
      assert |AssuranceId(name, q).text| > |name.text|;
    }
  }

  lemma {:induction false} OpenedJob(s: Ledger, delivery: nat, candidate: Name, run: Option<Name>, n: nat)
    requires delivery < |s.jobs| && 0 < n <= |HANDOFF_QUEUES|
    ensures
      var t := Opened(s, delivery, candidate, run, n);
      && |t.jobs| == |s.jobs| + n && |t.rows| == |s.rows| + n
      && t.jobs[|s.jobs|] == AssuranceJob(delivery, s.jobs[delivery], candidate, HANDOFF_QUEUES[0])
      && t.rows[|s.rows|] == Row(s.jobs[delivery].project, delivery, |s.jobs|, candidate, HANDOFF_QUEUES[0], run, PENDING)
      && t.jobs[delivery] == s.jobs[delivery]
  {
    if n == 1 {
      assert Opened(s, delivery, candidate, run, 0) == s;
    } else {
      OpenedJob(s, delivery, candidate, run, n - 1);
    }
  }

  /** A valid FAIL report on a pending row that has not gone stale is recorded. */
  lemma FailIsRecorded(s: Ledger, i: nat, report: Report)
    requires Inv(s) && i < |s.rows| && s.rows[i].result == PENDING && s.rows[i].job < |s.jobs|
    requires
      var j := s.jobs[s.rows[i].job];
      MayRecord(j) && !MovedOn(s, j) && Valid(report, j) && report.verdict == VERDICT_FAIL
    ensures
      var t := Apply(s, Record(s.rows[i].job, Some(report)));
      t.jobs == s.jobs && |t.rows| == |s.rows| && t.rows[i] == s.rows[i].(result := FAIL)
  {
    var r := s.rows[i];
    assert RowOfJob(s, r);
    FirstMatchIs(s.rows, r.job, r.candidate, |s.rows|);
    assert Matches(r, r.job, r.candidate);
    var first := FirstMatch(s.rows, r.job, r.candidate, |s.rows|).value;
    assert s.rows[first].job == r.job;
    assert first == i;
  }

  /** The ledger once the producer has been handed over. */
  function Handed(s: Ledger, name: Name, project: Name, candidate: Name, run: Name): Ledger {
    Apply(Apply(s, NewJob(name, project, DELIVERY, None)), HandOff(|s.jobs|, candidate, Some(run)))
  }

  lemma CycleOpens(s: Ledger, name: Name, project: Name, candidate: Name, run: Name, c: char)
    requires Sane(s) && AllBegin(s.jobs, c) && |name.text| > 0 && name.text[0] != c
    ensures
      var b := Handed(s, name, project, candidate, run);
      && Inv(b) && |b.jobs| == |s.jobs| + 6 && |b.rows| == |s.rows| + 5
      && b.rows[|s.rows|] == Row(project, |s.jobs|, |s.jobs| + 1, candidate, ASSURANCE_FUNCTIONAL, Some(run), PENDING)
      && MayRecord(b.jobs[|s.jobs| + 1]) && !MovedOn(b, b.jobs[|s.jobs| + 1])
      && Valid(FailReport(name, candidate), b.jobs[|s.jobs| + 1])
      && (s.jobs == [] ==> AllBegin(b.jobs, name.text[0]))
  {
    Produced(s, name, project, c);
    var a := Apply(s, NewJob(name, project, DELIVERY, None));
    HandedOver(a, |s.jobs|, candidate, run);
    if s.jobs == [] {
      OpenedIds(a, |s.jobs|, candidate, Some(run), |HANDOFF_QUEUES|);
      FirstIdsBegin(a, Handed(s, name, project, candidate, run), name);
    }
  }

  /** One failing cycle adds five rows, the first of which fails, and nothing else that matters. */
  lemma CycleFails(s: Ledger, name: Name, project: Name, candidate: Name, run: Name, c: char)
    requires Sane(s) && AllBegin(s.jobs, c) && |name.text| > 0 && name.text[0] != c
    ensures
      var t := LedgerAfter(s, FailingCycle(|s.jobs|, name, project, candidate, run));
      && Kept(s, t) && |t.rows| == |s.rows| + 5
      && t.rows[|s.rows|] == Row(project, |s.jobs|, |s.jobs| + 1, candidate, ASSURANCE_FUNCTIONAL, Some(run), FAIL)
      && (s.jobs == [] ==> AllBegin(t.jobs, name.text[0]))
  {
    var steps := FailingCycle(|s.jobs|, name, project, candidate, run);
    LedgerIsKept(s, steps);
    AfterThree(s, steps);
    CycleOpens(s, name, project, candidate, run, c);
    FailIsRecorded(Handed(s, name, project, candidate, run), |s.rows|, FailReport(name, candidate));
  }

  lemma AfterThree(s: Ledger, steps: seq<QaLedger.Step>)
    requires |steps| == 3
    ensures LedgerAfter(s, steps) == Apply(Apply(Apply(s, steps[0]), steps[1]), steps[2])
  {
    assert steps[..2][..1] == steps[..1] && steps[..1][..0] == [];
    assert LedgerAfter(s, steps[..1]) == Apply(LedgerAfter(s, []), steps[0]);
    assert LedgerAfter(s, steps[..2]) == Apply(LedgerAfter(s, steps[..1]), steps[1]);
  }

  lemma HandedOver(a: Ledger, producer: nat, candidate: Name, run: Name)
    requires Sane(a) && producer < |a.jobs| && HandOffAllowed(a, producer, candidate) && a.jobs[producer].candidate.None?
    ensures
      var b := Apply(a, HandOff(producer, candidate, Some(run)));
      && Inv(b) && |b.jobs| == |a.jobs| + 5 && |b.rows| == |a.rows| + 5
      && b.jobs[|a.jobs|] == AssuranceJob(producer, a.jobs[producer], candidate, ASSURANCE_FUNCTIONAL)
      && b.rows[|a.rows|] == Row(a.jobs[producer].project, producer, |a.jobs|, candidate, ASSURANCE_FUNCTIONAL, Some(run), PENDING)
      && b.jobs[producer] == a.jobs[producer] && !MovedOn(b, b.jobs[|a.jobs|])
  {
    StepEvolves(a, HandOff(producer, candidate, Some(run)));
    OpenedJob(a, producer, candidate, Some(run), |HANDOFF_QUEUES|);
  }

  lemma FirstIdsBegin(a: Ledger, b: Ledger, name: Name)
    requires |name.text| > 0 && |a.jobs| == 1 && a.jobs[0].humanId == name
    requires OpenedWith(a.jobs, b.jobs, name, |HANDOFF_QUEUES|)
    ensures AllBegin(b.jobs, name.text[0])
  {
    forall j | 0 <= j < |b.jobs|
      ensures |b.jobs[j].humanId.text| > 0 && b.jobs[j].humanId.text[0] == name.text[0]
    {
      if j == 0 {
        assert b.jobs[..1][0] == b.jobs[0];
      } else {
        assert b.jobs[|a.jobs| + (j - 1)] == b.jobs[j];
        IdBegins(name, HANDOFF_QUEUES[j - 1]);
      }
    }
  }

  function FirstCycle(): Ledger {
    LedgerAfter(EMPTY_LEDGER, FailingCycle(0, Name("D"), Name("p"), Name("a"), Name("run")))
  }

  function SecondCycle(): Ledger {
    LedgerAfter(FirstCycle(), FailingCycle(|FirstCycle().jobs|, Name("W"), Name("p"), Name("b"), Name("run")))
  }

  /** The functional assessor fails the first candidate and then, in the same way, its successor.  The
      second failure has the same category, role and result, and yet does not count as a recurrence. */
  lemma SecondFailureIsNotRecurring(digest: Signature -> Name)
    requires Injective(digest)
    ensures
      var s, t := FirstCycle(), SecondCycle();
      && |s.rows| == 5 && |t.rows| == 10 && Kept(s, t)
      && Adverse(s, s.rows[0]) && Adverse(t, t.rows[5])
      && s.rows[0].role == t.rows[5].role && s.rows[0].result == t.rows[5].result == FAIL
      && var f, g := BuildFinding(s, 0, digest), BuildFinding(t, 5, digest);
         && f.category == g.category
         && Recurrence([RemediationStarted(Name("run"), 1, [f])], Name("run"), f.fingerprint) == 1
         && Recurrence([RemediationStarted(Name("run"), 1, [f])], Name("run"), g.fingerprint) == 0
  {
    var s, t := FirstCycle(), SecondCycle();
    assert |"D"| == 1 && |"W"| == 1 && "D"[0] == 'D' && "W"[0] == 'W';
    CycleFails(EMPTY_LEDGER, Name("D"), Name("p"), Name("a"), Name("run"), 'W');
    CycleFails(s, Name("W"), Name("p"), Name("b"), Name("run"), 'D');
    SignatureNamesOneRow(s, t, 0, 5, FAIL, FAIL);
    OneStartCounts(BuildFinding(s, 0, digest), BuildFinding(t, 5, digest));
  }

  lemma OneStartCounts(f: Finding, g: Finding)
    ensures
      var log := [RemediationStarted(Name("run"), 1, [f])];
      && Recurrence(log, Name("run"), f.fingerprint) == 1
      && Recurrence(log, Name("run"), g.fingerprint) == if f.fingerprint == g.fingerprint then 1 else 0
  {
    var log := [RemediationStarted(Name("run"), 1, [f])];
    assert log[..0] == [];
    assert Mentions([f], f.fingerprint) by {
      assert [f][0].fingerprint == f.fingerprint;
    }
  }
}
