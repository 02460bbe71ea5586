/** Findings taken from the evidence ledger, and the log of remediation starts that counts them. */
module RemediationLog {
  import opened Prelude
  import opened Jobs
  import opened QaTypes
  import opened QaLedger
  import opened RemediationStore
  import opened RemediationCapability
  import QaProperties

  // ---------------------------------------------------------------------------
  // Findings
  // ---------------------------------------------------------------------------

  datatype Component = OfJob(id: Name) | OfRole(role: Queue)

  /** What a fingerprint digests.  It names no candidate, but it does name the assurance job. */
  datatype Signature = Signature(category: Category, component: Component, actual: QaResult, source: Queue)

  function CategoryOf(role: Queue): Category {
    match role
    case ASSURANCE_FUNCTIONAL => SOURCE_CODE_DEFECT
    case ASSURANCE_INTEGRATION => SOURCE_CODE_DEFECT
    case ASSURANCE_SECURITY => SECURITY_FINDING
    case ASSURANCE_QUALITY => TEST_INFRASTRUCTURE
    case _ => UNKNOWN
  }

  function ComponentOf(s: Ledger, r: Row): Component {
    if r.job < |s.jobs| then OfJob(s.jobs[r.job].humanId) else OfRole(r.role)
  }

  /** The row is evidence of a defect: a bad result, or an assurance job that did not finish. */
  predicate Adverse(s: Ledger, r: Row) {
    r.result in {FAIL, STALE_REJECTED} || (r.job < |s.jobs| && s.jobs[r.job].status in {FAILED, BLOCKED})
  }

  /** The signature of row `i` when its result is `actual`. */
  function SignatureOf(s: Ledger, i: nat, actual: QaResult): Signature
    requires i < |s.rows|
  {
    var r := s.rows[i];
    Signature(CategoryOf(r.role), ComponentOf(s, r), actual, r.role)
  }

  function BuildFinding(s: Ledger, i: nat, digest: Signature -> Name): Finding
    requires i < |s.rows|
  {
    Finding(i, digest(SignatureOf(s, i, s.rows[i].result)), CategoryOf(s.rows[i].role), NoRecommendation)
  }

  /** Findings of the first `n` rows. */
  function Findings(s: Ledger, scope: Scope, digest: Signature -> Name, n: nat): seq<Finding>
    requires n <= |s.rows|
  {
    if n == 0 then []
    else Findings(s, scope, digest, n - 1) +
         if InScope(s.rows[n - 1], scope) && Adverse(s, s.rows[n - 1]) then [BuildFinding(s, n - 1, digest)] else []
  }

  method CollectFindings(s: Ledger, scope: Scope, digest: Signature -> Name) returns (findings: seq<Finding>)
    ensures findings == Findings(s, scope, digest, |s.rows|)
    ensures GateOf(Results(s.rows, scope)) == GATE_FAILED ==> findings != []
  {
    findings := [];
    for n := 0 to |s.rows|
      invariant findings == Findings(s, scope, digest, n)
    {
      if InScope(s.rows[n], scope) && Adverse(s, s.rows[n]) {
        findings := findings + [BuildFinding(s, n, digest)];
      }
    }
    FailedGateHasFinding(s, scope, digest, |s.rows|);
    assert s.rows[..|s.rows|] == s.rows;
  }

  /** A failed gate always yields a finding, so a cycle always has work to create. */
  lemma {:induction false} FailedGateHasFinding(s: Ledger, scope: Scope, digest: Signature -> Name, n: nat)
    requires n <= |s.rows|
    ensures GateOf(Results(s.rows[..n], scope)) == GATE_FAILED ==> Findings(s, scope, digest, n) != []
  {
    if n > 0 {
      FailedGateHasFinding(s, scope, digest, n - 1);
      assert s.rows[..n][..n - 1] == s.rows[..n - 1];
    }
  }

  // ---------------------------------------------------------------------------
  // The event log
  // ---------------------------------------------------------------------------

  datatype Event =
    | RemediationStarted(run: Name, cycle: nat, findings: seq<Finding>)
    | AgentAssigned(run: Name, cycle: nat, agent: Agent, items: seq<Finding>)
    | LimitReached(run: Name)

  predicate Mentions(findings: seq<Finding>, fp: Name) {
    exists i :: 0 <= i < |findings| && findings[i].fingerprint == fp
  }

  predicate Addresses(e: Event, run: Name, fp: Name) {
    e.RemediationStarted? && e.run == run && Mentions(e.findings, fp)
  }

  /** How many remediation starts of a run addressed a fingerprint; a start counts once. */
  function Recurrence(events: seq<Event>, run: Name, fp: Name): nat {
    if events == [] then 0
    else Recurrence(events[..|events| - 1], run, fp) + if Addresses(events[|events| - 1], run, fp) then 1 else 0
  }

  function Starts(events: seq<Event>, run: Name): nat {
    if events == [] then 0
    else
      var e := events[|events| - 1];
      Starts(events[..|events| - 1], run) + if e.RemediationStarted? && e.run == run then 1 else 0
  }

  function Limits(events: seq<Event>, run: Name): nat {
    if events == [] then 0
    else Limits(events[..|events| - 1], run) + if events[|events| - 1] == LimitReached(run) then 1 else 0
  }

  lemma EventAppend(events: seq<Event>, e: Event)
    ensures forall run, fp :: Recurrence(events + [e], run, fp) == Recurrence(events, run, fp) + if Addresses(e, run, fp) then 1 else 0
    ensures forall run :: Starts(events + [e], run) == Starts(events, run) + if e.RemediationStarted? && e.run == run then 1 else 0
    ensures forall run :: Limits(events + [e], run) == Limits(events, run) + if e == LimitReached(run) then 1 else 0
  {
    assert (events + [e])[..|events|] == events;
  }

  method FindingRecurrence(events: seq<Event>, run: Name, fp: Name) returns (count: nat)
    ensures count == Recurrence(events, run, fp)
  {
    count := 0;
    for n := 0 to |events|
      invariant count == Recurrence(events[..n], run, fp)
    {
      assert events[..n + 1][..n] == events[..n];
      var e := events[n];
      if e.RemediationStarted? && e.run == run {
        var k := 0;
        while k < |e.findings| && e.findings[k].fingerprint != fp
          invariant k <= |e.findings|
          invariant forall i :: 0 <= i < k ==> e.findings[i].fingerprint != fp
        {
          k := k + 1;
        }
        if k < |e.findings| {
          count := count + 1;
        }
      }
    }
    assert events[..|events|] == events;
  }

  /** The first finding that has been addressed at least `limit` times. */
  method FirstRecurring(events: seq<Event>, run: Name, findings: seq<Finding>, limit: int) returns (hit: Option<nat>)
    ensures hit.Some? ==> hit.value < |findings| && Recurrence(events, run, findings[hit.value].fingerprint) >= limit
    ensures forall i :: 0 <= i < (if hit.Some? then hit.value else |findings|) ==> Recurrence(events, run, findings[i].fingerprint) < limit
  {
    for n := 0 to |findings|
      invariant forall i :: 0 <= i < n ==> Recurrence(events, run, findings[i].fingerprint) < limit
    {
      var recurrence := FindingRecurrence(events, run, findings[n].fingerprint);
      if recurrence >= limit {
        return Some(n);
      }
    }
    hit := None;
  }

  // ---------------------------------------------------------------------------
  // Evidence is never rewritten
  // ---------------------------------------------------------------------------

  function LedgerAfter(s: Ledger, steps: seq<QaLedger.Step>): Ledger {
    if steps == [] then s else QaLedger.Apply(LedgerAfter(s, steps[..|steps| - 1]), steps[|steps| - 1])
  }

  lemma {:induction false} LedgerAfterConcat(s: Ledger, a: seq<QaLedger.Step>, b: seq<QaLedger.Step>)
    ensures LedgerAfter(s, a + b) == LedgerAfter(LedgerAfter(s, a), b)
  {
    if b == [] {
      assert a + b == a;
    } else {
      var n := |b| - 1;
      assert (a + b)[..|a + b| - 1] == a + b[..n];
      LedgerAfterConcat(s, a, b[..n]);
    }
  }

  /** The ledger only grew, and every terminal result is still there. */
  ghost predicate Kept(before: Ledger, after: Ledger) {
    && Sane(after) && QaProperties.Extends(before.rows, after.rows) && QaProperties.JobsKept(before.jobs, after.jobs)
  }

  /** Every ledger the control plane can reach: one row per job, and human ids tell jobs apart. */
  ghost predicate Sane(s: Ledger) {
    QaProperties.Inv(s) && QaProperties.UniqueIds(s.jobs)
  }

  lemma ReachableIsSane(steps: seq<QaLedger.Step>)
    ensures Sane(QaLedger.Run(steps))
  {
    QaProperties.RunInv(steps);
    QaProperties.RunIds(steps);
  }

  lemma {:induction false} LedgerIsKept(s: Ledger, steps: seq<QaLedger.Step>)
    requires Sane(s)
    ensures Kept(s, LedgerAfter(s, steps))
  {
    if steps != [] {
      var mid := LedgerAfter(s, steps[..|steps| - 1]);
      LedgerIsKept(s, steps[..|steps| - 1]);
      QaProperties.StepEvolves(mid, steps[|steps| - 1]);
      QaProperties.StepKeepsIds(mid, steps[|steps| - 1]);
      KeptTransitive(s, mid, LedgerAfter(s, steps));
    }
  }

  lemma SameLedger(s: Ledger)
    requires Sane(s)
    ensures Kept(s, s)
  {
  }

  lemma KeptTransitive(a: Ledger, b: Ledger, c: Ledger)
    requires Kept(a, b) && Kept(b, c)
    ensures Kept(a, c)
  {
    QaProperties.ExtendsTrans(a.rows, b.rows, c.rows);
    QaProperties.JobsTrans(a.jobs, b.jobs, c.jobs);
  }

  /** A candidate whose gate has failed never passes later in the same run. */
  lemma FailedCandidateNeverPasses(before: Ledger, after: Ledger, scope: Scope)
    requires Kept(before, after) && GateOf(Results(before.rows, scope)) == GATE_FAILED
    ensures GateOf(Results(after.rows, scope)) == GATE_FAILED
  {
    if FAIL in Results(before.rows, scope) {
      QaProperties.TerminalStaysInScope(before.rows, after.rows, scope, FAIL);
    } else {
      QaProperties.TerminalStaysInScope(before.rows, after.rows, scope, STALE_REJECTED);
    }
  }

  // ---------------------------------------------------------------------------
  // A fingerprint names one evidence row
  // ---------------------------------------------------------------------------

  /** Because the assurance job is part of it, a signature names one row for ever: rows of any two
      stages of a ledger have the same signature exactly when they are the same row with the same
      result. */
  lemma SignatureNamesOneRow(before: Ledger, after: Ledger, i: nat, k: nat, x: QaResult, y: QaResult)
    requires QaProperties.Inv(before) && Kept(before, after) && i < |before.rows| && k < |after.rows|
    ensures SignatureOf(before, i, x) == SignatureOf(after, k, y) <==> i == k && x == y
  {
    var r, r', q := before.rows[i], after.rows[i], after.rows[k];
    assert QaProperties.RowOfJob(before, r) && QaProperties.RowKept(r, r') && QaProperties.RowOfJob(after, q);
    assert before.jobs[r.job].humanId == after.jobs[r.job].humanId;
    if SignatureOf(before, i, x) == SignatureOf(after, k, y) {
      assert after.jobs[r.job].humanId == after.jobs[q.job].humanId;
      assert r.job == q.job;
      assert r'.job == q.job;
    }
  }

  ghost predicate Injective(digest: Signature -> Name) {
    forall a, b :: digest(a) == digest(b) ==> a == b
  }

  /** The finding's fingerprint was taken from its row, whatever the row's result was then. */
  ghost predicate Traced(s: Ledger, f: Finding, digest: Signature -> Name) {
    f.row < |s.rows| && exists x :: f.fingerprint == digest(SignatureOf(s, f.row, x))
  }

  ghost predicate AllTraced(s: Ledger, findings: seq<Finding>, digest: Signature -> Name) {
    forall i :: 0 <= i < |findings| ==> Traced(s, findings[i], digest)
  }

  /** Every start in the log is about findings taken from the ledger. */
  ghost predicate LogTraced(s: Ledger, events: seq<Event>, digest: Signature -> Name) {
    forall e :: 0 <= e < |events| && events[e].RemediationStarted? ==> AllTraced(s, events[e].findings, digest)
  }

  lemma TracedIsKept(before: Ledger, after: Ledger, f: Finding, digest: Signature -> Name)
    requires QaProperties.Inv(before) && Kept(before, after) && Traced(before, f, digest)
    ensures Traced(after, f, digest)
  {
    var x :| f.fingerprint == digest(SignatureOf(before, f.row, x));
    SignatureNamesOneRow(before, after, f.row, f.row, x, x);
  }

  lemma LogAppend(s: Ledger, events: seq<Event>, e: Event, digest: Signature -> Name)
    requires LogTraced(s, events, digest) && (e.RemediationStarted? ==> AllTraced(s, e.findings, digest))
    ensures LogTraced(s, events + [e], digest)
  {
  }

  lemma LogIsKept(before: Ledger, after: Ledger, events: seq<Event>, digest: Signature -> Name)
    requires QaProperties.Inv(before) && Kept(before, after) && LogTraced(before, events, digest)
    ensures LogTraced(after, events, digest)
  {
    forall e, i | 0 <= e < |events| && events[e].RemediationStarted? && 0 <= i < |events[e].findings|
      ensures Traced(after, events[e].findings[i], digest)
    {
      assert AllTraced(before, events[e].findings, digest);
      TracedIsKept(before, after, events[e].findings[i], digest);
    }
  }

  lemma {:induction false} FindingsAreTraced(s: Ledger, scope: Scope, digest: Signature -> Name, n: nat)
    requires n <= |s.rows|
    ensures AllTraced(s, Findings(s, scope, digest, n), digest)
  {
    if n > 0 {
      FindingsAreTraced(s, scope, digest, n - 1);
      assert Traced(s, BuildFinding(s, n - 1, digest), digest);
    }
  }

  /** With an injective digest, equal fingerprints mean the same evidence row. */
  lemma SameFingerprintSameRow(s: Ledger, f: Finding, g: Finding, digest: Signature -> Name)
    requires Sane(s) && Injective(digest) && Traced(s, f, digest) && Traced(s, g, digest) && f.fingerprint == g.fingerprint
    ensures f.row == g.row
  {
    var x :| f.fingerprint == digest(SignatureOf(s, f.row, x));
    var y :| g.fingerprint == digest(SignatureOf(s, g.row, y));
    SignatureNamesOneRow(s, s, f.row, g.row, x, y);
  }

  predicate MentionsRow(findings: seq<Finding>, row: nat) {
    exists i :: 0 <= i < |findings| && findings[i].row == row
  }

  /** How many starts of a run addressed one evidence row. */
  function RowStarts(events: seq<Event>, run: Name, row: nat): nat {
    if events == [] then 0
    else
      var e := events[|events| - 1];
      RowStarts(events[..|events| - 1], run, row) + if e.RemediationStarted? && e.run == run && MentionsRow(e.findings, row) then 1 else 0
  }

  /** The recurrence of a finding counts only starts that addressed the very same evidence row.  A
      cycle that fails on new evidence, however alike, starts from zero. */
  lemma {:induction false} RecurrenceIsOfOneRow(s: Ledger, events: seq<Event>, run: Name, f: Finding, digest: Signature -> Name)
    requires Sane(s) && Injective(digest) && LogTraced(s, events, digest) && Traced(s, f, digest)
    ensures Recurrence(events, run, f.fingerprint) <= RowStarts(events, run, f.row)
  {
    if events != [] {
      var front, e := events[..|events| - 1], events[|events| - 1];
      RecurrenceIsOfOneRow(s, front, run, f, digest);
      if Addresses(e, run, f.fingerprint) {
        var i :| 0 <= i < |e.findings| && e.findings[i].fingerprint == f.fingerprint;
        assert AllTraced(s, e.findings, digest);
        SameFingerprintSameRow(s, e.findings[i], f, digest);
        assert MentionsRow(e.findings, f.row);
      }
    }
  }
}
