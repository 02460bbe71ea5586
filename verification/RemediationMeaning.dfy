/** What the tables and findings of the remediation loop mean, column by column. */
module RemediationMeaning {
  import opened Prelude
  import opened Jobs
  import opened QaTypes
  import opened QaLedger
  import opened QaMeaning
  import opened RemediationStore
  import opened RemediationCapability
  import opened RemediationLog
  import opened RemediationCycle

  // ---------------------------------------------------------------------------
  // Who executes
  // ---------------------------------------------------------------------------

  /** Security and architecture findings go to the developer whoever owns them; a recommended delivery or
      release agent is followed otherwise; and without one the category decides. */
  lemma AssignmentRules(f: Finding)
    ensures f.category == SECURITY_FINDING || f.category == ARCHITECTURE_VIOLATION ==> AssignedAgent(f) == DEVELOPER
    ensures f.category != SECURITY_FINDING && f.category != ARCHITECTURE_VIOLATION ==>
      && (f.recommended == RecommendAgent(DELIVERY_AGENT) ==> AssignedAgent(f) == DELIVERY_AGENT)
      && (f.recommended == RecommendAgent(RELEASE_AGENT) ==> AssignedAgent(f) == RELEASE_AGENT)
      && (f.recommended != RecommendAgent(DELIVERY_AGENT) && f.recommended != RecommendAgent(RELEASE_AGENT) ==>
          && (f.category == PACKAGING_DEFECT || f.category == DELIVERY_CONFIGURATION ==> AssignedAgent(f) == DELIVERY_AGENT)
          && (f.category == RELEASE_CONFIGURATION ==> AssignedAgent(f) == RELEASE_AGENT)
          && (f.category in {SOURCE_CODE_DEFECT, TEST_INFRASTRUCTURE, DOCUMENTATION_GOVERNANCE, UNKNOWN} ==> AssignedAgent(f) == DEVELOPER))
  {
  }

  /** Whoever is recommended owns the finding; otherwise security and architecture findings belong to their assessors,
      what concerns documents or nobody to the PM, and everything else to the agent that executes it. */
  lemma OwnerRules(f: Finding)
    ensures f.recommended.RecommendAgent? ==> OwnerOf(f) == f.recommended.agent
    ensures f.recommended.NoRecommendation? ==>
      && (OwnerOf(f) == SECURITY_AGENT <==> f.category == SECURITY_FINDING)
      && (OwnerOf(f) == ARCHITECTURE_AGENT <==> f.category == ARCHITECTURE_VIOLATION)
      && (OwnerOf(f) == PM_AGENT <==> f.category == DOCUMENTATION_GOVERNANCE || f.category == UNKNOWN)
      && (OwnerOf(f) in {DEVELOPER, DELIVERY_AGENT, RELEASE_AGENT} ==> AssignedAgent(f) == OwnerOf(f))
  {
  }

  // ---------------------------------------------------------------------------
  // Findings
  // ---------------------------------------------------------------------------

  /** The row reports a failure or a stale rejection, or its assurance job ended badly. */
  predicate ReportsDefect(s: Ledger, r: Row) {
    || r.result == FAIL || r.result == STALE_REJECTED
    || (r.job < |s.jobs| && (s.jobs[r.job].status == FAILED || s.jobs[r.job].status == BLOCKED))
  }

  /** The defect category of an assurance role. */
  ghost predicate CategoryFor(role: Queue, c: Category) {
    match c
    case SOURCE_CODE_DEFECT => role == ASSURANCE_FUNCTIONAL || role == ASSURANCE_INTEGRATION
    case SECURITY_FINDING => role == ASSURANCE_SECURITY
    case TEST_INFRASTRUCTURE => role == ASSURANCE_QUALITY
    case UNKNOWN => role !in {ASSURANCE_FUNCTIONAL, ASSURANCE_INTEGRATION, ASSURANCE_SECURITY, ASSURANCE_QUALITY}
    case _ => false
  }

  /** The finding is taken from row `i`: its category is the role's, nobody is recommended, and its fingerprint
      digests the category, the assurance job's id, the result and the role. */
  ghost predicate TakenFrom(s: Ledger, i: nat, f: Finding, digest: Signature -> Name)
    requires i < |s.rows|
  {
    var r := s.rows[i];
    && f.row == i && CategoryFor(r.role, f.category) && f.recommended == NoRecommendation
    && f.fingerprint == digest(Signature(f.category, if r.job < |s.jobs| then OfJob(s.jobs[r.job].humanId) else OfRole(r.role), r.result, r.role))
  }

  lemma BuiltIsTaken(s: Ledger, i: nat, f: Finding, digest: Signature -> Name)
    requires i < |s.rows|
    ensures f == BuildFinding(s, i, digest) <==> TakenFrom(s, i, f, digest)
  {
  }

  /** The findings of a scope are those taken from its defect rows, one each, in ledger order. */
  lemma {:induction false} FindingsAre(s: Ledger, project: Name, sha: Option<Name>, run: Option<Name>, digest: Signature -> Name, n: nat, f: Finding)
    requires n <= |s.rows|
    ensures
      var findings := Findings(s, GateScope(project, sha, run), digest, n);
      && (f in findings <==> f.row < n && Concerns(s.rows[f.row], project, sha, run) && ReportsDefect(s, s.rows[f.row]) && TakenFrom(s, f.row, f, digest))
      && InRowOrder(findings, n)
  {
    if n > 0 {
      FindingsAre(s, project, sha, run, digest, n - 1, f);
      BuiltIsTaken(s, n - 1, f, digest);
      var scope := GateScope(project, sha, run);
      assert InScope(s.rows[n - 1], scope) <==> Concerns(s.rows[n - 1], project, sha, run);
      assert Adverse(s, s.rows[n - 1]) <==> ReportsDefect(s, s.rows[n - 1]);
      RowOrderStep(Findings(s, scope, digest, n - 1), BuildFinding(s, n - 1, digest), n - 1);
    }
  }

  ghost predicate InRowOrder(findings: seq<Finding>, n: nat) {
    (forall i :: 0 <= i < |findings| ==> findings[i].row < n) && forall i, j :: 0 <= i < j < |findings| ==> findings[i].row < findings[j].row
  }

  lemma RowOrderStep(findings: seq<Finding>, f: Finding, n: nat)
    requires InRowOrder(findings, n) && f.row == n
    ensures InRowOrder(findings, n + 1) && InRowOrder(findings + [f], n + 1)
  {
  }

  /** Without an active candidate the newest evidence of the project decides. */
  lemma {:induction false} NewestEvidenceDecides(rows: seq<Row>, project: Name, c: Name)
    ensures LastCandidate(rows, project) == Some(c) <==>
      exists i :: 0 <= i < |rows| && rows[i].project == project && rows[i].candidate == c && forall k :: i < k < |rows| ==> rows[k].project != project
  {
    if rows != [] {
      var n := |rows| - 1;
      var front := rows[..n];
      NewestEvidenceDecides(front, project, c);
      assert forall k :: 0 <= k < n ==> front[k] == rows[k];
      if rows[n].project != project {
        if i :| 0 <= i < n && front[i].project == project && front[i].candidate == c && forall k :: i < k < n ==> front[k].project != project {
          assert rows[i].project == project && forall k :: i < k < |rows| ==> rows[k].project != project;
        }
      }
    }
  }

  // ---------------------------------------------------------------------------
  // Cycle numbers
  // ---------------------------------------------------------------------------

  /** The numbers counted are those of the run's rows in one of four statuses. */
  lemma CountedNumbers(works: seq<Work>, run: Name, c: nat)
    ensures c in Cycles(works, run) <==>
      exists i :: 0 <= i < |works| && works[i].run == run && works[i].cycle == c
        && (works[i].status == WORK_COMPLETED || works[i].status == WORK_FAILED || works[i].status == WORK_RUNNING || works[i].status == WORK_ASSIGNED)
  {
    CyclesHave(works, run, c);
  }

  /** The number each writer gives its row. */
  lemma WriterNumbers(works: seq<Work>, run: Name, agent: Agent)
    ensures RemediationStore.Apply(works, Create(run, Directive, agent)) == works + [Work.Work(run, 0, WORK_ASSIGNED, agent)]
    ensures RemediationStore.Apply(works, Create(run, Repair, agent)) == works + [Work.Work(run, 1, WORK_ASSIGNED, agent)]
    ensures RemediationStore.Apply(works, Create(run, NextCycle, agent)) == works + [Work.Work(run, |Cycles(works, run)| + 1, WORK_ASSIGNED, agent)]
  {
  }
}
