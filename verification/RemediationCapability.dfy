/** Who executes the correction of a finding, and how findings are grouped into work. */
module RemediationCapability {
  import opened Prelude
  import opened RemediationStore

  datatype Category =
    | SOURCE_CODE_DEFECT | ARCHITECTURE_VIOLATION | SECURITY_FINDING | PACKAGING_DEFECT | DELIVERY_CONFIGURATION
    | TEST_INFRASTRUCTURE | RELEASE_CONFIGURATION | DOCUMENTATION_GOVERNANCE | UNKNOWN

  /** The owner an assessor recommends, when it names one. */
  datatype Recommended = NoRecommendation | RecommendAgent(agent: Agent)

  /** A finding: the evidence row it comes from, the signature of the defect, and how it is routed. */
  datatype Finding = Finding(row: nat, fingerprint: Name, category: Category, recommended: Recommended)

  function CategoryAgent(c: Category): Agent {
    match c
    case SOURCE_CODE_DEFECT => DEVELOPER
    case ARCHITECTURE_VIOLATION => ARCHITECTURE_AGENT
    case SECURITY_FINDING => SECURITY_AGENT
    case PACKAGING_DEFECT => DELIVERY_AGENT
    case DELIVERY_CONFIGURATION => DELIVERY_AGENT
    case TEST_INFRASTRUCTURE => DEVELOPER
    case RELEASE_CONFIGURATION => RELEASE_AGENT
    case DOCUMENTATION_GOVERNANCE => PM_AGENT
    case UNKNOWN => PM_AGENT
  }

  function Executor(c: Category): Agent {
    match c
    case PACKAGING_DEFECT => DELIVERY_AGENT
    case DELIVERY_CONFIGURATION => DELIVERY_AGENT
    case RELEASE_CONFIGURATION => RELEASE_AGENT
    case _ => DEVELOPER
  }

  function OwnerOf(f: Finding): Agent {
    if f.recommended.RecommendAgent? then f.recommended.agent else CategoryAgent(f.category)
  }

  /** The agent that executes the correction: owners of security and architecture findings advise only. */
  function AssignedAgent(f: Finding): Agent {
    if f.category in {SECURITY_FINDING, ARCHITECTURE_VIOLATION} then Executor(f.category)
    else if OwnerOf(f) in {DELIVERY_AGENT, RELEASE_AGENT} then OwnerOf(f)
    else Executor(f.category)
  }

  predicate AssessorAgent(a: Agent) {
    a in {QA_AGENT, SECURITY_AGENT, ARCHITECTURE_AGENT, PM_AGENT}
  }

  // ---------------------------------------------------------------------------
  // Grouping
  // ---------------------------------------------------------------------------

  datatype Group = Group(agent: Agent, items: seq<Finding>)

  /** Adds a finding to the bucket of its agent, or opens a new bucket at the end. */
  function Place(groups: seq<Group>, f: Finding): seq<Group> {
    if groups == [] then [Group(AssignedAgent(f), [f])]
    else if groups[0].agent == AssignedAgent(f) then [groups[0].(items := groups[0].items + [f])] + groups[1..]
    else [groups[0]] + Place(groups[1..], f)
  }

  function Groups(findings: seq<Finding>): seq<Group> {
    if findings == [] then [] else Place(Groups(findings[..|findings| - 1]), findings[|findings| - 1])
  }

  method GroupFindings(findings: seq<Finding>) returns (groups: seq<Group>)
    ensures groups == Groups(findings)
  {
    groups := [];
    for n := 0 to |findings|
      invariant groups == Groups(findings[..n])
    {
      assert findings[..n + 1][..n] == findings[..n];
      groups := Place(groups, findings[n]);
    }
    assert findings[..|findings|] == findings;
  }

  /** A bucket is not empty, holds only its own agent's findings, and its agent is no assessor. */
  ghost predicate Proper(group: Group) {
    group.items != [] && !AssessorAgent(group.agent) && forall f :: f in group.items ==> AssignedAgent(f) == group.agent
  }

  /** All buckets are proper and no two share an agent. */
  ghost predicate Sorted(groups: seq<Group>) {
    && (forall g :: 0 <= g < |groups| ==> Proper(groups[g]))
    && (forall g, h :: 0 <= g < h < |groups| ==> groups[g].agent != groups[h].agent)
  }

  function Total(groups: seq<Group>): nat {
    if groups == [] then 0 else |groups[0].items| + Total(groups[1..])
  }

  ghost predicate Holds(groups: seq<Group>, f: Finding) {
    exists g :: 0 <= g < |groups| && f in groups[g].items
  }

  lemma HoldsCons(groups: seq<Group>, f: Finding)
    requires groups != []
    ensures Holds(groups, f) <==> f in groups[0].items || Holds(groups[1..], f)
  {
    if Holds(groups, f) {
      var g :| 0 <= g < |groups| && f in groups[g].items;
      if g > 0 {
        assert f in groups[1..][g - 1].items;
      }
    }
    if Holds(groups[1..], f) {
      var g :| 0 <= g < |groups[1..]| && f in groups[1..][g].items;
      assert f in groups[g + 1].items;
    }
  }

  /** `first` is proper and its agent does not recur in `rest`. */
  ghost predicate Leads(first: Group, rest: seq<Group>) {
    Proper(first) && forall h :: 0 <= h < |rest| ==> rest[h].agent != first.agent
  }

  lemma SortedCons(groups: seq<Group>)
    requires groups != []
    ensures Sorted(groups) <==> Leads(groups[0], groups[1..]) && Sorted(groups[1..])
  {
    var rest := groups[1..];
    assert forall h :: 0 <= h < |rest| ==> rest[h] == groups[h + 1];
    if Leads(groups[0], rest) && Sorted(rest) {
      forall g | 0 <= g < |groups|
        ensures Proper(groups[g])
      {
        assert g > 0 ==> groups[g] == rest[g - 1];
      }
      forall g, h | 0 <= g < h < |groups|
        ensures groups[g].agent != groups[h].agent
      {
        assert groups[h] == rest[h - 1];
        assert g > 0 ==> groups[g] == rest[g - 1];
      }
    }
  }

  ghost predicate AgentIn(groups: seq<Group>, a: Agent) {
    exists g :: 0 <= g < |groups| && groups[g].agent == a
  }

  lemma AgentInCons(groups: seq<Group>, a: Agent)
    requires groups != []
    ensures AgentIn(groups, a) <==> groups[0].agent == a || AgentIn(groups[1..], a)
  {
    if AgentIn(groups, a) {
      var g :| 0 <= g < |groups| && groups[g].agent == a;
      if g > 0 {
        assert groups[1..][g - 1].agent == a;
      }
    }
    if AgentIn(groups[1..], a) {
      var g :| 0 <= g < |groups[1..]| && groups[1..][g].agent == a;
      assert groups[g + 1].agent == a;
    }
  }

  /** The tail of a placement: either the tail itself or the placement into it. */
  lemma PlaceTail(groups: seq<Group>, f: Finding)
    requires groups != []
    ensures
      var r := Place(groups, f);
      && |r| > 0 && r[0].agent == groups[0].agent
      && (groups[0].agent == AssignedAgent(f) ==> r[0].items == groups[0].items + [f] && r[1..] == groups[1..])
      && (groups[0].agent != AssignedAgent(f) ==> r[0] == groups[0] && r[1..] == Place(groups[1..], f))
  {
  }

  lemma {:induction false} PlaceAddsOne(groups: seq<Group>, f: Finding)
    ensures Total(Place(groups, f)) == Total(groups) + 1
  {
    if groups != [] {
      PlaceTail(groups, f);
      PlaceAddsOne(groups[1..], f);
    }
  }

  lemma {:induction false} PlaceHolds(groups: seq<Group>, f: Finding, x: Finding)
    ensures Holds(Place(groups, f), x) <==> Holds(groups, x) || x == f
  {
    if groups == [] {
      assert Place(groups, f)[0].items == [f];
    } else {
      PlaceTail(groups, f);
      HoldsCons(groups, x);
      HoldsCons(Place(groups, f), x);
      PlaceHolds(groups[1..], f, x);
    }
  }

  lemma {:induction false} PlaceAgents(groups: seq<Group>, f: Finding, a: Agent)
    ensures AgentIn(Place(groups, f), a) <==> AgentIn(groups, a) || a == AssignedAgent(f)
  {
    if groups == [] {
      assert Place(groups, f)[0].agent == AssignedAgent(f);
    } else {
      PlaceTail(groups, f);
      AgentInCons(groups, a);
      AgentInCons(Place(groups, f), a);
      PlaceAgents(groups[1..], f, a);
    }
  }

  lemma {:induction false} PlaceKeepsSorted(groups: seq<Group>, f: Finding)
    requires Sorted(groups)
    ensures Sorted(Place(groups, f))
  {
    if groups != [] {
      var r := Place(groups, f);
      PlaceTail(groups, f);
      SortedCons(groups);
      SortedCons(r);
      PlaceKeepsSorted(groups[1..], f);
      PlaceAgents(groups[1..], f, groups[0].agent);
      assert !AgentIn(groups[1..], groups[0].agent);
      assert forall h :: 0 <= h < |r[1..]| ==> r[1..][h].agent != groups[0].agent;
    }
  }

  /** Grouping is a partition: every finding is in a group and nothing else is, the group sizes add
      up, no two groups share an executing agent, and no group goes to an assessor. */
  lemma {:induction false} GroupsPartition(findings: seq<Finding>)
    ensures Sorted(Groups(findings)) && Total(Groups(findings)) == |findings|
    ensures forall x :: Holds(Groups(findings), x) <==> x in findings
    ensures Groups(findings) == [] <==> findings == []
  {
    if findings != [] {
      var front, last := findings[..|findings| - 1], findings[|findings| - 1];
      GroupsPartition(front);
      PlaceAddsOne(Groups(front), last);
      PlaceKeepsSorted(Groups(front), last);
      forall x
        ensures Holds(Groups(findings), x) <==> x in findings
      {
        PlaceHolds(Groups(front), last, x);
        assert x in findings <==> x in front || x == last;
      }
    }
  }

  /** A finding is in one group only: the group of the agent that executes it. */
  lemma OneGroupEach(findings: seq<Finding>, f: Finding, g: nat, h: nat)
    requires g < |Groups(findings)| && h < |Groups(findings)|
    requires f in Groups(findings)[g].items && f in Groups(findings)[h].items
    ensures g == h && Groups(findings)[g].agent == AssignedAgent(f) && f in findings
  {
    GroupsPartition(findings);
    assert Holds(Groups(findings), f);
    var groups := Groups(findings);
    assert groups[g].agent == AssignedAgent(f) == groups[h].agent;
  }

  /** No finding is ever assigned to an assessor, whatever owner was recommended. */
  lemma NeverAnAssessor(f: Finding)
    ensures AssignedAgent(f) in {DEVELOPER, DELIVERY_AGENT, RELEASE_AGENT} && !AssessorAgent(AssignedAgent(f))
  {
  }
}
