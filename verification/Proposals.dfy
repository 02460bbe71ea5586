/** The proposal state machine: a proposal is created pending, previewed, approved by an explicit
    sponsor message, dispatched once, and completed or failed.

    A proposal's id is its position in the table. */
module Proposals {
  import opened Prelude

  const TTL_SECONDS := 24 * 3600
  const MAX_INSTRUCTION := 2000
  const MAX_PREVIEW := 8000

  datatype Status = Pending | Approved | Dispatched | Completed | Failed | Expired

  datatype Thread = Thread(team: Name, channel: Name, ts: Name, sponsor: Name)

  datatype Intent = ReadOnly | Work | Release | Unsupported

  datatype Proposal = Proposal(
    thread: Thread, project: Name, isWork: bool, instruction: string,
    preview: Option<string>, approval: Option<Name>, status: Status, expires: int)

  type Table = seq<Proposal>

  datatype CreateError = NoProject | UnsupportedIntent | NotAMutation | NoInstruction

  datatype Refusal = NotAnApproval | NothingPending | SeveralPending | ProjectChanged | NotPreviewed

  function Cut(s: string, n: nat): string {
    if |s| <= n then s else s[..n]
  }

  predicate PendingIn(p: Proposal, thread: Thread) {
    p.status == Pending && p.thread == thread
  }

  // ---------------------------------------------------------------------------
  // Table operations
  // ---------------------------------------------------------------------------

  function ExpireRow(p: Proposal, thread: Thread, now: int): Proposal {
    if PendingIn(p, thread) && p.expires <= now then p.(status := Expired) else p
  }

  /** Listing a thread's pending proposals retires those past their deadline. */
  function ExpireThread(t: Table, thread: Thread, now: int): (r: Table)
    ensures |r| == |t| && forall i :: 0 <= i < |t| ==> r[i] == ExpireRow(t[i], thread, now)
  {
    seq(|t|, i requires 0 <= i < |t| => ExpireRow(t[i], thread, now))
  }

  function PendingIds(t: Table, thread: Thread, n: nat): (r: seq<nat>)
    requires n <= |t|
    ensures forall k :: 0 <= k < |r| ==> r[k] < n && PendingIn(t[r[k]], thread)
  {
    if n == 0 then [] else PendingIds(t, thread, n - 1) + if PendingIn(t[n - 1], thread) then [n - 1] else []
  }

  function Refused(project: Name, intent: Intent, instruction: string): Option<CreateError> {
    if project.text == "" then Some(NoProject)
    else if intent == Unsupported then Some(UnsupportedIntent)
    else if intent == ReadOnly then Some(NotAMutation)
    else if instruction == "" then Some(NoInstruction)
    else None
  }

  function NewProposal(thread: Thread, project: Name, intent: Intent, instruction: string, now: int): Proposal {
    Proposal(thread, project, intent == Work, Cut(instruction, MAX_INSTRUCTION), None, None, Pending, now + TTL_SECONDS)
  }

  predicate HasPending(t: Table, thread: Thread, project: Name) {
    exists i :: 0 <= i < |t| && PendingIn(t[i], thread) && t[i].project == project
  }

  function Created(t: Table, thread: Thread, project: Name, intent: Intent, instruction: string, now: int): Table {
    if Refused(project, intent, instruction).Some? then t
    else
      var t' := ExpireThread(t, thread, now);
      if HasPending(t', thread, project) then t' else t' + [NewProposal(thread, project, intent, instruction, now)]
  }

  function Previewed(t: Table, id: nat, text: string): Table {
    if id < |t| && t[id].status == Pending then t[id := t[id].(preview := Some(Cut(text, MAX_PREVIEW)))] else t
  }

  /** Which proposal an approval message settles, after expiry, or why it settles none. */
  function ApprovalTarget(t: Table, thread: Thread, project: Option<Name>): (r: Result<nat, Refusal>)
    ensures r.Ok? ==> r.value < |t| && PendingIn(t[r.value], thread)
  {
    var ids := PendingIds(t, thread, |t|);
    if ids == [] then Err(NothingPending)
    else if |ids| > 1 then Err(SeveralPending)
    else if project.Some? && project.value.text != "" && t[ids[0]].project != project.value then Err(ProjectChanged)
    else if t[ids[0]].isWork && t[ids[0]].preview in {None, Some("")} then Err(NotPreviewed)
    else Ok(ids[0])
  }

  function ApprovedTable(t: Table, thread: Thread, project: Option<Name>, ts: Name, looksLikeApproval: bool, now: int): Table {
    if !looksLikeApproval then t
    else
      var t' := ExpireThread(t, thread, now);
      var target := ApprovalTarget(t', thread, project);
      if target.Ok? then t'[target.value := t'[target.value].(status := Approved, approval := Some(ts))] else t'
  }

  function Moved(t: Table, id: nat, from: set<Status>, to: Status): Table {
    if id < |t| && t[id].status in from then t[id := t[id].(status := to)] else t
  }

  // ---------------------------------------------------------------------------
  // Runs
  // ---------------------------------------------------------------------------

  datatype State = State(rows: Table, now: int)

  datatype Step =
    | Tick(seconds: nat)
    | Create(thread: Thread, project: Name, intent: Intent, instruction: string)
    | List(thread: Thread)
    | Preview(id: nat, text: string)
    | Approve(thread: Thread, inProject: Option<Name>, ts: Name, looksLikeApproval: bool)
    | Expire(id: nat)
    | Dispatch(id: nat)
    | Complete(id: nat)
    | Fail(id: nat)

  function Apply(s: State, step: Step): State {
    match step
    case Tick(n) => s.(now := s.now + n)
    case Create(thread, project, intent, instruction) => s.(rows := Created(s.rows, thread, project, intent, instruction, s.now))
    case List(thread) => s.(rows := ExpireThread(s.rows, thread, s.now))
    case Preview(id, text) => s.(rows := Previewed(s.rows, id, text))
    case Approve(thread, project, ts, ok) => s.(rows := ApprovedTable(s.rows, thread, project, ts, ok, s.now))
    case Expire(id) => s.(rows := Moved(s.rows, id, {Pending}, Expired))
    case Dispatch(id) => s.(rows := Moved(s.rows, id, {Approved}, Dispatched))
    case Complete(id) => s.(rows := Moved(s.rows, id, {Dispatched}, Completed))
    case Fail(id) => s.(rows := Moved(s.rows, id, {Approved, Dispatched}, Failed))
  }

  function Run(steps: seq<Step>): State {
    if steps == [] then State([], 0) else Apply(Run(steps[..|steps| - 1]), steps[|steps| - 1])
  }

  // ---------------------------------------------------------------------------
  // One pending proposal per thread, sponsor and project
  // ---------------------------------------------------------------------------

  ghost predicate OnePending(t: Table) {
    forall i, j :: 0 <= i < j < |t| && t[i].status == Pending && t[j].status == Pending ==>
      t[i].thread != t[j].thread || t[i].project != t[j].project
  }

  lemma OnePendingStep(s: State, step: Step)
    requires OnePending(s.rows)
    ensures OnePending(Apply(s, step).rows)
  {
  }

  /** In every run a thread's sponsor has at most one pending proposal per project, so the unique
      index on pending proposals is never violated. */
  lemma {:induction false} AtMostOnePending(steps: seq<Step>)
    ensures OnePending(Run(steps).rows)
  {
    if steps != [] {
      AtMostOnePending(steps[..|steps| - 1]);
      OnePendingStep(Run(steps[..|steps| - 1]), steps[|steps| - 1]);
    }
  }

  // ---------------------------------------------------------------------------
  // Dispatched at most once
  // ---------------------------------------------------------------------------

  /** How often a dispatch step took the proposal from approved to dispatched. */
  function Dispatches(steps: seq<Step>, id: nat): nat {
    if steps == [] then 0
    else
      var front, last := steps[..|steps| - 1], steps[|steps| - 1];
      var rows := Run(front).rows;
      Dispatches(front, id) + if last == Dispatch(id) && id < |rows| && rows[id].status == Approved then 1 else 0
  }

  /** The moves a step can make on one proposal. */
  lemma StatusMoves(s: State, step: Step, id: nat)
    requires id < |s.rows|
    ensures id < |Apply(s, step).rows|
    ensures
      var was, now := s.rows[id].status, Apply(s, step).rows[id].status;
      && (was == Pending ==> now in {Pending, Expired, Approved})
      && (was == Approved ==> now in {Approved, Dispatched, Failed})
      && (was == Dispatched ==> now in {Dispatched, Completed, Failed})
      && (was in {Completed, Failed, Expired} ==> now == was)
      && (was == Approved ==> (now == Dispatched <==> step == Dispatch(id)))
  {
  }

  /** A step only ever appends pending proposals. */
  lemma NewIsPending(s: State, step: Step, id: nat)
    requires |s.rows| <= id < |Apply(s, step).rows|
    ensures Apply(s, step).rows[id].status == Pending
  {
  }

  lemma {:induction false} DispatchesByStatus(steps: seq<Step>, id: nat)
    ensures
      var rows, n := Run(steps).rows, Dispatches(steps, id);
      && n <= 1
      && (id >= |rows| || rows[id].status in {Pending, Approved, Expired} ==> n == 0)
      && (id < |rows| && rows[id].status in {Dispatched, Completed} ==> n == 1)
  {
    if steps != [] {
      var front, last := steps[..|steps| - 1], steps[|steps| - 1];
      DispatchesByStatus(front, id);
      if id < |Run(front).rows| {
        StatusMoves(Run(front), last, id);
      } else if id < |Run(steps).rows| {
        NewIsPending(Run(front), last, id);
      }
    }
  }

  // ---------------------------------------------------------------------------
  // Approval freezes what is executed
  // ---------------------------------------------------------------------------

  /** The part of a proposal the sponsor approved. */
  ghost predicate SameContent(p: Proposal, q: Proposal) {
    p == q.(status := p.status)
  }

  /** Once decided, only the status of a proposal ever changes. */
  lemma DecidedIsFrozen(s: State, step: Step, id: nat)
    requires id < |s.rows| && s.rows[id].status != Pending
    ensures id < |Apply(s, step).rows| && SameContent(Apply(s, step).rows[id], s.rows[id])
    ensures Apply(s, step).rows[id].status != Pending
  {
  }

  /** Step `k` approved proposal `id` with its current content. */
  ghost predicate ApprovedAt(steps: seq<Step>, k: nat, id: nat)
    requires k < |steps| && id < |Run(steps).rows|
  {
    var before, after, now := Run(steps[..k]).rows, Run(steps[..k + 1]).rows, Run(steps).rows[id];
    && steps[k].Approve? && steps[k].looksLikeApproval
    && id < |before| && before[id].status == Pending && before[id].thread == steps[k].thread
    && now.expires > Run(steps[..k]).now
    && id < |after| && after[id].status == Approved && SameContent(now, after[id])
    && now.approval == Some(steps[k].ts)
    && now == before[id].(status := now.status, approval := now.approval)
    && (now.isWork ==> now.preview.Some? && now.preview.value != "")
  }

  /** Only an approval step makes a proposal approved, and only on the recorded terms. */
  lemma ApprovalStep(s: State, step: Step, id: nat)
    requires id < |Apply(s, step).rows| && Apply(s, step).rows[id].status == Approved
    requires id < |s.rows| ==> s.rows[id].status != Approved
    ensures step.Approve? && step.looksLikeApproval && id < |s.rows|
    ensures s.rows[id].status == Pending && s.rows[id].thread == step.thread && s.rows[id].expires > s.now
    ensures Apply(s, step).rows[id] == s.rows[id].(status := Approved, approval := Some(step.ts))
    ensures s.rows[id].isWork ==> s.rows[id].preview.Some? && s.rows[id].preview.value != ""
  {
  }

  lemma ApprovedAtExtends(front: seq<Step>, last: Step, k: nat, id: nat)
    requires k < |front| && id < |Run(front).rows| && ApprovedAt(front, k, id) && Run(front).rows[id].status != Pending
    ensures id < |Run(front + [last]).rows| && ApprovedAt(front + [last], k, id)
  {
    var steps := front + [last];
    assert steps[..|front|] == front && steps[..k] == front[..k] && steps[..k + 1] == front[..k + 1];
    DecidedIsFrozen(Run(front), last, id);
  }

  lemma ApprovedAtLast(front: seq<Step>, last: Step, id: nat)
    requires
      var rows := Run(front + [last]).rows;
      id < |rows| && rows[id].status == Approved && (id < |Run(front).rows| ==> Run(front).rows[id].status != Approved)
    ensures ApprovedAt(front + [last], |front|, id)
  {
    var steps := front + [last];
    assert steps[..|front|] == front && steps[..|front| + 1] == steps;
    ApprovalStep(Run(front), last, id);
  }

  /** Every proposal that was ever approved — so every dispatched or completed one — carries the
      approval message, and its instruction and preview are those the sponsor approved; a work
      proposal's preview is not empty. */
  lemma {:induction false} ExecutedWasApproved(steps: seq<Step>, id: nat)
    requires id < |Run(steps).rows| && Run(steps).rows[id].status in {Approved, Dispatched, Completed, Failed}
    ensures exists k :: 0 <= k < |steps| && ApprovedAt(steps, k, id)
  {
    var front, last := steps[..|steps| - 1], steps[|steps| - 1];
    var rows := Run(front).rows;
    assert steps == front + [last];
    if id >= |rows| {
      NewIsPending(Run(front), last, id);
    } else {
      StatusMoves(Run(front), last, id);
      if rows[id].status == Pending {
        ApprovedAtLast(front, last, id);
      } else {
        ExecutedWasApproved(front, id);
        var k :| 0 <= k < |front| && ApprovedAt(front, k, id);
        ApprovedAtExtends(front, last, k, id);
      }
    }
  }

  // ---------------------------------------------------------------------------
  // The table
  // ---------------------------------------------------------------------------

  class ProposalTable {
    var rows: Table

    constructor ()
      ensures rows == []
    {
      rows := [];
    }

    method ListPending(thread: Thread, now: int) returns (ids: seq<nat>)
      modifies this
      ensures rows == ExpireThread(old(rows), thread, now)
      ensures ids == PendingIds(rows, thread, |rows|)
    {
      ids := [];
      ghost var t := ExpireThread(rows, thread, now);
      for i := 0 to |rows|
        invariant |rows| == |t|
        invariant forall k :: 0 <= k < |t| ==> rows[k] == if k < i then t[k] else old(rows)[k]
        invariant ids == PendingIds(t, thread, i)
      {
        if PendingIn(rows[i], thread) {
          if rows[i].expires <= now {
            rows := rows[i := rows[i].(status := Expired)];
          } else {
            ids := ids + [i];
          }
        }
      }
      assert rows == t;
    }

    method CreateProposal(thread: Thread, project: Name, intent: Intent, instruction: string, now: int)
      returns (r: Result<nat, CreateError>)
      modifies this
      ensures rows == Created(old(rows), thread, project, intent, instruction, now)
      ensures r.Err? <==> Refused(project, intent, instruction).Some?
      ensures r.Err? ==> r.error == Refused(project, intent, instruction).value
      ensures r.Ok? ==> r.value < |rows| && PendingIn(rows[r.value], thread) && rows[r.value].project == project
    {
      var refused := Refused(project, intent, instruction);
      if refused.Some? {
        return Err(refused.value);
      }
      var ids := ListPending(thread, now);
      for k := 0 to |ids|
        invariant rows == ExpireThread(old(rows), thread, now)
        invariant forall j :: 0 <= j < k ==> rows[ids[j]].project != project
      {
        if rows[ids[k]].project == project {
          return Ok(ids[k]);
        }
      }
      AllPendingListed(rows, thread, |rows|);
      rows := rows + [NewProposal(thread, project, intent, instruction, now)];
      return Ok(|rows| - 1);
    }

    method SavePreview(id: nat, text: string)
      modifies this
      ensures rows == Previewed(old(rows), id, text)
    {
      if id < |rows| && rows[id].status == Pending {
        rows := rows[id := rows[id].(preview := Some(Cut(text, MAX_PREVIEW)))];
      }
    }

    method ApprovePending(thread: Thread, project: Option<Name>, ts: Name, looksLikeApproval: bool, now: int)
      returns (r: Result<nat, Refusal>)
      modifies this
      ensures rows == ApprovedTable(old(rows), thread, project, ts, looksLikeApproval, now)
      ensures r == if looksLikeApproval then ApprovalTarget(ExpireThread(old(rows), thread, now), thread, project) else Err(NotAnApproval)
      ensures r.Ok? ==> r.value < |rows| && rows[r.value].status == Approved && rows[r.value].approval == Some(ts)
    {
      if !looksLikeApproval {
        return Err(NotAnApproval);
      }
      var ids := ListPending(thread, now);
      if ids == [] {
        return Err(NothingPending);
      }
      if |ids| > 1 {
        return Err(SeveralPending);
      }
      var p := rows[ids[0]];
      if project.Some? && project.value.text != "" && p.project != project.value {
        return Err(ProjectChanged);
      }
      if p.isWork && p.preview in {None, Some("")} {
        return Err(NotPreviewed);
      }
      rows := rows[ids[0] := p.(status := Approved, approval := Some(ts))];
      return Ok(ids[0]);
    }

    /** A guarded status update; reports whether the row was moved. */
    method Move(id: nat, from: set<Status>, to: Status) returns (moved: bool)
      modifies this
      ensures rows == Moved(old(rows), id, from, to)
      ensures moved <==> id < |old(rows)| && old(rows)[id].status in from
    {
      moved := id < |rows| && rows[id].status in from;
      if moved {
        rows := rows[id := rows[id].(status := to)];
      }
    }
  }

  lemma {:induction false} AllPendingListed(t: Table, thread: Thread, n: nat)
    requires n <= |t|
    ensures forall i :: 0 <= i < n && PendingIn(t[i], thread) ==> i in PendingIds(t, thread, n)
  {
    if n > 0 {
      AllPendingListed(t, thread, n - 1);
    }
  }
}
