/** What each operation on proposals does to the columns of a row, without naming the functions that compute it. */
module ProposalMeaning {
  import opened Prelude
  import opened Proposals

  // ---------------------------------------------------------------------------
  // Approval
  // ---------------------------------------------------------------------------

  /** A proposal an approval in this thread could settle: pending, of the thread, before its deadline. */
  predicate Eligible(p: Proposal, thread: Thread, now: int) {
    p.status == Pending && p.thread == thread && p.expires > now
  }

  /** The message names another project than the proposal's. */
  predicate Elsewhere(p: Proposal, project: Option<Name>) {
    project.Some? && project.value.text != "" && project.value != p.project
  }

  predicate Unseen(p: Proposal) {
    p.isWork && (p.preview.None? || p.preview.value == "")
  }

  ghost predicate SoleEligible(t: Table, i: nat, thread: Thread, now: int) {
    && i < |t| && Eligible(t[i], thread, now)
    && forall j :: 0 <= j < |t| && Eligible(t[j], thread, now) ==> j == i
  }

  ghost predicate SeveralEligible(t: Table, thread: Thread, now: int) {
    exists i, j :: 0 <= i < j < |t| && Eligible(t[i], thread, now) && Eligible(t[j], thread, now)
  }

  /** The ids of a thread's eligible proposals, each once, oldest first. */
  ghost predicate Lists(ids: seq<nat>, t: Table, thread: Thread, now: int) {
    && (forall i :: 0 <= i < |t| && Eligible(t[i], thread, now) ==> i in ids)
    && (forall k :: 0 <= k < |ids| ==> ids[k] < |t| && Eligible(t[ids[k]], thread, now))
    && Increasing(ids)
  }

  ghost predicate Increasing(ids: seq<nat>) {
    forall a, b :: 0 <= a < b < |ids| ==> ids[a] < ids[b]
  }

  lemma {:induction false} IdsIncrease(t: Table, thread: Thread, n: nat)
    requires n <= |t|
    ensures Increasing(PendingIds(t, thread, n))
  {
    if n > 0 {
      IdsIncrease(t, thread, n - 1);
    }
  }

  lemma StillEligible(t: Table, thread: Thread, now: int, i: nat)
    requires i < |t|
    ensures PendingIn(ExpireThread(t, thread, now)[i], thread) <==> Eligible(t[i], thread, now)
    ensures Eligible(t[i], thread, now) ==> ExpireThread(t, thread, now)[i] == t[i]
  {
  }

  lemma ListedIffEligible(t: Table, thread: Thread, now: int)
    ensures Lists(PendingIds(ExpireThread(t, thread, now), thread, |t|), t, thread, now)
  {
    var t' := ExpireThread(t, thread, now);
    AllPendingListed(t', thread, |t|);
    IdsIncrease(t', thread, |t|);
    forall i | 0 <= i < |t|
      ensures PendingIn(t'[i], thread) <==> Eligible(t[i], thread, now)
    {
      StillEligible(t, thread, now, i);
    }
  }

  /** How many are listed, by what is eligible. */
  lemma ListSize(ids: seq<nat>, t: Table, thread: Thread, now: int)
    requires Lists(ids, t, thread, now)
    ensures ids == [] <==> forall i :: 0 <= i < |t| ==> !Eligible(t[i], thread, now)
    ensures |ids| > 1 <==> SeveralEligible(t, thread, now)
    ensures |ids| == 1 ==> SoleEligible(t, ids[0], thread, now)
  {
    if i, j :| 0 <= i < j < |t| && Eligible(t[i], thread, now) && Eligible(t[j], thread, now) {
      assert i in ids && j in ids;
    }
    assert |ids| > 1 ==> ids[0] < ids[1];
    assert ids != [] ==> Eligible(t[ids[0]], thread, now);
  }

  lemma SoleIsListed(ids: seq<nat>, t: Table, thread: Thread, now: int, i: nat)
    requires Lists(ids, t, thread, now) && SoleEligible(t, i, thread, now)
    ensures ids == [i]
  {
    ListSize(ids, t, thread, now);
    assert !SeveralEligible(t, thread, now) && ids != [];
    assert ids == [ids[0]];
  }

  function SoleAnswer(p: Proposal, i: nat, project: Option<Name>): Result<nat, Refusal> {
    if Elsewhere(p, project) then Err(ProjectChanged)
    else if Unseen(p) then Err(NotPreviewed)
    else Ok(i)
  }

  /** The answer to an approval message, by what the thread holds: nothing eligible, several, or one, which is then
      refused for another project first and for unseen work second. */
  lemma ApprovalMeans(t: Table, thread: Thread, project: Option<Name>, now: int)
    ensures
      var r := ApprovalTarget(ExpireThread(t, thread, now), thread, project);
      && (r == Err(NothingPending) <==> forall i :: 0 <= i < |t| ==> !Eligible(t[i], thread, now))
      && (r == Err(SeveralPending) <==> SeveralEligible(t, thread, now))
      && (forall i: nat :: SoleEligible(t, i, thread, now) ==> r == SoleAnswer(t[i], i, project))
      && (r.Ok? ==> SoleEligible(t, r.value, thread, now))
  {
    var t' := ExpireThread(t, thread, now);
    var ids := PendingIds(t', thread, |t|);
    ListedIffEligible(t, thread, now);
    ListSize(ids, t, thread, now);
    forall i: nat | SoleEligible(t, i, thread, now)
      ensures ids == [i] && t'[i] == t[i]
    {
      SoleIsListed(ids, t, thread, now, i);
      StillEligible(t, thread, now, i);
    }
  }

  /** An approval moves one row, to approved under the message's timestamp, and it moves a row if and only if the message
      is an approval and the row is the sole eligible one, of this project and shown to the sponsor if it is work. */
  lemma ApprovesIff(t: Table, thread: Thread, project: Option<Name>, ts: Name, looks: bool, now: int, i: nat)
    requires i < |t| && t[i].status == Pending
    ensures
      var after := ApprovedTable(t, thread, project, ts, looks, now);
      && |after| == |t|
      && (after[i].status == Approved <==> looks && SoleEligible(t, i, thread, now) && !Elsewhere(t[i], project) && !Unseen(t[i]))
      && (after[i].status == Approved ==> after[i] == t[i].(status := Approved, approval := Some(ts)))
      && (after[i].status == Expired <==> looks && t[i].thread == thread && t[i].expires <= now)
  {
    if looks {
      ApprovalMeans(t, thread, project, now);
      StillEligible(t, thread, now, i);
    }
  }

  // ---------------------------------------------------------------------------
  // Creation, preview and the later steps
  // ---------------------------------------------------------------------------

  /** A request is refused for its project first, then its intent, then its instruction. */
  lemma CreateRefusedIff(project: Name, intent: Intent, instruction: string)
    ensures Refused(project, intent, instruction) == Some(NoProject) <==> project.text == ""
    ensures Refused(project, intent, instruction) == Some(UnsupportedIntent) <==> project.text != "" && intent == Unsupported
    ensures Refused(project, intent, instruction) == Some(NotAMutation) <==> project.text != "" && intent == ReadOnly
    ensures Refused(project, intent, instruction) == Some(NoInstruction) <==> project.text != "" && intent in {Work, Release} && instruction == ""
    ensures Refused(project, intent, instruction) == None <==> project.text != "" && intent in {Work, Release} && instruction != ""
  {
  }

  /** Creation appends a row if and only if the request stands and the thread has no eligible proposal for the project;
      the row is pending for a day, with the first part of the instruction and nothing shown or approved yet. */
  lemma CreationMeans(t: Table, thread: Thread, project: Name, intent: Intent, instruction: string, now: int)
    ensures
      var after := Created(t, thread, project, intent, instruction, now);
      var stands := project.text != "" && intent in {Work, Release} && instruction != "";
      && |t| <= |after| <= |t| + 1
      && (|after| > |t| <==> stands && forall i :: 0 <= i < |t| && Eligible(t[i], thread, now) ==> t[i].project != project)
      && (|after| > |t| ==> Opens(after[|t|], thread, project, intent, instruction, now))
      && forall i :: 0 <= i < |t| ==> after[i] == t[i].(status := after[i].status)
  {
    CreateRefusedIff(project, intent, instruction);
    var t' := ExpireThread(t, thread, now);
    forall i | 0 <= i < |t|
      ensures PendingIn(t'[i], thread) <==> Eligible(t[i], thread, now)
    {
      StillEligible(t, thread, now, i);
    }
  }

  predicate Opens(p: Proposal, thread: Thread, project: Name, intent: Intent, instruction: string, now: int) {
    && p.thread == thread && p.project == project && p.status == Pending
    && p.preview.None? && p.approval.None?
    && p.expires == now + 86400
    && (p.isWork <==> intent == Work)
    && p.instruction <= instruction && |p.instruction| == (if |instruction| < 2000 then |instruction| else 2000)
  }

  /** A row's status and preview change exactly as follows in one step; `Approve` is covered by `ApprovesIff`. */
  lemma StepMeans(s: State, step: Step, id: nat)
    requires id < |s.rows| && !step.Approve?
    ensures
      var p, after := s.rows[id], Apply(s, step).rows;
      && id < |after|
      && (after[id].status == Dispatched && p.status != Dispatched <==> step == Dispatch(id) && p.status == Approved)
      && (after[id].status == Completed && p.status != Completed <==> step == Complete(id) && p.status == Dispatched)
      && (after[id].status == Failed && p.status != Failed <==> step == Fail(id) && p.status in {Approved, Dispatched})
      && (after[id].status == Expired && p.status != Expired <==> p.status == Pending && (step == Expire(id) || Overdue(p, step, s.now)))
      && (after[id].status == Approved <==> p.status == Approved && step !in {Dispatch(id), Fail(id)})
      && (step.Preview? && step.id == id && p.status == Pending ==> Shows(after[id], p, step.text))
      && (!(step.Preview? && step.id == id) || p.status != Pending ==> after[id] == p.(status := after[id].status))
  {
  }

  /** Listing or creating in a thread retires its overdue proposals. */
  predicate Overdue(p: Proposal, step: Step, now: int) {
    && p.expires <= now
    && match step {
      case List(thread) => thread == p.thread
      case Create(thread, project, intent, instruction) =>
        thread == p.thread && project.text != "" && intent in {Work, Release} && instruction != ""
      case _ => false
    }
  }

  predicate Shows(after: Proposal, p: Proposal, text: string) {
    && after == p.(preview := after.preview) && after.preview.Some?
    && after.preview.value <= text && |after.preview.value| == (if |text| < 8000 then |text| else 8000)
  }
}
