/** The subscriber outbox: a lease/claim table shared by several dispatchers.

    A row's id is its position in the table, which is also its creation order. */
module Outbox {
  import opened Prelude

  const MAX_ATTEMPTS := 10

  datatype Status = Pending | Claimed | Blocked | Delivered | Dead | Unroutable

  datatype DetailLevel = Milestone | Normal | Verbose | OtherLevel

  /** The parsed payload of a row: no JSON, a JSON value that is not an object, or an object.
      `truthy` and `nonEmpty` are the truth value of the parsed value, and `metadataOk` says that the
      metadata, if truthy, is an object. */
  datatype Payload =
    | Unreadable
    | NotAnObject(truthy: bool)
    | Object(nonEmpty: bool, stream: Name, level: DetailLevel, audit: bool, metadataOk: bool, hasChannel: bool)

  datatype Row = Row(
    subscriber: Name,
    payload: Payload,
    status: Status,
    attempts: nat,
    claimedBy: Option<Name>,
    claimExpires: Option<int>,
    blockedBy: Option<nat>)

  type Table = seq<Row>

  // ---------------------------------------------------------------------------
  // One SQL statement each
  // ---------------------------------------------------------------------------

  function NewRow(subscriber: Name, payload: Payload): Row {
    Row(subscriber, payload, Pending, 0, None, None, None)
  }

  predicate LeaseExpired(r: Row, subscriber: Name, now: int) {
    r.subscriber == subscriber && r.status == Claimed && r.claimExpires.Some? && r.claimExpires.value < now
  }

  function ExpireRow(r: Row, subscriber: Name, now: int): Row {
    if LeaseExpired(r, subscriber, now)
    then r.(status := Pending, claimedBy := None, claimExpires := None, blockedBy := None)
    else r
  }

  function ExpireLeases(t: Table, subscriber: Name, now: int): (r: Table)
    ensures |r| == |t| && forall i :: 0 <= i < |t| ==> r[i] == ExpireRow(t[i], subscriber, now)
  {
    seq(|t|, i requires 0 <= i < |t| => ExpireRow(t[i], subscriber, now))
  }

  predicate Claimable(r: Row, subscriber: Name) {
    r.subscriber == subscriber && r.status == Pending && r.attempts < MAX_ATTEMPTS
  }

  function ClaimRow(r: Row, who: Name, expires: int): Row {
    if r.status == Pending then r.(status := Claimed, claimedBy := Some(who), claimExpires := Some(expires)) else r
  }

  function DeliverRow(r: Row): Row {
    r.(status := Delivered, claimedBy := None, claimExpires := None, blockedBy := None)
  }

  function RefuseRow(r: Row): Row {
    r.(status := Unroutable, claimedBy := None, claimExpires := None)
  }

  function FailRow(r: Row): Row {
    r.(attempts := r.attempts + 1,
       status := if r.attempts + 1 >= MAX_ATTEMPTS then Dead else Pending,
       claimedBy := None, claimExpires := None)
  }

  function HoldRow(r: Row, blocker: nat): Row {
    r.(status := Blocked, blockedBy := Some(blocker), claimedBy := None, claimExpires := None)
  }

  predicate HeldBy(r: Row, blocker: nat) {
    r.status == Blocked && r.blockedBy == Some(blocker)
  }

  function ReleaseRow(r: Row, blocker: nat): Row {
    if HeldBy(r, blocker) then r.(status := Pending, blockedBy := None) else r
  }

  function ReleaseHeld(t: Table, blocker: nat): (r: Table)
    ensures |r| == |t| && forall i :: 0 <= i < |t| ==> r[i] == ReleaseRow(t[i], blocker)
  {
    seq(|t|, i requires 0 <= i < |t| => ReleaseRow(t[i], blocker))
  }
}

/** Claiming a batch and dispatching it. */
module OutboxDispatch {
  import opened Prelude
  import opened Subscribers
  import opened Outbox

  // ---------------------------------------------------------------------------
  // What happens to one claimed row
  // ---------------------------------------------------------------------------

  function Rank(level: DetailLevel): nat {
    match level
    case Milestone => 0
    case Normal => 1
    case Verbose => 2
    case OtherLevel => 1
  }

  predicate ShouldProject(p: Payload, sponsorLevel: DetailLevel)
    requires p.Object?
  {
    Rank(p.level) <= Rank(sponsorLevel) && !p.audit
  }

  datatype Verdict =
    | Posted        // handed to the subscriber and marked delivered
    | Skipped       // filtered out by detail level or visibility, marked delivered
    | NoRoute       // no channel, marked unroutable
    | Failure       // unusable payload or failed post
    | Held(blocker: nat)

  /** A failed row whose payload is a readable, non-empty object holds back its stream. */
  predicate Holds(p: Payload, v: Verdict) {
    v.Failure? && p.Object? && p.nonEmpty
  }

  function Judge(p: Payload, subscriber: Name, sponsorLevel: DetailLevel, holds: map<Name, nat>, postOk: bool): Verdict {
    if !p.Object? then Failure
    else if p.stream in holds then Held(holds[p.stream])
    else if subscriber != SLACK then Posted
    else if !ShouldProject(p, sponsorLevel) then Skipped
    else if !p.metadataOk then Failure
    else if !p.hasChannel then NoRoute
    else if postOk then Posted
    else Failure
  }

  function Settle(r: Row, v: Verdict): Row {
    match v
    case Posted => DeliverRow(r)
    case Skipped => DeliverRow(r)
    case NoRoute => RefuseRow(r)
    case Failure => FailRow(r)
    case Held(b) => HoldRow(r, b)
  }

  predicate InTable(t: Table, batch: seq<nat>) {
    forall k :: 0 <= k < |batch| ==> batch[k] < |t|
  }

  /** Which stream is held back by which row, after the first `k` rows of the batch. */
  function StreamHolds(t: Table, batch: seq<nat>, verdicts: seq<Verdict>, k: nat): map<Name, nat>
    requires k <= |batch| && k <= |verdicts| && InTable(t, batch)
  {
    if k == 0 then map[]
    else
      var p := t[batch[k - 1]].payload;
      var before := StreamHolds(t, batch, verdicts, k - 1);
      if Holds(p, verdicts[k - 1]) then before[p.stream := batch[k - 1]] else before
  }

  /** The verdicts of a batch under a given pattern of post outcomes. */
  predicate Judged(t: Table, batch: seq<nat>, subscriber: Name, level: DetailLevel, postOk: nat -> bool, verdicts: seq<Verdict>)
    requires InTable(t, batch)
  {
    |verdicts| <= |batch| && forall k :: 0 <= k < |verdicts| ==> JudgedAt(t, batch, subscriber, level, postOk, verdicts, k)
  }

  predicate JudgedAt(t: Table, batch: seq<nat>, subscriber: Name, level: DetailLevel, postOk: nat -> bool, verdicts: seq<Verdict>, k: nat)
    requires InTable(t, batch) && k < |verdicts| <= |batch|
  {
    verdicts[k] == Judge(t[batch[k]].payload, subscriber, level, StreamHolds(t, batch, verdicts, k), postOk(batch[k]))
  }

  /** Row `j` of the batch failed and holds back stream `s`. */
  ghost predicate HeldBack(t: Table, batch: seq<nat>, verdicts: seq<Verdict>, j: nat, s: Name)
    requires |verdicts| <= |batch| && InTable(t, batch)
  {
    j < |verdicts| && Holds(t[batch[j]].payload, verdicts[j]) && t[batch[j]].payload.stream == s
  }

  lemma {:induction false} StreamHoldsHas(t: Table, batch: seq<nat>, verdicts: seq<Verdict>, k: nat, s: Name)
    requires |verdicts| <= |batch| && k <= |verdicts| && InTable(t, batch)
    ensures s in StreamHolds(t, batch, verdicts, k) <==> exists j :: 0 <= j < k && HeldBack(t, batch, verdicts, j, s)
    ensures s in StreamHolds(t, batch, verdicts, k) ==>
      exists j :: 0 <= j < k && HeldBack(t, batch, verdicts, j, s) && StreamHolds(t, batch, verdicts, k)[s] == batch[j]
  {
    if k > 0 {
      StreamHoldsHas(t, batch, verdicts, k - 1, s);
      var p := t[batch[k - 1]].payload;
      if Holds(p, verdicts[k - 1]) && p.stream == s {
        assert HeldBack(t, batch, verdicts, k - 1, s);
      }
    }
  }

  /** A stream is held back by at most one row of a batch: the first to fail. */
  lemma OneHolderPerStream(t: Table, batch: seq<nat>, subscriber: Name, level: DetailLevel, postOk: nat -> bool,
                           verdicts: seq<Verdict>, i: nat, j: nat, s: Name)
    requires InTable(t, batch) && Judged(t, batch, subscriber, level, postOk, verdicts) && i < j
    requires HeldBack(t, batch, verdicts, i, s)
    ensures !HeldBack(t, batch, verdicts, j, s)
  {
    if HeldBack(t, batch, verdicts, j, s) {
      assert JudgedAt(t, batch, subscriber, level, postOk, verdicts, j);
      StreamHoldsHas(t, batch, verdicts, j, s);
    }
  }

  /** In-batch causality: a readable row is held exactly when an earlier row of its stream failed,
      it then names that row, and so nothing of the stream is posted after the failure. */
  lemma HeldIffStreamFailed(t: Table, batch: seq<nat>, subscriber: Name, level: DetailLevel, postOk: nat -> bool,
                            verdicts: seq<Verdict>, k: nat)
    requires InTable(t, batch) && Judged(t, batch, subscriber, level, postOk, verdicts)
    requires k < |verdicts| && t[batch[k]].payload.Object?
    ensures verdicts[k].Held? <==> exists j :: 0 <= j < k && HeldBack(t, batch, verdicts, j, t[batch[k]].payload.stream)
    ensures forall j :: 0 <= j < k && HeldBack(t, batch, verdicts, j, t[batch[k]].payload.stream) ==> verdicts[k] == Held(batch[j])
  {
    var s := t[batch[k]].payload.stream;
    StreamHoldsHas(t, batch, verdicts, k, s);
    assert JudgedAt(t, batch, subscriber, level, postOk, verdicts, k);
    if s in StreamHolds(t, batch, verdicts, k) {
      var i :| 0 <= i < k && HeldBack(t, batch, verdicts, i, s) && StreamHolds(t, batch, verdicts, k)[s] == batch[i];
      forall j | 0 <= j < k && HeldBack(t, batch, verdicts, j, s)
        ensures j == i
      {
        if i < j {
          OneHolderPerStream(t, batch, subscriber, level, postOk, verdicts, i, j, s);
        } else if j < i {
          OneHolderPerStream(t, batch, subscriber, level, postOk, verdicts, j, i, s);
        }
      }
    }
  }

  /** Settling never leaves a row claimed, and only a failure spends an attempt. */
  lemma SettleOutcome(r: Row, v: Verdict)
    ensures Settle(r, v).status != Claimed && Settle(r, v).claimedBy.None? && Settle(r, v).claimExpires.None?
    ensures Settle(r, v).attempts == r.attempts + if v.Failure? then 1 else 0
    ensures Settle(r, v).status == Dead <==> v.Failure? && r.attempts + 1 >= MAX_ATTEMPTS
    ensures Settle(r, v).status == Delivered <==> v.Posted? || v.Skipped?
    ensures Settle(r, v).status == Blocked <==> v.Held?
    ensures v.Held? ==> Settle(r, v).blockedBy == Some(v.blocker)
  {
  }

  // ---------------------------------------------------------------------------
  // Counters
  // ---------------------------------------------------------------------------

  datatype Counters = Counters(delivered: nat, failed: nat, unroutable: nat, blocked: nat)

  function Bump(c: Counters, v: Verdict): Counters {
    match v
    case Posted => c.(delivered := c.delivered + 1)
    case Skipped => c.(delivered := c.delivered + 1)
    case NoRoute => c.(unroutable := c.unroutable + 1)
    case Failure => c.(failed := c.failed + 1)
    case Held(_) => c.(blocked := c.blocked + 1)
  }

  function Tally(verdicts: seq<Verdict>): Counters {
    if verdicts == [] then Counters(0, 0, 0, 0)
    else Bump(Tally(verdicts[..|verdicts| - 1]), verdicts[|verdicts| - 1])
  }

  /** The four counters add up to the rows of the batch. */
  lemma {:induction false} CountersAddUp(verdicts: seq<Verdict>)
    ensures var c := Tally(verdicts); c.delivered + c.failed + c.unroutable + c.blocked == |verdicts|
  {
    if verdicts != [] {
      CountersAddUp(verdicts[..|verdicts| - 1]);
    }
  }

  // ---------------------------------------------------------------------------
  // Claiming
  // ---------------------------------------------------------------------------

  /** The oldest claimable rows, at most `limit` of them. */
  function ListPending(t: Table, subscriber: Name, limit: nat, n: nat): seq<nat>
    requires n <= |t|
  {
    if n == 0 then []
    else
      var ids := ListPending(t, subscriber, limit, n - 1);
      if Claimable(t[n - 1], subscriber) && |ids| < limit then ids + [n - 1] else ids
  }

  lemma {:induction false} ListedIsClaimable(t: Table, subscriber: Name, limit: nat, n: nat)
    requires n <= |t|
    ensures |ListPending(t, subscriber, limit, n)| <= limit
    ensures Distinct(ListPending(t, subscriber, limit, n))
    ensures forall i :: i in ListPending(t, subscriber, limit, n) ==> i < n && Claimable(t[i], subscriber)
  {
    if n > 0 {
      ListedIsClaimable(t, subscriber, limit, n - 1);
    }
  }

  /** Rows left out are newer than the whole batch, and only when the batch is full. */
  lemma {:induction false} OldestFirst(t: Table, subscriber: Name, limit: nat, n: nat, i: nat)
    requires n <= |t| && i < n && Claimable(t[i], subscriber) && i !in ListPending(t, subscriber, limit, n)
    ensures |ListPending(t, subscriber, limit, n)| == limit
    ensures forall j :: j in ListPending(t, subscriber, limit, n) ==> j < i
  {
    if i < n - 1 {
      OldestFirst(t, subscriber, limit, n - 1, i);
    } else {
      ListedIsClaimable(t, subscriber, limit, n - 1);
    }
  }

  const LEASE_SECONDS := 300

  /** The table once a dispatcher has claimed the listed rows. */
  function TakeAll(t: Table, ids: seq<nat>, who: Name, expires: int): (r: Table)
    ensures |r| == |t| && forall i :: 0 <= i < |t| ==> r[i] == if i in ids then ClaimRow(t[i], who, expires) else t[i]
  {
    seq(|t|, i requires 0 <= i < |t| => if i in ids then ClaimRow(t[i], who, expires) else t[i])
  }

  class OutboxTable {
    var rows: Table

    constructor ()
      ensures rows == []
    {
      rows := [];
    }

    method ClaimPending(subscriber: Name, who: Name, limit: nat, now: int, leaseSeconds: int) returns (claimed: seq<nat>)
      modifies this
      ensures
        var t := ExpireLeases(old(rows), subscriber, now);
        && claimed == ListPending(t, subscriber, limit, |t|)
        && |rows| == |t|
        && forall i :: 0 <= i < |t| ==>
          rows[i] == if i in claimed then ClaimRow(t[i], who, now + leaseSeconds) else t[i]
      ensures Claims(old(rows), rows, claimed, subscriber, who, limit, now, leaseSeconds)
    {
      ghost var was := rows;
      rows := ExpireLeases(rows, subscriber, now);
      ghost var t := rows;
      var pending := [];
      for n := 0 to |rows|
        invariant rows == t && pending == ListPending(t, subscriber, limit, n)
      {
        if Claimable(rows[n], subscriber) && |pending| < limit {
          pending := pending + [n];
        }
      }
      ListedIsClaimable(t, subscriber, limit, |t|);
      claimed := [];
      for k := 0 to |pending|
        invariant claimed == pending[..k] && |rows| == |t|
        invariant forall i :: 0 <= i < |t| ==>
          rows[i] == if i in pending[..k] then ClaimRow(t[i], who, now + leaseSeconds) else t[i]
      {
        var id := pending[k];
        assert id in pending && id !in pending[..k];
        assert pending[..k + 1] == pending[..k] + [id];
        if rows[id].status == Pending {
          rows := rows[id := ClaimRow(rows[id], who, now + leaseSeconds)];
          claimed := claimed + [id];
        }
      }
      ClaimsMeans(was, rows, claimed, subscriber, who, limit, now, leaseSeconds);
    }

    /** One turn of the batch loop. */
    method DispatchRow(id: nat, subscriber: Name, level: DetailLevel, holds0: map<Name, nat>, postOk: bool)
      returns (verdict: Verdict, holds: map<Name, nat>)
      requires id < |rows| && rows[id].status == Claimed
      modifies this
      ensures verdict == Judge(old(rows)[id].payload, subscriber, level, holds0, postOk)
      ensures holds == if Holds(old(rows)[id].payload, verdict) then holds0[old(rows)[id].payload.stream := id] else holds0
      ensures |rows| == |old(rows)| && rows[id] == Settle(old(rows)[id], verdict)
      ensures forall i :: 0 <= i < |rows| && i != id ==>
        rows[i] == if verdict.Posted? then ReleaseRow(old(rows)[i], id) else old(rows)[i]
    {
      var p := rows[id].payload;
      holds := holds0;
      if !p.Object? {
        verdict := Failure;
        rows := rows[id := FailRow(rows[id])];
      } else if p.stream in holds {
        verdict := Held(holds[p.stream]);
        rows := rows[id := HoldRow(rows[id], holds[p.stream])];
      } else if subscriber == SLACK && !ShouldProject(p, level) {
        verdict := Skipped;
        rows := rows[id := DeliverRow(rows[id])];
      } else if subscriber == SLACK && !p.metadataOk {
        verdict, holds := Fail(id, p, holds);
      } else if subscriber == SLACK && !p.hasChannel {
        verdict := NoRoute;
        rows := rows[id := RefuseRow(rows[id])];
      } else if subscriber != SLACK || postOk {
        verdict := Posted;
        rows := rows[id := DeliverRow(rows[id])];
        rows := ReleaseHeld(rows, id);
      } else {
        verdict, holds := Fail(id, p, holds);
      }
    }

    /** The failure handler: the row is marked failed, and an object that is not empty holds its stream. */
    method Fail(id: nat, p: Payload, holds0: map<Name, nat>) returns (verdict: Verdict, holds: map<Name, nat>)
      requires id < |rows| && p.Object?
      modifies this
      ensures verdict == Failure && rows == old(rows)[id := FailRow(old(rows)[id])]
      ensures holds == if p.nonEmpty then holds0[p.stream := id] else holds0
    {
      verdict, holds := Failure, holds0;
      rows := rows[id := FailRow(rows[id])];
      if p.nonEmpty {
        holds := holds[p.stream := id];
      }
    }

    /** Dispatches a claimed batch under any pattern of post outcomes.  A payload that is a truthy JSON
        value but no object raises a second time in the failure handler, after its row was marked
        failed: the batch ends there, without counters, and the rows behind it are not touched. */
    method DispatchClaimed(batch: seq<nat>, subscriber: Name, level: DetailLevel, postOk: nat -> bool)
      returns (verdicts: seq<Verdict>, counters: Option<Counters>)
      requires InTable(rows, batch) && Distinct(batch) && forall k :: 0 <= k < |batch| ==> rows[batch[k]].status == Claimed
      modifies this
      ensures |verdicts| <= |batch| && Judged(old(rows), batch, subscriber, level, postOk, verdicts)
      ensures Ends(old(rows), batch, verdicts, counters)
      ensures BatchDone(old(rows), rows, batch, verdicts)
    {
      ghost var t := rows;
      verdicts := [];
      var count := Counters(0, 0, 0, 0);
      var holds: map<Name, nat> := map[];
      for k := 0 to |batch|
        invariant |verdicts| == k && count == Tally(verdicts)
        invariant Dispatching(t, rows, batch, subscriber, level, postOk, verdicts, holds)
        invariant forall l :: 0 <= l < k ==> !Crashes(t[batch[l]].payload)
      {
        ghost var rows0, holds0 := rows, holds;
        assert rows[batch[k]] == t[batch[k]];
        var crashes := Crashes(rows[batch[k]].payload);
        var verdict;
        verdict, holds := DispatchRow(batch[k], subscriber, level, holds, postOk(batch[k]));
        DispatchingStep(t, rows0, rows, batch, subscriber, level, postOk, verdicts, verdict, holds0);
        TallyStep(verdicts, verdict);
        verdicts := verdicts + [verdict];
        if crashes {
          return verdicts, None;
        }
        count := Bump(count, verdict);
      }
      counters := Some(count);
    }

    /** Claim, then dispatch: the batch is the oldest claimable rows, its rows are settled as judged, and
        the rest of the table only had its expired leases reset and its holds by delivered rows
        lifted.  A row of the batch stays claimed exactly when it comes after a payload that crashes
        the batch, so without one none does and the counters add up. */
    method DispatchEventOutbox(subscriber: Name, who: Name, limit: nat, now: int, level: DetailLevel, postOk: nat -> bool)
      returns (counters: Option<Counters>, ghost batch: seq<nat>, ghost verdicts: seq<Verdict>)
      modifies this
      ensures |rows| == |old(rows)| && |batch| <= limit
      ensures batch == ListPending(ExpireLeases(old(rows), subscriber, now), subscriber, limit, |old(rows)|)
      ensures
        var t := ExpireLeases(old(rows), subscriber, now);
        var taken := TakeAll(t, batch, who, now + LEASE_SECONDS);
        && InTable(taken, batch) && |verdicts| <= |batch| && Ends(taken, batch, verdicts, counters)
        && Judged(taken, batch, subscriber, level, postOk, verdicts) && BatchDone(taken, rows, batch, verdicts)
        && (counters.None? <==> CrashBefore(taken, batch, |batch|))
        && (counters.Some? ==> counters.value == Summary(taken, rows, batch, |batch|))
        && Claims(old(rows), taken, batch, subscriber, who, limit, now, LEASE_SECONDS)
        && (forall k :: 0 <= k < |verdicts| ==> Fate(taken, rows, batch, k, subscriber, level, postOk))
        && (forall i :: 0 <= i < |taken| && i !in batch ==> OutsiderFate(taken, rows, batch, |verdicts|, i, subscriber, level))
        && forall k :: 0 <= k < |batch| ==> LeftClaimed(taken, rows, batch, k)
      ensures counters.Some? ==>
        var c := counters.value;
        c.delivered + c.failed + c.unroutable + c.blocked == |batch|
    {
      ghost var t := ExpireLeases(rows, subscriber, now);
      var claimed := ClaimPending(subscriber, who, limit, now, LEASE_SECONDS);
      batch := claimed;
      ListedIsClaimable(t, subscriber, limit, |t|);
      assert forall k :: 0 <= k < |claimed| ==> claimed[k] in claimed;
      ghost var held := rows;
      assert held == TakeAll(t, batch, who, now + LEASE_SECONDS);
      var judged;
      judged, counters := DispatchClaimed(claimed, subscriber, level, postOk);
      verdicts := judged;
      CountersAddUp(verdicts);
      TallyIsSummary(held, rows, batch, verdicts, |verdicts|);
      LeftClaimedIff(held, rows, batch, verdicts, counters);
      FatesFollow(held, rows, batch, subscriber, level, postOk, verdicts);
    }
  }

  // ---------------------------------------------------------------------------
  // What becomes of a row, column by column
  // ---------------------------------------------------------------------------

  /** The event is below the sponsor's level of detail, or for auditors only. */
  predicate Filtered(p: Payload, level: DetailLevel)
    requires p.Object?
  {
    p.audit || (level == Milestone && p.level != Milestone) || (level in {Normal, OtherLevel} && p.level == Verbose)
  }

  predicate WasDelivered(r: Row, now: Row) {
    now == r.(status := Delivered, claimedBy := None, claimExpires := None, blockedBy := None)
  }

  predicate WasRefused(r: Row, now: Row) {
    now == r.(status := Unroutable, claimedBy := None, claimExpires := None)
  }

  /** One attempt is spent, and the tenth is the last. */
  predicate WasFailed(r: Row, now: Row) {
    now == r.(status := if r.attempts >= 9 then Dead else Pending, attempts := r.attempts + 1, claimedBy := None, claimExpires := None)
  }

  predicate WasHeld(r: Row, now: Row, blocker: nat) {
    now == r.(status := Blocked, blockedBy := Some(blocker), claimedBy := None, claimExpires := None)
  }

  /** Row `j` of the batch is a failed, non-empty object of the stream. */
  ghost predicate Stopped(t: Table, now: Table, batch: seq<nat>, j: nat, stream: Name)
    requires InTable(t, batch) && |now| == |t| && j < |batch|
  {
    var p := t[batch[j]].payload;
    p.Object? && p.nonEmpty && p.stream == stream && WasFailed(t[batch[j]], now[batch[j]])
  }

  ghost predicate StreamStopped(t: Table, now: Table, batch: seq<nat>, k: nat, stream: Name)
    requires InTable(t, batch) && |now| == |t| && k <= |batch|
  {
    exists j :: 0 <= j < k && Stopped(t, now, batch, j, stream)
  }

  /** What becomes of row `k` of the batch: a payload that is no object fails; a row behind a failure of its
      stream waits for it; a row for anyone but Slack is delivered; a filtered one is delivered without a
      post; one without a channel is refused; and any other is delivered exactly when its post succeeds
      and fails exactly when it does not. */
  ghost predicate Fate(t: Table, now: Table, batch: seq<nat>, k: nat, subscriber: Name, level: DetailLevel, postOk: nat -> bool)
    requires InTable(t, batch) && k < |batch|
  {
    && |now| == |t|
    && var r, n, p := t[batch[k]], now[batch[k]], t[batch[k]].payload;
       if !p.Object? then WasFailed(r, n)
       else if StreamStopped(t, now, batch, k, p.stream) then
         exists j :: 0 <= j < k && Stopped(t, now, batch, j, p.stream) && WasHeld(r, n, batch[j])
       else if subscriber != Name("slack") || Filtered(p, level) then WasDelivered(r, n)
       else if !p.metadataOk then WasFailed(r, n)
       else if !p.hasChannel then WasRefused(r, n)
       else (postOk(batch[k]) ==> WasDelivered(r, n)) && (!postOk(batch[k]) ==> WasFailed(r, n))
  }

  /** Row `k` was handed to its subscriber. */
  ghost predicate Sent(t: Table, now: Table, batch: seq<nat>, k: nat, subscriber: Name, level: DetailLevel)
    requires InTable(t, batch) && |now| == |t| && k < |batch|
  {
    now[batch[k]].status == Delivered && t[batch[k]].payload.Object? && (subscriber != Name("slack") || !Filtered(t[batch[k]].payload, level))
  }

  /** A row outside the batch is released when the row it waits for was sent, and is untouched otherwise. */
  ghost predicate OutsiderFate(t: Table, now: Table, batch: seq<nat>, n: nat, i: nat, subscriber: Name, level: DetailLevel)
    requires InTable(t, batch) && n <= |batch| && i < |t|
  {
    && |now| == |t|
    && now[i] == if exists k :: 0 <= k < n && Sent(t, now, batch, k, subscriber, level) && t[i].status == Blocked && t[i].blockedBy == Some(batch[k])
                 then t[i].(status := Pending, blockedBy := None) else t[i]
  }

  /** How many of the first `n` rows of the batch were delivered, spent an attempt, were refused and are held. */
  ghost function Summary(t: Table, now: Table, batch: seq<nat>, n: nat): Counters
    requires InTable(t, batch) && |now| == |t| && n <= |batch|
  {
    if n == 0 then Counters(0, 0, 0, 0)
    else
      var c, r, x := Summary(t, now, batch, n - 1), t[batch[n - 1]], now[batch[n - 1]];
      Counters(c.delivered + (if x.status == Delivered then 1 else 0), c.failed + (if x.attempts > r.attempts then 1 else 0),
               c.unroutable + (if x.status == Unroutable then 1 else 0), c.blocked + (if x.status == Blocked then 1 else 0))
  }

  lemma SettledCounts(r: Row, v: Verdict, c: Counters)
    ensures
      var x := Settle(r, v);
      Bump(c, v) ==
        Counters(c.delivered + (if x.status == Delivered then 1 else 0), c.failed + (if x.attempts > r.attempts then 1 else 0),
                 c.unroutable + (if x.status == Unroutable then 1 else 0), c.blocked + (if x.status == Blocked then 1 else 0))
  {
  }

  /** The counters a batch reports are those of its rows in the final table. */
  lemma {:induction false} TallyIsSummary(t: Table, now: Table, batch: seq<nat>, verdicts: seq<Verdict>, n: nat)
    requires InTable(t, batch) && |verdicts| <= |batch| && n <= |verdicts| && BatchDone(t, now, batch, verdicts)
    ensures |now| == |t| && Tally(verdicts[..n]) == Summary(t, now, batch, n)
    ensures n == |verdicts| ==> Tally(verdicts) == Summary(t, now, batch, n)
  {
    if n > 0 {
      TallyIsSummary(t, now, batch, verdicts, n - 1);
      TallyStep(verdicts[..n - 1], verdicts[n - 1]);
      assert verdicts[..n] == verdicts[..n - 1] + [verdicts[n - 1]];
      assert now[batch[n - 1]] == Settle(t[batch[n - 1]], verdicts[n - 1]);
      SettledCounts(t[batch[n - 1]], verdicts[n - 1], Tally(verdicts[..n - 1]));
    }
    assert verdicts[..|verdicts|] == verdicts;
  }

  lemma FailedIff(r: Row, v: Verdict)
    ensures WasFailed(r, Settle(r, v)) <==> v.Failure?
  {
  }

  lemma StoppedIff(t: Table, now: Table, batch: seq<nat>, verdicts: seq<Verdict>, k: nat, s: Name)
    requires InTable(t, batch) && |verdicts| <= |batch| && k <= |verdicts| && BatchDone(t, now, batch, verdicts)
    ensures StreamStopped(t, now, batch, k, s) <==> exists j :: 0 <= j < k && HeldBack(t, batch, verdicts, j, s)
  {
    forall j | 0 <= j < k
      ensures Stopped(t, now, batch, j, s) <==> HeldBack(t, batch, verdicts, j, s)
    {
      FailedIff(t[batch[j]], verdicts[j]);
    }
  }

  lemma FateFollows(t: Table, now: Table, batch: seq<nat>, subscriber: Name, level: DetailLevel, postOk: nat -> bool,
                    verdicts: seq<Verdict>, k: nat)
    requires InTable(t, batch) && Judged(t, batch, subscriber, level, postOk, verdicts) && BatchDone(t, now, batch, verdicts)
    requires k < |verdicts|
    ensures Fate(t, now, batch, k, subscriber, level, postOk)
  {
    assert JudgedAt(t, batch, subscriber, level, postOk, verdicts, k);
    assert now[batch[k]] == Settle(t[batch[k]], verdicts[k]);
    var p := t[batch[k]].payload;
    if p.Object? {
      StoppedIff(t, now, batch, verdicts, k, p.stream);
      HeldIffStreamFailed(t, batch, subscriber, level, postOk, verdicts, k);
      if StreamStopped(t, now, batch, k, p.stream) {
        var j :| 0 <= j < k && Stopped(t, now, batch, j, p.stream);
        FailedIff(t[batch[j]], verdicts[j]);
        assert HeldBack(t, batch, verdicts, j, p.stream);
        assert WasHeld(t[batch[k]], now[batch[k]], batch[j]);
      } else {
        StreamHoldsHas(t, batch, verdicts, k, p.stream);
      }
    }
  }

  lemma SentIff(t: Table, now: Table, batch: seq<nat>, subscriber: Name, level: DetailLevel, postOk: nat -> bool,
                verdicts: seq<Verdict>, k: nat)
    requires InTable(t, batch) && Judged(t, batch, subscriber, level, postOk, verdicts) && BatchDone(t, now, batch, verdicts)
    requires k < |verdicts|
    ensures Sent(t, now, batch, k, subscriber, level) <==> verdicts[k].Posted?
  {
    assert JudgedAt(t, batch, subscriber, level, postOk, verdicts, k);
    assert now[batch[k]] == Settle(t[batch[k]], verdicts[k]);
    SettleOutcome(t[batch[k]], verdicts[k]);
  }

  lemma OutsiderFollows(t: Table, now: Table, batch: seq<nat>, subscriber: Name, level: DetailLevel, postOk: nat -> bool,
                        verdicts: seq<Verdict>, i: nat)
    requires InTable(t, batch) && Judged(t, batch, subscriber, level, postOk, verdicts) && BatchDone(t, now, batch, verdicts)
    requires i < |t| && i !in batch
    ensures OutsiderFate(t, now, batch, |verdicts|, i, subscriber, level)
  {
    forall k | 0 <= k < |verdicts|
      ensures Sent(t, now, batch, k, subscriber, level) <==> verdicts[k].Posted?
    {
      SentIff(t, now, batch, subscriber, level, postOk, verdicts, k);
    }
    assert now[i] == if Freed(t[i], batch, verdicts) then Freely(t[i]) else t[i];
    assert Freed(t[i], batch, verdicts) <==>
      exists k :: 0 <= k < |verdicts| && Sent(t, now, batch, k, subscriber, level) && t[i].status == Blocked && t[i].blockedBy == Some(batch[k]);
  }

  lemma FatesFollow(t: Table, now: Table, batch: seq<nat>, subscriber: Name, level: DetailLevel, postOk: nat -> bool, verdicts: seq<Verdict>)
    requires InTable(t, batch) && Judged(t, batch, subscriber, level, postOk, verdicts) && BatchDone(t, now, batch, verdicts)
    ensures forall k :: 0 <= k < |verdicts| ==> Fate(t, now, batch, k, subscriber, level, postOk)
    ensures forall i :: 0 <= i < |t| && i !in batch ==> OutsiderFate(t, now, batch, |verdicts|, i, subscriber, level)
  {
    forall k | 0 <= k < |verdicts|
      ensures Fate(t, now, batch, k, subscriber, level, postOk)
    {
      FateFollows(t, now, batch, subscriber, level, postOk, verdicts, k);
    }
    forall i | 0 <= i < |t| && i !in batch
      ensures OutsiderFate(t, now, batch, |verdicts|, i, subscriber, level)
    {
      OutsiderFollows(t, now, batch, subscriber, level, postOk, verdicts, i);
    }
  }

  predicate RanOut(r: Row, subscriber: Name, now: int) {
    r.subscriber == subscriber && r.status == Claimed && r.claimExpires.Some? && r.claimExpires.value < now
  }

  /** The row is waiting, or its lease has run out, and it has attempts left. */
  predicate Available(r: Row, subscriber: Name, now: int) {
    r.subscriber == subscriber && r.attempts < 10 && (r.status == Pending || RanOut(r, subscriber, now))
  }

  /** A claim takes the oldest available rows, up to the limit, for its dispatcher; of all other rows only
      those whose lease has run out change, and become pending. */
  ghost predicate Claims(t: Table, now: Table, claimed: seq<nat>, subscriber: Name, who: Name, limit: nat, time: int, leaseSeconds: int) {
    && |now| == |t| && |claimed| <= limit && Distinct(claimed)
    && (forall i :: i in claimed ==> i < |t| && Available(t[i], subscriber, time))
    && (forall i, j :: 0 <= i < |t| && Available(t[i], subscriber, time) && i !in claimed && j in claimed ==> |claimed| == limit && j < i)
    && (forall i :: 0 <= i < |t| && Available(t[i], subscriber, time) && i !in claimed ==> |claimed| == limit)
    && (forall i :: 0 <= i < |t| ==> ClaimedRow(t[i], now[i], i in claimed, subscriber, who, time, leaseSeconds))
  }

  predicate ClaimedRow(r: Row, now: Row, taken: bool, subscriber: Name, who: Name, time: int, leaseSeconds: int) {
    if taken then
      && now == r.(status := Claimed, claimedBy := Some(who), claimExpires := Some(time + leaseSeconds), blockedBy := now.blockedBy)
      && now.blockedBy == if RanOut(r, subscriber, time) then None else r.blockedBy
    else if RanOut(r, subscriber, time) then now == r.(status := Pending, claimedBy := None, claimExpires := None, blockedBy := None)
    else now == r
  }

  lemma AvailableIff(r: Row, subscriber: Name, now: int)
    ensures Claimable(ExpireRow(r, subscriber, now), subscriber) <==> Available(r, subscriber, now)
  {
  }

  lemma ClaimsMeans(was: Table, now: Table, claimed: seq<nat>, subscriber: Name, who: Name, limit: nat, time: int, leaseSeconds: int)
    requires
      var t := ExpireLeases(was, subscriber, time);
      && claimed == ListPending(t, subscriber, limit, |t|) && |now| == |t|
      && forall i :: 0 <= i < |t| ==> now[i] == if i in claimed then ClaimRow(t[i], who, time + leaseSeconds) else t[i]
    ensures Claims(was, now, claimed, subscriber, who, limit, time, leaseSeconds)
  {
    var t := ExpireLeases(was, subscriber, time);
    ListedIsClaimable(t, subscriber, limit, |t|);
    forall i | 0 <= i < |was|
      ensures Claimable(t[i], subscriber) <==> Available(was[i], subscriber, time)
      ensures ClaimedRow(was[i], now[i], i in claimed, subscriber, who, time, leaseSeconds)
    {
      AvailableIff(was[i], subscriber, time);
    }
    forall i | 0 <= i < |was| && Available(was[i], subscriber, time) && i !in claimed
      ensures |claimed| == limit && forall j :: j in claimed ==> j < i
    {
      OldestFirst(t, subscriber, limit, |t|, i);
    }
  }

  /** The state of the batch loop: verdicts so far, the table they led to, and the hold table. */
  ghost predicate Dispatching(t: Table, now: Table, batch: seq<nat>, subscriber: Name, level: DetailLevel, postOk: nat -> bool,
                              verdicts: seq<Verdict>, holds: map<Name, nat>)
    requires InTable(t, batch)
  {
    && |verdicts| <= |batch| && Judged(t, batch, subscriber, level, postOk, verdicts)
    && holds == StreamHolds(t, batch, verdicts, |verdicts|) && BatchDone(t, now, batch, verdicts)
  }

  lemma DispatchingStep(t: Table, now: Table, next: Table, batch: seq<nat>, subscriber: Name, level: DetailLevel, postOk: nat -> bool,
                        verdicts: seq<Verdict>, v: Verdict, holds: map<Name, nat>)
    requires InTable(t, batch) && Distinct(batch) && forall k :: 0 <= k < |batch| ==> t[batch[k]].status == Claimed
    requires |verdicts| < |batch| && Dispatching(t, now, batch, subscriber, level, postOk, verdicts, holds)
    requires Turn(now, next, batch[|verdicts|], v)
    requires v == Judge(t[batch[|verdicts|]].payload, subscriber, level, holds, postOk(batch[|verdicts|]))
    ensures
      var p := t[batch[|verdicts|]].payload;
      Dispatching(t, next, batch, subscriber, level, postOk, verdicts + [v], if Holds(p, v) then holds[p.stream := batch[|verdicts|]] else holds)
  {
    JudgedStep(t, batch, subscriber, level, postOk, verdicts, v);
    BatchStep(t, now, next, batch, verdicts, v, subscriber, level, postOk);
  }

  lemma TallyStep(verdicts: seq<Verdict>, v: Verdict)
    ensures Tally(verdicts + [v]) == Bump(Tally(verdicts), v)
  {
    assert (verdicts + [v])[..|verdicts|] == verdicts;
  }

  /** The failure handler itself raises on this payload. */
  predicate Crashes(p: Payload) {
    p.NotAnObject? && p.truthy
  }

  /** How a batch ends: with counters after its last row, or without at the first crashing payload. */
  ghost predicate Ends(t: Table, batch: seq<nat>, verdicts: seq<Verdict>, counters: Option<Counters>)
    requires InTable(t, batch) && |verdicts| <= |batch|
  {
    if counters.Some? then
      && |verdicts| == |batch| && counters.value == Tally(verdicts)
      && forall k :: 0 <= k < |batch| ==> !Crashes(t[batch[k]].payload)
    else
      && |verdicts| > 0 && Crashes(t[batch[|verdicts| - 1]].payload)
      && forall k :: 0 <= k < |verdicts| - 1 ==> !Crashes(t[batch[k]].payload)
  }

  /** Some payload among the first `k` rows of the batch crashes it. */
  ghost predicate CrashBefore(t: Table, batch: seq<nat>, k: nat)
    requires InTable(t, batch) && k <= |batch|
  {
    exists l :: 0 <= l < k && Crashes(t[batch[l]].payload)
  }

  /** Row `k` of the batch is still claimed exactly when a row before it crashed the batch. */
  ghost predicate LeftClaimed(t: Table, now: Table, batch: seq<nat>, k: nat)
    requires InTable(t, batch) && k < |batch|
  {
    && batch[k] < |now| && (now[batch[k]].status == Claimed <==> now[batch[k]].claimedBy.Some?)
    && (now[batch[k]].status == Claimed <==> CrashBefore(t, batch, k))
  }

  lemma LeftClaimedIff(t: Table, now: Table, batch: seq<nat>, verdicts: seq<Verdict>, counters: Option<Counters>)
    requires InTable(t, batch) && |verdicts| <= |batch| && Ends(t, batch, verdicts, counters) && BatchDone(t, now, batch, verdicts)
    requires forall k :: 0 <= k < |batch| ==> t[batch[k]].status == Claimed && t[batch[k]].claimedBy.Some?
    ensures counters.None? <==> CrashBefore(t, batch, |batch|)
    ensures forall k :: 0 <= k < |batch| ==> LeftClaimed(t, now, batch, k)
  {
    forall k | 0 <= k < |batch|
      ensures LeftClaimed(t, now, batch, k)
    {
      assert CrashBefore(t, batch, k) <==> k >= |verdicts|;
      if k < |verdicts| {
        SettleOutcome(t[batch[k]], verdicts[k]);
      }
    }
  }

  /** A row whose payload is the JSON text `1`, which no present writer stores, and one that is fine. */
  function TwoRows(): Table {
    [ NewRow(SLACK, NotAnObject(true)).(status := Claimed, claimedBy := Some(Name("a")), claimExpires := Some(0)),
      NewRow(SLACK, Object(true, Name("s"), Normal, false, true, true)).(status := Claimed, claimedBy := Some(Name("a")), claimExpires := Some(0)) ]
  }

  /** However the batch of these two rows ends, the second stays claimed. */
  lemma CrashLeavesARowClaimed(now: Table, verdicts: seq<Verdict>, counters: Option<Counters>, level: DetailLevel, postOk: nat -> bool)
    requires |verdicts| <= 2 && InTable(TwoRows(), [0, 1]) && Judged(TwoRows(), [0, 1], SLACK, level, postOk, verdicts)
    requires Ends(TwoRows(), [0, 1], verdicts, counters) && BatchDone(TwoRows(), now, [0, 1], verdicts)
    ensures counters.None? && now[0].status == Pending && now[0].attempts == 1 && now[1] == TwoRows()[1]
  {
    var t, batch := TwoRows(), [0, 1];
    assert Crashes(t[batch[0]].payload);
    LeftClaimedIff(t, now, batch, verdicts, counters);
    assert batch[0] == 0 && batch[1] == 1;
    assert JudgedAt(t, batch, SLACK, level, postOk, verdicts, 0);
    assert now[batch[0]] == Settle(t[0], verdicts[0]) && verdicts[0] == Failure;
  }

  /** The table after the first `|verdicts|` rows of the batch: those rows are settled, the rest of
      the batch is untouched, and outside it only rows held by a delivered row were released. */
  ghost predicate BatchDone(t: Table, now: Table, batch: seq<nat>, verdicts: seq<Verdict>)
    requires InTable(t, batch) && |verdicts| <= |batch|
  {
    && |now| == |t|
    && (forall k :: 0 <= k < |batch| ==>
      now[batch[k]] == if k < |verdicts| then Settle(t[batch[k]], verdicts[k]) else t[batch[k]])
    && (forall i :: 0 <= i < |t| && i !in batch ==> now[i] == if Freed(t[i], batch, verdicts) then Freely(t[i]) else t[i])
  }

  /** The row was held by a row of the batch that has been delivered. */
  ghost predicate Freed(r: Row, batch: seq<nat>, verdicts: seq<Verdict>)
    requires |verdicts| <= |batch|
  {
    exists k :: 0 <= k < |verdicts| && verdicts[k].Posted? && HeldBy(r, batch[k])
  }

  function Freely(r: Row): Row {
    r.(status := Pending, blockedBy := None)
  }

  lemma {:induction false} StreamHoldsPrefix(t: Table, batch: seq<nat>, a: seq<Verdict>, b: seq<Verdict>, k: nat)
    requires InTable(t, batch) && k <= |a| <= |b| <= |batch| && b[..|a|] == a
    ensures StreamHolds(t, batch, a, k) == StreamHolds(t, batch, b, k)
  {
    if k > 0 {
      StreamHoldsPrefix(t, batch, a, b, k - 1);
      assert a[k - 1] == b[..|a|][k - 1];
    }
  }

  lemma JudgedStep(t: Table, batch: seq<nat>, subscriber: Name, level: DetailLevel, postOk: nat -> bool,
                   verdicts: seq<Verdict>, v: Verdict)
    requires InTable(t, batch) && Judged(t, batch, subscriber, level, postOk, verdicts) && |verdicts| < |batch|
    requires var k := |verdicts|;
      v == Judge(t[batch[k]].payload, subscriber, level, StreamHolds(t, batch, verdicts, k), postOk(batch[k]))
    ensures Judged(t, batch, subscriber, level, postOk, verdicts + [v])
    ensures StreamHolds(t, batch, verdicts, |verdicts|) == StreamHolds(t, batch, verdicts + [v], |verdicts|)
  {
    var n, verdicts' := |verdicts|, verdicts + [v];
    assert verdicts'[..n] == verdicts;
    forall k | 0 <= k < |verdicts'|
      ensures JudgedAt(t, batch, subscriber, level, postOk, verdicts', k)
    {
      StreamHoldsPrefix(t, batch, verdicts, verdicts', k);
      assert k < n ==> JudgedAt(t, batch, subscriber, level, postOk, verdicts, k);
    }
    StreamHoldsPrefix(t, batch, verdicts, verdicts', n);
  }

  /** What one turn of the loop does to the table. */
  ghost predicate Turn(now: Table, next: Table, id: nat, v: Verdict) {
    && id < |now| == |next| && next[id] == Settle(now[id], v)
    && forall i :: 0 <= i < |now| && i != id ==> next[i] == if v.Posted? then ReleaseRow(now[i], id) else now[i]
  }

  /** Rows of the batch already settled, or still claimed, are not touched by the release. */
  lemma BatchRowStep(t: Table, now: Table, next: Table, batch: seq<nat>, verdicts: seq<Verdict>, v: Verdict,
                     subscriber: Name, level: DetailLevel, postOk: nat -> bool, k: nat)
    requires InTable(t, batch) && Distinct(batch) && |verdicts| < |batch| && k < |batch|
    requires t[batch[k]].status == Claimed
    requires Judged(t, batch, subscriber, level, postOk, verdicts) && BatchDone(t, now, batch, verdicts)
    requires Turn(now, next, batch[|verdicts|], v)
    ensures next[batch[k]] == if k <= |verdicts| then Settle(t[batch[k]], (verdicts + [v])[k]) else t[batch[k]]
  {
    var m := |verdicts|;
    if k != m {
      assert batch[k] != batch[m];
      if k < m {
        HeldNamesEarlier(t, batch, subscriber, level, postOk, verdicts, k, m);
        SettleOutcome(t[batch[k]], verdicts[k]);
        assert !HeldBy(now[batch[k]], batch[m]);
      }
    }
  }

  lemma BatchStep(t: Table, now: Table, next: Table, batch: seq<nat>, verdicts: seq<Verdict>, v: Verdict,
                  subscriber: Name, level: DetailLevel, postOk: nat -> bool)
    requires InTable(t, batch) && Distinct(batch) && |verdicts| < |batch|
    requires forall k :: 0 <= k < |batch| ==> t[batch[k]].status == Claimed
    requires Judged(t, batch, subscriber, level, postOk, verdicts) && BatchDone(t, now, batch, verdicts)
    requires Turn(now, next, batch[|verdicts|], v)
    ensures BatchDone(t, next, batch, verdicts + [v])
  {
    forall k | 0 <= k < |batch|
      ensures next[batch[k]] == if k < |verdicts + [v]| then Settle(t[batch[k]], (verdicts + [v])[k]) else t[batch[k]]
    {
      BatchRowStep(t, now, next, batch, verdicts, v, subscriber, level, postOk, k);
    }
    forall i | 0 <= i < |t| && i !in batch
      ensures next[i] == if Freed(t[i], batch, verdicts + [v]) then Freely(t[i]) else t[i]
    {
      assert batch[|verdicts|] in batch;
      FreedStep(t[i], batch, verdicts, v);
    }
  }

  lemma FreedStep(r: Row, batch: seq<nat>, verdicts: seq<Verdict>, v: Verdict)
    requires |verdicts| < |batch|
    ensures Freed(r, batch, verdicts + [v]) <==> Freed(r, batch, verdicts) || (v.Posted? && HeldBy(r, batch[|verdicts|]))
  {
    var verdicts' := verdicts + [v];
    if Freed(r, batch, verdicts') {
      var k :| 0 <= k < |verdicts'| && verdicts'[k].Posted? && HeldBy(r, batch[k]);
      assert k < |verdicts| ==> verdicts[k].Posted?;
    }
    if Freed(r, batch, verdicts) {
      var k :| 0 <= k < |verdicts| && verdicts[k].Posted? && HeldBy(r, batch[k]);
      assert verdicts'[k].Posted?;
    }
    if v.Posted? && HeldBy(r, batch[|verdicts|]) {
      assert verdicts'[|verdicts|].Posted?;
    }
  }

  /** A row held in this batch names an earlier row, never one dispatched later. */
  lemma HeldNamesEarlier(t: Table, batch: seq<nat>, subscriber: Name, level: DetailLevel, postOk: nat -> bool,
                         verdicts: seq<Verdict>, k: nat, m: nat)
    requires InTable(t, batch) && Distinct(batch) && k < |verdicts| <= m < |batch|
    requires Judged(t, batch, subscriber, level, postOk, verdicts)
    ensures verdicts[k].Held? ==> verdicts[k].blocker != batch[m]
  {
    assert JudgedAt(t, batch, subscriber, level, postOk, verdicts, k);
    if verdicts[k].Held? {
      StreamHoldsHas(t, batch, verdicts, k, t[batch[k]].payload.stream);
    }
  }
}

/** The claim protocol under arbitrary interleavings of dispatchers. */
module OutboxProtocol {
  import opened Prelude
  import opened Outbox

  /** A claim a dispatcher has taken and not yet settled with a mark. */
  datatype Lease = Lease(who: Name, row: nat, expires: int)

  datatype State = State(rows: Table, now: int, leases: set<Lease>)

  datatype Mark = MarkDelivered | MarkUnroutable | MarkFailed | MarkBlocked(blocker: nat)

  datatype Step =
    | Insert(subscriber: Name, payload: Payload)
    | Tick(seconds: nat)
    | Expire(subscriber: Name)
    | Claim(who: Name, subscriber: Name, row: nat, leaseSeconds: int)
    | Settle(who: Name, row: nat, mark: Mark)
    | Release(blocker: nat)

  function MarkRow(r: Row, m: Mark): Row {
    match m
    case MarkDelivered => DeliverRow(r)
    case MarkUnroutable => RefuseRow(r)
    case MarkFailed => FailRow(r)
    case MarkBlocked(blocker) => HoldRow(r, blocker)
  }

  function Apply(s: State, step: Step): State {
    match step
    case Insert(sub, payload) => s.(rows := s.rows + [NewRow(sub, payload)])
    case Tick(n) => s.(now := s.now + n)
    case Expire(sub) => s.(rows := ExpireLeases(s.rows, sub, s.now))
    case Claim(who, sub, i, n) =>
      if i < |s.rows| && Claimable(s.rows[i], sub)
      then s.(rows := s.rows[i := ClaimRow(s.rows[i], who, s.now + n)], leases := s.leases + {Lease(who, i, s.now + n)})
      else s
    case Settle(who, i, m) =>
      if i < |s.rows|
      then s.(rows := s.rows[i := MarkRow(s.rows[i], m)], leases := set l | l in s.leases && !(l.who == who && l.row == i))
      else s
    case Release(blocker) => s.(rows := ReleaseHeld(s.rows, blocker))
  }

  function Run(s: State, steps: seq<Step>): State {
    if steps == [] then s else Apply(Run(s, steps[..|steps| - 1]), steps[|steps| - 1])
  }

  const START := State([], 0, {})

  /** Dispatcher `who` still holds `row`: its claim has not run out. */
  ghost predicate Holds(s: State, who: Name, row: nat) {
    exists l :: l in s.leases && l.who == who && l.row == row && s.now <= l.expires
  }

  /** A mark is timely when it happens inside the marking dispatcher's own lease. */
  ghost predicate Timely(s: State, step: Step) {
    step.Settle? ==> Holds(s, step.who, step.row)
  }

  ghost predicate TimelyRun(s: State, steps: seq<Step>) {
    steps == [] || (TimelyRun(s, steps[..|steps| - 1]) && Timely(Run(s, steps[..|steps| - 1]), steps[|steps| - 1]))
  }

  /** A claim adds its own lease, a mark takes away only the marker's on that row, and no other step touches any. */
  lemma LeasesMean(s: State, step: Step, l: Lease)
    ensures l in Apply(s, step).leases <==>
      || (l in s.leases && !(step.Settle? && step.row < |s.rows| && step.who == l.who && step.row == l.row))
      || (&& step.Claim? && step.row < |s.rows| && s.rows[step.row].subscriber == step.subscriber && s.rows[step.row].status == Pending && s.rows[step.row].attempts < 10
          && l == Lease(step.who, step.row, s.now + step.leaseSeconds))
  {
  }

  /** What each mark writes, whatever the row was. */
  lemma MarksMean(r: Row, m: Mark)
    ensures
      var n := MarkRow(r, m);
      && n == r.(status := n.status, attempts := n.attempts, claimedBy := None, claimExpires := None, blockedBy := n.blockedBy)
      && n.attempts == r.attempts + (if m == MarkFailed then 1 else 0)
      && n.blockedBy == (if m == MarkDelivered then None else if m.MarkBlocked? then Some(m.blocker) else r.blockedBy)
      && (n.status == Delivered <==> m == MarkDelivered) && (n.status == Unroutable <==> m == MarkUnroutable)
      && (n.status == Blocked <==> m.MarkBlocked?)
      && (n.status == Dead <==> m == MarkFailed && r.attempts >= 9) && (n.status == Pending <==> m == MarkFailed && r.attempts < 9)
  {
  }

  // ---------------------------------------------------------------------------
  // Any interleaving
  // ---------------------------------------------------------------------------

  /** The claim columns are filled exactly on claimed rows. */
  predicate ClaimColumns(r: Row) {
    && (r.claimedBy.Some? <==> r.status == Claimed)
    && (r.claimExpires.Some? <==> r.status == Claimed)
  }

  ghost predicate ColumnsOk(s: State) {
    forall i :: 0 <= i < |s.rows| ==> ClaimColumns(s.rows[i])
  }

  lemma ColumnsStep(s: State, step: Step)
    requires ColumnsOk(s)
    ensures ColumnsOk(Apply(s, step))
  {
  }

  /** On every interleaving, timely or not, a row names a claimant exactly while it is claimed. */
  lemma {:induction false} ClaimantIffClaimed(steps: seq<Step>)
    ensures ColumnsOk(Run(START, steps))
  {
    if steps != [] {
      ClaimantIffClaimed(steps[..|steps| - 1]);
      ColumnsStep(Run(START, steps[..|steps| - 1]), steps[|steps| - 1]);
    }
  }

  // ---------------------------------------------------------------------------
  // Timely runs
  // ---------------------------------------------------------------------------

  /** A lease that has not run out is the one recorded on its row. */
  ghost predicate LeaseRecorded(s: State, l: Lease) {
    s.now <= l.expires ==>
      && l.row < |s.rows| && s.rows[l.row].status == Claimed
      && s.rows[l.row].claimedBy == Some(l.who) && s.rows[l.row].claimExpires == Some(l.expires)
  }

  predicate AttemptsOk(r: Row) {
    r.attempts <= MAX_ATTEMPTS && (r.status == Dead <==> r.attempts == MAX_ATTEMPTS)
  }

  ghost predicate Inv(s: State) {
    && ColumnsOk(s)
    && (forall l :: l in s.leases ==> LeaseRecorded(s, l))
    && (forall i :: 0 <= i < |s.rows| ==> AttemptsOk(s.rows[i]))
  }

  lemma HoldsIsClaimed(s: State, who: Name, row: nat)
    requires Inv(s) && Holds(s, who, row)
    ensures row < |s.rows| && s.rows[row].status == Claimed && s.rows[row].claimedBy == Some(who)
  {
    var l :| l in s.leases && l.who == who && l.row == row && s.now <= l.expires;
    assert LeaseRecorded(s, l);
  }

  lemma InvStep(s: State, step: Step)
    requires Inv(s) && Timely(s, step)
    ensures Inv(Apply(s, step))
  {
    var s' := Apply(s, step);
    ColumnsStep(s, step);
    if step.Settle? {
      HoldsIsClaimed(s, step.who, step.row);
    }
    forall l | l in s'.leases
      ensures LeaseRecorded(s', l)
    {
      assert l in s.leases ==> LeaseRecorded(s, l);
    }
  }

  lemma {:induction false} InvHolds(steps: seq<Step>)
    requires TimelyRun(START, steps)
    ensures Inv(Run(START, steps))
  {
    if steps != [] {
      InvHolds(steps[..|steps| - 1]);
      InvStep(Run(START, steps[..|steps| - 1]), steps[|steps| - 1]);
    }
  }

  /** Mutual exclusion: no row is ever held by two dispatchers. */
  lemma OneHolder(steps: seq<Step>, a: Name, b: Name, row: nat)
    requires TimelyRun(START, steps)
    requires Holds(Run(START, steps), a, row) && Holds(Run(START, steps), b, row)
    ensures a == b
  {
    InvHolds(steps);
    HoldsIsClaimed(Run(START, steps), a, row);
    HoldsIsClaimed(Run(START, steps), b, row);
  }

  predicate Settled(st: Status) {
    st in {Delivered, Dead, Unroutable}
  }

  /** In a timely run a delivered, dead or unroutable row never changes again. */
  lemma {:induction false} SettledIsAbsorbing(steps: seq<Step>, k: nat, row: nat)
    requires TimelyRun(START, steps) && k <= |steps|
    requires row < |Run(START, steps[..k]).rows| && Settled(Run(START, steps[..k]).rows[row].status)
    ensures row < |Run(START, steps).rows| && Run(START, steps).rows[row] == Run(START, steps[..k]).rows[row]
  {
    if k == |steps| {
      assert steps[..k] == steps;
    } else {
      var front, last := steps[..|steps| - 1], steps[|steps| - 1];
      assert front[..k] == steps[..k];
      SettledIsAbsorbing(front, k, row);
      InvHolds(front);
      if last.Settle? {
        HoldsIsClaimed(Run(START, front), last.who, last.row);
      }
    }
  }

  /** How often a mark of the given kind was applied to a row. */
  function Settlements(steps: seq<Step>, row: nat, m: Mark): nat {
    if steps == [] then 0
    else
      var last := steps[|steps| - 1];
      Settlements(steps[..|steps| - 1], row, m) + if last.Settle? && last.row == row && last.mark == m then 1 else 0
  }

  lemma {:induction false} AttemptsAreFailures(steps: seq<Step>, row: nat)
    requires TimelyRun(START, steps)
    ensures
      var rows := Run(START, steps).rows;
      var failed, delivered := Settlements(steps, row, MarkFailed), Settlements(steps, row, MarkDelivered);
      if row < |rows| then rows[row].attempts == failed && delivered == (if rows[row].status == Delivered then 1 else 0)
      else failed == 0 && delivered == 0
  {
    if steps != [] {
      var front, last := steps[..|steps| - 1], steps[|steps| - 1];
      AttemptsAreFailures(front, row);
      InvHolds(front);
      if last.Settle? {
        HoldsIsClaimed(Run(START, front), last.who, last.row);
      }
    }
  }

  /** A row is attempted at most ten times, and is dead exactly when it has failed ten times. */
  lemma BoundedAttempts(steps: seq<Step>, row: nat)
    requires TimelyRun(START, steps) && row < |Run(START, steps).rows|
    ensures Settlements(steps, row, MarkFailed) + Settlements(steps, row, MarkDelivered) <= 10
    ensures Run(START, steps).rows[row].status == Dead <==> Settlements(steps, row, MarkFailed) == 10
  {
    InvHolds(steps);
    AttemptsAreFailures(steps, row);
  }

  // ---------------------------------------------------------------------------
  // What a late mark does
  // ---------------------------------------------------------------------------

  /** Whatever the state, a step moves a delivered row exactly when it marks it as something else. */
  lemma DeliveredMovesIff(s: State, step: Step, row: nat)
    requires row < |s.rows| && s.rows[row].status == Delivered
    ensures row < |Apply(s, step).rows|
    ensures Apply(s, step).rows[row].status != Delivered <==>
      step.Settle? && step.row == row && step.mark != MarkDelivered
  {
  }

  /** Marks carry no guard on the claimant: after its lease ran out, a dispatcher's failure mark
      re-opens a row that another dispatcher has delivered. */
  lemma LateMarkReopensDelivered()
    ensures exists steps, k ::
      && 0 <= k <= |steps| && |Run(START, steps[..k]).rows| == |Run(START, steps).rows| == 1
      && Run(START, steps[..k]).rows[0].status == Delivered && Run(START, steps).rows[0].status == Pending
  {
    var steps := DeliverLateFail();
    AfterDelivery();
    var s := Run(START, steps[..6]);
    assert Run(START, steps) == Apply(s, steps[6]);
  }

  /** Dispatcher "a" claims a row, its lease runs out, "b" claims and delivers it, and "a" reports a failure. */
  function DeliverLateFail(): seq<Step> {
    var slack, a, b := Name("slack"), Name("a"), Name("b");
    [ Insert(slack, Unreadable), Claim(a, slack, 0, 300), Tick(301), Expire(slack), Claim(b, slack, 0, 300),
      Settle(b, 0, MarkDelivered), Settle(a, 0, MarkFailed) ]
  }

  lemma AfterExpiry()
    ensures
      var s := Run(START, DeliverLateFail()[..4]);
      s.rows == [NewRow(Name("slack"), Unreadable)] && s.now == 301
  {
    var steps := DeliverLateFail();
    assert steps[..4][..3] == steps[..3] && steps[..3][..2] == steps[..2] && steps[..2][..1] == steps[..1] && steps[..1][..0] == [];
    assert Run(START, steps[..1]).rows == [NewRow(Name("slack"), Unreadable)];
    assert Run(START, steps[..2]).rows == [ClaimRow(NewRow(Name("slack"), Unreadable), Name("a"), 300)];
    assert Run(START, steps[..3]) == Run(START, steps[..2]).(now := 301);
  }

  lemma AfterDelivery()
    ensures
      var s := Run(START, DeliverLateFail()[..6]);
      |s.rows| == 1 && s.rows[0].status == Delivered && s.rows[0].attempts == 0
  {
    var steps := DeliverLateFail();
    assert steps[..6][..5] == steps[..5] && steps[..5][..4] == steps[..4];
    AfterExpiry();
    assert Run(START, steps[..5]).rows == [ClaimRow(NewRow(Name("slack"), Unreadable), Name("b"), 601)];
  }
}
