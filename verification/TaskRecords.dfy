/** The transitions as the program runs them: on one mutable record, field by field. */
module TaskRecords {
  import opened Common
  import opened Autonomy
  import opened Tasks
  import Dependencies
  import Lifecycle

  /** What a caller sees: the record was changed, the work was already done, or an error was raised. */
  datatype Reply = Changed | Idempotent | Raised(error: Error)

  /** `r` and the new state are those that the specified outcome names; a refusal changes nothing. */
  predicate Did(before: Task, after: Task, r: Reply, o: Outcome) {
    match o
    case Next(t) => r == Changed && after == t
    case Replay => r == Idempotent && after == before
    case Refused(e) => r == Raised(e) && after == before
  }

  /** What a reply tells the caller, without a word on how it was reached. */
  lemma DidMeans(tasks: Table, id: Token, op: Op, admitted: bool, now: Time, after: Task, r: Reply)
    requires id in tasks && Did(tasks[id], after, r, Apply(tasks, id, op, admitted, now))
    ensures r.Raised? <==> !Lifecycle.Allowed(tasks, id, op, admitted, now)
    ensures r == Idempotent <==> Lifecycle.Allowed(tasks, id, op, admitted, now) && Lifecycle.AlreadyDone(tasks[id], op)
    ensures if r == Changed then Lifecycle.Moves(op, tasks[id], after, now) else after == tasks[id]
  {
    Lifecycle.AcceptedIff(tasks, id, op, admitted, now);
    if Apply(tasks, id, op, admitted, now).Next? { Lifecycle.Effect(tasks, id, op, admitted, now); }
  }

  /** `[item for item in depends_on if not dependency_satisfied(...)]` is empty. */
  method AllSatisfied(dependsOn: seq<Token>, tasks: Table) returns (ready: bool)
    ensures ready <==> forall k :: 0 <= k < |dependsOn| ==> Satisfied(tasks, dependsOn[k], {})
    ensures ready <==> forall k :: 0 <= k < |dependsOn| ==> Dependencies.ReachesDone(tasks, dependsOn[k])
  {
    for i := 0 to |dependsOn|
      invariant forall k :: 0 <= k < i ==> Satisfied(tasks, dependsOn[k], {}) && Dependencies.ReachesDone(tasks, dependsOn[k])
    {
      var satisfied := Dependencies.DependencySatisfied(dependsOn[i], tasks);
      if !satisfied { return false; }
    }
    return true;
  }

  class TaskRecord {
    var status: Status
    var owner: Option<Token>
    var claim: Option<Time>
    var worker: Option<Token>
    var revision: nat
    var branch: Option<Token>
    var worktree: Option<Token>
    var dependsOn: seq<Token>
    var supersededBy: Option<Token>
    var envelope: Option<BoundEnvelope>
    var reservation: Option<Reservation>
    var result: Option<Receipt>
    var abandonments: seq<Abandonment>
    var ledger: Option<Ledger>
    var other: Token

    function View(): Task
      reads this
    {
      Task(status, owner, claim, worker, revision, branch, worktree, dependsOn, supersededBy, envelope, reservation, result, abandonments, ledger, other)
    }

    constructor (t: Task)
      ensures View() == t
    {
      status, owner, claim, worker, revision := t.status, t.owner, t.claim, t.worker, t.revision;
      branch, worktree, dependsOn, supersededBy := t.branch, t.worktree, t.dependsOn, t.supersededBy;
      envelope, reservation, result, abandonments := t.envelope, t.reservation, t.result, t.abandonments;
      ledger, other := t.ledger, t.other;
    }

    method DropClaim()
      modifies this
      ensures View() == Unclaimed(old(View()), old(status))
    {
      owner, claim, worker := None, None, None;
    }

    method RequireActiveOwner(caller: Option<Token>, expected: nat, admitted: bool, now: Time) returns (refusal: Option<Error>)
      ensures refusal.None? <==> owner == caller && admitted && status == InProgress && claim.Some? && claim.value > now && expected == revision
      ensures refusal == Some(NotOwned) <==> owner != caller
      ensures refusal == Some(Denied) ==> owner == caller && !admitted
      ensures refusal == Some(StaleRevision) ==> expected != revision && status == InProgress && claim.Some? && claim.value > now
      ensures refusal == Some(LeaseExpired) ==> claim.None? || claim.value <= now
      ensures refusal == OwnerRefusal(View(), caller, expected, admitted, now)
    {
      if owner != caller { return Some(NotOwned); }
      if !admitted { return Some(Denied); }
      if status != InProgress { return Some(NotInPhase); }
      if claim.None? || claim.value <= now { return Some(LeaseExpired); }
      if expected != revision { return Some(StaleRevision); }
      return None;
    }

    // ---- Claims and phases --------------------------------------------------

    method TakeClaim(tasks: Table, id: Token, op: Op, admitted: bool, now: Time) returns (r: Reply)
      requires op.Claim?
      modifies this
      ensures Did(old(View()), View(), r, DoClaim(tasks, id, old(View()), op, admitted, now))
      ensures r == Changed ==> (forall k :: 0 <= k < |dependsOn| ==> Dependencies.ReachesDone(tasks, dependsOn[k]))
      ensures r == Changed ==> forall other :: other in tasks && other != id && tasks[other].status == InProgress ==> tasks[other].owner != owner
      ensures r == Changed ==> old(status) == Open && status == InProgress && owner == op.owner && claim.Some? && now + op.minutes * 60 * SECOND < claim.value + SECOND
    {
      if op.fence.Some? && op.fence.value != revision { return Raised(StaleRevision); }
      if op.minutes <= 0 { return Raised(InvalidInput); }
      if status != Open { return Raised(NotInPhase); }
      var ready := AllSatisfied(dependsOn, tasks);
      if !ready { return Raised(NotInPhase); }
      if !admitted { return Raised(Denied); }
      if OwnsAnother(tasks, id, op.owner) { return Raised(ConflictingInput); }
      owner, status, worker := op.owner, InProgress, op.worker;
      claim := Some(LeaseEnd(now, op.minutes));
      return Changed;
    }

    method PromoteTask(tasks: Table, op: Op, admitted: bool) returns (r: Reply)
      requires op.Promote?
      modifies this
      ensures Did(old(View()), View(), r, DoPromote(tasks, old(View()), op, admitted))
      ensures r == Changed ==> forall k :: 0 <= k < |dependsOn| ==> Dependencies.ReachesDone(tasks, dependsOn[k])
      ensures r == Changed ==> old(status) == Planned && status == Open && owner.None? && claim.None?
    {
      if op.expected != revision { return Raised(StaleRevision); }
      if status != Planned { return Raised(NotInPhase); }
      if owner.Some? || claim.Some? { return Raised(NotOwned); }
      var ready := AllSatisfied(dependsOn, tasks);
      if !ready { return Raised(NotInPhase); }
      if !admitted { return Raised(Denied); }
      if !op.noted { return Raised(InvalidInput); }
      status := Open;
      return Changed;
    }

    method PauseTask(op: Op, admitted: bool) returns (r: Reply)
      requires op.Pause?
      modifies this
      ensures Did(old(View()), View(), r, DoPause(old(View()), op, admitted))
      ensures r == Changed ==> old(owner) == op.owner && reservation.None? && owner.None? && claim.None? && worker.None?
    {
      if owner != op.owner { return Raised(NotOwned); }
      if !admitted { return Raised(Denied); }
      if reservation.Some? { return Raised(ConflictingInput); }
      if op.expected != revision { return Raised(StaleRevision); }
      if status != InProgress { return Raised(NotInPhase); }
      if !op.noted { return Raised(InvalidInput); }
      status := Blocked;
      DropClaim();
      return Changed;
    }

    /** `apply_resume` (with the session's next action) and `apply_unblock` (without). */
    method Reopen(expected: nat, noted: bool, next: Option<Token>, admitted: bool) returns (r: Reply)
      modifies this
      ensures Did(old(View()), View(), r,
        match DoReopen(old(View()), expected, noted, admitted)
        case Next(t) => Next(if next.Some? then t.(other := next.value) else t)
        case Replay => Replay
        case Refused(e) => Refused(e))
    {
      if expected != revision { return Raised(StaleRevision); }
      if status != Blocked { return Raised(NotInPhase); }
      if owner.Some? || claim.Some? { return Raised(NotOwned); }
      if !admitted { return Raised(Denied); }
      if !noted { return Raised(InvalidInput); }
      if next.Some? { other := next.value; }
      status := Open;
      return Changed;
    }

    method RecoverClaim(op: Op, admitted: bool, now: Time) returns (r: Reply)
      requires op.RecoverExpired?
      modifies this
      ensures Did(old(View()), View(), r, DoRecoverExpired(old(View()), op, admitted, now))
      ensures r == Changed ==> old(owner).Some? && reservation.None? && old(claim).value <= now && owner.None? && claim.None?
    {
      if reservation.Some? { return Raised(ConflictingInput); }
      if op.expected != revision { return Raised(StaleRevision); }
      if status != InProgress || owner.None? { return Raised(NotInPhase); }
      if claim.None? { return Raised(Malformed); }
      if claim.value > now { return Raised(LeaseActive); }
      if !op.noted { return Raised(InvalidInput); }
      if op.session.Some? {
        other := op.session.value;
      } else if !(op.legacy && worker.None?) {
        if !(worker.Some? && admitted) { return Raised(Denied); }
      }
      status := Open;
      DropClaim();
      return Changed;
    }

    method RenewLease(op: Op, now: Time) returns (r: Reply)
      requires op.Heartbeat?
      modifies this
      ensures Did(old(View()), View(), r, DoHeartbeat(old(View()), op, now))
      ensures r == Changed ==> reservation.None? && status == InProgress && claim.Some? && owner == op.owner
    {
      if owner != op.owner { return Raised(NotOwned); }
      if reservation.Some? { return Raised(ConflictingInput); }
      if op.minutes <= 0 || status != InProgress { return Raised(NotInPhase); }
      if op.fence.Some? && op.fence.value != revision { return Raised(StaleRevision); }
      claim := Some(LeaseEnd(now, op.minutes));
      return Changed;
    }

    method UpdateTask(op: Op, admitted: bool) returns (r: Reply)
      requires op.Update?
      modifies this
      ensures Did(old(View()), View(), r, DoUpdate(old(View()), op, admitted))
    {
      if owner != op.owner { return Raised(NotOwned); }
      if !admitted { return Raised(Denied); }
      if reservation.Some? { return Raised(ConflictingInput); }
      if op.fence.Some? && op.fence.value != revision { return Raised(StaleRevision); }
      if op.status.Some? && op.status.value != InProgress { return Raised(InvalidInput); }
      if op.status.Some? { status := op.status.value; }
      other := op.next;
      if op.run { CarryHold(); }
      return Changed;
    }

    method ReleaseTask(op: Op, admitted: bool) returns (r: Reply)
      requires op.Release?
      modifies this
      ensures Did(old(View()), View(), r, DoRelease(old(View()), op, admitted))
      ensures r == Changed ==> old(owner) == op.owner && reservation.None? && status != InProgress && owner.None? && claim.None?
    {
      if op.to == InProgress { return Raised(InvalidInput); }
      if owner != op.owner { return Raised(NotOwned); }
      if reservation.Some? { return Raised(ConflictingInput); }
      if !admitted { return Raised(Denied); }
      status := op.to;
      DropClaim();
      return Changed;
    }

    method AttachCheckpoint(op: Op, admitted: bool) returns (r: Reply)
      requires op.Checkpoint?
      modifies this
      ensures Did(old(View()), View(), r, DoCheckpoint(old(View()), op, admitted))
    {
      if owner != op.owner { return Raised(NotOwned); }
      if op.expected != revision { return Raised(StaleRevision); }
      if !admitted { return Raised(Denied); }
      other := op.next;
      return Changed;
    }

    // ---- Bindings -----------------------------------------------------------

    method BindTree(tasks: Table, id: Token, op: Op, admitted: bool, now: Time) returns (r: Reply)
      requires op.BindWorktree?
      modifies this
      ensures Did(old(View()), View(), r, DoBindWorktree(tasks, id, old(View()), op, admitted, now))
      ensures r == Changed ==> branch == Some(op.branch) && worktree == Some(op.worktree) && !IdentityTaken(tasks, id, op.branch, op.worktree)
    {
      var refusal := RequireActiveOwner(op.owner, op.expected, admitted, now);
      if refusal.Some? { return Raised(refusal.value); }
      if IdentityTaken(tasks, id, op.branch, op.worktree) { return Raised(ConflictingInput); }
      if branch.Some? && worktree.Some? {
        if branch.value == op.branch && worktree.value == op.worktree { return Idempotent; }
        return Raised(ConflictingInput);
      }
      if branch.Some? { return Raised(ConflictingInput); }
      if worktree.Some? && worktree.value != op.worktree { return Raised(ConflictingInput); }
      if reservation.Some? { return Raised(ConflictingInput); }
      branch, worktree := Some(op.branch), Some(op.worktree);
      return Changed;
    }

    method RepairTree(op: Op) returns (r: Reply)
      requires op.RepairBinding?
      modifies this
      ensures Did(old(View()), View(), r, DoRepairBinding(old(View()), op))
    {
      if op.expected != revision { return Raised(StaleRevision); }
      if status !in {Open, Done} || owner.Some? || claim.Some? { return Raised(NotInPhase); }
      if status == Open && branch.Some? { return Raised(ConflictingInput); }
      if worktree != Some(op.worktree) { return Raised(ConflictingInput); }
      if !op.noted { return Raised(InvalidInput); }
      worktree := None;
      return Changed;
    }

    method BindFirstEnvelope(op: Op, admitted: bool, now: Time) returns (r: Reply)
      requires op.BindEnvelope?
      modifies this
      ensures Did(old(View()), View(), r, DoBindEnvelope(old(View()), op, admitted, now))
    {
      var refusal := RequireActiveOwner(op.owner, op.expected, admitted, now);
      if refusal.Some? { return Raised(refusal.value); }
      if reservation.Some? { return Raised(ConflictingInput); }
      var requested := BoundEnvelope(op.ref, op.envelopeRevision, revision, op.digest);
      if envelope.Some? {
        if envelope.value == requested { return Idempotent; }
        return Raised(ConflictingInput);
      }
      envelope := Some(requested);
      return Changed;
    }

    method SwapEnvelope(op: Op, admitted: bool, now: Time) returns (r: Reply)
      requires op.ReplaceEnvelope?
      modifies this
      ensures Did(old(View()), View(), r, DoReplaceEnvelope(old(View()), op, admitted, now))
    {
      var refusal := RequireActiveOwner(op.owner, op.expected, admitted, now);
      if refusal.Some? { return Raised(refusal.value); }
      if reservation.Some? { return Raised(ConflictingInput); }
      if envelope.None? { return Raised(NotInPhase); }
      if op.ref == envelope.value.ref { return Raised(ConflictingInput); }
      if op.envelopeRevision != envelope.value.revision + 1 || op.digest == envelope.value.digest { return Raised(ConflictingInput); }
      envelope := Some(BoundEnvelope(op.ref, op.envelopeRevision, revision, op.digest));
      return Changed;
    }

    // ---- Bound executions ---------------------------------------------------

    method StartExecution(op: Op, admitted: bool, now: Time) returns (r: Reply)
      requires op.Start?
      modifies this
      ensures Did(old(View()), View(), r, DoStart(old(View()), op, admitted, now))
      ensures r == Changed ==> old(reservation).None? && reservation.Some? && reservation.value.envelope == envelope.value.digest && reservation.value.owner == owner
      ensures r == Changed ==> claim.Some? && claim.value >= reservation.value.expires && reservation.value.expires + SECOND > op.expires > now
    {
      var refusal := RequireActiveOwner(op.owner, op.expected, admitted, now);
      if refusal.Some? { return Raised(refusal.value); }
      if envelope.None? { return Raised(NotInPhase); }
      if reservation.Some? { return Raised(ConflictingInput); }
      if op.expires <= now { return Raised(LeaseExpired); }
      reservation := Some(Reservation(op.id, op.owner, revision, envelope.value.digest, op.scope, op.argv, WholeSeconds(op.expires)));
      if claim.value < op.expires { claim := Some(WholeSeconds(op.expires)); }
      return Changed;
    }

    method RecordExecutionResult(op: Op) returns (r: Reply)
      requires op.RecordResult?
      modifies this
      ensures Did(old(View()), View(), r, DoRecordResult(old(View()), op))
      ensures r == Changed ==> reservation == old(reservation) && reservation.Some? && Proves(result, reservation.value)
    {
      if reservation.None? || reservation.value.id != op.id { return Raised(NotOwned); }
      if op.fence.Some? && op.fence.value != revision { return Raised(StaleRevision); }
      if reservation.value.owner != op.owner { return Raised(NotOwned); }
      if op.owner.None? { return Raised(Malformed); }
      var receipt := Receipt(op.id, op.owner, reservation.value.envelope, reservation.value.argv, op.outcome);
      if result == Some(receipt) { return Idempotent; }
      result := Some(receipt);
      return Changed;
    }

    method FinishExecution(op: Op) returns (r: Reply)
      requires op.Finish?
      modifies this
      ensures Did(old(View()), View(), r, DoFinish(old(View()), op))
      ensures r == Changed ==> reservation.None? && Proves(result, old(reservation).value) && old(reservation).value.id == op.id
    {
      if reservation.None? || reservation.value.id != op.id { return Raised(NotOwned); }
      if reservation.value.owner != op.owner { return Raised(NotOwned); }
      if op.fence.Some? && op.fence.value != revision { return Raised(StaleRevision); }
      if !Proves(result, reservation.value) { return Raised(NotInPhase); }
      reservation := None;
      return Changed;
    }

    method RecoverExecution(op: Op, admitted: bool, now: Time) returns (r: Reply)
      requires op.Recover?
      modifies this
      ensures Did(old(View()), View(), r, DoRecover(old(View()), op, admitted, now))
      ensures r == Changed ==> reservation.None? && Proves(result, old(reservation).value) && old(reservation).value.expires <= now
    {
      if op.fence.Some? && op.fence.value != revision { return Raised(StaleRevision); }
      if !ValidReservation(reservation) { return Raised(NotInPhase); }
      if reservation.value.expires > now { return Raised(LeaseActive); }
      if !(worker.Some? && admitted) { return Raised(Denied); }
      if !Proves(result, reservation.value) { return Raised(NotInPhase); }
      reservation := None;
      return Changed;
    }

    method RequireAbandonable(op: Op, admitted: bool, now: Time) returns (refusal: Option<Error>)
      requires op.Abandon?
      ensures refusal == AbandonRefusal(View(), op, admitted, now)
      ensures refusal.None? ==> reservation.Some? && reservation.value.id == op.id && !Proves(result, reservation.value) && reservation.value.expires <= now
    {
      if op.fence.Some? && op.fence.value != revision { return Some(StaleRevision); }
      if !ValidReservation(reservation) { return Some(NotInPhase); }
      if reservation.value.id != op.id { return Some(NotOwned); }
      if reservation.value.expires > now { return Some(LeaseActive); }
      if !(op.legacy && worker.None? && claim.Some? && claim.value <= now) {
        if !(worker.Some? && admitted) { return Some(Denied); }
      }
      if Proves(result, reservation.value) { return Some(NotInPhase); }
      return None;
    }

    method AbandonExecution(op: Op, admitted: bool, now: Time) returns (r: Reply)
      requires op.Abandon?
      modifies this
      ensures Did(old(View()), View(), r, DoAbandon(old(View()), op, admitted, now))
      ensures r == Changed ==> status == Open && owner == None && claim == None && worker == None && reservation == None
      ensures r == Changed ==>
        && old(reservation).Some? && old(reservation).value.id == op.id && old(reservation).value.expires <= now && !Proves(result, old(reservation).value)
        && abandonments == old(abandonments) + [Abandonment(op.id, old(reservation).value.owner, old(reservation).value, op.evidence, now)]
    {
      var refusal := RequireAbandonable(op, admitted, now);
      if refusal.Some? { return Raised(refusal.value); }
      var record := Abandonment(op.id, reservation.value.owner, reservation.value, op.evidence, now);
      if exists k :: 0 <= k < |abandonments| && abandonments[k].id == record.id { return Idempotent; }
      if |abandonments| + 1 > MAX_ABANDONMENTS { return Raised(Malformed); }
      abandonments := abandonments + [record];
      reservation := None;
      status, owner, claim, worker := Open, None, None, None;
      return Changed;
    }

    // ---- Budgets ------------------------------------------------------------

    method PreflightBudget(op: Op, admitted: bool, now: Time) returns (r: Reply)
      requires op.Preflight?
      modifies this
      ensures Did(old(View()), View(), r, DoPreflight(old(View()), op, admitted, now))
      ensures r == Changed ==> ledger.Some? && (ledger.value.hold.Some? ==> ledger.value.hold.value.observed >= ledger.value.hold.value.limit && ledger.value.hold.value.revision == revision + 1)
    {
      var refusal := RequireActiveOwner(op.owner, op.expected, admitted, now);
      if refusal.Some? { return Raised(refusal.value); }
      var state := State(ledger, op.policy, revision, now);
      if state.Err? { return Raised(state.error); }
      if state.value.hold.Some? { return Raised(Denied); }
      ledger := Some(state.value);
      var breach := Breach(state.value, now, op.diff, revision + 1);
      if breach.Some? { ledger := Some(state.value.(hold := breach)); }
      return Changed;
    }

    method RecordCommand(op: Op, admitted: bool, now: Time) returns (r: Reply)
      requires op.Record?
      modifies this
      ensures Did(old(View()), View(), r, DoRecord(old(View()), op, admitted, now))
    {
      var refusal := RequireActiveOwner(op.owner, op.expected, admitted, now);
      if refusal.Some? { return Raised(refusal.value); }
      var state := State(ledger, op.policy, revision, now);
      if state.Err? { return Raised(state.error); }
      if op.cost < 0 { return Raised(InvalidInput); }
      var l := state.value.(commands := state.value.commands + 1);
      if op.failed { l := l.(retries := l.retries + 1); }
      l := l.(cost := l.cost + op.cost);
      if op.effect { l := l.(effects := l.effects + 1); }
      var breach := Breach(l, now, op.diff, revision + 1);
      if breach.Some? && l.hold.None? { l := l.(hold := breach); }
      ledger := Some(l);
      return Changed;
    }

    method DisposeHold(op: Op, now: Time) returns (r: Reply)
      requires op.Dispose?
      modifies this
      ensures Did(old(View()), View(), r, DoDispose(old(View()), op, now))
      ensures r == Changed ==> ledger.Some? && ledger.value.hold.None? && |ledger.value.dispositions| <= MAX_DISPOSITIONS
    {
      if owner != op.owner || status != InProgress { return Raised(NotOwned); }
      if op.expected != revision { return Raised(StaleRevision); }
      if op.reason.None? { return Raised(InvalidInput); }
      if ledger.None? || !Valid(ledger.value, revision) || ledger.value.hold.None? { return Raised(NotInPhase); }
      var l := ledger.value;
      var record := Disposition(l.hold.value.revision, revision + 1, op.reason.value, now);
      ledger := Some(l.(dispositions := LastOf(l.dispositions + [record], MAX_DISPOSITIONS), hold := None));
      return Changed;
    }

    method CarryHold()
      modifies this
      ensures View() == old(View()).(ledger := Carry(old(ledger), old(revision)))
    {
      if ledger.Some? && ledger.value.hold.Some? {
        ledger := Some(ledger.value.(hold := Some(ledger.value.hold.value.(revision := revision + 1))));
      }
    }

    // ---- Dispatch -----------------------------------------------------------

    method PhaseTransition(tasks: Table, id: Token, op: Op, admitted: bool, now: Time) returns (r: Reply)
      requires PhaseOp(op) && id in tasks && tasks[id] == View()
      modifies this
      ensures Did(old(View()), View(), r, Apply(tasks, id, op, admitted, now))
    {
      match op
      case Claim(_, _, _, _) => r := TakeClaim(tasks, id, op, admitted, now);
      case Promote(_, _) => r := PromoteTask(tasks, op, admitted);
      case Pause(_, _, _) => r := PauseTask(op, admitted);
      case Resume(expected, noted, next) => r := Reopen(expected, noted, Some(next), admitted);
      case Unblock(expected, noted) => r := Reopen(expected, noted, None, admitted);
      case RecoverExpired(_, _, _, _) => r := RecoverClaim(op, admitted, now);
      case Heartbeat(_, _, _) => r := RenewLease(op, now);
      case Update(_, _, _, _, _) => r := UpdateTask(op, admitted);
      case Release(_, _) => r := ReleaseTask(op, admitted);
      case Checkpoint(_, _, _) => r := AttachCheckpoint(op, admitted);
    }

    method ExecutionTransition(tasks: Table, id: Token, op: Op, admitted: bool, now: Time) returns (r: Reply)
      requires ExecutionOp(op) && id in tasks && tasks[id] == View()
      modifies this
      ensures Did(old(View()), View(), r, Apply(tasks, id, op, admitted, now))
    {
      match op
      case Start(_, _, _, _, _, _) => r := StartExecution(op, admitted, now);
      case RecordResult(_, _, _, _) => r := RecordExecutionResult(op);
      case Finish(_, _, _) => r := FinishExecution(op);
      case Recover(_) => r := RecoverExecution(op, admitted, now);
      case Abandon(_, _, _, _) => r := AbandonExecution(op, admitted, now);
    }

    method OtherTransition(tasks: Table, id: Token, op: Op, admitted: bool, now: Time) returns (r: Reply)
      requires !PhaseOp(op) && !ExecutionOp(op) && id in tasks && tasks[id] == View()
      modifies this
      ensures Did(old(View()), View(), r, Apply(tasks, id, op, admitted, now))
    {
      match op
      case BindWorktree(_, _, _, _) => r := BindTree(tasks, id, op, admitted, now);
      case RepairBinding(_, _, _) => r := RepairTree(op);
      case BindEnvelope(_, _, _, _, _) => r := BindFirstEnvelope(op, admitted, now);
      case ReplaceEnvelope(_, _, _, _, _) => r := SwapEnvelope(op, admitted, now);
      case Preflight(_, _, _, _) => r := PreflightBudget(op, admitted, now);
      case Record(_, _, _, _, _, _, _) => r := RecordCommand(op, admitted, now);
      case Dispose(_, _, _) => r := DisposeHold(op, now);
      case Frame(next) => other := next; r := Changed;
    }

    /** `apply_transition`: raised exactly if the board does not allow it, and otherwise what its kind of transition moves. */
    method Transition(tasks: Table, id: Token, op: Op, admitted: bool, now: Time) returns (r: Reply)
      requires id in tasks && tasks[id] == View()
      modifies this
      ensures Did(old(View()), View(), r, Apply(tasks, id, op, admitted, now))
      ensures r.Raised? <==> !Lifecycle.Allowed(tasks, id, op, admitted, now)
      ensures r == Idempotent <==> Lifecycle.Allowed(tasks, id, op, admitted, now) && Lifecycle.AlreadyDone(old(View()), op)
      ensures if r == Changed then Lifecycle.Moves(op, old(View()), View(), now) else View() == old(View())
    {
      r := Dispatch(tasks, id, op, admitted, now);
      DidMeans(tasks, id, op, admitted, now, View(), r);
    }

    method Dispatch(tasks: Table, id: Token, op: Op, admitted: bool, now: Time) returns (r: Reply)
      requires id in tasks && tasks[id] == View()
      modifies this
      ensures Did(old(View()), View(), r, Apply(tasks, id, op, admitted, now))
    {
      if PhaseOp(op) {
        r := PhaseTransition(tasks, id, op, admitted, now);
      } else if ExecutionOp(op) {
        r := ExecutionTransition(tasks, id, op, admitted, now);
      } else {
        r := OtherTransition(tasks, id, op, admitted, now);
      }
    }
  }

  // ---- Validating the whole set ---------------------------------------------

  /** One `seen` dictionary per active key, filled in file order; a key met twice is an error. */
  method ActiveKeyErrors(order: seq<Token>, tasks: Table, key: Task -> Option<Token>) returns (clash: bool)
    requires forall i :: 0 <= i < |order| ==> order[i] in tasks
    requires forall i, j :: 0 <= i < j < |order| ==> order[i] != order[j]
    ensures clash <==> SomeShared(order, tasks, key)
  {
    clash := false;
    var seen: map<Token, Token> := map[];
    for i := 0 to |order|
      invariant forall k :: k in seen <==> exists j :: 0 <= j < i && tasks[order[j]].status == InProgress && key(tasks[order[j]]) == Some(k)
      invariant clash <==> exists a, b :: 0 <= a < b < i && Shared(tasks, key, order[a], order[b])
    {
      var t := tasks[order[i]];
      if t.status == InProgress {
        var value := key(t);
        if value.Some? {
          if value.value in seen {
            ghost var j :| 0 <= j < i && tasks[order[j]].status == InProgress && key(tasks[order[j]]) == Some(value.value);
            assert Shared(tasks, key, order[j], order[i]);
            clash := true;
          } else {
            seen := seen[value.value := order[i]];
          }
        }
      }
    }
  }

  predicate Shared(tasks: Table, key: Task -> Option<Token>, a: Token, b: Token)
    requires a in tasks && b in tasks
  {
    tasks[a].status == InProgress && tasks[b].status == InProgress && key(tasks[a]).Some? && key(tasks[a]) == key(tasks[b])
  }

  ghost predicate SomeShared(order: seq<Token>, tasks: Table, key: Task -> Option<Token>)
    requires forall i :: 0 <= i < |order| ==> order[i] in tasks
  {
    exists i, j :: 0 <= i < j < |order| && Shared(tasks, key, order[i], order[j])
  }
}
