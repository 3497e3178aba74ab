/** What the transitions do to a task, stated across all of them: when each is accepted, and which fields it may move and to what. */
module Lifecycle {
  import opened Common
  import opened Autonomy
  import opened Tasks
  import Dependencies

  // ---- When a transition is accepted ----------------------------------------

  predicate FenceFits(t: Task, fence: Option<nat>) {
    fence == None || fence == Some(t.revision)
  }

  /** The caller owns the active task, at its exact revision, and its lease has not run out. */
  predicate OwnerActs(t: Task, owner: Option<Token>, expected: nat, admitted: bool, now: Time) {
    t.owner == owner && admitted && t.status == InProgress && t.claim.Some? && t.claim.value > now && expected == t.revision
  }

  ghost predicate DependenciesDone(tasks: Table, t: Task) {
    forall k :: 0 <= k < |t.dependsOn| ==> Dependencies.ReachesDone(tasks, t.dependsOn[k])
  }

  /** A receipt of this very reservation is on record. */
  predicate Receipted(t: Task) {
    && t.reservation.Some? && t.result.Some? && t.result.value.owner.Some?
    && t.result.value.id == t.reservation.value.id && t.result.value.owner == t.reservation.value.owner
    && t.result.value.envelope == t.reservation.value.envelope && t.result.value.argv == t.reservation.value.argv
  }

  predicate RecordedAbandonment(t: Task, id: Token) {
    exists k :: 0 <= k < |t.abandonments| && t.abandonments[k].id == id
  }

  /** What each claim and phase transition asks of the board. */
  ghost predicate PhaseAllowed(tasks: Table, id: Token, op: Op, admitted: bool, now: Time)
    requires id in tasks && PhaseOp(op)
  {
    var t := tasks[id];
    match op
    case Claim(owner, minutes, _, fence) =>
      && FenceFits(t, fence) && minutes > 0 && t.status == Open && admitted && DependenciesDone(tasks, t)
      && forall k :: k in tasks && k != id && tasks[k].status == InProgress ==> tasks[k].owner != owner
    case Promote(expected, noted) =>
      expected == t.revision && t.status == Planned && t.owner == None && t.claim == None && DependenciesDone(tasks, t) && admitted && noted
    case Pause(owner, expected, noted) =>
      t.owner == owner && admitted && t.reservation == None && expected == t.revision && t.status == InProgress && noted
    case Resume(expected, noted, _) => expected == t.revision && t.status == Blocked && t.owner == None && t.claim == None && admitted && noted
    case Unblock(expected, noted) => expected == t.revision && t.status == Blocked && t.owner == None && t.claim == None && admitted && noted
    case RecoverExpired(expected, noted, session, legacy) =>
      && t.reservation == None && expected == t.revision && t.status == InProgress && t.owner.Some? && t.claim.Some? && t.claim.value <= now && noted
      && (session.Some? || (legacy && t.worker == None) || (t.worker.Some? && admitted))
    case Heartbeat(owner, minutes, fence) => t.owner == owner && t.reservation == None && minutes > 0 && t.status == InProgress && FenceFits(t, fence)
    case Update(owner, fence, status, _, _) =>
      t.owner == owner && admitted && t.reservation == None && FenceFits(t, fence) && (status == None || status == Some(InProgress))
    case Release(owner, to) => to != InProgress && t.owner == owner && t.reservation == None && admitted
    case Checkpoint(owner, expected, _) => t.owner == owner && expected == t.revision && admitted
  }

  /** What each execution transition asks, when it would do anything. */
  predicate ExecutionAllowed(t: Task, op: Op, admitted: bool, now: Time)
    requires ExecutionOp(op)
  {
    match op
    case Start(owner, expected, _, _, _, expires) =>
      OwnerActs(t, owner, expected, admitted, now) && t.envelope.Some? && t.reservation == None && expires > now
    case RecordResult(owner, id, fence, _) =>
      t.reservation.Some? && t.reservation.value.id == id && t.reservation.value.owner == owner && owner.Some? && FenceFits(t, fence)
    case Finish(owner, id, fence) =>
      t.reservation.Some? && t.reservation.value.id == id && t.reservation.value.owner == owner && FenceFits(t, fence) && Receipted(t)
    case Recover(fence) =>
      && t.reservation.Some? && t.reservation.value.owner.Some? && t.reservation.value.expires <= now && FenceFits(t, fence)
      && t.worker.Some? && admitted && Receipted(t)
    case Abandon(id, fence, _, legacy) =>
      && t.reservation.Some? && t.reservation.value.owner.Some? && t.reservation.value.id == id && t.reservation.value.expires <= now && FenceFits(t, fence)
      && ((t.worker.Some? && admitted) || (legacy && t.worker == None && t.claim.Some? && t.claim.value <= now))
      && !Receipted(t) && (|t.abandonments| < 32 || RecordedAbandonment(t, id))
  }

  /** What the other transitions ask. */
  predicate OtherAllowed(tasks: Table, id: Token, op: Op, admitted: bool, now: Time)
    requires id in tasks && !PhaseOp(op) && !ExecutionOp(op)
  {
    var t := tasks[id];
    match op
    case BindWorktree(owner, expected, branch, worktree) =>
      && OwnerActs(t, owner, expected, admitted, now)
      && (forall k :: k in tasks && k != id && tasks[k].status == InProgress ==> tasks[k].branch != Some(branch) && tasks[k].worktree != Some(worktree))
      && ((t.branch == Some(branch) && t.worktree == Some(worktree)) || (t.branch == None && (t.worktree == None || t.worktree == Some(worktree)) && t.reservation == None))
    case RepairBinding(expected, worktree, noted) =>
      && expected == t.revision && (t.status == Done || (t.status == Open && t.branch == None))
      && t.owner == None && t.claim == None && t.worktree == Some(worktree) && noted
    case BindEnvelope(owner, expected, ref, revision, digest) =>
      && OwnerActs(t, owner, expected, admitted, now) && t.reservation == None
      && (t.envelope == None || t.envelope == Some(BoundEnvelope(ref, revision, t.revision, digest)))
    case ReplaceEnvelope(owner, expected, ref, revision, digest) =>
      && OwnerActs(t, owner, expected, admitted, now) && t.reservation == None && t.envelope.Some?
      && ref != t.envelope.value.ref && revision == t.envelope.value.revision + 1 && digest != t.envelope.value.digest
    case Preflight(owner, expected, policy, _) =>
      OwnerActs(t, owner, expected, admitted, now) && Usable(t.ledger, policy, t.revision) && (t.ledger.Some? ==> t.ledger.value.hold == None)
    case Record(owner, expected, policy, _, _, cost, _) =>
      OwnerActs(t, owner, expected, admitted, now) && Usable(t.ledger, policy, t.revision) && cost >= 0
    case Dispose(owner, expected, reason) =>
      && t.owner == owner && t.status == InProgress && expected == t.revision && reason.Some?
      && t.ledger.Some? && |t.ledger.value.dispositions| <= 32 && t.ledger.value.hold.Some? && t.ledger.value.hold.value.revision == t.revision
    case Frame(_) => true
  }

  /** The work is already on record. */
  predicate AlreadyDone(t: Task, op: Op) {
    match op
    case RecordResult(owner, id, _, outcome) =>
      t.reservation.Some? && t.result == Some(Receipt(id, owner, t.reservation.value.envelope, t.reservation.value.argv, outcome))
    case Abandon(id, _, _, _) => RecordedAbandonment(t, id)
    case BindWorktree(_, _, branch, worktree) => t.branch == Some(branch) && t.worktree == Some(worktree)
    case BindEnvelope(_, _, ref, revision, digest) => t.envelope == Some(BoundEnvelope(ref, revision, t.revision, digest))
    case _ => false
  }

  ghost predicate Allowed(tasks: Table, id: Token, op: Op, admitted: bool, now: Time)
    requires id in tasks
  {
    if PhaseOp(op) then PhaseAllowed(tasks, id, op, admitted, now)
    else if ExecutionOp(op) then ExecutionAllowed(tasks[id], op, admitted, now)
    else OtherAllowed(tasks, id, op, admitted, now)
  }

  lemma ReadyIff(tasks: Table, t: Task)
    ensures Ready(tasks, t) <==> DependenciesDone(tasks, t)
  {
    forall k | 0 <= k < |t.dependsOn| ensures Satisfied(tasks, t.dependsOn[k], {}) <==> Dependencies.ReachesDone(tasks, t.dependsOn[k]) {
      Dependencies.SatisfiedIff(tasks, t.dependsOn[k]);
    }
  }

  lemma PhaseAcceptedIff(tasks: Table, id: Token, op: Op, admitted: bool, now: Time)
    requires id in tasks && PhaseOp(op)
    ensures !Apply(tasks, id, op, admitted, now).Replay?
    ensures Apply(tasks, id, op, admitted, now).Next? <==> PhaseAllowed(tasks, id, op, admitted, now)
  {
    ReadyIff(tasks, tasks[id]);
  }

  lemma ExecutionAcceptedIff(tasks: Table, id: Token, op: Op, admitted: bool, now: Time)
    requires id in tasks && ExecutionOp(op)
    ensures Apply(tasks, id, op, admitted, now).Refused? <==> !ExecutionAllowed(tasks[id], op, admitted, now)
    ensures Apply(tasks, id, op, admitted, now).Replay? <==> ExecutionAllowed(tasks[id], op, admitted, now) && AlreadyDone(tasks[id], op)
  {
  }

  lemma OtherAcceptedIff(tasks: Table, id: Token, op: Op, admitted: bool, now: Time)
    requires id in tasks && !PhaseOp(op) && !ExecutionOp(op)
    ensures Apply(tasks, id, op, admitted, now).Refused? <==> !OtherAllowed(tasks, id, op, admitted, now)
    ensures Apply(tasks, id, op, admitted, now).Replay? <==> OtherAllowed(tasks, id, op, admitted, now) && AlreadyDone(tasks[id], op)
  {
    var t := tasks[id];
    if op.Preflight? { PreflightEffect(t.ledger, op.policy, t.revision, now, op.diff); }
  }

  /** A transition is refused exactly if the board does not allow it, and does nothing exactly if its work is on record. */
  lemma AcceptedIff(tasks: Table, id: Token, op: Op, admitted: bool, now: Time)
    requires id in tasks
    ensures var o := Apply(tasks, id, op, admitted, now);
      && (o.Refused? <==> !Allowed(tasks, id, op, admitted, now))
      && (o.Replay? <==> Allowed(tasks, id, op, admitted, now) && AlreadyDone(tasks[id], op))
  {
    if PhaseOp(op) { PhaseAcceptedIff(tasks, id, op, admitted, now); }
    else if ExecutionOp(op) { ExecutionAcceptedIff(tasks, id, op, admitted, now); }
    else { OtherAcceptedIff(tasks, id, op, admitted, now); }
  }

  // ---- Where each field goes ------------------------------------------------

  /** The life of a task: which phases each transition leads between. */
  predicate PhaseMoves(op: Op, from: Status, to: Status) {
    match op
    case Claim(_, _, _, _) => from == Open && to == InProgress
    case Promote(_, _) => from == Planned && to == Open
    case Pause(_, _, _) => from == InProgress && to == Blocked
    case Resume(_, _, _) => from == Blocked && to == Open
    case Unblock(_, _) => from == Blocked && to == Open
    case RecoverExpired(_, _, _, _) => from == InProgress && to == Open
    case Release(_, status) => to == status && to != InProgress
    case Abandon(_, _, _, _) => to == Open
    case Update(_, _, status, _, _) => to == from || (status == Some(InProgress) && to == InProgress)
    case _ => to == from
  }

  /** Whole seconds, at most one below the time meant. */
  predicate Truncated(t: Time, meant: Time) {
    t % 1_000_000 == 0 && t <= meant < t + 1_000_000
  }

  /** Who holds the task, until when, by which worker. */
  predicate HolderMoves(op: Op, before: Task, after: Task, now: Time) {
    match op
    case Claim(owner, minutes, worker, _) =>
      after.owner == owner && after.worker == worker && after.claim.Some? && Truncated(after.claim.value, now + minutes * 60_000_000)
    case Heartbeat(_, minutes, _) =>
      after.owner == before.owner && after.worker == before.worker && after.claim.Some? && Truncated(after.claim.value, now + minutes * 60_000_000)
    case Start(_, _, _, _, _, expires) =>
      && after.owner == before.owner && after.worker == before.worker && before.claim.Some? && after.claim.Some?
      && (if before.claim.value < expires then Truncated(after.claim.value, expires) else after.claim == before.claim)
    case Pause(_, _, _) => after.owner == None && after.claim == None && after.worker == None
    case RecoverExpired(_, _, _, _) => after.owner == None && after.claim == None && after.worker == None
    case Release(_, _) => after.owner == None && after.claim == None && after.worker == None
    case Abandon(_, _, _, _) => after.owner == None && after.claim == None && after.worker == None
    case _ => after.owner == before.owner && after.claim == before.claim && after.worker == before.worker
  }

  /** The execution slot, its receipt and the executions given up. */
  predicate SlotMoves(op: Op, before: Task, after: Task, now: Time) {
    match op
    case Start(owner, _, id, scope, argv, expires) =>
      && after.result == before.result && after.abandonments == before.abandonments && after.reservation.Some? && before.envelope.Some?
      && Truncated(after.reservation.value.expires, expires)
      && after.reservation.value == Reservation(id, owner, before.revision, before.envelope.value.digest, scope, argv, after.reservation.value.expires)
    case RecordResult(owner, id, _, outcome) =>
      && after.reservation == before.reservation && before.reservation.Some? && after.abandonments == before.abandonments
      && after.result == Some(Receipt(id, owner, before.reservation.value.envelope, before.reservation.value.argv, outcome))
    case Finish(_, _, _) => after.reservation == None && after.result == before.result && after.abandonments == before.abandonments
    case Recover(_) => after.reservation == None && after.result == before.result && after.abandonments == before.abandonments
    case Abandon(id, _, evidence, _) =>
      && after.reservation == None && after.result == before.result && before.reservation.Some?
      && after.abandonments == before.abandonments + [Abandonment(id, before.reservation.value.owner, before.reservation.value, evidence, now)]
    case _ => after.reservation == before.reservation && after.result == before.result && after.abandonments == before.abandonments
  }

  /** What the task is bound to. */
  predicate BindingMoves(op: Op, before: Task, after: Task) {
    match op
    case BindWorktree(_, _, branch, worktree) => after.branch == Some(branch) && after.worktree == Some(worktree) && after.envelope == before.envelope
    case RepairBinding(_, _, _) => after.branch == before.branch && after.worktree == None && after.envelope == before.envelope
    case BindEnvelope(_, _, ref, revision, digest) =>
      after.branch == before.branch && after.worktree == before.worktree && after.envelope == Some(BoundEnvelope(ref, revision, before.revision, digest))
    case ReplaceEnvelope(_, _, ref, revision, digest) =>
      after.branch == before.branch && after.worktree == before.worktree && after.envelope == Some(BoundEnvelope(ref, revision, before.revision, digest))
    case _ => after.branch == before.branch && after.worktree == before.worktree && after.envelope == before.envelope
  }

  /** The fields that only the named arguments write, and those that nothing writes. */
  predicate TextMoves(op: Op, before: Task, after: Task) {
    && after.revision == before.revision && after.dependsOn == before.dependsOn && after.supersededBy == before.supersededBy
    && match op
       case Resume(_, _, next) => after.other == next
       case RecoverExpired(_, _, session, _) => after.other == if session.Some? then session.value else before.other
       case Update(_, _, _, _, next) => after.other == next
       case Checkpoint(_, _, next) => after.other == next
       case Frame(next) => after.other == next
       case _ => after.other == before.other
  }

  /** The ledger: opened or held by a preflight, charged by a record, freed by a disposition, carried by a run's update, else untouched. */
  ghost predicate LedgerMoves(op: Op, before: Task, after: Task, now: Time) {
    match op
    case Preflight(_, _, policy, diff) =>
      && after.ledger.Some? && Opens(after.ledger.value.(hold := None), before.ledger, policy, now)
      && (if after.ledger.value.hold.None? then forall t :: !UsedUp(after.ledger.value, t, now, diff)
          else HeldFor(after.ledger.value.hold.value, after.ledger.value.(hold := None), now, diff, before.revision + 1))
    case Record(_, _, policy, diff, failed, cost, effect) =>
      && after.ledger.Some?
      && forall l :: Opens(l, before.ledger, policy, now) ==>
        && after.ledger.value.commands == l.commands + 1 && after.ledger.value.cost == l.cost + cost
        && after.ledger.value.retries == (if failed then l.retries + 1 else l.retries) && after.ledger.value.effects == (if effect then l.effects + 1 else l.effects)
        && after.ledger.value.policy == policy && after.ledger.value.startedAt == l.startedAt && after.ledger.value.dispositions == l.dispositions
        && (if l.hold.Some? then after.ledger.value.hold == l.hold
            else if after.ledger.value.hold.None? then forall t :: !UsedUp(after.ledger.value, t, now, diff)
            else HeldFor(after.ledger.value.hold.value, after.ledger.value.(hold := None), now, diff, before.revision + 1))
    case Dispose(_, _, reason) =>
      && before.ledger.Some? && after.ledger.Some? && reason.Some?
      && var given := before.ledger.value.dispositions;
      after.ledger.value == before.ledger.value.(hold := None,
        dispositions := (if |given| < 32 then given else given[1..]) + [Disposition(before.revision, before.revision + 1, reason.value, now)])
    case Update(_, _, _, run, _) =>
      if run && before.ledger.Some? && before.ledger.value.hold.Some?
      then after.ledger == Some(before.ledger.value.(hold := Some(before.ledger.value.hold.value.(revision := before.revision + 1))))
      else after.ledger == before.ledger
    case _ => after.ledger == before.ledger
  }

  ghost predicate Moves(op: Op, before: Task, after: Task, now: Time) {
    && PhaseMoves(op, before.status, after.status) && HolderMoves(op, before, after, now) && SlotMoves(op, before, after, now)
    && BindingMoves(op, before, after) && TextMoves(op, before, after) && LedgerMoves(op, before, after, now)
  }

  lemma PhaseEffect(tasks: Table, id: Token, op: Op, admitted: bool, now: Time)
    requires id in tasks && PhaseOp(op) && Apply(tasks, id, op, admitted, now).Next?
    ensures Moves(op, tasks[id], Apply(tasks, id, op, admitted, now).task, now)
  {
    if op.Claim? || op.Heartbeat? { LeaseIsTruncated(now, op.minutes); }
  }

  lemma LeaseIsTruncated(now: Time, minutes: int)
    ensures Truncated(LeaseEnd(now, minutes), now + minutes * 60_000_000)
  {
  }

  lemma ExecutionEffect(tasks: Table, id: Token, op: Op, admitted: bool, now: Time)
    requires id in tasks && ExecutionOp(op) && Apply(tasks, id, op, admitted, now).Next?
    ensures Moves(op, tasks[id], Apply(tasks, id, op, admitted, now).task, now)
  {
  }

  lemma LedgerEffect(tasks: Table, id: Token, op: Op, admitted: bool, now: Time)
    requires id in tasks && (op.Preflight? || op.Record? || op.Dispose?) && Apply(tasks, id, op, admitted, now).Next?
    ensures Moves(op, tasks[id], Apply(tasks, id, op, admitted, now).task, now)
  {
    var t := tasks[id];
    if op.Preflight? {
      PreflightEffect(t.ledger, op.policy, t.revision, now, op.diff);
    } else if op.Record? {
      forall l | Opens(l, t.ledger, op.policy, now) { RecordEffect(t.ledger, op.policy, t.revision, now, op.diff, op.failed, op.cost, op.effect, l); }
    } else {
      DisposeEffect(t.ledger, t.revision, op.reason.value, now);
    }
  }

  lemma OtherEffect(tasks: Table, id: Token, op: Op, admitted: bool, now: Time)
    requires id in tasks && !PhaseOp(op) && !ExecutionOp(op) && Apply(tasks, id, op, admitted, now).Next?
    ensures Moves(op, tasks[id], Apply(tasks, id, op, admitted, now).task, now)
  {
    if op.Preflight? || op.Record? || op.Dispose? { LedgerEffect(tasks, id, op, admitted, now); }
  }

  /** Every accepted transition moves phase, holder, slot, bindings, text and ledger as its kind says, and nothing else. */
  lemma Effect(tasks: Table, id: Token, op: Op, admitted: bool, now: Time)
    requires id in tasks && Apply(tasks, id, op, admitted, now).Next?
    ensures Moves(op, tasks[id], Apply(tasks, id, op, admitted, now).task, now)
  {
    if PhaseOp(op) { PhaseEffect(tasks, id, op, admitted, now); }
    else if ExecutionOp(op) { ExecutionEffect(tasks, id, op, admitted, now); }
    else { OtherEffect(tasks, id, op, admitted, now); }
  }

  /** So a task that was not done becomes done only by a release to done. */
  lemma OnlyReleaseFinishes(tasks: Table, id: Token, op: Op, admitted: bool, now: Time)
    requires id in tasks && tasks[id].status != Done && Apply(tasks, id, op, admitted, now).Next?
    ensures Apply(tasks, id, op, admitted, now).task.status == Done <==> op.Release? && op.to == Done
  {
    Effect(tasks, id, op, admitted, now);
  }

  // ---- What a refusal means -------------------------------------------------

  /** The revision that the caller named, if it named one. */
  function NamedRevision(op: Op): Option<nat> {
    match op
    case Claim(_, _, _, fence) => fence
    case Promote(expected, _) => Some(expected)
    case Pause(_, expected, _) => Some(expected)
    case Resume(expected, _, _) => Some(expected)
    case Unblock(expected, _) => Some(expected)
    case RecoverExpired(expected, _, _, _) => Some(expected)
    case Heartbeat(_, _, fence) => fence
    case Update(_, fence, _, _, _) => fence
    case Release(_, _) => None
    case Checkpoint(_, expected, _) => Some(expected)
    case BindWorktree(_, expected, _, _) => Some(expected)
    case RepairBinding(expected, _, _) => Some(expected)
    case BindEnvelope(_, expected, _, _, _) => Some(expected)
    case ReplaceEnvelope(_, expected, _, _, _) => Some(expected)
    case Start(_, expected, _, _, _, _) => Some(expected)
    case RecordResult(_, _, fence, _) => fence
    case Finish(_, _, fence) => fence
    case Recover(fence) => fence
    case Abandon(_, fence, _, _) => fence
    case Preflight(_, expected, _, _) => Some(expected)
    case Record(_, expected, _, _, _, _, _) => Some(expected)
    case Dispose(_, expected, _) => Some(expected)
    case Frame(_) => None
  }

  /** What each error says about the task and the call. */
  predicate Explains(e: Error, t: Task, op: Op, admitted: bool, now: Time) {
    match e
    case StaleRevision => NamedRevision(op).Some? && NamedRevision(op).value != t.revision
    case Denied => !admitted || t.worker == None || (op.Preflight? && t.ledger.Some? && t.ledger.value.hold.Some?)
    case LeaseExpired => t.claim == None || t.claim.value <= now || (op.Start? && op.expires <= now)
    case LeaseActive =>
      || (op.RecoverExpired? && t.claim.Some? && t.claim.value > now)
      || ((op.Recover? || op.Abandon?) && t.reservation.Some? && t.reservation.value.expires > now)
    case _ => true
  }

  /** A stale revision, a live or an expired lease and a denial are reported only when they are the case. */
  lemma RefusalMeans(tasks: Table, id: Token, op: Op, admitted: bool, now: Time)
    requires id in tasks && Apply(tasks, id, op, admitted, now).Refused?
    ensures Explains(Apply(tasks, id, op, admitted, now).error, tasks[id], op, admitted, now)
  {
    var t := tasks[id];
    if op.Preflight? { PreflightEffect(t.ledger, op.policy, t.revision, now, op.diff); }
  }
}
