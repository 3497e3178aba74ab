/** The task record and every guarded transition on it (handoffctl.py `apply_*`, execution_lifecycle.py, autonomy_limits.py). */
module Tasks {
  import opened Common
  import opened Autonomy

  const MAX_ABANDONMENTS: nat := 32

  datatype Status = InProgress | Open | Blocked | Planned | Future | Done | Cancelled | Superseded

  datatype Reservation = Reservation(
    id: Token, owner: Option<Token>, revision: nat, envelope: Token, scope: Token, argv: Token, expires: Time)

  /** `outcome` stands for classification, return code and time. */
  datatype Receipt = Receipt(id: Token, owner: Option<Token>, envelope: Token, argv: Token, outcome: Token)

  /** The bound execution envelope; its digest stands for the envelope itself, `taskRevision` is the task's revision it was bound at. */
  datatype BoundEnvelope = BoundEnvelope(ref: Token, revision: nat, taskRevision: nat, digest: Token)

  /** The reservation itself stands for its digest. */
  datatype Abandonment = Abandonment(id: Token, owner: Option<Token>, reservation: Reservation, evidence: Token, recordedAt: Time)

  /** `None` for an owner, claim, branch or worktree is the empty string; `other` is every field no transition below reads. */
  datatype Task = Task(
    status: Status,
    owner: Option<Token>,
    claim: Option<Time>,
    worker: Option<Token>,
    revision: nat,
    branch: Option<Token>,
    worktree: Option<Token>,
    dependsOn: seq<Token>,
    supersededBy: Option<Token>,
    envelope: Option<BoundEnvelope>,
    reservation: Option<Reservation>,
    result: Option<Receipt>,
    abandonments: seq<Abandonment>,
    ledger: Option<Ledger>,
    other: Token)

  type Table = map<Token, Task>

  datatype Op =
    | Claim(owner: Option<Token>, minutes: int, worker: Option<Token>, fence: Option<nat>)
    | Promote(expected: nat, noted: bool)
    | Pause(owner: Option<Token>, expected: nat, noted: bool)
    | Resume(expected: nat, noted: bool, next: Token)
    | Unblock(expected: nat, noted: bool)
    | RecoverExpired(expected: nat, noted: bool, session: Option<Token>, legacy: bool)
    | Heartbeat(owner: Option<Token>, minutes: int, fence: Option<nat>)
    | Update(owner: Option<Token>, fence: Option<nat>, status: Option<Status>, run: bool, next: Token)
    | Release(owner: Option<Token>, to: Status)
    | Checkpoint(owner: Option<Token>, expected: nat, next: Token)
    | BindWorktree(owner: Option<Token>, expected: nat, branch: Token, worktree: Token)
    | RepairBinding(expected: nat, worktree: Token, noted: bool)
    | BindEnvelope(owner: Option<Token>, expected: nat, ref: Token, envelopeRevision: nat, digest: Token)
    | ReplaceEnvelope(owner: Option<Token>, expected: nat, ref: Token, envelopeRevision: nat, digest: Token)
    | Start(owner: Option<Token>, expected: nat, id: Token, scope: Token, argv: Token, expires: Time)
    | RecordResult(owner: Option<Token>, id: Token, fence: Option<nat>, outcome: Token)
    | Finish(owner: Option<Token>, id: Token, fence: Option<nat>)
    | Recover(fence: Option<nat>)
    | Abandon(id: Token, fence: Option<nat>, evidence: Token, legacy: bool)
    | Preflight(owner: Option<Token>, expected: nat, policy: Policy, diff: nat)
    | Record(owner: Option<Token>, expected: nat, policy: Policy, diff: nat, failed: bool, cost: int, effect: bool)
    | Dispose(owner: Option<Token>, expected: nat, reason: Option<Token>)
    | Frame(next: Token)

  /** A transition changes the record, finds its work already done, or raises. */
  datatype Outcome = Next(task: Task) | Replay | Refused(error: Error)

  function WholeSeconds(t: Time): (r: Time)
    ensures r <= t < r + SECOND
  {
    t - t % SECOND
  }

  function LeaseEnd(now: Time, minutes: int): Time {
    WholeSeconds(now + minutes * 60 * SECOND)
  }

  predicate Stale(t: Task, fence: Option<nat>) {
    fence.Some? && fence.value != t.revision
  }

  predicate Matches(r: Reservation, rc: Receipt) {
    rc.id == r.id && rc.owner == r.owner && rc.envelope == r.envelope && rc.argv == r.argv
  }

  /** `execution_result_matches`: a well-formed receipt (its owner is not empty) of this very reservation. */
  predicate Proves(rc: Option<Receipt>, r: Reservation) {
    rc.Some? && rc.value.owner.Some? && Matches(r, rc.value)
  }

  predicate Expired(t: Task, now: Time) {
    t.claim.Some? && t.claim.value <= now
  }

  /** `require_active_binding_owner`. */
  function OwnerRefusal(t: Task, owner: Option<Token>, expected: nat, admitted: bool, now: Time): Option<Error> {
    if t.owner != owner then Some(NotOwned)
    else if !admitted then Some(Denied)
    else if t.status != InProgress then Some(NotInPhase)
    else if t.claim.None? || Expired(t, now) then Some(LeaseExpired)
    else if expected != t.revision then Some(StaleRevision)
    else None
  }

  /** The claim of a task given up: no owner, no lease, no worker identity. */
  function Unclaimed(t: Task, status: Status): Task {
    t.(status := status, owner := None, claim := None, worker := None)
  }

  /** `require_claimed_worker_absent`: `admitted` says the recorded process is gone. */
  predicate WorkerAbsent(t: Task, admitted: bool) {
    t.worker.Some? && admitted
  }

  // ---- Claims and phases ----------------------------------------------------

  /** `dependency_satisfied`, one turn of its loop per call. */
  function Satisfied(tasks: Table, current: Token, seen: set<Token>): bool
    decreases tasks.Keys - seen
  {
    if current in seen || current !in tasks then false
    else if tasks[current].status == Done then true
    else if tasks[current].status != Superseded || tasks[current].supersededBy.None? then false
    else Satisfied(tasks, tasks[current].supersededBy.value, seen + {current})
  }

  predicate Ready(tasks: Table, t: Task) {
    forall k :: 0 <= k < |t.dependsOn| ==> Satisfied(tasks, t.dependsOn[k], {})
  }

  predicate OwnsAnother(tasks: Table, id: Token, owner: Option<Token>) {
    exists k :: k in tasks && k != id && tasks[k].status == InProgress && tasks[k].owner == owner
  }

  function DoClaim(tasks: Table, id: Token, t: Task, op: Op, admitted: bool, now: Time): Outcome
    requires op.Claim?
  {
    if Stale(t, op.fence) then Refused(StaleRevision)
    else if op.minutes <= 0 then Refused(InvalidInput)
    else if t.status != Open then Refused(NotInPhase)
    else if !Ready(tasks, t) then Refused(NotInPhase)
    else if !admitted then Refused(Denied)
    else if OwnsAnother(tasks, id, op.owner) then Refused(ConflictingInput)
    else Next(t.(owner := op.owner, status := InProgress, worker := op.worker, claim := Some(LeaseEnd(now, op.minutes))))
  }

  function DoPromote(tasks: Table, t: Task, op: Op, admitted: bool): Outcome
    requires op.Promote?
  {
    if op.expected != t.revision then Refused(StaleRevision)
    else if t.status != Planned then Refused(NotInPhase)
    else if t.owner.Some? || t.claim.Some? then Refused(NotOwned)
    else if !Ready(tasks, t) then Refused(NotInPhase)
    else if !admitted then Refused(Denied)
    else if !op.noted then Refused(InvalidInput)
    else Next(t.(status := Open))
  }

  function DoPause(t: Task, op: Op, admitted: bool): Outcome
    requires op.Pause?
  {
    if t.owner != op.owner then Refused(NotOwned)
    else if !admitted then Refused(Denied)
    else if t.reservation.Some? then Refused(ConflictingInput)
    else if op.expected != t.revision then Refused(StaleRevision)
    else if t.status != InProgress then Refused(NotInPhase)
    else if !op.noted then Refused(InvalidInput)
    else Next(Unclaimed(t, Blocked))
  }

  /** `apply_resume` and `apply_unblock`: `admitted` says the session evidence fits. */
  function DoReopen(t: Task, expected: nat, noted: bool, admitted: bool): Outcome {
    if expected != t.revision then Refused(StaleRevision)
    else if t.status != Blocked then Refused(NotInPhase)
    else if t.owner.Some? || t.claim.Some? then Refused(NotOwned)
    else if !admitted then Refused(Denied)
    else if !noted then Refused(InvalidInput)
    else Next(t.(status := Open))
  }

  function DoRecoverExpired(t: Task, op: Op, admitted: bool, now: Time): Outcome
    requires op.RecoverExpired?
  {
    if t.reservation.Some? then Refused(ConflictingInput)
    else if op.expected != t.revision then Refused(StaleRevision)
    else if t.status != InProgress || t.owner.None? then Refused(NotInPhase)
    else if t.claim.None? then Refused(Malformed)
    else if !Expired(t, now) then Refused(LeaseActive)
    else if !op.noted then Refused(InvalidInput)
    else if op.session.Some? then Next(Unclaimed(t, Open).(other := op.session.value))
    else if !(op.legacy && t.worker.None?) && !WorkerAbsent(t, admitted) then Refused(Denied)
    else Next(Unclaimed(t, Open))
  }

  function DoHeartbeat(t: Task, op: Op, now: Time): Outcome
    requires op.Heartbeat?
  {
    if t.owner != op.owner then Refused(NotOwned)
    else if t.reservation.Some? then Refused(ConflictingInput)
    else if op.minutes <= 0 || t.status != InProgress then Refused(NotInPhase)
    else if Stale(t, op.fence) then Refused(StaleRevision)
    else Next(t.(claim := Some(LeaseEnd(now, op.minutes))))
  }

  function DoUpdate(t: Task, op: Op, admitted: bool): Outcome
    requires op.Update?
  {
    if t.owner != op.owner then Refused(NotOwned)
    else if !admitted then Refused(Denied)
    else if t.reservation.Some? then Refused(ConflictingInput)
    else if Stale(t, op.fence) then Refused(StaleRevision)
    else if op.status.Some? && op.status.value != InProgress then Refused(InvalidInput)
    else Next(t.(
      status := if op.status.Some? then op.status.value else t.status,
      other := op.next,
      ledger := if op.run then Carry(t.ledger, t.revision) else t.ledger))
  }

  /** `apply_owned_change` for release; the command line offers every status but in_progress. */
  function DoRelease(t: Task, op: Op, admitted: bool): Outcome
    requires op.Release?
  {
    if op.to == InProgress then Refused(InvalidInput)
    else if t.owner != op.owner then Refused(NotOwned)
    else if t.reservation.Some? then Refused(ConflictingInput)
    else if !admitted then Refused(Denied)
    else Next(Unclaimed(t, op.to))
  }

  function DoCheckpoint(t: Task, op: Op, admitted: bool): Outcome
    requires op.Checkpoint?
  {
    if t.owner != op.owner then Refused(NotOwned)
    else if op.expected != t.revision then Refused(StaleRevision)
    else if !admitted then Refused(Denied)
    else Next(t.(other := op.next))
  }

  // ---- Bindings -------------------------------------------------------------

  predicate IdentityTaken(tasks: Table, id: Token, branch: Token, worktree: Token) {
    exists k :: k in tasks && k != id && tasks[k].status == InProgress && (tasks[k].branch == Some(branch) || tasks[k].worktree == Some(worktree))
  }

  function DoBindWorktree(tasks: Table, id: Token, t: Task, op: Op, admitted: bool, now: Time): Outcome
    requires op.BindWorktree?
  {
    var refusal := OwnerRefusal(t, op.owner, op.expected, admitted, now);
    if refusal.Some? then Refused(refusal.value)
    else if IdentityTaken(tasks, id, op.branch, op.worktree) then Refused(ConflictingInput)
    else if t.branch == Some(op.branch) && t.worktree == Some(op.worktree) then Replay
    else if t.branch.Some? then Refused(ConflictingInput)
    else if t.worktree.Some? && t.worktree.value != op.worktree then Refused(ConflictingInput)
    else if t.reservation.Some? then Refused(ConflictingInput)
    else Next(t.(branch := Some(op.branch), worktree := Some(op.worktree)))
  }

  function DoRepairBinding(t: Task, op: Op): Outcome
    requires op.RepairBinding?
  {
    if op.expected != t.revision then Refused(StaleRevision)
    else if t.status !in {Open, Done} || t.owner.Some? || t.claim.Some? then Refused(NotInPhase)
    else if t.status == Open && t.branch.Some? then Refused(ConflictingInput)
    else if t.worktree != Some(op.worktree) then Refused(ConflictingInput)
    else if !op.noted then Refused(InvalidInput)
    else Next(t.(worktree := None))
  }

  /** `apply_bind_envelope`; loading and matching the file is `admitted`. */
  function DoBindEnvelope(t: Task, op: Op, admitted: bool, now: Time): Outcome
    requires op.BindEnvelope?
  {
    var refusal := OwnerRefusal(t, op.owner, op.expected, admitted, now);
    if refusal.Some? then Refused(refusal.value)
    else if t.reservation.Some? then Refused(ConflictingInput)
    else
      var requested := BoundEnvelope(op.ref, op.envelopeRevision, t.revision, op.digest);
      if t.envelope == Some(requested) then Replay
      else if t.envelope.Some? then Refused(ConflictingInput)
      else Next(t.(envelope := Some(requested)))
  }

  /** `apply_replace_envelope`; loading, matching and narrowing the file is `admitted`, and modelled in the Envelopes module. */
  function DoReplaceEnvelope(t: Task, op: Op, admitted: bool, now: Time): Outcome
    requires op.ReplaceEnvelope?
  {
    var refusal := OwnerRefusal(t, op.owner, op.expected, admitted, now);
    if refusal.Some? then Refused(refusal.value)
    else if t.reservation.Some? then Refused(ConflictingInput)
    else if t.envelope.None? then Refused(NotInPhase)
    else if op.ref == t.envelope.value.ref then Refused(ConflictingInput)
    else if op.envelopeRevision != t.envelope.value.revision + 1 || op.digest == t.envelope.value.digest then Refused(ConflictingInput)
    else Next(t.(envelope := Some(BoundEnvelope(op.ref, op.envelopeRevision, t.revision, op.digest))))
  }

  // ---- Bound executions -----------------------------------------------------

  function DoStart(t: Task, op: Op, admitted: bool, now: Time): Outcome
    requires op.Start?
  {
    var refusal := OwnerRefusal(t, op.owner, op.expected, admitted, now);
    if refusal.Some? then Refused(refusal.value)
    else if t.envelope.None? then Refused(NotInPhase)
    else if t.reservation.Some? then Refused(ConflictingInput)
    else if op.expires <= now then Refused(LeaseExpired)
    else
      Next(t.(
        reservation := Some(Reservation(op.id, op.owner, t.revision, t.envelope.value.digest, op.scope, op.argv, WholeSeconds(op.expires))),
        claim := if t.claim.Some? && t.claim.value < op.expires then Some(WholeSeconds(op.expires)) else t.claim))
  }

  function DoRecordResult(t: Task, op: Op): Outcome
    requires op.RecordResult?
  {
    if t.reservation.None? || t.reservation.value.id != op.id then Refused(NotOwned)
    else if Stale(t, op.fence) then Refused(StaleRevision)
    else if t.reservation.value.owner != op.owner then Refused(NotOwned)
    else if op.owner.None? then Refused(Malformed)
    else
      var receipt := Receipt(op.id, op.owner, t.reservation.value.envelope, t.reservation.value.argv, op.outcome);
      if t.result == Some(receipt) then Replay else Next(t.(result := Some(receipt)))
  }

  function DoFinish(t: Task, op: Op): Outcome
    requires op.Finish?
  {
    if t.reservation.None? || t.reservation.value.id != op.id then Refused(NotOwned)
    else if t.reservation.value.owner != op.owner then Refused(NotOwned)
    else if Stale(t, op.fence) then Refused(StaleRevision)
    else if !Proves(t.result, t.reservation.value) then Refused(NotInPhase)
    else Next(t.(reservation := None))
  }

  predicate ValidReservation(r: Option<Reservation>) {
    r.Some? && r.value.owner.Some?
  }

  function DoRecover(t: Task, op: Op, admitted: bool, now: Time): Outcome
    requires op.Recover?
  {
    if Stale(t, op.fence) then Refused(StaleRevision)
    else if !ValidReservation(t.reservation) then Refused(NotInPhase)
    else if t.reservation.value.expires > now then Refused(LeaseActive)
    else if !WorkerAbsent(t, admitted) then Refused(Denied)
    else if !Proves(t.result, t.reservation.value) then Refused(NotInPhase)
    else Next(t.(reservation := None))
  }

  function AbandonRefusal(t: Task, op: Op, admitted: bool, now: Time): Option<Error>
    requires op.Abandon?
  {
    if Stale(t, op.fence) then Some(StaleRevision)
    else if !ValidReservation(t.reservation) then Some(NotInPhase)
    else if t.reservation.value.id != op.id then Some(NotOwned)
    else if t.reservation.value.expires > now then Some(LeaseActive)
    else if !(op.legacy && t.worker.None? && Expired(t, now)) && !WorkerAbsent(t, admitted) then Some(Denied)
    else if Proves(t.result, t.reservation.value) then Some(NotInPhase)
    else None
  }

  function DoAbandon(t: Task, op: Op, admitted: bool, now: Time): Outcome
    requires op.Abandon?
  {
    var refusal := AbandonRefusal(t, op, admitted, now);
    if refusal.Some? then Refused(refusal.value)
    else if exists k :: 0 <= k < |t.abandonments| && t.abandonments[k].id == op.id then Replay
    else
      var record := Abandonment(op.id, t.reservation.value.owner, t.reservation.value, op.evidence, now);
      if |t.abandonments| + 1 > MAX_ABANDONMENTS then Refused(Malformed)
      else Next(Unclaimed(t, Open).(reservation := None, abandonments := t.abandonments + [record]))
  }

  // ---- Budgets --------------------------------------------------------------

  function WithLedger(t: Task, r: Result<Ledger>): Outcome {
    match r
    case Ok(l) => Next(t.(ledger := Some(l)))
    case Err(e) => Refused(e)
  }

  function DoPreflight(t: Task, op: Op, admitted: bool, now: Time): Outcome
    requires op.Preflight?
  {
    var refusal := OwnerRefusal(t, op.owner, op.expected, admitted, now);
    if refusal.Some? then Refused(refusal.value)
    else WithLedger(t, Autonomy.Preflight(t.ledger, op.policy, t.revision, now, op.diff))
  }

  function DoRecord(t: Task, op: Op, admitted: bool, now: Time): Outcome
    requires op.Record?
  {
    var refusal := OwnerRefusal(t, op.owner, op.expected, admitted, now);
    if refusal.Some? then Refused(refusal.value)
    else WithLedger(t, Autonomy.Record(t.ledger, op.policy, t.revision, now, op.diff, op.failed, op.cost, op.effect))
  }

  function DoDispose(t: Task, op: Op, now: Time): Outcome
    requires op.Dispose?
  {
    if t.owner != op.owner || t.status != InProgress then Refused(NotOwned)
    else if op.expected != t.revision then Refused(StaleRevision)
    else if op.reason.None? then Refused(InvalidInput)
    else WithLedger(t, Autonomy.Dispose(t.ledger, t.revision, op.reason.value, now))
  }

  // ---- Dispatch -------------------------------------------------------------

  /** The transitions on claim and phase. */
  predicate PhaseOp(op: Op) {
    || op.Claim? || op.Promote? || op.Pause? || op.Resume? || op.Unblock? || op.RecoverExpired?
    || op.Heartbeat? || op.Update? || op.Release? || op.Checkpoint?
  }

  /** The transitions of execution_lifecycle.py. */
  predicate ExecutionOp(op: Op) {
    op.Start? || op.RecordResult? || op.Finish? || op.Recover? || op.Abandon?
  }

  /** `apply_transition`. `admitted` stands for the role, gate, session and process checks that this model does not look into. */
  function Apply(tasks: Table, id: Token, op: Op, admitted: bool, now: Time): Outcome
    requires id in tasks
  {
    var t := tasks[id];
    match op
    case Claim(_, _, _, _) => DoClaim(tasks, id, t, op, admitted, now)
    case Promote(_, _) => DoPromote(tasks, t, op, admitted)
    case Pause(_, _, _) => DoPause(t, op, admitted)
    case Resume(e, n, next) => (
      match DoReopen(t, e, n, admitted)
      case Next(u) => Next(u.(other := next))
      case Replay => Replay
      case Refused(error) => Refused(error))
    case Unblock(e, n) => DoReopen(t, e, n, admitted)
    case RecoverExpired(_, _, _, _) => DoRecoverExpired(t, op, admitted, now)
    case Heartbeat(_, _, _) => DoHeartbeat(t, op, now)
    case Update(_, _, _, _, _) => DoUpdate(t, op, admitted)
    case Release(_, _) => DoRelease(t, op, admitted)
    case Checkpoint(_, _, _) => DoCheckpoint(t, op, admitted)
    case BindWorktree(_, _, _, _) => DoBindWorktree(tasks, id, t, op, admitted, now)
    case RepairBinding(_, _, _) => DoRepairBinding(t, op)
    case BindEnvelope(_, _, _, _, _) => DoBindEnvelope(t, op, admitted, now)
    case ReplaceEnvelope(_, _, _, _, _) => DoReplaceEnvelope(t, op, admitted, now)
    case Start(_, _, _, _, _, _) => DoStart(t, op, admitted, now)
    case RecordResult(_, _, _, _) => DoRecordResult(t, op)
    case Finish(_, _, _) => DoFinish(t, op)
    case Recover(_) => DoRecover(t, op, admitted, now)
    case Abandon(_, _, _, _) => DoAbandon(t, op, admitted, now)
    case Preflight(_, _, _, _) => DoPreflight(t, op, admitted, now)
    case Record(_, _, _, _, _, _, _) => DoRecord(t, op, admitted, now)
    case Dispose(_, _, _) => DoDispose(t, op, now)
    case Frame(next) => Next(t.(other := next))
  }

  // ---- Validation and commit ------------------------------------------------

  datatype Backend = Git | Sqlite

  predicate DistinctAbandonments(s: seq<Abandonment>) {
    forall i, j :: 0 <= i < j < |s| ==> s[i].id != s[j].id
  }

  /** `basic_task_errors` on the fields modelled here. */
  predicate RecordValid(t: Task) {
    && (t.reservation.Some? ==> t.reservation.value.owner.Some?)
    && (t.result.Some? ==> t.result.value.owner.Some?)
    && |t.abandonments| <= MAX_ABANDONMENTS && DistinctAbandonments(t.abandonments)
    && (t.ledger.Some? ==> Valid(t.ledger.value, t.revision))
  }

  /** `claim_errors` for one task. */
  predicate ClaimValid(t: Task, at: Time) {
    if t.status != InProgress then t.owner.None? && t.claim.None?
    else t.owner.Some? && t.claim.Some? && t.claim.value > at
  }

  predicate Clash(a: Task, b: Task) {
    a.status == InProgress && b.status == InProgress &&
    ((a.owner.Some? && a.owner == b.owner) || (a.worktree.Some? && a.worktree == b.worktree) || (a.branch.Some? && a.branch == b.branch))
  }

  /** The active-key part of `mutation_global_errors`. */
  predicate KeysDistinct(tasks: Table) {
    forall i, j :: i in tasks && j in tasks && i != j ==> !Clash(tasks[i], tasks[j])
  }

  /** `supersession_errors` for one task. */
  predicate SupersessionValid(tasks: Table, id: Token)
    requires id in tasks
  {
    tasks[id].supersededBy.Some? ==>
      var next := tasks[id].supersededBy.value;
      tasks[id].status == Superseded && next != id && next in tasks && Satisfied(tasks, next, {})
  }

  predicate AllSupersessionsValid(tasks: Table) {
    forall id :: id in tasks ==> SupersessionValid(tasks, id)
  }

  /** What has to hold of the whole task set before a mutation of `id` is committed; `clean` is every check not modelled. */
  predicate Committable(backend: Backend, tasks: Table, id: Token, clean: bool, at: Time)
    requires id in tasks
  {
    && clean
    && RecordValid(tasks[id])
    && AllSupersessionsValid(tasks)
    && (backend == Git ==> ClaimValid(tasks[id], at) && KeysDistinct(tasks))
  }

  datatype Call = Call(task: Token, op: Op, admitted: bool, clean: bool, now: Time, at: Time)

  /** The task set that a call's transition would leave, with the revision raised. */
  function Candidate(tasks: Table, id: Token, t: Task): (r: Table)
    ensures id in r
  {
    tasks[id := t.(revision := t.revision + 1)]
  }

  /** Whether `mutate` commits a change. */
  predicate Commits(backend: Backend, tasks: Table, c: Call) {
    && c.task in tasks
    && var o := Apply(tasks, c.task, c.op, c.admitted, c.now);
    o.Next? && Committable(backend, Candidate(tasks, c.task, o.task), c.task, c.clean, c.at)
  }

  /** `mutate`: one transition, validated as a whole, or nothing. */
  function Mutated(backend: Backend, tasks: Table, c: Call): Table {
    if Commits(backend, tasks, c)
    then Candidate(tasks, c.task, Apply(tasks, c.task, c.op, c.admitted, c.now).task)
    else tasks
  }
}
