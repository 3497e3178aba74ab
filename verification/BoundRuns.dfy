/** The end of a bound command run: when its execution can be finished or recovered, and when it cannot. */
module BoundRuns {
  import opened Common
  import opened Autonomy
  import opened Tasks
  import opened Dependencies
  import opened Claims
  import E = Executions
  import B = Budgets

  // ---- Clearing a slot ------------------------------------------------------

  lemma SupersessionsUnmoved(tasks: Table, id: Token, t: Task)
    requires id in tasks && t.status == tasks[id].status && t.supersededBy == tasks[id].supersededBy
    requires AllSupersessionsValid(tasks)
    ensures AllSupersessionsValid(tasks[id := t])
  {
    RewriteKeeps(tasks, id, t);
    forall k | k in tasks ensures SupersessionValid(tasks[id := t], k) { assert SupersessionValid(tasks, k); }
  }

  /** What a consistent board needs to commit a transition that only clears the slot. */
  lemma ClearingCommitsIff(backend: Backend, tasks: Table, id: Token, at: Time)
    requires Consistent(tasks) && id in tasks && RecordValid(tasks[id]) && tasks[id].reservation.Some?
    ensures Committable(backend, Candidate(tasks, id, tasks[id].(reservation := None)), id, true, at)
      <==> !B.Held(tasks[id]) && (backend == Git ==> tasks[id].claim.value > at)
  {
    assert Claimed(tasks[id]);
    var v := Candidate(tasks, id, tasks[id].(reservation := None));
    SupersessionsUnmoved(tasks, id, v[id]);
    forall i, j | i in v && j in v && i != j ensures !Clash(v[i], v[j]) { assert !Clash(tasks[i], tasks[j]); }
  }

  /** A finish whose guards hold is committed exactly if no hold stands and, on Git, the claim is still alive when validated. */
  lemma FinishCommitsIff(backend: Backend, tasks: Table, c: Call)
    requires Consistent(tasks) && c.task in tasks && RecordValid(tasks[c.task]) && c.clean
    requires c.op.Finish? && DoFinish(tasks[c.task], c.op).Next?
    ensures Commits(backend, tasks, c) <==> !B.Held(tasks[c.task]) && (backend == Git ==> tasks[c.task].claim.value > c.at)
  {
    ClearingCommitsIff(backend, tasks, c.task, c.at);
  }

  /** The same of an admitted recovery, which in addition needs the reservation to have expired. */
  lemma RecoveryCommitsIff(backend: Backend, tasks: Table, c: Call)
    requires Consistent(tasks) && c.task in tasks && RecordValid(tasks[c.task]) && c.clean
    requires c.op.Recover? && DoRecover(tasks[c.task], c.op, c.admitted, c.now).Next?
    ensures Commits(backend, tasks, c) <==> !B.Held(tasks[c.task]) && (backend == Git ==> tasks[c.task].claim.value > c.at)
  {
    ClearingCommitsIff(backend, tasks, c.task, c.at);
  }

  // ---- A raised claim -------------------------------------------------------

  /** While this reservation holds the slot, the claim ends with it; the task has moved past the revision it was made at. */
  predicate EndTogether(t: Task, r: Reservation) {
    && E.SlotSafe(t) && t.revision > r.revision
    && (t.reservation == Some(r) ==> t.claim == Some(r.expires))
  }

  /** A new reservation carries the revision at which it was made, so a slot once left never holds the same reservation again. */
  lemma NewReservation(tasks: Table, c: Call)
    requires Commits(Git, tasks, c) && E.SlotSafe(tasks[c.task])
    ensures var before, after := tasks[c.task], Mutated(Git, tasks, c)[c.task];
      && E.SlotSafe(after) && after.revision == before.revision + 1
      && (after.reservation != before.reservation && after.reservation.Some? ==> after.reservation.value.revision == before.revision)
      && (after.reservation == before.reservation && after.reservation.Some? ==> after.claim == before.claim)
  {
    E.SlotSteps(Git, tasks, c);
    SameRevision(tasks, c);
  }

  lemma EndTogetherStep(tasks: Table, c: Call, id: Token, r: Reservation)
    requires id in tasks && EndTogether(tasks[id], r)
    ensures id in Mutated(Git, tasks, c) && EndTogether(Mutated(Git, tasks, c)[id], r)
  {
    if Commits(Git, tasks, c) && c.task == id { NewReservation(tasks, c); }
  }

  lemma {:induction false} EndTogetherRun(tasks: Table, calls: seq<Call>, id: Token, r: Reservation)
    requires id in tasks && EndTogether(tasks[id], r)
    ensures id in Claims.Exec(tasks, calls) && EndTogether(Claims.Exec(tasks, calls)[id], r)
    decreases |calls|
  {
    if calls != [] {
      EndTogetherStep(tasks, calls[0], id, r);
      EndTogetherRun(Mutated(Git, tasks, calls[0]), calls[1..], id, r);
    }
  }

  /** An execution whose start had to raise the claim is never recovered on Git, whatever is called in between:
      the claim does not move while the slot is held, so both run out together. */
  lemma RaisedClaimIsNeverRecovered(tasks: Table, start: Call, calls: seq<Call>, c: Call)
    requires start.op.Start? && Commits(Git, tasks, start) && E.SlotSafe(tasks[start.task])
    requires tasks[start.task].claim.Some? && tasks[start.task].claim.value < start.op.expires
    requires c.op.Recover? && c.task == start.task && c.now <= c.at
    ensures var started := Mutated(Git, tasks, start); var v := Claims.Exec(started, calls);
      && c.task in started && started[c.task].reservation.Some? && c.task in v
      && (v[c.task].reservation == started[c.task].reservation ==> !Commits(Git, v, c))
  {
    StartRaises(tasks, start);
    var started := Mutated(Git, tasks, start)[start.task];
    EndTogetherRun(Mutated(Git, tasks, start), calls, start.task, started.reservation.value);
  }

  lemma StartRaises(tasks: Table, start: Call)
    requires start.op.Start? && Commits(Git, tasks, start) && E.SlotSafe(tasks[start.task])
    requires tasks[start.task].claim.Some? && tasks[start.task].claim.value < start.op.expires
    ensures var t := Mutated(Git, tasks, start)[start.task];
      t.reservation.Some? && EndTogether(t, t.reservation.value)
  {
    NewReservation(tasks, start);
  }

  // ---- A bound run that reaches a limit -------------------------------------

  function Alone(t: Task): Table { map[1 := t] }

  /** On a board of one active task a transition to a valid record commits. */
  lemma AloneStep(t: Task, op: Op, after: Task)
    requires Apply(Alone(t), 1, op, true, 0) == Next(after) && RecordValid(after.(revision := after.revision + 1))
    requires after.status == InProgress && after.owner.Some? && after.claim.Some? && after.claim.value > 0 && after.supersededBy.None?
    ensures Commits(Git, Alone(t), B.At(op)) && Mutated(Git, Alone(t), B.At(op)) == Alone(after.(revision := after.revision + 1))
  {
    var v := Candidate(Alone(t), 1, after);
    assert v == Alone(after.(revision := after.revision + 1));
    assert AllSupersessionsValid(v) && KeysDistinct(v);
  }

  const SLOT := Reservation(9, Some(7), 3, 5, 0, 0, 50 * SECOND)

  const PROOF := Receipt(9, Some(7), 5, 0, 0)

  function RunTask(revision: nat, slot: Option<Reservation>, receipt: Option<Receipt>, ledger: Option<Ledger>): Task {
    Task(InProgress, Some(7), Some(100 * SECOND), None, revision, None, None, [], None, Some(BoundEnvelope(0, 1, 1, 5)), slot, receipt, [], ledger, 0)
  }

  const HELD := Hold(Commands, 1, 1, 0, 6)

  /** The calls of one bound command run, up to its last: admit, reserve, record the result, record the command. */
  const RUN_CALLS: seq<Call> := [
    B.At(Preflight(Some(7), 2, B.ONE_COMMAND, 0)), B.At(Start(Some(7), 3, 9, 0, 0, 50 * SECOND)),
    B.At(RecordResult(Some(7), 9, Some(4), 0)), B.At(Record(Some(7), 5, B.ONE_COMMAND, 0, false, 0, false))]

  lemma RunReserves()
    ensures Mutated(Git, Mutated(Git, Alone(RunTask(2, None, None, None)), RUN_CALLS[0]), RUN_CALLS[1])
      == Alone(RunTask(4, Some(SLOT), None, B.Spent(0, None, [])))
  {
    AloneStep(RunTask(2, None, None, None), RUN_CALLS[0].op, RunTask(2, None, None, B.Spent(0, None, [])));
    AloneStep(RunTask(3, None, None, B.Spent(0, None, [])), RUN_CALLS[1].op, RunTask(3, Some(SLOT), None, B.Spent(0, None, [])));
  }

  lemma RunRecords()
    ensures Mutated(Git, Mutated(Git, Alone(RunTask(4, Some(SLOT), None, B.Spent(0, None, []))), RUN_CALLS[2]), RUN_CALLS[3])
      == Alone(RunTask(6, Some(SLOT), Some(PROOF), B.Spent(1, Some(HELD), [])))
  {
    AloneStep(RunTask(4, Some(SLOT), None, B.Spent(0, None, [])), RUN_CALLS[2].op, RunTask(4, Some(SLOT), Some(PROOF), B.Spent(0, None, [])));
    AloneStep(RunTask(5, Some(SLOT), Some(PROOF), B.Spent(0, None, [])), RUN_CALLS[3].op, RunTask(5, Some(SLOT), Some(PROOF), B.Spent(1, Some(HELD), [])));
  }

  lemma {:induction false} RunOfFour(tasks: Table, calls: seq<Call>)
    requires |calls| == 4
    ensures Claims.Exec(tasks, calls) == Mutated(Git, Mutated(Git, Mutated(Git, Mutated(Git, tasks, calls[0]), calls[1]), calls[2]), calls[3])
  {
    assert calls[1..] == [calls[1], calls[2], calls[3]];
    B.RunOfThree(calls[1], calls[2], calls[3], Mutated(Git, tasks, calls[0]));
  }

  /** A bound run whose own record reaches the limit stands finished, its lease alive, every guard of the finish met, and the finish
      is rejected; after a disposition the same finish commits. */
  lemma HeldRunNeedsDisposition()
    ensures var tasks := Alone(RunTask(2, None, None, None)); var v := Claims.Exec(tasks, RUN_CALLS);
      var finish := B.At(Finish(Some(7), 9, Some(6))); var dispose := B.At(Dispose(Some(7), 6, Some(0)));
      && Consistent(tasks) && 1 in v && v[1].reservation == Some(SLOT) && v[1].claim == Some(100 * SECOND)
      && DoFinish(v[1], finish.op).Next? && !Commits(Git, v, finish)
      && Commits(Git, v, dispose)
      && Commits(Git, Mutated(Git, v, dispose), B.At(Finish(Some(7), 9, Some(7))))
  {
    var tasks := Alone(RunTask(2, None, None, None));
    RunOfFour(tasks, RUN_CALLS);
    RunReserves();
    RunRecords();
    HeldFinishRejected();
    DisposedFinishCommits();
  }

  lemma HeldFinishRejected()
    ensures var t := RunTask(6, Some(SLOT), Some(PROOF), B.Spent(1, Some(HELD), [])); var finish := B.At(Finish(Some(7), 9, Some(6)));
      DoFinish(t, finish.op).Next? && !Commits(Git, Alone(t), finish)
  {
    var t := RunTask(6, Some(SLOT), Some(PROOF), B.Spent(1, Some(HELD), []));
    FinishCommitsIff(Git, Alone(t), B.At(Finish(Some(7), 9, Some(6))));
  }

  lemma DisposedFinishCommits()
    ensures var t := Alone(RunTask(6, Some(SLOT), Some(PROOF), B.Spent(1, Some(HELD), []))); var dispose := B.At(Dispose(Some(7), 6, Some(0)));
      Commits(Git, t, dispose) && Commits(Git, Mutated(Git, t, dispose), B.At(Finish(Some(7), 9, Some(7))))
  {
    var d := Disposition(6, 7, 0, 0);
    assert [] + [d] == [d];
    AloneStep(RunTask(6, Some(SLOT), Some(PROOF), B.Spent(1, Some(HELD), [])), Dispose(Some(7), 6, Some(0)),
      RunTask(6, Some(SLOT), Some(PROOF), B.Spent(1, None, [d])));
    AloneStep(RunTask(7, Some(SLOT), Some(PROOF), B.Spent(1, None, [d])), Finish(Some(7), 9, Some(7)),
      RunTask(7, None, Some(PROOF), B.Spent(1, None, [d])));
  }
}
