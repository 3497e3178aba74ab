/** Autonomy budgets over whole runs of the task board. */
module Budgets {
  import opened Common
  import opened Autonomy
  import opened Tasks
  import Claims

  /** Seen from outside for one task: a preflight admitted since the last record, whether every record so far had one, and the last charge. */
  datatype Meter = Meter(admitted: bool, disciplined: bool, charge: nat)

  datatype World = World(tasks: Table, meter: Meter)

  function Watch(m: Meter, op: Op, after: Task): Meter {
    if op.Preflight? && after.ledger.Some? then m.(admitted := after.ledger.value.hold.None?)
    else if op.Record? && op.cost >= 0 then Meter(false, m.disciplined && m.admitted, op.cost)
    else m
  }

  function Step(backend: Backend, id: Token, w: World, c: Call): World {
    if Commits(backend, w.tasks, c) then
      var tasks := Mutated(backend, w.tasks, c);
      World(tasks, if c.task == id then Watch(w.meter, c.op, tasks[c.task]) else w.meter)
    else w
  }

  function Exec(backend: Backend, id: Token, w: World, calls: seq<Call>): World
    decreases |calls|
  {
    if calls == [] then w else Exec(backend, id, Step(backend, id, w, calls[0]), calls[1..])
  }

  // ---- The bounds -----------------------------------------------------------

  predicate AtMost(n: nat, limit: Option<nat>) { limit.Some? ==> n <= limit.value }

  predicate Under(n: nat, limit: Option<nat>) { limit.Some? ==> n < limit.value }

  /** Counters within their limits; the cost passes its limit by less than the last charge. */
  predicate Within(l: Ledger, charge: nat) {
    && AtMost(l.commands, l.policy.commands) && AtMost(l.retries, l.policy.retries) && AtMost(l.effects, l.policy.effects)
    && (l.policy.cost.Some? && l.cost > l.policy.cost.value ==> l.cost - charge < l.policy.cost.value)
  }

  predicate AllUnder(l: Ledger) {
    Under(l.commands, l.policy.commands) && Under(l.retries, l.policy.retries) && Under(l.effects, l.policy.effects) && Under(l.cost, l.policy.cost)
  }

  predicate SameCounters(a: Ledger, b: Ledger) {
    a.policy == b.policy && a.commands == b.commands && a.retries == b.retries && a.cost == b.cost && a.effects == b.effects
  }

  /** Without a hold no limit is reached, and a hold names a limit that is. */
  lemma BreachMeaning(l: Ledger, now: Time, diff: nat, revision: nat)
    ensures var h := Breach(l, now, diff, revision); h.None? ==> AllUnder(l)
    ensures var h := Breach(l, now, diff, revision); h.Some? ==> h.value.observed >= h.value.limit && h.value.revision == revision
  {
  }

  lemma PhaseCountersKept(tasks: Table, id: Token, op: Op, admitted: bool, now: Time)
    requires id in tasks && (PhaseOp(op) || ExecutionOp(op)) && tasks[id].ledger.Some?
    requires Apply(tasks, id, op, admitted, now).Next?
    ensures var t := Apply(tasks, id, op, admitted, now).task;
      t.ledger.Some? && SameCounters(t.ledger.value, tasks[id].ledger.value)
  {
  }

  lemma OtherCountersKept(tasks: Table, id: Token, op: Op, admitted: bool, now: Time)
    requires id in tasks && !PhaseOp(op) && !ExecutionOp(op) && !op.Record? && tasks[id].ledger.Some?
    requires Apply(tasks, id, op, admitted, now).Next?
    ensures var t := Apply(tasks, id, op, admitted, now).task;
      t.ledger.Some? && SameCounters(t.ledger.value, tasks[id].ledger.value)
  {
  }

  /** Every transition but a record leaves the counters and the policy of an existing ledger alone. */
  lemma CountersKept(tasks: Table, id: Token, op: Op, admitted: bool, now: Time)
    requires id in tasks && !op.Record? && tasks[id].ledger.Some?
    requires Apply(tasks, id, op, admitted, now).Next?
    ensures var t := Apply(tasks, id, op, admitted, now).task;
      t.ledger.Some? && SameCounters(t.ledger.value, tasks[id].ledger.value)
  {
    if PhaseOp(op) || ExecutionOp(op) { PhaseCountersKept(tasks, id, op, admitted, now); }
    else { OtherCountersKept(tasks, id, op, admitted, now); }
  }

  lemma LedgerBegins(tasks: Table, id: Token, op: Op, admitted: bool, now: Time)
    requires id in tasks && !op.Record? && tasks[id].ledger.None?
    requires Apply(tasks, id, op, admitted, now).Next?
    ensures var t := Apply(tasks, id, op, admitted, now).task;
      t.ledger.Some? ==> op.Preflight? && t.ledger.value.commands == t.ledger.value.retries == t.ledger.value.cost == t.ledger.value.effects == 0
  {
  }

  /** A preflight that records no hold has seen every counter strictly below its limit. */
  lemma AdmittedIsUnder(t: Task, op: Op, admitted: bool, now: Time)
    requires op.Preflight? && DoPreflight(t, op, admitted, now).Next?
    ensures var l := DoPreflight(t, op, admitted, now).task.ledger;
      l.Some? && (l.value.hold.None? ==> AllUnder(l.value))
  {
    var s := State(t.ledger, op.policy, t.revision, now);
    BreachMeaning(s.value, now, op.diff, t.revision + 1);
  }

  lemma RecordCharges(t: Task, op: Op, admitted: bool, now: Time)
    requires op.Record? && t.ledger.Some? && DoRecord(t, op, admitted, now).Next?
    ensures op.cost >= 0
    ensures var l := DoRecord(t, op, admitted, now).task.ledger;
      l.Some? && SameCounters(l.value, Charged(t.ledger.value, op.failed, op.cost, op.effect))
  {
  }

  /** One record stays within the limits iff the counters that it raises were below theirs. */
  lemma ChargeWithinIff(l: Ledger, failed: bool, cost: nat, effect: bool, before: nat)
    requires Within(l, before)
    ensures Within(Charged(l, failed, cost, effect), cost) <==>
      && Under(l.commands, l.policy.commands)
      && (failed ==> Under(l.retries, l.policy.retries))
      && (effect ==> Under(l.effects, l.policy.effects))
      && (l.policy.cost.Some? && l.cost + cost > l.policy.cost.value ==> l.cost < l.policy.cost.value)
  {
  }

  /** The ledger that a record would charge: the task's, or a new one. */
  function Current(t: Task, policy: Policy, now: Time): Ledger {
    if t.ledger.Some? then t.ledger.value else Ledger(policy, now, 0, 0, 0, 0, None, [])
  }

  /** A committed record keeps the budgets exactly if each counter that it raises was below its limit before the call. */
  lemma RecordStaysWithinIff(backend: Backend, tasks: Table, c: Call, charge: nat)
    requires c.op.Record? && Commits(backend, tasks, c) && Within(Current(tasks[c.task], c.op.policy, c.now), charge)
    ensures var l := Current(tasks[c.task], c.op.policy, c.now); var after := Mutated(backend, tasks, c)[c.task].ledger;
      && after.Some? && c.op.cost >= 0
      && (Within(after.value, c.op.cost) <==>
        && Under(l.commands, l.policy.commands)
        && (c.op.failed ==> Under(l.retries, l.policy.retries))
        && (c.op.effect ==> Under(l.effects, l.policy.effects))
        && (l.policy.cost.Some? && l.cost + c.op.cost > l.policy.cost.value ==> l.cost < l.policy.cost.value))
  {
    var t := tasks[c.task];
    var l := Current(t, c.op.policy, c.now);
    RecordCharges(t.(ledger := Some(l)), c.op, c.admitted, c.now);
    ChargeWithinIff(l, c.op.failed, c.op.cost, c.op.effect, charge);
  }

  // ---- Runs -----------------------------------------------------------------

  predicate Kept(t: Task, m: Meter) {
    m.disciplined ==>
      && (t.ledger.Some? ==> Within(t.ledger.value, m.charge))
      && (m.admitted ==> t.ledger.Some? && AllUnder(t.ledger.value))
  }

  lemma RecordKeeps(t: Task, m: Meter, op: Op, admitted: bool, now: Time)
    requires op.Record? && Kept(t, m) && DoRecord(t, op, admitted, now).Next?
    ensures Kept(DoRecord(t, op, admitted, now).task, Watch(m, op, DoRecord(t, op, admitted, now).task))
  {
    if t.ledger.Some? { RecordCharges(t, op, admitted, now); }
  }

  lemma OthersKeep(tasks: Table, id: Token, m: Meter, op: Op, admitted: bool, now: Time)
    requires id in tasks && !op.Record? && Kept(tasks[id], m) && Apply(tasks, id, op, admitted, now).Next?
    ensures var t := Apply(tasks, id, op, admitted, now).task; Kept(t, Watch(m, op, t))
  {
    if tasks[id].ledger.Some? { CountersKept(tasks, id, op, admitted, now); } else { LedgerBegins(tasks, id, op, admitted, now); }
    if op.Preflight? { AdmittedIsUnder(tasks[id], op, admitted, now); }
  }

  lemma StepKeeps(backend: Backend, id: Token, w: World, c: Call)
    requires id in w.tasks && Kept(w.tasks[id], w.meter)
    ensures var v := Step(backend, id, w, c); id in v.tasks && Kept(v.tasks[id], v.meter)
  {
    if Commits(backend, w.tasks, c) && c.task == id {
      if c.op.Record? { RecordKeeps(w.tasks[id], w.meter, c.op, c.admitted, c.now); }
      else { OthersKeep(w.tasks, id, w.meter, c.op, c.admitted, c.now); }
    }
  }

  /** In every run in which each record has its own admitted preflight since the record before it, the budgets hold, dispositions included. */
  lemma {:induction false} BudgetsHold(backend: Backend, id: Token, w: World, calls: seq<Call>)
    requires id in w.tasks && Kept(w.tasks[id], w.meter)
    ensures var v := Exec(backend, id, w, calls);
      && id in v.tasks && Kept(v.tasks[id], v.meter)
      && (v.meter.disciplined && v.tasks[id].ledger.Some? ==> Within(v.tasks[id].ledger.value, v.meter.charge))
    decreases |calls|
  {
    if calls != [] {
      StepKeeps(backend, id, w, calls[0]);
      BudgetsHold(backend, id, Step(backend, id, w, calls[0]), calls[1..]);
    }
  }

  // ---- Holds ----------------------------------------------------------------

  /** Holds are fenced to the current revision. */
  predicate Fenced(tasks: Table) {
    forall id :: id in tasks && tasks[id].ledger.Some? ==> Valid(tasks[id].ledger.value, tasks[id].revision)
  }

  lemma {:induction false} RunStaysFenced(backend: Backend, id: Token, w: World, calls: seq<Call>)
    requires Fenced(w.tasks)
    ensures Fenced(Exec(backend, id, w, calls).tasks)
    decreases |calls|
  {
    if calls != [] {
      StepStaysFenced(backend, w.tasks, calls[0]);
      RunStaysFenced(backend, id, Step(backend, id, w, calls[0]), calls[1..]);
    }
  }

  lemma StepStaysFenced(backend: Backend, tasks: Table, c: Call)
    requires Fenced(tasks)
    ensures Fenced(Mutated(backend, tasks, c))
  {
    if Commits(backend, tasks, c) {
      var v := Mutated(backend, tasks, c);
      assert RecordValid(v[c.task]);
      forall id | id in v && v[id].ledger.Some? ensures Valid(v[id].ledger.value, v[id].revision) {
        if id != c.task { assert v[id] == tasks[id]; }
      }
    }
  }

  predicate Held(t: Task) {
    t.ledger.Some? && t.ledger.value.hold.Some?
  }

  /** What each transition does to a held ledger. */
  lemma HeldTransitions(tasks: Table, id: Token, op: Op, admitted: bool, now: Time)
    requires id in tasks && Held(tasks[id]) && Apply(tasks, id, op, admitted, now).Next?
    ensures var t := Apply(tasks, id, op, admitted, now).task;
      && t.ledger.Some? && t.revision == tasks[id].revision
      && (if op.Dispose? then t.ledger.value.hold.None?
          else if op.Update? && op.run then t.ledger.value.hold == Some(tasks[id].ledger.value.hold.value.(revision := t.revision + 1))
          else t.ledger.value.hold == tasks[id].ledger.value.hold)
  {
  }

  /** From a held state a call on the task is committed only if it disposes of the hold or is the run update that carries it. */
  lemma HeldAcceptsOnly(backend: Backend, tasks: Table, c: Call)
    requires c.task in tasks && Fenced(tasks) && Held(tasks[c.task]) && Commits(backend, tasks, c)
    ensures c.op.Dispose? || (c.op.Update? && c.op.run)
    ensures c.op.Dispose? ==> !Held(Mutated(backend, tasks, c)[c.task])
    ensures c.op.Update? ==> Held(Mutated(backend, tasks, c)[c.task])
  {
    HeldTransitions(tasks, c.task, c.op, c.admitted, c.now);
    assert RecordValid(Mutated(backend, tasks, c)[c.task]);
  }

  // ---- Two runs at once -----------------------------------------------------

  const ONE_COMMAND := Policy(None, None, Some(1), None, None, None)

  /** A board of one task, actively owned by 7 until time 100. */
  function Board(revision: nat, ledger: Option<Ledger>): Table {
    map[1 := Task(InProgress, Some(7), Some(100), None, revision, None, None, [], None, None, None, None, [], ledger, 0)]
  }

  function Spent(commands: nat, hold: Option<Hold>, dispositions: seq<Disposition>): Option<Ledger> {
    Some(Ledger(ONE_COMMAND, 0, commands, 0, 0, 0, hold, dispositions))
  }

  function At(op: Op): Call { Call(1, op, true, true, 0, 0) }

  /** On this board a transition of a valid record commits. */
  lemma BoardStep(op: Op, revision: nat, before: Option<Ledger>, after: Option<Ledger>)
    requires Apply(Board(revision, before), 1, op, true, 0) == Next(Board(revision, after)[1])
    requires after.Some? ==> Valid(after.value, revision + 1)
    ensures Mutated(Git, Board(revision, before), At(op)) == Board(revision + 1, after)
  {
    var v := Candidate(Board(revision, before), 1, Board(revision, after)[1]);
    assert v == Board(revision + 1, after);
    assert RecordValid(v[1]) && AllSupersessionsValid(v) && KeysDistinct(v);
  }

  lemma AdmitTwice()
    ensures var c1 := At(Preflight(Some(7), 1, ONE_COMMAND, 0)); var c2 := At(Preflight(Some(7), 2, ONE_COMMAND, 0));
      Mutated(Git, Mutated(Git, Board(1, None), c1), c2) == Board(3, Spent(0, None, []))
  {
    BoardStep(Preflight(Some(7), 1, ONE_COMMAND, 0), 1, None, Spent(0, None, []));
    BoardStep(Preflight(Some(7), 2, ONE_COMMAND, 0), 2, Spent(0, None, []), Spent(0, None, []));
  }

  lemma RecordDisposeRecord()
    ensures var c3 := At(Record(Some(7), 3, ONE_COMMAND, 0, false, 0, false)); var c4 := At(Dispose(Some(7), 4, Some(0)));
      var c5 := At(Record(Some(7), 5, ONE_COMMAND, 0, false, 0, false));
      Mutated(Git, Mutated(Git, Mutated(Git, Board(3, Spent(0, None, [])), c3), c4), c5)
      == Board(6, Spent(2, Some(Hold(Commands, 2, 1, 0, 6)), [Disposition(4, 5, 0, 0)]))
  {
    var held := Spent(1, Some(Hold(Commands, 1, 1, 0, 4)), []);
    var free := Spent(1, None, [Disposition(4, 5, 0, 0)]);
    BoardStep(Record(Some(7), 3, ONE_COMMAND, 0, false, 0, false), 3, Spent(0, None, []), held);
    assert [] + [Disposition(4, 5, 0, 0)] == [Disposition(4, 5, 0, 0)];
    BoardStep(Dispose(Some(7), 4, Some(0)), 4, held, free);
    BoardStep(Record(Some(7), 5, ONE_COMMAND, 0, false, 0, false), 5, free, Spent(2, Some(Hold(Commands, 2, 1, 0, 6)), [Disposition(4, 5, 0, 0)]));
  }

  /** Two runs both admitted before either records pass a limit of one command, if the hold in between is disposed of: the meter's condition is needed. */
  lemma InterleavedRunsOvershoot() returns (w: World, calls: seq<Call>)
    ensures 1 in w.tasks && w.tasks[1].ledger.None? && Kept(w.tasks[1], w.meter)
    ensures var v := Exec(Git, 1, w, calls);
      1 in v.tasks && v.tasks[1].ledger.Some? && v.tasks[1].ledger.value.policy.commands == Some(1) && v.tasks[1].ledger.value.commands == 2
  {
    w := World(Board(1, None), Meter(false, true, 0));
    var c1, c2 := At(Preflight(Some(7), 1, ONE_COMMAND, 0)), At(Preflight(Some(7), 2, ONE_COMMAND, 0));
    var c3, c4 := At(Record(Some(7), 3, ONE_COMMAND, 0, false, 0, false)), At(Dispose(Some(7), 4, Some(0)));
    var c5 := At(Record(Some(7), 5, ONE_COMMAND, 0, false, 0, false));
    calls := [c1, c2, c3, c4, c5];
    MeterWatchesOnly(1, w, calls);
    AdmitTwice();
    RecordDisposeRecord();
    assert calls[1..] == [c2, c3, c4, c5] && calls[1..][1..] == [c3, c4, c5];
    RunOfThree(c3, c4, c5, Board(3, Spent(0, None, [])));
    assert Claims.Exec(w.tasks, calls) == Claims.Exec(Mutated(Git, w.tasks, c1), [c2, c3, c4, c5]);
  }

  lemma RunOfThree(a: Call, b: Call, c: Call, tasks: Table)
    ensures Claims.Exec(tasks, [a, b, c]) == Mutated(Git, Mutated(Git, Mutated(Git, tasks, a), b), c)
  {
    assert [a, b, c][1..] == [b, c] && [b, c][1..] == [c] && [c][1..] == [];
    var t1 := Mutated(Git, tasks, a);
    var t2 := Mutated(Git, t1, b);
    assert Claims.Exec(tasks, [a, b, c]) == Claims.Exec(t1, [b, c]) == Claims.Exec(t2, [c]) == Claims.Exec(Mutated(Git, t2, c), []);
  }

  /** The meter only watches: a metered run over Git leaves the tasks that the run leaves. */
  lemma {:induction false} MeterWatchesOnly(id: Token, w: World, calls: seq<Call>)
    ensures Exec(Git, id, w, calls).tasks == Claims.Exec(w.tasks, calls)
    decreases |calls|
  {
    if calls != [] { MeterWatchesOnly(id, Step(Git, id, w, calls[0]), calls[1..]); }
  }
}
