/** Bound executions over whole runs: what a reservation implies, and how each one leaves its slot. */
module Executions {
  import opened Common
  import opened Autonomy
  import opened Tasks

  datatype Closing = ByReceipt(receipt: Receipt) | ByAbandonment | Lost

  /** What was seen of one execution: where it was reserved, the receipts recorded under it, and how its slot was cleared. */
  datatype Execution = Execution(task: Token, reservation: Reservation, receipts: seq<Receipt>, closings: seq<Closing>)

  datatype World = World(tasks: Table, book: map<Token, Execution>)

  /** How a slot that held a reservation came to hold something else. */
  function HowClosed(before: Task, after: Task): Closing {
    if |after.abandonments| > |before.abandonments| then ByAbandonment
    else if before.result.Some? then ByReceipt(before.result.value)
    else Lost
  }

  /** The book kept by someone who only sees one task before and after a commit. */
  function Observe(book: map<Token, Execution>, id: Token, before: Task, after: Task): map<Token, Execution> {
    if before.reservation == after.reservation then
      if before.result != after.result && after.result.Some? && before.reservation.Some? && before.reservation.value.id in book
      then var e := before.reservation.value.id; book[e := book[e].(receipts := book[e].receipts + [after.result.value])]
      else book
    else if before.reservation.None? then
      book[after.reservation.value.id := Execution(id, after.reservation.value, [], [])]
    else if before.reservation.value.id in book then
      var e := before.reservation.value.id; book[e := book[e].(closings := book[e].closings + [HowClosed(before, after)])]
    else book
  }

  /** Execution identifiers are drawn at random: none is drawn twice. */
  predicate Fresh(w: World, c: Call) {
    c.op.Start? ==> c.op.id !in w.book
  }

  function Step(backend: Backend, w: World, c: Call): World {
    if Commits(backend, w.tasks, c) && Fresh(w, c) then
      var tasks := Mutated(backend, w.tasks, c);
      World(tasks, Observe(w.book, c.task, w.tasks[c.task], tasks[c.task]))
    else w
  }

  function Exec(backend: Backend, w: World, calls: seq<Call>): World
    decreases |calls|
  {
    if calls == [] then w else Exec(backend, Step(backend, w, calls[0]), calls[1..])
  }

  /** Any board on which nothing was ever reserved. */
  predicate Unreserved(w: World) {
    w.book == map[] && forall id :: id in w.tasks ==> w.tasks[id].reservation.None? && w.tasks[id].result.None?
  }

  // ---- The invariant --------------------------------------------------------

  /** A present reservation belongs to an active claim of the same owner and envelope that outlives it. */
  predicate SlotSafe(t: Task) {
    t.reservation.Some? ==>
      var r := t.reservation.value;
      && t.status == InProgress && t.owner.Some? && t.owner == r.owner
      && t.envelope.Some? && t.envelope.value.digest == r.envelope
      && t.claim.Some? && t.claim.value >= r.expires
  }

  predicate Booked(w: World, id: Token)
    requires id in w.tasks
  {
    && (w.tasks[id].reservation.Some? ==>
      var r := w.tasks[id].reservation.value;
      r.id in w.book && w.book[r.id].task == id && w.book[r.id].reservation == r && w.book[r.id].closings == [])
    && (w.tasks[id].result.Some? ==>
      var rc := w.tasks[id].result.value;
      rc.id in w.book && rc in w.book[rc.id].receipts)
  }

  predicate ReceiptsFit(x: Execution) {
    forall k :: 0 <= k < |x.receipts| ==> x.receipts[k].owner.Some? && Matches(x.reservation, x.receipts[k])
  }

  /** Still in the slot, or closed once: by a receipt recorded under this very reservation, or by abandonment with none recorded. */
  predicate Accounted(w: World, e: Token)
    requires e in w.book
  {
    var x := w.book[e];
    && x.reservation.id == e && x.task in w.tasks && ReceiptsFit(x)
    && |x.closings| <= 1
    && (x.closings == [] ==>
      && w.tasks[x.task].reservation == Some(x.reservation)
      && (x.receipts != [] ==> w.tasks[x.task].result == Some(x.receipts[|x.receipts| - 1])))
    && (x.closings != [] ==>
      if x.closings[0].ByReceipt? then x.closings[0].receipt in x.receipts
      else x.closings[0] == ByAbandonment && x.receipts == [])
  }

  predicate Inv(w: World) {
    && (forall id :: id in w.tasks ==> SlotSafe(w.tasks[id]) && Booked(w, id))
    && (forall e :: e in w.book ==> Accounted(w, e))
  }

  // ---- What one transition can do to the slot -------------------------------

  predicate Untouched(before: Task, after: Task) {
    && before.reservation == after.reservation && before.result == after.result
    && (before.reservation.Some? ==> before.status == after.status && before.owner == after.owner && before.envelope == after.envelope && before.claim == after.claim)
  }

  predicate Started(before: Task, after: Task, e: Token) {
    && before.reservation.None? && after.reservation.Some? && after.reservation.value.id == e
    && before.result == after.result && SlotSafe(after)
  }

  predicate Receipted(before: Task, after: Task) {
    && before.reservation.Some? && before.reservation == after.reservation
    && before.status == after.status && before.owner == after.owner && before.envelope == after.envelope && before.claim == after.claim
    && after.result.Some? && after.result.value.owner.Some? && Matches(before.reservation.value, after.result.value)
    && before.result != after.result
  }

  predicate Proven(before: Task, after: Task) {
    && before.reservation.Some? && after.reservation.None?
    && Proves(before.result, before.reservation.value) && before.result == after.result
    && before.abandonments == after.abandonments
  }

  predicate Forsaken(before: Task, after: Task) {
    && before.reservation.Some? && after.reservation.None?
    && !Proves(before.result, before.reservation.value) && before.result == after.result
    && |after.abandonments| == |before.abandonments| + 1
  }

  predicate SlotMove(before: Task, after: Task, op: Op) {
    || Untouched(before, after) || (op.Start? && Started(before, after, op.id)) || Receipted(before, after)
    || Proven(before, after) || Forsaken(before, after)
  }

  /** Pausing, releasing, reclaiming, rebinding and every lease change refuse a reserved task. */
  lemma OtherOpsLeaveTheSlot(tasks: Table, id: Token, op: Op, admitted: bool, now: Time)
    requires id in tasks && SlotSafe(tasks[id]) && !ExecutionOp(op)
    requires Apply(tasks, id, op, admitted, now).Next?
    ensures Untouched(tasks[id], Apply(tasks, id, op, admitted, now).task)
  {
  }

  lemma ExecutionOpsMove(t: Task, op: Op, admitted: bool, now: Time)
    requires SlotSafe(t) && ExecutionOp(op)
    ensures op.Start? && DoStart(t, op, admitted, now).Next? && op.owner.Some? ==> Started(t, DoStart(t, op, admitted, now).task, op.id)
    ensures op.RecordResult? && DoRecordResult(t, op).Next? ==> Receipted(t, DoRecordResult(t, op).task)
    ensures op.Finish? && DoFinish(t, op).Next? ==> Proven(t, DoFinish(t, op).task)
    ensures op.Recover? && DoRecover(t, op, admitted, now).Next? ==> Proven(t, DoRecover(t, op, admitted, now).task)
    ensures op.Abandon? && DoAbandon(t, op, admitted, now).Next? ==> Forsaken(t, DoAbandon(t, op, admitted, now).task)
  {
  }

  lemma RaisedMove(before: Task, t: Task, op: Op, revision: nat)
    requires SlotMove(before, t, op)
    ensures SlotMove(before, t.(revision := revision), op)
  {
  }

  /** Every committed transition leaves the slot alone, or is one of the four execution steps. */
  lemma SlotSteps(backend: Backend, tasks: Table, c: Call)
    requires Commits(backend, tasks, c) && SlotSafe(tasks[c.task])
    ensures SlotMove(tasks[c.task], Mutated(backend, tasks, c)[c.task], c.op)
  {
    var o := Apply(tasks, c.task, c.op, c.admitted, c.now);
    if ExecutionOp(c.op) {
      assert RecordValid(Mutated(backend, tasks, c)[c.task]);
      ExecutionOpsMove(tasks[c.task], c.op, c.admitted, c.now);
    } else {
      OtherOpsLeaveTheSlot(tasks, c.task, c.op, c.admitted, c.now);
    }
    RaisedMove(tasks[c.task], o.task, c.op, o.task.revision + 1);
  }

  // ---- Preservation ---------------------------------------------------------

  lemma OthersBooked(w: World, v: World, changed: Token, id: Token)
    requires Inv(w) && id in w.tasks && id != changed
    requires v.tasks.Keys == w.tasks.Keys && v.tasks[id] == w.tasks[id]
    requires forall e :: e in w.book ==> e in v.book && (w.book[e].task == id && w.book[e].closings == [] ==> v.book[e] == w.book[e])
    requires forall e :: e in w.book ==> w.book[e].receipts <= v.book[e].receipts
    ensures SlotSafe(v.tasks[id]) && Booked(v, id)
  {
    assert Booked(w, id);
  }

  lemma UntouchedKeeps(w: World, id: Token, after: Task)
    requires Inv(w) && id in w.tasks && Untouched(w.tasks[id], after)
    ensures Inv(World(w.tasks[id := after], w.book))
  {
    var v := World(w.tasks[id := after], w.book);
    forall k | k in v.tasks ensures SlotSafe(v.tasks[k]) && Booked(v, k) { assert SlotSafe(w.tasks[k]) && Booked(w, k); }
    forall e | e in v.book ensures Accounted(v, e) { assert Accounted(w, e); }
  }

  lemma StartedKeeps(w: World, id: Token, after: Task, e: Token)
    requires Inv(w) && id in w.tasks && Started(w.tasks[id], after, e) && e !in w.book
    ensures Inv(World(w.tasks[id := after], Observe(w.book, id, w.tasks[id], after)))
  {
    var v := World(w.tasks[id := after], Observe(w.book, id, w.tasks[id], after));
    assert v.book == w.book[e := Execution(id, after.reservation.value, [], [])];
    forall k | k in v.tasks ensures SlotSafe(v.tasks[k]) && Booked(v, k) { assert SlotSafe(w.tasks[k]) && Booked(w, k); }
    forall x | x in v.book ensures Accounted(v, x) {
      if x != e { assert Accounted(w, x); }
    }
  }

  lemma ReceiptedKeeps(w: World, id: Token, after: Task)
    requires Inv(w) && id in w.tasks && Receipted(w.tasks[id], after)
    ensures Inv(World(w.tasks[id := after], Observe(w.book, id, w.tasks[id], after)))
  {
    var v := World(w.tasks[id := after], Observe(w.book, id, w.tasks[id], after));
    var e := after.reservation.value.id;
    assert SlotSafe(w.tasks[id]) && Booked(w, id);
    assert v.book == w.book[e := w.book[e].(receipts := w.book[e].receipts + [after.result.value])];
    forall k | k in v.tasks ensures SlotSafe(v.tasks[k]) && Booked(v, k) {
      if k != id { OthersBooked(w, v, id, k); }
    }
    forall x | x in v.book ensures Accounted(v, x) { assert Accounted(w, x); }
  }

  lemma ClosedKeeps(w: World, id: Token, after: Task)
    requires Inv(w) && id in w.tasks && (Proven(w.tasks[id], after) || Forsaken(w.tasks[id], after))
    ensures Inv(World(w.tasks[id := after], Observe(w.book, id, w.tasks[id], after)))
  {
    var before := w.tasks[id];
    var v := World(w.tasks[id := after], Observe(w.book, id, before, after));
    var e := before.reservation.value.id;
    assert SlotSafe(before) && Booked(w, id) && Accounted(w, e);
    assert w.book[e].closings + [HowClosed(before, after)] == [HowClosed(before, after)];
    forall k | k in v.tasks ensures SlotSafe(v.tasks[k]) && Booked(v, k) {
      if k != id { OthersBooked(w, v, id, k); }
    }
    forall x | x in v.book ensures Accounted(v, x) { assert Accounted(w, x); }
  }

  lemma StepKeeps(backend: Backend, w: World, c: Call)
    requires Inv(w)
    ensures Inv(Step(backend, w, c))
  {
    if Commits(backend, w.tasks, c) && Fresh(w, c) {
      var before, after := w.tasks[c.task], Mutated(backend, w.tasks, c)[c.task];
      assert SlotSafe(before);
      SlotSteps(backend, w.tasks, c);
      assert Mutated(backend, w.tasks, c) == w.tasks[c.task := after];
      if Untouched(before, after) { UntouchedKeeps(w, c.task, after); }
      else if c.op.Start? && Started(before, after, c.op.id) { StartedKeeps(w, c.task, after, c.op.id); }
      else if Receipted(before, after) { ReceiptedKeeps(w, c.task, after); }
      else { ClosedKeeps(w, c.task, after); }
    }
  }

  lemma {:induction false} RunKeeps(backend: Backend, w: World, calls: seq<Call>)
    requires Inv(w)
    ensures Inv(Exec(backend, w, calls))
    decreases |calls|
  {
    if calls != [] {
      StepKeeps(backend, w, calls[0]);
      RunKeeps(backend, Step(backend, w, calls[0]), calls[1..]);
    }
  }

  // ---- Main results ---------------------------------------------------------

  /** In every run, a reservation stands only on an active claim with its own owner and envelope that does not end before it. */
  lemma ReservationsAreSafe(backend: Backend, w: World, calls: seq<Call>, id: Token)
    requires Unreserved(w) && id in Exec(backend, w, calls).tasks
    ensures SlotSafe(Exec(backend, w, calls).tasks[id])
  {
    RunKeeps(backend, w, calls);
  }

  /** In every run, a started execution holds its slot or left it once: by a matching receipt recorded under it, or abandoned with none. */
  lemma ExecutionsLeaveOnce(backend: Backend, w: World, calls: seq<Call>, e: Token)
    requires Unreserved(w) && e in Exec(backend, w, calls).book
    ensures var v := Exec(backend, w, calls); var x := v.book[e];
      && x.task in v.tasks
      && (x.closings == [] <==> v.tasks[x.task].reservation == Some(x.reservation))
      && (x.closings == [] || x.closings == [ByAbandonment] || (|x.closings| == 1 && x.closings[0].ByReceipt?))
      && (x.closings == [ByAbandonment] ==> x.receipts == [])
      && (x.closings != [] && x.closings[0].ByReceipt? ==>
        x.closings[0].receipt in x.receipts && Matches(x.reservation, x.closings[0].receipt))
  {
    RunKeeps(backend, w, calls);
    var v := Exec(backend, w, calls);
    assert Accounted(v, e) && Booked(v, v.book[e].task);
  }

  lemma ClosedStaysClosed(backend: Backend, w: World, c: Call, e: Token)
    requires Inv(w) && e in w.book
    ensures var v := Step(backend, w, c); e in v.book && v.book[e].task == w.book[e].task && v.book[e].reservation == w.book[e].reservation
    ensures w.book[e].closings != [] ==> Step(backend, w, c).book[e] == w.book[e]
  {
    if Commits(backend, w.tasks, c) && Fresh(w, c) {
      var before, after := w.tasks[c.task], Mutated(backend, w.tasks, c)[c.task];
      assert SlotSafe(before) && Booked(w, c.task);
      SlotSteps(backend, w.tasks, c);
    }
  }

  /** What is closed is final: no later call adds a receipt to it or closes it again. */
  lemma {:induction false} ClosedIsFinal(backend: Backend, w: World, calls: seq<Call>, e: Token)
    requires Inv(w) && e in w.book && w.book[e].closings != []
    ensures e in Exec(backend, w, calls).book && Exec(backend, w, calls).book[e] == w.book[e]
    decreases |calls|
  {
    if calls != [] {
      StepKeeps(backend, w, calls[0]);
      ClosedStaysClosed(backend, w, calls[0], e);
      ClosedIsFinal(backend, Step(backend, w, calls[0]), calls[1..], e);
    }
  }

  /** In every run, a receipt of a closed execution does not match the reservation now in any slot. */
  lemma OldReceiptsProveNothing(backend: Backend, w: World, calls: seq<Call>, id: Token, e: Token, rc: Receipt)
    requires Unreserved(w)
    requires var v := Exec(backend, w, calls);
      && id in v.tasks && v.tasks[id].reservation.Some?
      && e in v.book && rc in v.book[e].receipts && v.book[e].closings != []
    ensures !Proves(Some(rc), Exec(backend, w, calls).tasks[id].reservation.value)
  {
    RunKeeps(backend, w, calls);
    var v := Exec(backend, w, calls);
    assert Accounted(v, e) && Booked(v, id);
    var k :| 0 <= k < |v.book[e].receipts| && v.book[e].receipts[k] == rc;
  }

  // ---- Envelope bindings over runs ------------------------------------------

  /** The envelope was bound at an earlier revision of the task. */
  predicate BoundBefore(t: Task) {
    t.envelope.Some? ==> t.envelope.value.taskRevision < t.revision
  }

  /** A bound envelope stays, or a later one has taken its place. */
  predicate BindingKept(before: Task, after: Task) {
    before.envelope.Some? && after.envelope != before.envelope ==>
      && after.envelope.Some? && after.envelope.value.revision > before.envelope.value.revision
      && after.envelope.value.taskRevision > before.envelope.value.taskRevision
  }

  lemma BindingStep(backend: Backend, tasks: Table, c: Call)
    requires Commits(backend, tasks, c) && BoundBefore(tasks[c.task])
    ensures BoundBefore(Mutated(backend, tasks, c)[c.task]) && BindingKept(tasks[c.task], Mutated(backend, tasks, c)[c.task])
  {
    OnlyBindingsRebind(tasks, c);
  }

  lemma OnlyBindingsRebind(tasks: Table, c: Call)
    requires c.task in tasks && Apply(tasks, c.task, c.op, c.admitted, c.now).Next?
    ensures var t := tasks[c.task]; var u := Apply(tasks, c.task, c.op, c.admitted, c.now).task;
      && u.revision == t.revision
      && (u.envelope == t.envelope || ((c.op.BindEnvelope? || c.op.ReplaceEnvelope?) && u.envelope.Some? && u.envelope.value.taskRevision == t.revision
          && (t.envelope.Some? ==> u.envelope.value.revision == t.envelope.value.revision + 1)))
  {
  }

  /** In every run a bound envelope is older than its task's revision, is never unbound, and is only followed by later ones. */
  lemma {:induction false} BindingsRise(backend: Backend, w: World, calls: seq<Call>, id: Token)
    requires (forall k :: k in w.tasks ==> BoundBefore(w.tasks[k])) && id in w.tasks
    ensures var v := Exec(backend, w, calls); id in v.tasks && BoundBefore(v.tasks[id]) && BindingKept(w.tasks[id], v.tasks[id])
    decreases |calls|
  {
    if calls != [] {
      var u := Step(backend, w, calls[0]);
      if u != w { BindingStep(backend, w.tasks, calls[0]); }
      BindingsRise(backend, u, calls[1..], id);
    }
  }

  /** So a committed binding is never recognised as already done: repeating a bind is refused, whatever revision it names. */
  lemma BindNeverReplays(backend: Backend, w: World, calls: seq<Call>, id: Token, op: Op, admitted: bool, now: Time)
    requires (forall k :: k in w.tasks ==> BoundBefore(w.tasks[k])) && id in w.tasks && op.BindEnvelope?
    ensures id in Exec(backend, w, calls).tasks
    ensures var v := Exec(backend, w, calls); var o := Apply(v.tasks, id, op, admitted, now);
      && !o.Replay?
      && (o.Next? <==> v.tasks[id].envelope.None? && v.tasks[id].reservation.None? && OwnerRefusal(v.tasks[id], op.owner, op.expected, admitted, now).None?)
  {
    BindingsRise(backend, w, calls, id);
  }
}
