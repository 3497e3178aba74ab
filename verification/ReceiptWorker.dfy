/**
 The executor of fast_receipt_worker.py: one service working a store and a Git
 log.  Its methods are runs of the protocol: whatever they do is a sequence of
 the protocol's steps, so its theorems hold of the tables they leave behind.
 What Git and `core.mutate` answer is an argument of each call.
 */
module ReceiptWorker {
  import opened Common
  import I = Intents
  import P = Publications
  import S = Settlement
  import opened ReceiptProtocol
  import opened ReceiptStores

  /** The authority branch as the worker sees it: a log that mutations append to. */
  class Core {
    var log: seq<Commit>
    ghost var calls: multiset<Token>

    constructor ()
      ensures log == [] && calls == multiset{}
    {
      log := [];
      calls := multiset{};
    }

    /** `core.mutate` for one receipt: it may land one commit carrying the receipt's marker, and may raise before or after. */
    method Mutate(receiptId: Token, scripted: CallResult) returns (outcome: CallResult)
      modifies this
      ensures outcome == Stamp(scripted, receiptId)
      ensures log == Land(old(log), outcome.landed) && calls == old(calls) + multiset{receiptId}
    {
      calls := calls + multiset{receiptId};
      outcome := Stamp(scripted, receiptId);
      if outcome.landed.Some? { log := log + [outcome.landed.value]; }
    }
  }

  function Stamp(outcome: CallResult, receiptId: Token): CallResult {
    if outcome.landed.None? then outcome
    else outcome.(landed := Some(outcome.landed.value.(marker := Some(receiptId))))
  }

  /** What the outside world does during one `process_one`. */
  datatype Turn = Turn(payloadValid: bool, outcome: CallResult, evidence: Evidence)

  /** The protocol steps of one turn. */
  function TurnSteps(w: World, turn: Turn): seq<Step> {
    match I.FirstInPhase(w.table, I.QueuedLocal)
    case None => []
    case Some(id) =>
      [Reserve] + (if turn.payloadValid then [CallMutate(Stamp(turn.outcome, id))] else []) + [Settle(turn.evidence)]
  }

  /** The world after the first `n` turns; a turn with nothing queued changes nothing. */
  function AfterTurns(w: World, turns: seq<Turn>, n: nat): World
    requires n <= |turns|
  {
    if n == 0 then w
    else
      var before := AfterTurns(w, turns, n - 1);
      Exec(before, TurnSteps(before, turns[n - 1]))
  }

  /** A batch is a run of the protocol, so everything proved of runs holds of the tables it leaves. */
  lemma {:induction false} BatchIsRun(w: World, turns: seq<Turn>, n: nat) returns (steps: seq<Step>)
    requires n <= |turns|
    ensures AfterTurns(w, turns, n) == Exec(w, steps)
  {
    if n == 0 { return []; }
    var earlier := BatchIsRun(w, turns, n - 1);
    steps := ExtendRun(w, earlier, turns[n - 1]);
  }

  lemma ExtendRun(w: World, earlier: seq<Step>, turn: Turn) returns (steps: seq<Step>)
    ensures Exec(w, steps) == Exec(Exec(w, earlier), TurnSteps(Exec(w, earlier), turn))
  {
    var more := TurnSteps(Exec(w, earlier), turn);
    ExecConcat(w, earlier, more);
    return earlier + more;
  }

  lemma PeelFirst(ids: seq<Token>, i: nat)
    requires i < |ids|
    ensures ids[i..] == [ids[i]] + ids[i + 1..]
  {
  }

  predicate InHand(r: I.Intent) {
    r.phase == I.Running && r.payload.expectedRevision >= 1
  }

  lemma RunningInHand(w: World, id: Token)
    requires Inv(w) && id in w.table.rows && w.table.rows[id].phase == I.Running
    ensures InHand(w.table.rows[id])
  {
    assert RowOk(Marked(w.log, id), w.calls[id], w.service, w.ancestry, w.table.rows[id]);
  }

  /** Exactly this row changed, and it ended as it must. */
  ghost predicate SettledRow(log: seq<Commit>, before: map<Token, I.Intent>, after: map<Token, I.Intent>, id: Token,
    returned: Option<Token>, refused: bool, unmarked: I.Code, evidence: Evidence)
  {
    && id in before && id in after && after == before[id := after[id]]
    && EndsBy(log, before[id], after[id], returned, refused, unmarked, evidence)
  }

  /** One turn on this row: the call lands at most its own commit, and the row ends by what was returned and what the log shows then. */
  ghost predicate TurnSettles(log: seq<Commit>, log': seq<Commit>, before: map<Token, I.Intent>, after: map<Token, I.Intent>, id: Token, turn: Turn) {
    && log' == log + (if turn.payloadValid && turn.outcome.landed.Some? then [turn.outcome.landed.value.(marker := Some(id))] else [])
    && SettledRow(log', before, after, id, if turn.payloadValid && turn.outcome.Returned? then Some(turn.outcome.oid) else None,
         turn.payloadValid && turn.outcome.Raised? && turn.outcome.rejectable, I.MutationOutcomeUnknown, turn.evidence)
  }

  /** Claiming a row changes nothing that its ending depends on. */
  lemma SettledSinceClaim(before: map<Token, I.Intent>, taken: map<Token, I.Intent>, after: map<Token, I.Intent>, id: Token,
    log: seq<Commit>, log': seq<Commit>, turn: Turn)
    requires id in before && taken == before[id := before[id].(phase := I.Running)]
    requires TurnSettles(log, log', taken, after, id, turn)
    ensures TurnSettles(log, log', before, after, id, turn)
  {
    var r, claimed := before[id], taken[id];
    forall oid: Token ensures Proven(log', r, oid, turn.evidence) <==> Proven(log', claimed, oid, turn.evidence) {
      forall k: nat | k < |log'| ensures Fits(log'[k], r) <==> Fits(log'[k], claimed) {}
      if Proven(log', claimed, oid, turn.evidence) {
        var k: nat :| k < |log'| && log'[k].oid == oid && (forall j :: 0 <= j < k ==> log'[j].oid != oid) && Fits(log'[k], claimed);
        assert Fits(log'[k], r);
      }
      if Proven(log', r, oid, turn.evidence) {
        var k: nat :| k < |log'| && log'[k].oid == oid && (forall j :: 0 <= j < k ==> log'[j].oid != oid) && Fits(log'[k], r);
        assert Fits(log'[k], claimed);
      }
    }
    var returned := if turn.payloadValid && turn.outcome.Returned? then Some(turn.outcome.oid) else None;
    forall oid: Token ensures Completes(log', r, returned, oid, turn.evidence) <==> Completes(log', claimed, returned, oid, turn.evidence) {}
  }

  lemma FirstIsOldest(t: I.Table)
    ensures I.FirstInPhase(t, I.QueuedLocal).Some? ==> OldestQueued(t, I.FirstInPhase(t, I.QueuedLocal).value)
  {
    var i := IndexWhere(t.order, id => id in t.rows && t.rows[id].phase == I.QueuedLocal);
    if i < |t.order| {
      forall j | 0 <= j < i && t.order[j] in t.rows ensures t.rows[t.order[j]].phase != I.QueuedLocal {}
    }
  }

  /** A queued row before which nothing in the listing is queued. */
  ghost predicate OldestQueued(t: I.Table, id: Token) {
    exists k: nat :: k < |t.order| && t.order[k] == id && id in t.rows && t.rows[id].phase == I.QueuedLocal
      && forall j :: 0 <= j < k ==> t.order[j] in t.rows ==> t.rows[t.order[j]].phase != I.QueuedLocal
  }

  /** Every row still running is one of these. */
  ghost predicate Pending(intents: map<Token, I.Intent>, ids: seq<Token>) {
    && (forall id :: id in ids ==> id in intents)
    && (forall id :: id in intents && intents[id].phase == I.Running ==> id in ids)
  }

  function Recoveries(running: seq<Token>, evidence: map<Token, Evidence>): seq<Step>
    requires forall id :: id in running ==> id in evidence
  {
    if running == [] then []
    else
      var last := running[|running| - 1];
      Recoveries(running[..|running| - 1], evidence) + [RecoverOne(last, evidence[last])]
  }

  /** `find_receipt_commit`: collect every commit whose message carries the marker. */
  method FindReceiptCommit(log: seq<Commit>, id: Token) returns (found: seq<Commit>)
    ensures found == Marked(log, id)
  {
    found := [];
    for i := 0 to |log|
      invariant found == Marked(log[..i], id)
    {
      assert log[..i + 1] == log[..i] + [log[i]];
      MarkedAppend(log[..i], log[i], id);
      if log[i].marker == Some(id) { found := found + [log[i]]; }
    }
    assert log[..|log|] == log;
  }

  class Worker {
    const store: ReceiptStore
    const core: Core
    ghost var service: Service
    ghost var ancestry: set<(Token, Token)>

    ghost function View(): World
      reads this, store, core
    {
      World(store.IntentTable(), core.log, core.calls, service, ancestry)
    }

    ghost predicate Valid()
      reads this, store, core
    {
      Inv(View())
    }

    constructor (store: ReceiptStore, core: Core)
      requires store.IntentTable() == I.Empty && core.log == [] && core.calls == multiset{}
      ensures Valid() && this.store == store && this.core == core && service == Recovering
    {
      this.store, this.core := store, core;
      service, ancestry := Recovering, {};
    }

    /** Look for this receipt's commit and record what the log shows, or what the caller concludes from its absence. */
    method RecordFromLog(id: Token, evidence: Evidence, nothing: Verdict) returns (r: Result<I.Intent>)
      requires store.ValidIntents() && id in store.intents && !nothing.Local?
      modifies store`intents
      ensures store.ValidIntents()
      ensures store.IntentTable() == Record(old(store.IntentTable()), id, FromLog(core.log, old(store.intents)[id], evidence, nothing))
      ensures InHand(old(store.intents)[id]) ==> r.Ok? && SettledRow(core.log, old(store.intents), store.intents, id, None, nothing.Reject?,
        if nothing.Ambiguity? then nothing.code else I.OtherCode(0), evidence) && r.value == store.intents[id]
    {
      var intent := store.intents[id];
      FromLogEnds(core.log, intent, evidence, nothing, if nothing.Ambiguity? then nothing.code else I.OtherCode(0));
      if InHand(intent) { RecordUpdates(store.IntentTable(), id, FromLog(core.log, intent, evidence, nothing)); }
      if !evidence.logReadable { r := store.RecordAmbiguity(id, I.CommitEvidenceUnknown); return; }
      var found := FindReceiptCommit(core.log, intent.receiptId);
      if |found| > 1 { r := store.RecordAmbiguity(id, I.CommitEvidenceUnknown); return; }
      if |found| == 1 {
        var revision := Verify(core.log, intent, found[0].oid, evidence);
        if revision.None? { r := store.RecordAmbiguity(id, I.CommitEvidenceUnknown); return; }
        r := store.RecordLocalCommit(id, found[0].oid, revision.value);
        return;
      }
      if nothing.Reject? {
        r := store.RecordRejection(id, I.AdmissionRejected);
      } else {
        r := store.RecordAmbiguity(id, nothing.code);
      }
    }

    /** Reserve the next intent. */
    method TakeNext() returns (r: Option<I.Intent>)
      requires Valid() && service == Idle
      modifies store`intents, this`service
      ensures Valid() && View() == DoReserve(old(View()))
      ensures r.None? <==> I.FirstInPhase(old(store.IntentTable()), I.QueuedLocal).None?
      ensures r.Some? ==> service == Reserved(r.value.receiptId)
      ensures r.Some? ==> r.value.receiptId == I.FirstInPhase(old(store.IntentTable()), I.QueuedLocal).value
    {
      ghost var before := View();
      ReserveKeeps(before);
      r := store.ClaimNext();
      if r.Some? {
        service := Reserved(r.value.receiptId);
        assert View() == DoReserve(before);
      } else {
        assert View() == before;
      }
    }

    /** Call the authority for the reservation in hand. */
    method Execute(id: Token, scripted: CallResult) returns (returned: Option<Token>, rejectable: bool)
      requires Valid() && service == Reserved(id)
      modifies core, this`service
      ensures Valid() && View() == DoCall(old(View()), Stamp(scripted, id))
      ensures service == Called(id, returned, rejectable)
      ensures core.log == old(core.log) + (if scripted.landed.Some? then [scripted.landed.value.(marker := Some(id))] else [])
      ensures core.calls == old(core.calls) + multiset{id}
      ensures returned == (if scripted.Returned? then Some(scripted.oid) else None) && (rejectable <==> scripted.Raised? && scripted.rejectable)
    {
      CallKeeps(View(), Stamp(scripted, id));
      var outcome := core.Mutate(id, scripted);
      returned, rejectable := None, false;
      if outcome.Returned? { returned := Some(outcome.oid); } else { rejectable := outcome.rejectable; }
      service := Called(id, returned, rejectable);
    }

    /** Record the verified commit that the call returned, or what the log shows. */
    method RecordSettled(id: Token, returned: Option<Token>, rejectable: bool, evidence: Evidence) returns (r: Result<I.Intent>)
      requires store.ValidIntents() && id in store.intents
      modifies store`intents
      ensures store.ValidIntents()
      ensures store.IntentTable()
        == Record(old(store.IntentTable()), id, SettleVerdict(core.log, old(store.intents)[id], Called(id, returned, rejectable), evidence))
      ensures InHand(old(store.intents)[id]) && (rejectable ==> returned.None?) ==>
        r.Ok? && SettledRow(core.log, old(store.intents), store.intents, id, returned, rejectable, I.MutationOutcomeUnknown, evidence) && r.value == store.intents[id]
    {
      var intent := store.intents[id];
      if rejectable ==> returned.None? { SettleEnds(core.log, intent, Called(id, returned, rejectable), evidence); }
      if InHand(intent) { RecordUpdates(store.IntentTable(), id, SettleVerdict(core.log, intent, Called(id, returned, rejectable), evidence)); }
      var revision := if returned.Some? then Verify(core.log, intent, returned.value, evidence) else None;
      if returned.Some? && revision.Some? {
        r := store.RecordLocalCommit(id, returned.value, revision.value);
      } else {
        r := RecordFromLog(id, evidence, if rejectable then Reject else Ambiguity(I.MutationOutcomeUnknown));
      }
    }

    /** Record what became of the reservation in hand. */
    method Conclude(id: Token, returned: Option<Token>, rejectable: bool, evidence: Evidence) returns (r: Result<I.Intent>)
      requires Valid()
      requires service == Called(id, returned, rejectable) || (service == Reserved(id) && returned.None? && !rejectable)
      modifies store`intents, this`service
      requires rejectable ==> returned.None?
      ensures Valid() && service == Idle
      ensures View() == DoSettle(old(View()), evidence)
      ensures id in old(store.intents) && old(store.intents)[id].phase == I.Running
      ensures r.Ok? && SettledRow(core.log, old(store.intents), store.intents, id, returned, rejectable, I.MutationOutcomeUnknown, evidence) && r.value == store.intents[id]
    {
      RunningInHand(View(), id);
      ghost var settled := DoSettle(View(), evidence);
      SettleKeeps(View(), evidence);
      r := RecordSettled(id, returned, rejectable, evidence);
      service := Idle;
      assert View() == settled;
    }

    /** The rest of the turn, with a reservation in hand. */
    method FinishTurn(id: Token, turn: Turn) returns (r: Result<I.Intent>)
      requires Valid() && service == Reserved(id)
      modifies store`intents, core, this`service
      ensures Valid() && service == Idle
      ensures View() == DoSettle(if turn.payloadValid then DoCall(old(View()), Stamp(turn.outcome, id)) else old(View()), turn.evidence)
      ensures r.Ok? && TurnSettles(old(core.log), core.log, old(store.intents), store.intents, id, turn) && r.value == store.intents[id]
      ensures core.calls == old(core.calls) + if turn.payloadValid then multiset{id} else multiset{}
    {
      if turn.payloadValid { r := CallAndConclude(id, turn); } else { r := Conclude(id, None, false, turn.evidence); }
    }

    method CallAndConclude(id: Token, turn: Turn) returns (r: Result<I.Intent>)
      requires Valid() && service == Reserved(id) && turn.payloadValid
      modifies store`intents, core, this`service
      ensures Valid() && service == Idle
      ensures View() == DoSettle(DoCall(old(View()), Stamp(turn.outcome, id)), turn.evidence)
      ensures r.Ok? && TurnSettles(old(core.log), core.log, old(store.intents), store.intents, id, turn) && r.value == store.intents[id]
      ensures core.calls == old(core.calls) + multiset{id}
    {
      var returned, rejectable := Execute(id, turn.outcome);
      r := Conclude(id, returned, rejectable, turn.evidence);
    }

    /** `process_one`: exactly the steps of one turn, ending idle with the claimed intent settled. */
    method ProcessOne(turn: Turn) returns (r: Option<Result<I.Intent>>)
      requires Valid() && service == Idle
      modifies store`intents, core, this`service
      ensures Valid() && service == Idle
      ensures View() == Exec(old(View()), TurnSteps(old(View()), turn))
      ensures r.None? <==> I.FirstInPhase(old(store.IntentTable()), I.QueuedLocal).None?
      // The oldest queued receipt ends as its call, or without one its payload, and the log together say.
      ensures r.Some? ==> r.value.Ok? && OldestQueued(old(store.IntentTable()), r.value.value.receiptId)
      ensures r.Some? ==>
        var id := r.value.value.receiptId;
        && TurnSettles(old(core.log), core.log, old(store.intents), store.intents, id, turn) && r.value.value == store.intents[id]
        && core.calls == old(core.calls) + if turn.payloadValid then multiset{id} else multiset{}
    {
      TurnUnfolds(View(), turn);
      FirstIsOldest(store.IntentTable());
      ghost var before := store.intents;
      var claimed := TakeNext();
      if claimed.None? { return None; }
      var id := claimed.value.receiptId;
      ghost var taken := store.intents;
      var recorded := FinishTurn(id, turn);
      SettledSinceClaim(before, taken, store.intents, id, old(core.log), core.log, turn);
      return Some(recorded);
    }

    /** Settle one interrupted reservation from the log, without executing it. */
    method RecoverReservation(id: Token, evidence: Evidence, ghost rest: seq<Token>)
      requires Valid() && service == Recovering && Pending(store.intents, [id] + rest)
      modifies store`intents
      ensures Valid() && View() == DoRecover(old(View()), id, evidence)
      ensures Pending(store.intents, rest)
      ensures if old(store.intents)[id].phase == I.Running
        then SettledRow(core.log, old(store.intents), store.intents, id, None, false, I.InterruptedBeforeCommit, evidence)
        else store.intents == old(store.intents)
    {
      assert id in [id] + rest;
      if store.intents[id].phase == I.Running { RunningInHand(View(), id); }
      ghost var recovered := DoRecover(View(), id, evidence);
      RecoverKeeps(View(), id, evidence);
      RecoverIfRunning(id, evidence);
      assert View() == recovered;
    }

    method RecoverIfRunning(id: Token, evidence: Evidence)
      requires store.ValidIntents() && id in store.intents && (store.intents[id].phase == I.Running ==> InHand(store.intents[id]))
      modifies store`intents
      ensures store.ValidIntents()
      ensures store.IntentTable() == if old(store.intents)[id].phase != I.Running then old(store.IntentTable())
        else Record(old(store.IntentTable()), id, FromLog(core.log, old(store.intents)[id], evidence, Ambiguity(I.InterruptedBeforeCommit)))
      ensures old(store.intents)[id].phase == I.Running ==>
        SettledRow(core.log, old(store.intents), store.intents, id, None, false, I.InterruptedBeforeCommit, evidence)
    {
      if store.intents[id].phase == I.Running {
        var _ := RecordFromLog(id, evidence, Ambiguity(I.InterruptedBeforeCommit));
      }
    }

    /** The loop of `recover_running`. */
    method RecoverEach(running: seq<Token>, evidence: map<Token, Evidence>)
      requires Valid() && service == Recovering && Pending(store.intents, running)
      requires forall id :: id in running ==> id in evidence
      modifies store`intents
      ensures Valid() && Pending(store.intents, [])
      ensures View() == Exec(old(View()), Recoveries(running, evidence))
    {
      ghost var start := View();
      assert running[..0] == [] && running[0..] == running;
      for i := 0 to |running|
        invariant Valid() && Pending(store.intents, running[i..])
        invariant View() == Exec(start, Recoveries(running[..i], evidence))
      {
        PeelFirst(running, i);
        RecoveriesGrow(start, running, i, evidence);
        RecoverReservation(running[i], evidence[running[i]], running[i + 1..]);
      }
      assert running[..|running|] == running && running[|running|..] == [];
    }

    /** `recover_running`, over the rows `running` listed: nothing stays running and nothing is executed again. */
    method RecoverRunning(running: seq<Token>, evidence: map<Token, Evidence>)
      requires Valid() && service == Recovering
      requires forall id :: id in running <==> id in store.intents && store.intents[id].phase == I.Running
      requires forall id :: id in running ==> id in evidence
      modifies store`intents, this`service
      ensures Valid() && service == Idle && Pending(store.intents, [])
      ensures View() == Exec(old(View()), Recoveries(running, evidence) + [RecoveryDone])
    {
      RecoverEach(running, evidence);
      ExecAppend(old(View()), Recoveries(running, evidence), RecoveryDone);
      FinishRecovery();
    }

    ghost method FinishRecovery()
      requires Valid() && service == Recovering
      requires Pending(store.intents, [])
      modifies this`service
      ensures Valid() && service == Idle && View() == DoRecoveryDone(old(View()))
    {
      RecoveryDoneKeeps(View());
      service := Idle;
    }

    /** The bounded execution loop: at most `limit` turns, stopping when nothing is queued. */
    method RunBatch(turns: seq<Turn>) returns (count: nat)
      requires Valid() && service == Idle
      modifies store`intents, core, this`service
      ensures Valid() && service == Idle && count <= |turns|
      ensures View() == AfterTurns(old(View()), turns, count)
      ensures count < |turns| ==> I.FirstInPhase(store.IntentTable(), I.QueuedLocal).None?
    {
      ghost var start := View();
      count := 0;
      while count < |turns|
        invariant Valid() && service == Idle && count <= |turns|
        invariant View() == AfterTurns(start, turns, count)
      {
        ghost var before := View();
        var result := ProcessOne(turns[count]);
        if result.None? {
          assert View() == before;
          return;
        }
        count := count + 1;
      }
    }

    /** `process_pending`: recover first, then execute the batch. */
    method ProcessPending(limit: nat, running: seq<Token>, evidence: map<Token, Evidence>, turns: seq<Turn>) returns (r: Result<nat>)
      requires Valid() && service == Recovering && |turns| == limit
      requires forall id :: id in running <==> id in store.intents && store.intents[id].phase == I.Running
      requires forall id :: id in running ==> id in evidence
      modifies store`intents, core, this`service
      ensures Valid()
      ensures r.Err? <==> !(1 <= limit <= 1024)
      ensures r.Err? ==> View() == old(View())
      ensures r.Ok? ==> r.value <= limit && (r.value < limit ==> I.FirstInPhase(store.IntentTable(), I.QueuedLocal).None?)
      ensures r.Ok? ==> View() == AfterTurns(Exec(old(View()), Recoveries(running, evidence) + [RecoveryDone]), turns, r.value)
    {
      if limit < 1 || limit > 1024 { return Err(InvalidInput); }
      RecoverRunning(running, evidence);
      var count := RunBatch(turns);
      return Ok(count);
    }
  }

  // ---- Composition of runs --------------------------------------------------

  lemma ExecConcat(w: World, a: seq<Step>, b: seq<Step>)
    ensures Exec(w, a + b) == Exec(Exec(w, a), b)
    decreases |a|
  {
    if a == [] {
      assert a + b == b;
    } else {
      assert (a + b)[1..] == a[1..] + b;
      ExecConcat(Next(w, a[0]), a[1..], b);
    }
  }

  lemma ExecAppend(w: World, steps: seq<Step>, last: Step)
    ensures Exec(w, steps + [last]) == Next(Exec(w, steps), last)
  {
    ExecConcat(w, steps, [last]);
    assert Exec(Exec(w, steps), [last]) == Exec(Next(Exec(w, steps), last), [last][1..]);
  }

  lemma RecoveriesGrow(w: World, running: seq<Token>, i: nat, evidence: map<Token, Evidence>)
    requires i < |running| && forall id :: id in running ==> id in evidence
    ensures Exec(w, Recoveries(running[..i + 1], evidence)) == DoRecover(Exec(w, Recoveries(running[..i], evidence)), running[i], evidence[running[i]])
  {
    assert running[..i + 1][..i] == running[..i];
    ExecAppend(w, Recoveries(running[..i], evidence), RecoverOne(running[i], evidence[running[i]]));
  }

  lemma TurnUnfolds(w: World, turn: Turn)
    ensures var first := I.FirstInPhase(w.table, I.QueuedLocal);
      Exec(w, TurnSteps(w, turn)) ==
        if first.None? then w
        else if turn.payloadValid then DoSettle(DoCall(DoReserve(w), Stamp(turn.outcome, first.value)), turn.evidence)
        else DoSettle(DoReserve(w), turn.evidence)
  {
    match I.FirstInPhase(w.table, I.QueuedLocal)
    case None =>
    case Some(id) =>
      var call := Stamp(turn.outcome, id);
      OneReserve(w);
      if turn.payloadValid {
        ThreeParts(w, [Reserve], [CallMutate(call)], [Settle(turn.evidence)]);
        OneCall(DoReserve(w), call);
        OneSettle(DoCall(DoReserve(w), call), turn.evidence);
      } else {
        ThreeParts(w, [Reserve], [], [Settle(turn.evidence)]);
        OneSettle(DoReserve(w), turn.evidence);
      }
  }

  lemma OneReserve(w: World)
    ensures Exec(w, [Reserve]) == DoReserve(w)
  {
    assert [Reserve][1..] == [];
  }

  lemma OneCall(w: World, outcome: CallResult)
    ensures Exec(w, [CallMutate(outcome)]) == DoCall(w, outcome)
  {
    assert [CallMutate(outcome)][1..] == [];
  }

  lemma OneSettle(w: World, evidence: Evidence)
    ensures Exec(w, [Settle(evidence)]) == DoSettle(w, evidence)
  {
    assert [Settle(evidence)][1..] == [];
  }

  lemma ThreeParts(w: World, a: seq<Step>, b: seq<Step>, c: seq<Step>)
    ensures Exec(w, a + b + c) == Exec(Exec(Exec(w, a), b), c)
  {
    ExecConcat(w, a + b, c);
    ExecConcat(w, a, b);
  }

  /** In every run, no row is running while the service is between turns. */
  lemma IdleMeansNoneRunning(steps: seq<Step>, id: Token)
    requires Exec(Start, steps).service == Idle && id in Exec(Start, steps).table.rows
    ensures Exec(Start, steps).table.rows[id].phase != I.Running
  {
    RunKeeps(Start, steps);
    if Exec(Start, steps).table.rows[id].phase == I.Running { OnlyReserved(Exec(Start, steps), id); }
  }
}
