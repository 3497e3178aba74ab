/**
 The exactly-once protocol of fast_receipt_worker.py as a state machine: the
 intent table, an append-only commit log, and one service process that may die
 between any two steps and then recovers from the log.  `Exec` is total: a step
 whose guard is false changes nothing, so the theorems speak of every step list.
 */
module ReceiptProtocol {
  import opened Common
  import opened Intents

  /** What verification reads from one commit; `exact` stands for the operation-specific delta, projection and sign-off checks. */
  datatype Commit = Commit(oid: Token, marker: Option<Token>, operation: Token, task: Token, before: int, after: int, exact: bool)

  /** Reading Git may fail; a commit may have left the active branch. */
  datatype Evidence = Evidence(logReadable: bool, activeBranch: set<Token>)

  /** How `core.mutate` ended, and the commit it landed, if any. */
  datatype CallResult =
    | Returned(oid: Token, landed: Option<Commit>)
    | Raised(rejectable: bool, landed: Option<Commit>)

  /** Where the service process stands; a crash forgets everything and leads to recovery. */
  datatype Service =
    | Recovering
    | Idle
    | Reserved(receiptId: Token)
    | Called(receiptId: Token, returned: Option<Token>, rejectable: bool)
  {
    predicate Holds(id: Token) {
      (Reserved? || Called?) && receiptId == id
    }
  }

  datatype World = World(table: Table, log: seq<Commit>, calls: multiset<Token>, service: Service, ancestry: set<(Token, Token)>)

  datatype Step =
    | Submit(key: Token, payload: Payload, freshId: Token)
    | Reserve
    | CallMutate(outcome: CallResult)
    | Settle(evidence: Evidence)
    | Crash
    | RecoverOne(receiptId: Token, evidence: Evidence)
    | RecoveryDone
    | ForeignCommit(commit: Commit)
    | LearnAncestry(pairs: set<(Token, Token)>)
    | ObserveRemote(receiptId: Token, remoteOid: Token)
    | FailPublication(receiptId: Token, code: Code)

  const Start := World(Intents.Empty, [], multiset{}, Recovering, {})

  /** The commits whose message carries this receipt's marker, oldest first. */
  function Marked(log: seq<Commit>, id: Token): seq<Commit> {
    if log == [] then []
    else
      var last := log[|log| - 1];
      var rest := Marked(log[..|log| - 1], id);
      if last.marker == Some(id) then rest + [last] else rest
  }

  /** `verify_local_commit`: the resulting revision, or nothing when any check fails. */
  function Verify(log: seq<Commit>, r: Intent, oid: Token, evidence: Evidence): (revision: Option<int>)
    ensures revision.Some? ==> revision.value == r.payload.expectedRevision + 1
  {
    var i := IndexWhere(log, (c: Commit) => c.oid == oid);
    if !evidence.logReadable || oid !in evidence.activeBranch || i == |log| then None
    else
      var c := log[i];
      if c.marker == Some(r.receiptId) && c.operation == r.payload.operation && c.task == r.payload.task
         && c.before == r.payload.expectedRevision && c.after == r.payload.expectedRevision + 1 && c.exact
      then Some(r.payload.expectedRevision + 1) else None
  }

  datatype Verdict = Local(oid: Token, revision: int) | Reject | Ambiguity(code: Code)

  /** `find_receipt_commit` and verification of what it finds: the `except` arm of `process_one`, and recovery. */
  function FromLog(log: seq<Commit>, r: Intent, evidence: Evidence, nothing: Verdict): Verdict {
    var found := Marked(log, r.receiptId);
    if !evidence.logReadable || |found| > 1 then Ambiguity(CommitEvidenceUnknown)
    else if |found| == 0 then nothing
    else match Verify(log, r, found[0].oid, evidence)
      case Some(revision) => Local(found[0].oid, revision)
      case None => Ambiguity(CommitEvidenceUnknown)
  }

  function SettleVerdict(log: seq<Commit>, r: Intent, service: Service, evidence: Evidence): Verdict {
    var failed := if service.Called? && service.rejectable then Reject else Ambiguity(MutationOutcomeUnknown);
    if service.Called? && service.returned.Some? && Verify(log, r, service.returned.value, evidence).Some?
    then Local(service.returned.value, r.payload.expectedRevision + 1)
    else FromLog(log, r, evidence, failed)
  }

  function Record(t: Table, id: Token, verdict: Verdict): Table {
    match verdict
    case Local(oid, revision) => RecordLocal(t, id, oid, revision).table
    case Reject => RecordRejection(t, id, AdmissionRejected).table
    case Ambiguity(code) => RecordAmbiguity(t, id, code).table
  }

  function Land(log: seq<Commit>, landed: Option<Commit>): seq<Commit> {
    if landed.Some? then log + [landed.value] else log
  }

  function DoSubmit(w: World, key: Token, payload: Payload, freshId: Token): World {
    if freshId in w.table.rows then w else w.(table := Enqueue(w.table, key, payload, freshId).table)
  }

  function DoReserve(w: World): World {
    if w.service != Idle || FirstInPhase(w.table, QueuedLocal).None? then w
    else w.(table := ClaimNext(w.table).table, service := Reserved(FirstInPhase(w.table, QueuedLocal).value))
  }

  /** A landed commit carries the reservation's marker: nobody else writes it. */
  function DoCall(w: World, outcome: CallResult): World {
    if !w.service.Reserved? || (outcome.landed.Some? && outcome.landed.value.marker != Some(w.service.receiptId)) then w
    else
      var id := w.service.receiptId;
      w.(calls := w.calls + multiset{id}, log := Land(w.log, outcome.landed),
         service := Called(id, if outcome.Returned? then Some(outcome.oid) else None, outcome.Raised? && outcome.rejectable))
  }

  function DoSettle(w: World, evidence: Evidence): World {
    if !(w.service.Reserved? || w.service.Called?) || w.service.receiptId !in w.table.rows then w
    else
      var id := w.service.receiptId;
      w.(table := Record(w.table, id, SettleVerdict(w.log, w.table.rows[id], w.service, evidence)), service := Idle)
  }

  function DoRecover(w: World, id: Token, evidence: Evidence): World {
    if !w.service.Recovering? || id !in w.table.rows || w.table.rows[id].phase != Running then w
    else w.(table := Record(w.table, id, FromLog(w.log, w.table.rows[id], evidence, Ambiguity(InterruptedBeforeCommit))))
  }

  function DoRecoveryDone(w: World): World {
    if w.service.Recovering? && FirstInPhase(w.table, Running).None? then w.(service := Idle) else w
  }

  function DoForeign(w: World, commit: Commit): World {
    if commit.marker.None? then w.(log := w.log + [commit]) else w
  }

  function DoObserve(w: World, id: Token, remoteOid: Token): World {
    if id in w.table.rows && w.table.rows[id].commitOid.Some? && (w.table.rows[id].commitOid.value, remoteOid) in w.ancestry
    then w.(table := RecordRemote(w.table, id, remoteOid).table) else w
  }

  function DoFail(w: World, id: Token, code: Code): World {
    w.(table := RecordPublicationFailure(w.table, id, code).table)
  }

  function Next(w: World, step: Step): World {
    match step
    case Submit(key, payload, freshId) => DoSubmit(w, key, payload, freshId)
    case Reserve => DoReserve(w)
    case CallMutate(outcome) => DoCall(w, outcome)
    case Settle(evidence) => DoSettle(w, evidence)
    case Crash => w.(service := Recovering)
    case RecoverOne(id, evidence) => DoRecover(w, id, evidence)
    case RecoveryDone => DoRecoveryDone(w)
    case ForeignCommit(commit) => DoForeign(w, commit)
    case LearnAncestry(pairs) => w.(ancestry := w.ancestry + pairs)
    case ObserveRemote(id, remoteOid) => DoObserve(w, id, remoteOid)
    case FailPublication(id, code) => DoFail(w, id, code)
  }

  function Exec(w: World, steps: seq<Step>): World
    decreases |steps|
  {
    if steps == [] then w else Exec(Next(w, steps[0]), steps[1..])
  }

  // ---- The invariant --------------------------------------------------------

  /** The row names the only commit carrying its marker, and that commit advanced the fenced revision by one. */
  ghost predicate Evidenced(found: seq<Commit>, r: Intent) {
    && |found| == 1
    && r.commitOid == Some(found[0].oid)
    && found[0].task == r.payload.task && found[0].operation == r.payload.operation
    && found[0].before == r.payload.expectedRevision
    && found[0].after == r.payload.expectedRevision + 1
    && r.resultRevision == Some(r.payload.expectedRevision + 1)
  }

  /** What one row may claim, given the commits marked for it, the calls made for it and the service. */
  ghost predicate RowOk(found: seq<Commit>, calls: nat, service: Service, ancestry: set<(Token, Token)>, r: Intent) {
    && |found| <= calls <= 1
    && r.payload.expectedRevision >= 1
    && (r.phase == QueuedLocal ==> calls == 0)
    && (r.phase == Running ==> service.Recovering? || service.Holds(r.receiptId))
    && (r.phase == Rejected ==> found == [])
    && (r.phase == CompletedLocal || r.phase == PublishedRemote ==> Evidenced(found, r))
    && (r.phase == PublishedRemote ==> r.remoteOid.Some? && (r.commitOid.value, r.remoteOid.value) in ancestry)
  }

  ghost predicate RowsOk(w: World) {
    forall id :: id in w.table.rows ==> RowOk(Marked(w.log, id), w.calls[id], w.service, w.ancestry, w.table.rows[id])
  }

  /** Calls and marked commits exist only for receipts of the table. */
  ghost predicate NoStrays(w: World) {
    forall id :: id !in w.table.rows ==> w.calls[id] == 0 && Marked(w.log, id) == []
  }

  ghost predicate ServiceOk(w: World) {
    && (w.service.Reserved? || w.service.Called? ==> w.service.receiptId in w.table.rows && w.table.rows[w.service.receiptId].phase == Running)
    && (w.service.Reserved? ==> w.calls[w.service.receiptId] == 0)
  }

  ghost predicate Inv(w: World) {
    Valid(w.table) && RowsOk(w) && NoStrays(w) && ServiceOk(w)
  }

  // ---- Small facts ----------------------------------------------------------

  lemma MarkedAppend(log: seq<Commit>, c: Commit, id: Token)
    ensures Marked(log + [c], id) == if c.marker == Some(id) then Marked(log, id) + [c] else Marked(log, id)
  {
    assert (log + [c])[..|log|] == log;
  }

  lemma MarkedComplete(log: seq<Commit>, c: Commit, id: Token)
    requires c in log && c.marker == Some(id)
    ensures c in Marked(log, id)
  {
    if log[|log| - 1] != c { MarkedComplete(log[..|log| - 1], c, id); }
  }

  lemma VerifiedIsEvidence(log: seq<Commit>, r: Intent, oid: Token, evidence: Evidence)
    requires Verify(log, r, oid, evidence).Some? && |Marked(log, r.receiptId)| <= 1
    ensures Evidenced(Marked(log, r.receiptId), r.(commitOid := Some(oid), resultRevision := Some(r.payload.expectedRevision + 1)))
  {
    MarkedComplete(log, log[IndexWhere(log, (c: Commit) => c.oid == oid)], r.receiptId);
  }

  /** A verdict is sound when it only says what the log shows. */
  ghost predicate Sound(found: seq<Commit>, r: Intent, v: Verdict) {
    && (v.Local? ==> v.revision == r.payload.expectedRevision + 1
                     && Evidenced(found, r.(commitOid := Some(v.oid), resultRevision := Some(v.revision))))
    && (v.Reject? ==> found == [])
  }

  lemma FromLogSound(log: seq<Commit>, r: Intent, evidence: Evidence, nothing: Verdict)
    requires |Marked(log, r.receiptId)| <= 1 && !nothing.Local?
    ensures Sound(Marked(log, r.receiptId), r, FromLog(log, r, evidence, nothing))
  {
    var found := Marked(log, r.receiptId);
    if |found| == 1 && Verify(log, r, found[0].oid, evidence).Some? {
      VerifiedIsEvidence(log, r, found[0].oid, evidence);
    }
  }

  lemma SettleSound(log: seq<Commit>, r: Intent, service: Service, evidence: Evidence)
    requires |Marked(log, r.receiptId)| <= 1
    ensures Sound(Marked(log, r.receiptId), r, SettleVerdict(log, r, service, evidence))
  {
    FromLogSound(log, r, evidence, if service.Called? && service.rejectable then Reject else Ambiguity(MutationOutcomeUnknown));
    if service.Called? && service.returned.Some? && Verify(log, r, service.returned.value, evidence).Some? {
      VerifiedIsEvidence(log, r, service.returned.value, evidence);
    }
  }

  function Conclusion(v: Verdict): Ending {
    match v
    case Local(oid, revision) => Ending(CompletedLocal, Some(oid), Some(revision), None)
    case Reject => Ending(Rejected, None, None, Some(AdmissionRejected))
    case Ambiguity(code) => Ending(Ambiguous, None, None, Some(code))
  }

  lemma RecordUpdates(t: Table, id: Token, v: Verdict)
    requires id in t.rows && t.rows[id].phase == Running && t.rows[id].receiptId == id && t.rows[id].payload.expectedRevision >= 1
    requires v.Local? ==> v.revision == t.rows[id].payload.expectedRevision + 1
    ensures Record(t, id, v) == Update(t, Ended(t.rows[id], Conclusion(v)))
  {
  }

  // ---- What a settlement must say -------------------------------------------

  /** This commit is the receipt's own and did exactly what the intent asked for. */
  predicate Fits(c: Commit, r: Intent) {
    && c.marker == Some(r.receiptId) && c.operation == r.payload.operation && c.task == r.payload.task
    && c.before == r.payload.expectedRevision && c.after == r.payload.expectedRevision + 1 && c.exact
  }

  /** The object id names a fitting commit, which can be read and is on the active branch. */
  ghost predicate Proven(log: seq<Commit>, r: Intent, oid: Token, evidence: Evidence) {
    && evidence.logReadable && oid in evidence.activeBranch
    && exists k: nat :: k < |log| && log[k].oid == oid && (forall j :: 0 <= j < k ==> log[j].oid != oid) && Fits(log[k], r)
  }

  ghost predicate OnlyMarked(log: seq<Commit>, id: Token, k: nat) {
    k < |log| && forall j :: 0 <= j < |log| ==> (log[j].marker == Some(id) <==> j == k)
  }

  predicate NoneMarked(log: seq<Commit>, id: Token) {
    forall j :: 0 <= j < |log| ==> log[j].marker != Some(id)
  }

  /** The commit that completes a receipt: the one that the call returned, or else the only one that carries the marker. */
  ghost predicate Completes(log: seq<Commit>, r: Intent, returned: Option<Token>, oid: Token, evidence: Evidence) {
    && Proven(log, r, oid, evidence)
    && (returned == Some(oid)
        || ((returned.None? || !Proven(log, r, returned.value, evidence)) && exists k: nat :: OnlyMarked(log, r.receiptId, k) && log[k].oid == oid))
  }

  /** How a reservation ends: completed exactly if some commit completes it; rejected exactly if the log can be read, holds no commit of
      the receipt, and the call was refused; otherwise ambiguous, and `unmarked` says why when the log holds nothing. */
  ghost predicate EndsBy(log: seq<Commit>, before: Intent, after: Intent, returned: Option<Token>, refused: bool, unmarked: Code, evidence: Evidence) {
    && after.receiptId == before.receiptId && after.key == before.key && after.payload == before.payload
    && after.remoteOid == before.remoteOid && after.publicationError == before.publicationError
    && (after.phase == CompletedLocal || after.phase == Rejected || after.phase == Ambiguous)
    && (forall oid: Token :: Completes(log, before, returned, oid, evidence) ==> after.phase == CompletedLocal && after.commitOid == Some(oid))
    && (after.phase == CompletedLocal ==>
      && after.commitOid.Some? && Completes(log, before, returned, after.commitOid.value, evidence)
      && after.resultRevision == Some(before.payload.expectedRevision + 1) && after.errorCode == None)
    && (after.phase == Rejected <==> evidence.logReadable && NoneMarked(log, before.receiptId) && refused)
    && (after.phase == Rejected ==> after.errorCode == Some(AdmissionRejected))
    && (after.phase == Ambiguous ==>
      after.errorCode == Some(if evidence.logReadable && NoneMarked(log, before.receiptId) then unmarked else CommitEvidenceUnknown))
    && (after.phase != CompletedLocal ==> after.commitOid == None && after.resultRevision == None)
  }

  lemma VerifyIffProven(log: seq<Commit>, r: Intent, oid: Token, evidence: Evidence)
    ensures Verify(log, r, oid, evidence).Some? <==> Proven(log, r, oid, evidence)
  {
    var i := IndexWhere(log, (c: Commit) => c.oid == oid);
    if Proven(log, r, oid, evidence) {
      var k: nat :| k < |log| && log[k].oid == oid && (forall j :: 0 <= j < k ==> log[j].oid != oid) && Fits(log[k], r);
      assert i == k;
    }
  }

  lemma {:induction false} MarkedNone(log: seq<Commit>, id: Token)
    ensures Marked(log, id) == [] <==> NoneMarked(log, id)
    decreases |log|
  {
    if log != [] {
      var init := log[..|log| - 1];
      MarkedNone(init, id);
      assert forall j :: 0 <= j < |init| ==> init[j] == log[j];
    }
  }

  lemma {:induction false} MarkedOnly(log: seq<Commit>, id: Token, k: nat)
    requires OnlyMarked(log, id, k)
    ensures Marked(log, id) == [log[k]]
    decreases |log|
  {
    var init := log[..|log| - 1];
    if k < |init| {
      assert OnlyMarked(init, id, k);
      MarkedOnly(init, id, k);
    } else {
      MarkedNone(init, id);
    }
  }

  lemma {:induction false} OneMarked(log: seq<Commit>, id: Token) returns (k: nat)
    requires |Marked(log, id)| == 1
    ensures OnlyMarked(log, id, k)
    decreases |log|
  {
    var init := log[..|log| - 1];
    if log[|log| - 1].marker == Some(id) {
      MarkedNone(init, id);
      k := |init|;
    } else {
      k := OneMarked(init, id);
    }
  }

  /** One marked commit found is the only one there, none found means none. */
  lemma MarkedCounts(log: seq<Commit>, id: Token)
    ensures Marked(log, id) == [] <==> NoneMarked(log, id)
    ensures |Marked(log, id)| == 1 <==> exists k: nat :: OnlyMarked(log, id, k)
    ensures forall k: nat :: OnlyMarked(log, id, k) ==> Marked(log, id) == [log[k]]
  {
    MarkedNone(log, id);
    forall k: nat | OnlyMarked(log, id, k) ensures Marked(log, id) == [log[k]] { MarkedOnly(log, id, k); }
    if |Marked(log, id)| == 1 { var k := OneMarked(log, id); }
  }

  /** A completing commit is unique. */
  lemma CompletesOnce(log: seq<Commit>, r: Intent, returned: Option<Token>, a: Token, b: Token, evidence: Evidence)
    requires Completes(log, r, returned, a, evidence) && Completes(log, r, returned, b, evidence)
    ensures a == b
  {
    if returned != Some(a) && returned != Some(b) {
      var i: nat :| OnlyMarked(log, r.receiptId, i) && log[i].oid == a;
      var j: nat :| OnlyMarked(log, r.receiptId, j) && log[j].oid == b;
    }
  }

  lemma LocalCompletes(log: seq<Commit>, r: Intent, returned: Option<Token>, evidence: Evidence, oid: Token)
    requires Completes(log, r, returned, oid, evidence)
    ensures |Marked(log, r.receiptId)| > 0
  {
    MarkedCounts(log, r.receiptId);
  }

  /** What the log alone shows. */
  lemma FromLogEnds(log: seq<Commit>, r: Intent, evidence: Evidence, nothing: Verdict, unmarked: Code)
    requires nothing == Reject || nothing == Ambiguity(unmarked)
    ensures EndsBy(log, r, Ended(r, Conclusion(FromLog(log, r, evidence, nothing))), None, nothing == Reject, unmarked, evidence)
  {
    var id, found := r.receiptId, Marked(log, r.receiptId);
    MarkedCounts(log, id);
    if |found| == 1 {
      VerifyIffProven(log, r, found[0].oid, evidence);
      var k: nat :| OnlyMarked(log, id, k);
      assert log[k].oid == found[0].oid;
    }
  }

  lemma SettleEnds(log: seq<Commit>, r: Intent, service: Service, evidence: Evidence)
    requires service.Reserved? || (service.Called? && (service.rejectable ==> service.returned.None?))
    ensures EndsBy(log, r, Ended(r, Conclusion(SettleVerdict(log, r, service, evidence))),
      if service.Called? then service.returned else None, service.Called? && service.rejectable, MutationOutcomeUnknown, evidence)
  {
    var refused := service.Called? && service.rejectable;
    var returned := if service.Called? then service.returned else None;
    if returned.Some? { VerifyIffProven(log, r, returned.value, evidence); }
    if returned.Some? && Proven(log, r, returned.value, evidence) {
      assert Completes(log, r, returned, returned.value, evidence);
      LocalCompletes(log, r, returned, evidence, returned.value);
      MarkedCounts(log, r.receiptId);
      forall oid: Token | Completes(log, r, returned, oid, evidence) ensures oid == returned.value { CompletesOnce(log, r, returned, oid, returned.value, evidence); }
    } else {
      FromLogEnds(log, r, evidence, if refused then Reject else Ambiguity(MutationOutcomeUnknown), MutationOutcomeUnknown);
      forall oid: Token ensures Completes(log, r, returned, oid, evidence) <==> Completes(log, r, None, oid, evidence) {}
    }
  }

  // ---- Every step keeps the invariant --------------------------------------

  lemma UpdateValid(t: Table, r: Intent)
    requires Valid(t) && r.receiptId in t.rows && r.key == t.rows[r.receiptId].key
    ensures Valid(Update(t, r))
  {
  }

  /** Rewriting one row, consistently with the log, while the service moves on. */
  lemma OneRow(w: World, r: Intent, service: Service)
    requires Inv(w) && r.receiptId in w.table.rows && r.key == w.table.rows[r.receiptId].key
    requires RowOk(Marked(w.log, r.receiptId), w.calls[r.receiptId], service, w.ancestry, r)
    requires forall id :: id in w.table.rows && id != r.receiptId && w.table.rows[id].phase == Running ==> service.Recovering? || service.Holds(id)
    requires ServiceOk(w.(table := Update(w.table, r), service := service))
    ensures Inv(w.(table := Update(w.table, r), service := service))
  {
    UpdateValid(w.table, r);
    var w' := w.(table := Update(w.table, r), service := service);
    assert RowsOk(w') by {
      forall id | id in w'.table.rows ensures RowOk(Marked(w.log, id), w.calls[id], service, w.ancestry, w'.table.rows[id]) {
        if id != r.receiptId { assert RowOk(Marked(w.log, id), w.calls[id], w.service, w.ancestry, w.table.rows[id]); }
      }
    }
  }

  /** The running rows are the reservation in hand, or anything while recovering. */
  lemma OnlyReserved(w: World, id: Token)
    requires Inv(w) && id in w.table.rows && w.table.rows[id].phase == Running
    ensures w.service.Recovering? || w.service.Holds(id)
  {
    assert RowOk(Marked(w.log, id), w.calls[id], w.service, w.ancestry, w.table.rows[id]);
  }

  lemma SubmitKeeps(w: World, key: Token, payload: Payload, freshId: Token)
    requires Inv(w)
    ensures Inv(DoSubmit(w, key, payload, freshId))
  {
    var r := NewIntent(freshId, key, payload);
    var w' := w.(table := Insert(w.table, r));
    if DoSubmit(w, key, payload, freshId) != w {
      assert DoSubmit(w, key, payload, freshId) == w';
      assert Valid(w'.table);
      assert RowsOk(w') by {
        forall id | id in w'.table.rows ensures RowOk(Marked(w.log, id), w.calls[id], w.service, w.ancestry, w'.table.rows[id]) {
          if id != freshId { assert RowOk(Marked(w.log, id), w.calls[id], w.service, w.ancestry, w.table.rows[id]); }
        }
      }
    }
  }

  lemma ReserveKeeps(w: World)
    requires Inv(w)
    ensures Inv(DoReserve(w))
  {
    var first := FirstInPhase(w.table, QueuedLocal);
    if w.service == Idle && first.Some? {
      var r := w.table.rows[first.value].(phase := Running);
      assert RowOk(Marked(w.log, first.value), w.calls[first.value], w.service, w.ancestry, w.table.rows[first.value]);
      forall id | id in w.table.rows && w.table.rows[id].phase == Running ensures false { OnlyReserved(w, id); }
      OneRow(w, r, Reserved(first.value));
    }
  }

  lemma CallKeeps(w: World, outcome: CallResult)
    requires Inv(w)
    ensures Inv(DoCall(w, outcome))
  {
    var w' := DoCall(w, outcome);
    if w' != w {
      forall id ensures Marked(w'.log, id) == if outcome.landed.Some? && id == w.service.receiptId then Marked(w.log, id) + [outcome.landed.value] else Marked(w.log, id) {
        if outcome.landed.Some? { MarkedAppend(w.log, outcome.landed.value, id); }
      }
      assert RowsOk(w') by {
        forall id | id in w'.table.rows ensures RowOk(Marked(w'.log, id), w'.calls[id], w'.service, w'.ancestry, w'.table.rows[id]) {
          assert RowOk(Marked(w.log, id), w.calls[id], w.service, w.ancestry, w.table.rows[id]);
        }
      }
    }
  }

  lemma EndedRowOk(found: seq<Commit>, calls: nat, service: Service, ancestry: set<(Token, Token)>, r: Intent, v: Verdict, next: Service)
    requires r.phase == Running && RowOk(found, calls, service, ancestry, r) && Sound(found, r, v)
    ensures RowOk(found, calls, next, ancestry, Ended(r, Conclusion(v))) && Ended(r, Conclusion(v)).phase != Running
  {
  }

  lemma VerdictKeeps(w: World, id: Token, v: Verdict, service: Service)
    requires Inv(w) && id in w.table.rows && w.table.rows[id].phase == Running
    requires Sound(Marked(w.log, id), w.table.rows[id], v)
    requires (service.Idle? && w.service.Holds(id)) || (service.Recovering? && w.service.Recovering?)
    ensures Inv(w.(table := Record(w.table, id, v), service := service))
    ensures Record(w.table, id, v) == Update(w.table, Ended(w.table.rows[id], Conclusion(v)))
  {
    var r := w.table.rows[id];
    assert RowOk(Marked(w.log, id), w.calls[id], w.service, w.ancestry, r);
    RecordUpdates(w.table, id, v);
    EndedRowOk(Marked(w.log, id), w.calls[id], w.service, w.ancestry, r, v, service);
    forall other | other in w.table.rows && other != id && w.table.rows[other].phase == Running ensures service.Recovering? {
      OnlyReserved(w, other);
    }
    OneRow(w, Ended(r, Conclusion(v)), service);
  }

  lemma SettleKeeps(w: World, evidence: Evidence)
    requires Inv(w)
    ensures Inv(DoSettle(w, evidence))
  {
    if w.service.Reserved? || w.service.Called? {
      var id := w.service.receiptId;
      var r := w.table.rows[id];
      assert RowOk(Marked(w.log, id), w.calls[id], w.service, w.ancestry, r);
      SettleSound(w.log, r, w.service, evidence);
      VerdictKeeps(w, id, SettleVerdict(w.log, r, w.service, evidence), Idle);
    }
  }

  lemma RecoverKeeps(w: World, id: Token, evidence: Evidence)
    requires Inv(w)
    ensures Inv(DoRecover(w, id, evidence))
    ensures w.service.Recovering? && id in w.table.rows ==>
              exists r: Intent :: r.receiptId == id && r.phase != Running && DoRecover(w, id, evidence).table == Update(w.table, r)
  {
    if w.service.Recovering? && id in w.table.rows {
      var r := w.table.rows[id];
      assert RowOk(Marked(w.log, id), w.calls[id], w.service, w.ancestry, r);
      if r.phase == Running {
        FromLogSound(w.log, r, evidence, Ambiguity(InterruptedBeforeCommit));
        var v := FromLog(w.log, r, evidence, Ambiguity(InterruptedBeforeCommit));
        VerdictKeeps(w, id, v, Recovering);
        assert Ended(r, Conclusion(v)).phase != Running;
      } else {
        assert w.table == Update(w.table, r);
      }
    }
  }

  lemma RecoveryDoneKeeps(w: World)
    requires Inv(w)
    ensures Inv(DoRecoveryDone(w))
  {
    if w.service.Recovering? && FirstInPhase(w.table, Running).None? {
      var w' := w.(service := Idle);
      forall id | id in w'.table.rows ensures RowOk(Marked(w.log, id), w.calls[id], Idle, w.ancestry, w.table.rows[id]) {
        assert RowOk(Marked(w.log, id), w.calls[id], w.service, w.ancestry, w.table.rows[id]);
        assert id in w.table.order;
      }
    }
  }

  lemma ForeignKeeps(w: World, commit: Commit)
    requires Inv(w)
    ensures Inv(DoForeign(w, commit))
  {
    if commit.marker.None? {
      forall id ensures Marked(w.log + [commit], id) == Marked(w.log, id) { MarkedAppend(w.log, commit, id); }
    }
  }

  lemma ObserveKeeps(w: World, id: Token, remoteOid: Token)
    requires Inv(w)
    ensures Inv(DoObserve(w, id, remoteOid))
  {
    if DoObserve(w, id, remoteOid) != w {
      var r := w.table.rows[id];
      assert RowOk(Marked(w.log, id), w.calls[id], w.service, w.ancestry, r);
      forall other | other in w.table.rows && w.table.rows[other].phase == Running ensures w.service.Recovering? || w.service.Holds(other) {
        OnlyReserved(w, other);
      }
      OneRow(w, r.(phase := PublishedRemote, remoteOid := Some(remoteOid), publicationError := None), w.service);
    }
  }

  lemma FailKeeps(w: World, id: Token, code: Code)
    requires Inv(w)
    ensures Inv(DoFail(w, id, code))
  {
    if DoFail(w, id, code) != w {
      var r := w.table.rows[id];
      assert RowOk(Marked(w.log, id), w.calls[id], w.service, w.ancestry, r);
      forall other | other in w.table.rows && w.table.rows[other].phase == Running ensures w.service.Recovering? || w.service.Holds(other) {
        OnlyReserved(w, other);
      }
      OneRow(w, r.(publicationError := Some(code)), w.service);
    }
  }

  /** A crash loses the reservation in hand; knowledge of ancestry only grows. */
  lemma WeakenKeeps(w: World, w': World)
    requires Inv(w) && w' == w.(service := w'.service, ancestry := w'.ancestry)
    requires w'.service == w.service || w'.service == Recovering
    requires w.ancestry <= w'.ancestry
    ensures Inv(w')
  {
    forall id | id in w'.table.rows ensures RowOk(Marked(w.log, id), w.calls[id], w'.service, w'.ancestry, w.table.rows[id]) {
      assert RowOk(Marked(w.log, id), w.calls[id], w.service, w.ancestry, w.table.rows[id]);
    }
  }

  lemma StepKeeps(w: World, step: Step)
    requires Inv(w)
    ensures Inv(Next(w, step))
  {
    match step
    case Submit(key, payload, freshId) => SubmitKeeps(w, key, payload, freshId);
    case Reserve => ReserveKeeps(w);
    case CallMutate(outcome) => CallKeeps(w, outcome);
    case Settle(evidence) => SettleKeeps(w, evidence);
    case Crash => WeakenKeeps(w, w.(service := Recovering));
    case RecoverOne(id, evidence) => RecoverKeeps(w, id, evidence);
    case RecoveryDone => RecoveryDoneKeeps(w);
    case ForeignCommit(commit) => ForeignKeeps(w, commit);
    case LearnAncestry(pairs) => WeakenKeeps(w, w.(ancestry := w.ancestry + pairs));
    case ObserveRemote(id, remoteOid) => ObserveKeeps(w, id, remoteOid);
    case FailPublication(id, code) => FailKeeps(w, id, code);
  }

  lemma {:induction false} RunKeeps(w: World, steps: seq<Step>)
    requires Inv(w)
    ensures Inv(Exec(w, steps))
    decreases |steps|
  {
    if steps != [] {
      StepKeeps(w, steps[0]);
      RunKeeps(Next(w, steps[0]), steps[1..]);
    }
  }

  // ---- Progress is one-way --------------------------------------------------

  function Rank(p: Phase): nat {
    match p
    case QueuedLocal => 0
    case Running => 1
    case CompletedLocal => 2
    case _ => 3
  }

  /** What time may do to one row: identity is fixed, phases only advance, outcomes stick. */
  ghost predicate Advances(a: Intent, b: Intent) {
    && a.receiptId == b.receiptId && a.key == b.key && a.payload == b.payload
    && Rank(a.phase) <= Rank(b.phase)
    && (Rank(a.phase) == 3 ==> a == b)
    && (a.phase == CompletedLocal ==>
          b.phase in {CompletedLocal, PublishedRemote} && a.commitOid == b.commitOid && a.resultRevision == b.resultRevision)
  }

  ghost predicate TableAdvances(a: Table, b: Table) {
    forall id :: id in a.rows ==> id in b.rows && Advances(a.rows[id], b.rows[id])
  }

  lemma UpdateAdvances(t: Table, r: Intent)
    requires r.receiptId in t.rows && Advances(t.rows[r.receiptId], r)
    ensures TableAdvances(t, Update(t, r))
  {
  }

  lemma FinishAdvances(t: Table, id: Token, e: Ending)
    requires Valid(t) && (e.phase in {CompletedLocal, Rejected, Ambiguous})
    ensures TableAdvances(t, FinishRunning(t, id, e).table)
  {
    if id in t.rows && t.rows[id].phase == Running { UpdateAdvances(t, Ended(t.rows[id], e)); }
  }

  lemma RecordAdvances(t: Table, id: Token, v: Verdict)
    requires Valid(t)
    ensures TableAdvances(t, Record(t, id, v))
  {
    FinishAdvances(t, id, Conclusion(v));
  }

  lemma SettleAdvances(w: World, evidence: Evidence)
    requires Valid(w.table)
    ensures TableAdvances(w.table, DoSettle(w, evidence).table)
  {
    if (w.service.Reserved? || w.service.Called?) && w.service.receiptId in w.table.rows {
      RecordAdvances(w.table, w.service.receiptId, SettleVerdict(w.log, w.table.rows[w.service.receiptId], w.service, evidence));
    }
  }

  lemma RecoverAdvances(w: World, id: Token, evidence: Evidence)
    requires Valid(w.table)
    ensures TableAdvances(w.table, DoRecover(w, id, evidence).table)
  {
    if id in w.table.rows { RecordAdvances(w.table, id, FromLog(w.log, w.table.rows[id], evidence, Ambiguity(InterruptedBeforeCommit))); }
  }

  lemma PublishAdvances(w: World, id: Token, remoteOid: Token, code: Code)
    requires Valid(w.table)
    ensures TableAdvances(w.table, DoObserve(w, id, remoteOid).table) && TableAdvances(w.table, DoFail(w, id, code).table)
  {
    if id in w.table.rows && w.table.rows[id].phase == CompletedLocal {
      UpdateAdvances(w.table, w.table.rows[id].(phase := PublishedRemote, remoteOid := Some(remoteOid), publicationError := None));
      UpdateAdvances(w.table, w.table.rows[id].(publicationError := Some(code)));
    }
  }

  lemma ReserveAdvances(w: World)
    requires Valid(w.table)
    ensures TableAdvances(w.table, DoReserve(w).table)
  {
    var first := FirstInPhase(w.table, QueuedLocal);
    if first.Some? { UpdateAdvances(w.table, w.table.rows[first.value].(phase := Running)); }
  }

  lemma SubmitAdvances(w: World, key: Token, payload: Payload, freshId: Token)
    requires Valid(w.table)
    ensures TableAdvances(w.table, DoSubmit(w, key, payload, freshId).table)
  {
  }

  lemma SameTableAdvances(t: Table)
    ensures TableAdvances(t, t)
  {
  }

  lemma StepAdvances(w: World, step: Step)
    requires Valid(w.table)
    ensures TableAdvances(w.table, Next(w, step).table)
  {
    match step
    case Submit(key, payload, freshId) => SubmitAdvances(w, key, payload, freshId);
    case Reserve => ReserveAdvances(w);
    case Settle(evidence) => SettleAdvances(w, evidence);
    case RecoverOne(id, evidence) => RecoverAdvances(w, id, evidence);
    case ObserveRemote(id, remoteOid) => PublishAdvances(w, id, remoteOid, LocalBranchMoved);
    case FailPublication(id, code) => PublishAdvances(w, id, 0, code);
    case _ => SameTableAdvances(w.table);
  }

  lemma {:induction false} RunAdvances(w: World, steps: seq<Step>)
    requires Inv(w)
    ensures TableAdvances(w.table, Exec(w, steps).table)
    decreases |steps|
  {
    if steps != [] {
      var next := Next(w, steps[0]);
      StepKeeps(w, steps[0]);
      StepAdvances(w, steps[0]);
      RunAdvances(next, steps[1..]);
    }
  }

  // ---- Main results ---------------------------------------------------------

  /** In every run, crashes included, a key has one receipt, which causes at most one `core.mutate` call and at most one marked commit. */
  lemma AtMostOnce(steps: seq<Step>, id: Token)
    requires id in Exec(Start, steps).table.rows
    ensures var w := Exec(Start, steps);
      && |Marked(w.log, id)| <= w.calls[id] <= 1
      && forall other :: other in w.table.rows && w.table.rows[other].key == w.table.rows[id].key ==> other == id
  {
    RunKeeps(Start, steps);
  }

  /** What a receipt says is what the log holds: completion names the only marked commit, rejection means there is none. */
  lemma ReceiptsMatchLog(steps: seq<Step>, id: Token)
    requires id in Exec(Start, steps).table.rows
    ensures var w := Exec(Start, steps); var r := w.table.rows[id];
      && (r.phase == CompletedLocal || r.phase == PublishedRemote ==> Evidenced(Marked(w.log, id), r))
      && (r.phase == Rejected ==> Marked(w.log, id) == [])
      && (r.phase == QueuedLocal ==> w.calls[id] == 0)
      && (r.phase == PublishedRemote ==> r.remoteOid.Some? && (r.commitOid.value, r.remoteOid.value) in w.ancestry)
  {
    RunKeeps(Start, steps);
  }

  /** Whatever happens after a reservation, its intent is never queued again and a final outcome never changes. */
  lemma OutcomesStick(before: seq<Step>, after: seq<Step>, id: Token)
    requires id in Exec(Start, before).table.rows
    ensures var w0 := Exec(Start, before); var w := Exec(w0, after);
      && id in w.table.rows && Advances(w0.table.rows[id], w.table.rows[id])
      && (w0.table.rows[id].phase != QueuedLocal ==> w.table.rows[id].phase != QueuedLocal)
  {
    RunKeeps(Start, before);
    RunAdvances(Exec(Start, before), after);
  }

  /** Resubmitting a key, at any later time: the same receipt for the same input, a refusal for other input, no new row either way. */
  lemma ReplayIsStable(before: seq<Step>, after: seq<Step>, id: Token, payload: Payload, freshId: Token)
    requires id in Exec(Start, before).table.rows && payload.expectedRevision >= 1
    ensures var r := Exec(Start, before).table.rows[id]; var w := Exec(Exec(Start, before), after);
      var out := Enqueue(w.table, r.key, payload, freshId);
      && out.table == w.table
      && (out.reply.Ok? <==> payload == r.payload)
      && (out.reply.Ok? ==> out.reply.value.receiptId == id)
  {
    OutcomesStick(before, after, id);
    RunKeeps(Start, before);
    RunKeeps(Exec(Start, before), after);
  }

  // ---- First come, first served ---------------------------------------------

  /** The listing names each row once, and receipts leave the queue in its order. */
  ghost predicate QueueInOrder(t: Table) {
    && Distinct(t.order)
    && forall i, j :: 0 <= i < j < |t.order| && t.order[i] in t.rows && t.order[j] in t.rows && t.rows[t.order[j]].phase != QueuedLocal ==>
      t.rows[t.order[i]].phase != QueuedLocal
  }

  /** The same rows wait, listed in the same order. */
  ghost predicate SameQueue(a: Table, b: Table) {
    a.order == b.order && a.rows.Keys == b.rows.Keys && forall id :: id in a.rows ==> (a.rows[id].phase == QueuedLocal <==> b.rows[id].phase == QueuedLocal)
  }

  lemma RecordLeavesQueue(t: Table, id: Token, v: Verdict)
    requires Valid(t)
    ensures SameQueue(t, Record(t, id, v))
  {
  }

  lemma SubmitQueues(w: World, key: Token, payload: Payload, freshId: Token)
    requires Valid(w.table) && QueueInOrder(w.table)
    ensures var v := DoSubmit(w, key, payload, freshId); QueueInOrder(v.table) && w.table.order <= v.table.order
  {
    var v := DoSubmit(w, key, payload, freshId).table;
    if v != w.table {
      assert forall k :: 0 <= k < |w.table.order| ==> v.order[k] == w.table.order[k] && v.order[k] in w.table.rows;
    }
  }

  lemma ReserveServesFirst(w: World)
    requires Valid(w.table) && QueueInOrder(w.table)
    ensures var v := DoReserve(w); QueueInOrder(v.table) && v.table.order == w.table.order
  {
    if w.service == Idle && FirstInPhase(w.table, QueuedLocal).Some? { ClaimServesFirst(w.table); }
  }

  lemma ClaimServesFirst(t: Table)
    requires Valid(t) && QueueInOrder(t) && FirstInPhase(t, QueuedLocal).Some?
    ensures var v := ClaimNext(t).table; QueueInOrder(v) && v.order == t.order
  {
    var n := IndexWhere(t.order, id => id in t.rows && t.rows[id].phase == QueuedLocal);
    var v := ClaimNext(t).table;
    forall i, j | 0 <= i < j < |v.order| && v.order[i] in v.rows && v.order[j] in v.rows && v.rows[v.order[j]].phase != QueuedLocal
      ensures v.rows[v.order[i]].phase != QueuedLocal
    {
      if j == n { assert t.order[i] in t.rows ==> t.rows[t.order[i]].phase != QueuedLocal; }
    }
  }

  lemma SameQueueInOrder(a: Table, b: Table)
    requires QueueInOrder(a) && SameQueue(a, b)
    ensures QueueInOrder(b)
  {
  }

  lemma RecordedQueue(t: Table, id: Token, v: Verdict)
    requires Valid(t) && QueueInOrder(t)
    ensures QueueInOrder(Record(t, id, v)) && Record(t, id, v).order == t.order
  {
    RecordLeavesQueue(t, id, v);
    SameQueueInOrder(t, Record(t, id, v));
  }

  lemma StepQueue(w: World, step: Step)
    requires Valid(w.table) && QueueInOrder(w.table)
    ensures QueueInOrder(Next(w, step).table) && w.table.order <= Next(w, step).table.order
  {
    match step
    case Submit(key, payload, freshId) => SubmitQueues(w, key, payload, freshId);
    case Reserve => ReserveServesFirst(w);
    case Settle(evidence) =>
      if (w.service.Reserved? || w.service.Called?) && w.service.receiptId in w.table.rows {
        RecordedQueue(w.table, w.service.receiptId, SettleVerdict(w.log, w.table.rows[w.service.receiptId], w.service, evidence));
      }
    case RecoverOne(id, evidence) =>
      if id in w.table.rows { RecordedQueue(w.table, id, FromLog(w.log, w.table.rows[id], evidence, Ambiguity(InterruptedBeforeCommit))); }
    case ObserveRemote(_, _) => SameQueueInOrder(w.table, Next(w, step).table);
    case FailPublication(_, _) => SameQueueInOrder(w.table, Next(w, step).table);
    case _ => assert Next(w, step).table == w.table;
  }

  lemma {:induction false} RunQueue(w: World, steps: seq<Step>)
    requires Inv(w) && QueueInOrder(w.table)
    ensures var v := Exec(w, steps); Inv(v) && QueueInOrder(v.table) && w.table.order <= v.table.order
    decreases |steps|
  {
    if steps != [] {
      StepKeeps(w, steps[0]);
      StepQueue(w, steps[0]);
      RunQueue(Next(w, steps[0]), steps[1..]);
    }
  }

  lemma EarlierIsServed(t: Table, v: Table, early: Token, late: Token)
    requires Valid(t) && Valid(v) && QueueInOrder(v) && t.order <= v.order
    requires early in t.rows && late !in t.rows && late in v.rows && v.rows[late].phase != QueuedLocal
    ensures early in v.rows && v.rows[early].phase != QueuedLocal
  {
    assert early in t.order && late !in t.order && late in v.order;
    var i :| 0 <= i < |t.order| && t.order[i] == early;
    var j :| 0 <= j < |v.order| && v.order[j] == late;
    assert v.order[i] == early && early in v.order;
    assert forall k :: 0 <= k < |t.order| ==> t.order[k] in t.order && v.order[k] == t.order[k];
  }

  /** In every run, a receipt that was submitted later never leaves the queue while an earlier one waits. */
  lemma FirstComeFirstServed(before: seq<Step>, after: seq<Step>, early: Token, late: Token)
    requires early in Exec(Start, before).table.rows && late !in Exec(Start, before).table.rows
    requires late in Exec(Exec(Start, before), after).table.rows
    requires Exec(Exec(Start, before), after).table.rows[late].phase != QueuedLocal
    ensures early in Exec(Exec(Start, before), after).table.rows
    ensures Exec(Exec(Start, before), after).table.rows[early].phase != QueuedLocal
  {
    RunQueue(Start, before);
    RunQueue(Exec(Start, before), after);
    EarlierIsServed(Exec(Start, before).table, Exec(Exec(Start, before), after).table, early, late);
  }
}
