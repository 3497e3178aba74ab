/**
 The durable intent table of fast_receipts.py, as a value.  `rows` is keyed by
 the primary key, `byKey` is the unique index on idempotency keys, and `order`
 lists the rows in insertion (rowid) order.  Every operation below is the
 effect of one transaction.
 */
module Intents {
  import opened Common

  datatype Phase = QueuedLocal | Running | CompletedLocal | PublishedRemote | Rejected | Ambiguous

  /** The canonical JSON payload: two submissions are equal iff these are. */
  datatype Payload = Payload(operation: Token, task: Token, expectedRevision: int, detail: Token)

  datatype Code =
    | AdmissionRejected | MutationOutcomeUnknown | CommitEvidenceUnknown | InterruptedBeforeCommit
    | LocalBranchMoved | RemoteNotContainingCommit | OtherCode(text: Token)

  datatype Intent = Intent(
    receiptId: Token, key: Token, payload: Payload, phase: Phase,
    commitOid: Option<Token>, resultRevision: Option<int>, errorCode: Option<Code>,
    remoteOid: Option<Token>, publicationError: Option<Code>)

  datatype Table = Table(rows: map<Token, Intent>, byKey: map<Token, Token>, order: seq<Token>)

  datatype Outcome<+T> = Outcome(table: Table, reply: Result<T>)

  const Empty := Table(map[], map[], [])

  /** The primary key and the unique index agree, and `order` lists exactly the rows. */
  ghost predicate Valid(t: Table) {
    && (forall id :: id in t.rows ==> t.rows[id].receiptId == id && t.rows[id].key in t.byKey && t.byKey[t.rows[id].key] == id)
    && (forall k :: k in t.byKey ==> t.byKey[k] in t.rows && t.rows[t.byKey[k]].key == k)
    && (forall id :: id in t.rows <==> id in t.order)
  }

  function NewIntent(receiptId: Token, key: Token, payload: Payload): Intent {
    Intent(receiptId, key, payload, QueuedLocal, None, None, None, None, None)
  }

  function Insert(t: Table, r: Intent): Table {
    Table(t.rows[r.receiptId := r], t.byKey[r.key := r.receiptId], t.order + [r.receiptId])
  }

  function Update(t: Table, r: Intent): Table {
    t.(rows := t.rows[r.receiptId := r])
  }

  /** `_enqueue`: insert once per key, replay identical input, refuse different input. */
  function Enqueue(t: Table, key: Token, payload: Payload, freshId: Token): Outcome<Intent> {
    if payload.expectedRevision < 1 then Outcome(t, Err(InvalidInput))
    else if key !in t.byKey || t.byKey[key] !in t.rows then
      Outcome(Insert(t, NewIntent(freshId, key, payload)), Ok(NewIntent(freshId, key, payload)))
    else if t.rows[t.byKey[key]].payload != payload then Outcome(t, Err(ConflictingInput))
    else Outcome(t, Ok(t.rows[t.byKey[key]]))
  }

  /** The oldest row in one phase, if any. */
  function FirstInPhase(t: Table, phase: Phase): (id: Option<Token>)
    ensures id.Some? ==> id.value in t.rows && t.rows[id.value].phase == phase
    ensures id.None? ==> forall j :: j in t.order && j in t.rows ==> t.rows[j].phase != phase
  {
    var i := IndexWhere(t.order, id => id in t.rows && t.rows[id].phase == phase);
    if i < |t.order| then Some(t.order[i]) else None
  }

  /** `claim_next`: reserve the oldest queued row. */
  function ClaimNext(t: Table): Outcome<Option<Intent>> {
    match FirstInPhase(t, QueuedLocal)
    case None => Outcome(t, Ok(None))
    case Some(id) =>
      var claimed := t.rows[id].(phase := Running);
      Outcome(Update(t, claimed), Ok(Some(claimed)))
  }

  /** The part of a row that one outcome decides. */
  datatype Ending = Ending(phase: Phase, commitOid: Option<Token>, resultRevision: Option<int>, errorCode: Option<Code>)

  function Ended(r: Intent, e: Ending): Intent {
    r.(phase := e.phase, commitOid := e.commitOid, resultRevision := e.resultRevision, errorCode := e.errorCode)
  }

  /** `_finish_running`: one outcome per reservation; an identical repeat is a replay. */
  function FinishRunning(t: Table, id: Token, e: Ending): Outcome<Intent> {
    if id !in t.rows then Outcome(t, Err(UnknownRow))
    else
      var r := t.rows[id];
      if r.phase == e.phase then
        if Ended(r, e) != r then Outcome(t, Err(ConflictingInput)) else Outcome(t, Ok(r))
      else if r.phase != Running then Outcome(t, Err(NotInPhase))
      else Outcome(Update(t, Ended(r, e)), Ok(Ended(r, e)))
  }

  function RecordLocal(t: Table, id: Token, commitOid: Token, resultRevision: int): Outcome<Intent> {
    if resultRevision < 2 || id !in t.rows || resultRevision != t.rows[id].payload.expectedRevision + 1
    then Outcome(t, Err(InvalidInput))
    else FinishRunning(t, id, Ending(CompletedLocal, Some(commitOid), Some(resultRevision), None))
  }

  function RecordRejection(t: Table, id: Token, code: Code): Outcome<Intent> {
    FinishRunning(t, id, Ending(Rejected, None, None, Some(code)))
  }

  function RecordAmbiguity(t: Table, id: Token, code: Code): Outcome<Intent> {
    FinishRunning(t, id, Ending(Ambiguous, None, None, Some(code)))
  }

  /** `record_remote_observation`. */
  function RecordRemote(t: Table, id: Token, remoteOid: Token): Outcome<Intent> {
    if id !in t.rows || t.rows[id].phase !in {CompletedLocal, PublishedRemote} then Outcome(t, Err(NotInPhase))
    else if t.rows[id].phase == PublishedRemote then
      if t.rows[id].remoteOid != Some(remoteOid) then Outcome(t, Err(ConflictingInput)) else Outcome(t, Ok(t.rows[id]))
    else
      var done := t.rows[id].(phase := PublishedRemote, remoteOid := Some(remoteOid), publicationError := None);
      Outcome(Update(t, done), Ok(done))
  }

  /** `record_publication_failure`: a diagnostic on a completed-local row only. */
  function RecordPublicationFailure(t: Table, id: Token, code: Code): Outcome<Intent> {
    if id !in t.rows || t.rows[id].phase != CompletedLocal then Outcome(t, Err(NotInPhase))
    else
      var noted := t.rows[id].(publicationError := Some(code));
      Outcome(Update(t, noted), Ok(noted))
  }
}
