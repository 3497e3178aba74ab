/**
 `ReceiptStore` of fast_receipts.py: the three tables as fields that every
 transaction updates in place, each method refining the operation of the same
 name on table values.
 */
module ReceiptStores {
  import opened Common
  import I = Intents
  import P = Publications
  import S = Settlement

  /** An ending that the format allows for this job. */
  predicate EndingOk(job: P.Job, phase: P.Phase, observed: Option<Token>, error: Option<P.Code>) {
    match phase
    case Published => observed == Some(job.candidate)
    case Rejected => error.Some?
    case Ambiguous => observed.None? && error.Some?
    case _ => false
  }

  class ReceiptStore {
    var intents: map<Token, I.Intent>
    var byKey: map<Token, Token>
    var order: seq<Token>
    var jobs: map<Token, P.Job>
    var requestKeys: map<Token, P.KeyRow>
    var byCandidate: map<Token, Token>

    function IntentTable(): I.Table
      reads this
    {
      I.Table(intents, byKey, order)
    }

    function JobTable(): P.Table
      reads this
    {
      P.Table(jobs, requestKeys, byCandidate)
    }

    ghost predicate ValidIntents()
      reads this
    {
      I.Valid(IntentTable())
    }

    ghost predicate ValidJobs()
      reads this
    {
      P.Valid(JobTable())
    }

    constructor ()
      ensures ValidIntents() && ValidJobs() && IntentTable() == I.Empty && JobTable() == P.Empty
    {
      intents, byKey, order := map[], map[], [];
      jobs, requestKeys, byCandidate := map[], map[], map[];
    }

    method Enqueue(key: Token, payload: I.Payload, freshId: Token) returns (r: Result<I.Intent>)
      requires ValidIntents() && freshId !in intents
      modifies this`intents, this`byKey, this`order
      ensures ValidIntents()
      ensures IntentTable() == I.Enqueue(old(IntentTable()), key, payload, freshId).table
      ensures r == I.Enqueue(old(IntentTable()), key, payload, freshId).reply
      // A known key answers with its receipt, for the same input only, and adds nothing.
      ensures payload.expectedRevision >= 1 && key in old(byKey) ==>
        && intents == old(intents) && byKey == old(byKey) && order == old(order)
        && r == if old(intents)[old(byKey)[key]].payload == payload then Ok(old(intents)[old(byKey)[key]]) else Err(ConflictingInput)
      // A new key becomes one queued receipt at the end of the listing.
      ensures payload.expectedRevision >= 1 && key !in old(byKey) ==>
        && intents == old(intents)[freshId := I.Intent(freshId, key, payload, I.QueuedLocal, None, None, None, None, None)]
        && byKey == old(byKey)[key := freshId] && order == old(order) + [freshId] && r == Ok(intents[freshId])
      ensures payload.expectedRevision < 1 ==> r == Err(InvalidInput) && IntentTable() == old(IntentTable())
    {
      if payload.expectedRevision < 1 { return Err(InvalidInput); }
      if key !in byKey {
        intents := intents[freshId := I.NewIntent(freshId, key, payload)];
        byKey := byKey[key := freshId];
        order := order + [freshId];
      }
      var existing := intents[byKey[key]];
      if existing.payload != payload { return Err(ConflictingInput); }
      return Ok(existing);
    }

    method ClaimNext() returns (r: Option<I.Intent>)
      requires ValidIntents()
      modifies this`intents
      ensures ValidIntents()
      ensures IntentTable() == I.ClaimNext(old(IntentTable())).table
      ensures Ok(r) == I.ClaimNext(old(IntentTable())).reply
      ensures r.Some? <==> I.FirstInPhase(old(IntentTable()), I.QueuedLocal).Some?
      ensures r.Some? ==> r.value.receiptId == I.FirstInPhase(old(IntentTable()), I.QueuedLocal).value
      // Nothing else changes; only the phase of the claimed row does.
      ensures r.None? ==> intents == old(intents) && forall id :: id in intents ==> intents[id].phase != I.QueuedLocal
      ensures r.Some? ==>
        var id := r.value.receiptId;
        id in old(intents) && old(intents)[id].phase == I.QueuedLocal && r.value == old(intents)[id].(phase := I.Running) && intents == old(intents)[id := r.value]
    {
      var selected := I.FirstInPhase(IntentTable(), I.QueuedLocal);
      if selected.None? { return None; }
      var row := intents[selected.value].(phase := I.Running);
      intents := intents[selected.value := row];
      return Some(row);
    }

    method FinishRunning(id: Token, e: I.Ending) returns (r: Result<I.Intent>)
      requires ValidIntents()
      modifies this`intents
      ensures ValidIntents()
      ensures IntentTable() == I.FinishRunning(old(IntentTable()), id, e).table
      ensures r == I.FinishRunning(old(IntentTable()), id, e).reply
      // A running row takes the outcome; a row that already has exactly this outcome answers again; anything else is refused.
      ensures e.phase != I.Running && id in old(intents) && old(intents)[id].phase == I.Running ==>
        && r == Ok(old(intents)[id].(phase := e.phase, commitOid := e.commitOid, resultRevision := e.resultRevision, errorCode := e.errorCode))
        && intents == old(intents)[id := r.value]
      ensures !(id in old(intents) && old(intents)[id].phase == I.Running) ==>
        && intents == old(intents)
        && (r.Ok? <==> id in intents && intents[id].phase == e.phase && intents[id].commitOid == e.commitOid
                       && intents[id].resultRevision == e.resultRevision && intents[id].errorCode == e.errorCode)
        && (r.Ok? ==> r.value == intents[id])
    {
      if id !in intents { return Err(UnknownRow); }
      var row := intents[id];
      if row.phase == e.phase {
        if row.commitOid != e.commitOid || row.resultRevision != e.resultRevision || row.errorCode != e.errorCode {
          return Err(ConflictingInput);
        }
      } else if row.phase != I.Running {
        return Err(NotInPhase);
      } else {
        intents := intents[id := I.Ended(row, e)];
      }
      return Ok(intents[id]);
    }

    method RecordLocalCommit(id: Token, commitOid: Token, resultRevision: int) returns (r: Result<I.Intent>)
      requires ValidIntents()
      modifies this`intents
      ensures ValidIntents()
      ensures IntentTable() == I.RecordLocal(old(IntentTable()), id, commitOid, resultRevision).table
      ensures r == I.RecordLocal(old(IntentTable()), id, commitOid, resultRevision).reply
      ensures r.Ok? ==> r.value.phase == I.CompletedLocal && r.value.commitOid == Some(commitOid) && r.value.resultRevision == Some(r.value.payload.expectedRevision + 1)
      ensures id in old(intents) && old(intents)[id].phase == I.Running ==>
        (r.Ok? <==> resultRevision == old(intents)[id].payload.expectedRevision + 1 && resultRevision >= 2)
      ensures id in old(intents) && old(intents)[id].phase == I.Running && r.Ok? ==>
        intents == old(intents)[id := old(intents)[id].(phase := I.CompletedLocal, commitOid := Some(commitOid), resultRevision := Some(resultRevision), errorCode := None)]
    {
      if resultRevision < 2 { return Err(InvalidInput); }
      if id !in intents || resultRevision != intents[id].payload.expectedRevision + 1 { return Err(InvalidInput); }
      r := FinishRunning(id, I.Ending(I.CompletedLocal, Some(commitOid), Some(resultRevision), None));
    }

    method RecordRejection(id: Token, code: I.Code) returns (r: Result<I.Intent>)
      requires ValidIntents()
      modifies this`intents
      ensures ValidIntents()
      ensures IntentTable() == I.RecordRejection(old(IntentTable()), id, code).table
      ensures r == I.RecordRejection(old(IntentTable()), id, code).reply
      ensures id in old(intents) && old(intents)[id].phase == I.Running ==>
        && r.Ok?
        && intents == old(intents)[id := old(intents)[id].(phase := I.Rejected, commitOid := None, resultRevision := None, errorCode := Some(code))]
    {
      r := FinishRunning(id, I.Ending(I.Rejected, None, None, Some(code)));
    }

    method RecordAmbiguity(id: Token, code: I.Code) returns (r: Result<I.Intent>)
      requires ValidIntents()
      modifies this`intents
      ensures ValidIntents()
      ensures IntentTable() == I.RecordAmbiguity(old(IntentTable()), id, code).table
      ensures r == I.RecordAmbiguity(old(IntentTable()), id, code).reply
      ensures id in old(intents) && old(intents)[id].phase == I.Running ==>
        && r.Ok?
        && intents == old(intents)[id := old(intents)[id].(phase := I.Ambiguous, commitOid := None, resultRevision := None, errorCode := Some(code))]
    {
      r := FinishRunning(id, I.Ending(I.Ambiguous, None, None, Some(code)));
    }

    method RecordRemoteObservation(id: Token, remoteOid: Token) returns (r: Result<I.Intent>)
      requires ValidIntents()
      modifies this`intents
      ensures ValidIntents()
      ensures IntentTable() == I.RecordRemote(old(IntentTable()), id, remoteOid).table
      ensures r == I.RecordRemote(old(IntentTable()), id, remoteOid).reply
      ensures r.Ok? <==>
        && id in old(intents)
        && (old(intents)[id].phase == I.CompletedLocal || (old(intents)[id].phase == I.PublishedRemote && old(intents)[id].remoteOid == Some(remoteOid)))
      ensures if r.Ok? && old(intents)[id].phase == I.CompletedLocal
        then intents == old(intents)[id := old(intents)[id].(phase := I.PublishedRemote, remoteOid := Some(remoteOid), publicationError := None)]
        else intents == old(intents)
      ensures r.Ok? ==> r.value == intents[id]
    {
      if id !in intents || (intents[id].phase != I.CompletedLocal && intents[id].phase != I.PublishedRemote) {
        return Err(NotInPhase);
      }
      if intents[id].phase == I.PublishedRemote && intents[id].remoteOid != Some(remoteOid) { return Err(ConflictingInput); }
      if intents[id].phase == I.CompletedLocal {
        intents := intents[id := intents[id].(phase := I.PublishedRemote, remoteOid := Some(remoteOid), publicationError := None)];
      }
      return Ok(intents[id]);
    }

    method RecordPublicationFailure(id: Token, code: I.Code) returns (r: Result<I.Intent>)
      requires ValidIntents()
      modifies this`intents
      ensures ValidIntents()
      ensures IntentTable() == I.RecordPublicationFailure(old(IntentTable()), id, code).table
      ensures r == I.RecordPublicationFailure(old(IntentTable()), id, code).reply
      ensures r.Ok? <==> id in old(intents) && old(intents)[id].phase == I.CompletedLocal
      ensures intents == if r.Ok? then old(intents)[id := old(intents)[id].(publicationError := Some(code))] else old(intents)
    {
      if id !in intents || intents[id].phase != I.CompletedLocal { return Err(NotInPhase); }
      intents := intents[id := intents[id].(publicationError := Some(code))];
      return Ok(intents[id]);
    }

    method AdmitPublication(key: Token, candidate: Token, base: Token, freshId: Token) returns (r: Result<P.Job>)
      requires ValidJobs() && freshId !in jobs
      modifies this`jobs, this`requestKeys, this`byCandidate
      ensures ValidJobs()
      ensures JobTable() == P.Admit(old(JobTable()), key, candidate, base, freshId).table
      ensures r == P.Admit(old(JobTable()), key, candidate, base, freshId).reply
      ensures forall id :: id in old(jobs) ==> id in jobs && jobs[id] == old(jobs)[id]
      // Refused exactly if it asks for nothing, or if its key or its candidate is already bound to another request.
      ensures r.Err? <==>
        || candidate == base
        || (key in old(requestKeys) && (old(requestKeys)[key].candidate != candidate || old(requestKeys)[key].base != base))
        || (key !in old(requestKeys) && candidate in old(byCandidate) && old(jobs)[old(byCandidate)[candidate]].base != base)
      ensures r.Err? ==> JobTable() == old(JobTable())
      // Otherwise the key is bound to the candidate's one job, which is queued if it is new.
      ensures r.Ok? ==>
        && r.value.candidate == candidate && r.value.base == base && r.value.jobId in jobs && jobs[r.value.jobId] == r.value
        && key in requestKeys && requestKeys[key] == P.KeyRow(r.value.jobId, candidate, base)
        && (candidate !in old(byCandidate) ==> r.value == P.Job(freshId, key, candidate, base, P.Queued, None, None, None, None))
        && (candidate in old(byCandidate) ==> jobs == old(jobs) && r.value.jobId == old(byCandidate)[candidate])
    {
      P.AdmitValid(JobTable(), key, candidate, base, freshId);
      if candidate == base { return Err(InvalidInput); }
      if key in requestKeys {
        assert P.KeyAgrees(JobTable(), requestKeys[key]);
        var job := jobs[requestKeys[key].jobId];
        if job.candidate != candidate || job.base != base { return Err(ConflictingInput); }
        return Ok(job);
      }
      if candidate in byCandidate {
        var job := jobs[byCandidate[candidate]];
        if job.base != base { return Err(ConflictingInput); }
        requestKeys := requestKeys[key := P.KeyRow(job.jobId, candidate, base)];
        return Ok(job);
      }
      var job := P.Job(freshId, key, candidate, base, P.Queued, None, None, None, None);
      jobs := jobs[freshId := job];
      requestKeys := requestKeys[key := P.KeyRow(freshId, candidate, base)];
      byCandidate := byCandidate[candidate := freshId];
      return Ok(job);
    }

    method ClaimPublication(jobId: Token, lease: Token, now: int) returns (r: Option<P.Job>)
      requires ValidJobs()
      modifies this`jobs
      ensures ValidJobs()
      ensures JobTable() == P.Claim(old(JobTable()), jobId, lease, now).table
      ensures Ok(r) == P.Claim(old(JobTable()), jobId, lease, now).reply
      ensures r.Some? <==> jobId in old(jobs) && old(jobs)[jobId].phase == P.Queued
      ensures if r.Some?
        then r.value == old(jobs)[jobId].(phase := P.Publishing, lease := Some(lease), leaseExpires := Some(now + 60000), error := None)
          && jobs == old(jobs)[jobId := r.value]
        else jobs == old(jobs)
    {
      if jobId !in jobs || jobs[jobId].phase != P.Queued { return None; }
      var job := jobs[jobId].(phase := P.Publishing, lease := Some(lease), leaseExpires := Some(now + P.LEASE_MS), error := None);
      P.UpdateValid(JobTable(), job);
      jobs := jobs[jobId := job];
      return Some(job);
    }

    method FinishPublication(jobId: Token, lease: Token, phase: P.Phase, observed: Option<Token>, error: Option<P.Code>, now: int)
      returns (r: Result<P.Job>)
      requires ValidJobs()
      modifies this`jobs
      ensures ValidJobs()
      ensures JobTable() == P.Finish(old(JobTable()), jobId, lease, phase, observed, error, now).table
      ensures r == P.Finish(old(JobTable()), jobId, lease, phase, observed, error, now).reply
      // The holder of a live lease ends the job, published only at its own candidate; a publishing job refuses everybody else.
      ensures jobId in old(jobs) && old(jobs)[jobId].phase == P.Publishing ==>
        var job := old(jobs)[jobId];
        && (r.Ok? <==> job.lease == Some(lease) && job.leaseExpires.value >= now && EndingOk(job, phase, observed, error))
        && (r.Ok? ==> r.value == job.(phase := phase, observed := observed, error := error, leaseExpires := None) && jobs == old(jobs)[jobId := r.value])
      // A job that ended answers again to exactly the same ending.
      ensures !(jobId in old(jobs) && old(jobs)[jobId].phase == P.Publishing) ==>
        && jobs == old(jobs)
        && (r.Ok? ==> jobId in jobs && jobs[jobId] == r.value && r.value.phase == phase && r.value.lease == Some(lease) && r.value.observed == observed && r.value.error == error)
      ensures r.Err? ==> jobs == old(jobs)
    {
      if !P.ValidEnding(phase, observed, error) { return Err(InvalidInput); }
      if jobId !in jobs { return Err(UnknownRow); }
      var row := jobs[jobId];
      if row.phase == phase {
        if row.lease != Some(lease) || row.observed != observed || row.error != error { return Err(ConflictingInput); }
        return Ok(row);
      }
      if row.phase != P.Publishing || row.lease != Some(lease) { return Err(NotOwned); }
      if phase == P.Published && observed != Some(row.candidate) { return Err(InvalidInput); }
      if row.leaseExpires.value < now { return Err(LeaseExpired); }
      var done := row.(phase := phase, observed := observed, error := error, leaseExpires := None);
      P.UpdateValid(JobTable(), done);
      jobs := jobs[jobId := done];
      return Ok(done);
    }

    method RecoverPublication(jobId: Token, remote: Token, now: int) returns (r: Result<P.Job>)
      requires ValidJobs()
      modifies this`jobs
      ensures ValidJobs()
      ensures JobTable() == P.Recover(old(JobTable()), jobId, remote, now).table
      ensures r == P.Recover(old(JobTable()), jobId, remote, now).reply
      // Recovered exactly if it is ambiguous or its lease has run out, and then by what the remote shows.
      ensures r.Ok? <==> jobId in old(jobs) && (old(jobs)[jobId].phase == P.Ambiguous || (old(jobs)[jobId].phase == P.Publishing && old(jobs)[jobId].leaseExpires.value < now))
      ensures r.Ok? ==>
        && jobs == old(jobs)[jobId := r.value] && r.value == old(jobs)[jobId].(phase := r.value.phase, lease := None, leaseExpires := None, observed := Some(remote), error := r.value.error)
        && (r.value.phase == P.Published <==> remote == r.value.candidate) && (r.value.phase == P.Queued <==> remote == r.value.base)
        && (remote != r.value.candidate && remote != r.value.base ==> r.value.phase == P.Rejected)
        && r.value.error == (if r.value.phase == P.Rejected then Some(P.RemoteBaseChanged) else None)
      ensures r.Err? ==> jobs == old(jobs)
    {
      if jobId !in jobs { return Err(UnknownRow); }
      var row := jobs[jobId];
      if row.phase != P.Publishing && row.phase != P.Ambiguous { return Err(NotInPhase); }
      var phase, error := P.Rejected, Some(P.RemoteBaseChanged);
      if remote == row.candidate {
        phase, error := P.Published, None;
      } else if remote == row.base {
        phase, error := P.Queued, None;
      }
      if row.phase == P.Publishing && row.leaseExpires.value >= now { return Err(LeaseActive); }
      var done := row.(phase := phase, lease := None, leaseExpires := None, observed := Some(remote), error := error);
      P.UpdateValid(JobTable(), done);
      jobs := jobs[jobId := done];
      return Ok(done);
    }

    method ResolveSuperseded(jobId: Token, remote: Token) returns (r: Result<P.Job>)
      requires ValidJobs()
      modifies this`jobs
      ensures ValidJobs()
      ensures JobTable() == P.Supersede(old(JobTable()), jobId, remote).table
      ensures r == P.Supersede(old(JobTable()), jobId, remote).reply
      ensures r.Ok? <==> jobId in old(jobs) && old(jobs)[jobId].phase == P.Queued
      ensures r.Ok? ==>
        && jobs == old(jobs)[jobId := r.value] && r.value == old(jobs)[jobId].(phase := r.value.phase, observed := Some(remote), error := r.value.error)
        && (if remote == r.value.candidate then r.value.phase == P.Published && r.value.error == None
            else r.value.phase == P.Rejected && r.value.error == Some(if remote == r.value.base then P.LocalHeadSuperseded else P.RemoteBaseChanged))
      ensures r.Err? ==> jobs == old(jobs)
    {
      if jobId !in jobs { return Err(UnknownRow); }
      var row := jobs[jobId];
      if row.phase != P.Queued { return Err(NotInPhase); }
      var phase, error := P.Rejected, Some(P.RemoteBaseChanged);
      if remote == row.candidate {
        phase, error := P.Published, None;
      } else if remote == row.base {
        error := Some(P.LocalHeadSuperseded);
      }
      var done := row.(phase := phase, observed := Some(remote), error := error);
      P.UpdateValid(JobTable(), done);
      jobs := jobs[jobId := done];
      return Ok(done);
    }

    /** One iteration of the recovery loop. */
    method Revisit(id: Token, localHead: Token, remoteHead: Token, now: int)
      requires ValidJobs() && id in jobs && S.Recoverable(jobs[id], now)
      modifies this`jobs
      ensures ValidJobs()
      ensures jobs == old(jobs)[id := S.AfterPass(old(jobs)[id], localHead, remoteHead, now)]
    {
      if jobs[id].phase == P.Queued {
        if jobs[id].candidate != localHead { var _ := ResolveSuperseded(id, remoteHead); }
      } else {
        var _ := RecoverPublication(id, remoteHead, now);
      }
    }

    /** `_recover_outstanding_publications`, over the rows `recoverable_publications` listed. */
    method RecoverOutstanding(recoverable: seq<Token>, localHead: Token, remoteHead: Token, now: int)
      requires ValidJobs()
      requires forall id :: id in recoverable <==> id in jobs && S.Recoverable(jobs[id], now)
      requires S.NoRepeats(recoverable)
      modifies this`jobs
      ensures ValidJobs()
      ensures JobTable() == S.Pass(old(JobTable()), localHead, remoteHead, now)
    {
      ghost var start := jobs;
      for i := 0 to |recoverable|
        invariant ValidJobs() && unchanged(this`requestKeys) && unchanged(this`byCandidate)
        invariant jobs == S.Visit(start, recoverable[..i], localHead, remoteHead, now)
        invariant i < |recoverable| ==> recoverable[i] in jobs && S.Recoverable(jobs[recoverable[i]], now)
      {
        assert recoverable[..i + 1][..i] == recoverable[..i];
        Revisit(recoverable[i], localHead, remoteHead, now);
        if i + 1 < |recoverable| { S.VisitedOnce(start, recoverable[..i + 1], recoverable[i + 1], localHead, remoteHead, now); }
      }
      assert recoverable[..|recoverable|] == recoverable;
      S.VisitIsPass(old(JobTable()), recoverable, localHead, remoteHead, now);
    }
  }
}
