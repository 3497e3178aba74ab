/**
 The publication half of fast_receipt_worker.py: push the local head under a
 leased job, record only an exact observation of the remote, and turn remote
 ancestry into receipts.  Git's ancestor relation and what `ls-remote` shows are
 arguments.
 */
module PublicationWorker {
  import opened Common
  import I = Intents
  import P = Publications
  import S = Settlement
  import opened ReceiptStores

  type Ancestry = set<(Token, Token)>

  /** How the job of a pushed candidate must end, given the remote head seen after the push. */
  function PushEnding(observed: Option<Token>, candidate: Token, ancestry: Ancestry, unknown: P.Code): (P.Phase, Option<P.Code>) {
    match observed
    case None => (P.Ambiguous, Some(unknown))
    case Some(oid) =>
      if oid == candidate then (P.Published, None)
      else if (candidate, oid) in ancestry then (P.Rejected, Some(P.RemoteAdvanced))
      else (P.Rejected, Some(P.RemoteChanged))
  }

  /** `_record_admitted_push_observation`: fails, leaving the job to recovery, exactly when the lease has run out. */
  method RecordPush(
    store: ReceiptStore, jobId: Token, lease: Token, candidate: Token, observed: Option<Token>,
    ancestry: Ancestry, unknown: P.Code, now: int) returns (r: Result<P.Job>)
    requires store.ValidJobs() && jobId in store.jobs
    requires store.jobs[jobId].phase == P.Publishing && store.jobs[jobId].lease == Some(lease) && store.jobs[jobId].candidate == candidate
    modifies store`jobs
    ensures store.ValidJobs()
    ensures r.Ok? <==> old(store.jobs)[jobId].leaseExpires.value >= now
    ensures r.Ok? ==>
              var (phase, error) := PushEnding(observed, candidate, ancestry, unknown);
              store.jobs == old(store.jobs)[jobId := old(store.jobs)[jobId].(phase := phase, observed := observed, error := error, leaseExpires := None)]
    ensures r.Err? ==> r.error == LeaseExpired && store.jobs == old(store.jobs)
    ensures r.Ok? ==>
              var job := store.jobs[jobId];
              && (job.phase == P.Published <==> observed == Some(candidate)) && (job.phase == P.Ambiguous <==> observed.None?)
              && (job.phase != P.Published && observed.Some? ==>
                job.phase == P.Rejected && job.error == Some(if (candidate, observed.value) in ancestry then P.RemoteAdvanced else P.RemoteChanged))
              && (job.phase == P.Ambiguous ==> job.error == Some(unknown)) && job.observed == observed
  {
    if observed == Some(candidate) {
      r := store.FinishPublication(jobId, lease, P.Published, observed, None, now);
    } else if observed.Some? && (candidate, observed.value) in ancestry {
      r := store.FinishPublication(jobId, lease, P.Rejected, observed, Some(P.RemoteAdvanced), now);
    } else if observed.None? {
      r := store.FinishPublication(jobId, lease, P.Ambiguous, None, Some(unknown), now);
    } else {
      r := store.FinishPublication(jobId, lease, P.Rejected, observed, Some(P.RemoteChanged), now);
    }
  }

  /** What one `_publish_if_needed` did: nothing, or one push under a lease it took itself. */
  datatype Push = NotNeeded | NotAdmitted(error: Error) | NotOurs | Pushed(jobId: Token, ending: Result<P.Job>)

  ghost predicate HoldsLease(jobs: map<Token, P.Job>, id: Token, local: Token, remote: Token, lease: Token) {
    id in jobs && jobs[id].candidate == local && jobs[id].base == remote && jobs[id].lease == Some(lease)
  }

  /** Jobs of other candidates are as they were. */
  ghost predicate OthersUntouched(before: map<Token, P.Job>, after: map<Token, P.Job>, local: Token) {
    forall id :: id in before && before[id].candidate != local ==> id in after && after[id] == before[id]
  }

  /** The local head has no job, or one that is waiting, or one whose push was interrupted. */
  predicate Leasable(t: P.Table, local: Token, now: int) {
    local in t.byCandidate && t.byCandidate[local] in t.jobs ==>
      var job := t.jobs[t.byCandidate[local]];
      job.phase == P.Queued || job.phase == P.Ambiguous || (job.phase == P.Publishing && (job.leaseExpires.None? || job.leaseExpires.value < now))
  }

  /** The key or the candidate is already bound to another request, or there is nothing to push. */
  predicate Unadmitted(t: P.Table, key: Token, local: Token, remote: Token) {
    || local == remote
    || (key in t.keys && (t.keys[key].candidate != local || t.keys[key].base != remote))
    || (key !in t.keys && local in t.byCandidate && t.byCandidate[local] in t.jobs && t.jobs[t.byCandidate[local]].base != remote)
  }

  /** Whether a push was due, given the jobs after recovery, and whether it was made. */
  ghost predicate PushedIfNeeded(push: Push, commits: seq<Token>, jobs: P.Table, key: Token, local: Token, remote: Token, ancestry: Ancestry, now: int) {
    && (push.NotNeeded? <==> (remote, local) !in ancestry || forall oid :: oid in commits && (oid, local) in ancestry ==> (oid, remote) in ancestry)
    && (!push.NotNeeded? ==> (push.NotAdmitted? <==> Unadmitted(jobs, key, local, remote)))
    && (!push.NotNeeded? && !push.NotAdmitted? ==> (push.Pushed? <==> Leasable(jobs, local, now)))
  }

  /** Admit the local head on the observed base, and recover an interrupted earlier push. */
  method AdmitLocalHead(store: ReceiptStore, key: Token, local: Token, remote: Token, freshId: Token, now: int) returns (r: Result<Token>)
    requires store.ValidJobs() && freshId !in store.jobs
    modifies store`jobs, store`requestKeys, store`byCandidate
    ensures store.ValidJobs() && OthersUntouched(old(store.jobs), store.jobs, local)
    ensures r.Err? <==> Unadmitted(old(store.JobTable()), key, local, remote)
    ensures r.Ok? ==> r.value in store.jobs && store.jobs[r.value].candidate == local && store.jobs[r.value].base == remote
    ensures r.Ok? ==> (store.jobs[r.value].phase == P.Queued <==> Leasable(old(store.JobTable()), local, now))
  {
    var admitted := store.AdmitPublication(key, local, remote, freshId);
    if admitted.Err? { return Err(admitted.error); }
    var id := admitted.value.jobId;
    if store.jobs[id].phase == P.Ambiguous || store.jobs[id].phase == P.Publishing {
      var _ := store.RecoverPublication(id, remote, now);
    }
    return Ok(id);
  }

  /** Then lease the job if it is queued. */
  method LeaseLocalHead(store: ReceiptStore, key: Token, local: Token, remote: Token, freshId: Token, lease: Token, now: int)
    returns (r: Result<Option<Token>>)
    requires store.ValidJobs() && freshId !in store.jobs
    modifies store`jobs, store`requestKeys, store`byCandidate
    ensures store.ValidJobs() && OthersUntouched(old(store.jobs), store.jobs, local)
    ensures r.Err? <==> Unadmitted(old(store.JobTable()), key, local, remote)
    ensures r.Ok? ==> (r.value.Some? <==> Leasable(old(store.JobTable()), local, now))
    ensures r.Ok? && r.value.Some? ==>
              HoldsLease(store.jobs, r.value.value, local, remote, lease)
              && store.jobs[r.value.value].phase == P.Publishing && store.jobs[r.value.value].leaseExpires == Some(now + 60000)
  {
    var admitted := AdmitLocalHead(store, key, local, remote, freshId, now);
    if admitted.Err? { return Err(admitted.error); }
    var id := admitted.value;
    if store.jobs[id].phase != P.Queued { return Ok(None); }
    var _ := store.ClaimPublication(id, lease, now);
    return Ok(Some(id));
  }

  /**
   `_publish_if_needed`.  `freshId` and `lease` are fresh identifiers; `began` and
   `ended` are the clock before and after the push, `observed` the remote head
   seen afterwards, `unknown` the code for an unreadable remote.  A push runs only
   on the exact base it was admitted with and under a lease this call took.
   */
  method PublishIfNeeded(
    store: ReceiptStore, pending: seq<Token>, key: Token, local: Token, remote: Token, ancestry: Ancestry,
    freshId: Token, lease: Token, began: int, ended: int, observed: Option<Token>, unknown: P.Code) returns (push: Push)
    requires store.ValidJobs() && freshId !in store.jobs
    modifies store`jobs, store`requestKeys, store`byCandidate
    ensures store.ValidJobs() && OthersUntouched(old(store.jobs), store.jobs, local)
    // Due if a pending commit that is on the local branch is not on the remote and the push is a fast-forward; then made
    // if the local head can be admitted on this base and its job is free.
    ensures PushedIfNeeded(push, pending, old(store.JobTable()), key, local, remote, ancestry, began)
    ensures push.NotNeeded? ==> store.JobTable() == old(store.JobTable())
    ensures push.Pushed? ==> HoldsLease(store.jobs, push.jobId, local, remote, lease)
    ensures push.Pushed? ==> (push.ending.Ok? <==> ended <= began + P.LEASE_MS)
    ensures push.Pushed? ==>
              var job := store.jobs[push.jobId];
              if push.ending.Ok? then (job.phase, job.error) == PushEnding(observed, local, ancestry, unknown) else job.phase == P.Publishing
  {
    var needed := exists oid :: oid in pending && (oid, local) in ancestry && (oid, remote) !in ancestry;
    if !needed || (remote, local) !in ancestry { return NotNeeded; }
    var leased := LeaseLocalHead(store, key, local, remote, freshId, lease, began);
    if leased.Err? { return NotAdmitted(leased.error); }
    if leased.value.None? { return NotOurs; }
    var ending := RecordPush(store, leased.value.value, lease, local, observed, ancestry, unknown, ended);
    return Pushed(leased.value.value, ending);
  }

  /** What `_finish_publications` writes for one receipt. */
  function FinishedReceipt(r: I.Intent, local: Token, remote: Token, ancestry: Ancestry): I.Intent {
    if r.phase != I.CompletedLocal || r.commitOid.None? then r
    else if (r.commitOid.value, local) !in ancestry then r.(publicationError := Some(I.LocalBranchMoved))
    else if (r.commitOid.value, remote) in ancestry then
      r.(phase := I.PublishedRemote, remoteOid := Some(remote), publicationError := None)
    else r.(publicationError := Some(I.RemoteNotContainingCommit))
  }

  method FinishOne(store: ReceiptStore, id: Token, local: Token, remote: Token, ancestry: Ancestry)
    requires store.ValidIntents() && id in store.intents && store.intents[id].phase == I.CompletedLocal && store.intents[id].commitOid.Some?
    modifies store`intents
    ensures store.ValidIntents()
    ensures store.intents == old(store.intents)[id := FinishedReceipt(old(store.intents)[id], local, remote, ancestry)]
  {
    var commit := store.intents[id].commitOid.value;
    if (commit, local) !in ancestry {
      var _ := store.RecordPublicationFailure(id, I.LocalBranchMoved);
    } else if (commit, remote) in ancestry {
      var _ := store.RecordRemoteObservation(id, remote);
    } else {
      var _ := store.RecordPublicationFailure(id, I.RemoteNotContainingCommit);
    }
  }

  function FinishedAll(start: map<Token, I.Intent>, done: set<Token>, local: Token, remote: Token, ancestry: Ancestry): map<Token, I.Intent> {
    map id | id in start :: if id in done then FinishedReceipt(start[id], local, remote, ancestry) else start[id]
  }

  lemma OneMoreFinished(start: map<Token, I.Intent>, done: set<Token>, id: Token, local: Token, remote: Token, ancestry: Ancestry)
    requires id in start && id !in done
    ensures FinishedAll(start, done, local, remote, ancestry)[id] == start[id]
    ensures FinishedAll(start, done + {id}, local, remote, ancestry)
      == FinishedAll(start, done, local, remote, ancestry)[id := FinishedReceipt(start[id], local, remote, ancestry)]
  {
  }

  /** `_finish_publications`: a receipt becomes published exactly when its commit is on both branches. */
  method FinishPublications(store: ReceiptStore, pending: seq<Token>, local: Token, remote: Token, ancestry: Ancestry)
    requires store.ValidIntents() && Selected(store.intents, pending)
    modifies store`intents
    ensures store.ValidIntents()
    ensures store.intents == FinishedAll(old(store.intents), AsSet(pending), local, remote, ancestry)
  {
    ghost var start := store.intents;
    ghost var done: set<Token> := {};
    assert FinishedAll(start, done, local, remote, ancestry) == start;
    for i := 0 to |pending|
      invariant store.ValidIntents()
      invariant forall k :: 0 <= k < |pending| ==> (pending[k] in done <==> k < i)
      invariant forall id :: id in done ==> id in pending
      invariant store.intents == FinishedAll(start, done, local, remote, ancestry)
    {
      OneMoreFinished(start, done, pending[i], local, remote, ancestry);
      FinishOne(store, pending[i], local, remote, ancestry);
      done := done + {pending[i]};
    }
    assert done == AsSet(pending);
  }

  // ---- One round of the publisher -------------------------------------------

  const REMOTE_UNKNOWN := I.OtherCode(0)

  function NotedAll(start: map<Token, I.Intent>, done: set<Token>, code: I.Code): map<Token, I.Intent> {
    map id | id in start :: if id in done then start[id].(publicationError := Some(code)) else start[id]
  }

  lemma OneMoreNoted(start: map<Token, I.Intent>, done: set<Token>, id: Token, code: I.Code)
    requires id in start && id !in done
    ensures NotedAll(start, done, code)[id] == start[id]
    ensures NotedAll(start, done + {id}, code) == NotedAll(start, done, code)[id := start[id].(publicationError := Some(code))]
  {
  }

  function AsSet(ids: seq<Token>): set<Token> {
    set k | 0 <= k < |ids| :: ids[k]
  }

  /** The receipts that a round works on: completed locally, each once, each with its commit. */
  ghost predicate Selected(intents: map<Token, I.Intent>, pending: seq<Token>) {
    && (forall id :: id in pending ==> id in intents && intents[id].phase == I.CompletedLocal && intents[id].commitOid.Some?)
    && (forall i, j :: 0 <= i < j < |pending| ==> pending[i] != pending[j])
  }

  /** The same diagnostic on every selected receipt. */
  method NoteAll(store: ReceiptStore, pending: seq<Token>, code: I.Code)
    requires store.ValidIntents() && Selected(store.intents, pending)
    modifies store`intents
    ensures store.ValidIntents() && store.intents == NotedAll(old(store.intents), AsSet(pending), code)
  {
    ghost var start := store.intents;
    ghost var done: set<Token> := {};
    assert NotedAll(start, done, code) == start;
    for i := 0 to |pending|
      invariant store.ValidIntents()
      invariant forall k :: 0 <= k < |pending| ==> (pending[k] in done <==> k < i)
      invariant forall id :: id in done ==> id in pending
      invariant store.intents == NotedAll(start, done, code)
    {
      OneMoreNoted(start, done, pending[i], code);
      var _ := store.RecordPublicationFailure(pending[i], code);
      done := done + {pending[i]};
    }
    assert done == AsSet(pending);
  }

  function CommitsOf(intents: map<Token, I.Intent>, pending: seq<Token>): seq<Token>
    requires Selected(intents, pending)
  {
    seq(|pending|, i requires 0 <= i < |pending| => intents[pending[i]].commitOid.value)
  }

  /** The receipts once the remote head seen last, if it could be read, has decided them. */
  function Decided(start: map<Token, I.Intent>, pending: seq<Token>, local: Token, seen: Option<Token>, ancestry: Ancestry): map<Token, I.Intent> {
    if seen.Some? then FinishedAll(start, AsSet(pending), local, seen.value, ancestry) else NotedAll(start, AsSet(pending), REMOTE_UNKNOWN)
  }

  method DecideReceipts(store: ReceiptStore, pending: seq<Token>, local: Token, seen: Option<Token>, ancestry: Ancestry)
    requires store.ValidIntents() && Selected(store.intents, pending)
    modifies store`intents
    ensures store.ValidIntents() && store.intents == Decided(old(store.intents), pending, local, seen, ancestry)
  {
    if seen.None? {
      NoteAll(store, pending, REMOTE_UNKNOWN);
    } else {
      FinishPublications(store, pending, local, seen.value, ancestry);
    }
  }

  /** What a round knows of the remote when it turns to the receipts, unless it raised. */
  function Seen(push: Push, remote: Token, observed: Option<Token>): Result<Option<Token>> {
    match push
    case NotNeeded => Ok(Some(remote))
    case NotOurs => Ok(Some(remote))
    case NotAdmitted(e) => Err(e)
    case Pushed(_, ending) => if ending.Ok? then Ok(observed) else Err(LeaseExpired)
  }

  /**
   `_publish_selected` on the main branch of a replica, end to end: recover the outstanding jobs with the
   heads just read, push if needed, and only then decide the receipts, by the remote head seen last.
   */
  method PublishSelected(
    store: ReceiptStore, pending: seq<Token>, recoverable: seq<Token>, key: Token, local: Token, remote: Option<Token>, ancestry: Ancestry,
    freshId: Token, lease: Token, began: int, ended: int, observed: Option<Token>) returns (r: Result<Option<Token>>, ghost push: Push)
    requires store.ValidIntents() && store.ValidJobs() && freshId !in store.jobs && Selected(store.intents, pending)
    requires forall id :: id in recoverable <==> id in store.jobs && S.Recoverable(store.jobs[id], began)
    requires S.NoRepeats(recoverable)
    modifies store
    ensures store.ValidIntents() && store.ValidJobs()
    // An unreadable remote changes no job.
    ensures remote.None? ==> r == Ok(None) && store.JobTable() == old(store.JobTable())
    // Every job of another candidate has had exactly one recovery visit.
    ensures remote.Some? ==> OthersUntouched(S.Pass(old(store.JobTable()), local, remote.value, began).jobs, store.jobs, local)
    ensures remote.Some? ==>
              && (r.Err? <==> push.NotAdmitted? || (push.Pushed? && push.ending.Err?))
              && (r.Ok? ==> r.value == if push.Pushed? then observed else remote)
    // A push was made exactly if a selected commit needs it and the job of the local head is free.
    ensures remote.Some? ==>
              PushedIfNeeded(push, CommitsOf(old(store.intents), pending), S.Pass(old(store.JobTable()), local, remote.value, began), key, local, remote.value, ancestry, began)
    // The receipts follow the remote head seen last: published exactly if it has their commit; a raise leaves them alone.
    ensures store.intents == if r.Ok? then Decided(old(store.intents), pending, local, r.value, ancestry) else old(store.intents)
    ensures remote.Some? && push.Pushed? ==> HoldsLease(store.jobs, push.jobId, local, remote.value, lease)
  {
    push := NotNeeded;
    if remote.None? {
      DecideReceipts(store, pending, local, None, ancestry);
      return Ok(None), push;
    }
    var pushed := RecoverAndPush(store, CommitsOf(store.intents, pending), recoverable, key, local, remote.value, ancestry, freshId, lease, began, ended, observed);
    push := pushed;
    r := Seen(pushed, remote.value, observed);
    if r.Ok? { DecideReceipts(store, pending, local, r.value, ancestry); }
  }

  /** The part of a round that works on jobs. */
  method RecoverAndPush(
    store: ReceiptStore, commits: seq<Token>, recoverable: seq<Token>, key: Token, local: Token, remote: Token, ancestry: Ancestry,
    freshId: Token, lease: Token, began: int, ended: int, observed: Option<Token>) returns (push: Push)
    requires store.ValidJobs() && freshId !in store.jobs
    requires forall id :: id in recoverable <==> id in store.jobs && S.Recoverable(store.jobs[id], began)
    requires S.NoRepeats(recoverable)
    modifies store`jobs, store`requestKeys, store`byCandidate
    ensures store.ValidJobs()
    ensures OthersUntouched(S.Pass(old(store.JobTable()), local, remote, began).jobs, store.jobs, local)
    ensures push.Pushed? ==> HoldsLease(store.jobs, push.jobId, local, remote, lease)
    ensures PushedIfNeeded(push, commits, S.Pass(old(store.JobTable()), local, remote, began), key, local, remote, ancestry, began)
  {
    store.RecoverOutstanding(recoverable, local, remote, began);
    push := PublishIfNeeded(store, commits, key, local, remote, ancestry, freshId, lease, began, ended, observed, P.RemoteUnknown);
  }

  /** So after a round a selected receipt is published exactly if the remote was seen and its commit is on the local branch and on the head seen last. */
  lemma PublishedIff(start: map<Token, I.Intent>, pending: seq<Token>, id: Token, local: Token, seen: Option<Token>, ancestry: Ancestry)
    requires Selected(start, pending) && id in pending
    ensures var after := Decided(start, pending, local, seen, ancestry)[id]; var commit := start[id].commitOid.value;
      && (after.phase == I.PublishedRemote <==> seen.Some? && (commit, local) in ancestry && (commit, seen.value) in ancestry)
      && (after.phase == I.PublishedRemote ==> after.remoteOid == seen && after.publicationError == None)
      && (after.phase != I.PublishedRemote ==> after == start[id].(publicationError := Some(
            if seen.None? then REMOTE_UNKNOWN else if (commit, local) !in ancestry then I.LocalBranchMoved else I.RemoteNotContainingCommit)))
  {
    assert id in AsSet(pending);
  }

  /** And a receipt that was not selected stays as it is. */
  lemma UnselectedStays(start: map<Token, I.Intent>, pending: seq<Token>, id: Token, local: Token, seen: Option<Token>, ancestry: Ancestry)
    requires id in start && id !in pending
    ensures Decided(start, pending, local, seen, ancestry).Keys == start.Keys && Decided(start, pending, local, seen, ancestry)[id] == start[id]
  {
    assert id !in AsSet(pending);
  }
}
