/** The candidate-fenced job journal of formal_job_receipts.py. */
module FormalJobs {
  import opened Common

  datatype State = Started | Running | Completed | Failed | Cancelled | Superseded

  /** What a job is for; the table allows one row per key. */
  datatype Key = Key(scope: Token, candidate: Token, tier: Token, resource: Token)

  datatype Receipt = Receipt(job: Token, key: Key, state: State, ended: int, exitCode: Option<int>, detail: Token)

  datatype Job = Job(key: Key, state: State, revision: nat, token: Option<Token>, receipt: Option<Receipt>)

  type Jobs = map<Token, Job>

  const REPLACED: Token := 0

  predicate Active(j: Job) {
    j.state == Started || j.state == Running
  }

  predicate ActiveIn(j: Job, scope: Token) {
    Active(j) && j.key.scope == scope
  }

  function Ended(id: Token, j: Job, state: State, now: int, exitCode: Option<int>, detail: Token): Job {
    j.(state := state, revision := j.revision + 1, token := None, receipt := Some(Receipt(id, j.key, state, now, exitCode, detail)))
  }

  predicate Known(jobs: Jobs, key: Key) {
    exists id :: id in jobs && jobs[id].key == key
  }

  /** Every active row of the scope ended as superseded, the others as they were. */
  function Replaced(jobs: Jobs, scope: Token, now: int): Jobs {
    map id | id in jobs :: if ActiveIn(jobs[id], scope) then Ended(id, jobs[id], Superseded, now, None, REPLACED) else jobs[id]
  }

  function DoStart(jobs: Jobs, key: Key, newId: Token, now: int): Jobs {
    if Known(jobs, key) then jobs
    else Replaced(jobs, key.scope, now)[newId := Job(key, Started, 1, None, None)]
  }

  function DoBegin(jobs: Jobs, id: Token, expected: nat, token: Token): Result<Jobs> {
    if id !in jobs then Err(UnknownRow)
    else if jobs[id].state != Started || jobs[id].revision != expected then Err(StaleRevision)
    else Ok(jobs[id := jobs[id].(state := Running, revision := expected + 1, token := Some(token))])
  }

  function DoRecover(jobs: Jobs, id: Token, expected: nat): Result<Jobs> {
    if id !in jobs then Err(UnknownRow)
    else if jobs[id].state != Running || jobs[id].revision != expected then Err(StaleRevision)
    else Ok(jobs[id := jobs[id].(state := Started, revision := expected + 1, token := None)])
  }

  function DoFinish(jobs: Jobs, id: Token, expected: nat, token: Token, state: State, now: int, exitCode: Option<int>, detail: Token): Result<Jobs> {
    if state == Started || state == Running || state == Superseded then Err(InvalidInput)
    else if id !in jobs then Err(UnknownRow)
    else if jobs[id].state != Running || jobs[id].revision != expected || jobs[id].token != Some(token) then Err(StaleRevision)
    else Ok(jobs[id := Ended(id, jobs[id], state, now, exitCode, detail)])
  }

  // ---- The store ------------------------------------------------------------

  class FormalJobStore {
    var jobs: Jobs

    constructor ()
      ensures jobs == map[]
    {
      jobs := map[];
    }

    /** `start`: an existing key returns its job; otherwise every active job of the scope is superseded, row by row, and a new one inserted. */
    method Start(key: Key, newId: Token, now: int) returns (id: Token)
      requires newId !in jobs
      modifies this
      ensures jobs == DoStart(old(jobs), key, newId, now)
      ensures id in jobs && jobs[id].key == key
      // A known key answers with its job and touches nothing.
      ensures (exists k :: k in old(jobs) && old(jobs)[k].key == key) ==> jobs == old(jobs) && id in old(jobs)
      // Otherwise one new job stands started, every active job of the scope has ended as superseded, and the rest is as it was.
      ensures !(exists k :: k in old(jobs) && old(jobs)[k].key == key) ==>
        && id == newId && jobs[id] == Job(key, Started, 1, None, None) && jobs.Keys == old(jobs).Keys + {newId}
        && forall k :: k in old(jobs) ==>
          var was := old(jobs)[k];
          if was.key.scope == key.scope && (was.state == Started || was.state == Running)
          then jobs[k] == was.(state := Superseded, revision := was.revision + 1, token := None, receipt := Some(Receipt(k, was.key, Superseded, now, None, 0)))
          else jobs[k] == was
    {
      if existing: Token :| existing in jobs && jobs[existing].key == key {
        return existing;
      }
      var before := jobs;
      var todo := set k | k in jobs && ActiveIn(jobs[k], key.scope);
      while todo != {}
        invariant jobs.Keys == before.Keys && todo <= jobs.Keys
        invariant forall k :: k in todo ==> jobs[k] == before[k] && ActiveIn(before[k], key.scope)
        invariant forall k :: k in before && k !in todo ==> jobs[k] == Replaced(before, key.scope, now)[k]
        decreases |todo|
      {
        var row :| row in todo;
        jobs := jobs[row := Ended(row, jobs[row], Superseded, now, None, REPLACED)];
        todo := todo - {row};
      }
      assert jobs == Replaced(before, key.scope, now);
      jobs := jobs[newId := Job(key, Started, 1, None, None)];
      return newId;
    }

    method Begin(id: Token, expected: nat, token: Token) returns (error: Option<Error>)
      modifies this
      ensures error == None <==> id in old(jobs) && old(jobs)[id].state == Started && old(jobs)[id].revision == expected
      ensures jobs == if error == None then old(jobs)[id := old(jobs)[id].(state := Running, revision := expected + 1, token := Some(token))] else old(jobs)
      ensures match DoBegin(old(jobs), id, expected, token) case Ok(j) => jobs == j && error == None case Err(e) => jobs == old(jobs) && error == Some(e)
    {
      if id !in jobs { return Some(UnknownRow); }
      var row := jobs[id];
      if row.state != Started || row.revision != expected { return Some(StaleRevision); }
      jobs := jobs[id := row.(state := Running, revision := row.revision + 1, token := Some(token))];
      return None;
    }

    method Recover(id: Token, expected: nat) returns (error: Option<Error>)
      modifies this
      ensures error == None <==> id in old(jobs) && old(jobs)[id].state == Running && old(jobs)[id].revision == expected
      ensures jobs == if error == None then old(jobs)[id := old(jobs)[id].(state := Started, revision := expected + 1, token := None)] else old(jobs)
      ensures match DoRecover(old(jobs), id, expected) case Ok(j) => jobs == j && error == None case Err(e) => jobs == old(jobs) && error == Some(e)
    {
      if id !in jobs { return Some(UnknownRow); }
      var row := jobs[id];
      if row.state != Running || row.revision != expected { return Some(StaleRevision); }
      jobs := jobs[id := row.(state := Started, revision := row.revision + 1, token := None)];
      return None;
    }

    method Finish(id: Token, expected: nat, token: Token, state: State, now: int, exitCode: Option<int>, detail: Token) returns (error: Option<Error>)
      modifies this
      ensures error == None <==>
        && (state == Completed || state == Failed || state == Cancelled)
        && id in old(jobs) && old(jobs)[id].state == Running && old(jobs)[id].revision == expected && old(jobs)[id].token == Some(token)
      ensures error == None ==>
        jobs == old(jobs)[id := Job(old(jobs)[id].key, state, expected + 1, None, Some(Receipt(id, old(jobs)[id].key, state, now, exitCode, detail)))]
      ensures error.Some? ==> jobs == old(jobs)
      ensures match DoFinish(old(jobs), id, expected, token, state, now, exitCode, detail)
              case Ok(j) => jobs == j && error == None
              case Err(e) => jobs == old(jobs) && error == Some(e)
    {
      if state !in {Completed, Failed, Cancelled} { return Some(InvalidInput); }
      if id !in jobs { return Some(UnknownRow); }
      var row := jobs[id];
      if row.state != Running || row.revision != expected || row.token != Some(token) { return Some(StaleRevision); }
      jobs := jobs[id := Ended(id, row, state, now, exitCode, detail)];
      return None;
    }

    /** `execute`, where `others` is what other callers do while the runner works and `issued` the tokens drawn before:
        the runner's outcome (`None` when it raised) becomes the job's one receipt exactly if nothing happened to this job
        meanwhile; otherwise the outcome is dropped and what the others did stands. */
    method Execute(id: Token, expected: nat, token: Token, issued: set<Token>, others: seq<Step>, outcome: Option<(int, Token)>, raised: Token, now: int)
      returns (error: Option<Error>)
      requires Inv(World(jobs, issued)) && token !in issued
      modifies this
      ensures match DoBegin(old(jobs), id, expected, token)
              case Err(e) => error == Some(e) && jobs == old(jobs)
              case Ok(begun) =>
                var after := Exec(World(begun, issued + {token}), others).jobs;
                && id in begun && id in after
                && (error == None <==> after[id] == begun[id])
                && (error.Some? ==> error == Some(StaleRevision) && jobs == after)
                && (error == None ==>
                  && id in jobs && jobs == after[id := jobs[id]] && jobs[id].key == old(jobs)[id].key && jobs[id].revision == expected + 2
                  && jobs[id].state == (if outcome.Some? && outcome.value.0 == 0 then Completed else Failed)
                  && jobs[id].receipt.Some? && jobs[id].receipt.value.ended == now
                  && jobs[id].receipt.value.exitCode == (if outcome.Some? then Some(outcome.value.0) else None)
                  && jobs[id].receipt.value.detail == (if outcome.Some? then outcome.value.1 else raised))
    {
      ghost var w := World(jobs, issued);
      error := Begin(id, expected, token);
      if error.Some? { return; }
      FinishMeansUndisturbed(w, id, expected, token, others, Failed, now, None, raised);
      jobs := Exec(World(jobs, issued + {token}), others).jobs;
      if outcome.None? {
        error := Finish(id, expected + 1, token, Failed, now, None, raised);
      } else {
        var (exitCode, detail) := outcome.value;
        error := Finish(id, expected + 1, token, if exitCode == 0 then Completed else Failed, now, Some(exitCode), detail);
      }
    }

    /** `receipt`: only a completed, matching, zero-exit receipt is evidence. */
    method ReceiptFor(id: Token, candidate: Token, tier: Token) returns (r: Result<Receipt>)
      ensures r.Ok? <==>
        && id in jobs && jobs[id].state == Completed && jobs[id].receipt.Some?
        && jobs[id].receipt.value.key.candidate == candidate && jobs[id].receipt.value.key.tier == tier
        && jobs[id].receipt.value.exitCode == Some(0)
      ensures r.Ok? ==> Some(r.value) == jobs[id].receipt
    {
      if id !in jobs { return Err(UnknownRow); }
      var row := jobs[id];
      if row.state != Completed || row.receipt.None? { return Err(NotInPhase); }
      var receipt := row.receipt.value;
      if receipt.key.candidate != candidate || receipt.key.tier != tier || receipt.exitCode != Some(0) { return Err(ConflictingInput); }
      return Ok(receipt);
    }
  }

  // ---- Runs -----------------------------------------------------------------

  datatype Step =
    | Start(key: Key, newId: Token, now: int)
    | Begin(id: Token, expected: nat, token: Token)
    | Recover(id: Token, expected: nat)
    | Finish(id: Token, expected: nat, token: Token, state: State, now: int, exitCode: Option<int>, detail: Token)

  /** `issued` holds every token drawn so far; job ids and tokens are random and never drawn twice. */
  datatype World = World(jobs: Jobs, issued: set<Token>)

  function OrSame(w: World, r: Result<Jobs>): World {
    if r.Ok? then w.(jobs := r.value) else w
  }

  function Next(w: World, s: Step): World {
    match s
    case Start(key, newId, now) => if newId in w.jobs then w else w.(jobs := DoStart(w.jobs, key, newId, now))
    case Begin(id, expected, token) =>
      if token in w.issued then w else OrSame(w, DoBegin(w.jobs, id, expected, token)).(issued := w.issued + {token})
    case Recover(id, expected) => OrSame(w, DoRecover(w.jobs, id, expected))
    case Finish(id, expected, token, state, now, exitCode, detail) =>
      OrSame(w, DoFinish(w.jobs, id, expected, token, state, now, exitCode, detail))
  }

  function Exec(w: World, steps: seq<Step>): World
    decreases |steps|
  {
    if steps == [] then w else Exec(Next(w, steps[0]), steps[1..])
  }

  predicate RowOk(id: Token, j: Job) {
    && (j.receipt.Some? <==> !Active(j)) && (j.token.Some? <==> j.state == Running)
    && (j.receipt.Some? ==> j.receipt.value.job == id && j.receipt.value.key == j.key && j.receipt.value.state == j.state)
    && j.revision >= 1
  }

  predicate Inv(w: World) {
    && (forall id :: id in w.jobs ==> RowOk(id, w.jobs[id]) && (w.jobs[id].token.Some? ==> w.jobs[id].token.value in w.issued))
    && (forall a, b :: a in w.jobs && b in w.jobs && Active(w.jobs[a]) && Active(w.jobs[b]) && w.jobs[a].key.scope == w.jobs[b].key.scope ==> a == b)
    && (forall a, b :: a in w.jobs && b in w.jobs && w.jobs[a].key == w.jobs[b].key ==> a == b)
  }

  /** A rewrite of one row that keeps its key and makes nothing active. */
  lemma RowKeeps(w: World, id: Token, j: Job, issued: set<Token>)
    requires Inv(w) && id in w.jobs && j.key == w.jobs[id].key && (Active(j) ==> Active(w.jobs[id]))
    requires RowOk(id, j) && w.issued <= issued && (j.token.Some? ==> j.token.value in issued)
    ensures Inv(World(w.jobs[id := j], issued))
  {
  }

  lemma StartKeeps(w: World, key: Key, newId: Token, now: int)
    requires Inv(w) && newId !in w.jobs && !Known(w.jobs, key)
    ensures Inv(w.(jobs := DoStart(w.jobs, key, newId, now)))
  {
    var v := w.(jobs := DoStart(w.jobs, key, newId, now));
    forall id | id in v.jobs && id != newId
      ensures id in w.jobs && v.jobs[id].key == w.jobs[id].key && RowOk(id, v.jobs[id])
      ensures Active(v.jobs[id]) ==> Active(w.jobs[id]) && v.jobs[id] == w.jobs[id] && v.jobs[id].key.scope != key.scope
      ensures v.jobs[id].token.Some? ==> v.jobs[id].token == w.jobs[id].token
    {
      assert RowOk(id, w.jobs[id]);
    }
  }

  lemma StepKeeps(w: World, s: Step)
    requires Inv(w)
    ensures Inv(Next(w, s))
  {
    var v := Next(w, s);
    match s {
      case Start(key, newId, now) => if newId !in w.jobs && !Known(w.jobs, key) { StartKeeps(w, key, newId, now); }
      case Begin(id, expected, token) => if v.jobs != w.jobs { RowKeeps(w, id, v.jobs[id], v.issued); }
      case Recover(id, expected) => if v.jobs != w.jobs { RowKeeps(w, id, v.jobs[id], v.issued); }
      case Finish(id, expected, token, state, now, exitCode, detail) => if v.jobs != w.jobs { RowKeeps(w, id, v.jobs[id], v.issued); }
    }
  }

  /** In every run each scope has at most one active job, each key one row, and a receipt exactly on terminal rows. */
  lemma {:induction false} RunKeeps(w: World, steps: seq<Step>)
    requires Inv(w)
    ensures Inv(Exec(w, steps))
    decreases |steps|
  {
    if steps != [] {
      StepKeeps(w, steps[0]);
      RunKeeps(Next(w, steps[0]), steps[1..]);
    }
  }

  /** One step: rows stay, a row that changes has its revision raised by one, and a terminal row does not change. */
  lemma StepRaises(w: World, s: Step, id: Token)
    requires Inv(w) && id in w.jobs
    ensures var v := Next(w, s);
      && id in v.jobs && w.issued <= v.issued
      && (v.jobs[id] == w.jobs[id] || v.jobs[id].revision == w.jobs[id].revision + 1)
      && (!Active(w.jobs[id]) ==> v.jobs[id] == w.jobs[id])
      && (v.jobs[id].token.Some? ==> v.jobs[id].token == w.jobs[id].token || v.jobs[id].token.value !in w.issued)
  {
    assert RowOk(id, w.jobs[id]);
  }

  /** Over any run revisions never fall, a row with the same revision is the same row, and a terminal row with its receipt is final. */
  lemma {:induction false} RevisionsRise(w: World, steps: seq<Step>, id: Token)
    requires Inv(w) && id in w.jobs
    ensures var v := Exec(w, steps);
      && id in v.jobs && v.jobs[id].revision >= w.jobs[id].revision
      && (v.jobs[id].revision == w.jobs[id].revision ==> v.jobs[id] == w.jobs[id])
      && (!Active(w.jobs[id]) ==> v.jobs[id] == w.jobs[id])
    decreases |steps|
  {
    if steps != [] {
      StepKeeps(w, steps[0]);
      StepRaises(w, steps[0], id);
      RevisionsRise(Next(w, steps[0]), steps[1..], id);
    }
  }

  /** The row holds no token of an old set, and never will. */
  predicate Cut(w: World, id: Token, past: set<Token>) {
    id in w.jobs && past <= w.issued && (w.jobs[id].token.Some? ==> w.jobs[id].token.value !in past)
  }

  lemma {:induction false} CutStays(w: World, steps: seq<Step>, id: Token, past: set<Token>)
    requires Inv(w) && Cut(w, id, past)
    ensures Cut(Exec(w, steps), id, past)
    decreases |steps|
  {
    if steps != [] {
      StepKeeps(w, steps[0]);
      StepRaises(w, steps[0], id);
      CutStays(Next(w, steps[0]), steps[1..], id, past);
    }
  }

  /** After a recovery, whatever happens, no completion with a token drawn or a revision seen before it is accepted. */
  lemma RecoveredIsFenced(w: World, id: Token, expected: nat, steps: seq<Step>, late: Step)
    requires Inv(w) && DoRecover(w.jobs, id, expected).Ok?
    requires late.Finish? && late.id == id && (late.token in w.issued || late.expected <= expected)
    ensures var v := Exec(Next(w, Recover(id, expected)), steps);
      DoFinish(v.jobs, id, late.expected, late.token, late.state, late.now, late.exitCode, late.detail).Err?
  {
    var u := Next(w, Recover(id, expected));
    StepKeeps(w, Recover(id, expected));
    CutStays(u, steps, id, w.issued);
    RevisionsRise(u, steps, id);
  }

  /** `execute` with anything happening while the runner works: its completion is accepted exactly if nothing happened to its own job. */
  lemma FinishMeansUndisturbed(w: World, id: Token, expected: nat, token: Token, steps: seq<Step>, state: State, now: int, exitCode: Option<int>, detail: Token)
    requires Inv(w) && token !in w.issued && DoBegin(w.jobs, id, expected, token).Ok?
    requires state == Completed || state == Failed || state == Cancelled
    ensures var u := Next(w, Begin(id, expected, token)); var v := Exec(u, steps);
      && id in u.jobs && id in v.jobs
      && (DoFinish(v.jobs, id, expected + 1, token, state, now, exitCode, detail).Ok? <==> v.jobs[id] == u.jobs[id])
  {
    var u := Next(w, Begin(id, expected, token));
    StepKeeps(w, Begin(id, expected, token));
    RevisionsRise(u, steps, id);
  }
}
