/**
 The publication-job table of fast_receipts.py: one job per candidate, request
 keys pointing at jobs, and a publisher lease that fences the terminal write.
 Times are milliseconds, as the program's timestamps are.
 */
module Publications {
  import opened Common

  datatype Phase = Queued | Publishing | Published | Rejected | Ambiguous

  datatype Code = LocalHeadSuperseded | RemoteBaseChanged | RemoteAdvanced | RemoteChanged | RemoteUnknown | PushUnknown

  datatype Job = Job(
    jobId: Token, key: Token, candidate: Token, base: Token, phase: Phase,
    lease: Option<Token>, leaseExpires: Option<int>, observed: Option<Token>, error: Option<Code>)

  datatype KeyRow = KeyRow(jobId: Token, candidate: Token, base: Token)

  /** `byCandidate` is the unique index on candidates. */
  datatype Table = Table(jobs: map<Token, Job>, keys: map<Token, KeyRow>, byCandidate: map<Token, Token>)

  datatype Outcome<+T> = Outcome(table: Table, reply: Result<T>)

  const Empty := Table(map[], map[], map[])
  const LEASE_MS := 60000

  function Update(t: Table, job: Job): Table {
    t.(jobs := t.jobs[job.jobId := job])
  }

  /** `admit_publication`. */
  function Admit(t: Table, key: Token, candidate: Token, base: Token, freshId: Token): Outcome<Job> {
    if candidate == base then Outcome(t, Err(InvalidInput))
    else if key in t.keys && t.keys[key].jobId in t.jobs then
      var job := t.jobs[t.keys[key].jobId];
      if job.candidate != candidate || job.base != base then Outcome(t, Err(ConflictingInput)) else Outcome(t, Ok(job))
    else if candidate in t.byCandidate && t.byCandidate[candidate] in t.jobs then
      var job := t.jobs[t.byCandidate[candidate]];
      if job.base != base then Outcome(t, Err(ConflictingInput))
      else Outcome(t.(keys := t.keys[key := KeyRow(job.jobId, candidate, base)]), Ok(job))
    else
      var job := Job(freshId, key, candidate, base, Queued, None, None, None, None);
      Outcome(Table(t.jobs[freshId := job], t.keys[key := KeyRow(freshId, candidate, base)], t.byCandidate[candidate := freshId]), Ok(job))
  }

  /** `claim_publication`: lease one queued job for a minute. */
  function Claim(t: Table, jobId: Token, lease: Token, now: int): Outcome<Option<Job>> {
    if jobId !in t.jobs || t.jobs[jobId].phase != Queued then Outcome(t, Ok(None))
    else
      var job := t.jobs[jobId].(phase := Publishing, lease := Some(lease), leaseExpires := Some(now + LEASE_MS), error := None);
      Outcome(Update(t, job), Ok(Some(job)))
  }

  predicate ValidEnding(phase: Phase, observed: Option<Token>, error: Option<Code>) {
    && phase in {Published, Rejected, Ambiguous}
    && (phase == Published ==> observed.Some?)
    && (phase == Ambiguous ==> observed.None?)
    && (phase != Published ==> error.Some?)
  }

  /** `finish_publication` with the fenced update of `_finish_owned_publication`. */
  function Finish(t: Table, jobId: Token, lease: Token, phase: Phase, observed: Option<Token>, error: Option<Code>, now: int): Outcome<Job> {
    if !ValidEnding(phase, observed, error) then Outcome(t, Err(InvalidInput))
    else if jobId !in t.jobs then Outcome(t, Err(UnknownRow))
    else
      var job := t.jobs[jobId];
      if job.phase == phase then
        if job.lease != Some(lease) || job.observed != observed || job.error != error
        then Outcome(t, Err(ConflictingInput)) else Outcome(t, Ok(job))
      else if job.phase != Publishing || job.lease != Some(lease) then Outcome(t, Err(NotOwned))
      else if phase == Published && observed != Some(job.candidate) then Outcome(t, Err(InvalidInput))
      else if job.leaseExpires.None? || job.leaseExpires.value < now then Outcome(t, Err(LeaseExpired))
      else
        var done := job.(phase := phase, observed := observed, error := error, leaseExpires := None);
        Outcome(Update(t, done), Ok(done))
  }

  /** What a fresh look at the remote ref says about an unresolved job. */
  function Resolution(job: Job, remote: Token, onBase: Phase, baseError: Option<Code>): (Phase, Option<Code>) {
    if remote == job.candidate then (Published, None)
    else if remote == job.base then (onBase, baseError)
    else (Rejected, Some(RemoteBaseChanged))
  }

  /** `recover_publication`: an ambiguous job, or a publishing job whose lease has run out. */
  function Recover(t: Table, jobId: Token, remote: Token, now: int): Outcome<Job> {
    if jobId !in t.jobs then Outcome(t, Err(UnknownRow))
    else
      var job := t.jobs[jobId];
      var (phase, error) := Resolution(job, remote, Queued, None);
      if job.phase !in {Publishing, Ambiguous} then Outcome(t, Err(NotInPhase))
      else if job.phase == Publishing && (job.leaseExpires.None? || job.leaseExpires.value >= now) then Outcome(t, Err(LeaseActive))
      else
        var done := job.(phase := phase, lease := None, leaseExpires := None, observed := Some(remote), error := error);
        Outcome(Update(t, done), Ok(done))
  }

  /** `resolve_superseded_publication`: a queued job whose candidate is no longer the local head. */
  function Supersede(t: Table, jobId: Token, remote: Token): Outcome<Job> {
    if jobId !in t.jobs then Outcome(t, Err(UnknownRow))
    else
      var job := t.jobs[jobId];
      var (phase, error) := Resolution(job, remote, Rejected, Some(LocalHeadSuperseded));
      if job.phase != Queued then Outcome(t, Err(NotInPhase))
      else
        var done := job.(phase := phase, observed := Some(remote), error := error);
        Outcome(Update(t, done), Ok(done))
  }

  // ---- Runs -----------------------------------------------------------------

  datatype Step =
    | DoAdmit(key: Token, candidate: Token, base: Token, freshId: Token)
    | DoClaim(jobId: Token, lease: Token)
    | DoFinish(jobId: Token, lease: Token, phase: Phase, observed: Option<Token>, error: Option<Code>)
    | DoRecover(jobId: Token, remote: Token)
    | DoSupersede(jobId: Token, remote: Token)
    | Tick(elapsed: nat)

  /** The table, the clock, and every lease ever handed out: fresh ids and leases are not reused. */
  datatype World = World(table: Table, now: int, leases: set<Token>)

  const Start := World(Empty, 0, {})

  function Next(w: World, step: Step): World {
    match step
    case DoAdmit(key, candidate, base, freshId) =>
      if freshId in w.table.jobs then w else w.(table := Admit(w.table, key, candidate, base, freshId).table)
    case DoClaim(jobId, lease) =>
      if lease in w.leases then w else w.(table := Claim(w.table, jobId, lease, w.now).table, leases := w.leases + {lease})
    case DoFinish(jobId, lease, phase, observed, error) =>
      w.(table := Finish(w.table, jobId, lease, phase, observed, error, w.now).table)
    case DoRecover(jobId, remote) => w.(table := Recover(w.table, jobId, remote, w.now).table)
    case DoSupersede(jobId, remote) => w.(table := Supersede(w.table, jobId, remote).table)
    case Tick(elapsed) => w.(now := w.now + elapsed)
  }

  function Exec(w: World, steps: seq<Step>): World
    decreases |steps|
  {
    if steps == [] then w else Exec(Next(w, steps[0]), steps[1..])
  }

  // ---- The invariant --------------------------------------------------------

  ghost predicate JobOk(job: Job) {
    && job.candidate != job.base
    && (job.phase == Published ==> job.observed == Some(job.candidate))
    && (job.phase == Rejected ==> job.error.Some?)
    && (job.phase == Publishing <==> job.leaseExpires.Some?)
    && (job.phase == Publishing ==> job.lease.Some?)
    && (job.phase == Queued ==> job.lease.None?)
  }

  ghost predicate Valid(t: Table) {
    && (forall id :: id in t.jobs ==> t.jobs[id].jobId == id && JobOk(t.jobs[id]) && t.jobs[id].candidate in t.byCandidate && t.byCandidate[t.jobs[id].candidate] == id)
    && (forall c :: c in t.byCandidate ==> t.byCandidate[c] in t.jobs && t.jobs[t.byCandidate[c]].candidate == c)
    && (forall k :: k in t.keys ==> KeyAgrees(t, t.keys[k]))
  }

  /** A request key's own copy of its descriptor is the job's. */
  ghost predicate KeyAgrees(t: Table, row: KeyRow) {
    row.jobId in t.jobs && t.jobs[row.jobId].candidate == row.candidate && t.jobs[row.jobId].base == row.base
  }

  ghost predicate LeasesKnown(w: World) {
    forall id :: id in w.table.jobs && w.table.jobs[id].lease.Some? ==> w.table.jobs[id].lease.value in w.leases
  }

  /** Only the phase of a job, its lease and its evidence may change. */
  ghost predicate SameRequest(a: Job, b: Job) {
    a.jobId == b.jobId && a.key == b.key && a.candidate == b.candidate && a.base == b.base
  }

  /** The terminal phases are absorbing: the row is kept as it is. */
  ghost predicate Frozen(a: Job, b: Job) {
    a.phase in {Published, Rejected} ==> a == b
  }

  lemma UpdateValid(t: Table, job: Job)
    requires Valid(t) && job.jobId in t.jobs && SameRequest(t.jobs[job.jobId], job) && JobOk(job)
    ensures Valid(Update(t, job))
  {
    var t' := Update(t, job);
    forall k | k in t'.keys ensures KeyAgrees(t', t'.keys[k]) { assert KeyAgrees(t, t.keys[k]); }
  }

  lemma AdmitValid(t: Table, key: Token, candidate: Token, base: Token, freshId: Token)
    requires Valid(t) && freshId !in t.jobs
    ensures Valid(Admit(t, key, candidate, base, freshId).table)
  {
    var t' := Admit(t, key, candidate, base, freshId).table;
    forall k | k in t'.keys ensures KeyAgrees(t', t'.keys[k]) {
      if k in t.keys { assert KeyAgrees(t, t.keys[k]); }
    }
  }

  /** Admission never disturbs an existing job, and answers with the job of this candidate on this base. */
  lemma AdmitEffect(t: Table, key: Token, candidate: Token, base: Token, freshId: Token)
    requires Valid(t) && freshId !in t.jobs
    ensures var out := Admit(t, key, candidate, base, freshId);
      && (forall id :: id in t.jobs ==> id in out.table.jobs && out.table.jobs[id] == t.jobs[id])
      && (out.reply.Ok? ==> out.reply.value.jobId in out.table.jobs && out.table.jobs[out.reply.value.jobId] == out.reply.value
                            && out.reply.value.candidate == candidate && out.reply.value.base == base)
  {
    if key in t.keys { assert KeyAgrees(t, t.keys[key]); }
  }

  /** The effect of an operation on one unresolved job: its request is fixed, its lease is kept, dropped or brand new. */
  ghost predicate Rewrites(w: World, w': World, id: Token) {
    && id in w.table.jobs && id in w'.table.jobs && w'.table == Update(w.table, w'.table.jobs[id])
    && SameRequest(w.table.jobs[id], w'.table.jobs[id]) && JobOk(w'.table.jobs[id])
    && w.table.jobs[id].phase !in {Published, Rejected}
    && LeaseMoves(w, w', w.table.jobs[id].lease, w'.table.jobs[id].lease)
  }

  ghost predicate LeaseMoves(w: World, w': World, before: Option<Token>, after: Option<Token>) {
    after.Some? ==> after.value in w'.leases && (after == before || after.value !in w.leases)
  }

  lemma StepEffect(w: World, step: Step)
    requires Valid(w.table) && LeasesKnown(w) && (step.DoClaim? || step.DoFinish? || step.DoRecover? || step.DoSupersede?)
    ensures Next(w, step).table == w.table || Rewrites(w, Next(w, step), step.jobId)
  {
  }

  ghost predicate Preserves(t: Table, t': Table) {
    forall id :: id in t.jobs ==> id in t'.jobs && SameRequest(t.jobs[id], t'.jobs[id]) && Frozen(t.jobs[id], t'.jobs[id])
  }

  lemma RewriteKeeps(w: World, w': World, id: Token)
    requires Valid(w.table) && LeasesKnown(w) && Rewrites(w, w', id) && w.leases <= w'.leases
    ensures Valid(w'.table) && LeasesKnown(w') && Preserves(w.table, w'.table)
  {
    UpdateValid(w.table, w'.table.jobs[id]);
  }

  lemma AdmitKeeps(w: World, key: Token, candidate: Token, base: Token, freshId: Token)
    requires Valid(w.table) && LeasesKnown(w)
    ensures var w' := Next(w, DoAdmit(key, candidate, base, freshId));
      Valid(w'.table) && LeasesKnown(w') && Preserves(w.table, w'.table)
  {
    if freshId !in w.table.jobs { AdmitValid(w.table, key, candidate, base, freshId); }
  }

  lemma StepKeeps(w: World, step: Step)
    requires Valid(w.table) && LeasesKnown(w)
    ensures Valid(Next(w, step).table) && LeasesKnown(Next(w, step)) && Preserves(w.table, Next(w, step).table)
    ensures w.now <= Next(w, step).now && w.leases <= Next(w, step).leases
  {
    match step
    case DoAdmit(key, candidate, base, freshId) => AdmitKeeps(w, key, candidate, base, freshId);
    case Tick(_) =>
    case _ =>
      StepEffect(w, step);
      if Next(w, step).table != w.table { RewriteKeeps(w, Next(w, step), step.jobId); }
  }

  lemma {:induction false} RunKeeps(w: World, steps: seq<Step>)
    requires Valid(w.table) && LeasesKnown(w)
    ensures var w' := Exec(w, steps); Valid(w'.table) && LeasesKnown(w') && w.now <= w'.now
    ensures Preserves(w.table, Exec(w, steps).table)
    decreases |steps|
  {
    if steps != [] {
      StepKeeps(w, steps[0]);
      RunKeeps(Next(w, steps[0]), steps[1..]);
    }
  }

  // ---- Main results ---------------------------------------------------------

  /** In every reachable table: published means the remote was seen at the candidate, one job per candidate, keys agree with their jobs. */
  lemma PublicationFence(steps: seq<Step>)
    ensures var t := Exec(Start, steps).table;
      && (forall id :: id in t.jobs && t.jobs[id].phase == Published ==> t.jobs[id].observed == Some(t.jobs[id].candidate))
      && (forall id, other :: id in t.jobs && other in t.jobs && t.jobs[id].candidate == t.jobs[other].candidate ==> id == other)
      && (forall k :: k in t.keys ==> KeyAgrees(t, t.keys[k]))
  {
    RunKeeps(Start, steps);
  }

  /** Published and rejected jobs keep their whole row through every continuation. */
  lemma TerminalIsAbsorbing(before: seq<Step>, after: seq<Step>, id: Token)
    requires id in Exec(Start, before).table.jobs && Exec(Start, before).table.jobs[id].phase in {Published, Rejected}
    ensures var w := Exec(Exec(Start, before), after);
      id in w.table.jobs && w.table.jobs[id] == Exec(Start, before).table.jobs[id]
  {
    RunKeeps(Start, before);
    RunKeeps(Exec(Start, before), after);
  }

  /** At any instant a publishing job either can be finished by its holder or can be recovered: exactly one of the two. */
  lemma FinishXorRecover(steps: seq<Step>, id: Token, phase: Phase, observed: Option<Token>, error: Option<Code>, remote: Token)
    requires var t := Exec(Start, steps).table; id in t.jobs && t.jobs[id].phase == Publishing
    requires ValidEnding(phase, observed, error) && (phase == Published ==> observed == Some(Exec(Start, steps).table.jobs[id].candidate))
    ensures var w := Exec(Start, steps); var job := w.table.jobs[id];
      && job.lease.Some?
      && (Finish(w.table, id, job.lease.value, phase, observed, error, w.now).reply.Ok? <==> !Recover(w.table, id, remote, w.now).reply.Ok?)
      && forall other: Token :: Some(other) != job.lease ==> !Finish(w.table, id, other, phase, observed, error, w.now).reply.Ok?
  {
    RunKeeps(Start, steps);
  }

  /** The job no longer carries this lease, and the lease will not be handed out again. */
  ghost predicate LostLease(w: World, id: Token, lease: Token) {
    id in w.table.jobs && w.table.jobs[id].lease != Some(lease) && lease in w.leases
  }

  lemma LostLeaseStays(w: World, step: Step, id: Token, lease: Token)
    requires Valid(w.table) && LeasesKnown(w) && LostLease(w, id, lease)
    ensures LostLease(Next(w, step), id, lease)
  {
    if step.DoClaim? || step.DoFinish? || step.DoRecover? || step.DoSupersede? { StepEffect(w, step); }
  }

  lemma {:induction false} LostLeaseRun(w: World, steps: seq<Step>, id: Token, lease: Token)
    requires Valid(w.table) && LeasesKnown(w) && LostLease(w, id, lease)
    ensures LostLease(Exec(w, steps), id, lease)
    decreases |steps|
  {
    if steps != [] {
      LostLeaseStays(w, steps[0], id, lease);
      StepKeeps(w, steps[0]);
      LostLeaseRun(Next(w, steps[0]), steps[1..], id, lease);
    }
  }

  /** Once a job is recovered from a publisher, that publisher's lease never finishes it, whatever happens afterwards. */
  lemma RecoveredLeaseIsDead(
    before: seq<Step>, id: Token, lease: Token, remote: Token, after: seq<Step>,
    phase: Phase, observed: Option<Token>, error: Option<Code>)
    requires id in Exec(Start, before).table.jobs && Exec(Start, before).table.jobs[id].lease == Some(lease)
    requires Recover(Exec(Start, before).table, id, remote, Exec(Start, before).now).reply.Ok?
    ensures var w := Exec(Next(Exec(Start, before), DoRecover(id, remote)), after);
      Finish(w.table, id, lease, phase, observed, error, w.now).reply.Err?
  {
    var w := Exec(Start, before);
    RunKeeps(Start, before);
    StepKeeps(w, DoRecover(id, remote));
    LostLeaseRun(Next(w, DoRecover(id, remote)), after, id, lease);
  }
}
