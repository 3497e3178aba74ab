/** What one and two recovery passes over the publication jobs leave behind. */
module Settlement {
  import opened Common
  import opened Publications

  /** A publishing job whose lease has not run out: nobody but its holder may touch it. */
  predicate Live(job: Job, now: int) {
    job.phase == Publishing && (job.leaseExpires.None? || job.leaseExpires.value >= now)
  }

  predicate Recoverable(job: Job, now: int) {
    job.phase in {Queued, Ambiguous} || (job.phase == Publishing && !Live(job, now))
  }

  /** One job after one pass of `_recover_outstanding_publications`. */
  function AfterPass(job: Job, local: Token, remote: Token, now: int): Job {
    if !Recoverable(job, now) then job
    else if job.phase == Queued then
      if job.candidate == local then job
      else
        var (phase, error) := Resolution(job, remote, Rejected, Some(LocalHeadSuperseded));
        job.(phase := phase, observed := Some(remote), error := error)
    else
      var (phase, error) := Resolution(job, remote, Queued, None);
      job.(phase := phase, lease := None, leaseExpires := None, observed := Some(remote), error := error)
  }

  function Pass(t: Table, local: Token, remote: Token, now: int): Table {
    t.(jobs := map id | id in t.jobs :: AfterPass(t.jobs[id], local, remote, now))
  }

  /** The loop: each listed job is revisited in turn. */
  function Visit(jobs: map<Token, Job>, listing: seq<Token>, local: Token, remote: Token, now: int): map<Token, Job> {
    if listing == [] then jobs
    else
      var last := listing[|listing| - 1];
      var before := Visit(jobs, listing[..|listing| - 1], local, remote, now);
      if last in before then before[last := AfterPass(before[last], local, remote, now)] else before
  }

  ghost predicate NoRepeats(listing: seq<Token>) {
    forall i, j :: 0 <= i < j < |listing| ==> listing[i] != listing[j]
  }

  lemma VisitedOnce(jobs: map<Token, Job>, listing: seq<Token>, id: Token, local: Token, remote: Token, now: int)
    requires NoRepeats(listing) && id in jobs
    ensures var jobs' := Visit(jobs, listing, local, remote, now);
      id in jobs' && jobs'.Keys == jobs.Keys
      && jobs'[id] == if id in listing then AfterPass(jobs[id], local, remote, now) else jobs[id]
  {
    if listing != [] {
      var init, last := listing[..|listing| - 1], listing[|listing| - 1];
      assert listing == init + [last];
      VisitedOnce(jobs, init, id, local, remote, now);
      if last in jobs && last == id { assert id !in init; }
    }
  }

  /** Visiting each recoverable job once, in whatever order, is the pass. */
  lemma VisitIsPass(t: Table, listing: seq<Token>, local: Token, remote: Token, now: int)
    requires NoRepeats(listing) && forall id :: id in listing <==> id in t.jobs && Recoverable(t.jobs[id], now)
    ensures t.(jobs := Visit(t.jobs, listing, local, remote, now)) == Pass(t, local, remote, now)
  {
    VisitKeys(t.jobs, listing, local, remote, now);
    forall id | id in t.jobs { VisitedOnce(t.jobs, listing, id, local, remote, now); }
    var visited, passed := Visit(t.jobs, listing, local, remote, now), Pass(t, local, remote, now).jobs;
    assert visited == passed;
  }

  lemma VisitKeys(jobs: map<Token, Job>, listing: seq<Token>, local: Token, remote: Token, now: int)
    ensures Visit(jobs, listing, local, remote, now).Keys == jobs.Keys
  {
  }

  predicate Terminal(job: Job) {
    job.phase == Published || job.phase == Rejected
  }

  /** The jobs a settled table may hold. */
  predicate Settled(job: Job, local: Token) {
    Terminal(job) || (job.phase == Queued && job.candidate == local)
  }

  /** How many more visits a job can need. */
  function Weight(job: Job, local: Token): nat {
    if Settled(job, local) then 0 else if job.phase == Queued then 1 else 2
  }

  lemma PassDecreases(job: Job, local: Token, remote: Token, now: int)
    requires JobOk(job) && !Live(job, now)
    ensures var job' := AfterPass(job, local, remote, now);
      && JobOk(job') && job'.phase != Publishing && SameRequest(job, job')
      && (Weight(job, local) > 0 ==> Weight(job', local) < Weight(job, local))
      && (Weight(job, local) == 0 ==> job' == job)
  {
  }

  /** Two passes with the same heads, the second at any later time, leave only terminal jobs and jobs queued for the local head;
      a job under a lease still live at the second is untouched. */
  lemma TwoPassesSettle(t: Table, local: Token, remote: Token, now: int, later: int, id: Token)
    requires Valid(t) && id in t.jobs && now <= later
    ensures var t2 := Pass(Pass(t, local, remote, now), local, remote, later);
      && (!Live(t.jobs[id], now) ==> Settled(t2.jobs[id], local))
      && (Live(t.jobs[id], later) ==> t2.jobs[id] == t.jobs[id])
  {
    if !Live(t.jobs[id], now) {
      PassDecreases(t.jobs[id], local, remote, now);
      PassDecreases(AfterPass(t.jobs[id], local, remote, now), local, remote, later);
    }
  }

  /** An interrupted push of a head that is no longer local, with the remote still where it started. */
  predicate Requeues(job: Job, local: Token, remote: Token) {
    job.phase in {Publishing, Ambiguous} && job.base == remote && job.candidate != local
  }

  /** One pass settles a job exactly unless it requeues a stale candidate: an interrupted push of a superseded head, found still on its base. */
  lemma OnePassSettlesIff(t: Table, local: Token, remote: Token, now: int, id: Token)
    requires Valid(t) && id in t.jobs && !Live(t.jobs[id], now)
    ensures Settled(Pass(t, local, remote, now).jobs[id], local) <==> !Requeues(t.jobs[id], local, remote)
  {
  }

  /** A pass that reaches an interrupted push, or a queued job of a head that is no longer local, publishes it exactly if the remote
      is at its candidate, and leaves it to be pushed again only if the push was interrupted and the remote is still on its base. */
  lemma PassPublishesIff(t: Table, local: Token, remote: Token, now: int, id: Token)
    requires Valid(t) && id in t.jobs && !Live(t.jobs[id], now)
    requires t.jobs[id].phase in {Publishing, Ambiguous} || (t.jobs[id].phase == Queued && t.jobs[id].candidate != local)
    ensures var job := t.jobs[id]; var after := Pass(t, local, remote, now).jobs[id];
      && (after.phase == Published <==> remote == job.candidate)
      && (after.phase == Queued <==> remote == job.base && job.phase != Queued)
      && (after.phase == Rejected <==> remote != job.candidate && (remote != job.base || job.phase == Queued))
      && after.observed == Some(remote) && SameRequest(job, after)
      && (after.phase == Rejected ==> after.error == Some(if remote == job.base then LocalHeadSuperseded else RemoteBaseChanged))
      && (after.phase != Rejected ==> after.error == None)
  {
  }

  /** And a pass leaves every other job alone: terminal ones, live leases, and a queued job of the local head. */
  lemma PassLeavesTheRest(t: Table, local: Token, remote: Token, now: int, id: Token)
    requires id in t.jobs && (Live(t.jobs[id], now) || t.jobs[id].phase in {Published, Rejected} || (t.jobs[id].phase == Queued && t.jobs[id].candidate == local))
    ensures Pass(t, local, remote, now).jobs[id] == t.jobs[id]
  {
  }

  /** The table after a pass at each of these times. */
  function Passes(t: Table, local: Token, remote: Token, times: seq<int>): Table {
    if times == [] then t else Pass(Passes(t, local, remote, times[..|times| - 1]), local, remote, times[|times| - 1])
  }

  predicate Nondecreasing(times: seq<int>) {
    forall i, j :: 0 <= i < j < |times| ==> times[i] <= times[j]
  }

  /** How many of the passes find this job's lease not live. */
  function Reaching(job: Job, times: seq<int>): nat {
    if times == [] then 0 else Reaching(job, times[..|times| - 1]) + (if Live(job, times[|times| - 1]) then 0 else 1)
  }

  /** Each pass that reaches an unsettled job takes at least one from its weight; one that does not leaves it alone. */
  lemma {:induction false} PassesDecrease(t: Table, local: Token, remote: Token, times: seq<int>, id: Token)
    requires Valid(t) && id in t.jobs && Nondecreasing(times)
    ensures var v := Passes(t, local, remote, times); var reached := Reaching(t.jobs[id], times);
      && v.jobs.Keys == t.jobs.Keys && JobOk(v.jobs[id])
      && (reached == 0 ==> v.jobs[id] == t.jobs[id])
      && (reached > 0 ==> v.jobs[id].phase != Publishing && (Settled(v.jobs[id], local) || Weight(v.jobs[id], local) + reached <= Weight(t.jobs[id], local)))
    decreases |times|
  {
    if times != [] {
      var init, last := times[..|times| - 1], times[|times| - 1];
      PassesDecrease(t, local, remote, init, id);
      var before := Passes(t, local, remote, init).jobs[id];
      if Reaching(t.jobs[id], init) > 0 { ReachedBefore(t.jobs[id], init, last); }
      if !Live(before, last) { PassDecreases(before, local, remote, last); }
    }
  }

  /** A lease that a pass found not live is not live at any later time. */
  lemma {:induction false} ReachedBefore(job: Job, times: seq<int>, later: int)
    requires Nondecreasing(times + [later]) && Reaching(job, times) > 0
    ensures !Live(job, later)
    decreases |times|
  {
    var init, last := times[..|times| - 1], times[|times| - 1];
    assert (times + [later])[|times| - 1] == last && (times + [later])[|times|] == later;
    if Live(job, last) {
      forall i, j | 0 <= i < j < |init + [later]| ensures (init + [later])[i] <= (init + [later])[j] {
        assert (times + [later])[i] <= (times + [later])[if j < |init| then j else |times|];
      }
      ReachedBefore(job, init, later);
    }
  }

  /** Any passes at nondecreasing times: a job that two of them reach is settled, one whose lease outlives them all is untouched. */
  lemma PassesSettle(t: Table, local: Token, remote: Token, times: seq<int>, id: Token)
    requires Valid(t) && id in t.jobs && Nondecreasing(times)
    ensures var v := Passes(t, local, remote, times);
      && id in v.jobs
      && (Reaching(t.jobs[id], times) >= 2 ==> Settled(v.jobs[id], local))
      && (times != [] && Live(t.jobs[id], times[|times| - 1]) ==> v.jobs[id] == t.jobs[id])
  {
    PassesDecrease(t, local, remote, times, id);
  }

  lemma PrefixOrdered(times: seq<int>, n: nat)
    requires Nondecreasing(times) && n <= |times|
    ensures Nondecreasing(times[..n])
  {
  }

  lemma SettledUnmoved(job: Job, local: Token, remote: Token, now: int)
    requires Settled(job, local)
    ensures AfterPass(job, local, remote, now) == job
  {
  }

  lemma OutlivedIsUntouched(t: Table, local: Token, remote: Token, times: seq<int>, n: nat, id: Token)
    requires Valid(t) && id in t.jobs && Nondecreasing(times) && n < |times| && Live(t.jobs[id], times[|times| - 1])
    ensures id in Passes(t, local, remote, times).jobs && id in Passes(t, local, remote, times[..n]).jobs
    ensures Passes(t, local, remote, times).jobs[id] == t.jobs[id] == Passes(t, local, remote, times[..n]).jobs[id]
  {
    PrefixOrdered(times, n);
    PassesSettle(t, local, remote, times, id);
    PassesSettle(t, local, remote, times[..n], id);
    if n > 0 { assert times[..n][n - 1] == times[n - 1] <= times[|times| - 1]; }
  }

  /** From then on the passes stop: a job that two of the first `n` have reached keeps its row through all later ones, and so does one whose lease outlives them all. */
  lemma {:induction false} PassesStop(t: Table, local: Token, remote: Token, times: seq<int>, n: nat, id: Token)
    requires Valid(t) && id in t.jobs && Nondecreasing(times) && n < |times|
    requires Reaching(t.jobs[id], times[..n]) >= 2 || Live(t.jobs[id], times[|times| - 1])
    ensures id in Passes(t, local, remote, times).jobs && id in Passes(t, local, remote, times[..n]).jobs
    ensures Passes(t, local, remote, times).jobs[id] == Passes(t, local, remote, times[..n]).jobs[id]
    decreases |times|
  {
    var m := |times| - 1;
    PrefixOrdered(times, n);
    PassesSettle(t, local, remote, times[..n], id);
    if Live(t.jobs[id], times[m]) {
      OutlivedIsUntouched(t, local, remote, times, n, id);
    } else {
      PrefixOrdered(times, m);
      assert times[..m][..n] == times[..n];
      if n < m { PassesStop(t, local, remote, times[..m], n, id); }
      SettledUnmoved(Passes(t, local, remote, times[..n]).jobs[id], local, remote, times[m]);
    }
  }
}
