/** What every state committed through Git keeps: exclusive active keys, claims, revisions, dependencies. */
module Claims {
  import opened Common
  import opened Autonomy
  import opened Tasks
  import opened Dependencies

  function Exec(tasks: Table, calls: seq<Call>): Table
    decreases |calls|
  {
    if calls == [] then tasks else Exec(Mutated(Git, tasks, calls[0]), calls[1..])
  }

  /** Owner and lease are both set exactly on the active tasks, and only active tasks are reserved. */
  predicate Claimed(t: Task) {
    && (t.owner.Some? <==> t.status == InProgress) && (t.claim.Some? <==> t.status == InProgress)
    && (t.reservation.Some? ==> t.status == InProgress)
  }

  predicate Consistent(tasks: Table) {
    && (forall id :: id in tasks ==> Claimed(tasks[id]))
    && KeysDistinct(tasks)
    && AllSupersessionsValid(tasks)
  }

  /** A committed mutation raises the revision of exactly one task by one and leaves every other task as it was. */
  lemma OneRevision(backend: Backend, tasks: Table, c: Call)
    ensures var v := Mutated(backend, tasks, c);
      if Commits(backend, tasks, c)
      then v.Keys == tasks.Keys && v[c.task].revision == tasks[c.task].revision + 1 && forall id :: id in tasks && id != c.task ==> v[id] == tasks[id]
      else v == tasks
  {
    if Commits(backend, tasks, c) { SameRevision(tasks, c); }
  }

  /** No transition touches the revision: only the commit does. */
  lemma SameRevision(tasks: Table, c: Call)
    requires c.task in tasks && Apply(tasks, c.task, c.op, c.admitted, c.now).Next?
    ensures Apply(tasks, c.task, c.op, c.admitted, c.now).task.revision == tasks[c.task].revision
  {
  }

  /** Reservations only ever appear on active tasks and block every way out of being active. */
  lemma ReservedStaysActive(tasks: Table, c: Call)
    requires c.task in tasks && Apply(tasks, c.task, c.op, c.admitted, c.now).Next?
    requires Claimed(tasks[c.task])
    ensures var t := Apply(tasks, c.task, c.op, c.admitted, c.now).task;
      t.reservation.Some? ==> t.status == InProgress
  {
  }

  lemma CommitConsistent(tasks: Table, c: Call)
    requires Consistent(tasks)
    ensures Consistent(Mutated(Git, tasks, c))
  {
    if Commits(Git, tasks, c) {
      ReservedStaysActive(tasks, c);
      OneRevision(Git, tasks, c);
      var v := Mutated(Git, tasks, c);
      assert ClaimValid(v[c.task], c.at);
      forall id | id in v ensures Claimed(v[id]) {
        if id != c.task { assert v[id] == tasks[id]; }
      }
    }
  }

  /** In every run over Git, active tasks never share an owner, worktree or branch, and claims sit exactly on active tasks. */
  lemma {:induction false} RunConsistent(tasks: Table, calls: seq<Call>)
    requires Consistent(tasks)
    ensures Consistent(Exec(tasks, calls))
    decreases |calls|
  {
    if calls != [] {
      CommitConsistent(tasks, calls[0]);
      RunConsistent(Mutated(Git, tasks, calls[0]), calls[1..]);
    }
  }

  // ---- When a mutation commits ----------------------------------------------

  /** The record itself is in order, at the revision that the commit gives it. */
  predicate RecordFits(t: Task) {
    && (t.reservation.Some? ==> t.reservation.value.owner.Some?) && (t.result.Some? ==> t.result.value.owner.Some?)
    && |t.abandonments| <= 32 && (forall i, j :: 0 <= i < j < |t.abandonments| ==> t.abandonments[i].id != t.abandonments[j].id)
    && (t.ledger.Some? ==> |t.ledger.value.dispositions| <= 32 && (t.ledger.value.hold.Some? ==> t.ledger.value.hold.value.revision == t.revision + 1))
  }

  /** An active task is owned under a claim that outlives the validation; any other is not owned. */
  predicate HeldAlive(t: Task, at: Time) {
    if t.status == InProgress then t.owner.Some? && t.claim.Some? && t.claim.value > at else t.owner == None && t.claim == None
  }

  /** An active task shares neither owner nor worktree nor branch with another active one. */
  predicate Exclusive(tasks: Table, id: Token, t: Task) {
    t.status == InProgress ==> forall k :: k in tasks && k != id && tasks[k].status == InProgress ==>
      && (t.owner.Some? ==> tasks[k].owner != t.owner) && (t.worktree.Some? ==> tasks[k].worktree != t.worktree)
      && (t.branch.Some? ==> tasks[k].branch != t.branch)
  }

  /** A replaced task stays superseded, and a done task is not reopened under a supersession that ends in it. */
  ghost predicate ChainsStand(tasks: Table, id: Token, t: Task)
    requires id in tasks
  {
    && (t.supersededBy.Some? ==> t.status == Superseded)
    && (tasks[id].status == Done && t.status != Done ==>
      forall k :: k in tasks && k != id && tasks[k].supersededBy.Some? ==> ReachesDone(Candidate(tasks, id, t), tasks[k].supersededBy.value))
  }

  lemma ChainsStandIff(tasks: Table, id: Token, t: Task)
    requires id in tasks && AllSupersessionsValid(tasks) && t.supersededBy == tasks[id].supersededBy
    ensures AllSupersessionsValid(Candidate(tasks, id, t)) <==> ChainsStand(tasks, id, t)
  {
    var v := Candidate(tasks, id, t);
    forall d ensures Satisfied(v, d, {}) <==> ReachesDone(v, d) { SatisfiedIff(v, d); }
    assert SupersessionValid(tasks, id);
    if AllSupersessionsValid(v) {
      assert SupersessionValid(v, id);
      forall k | k in tasks && k != id && tasks[k].supersededBy.Some? ensures ReachesDone(v, tasks[k].supersededBy.value) { assert SupersessionValid(v, k); }
    }
    if ChainsStand(tasks, id, t) {
      if KeepsChains(tasks[id], v[id]) { RewriteKeeps(tasks, id, v[id]); }
      forall k | k in v ensures SupersessionValid(v, k) { assert SupersessionValid(tasks, k); }
    }
  }

  lemma ExclusiveIff(tasks: Table, id: Token, t: Task)
    requires id in tasks && KeysDistinct(tasks)
    ensures KeysDistinct(Candidate(tasks, id, t)) <==> Exclusive(tasks, id, t)
  {
    var v := Candidate(tasks, id, t);
    if KeysDistinct(v) {
      forall k | k in tasks && k != id ensures !Clash(v[id], v[k]) {}
    }
    if Exclusive(tasks, id, t) {
      forall i, j | i in v && j in v && i != j ensures !Clash(v[i], v[j]) { assert !Clash(tasks[i], tasks[j]); }
    }
  }

  /** On a consistent board validating the whole set comes down to the changed task: an accepted transition is committed exactly if its
      record is in order and, on Git, it is held alive and exclusively, and no supersession is broken. */
  lemma CommitsIff(backend: Backend, tasks: Table, c: Call)
    requires Consistent(tasks) && c.task in tasks && Apply(tasks, c.task, c.op, c.admitted, c.now).Next?
    ensures var t := Apply(tasks, c.task, c.op, c.admitted, c.now).task;
      Commits(backend, tasks, c) <==>
        && c.clean && RecordFits(t) && ChainsStand(tasks, c.task, t)
        && (backend == Git ==> HeldAlive(t, c.at) && Exclusive(tasks, c.task, t))
  {
    var t := Apply(tasks, c.task, c.op, c.admitted, c.now).task;
    SupersessionUnchanged(tasks, c);
    SameRevision(tasks, c);
    ChainsStandIff(tasks, c.task, t);
    ExclusiveIff(tasks, c.task, t);
    assert RecordValid(t.(revision := t.revision + 1)) <==> RecordFits(t);
    assert ClaimValid(t.(revision := t.revision + 1), c.at) <==> HeldAlive(t, c.at);
  }

  lemma SupersessionUnchanged(tasks: Table, c: Call)
    requires c.task in tasks && Apply(tasks, c.task, c.op, c.admitted, c.now).Next?
    ensures Apply(tasks, c.task, c.op, c.admitted, c.now).task.supersededBy == tasks[c.task].supersededBy
  {
  }

  // ---- Dependencies over runs -----------------------------------------------

  /** Some call of the run reopens a done task. */
  predicate SomeReopens(tasks: Table, calls: seq<Call>)
    decreases |calls|
  {
    calls != [] && ((Commits(Git, tasks, calls[0]) && Reopens(Git, tasks, calls[0])) || SomeReopens(Mutated(Git, tasks, calls[0]), calls[1..]))
  }

  /** Every dependency of every active task is satisfied. */
  predicate ActiveReady(tasks: Table) {
    forall id :: id in tasks && tasks[id].status == InProgress ==> Ready(tasks, tasks[id])
  }

  /** On Git the only way into in_progress is a claim, which checks the dependencies. */
  lemma OnlyClaimsActivate(tasks: Table, c: Call)
    requires Commits(Git, tasks, c) && Claimed(tasks[c.task])
    ensures var t := Mutated(Git, tasks, c)[c.task];
      && t.dependsOn == tasks[c.task].dependsOn
      && (t.status == InProgress && tasks[c.task].status != InProgress ==> c.op.Claim? && Ready(tasks, tasks[c.task]))
  {
    assert ClaimValid(Mutated(Git, tasks, c)[c.task], c.at);
  }

  lemma ReadyKept(before: Table, after: Table, t: Task)
    requires DependenciesKept(before, after) && Ready(before, t)
    ensures Ready(after, t)
  {
  }

  lemma CommitKeepsReady(tasks: Table, c: Call)
    requires Consistent(tasks) && ActiveReady(tasks) && Commits(Git, tasks, c) && !Reopens(Git, tasks, c)
    ensures ActiveReady(Mutated(Git, tasks, c))
  {
    var v := Mutated(Git, tasks, c);
    KeptIffNotReopened(Git, tasks, c);
    OneRevision(Git, tasks, c);
    OnlyClaimsActivate(tasks, c);
    forall id | id in v && v[id].status == InProgress ensures Ready(v, v[id]) {
      ReadyKept(tasks, v, tasks[id]);
    }
  }

  /** In every run over Git in which no done task is released to another status, active tasks keep satisfied dependencies. */
  lemma {:induction false} RunKeepsReady(tasks: Table, calls: seq<Call>)
    requires Consistent(tasks) && ActiveReady(tasks) && !SomeReopens(tasks, calls)
    ensures ActiveReady(Exec(tasks, calls))
    decreases |calls|
  {
    if calls != [] {
      CommitConsistent(tasks, calls[0]);
      if Commits(Git, tasks, calls[0]) { CommitKeepsReady(tasks, calls[0]); }
      RunKeepsReady(Mutated(Git, tasks, calls[0]), calls[1..]);
    }
  }

  // ---- What undoes a claim --------------------------------------------------

  /** The board on which one task lost its worker identity and gained some revisions, all else equal. */
  function Returned(tasks: Table, id: Token, commits: nat): Table
    requires id in tasks
  {
    tasks[id := tasks[id].(worker := None, revision := tasks[id].revision + commits)]
  }

  lemma TwoCalls(tasks: Table, a: Call, b: Call)
    ensures Exec(tasks, [a, b]) == Mutated(Git, Mutated(Git, tasks, a), b)
  {
    assert [a, b][1..] == [b] && [b][1..] == [];
    var t1 := Mutated(Git, tasks, a);
    assert Exec(tasks, [a, b]) == Exec(t1, [b]) == Exec(Mutated(Git, t1, b), []);
  }

  /** On Git a committed claim and a committed release to open, or recovery of its expired lease, give the whole board back. */
  lemma ClaimThenGivenUp(tasks: Table, claim: Call, undo: Call)
    requires Consistent(tasks) && claim.op.Claim? && Commits(Git, tasks, claim)
    requires undo.task == claim.task && Commits(Git, Mutated(Git, tasks, claim), undo)
    requires (undo.op.Release? && undo.op.to == Open) || (undo.op.RecoverExpired? && undo.op.session.None?)
    ensures Exec(tasks, [claim, undo]) == Returned(tasks, claim.task, 2)
    ensures undo.op.RecoverExpired? ==> undo.now >= LeaseEnd(claim.now, claim.op.minutes)
  {
    TwoCalls(tasks, claim, undo);
    assert Claimed(tasks[claim.task]);
    assert Mutated(Git, Mutated(Git, tasks, claim), undo)[claim.task] == Returned(tasks, claim.task, 2)[claim.task];
  }

  /** So do a committed claim, pause and unblock. */
  lemma ClaimPauseUnblock(tasks: Table, claim: Call, pause: Call, unblock: Call)
    requires Consistent(tasks) && claim.op.Claim? && pause.op.Pause? && unblock.op.Unblock?
    requires pause.task == claim.task == unblock.task
    requires Commits(Git, tasks, claim) && Commits(Git, Mutated(Git, tasks, claim), pause)
    requires Commits(Git, Mutated(Git, Mutated(Git, tasks, claim), pause), unblock)
    ensures Mutated(Git, Exec(tasks, [claim, pause]), unblock) == Returned(tasks, claim.task, 3)
  {
    TwoCalls(tasks, claim, pause);
    assert Claimed(tasks[claim.task]);
    PausedBoard(tasks, claim, pause);
  }

  lemma PausedBoard(tasks: Table, claim: Call, pause: Call)
    requires Consistent(tasks) && claim.op.Claim? && pause.op.Pause? && pause.task == claim.task
    requires Commits(Git, tasks, claim) && Commits(Git, Mutated(Git, tasks, claim), pause)
    ensures var t := tasks[claim.task];
      Mutated(Git, Mutated(Git, tasks, claim), pause) == tasks[claim.task := t.(status := Blocked, worker := None, revision := t.revision + 2)]
  {
    var t := tasks[claim.task];
    assert Claimed(t);
    assert Mutated(Git, Mutated(Git, tasks, claim), pause)[claim.task] == t.(status := Blocked, worker := None, revision := t.revision + 2);
  }
}
