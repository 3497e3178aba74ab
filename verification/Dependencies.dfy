/** What `dependency_satisfied` means, and which mutations can take a satisfied dependency away. */
module Dependencies {
  import opened Common
  import opened PointerChains
  import opened Tasks

  /** The supersession pointers that the walk follows. */
  function Successors(tasks: Table): map<Token, Token> {
    map id | id in tasks && tasks[id].status == Superseded && tasks[id].supersededBy.Some? :: tasks[id].supersededBy.value
  }

  ghost predicate DoneAt(tasks: Table, id: Token, k: nat) {
    var end := Ancestor(Successors(tasks), id, k);
    end.Some? && end.value in tasks && tasks[end.value].status == Done
  }

  /** Following `superseded_by` from `id` arrives at a done task. */
  ghost predicate ReachesDone(tasks: Table, id: Token) {
    exists k: nat :: DoneAt(tasks, id, k)
  }

  /** The loop of `dependency_satisfied`. */
  method DependencySatisfied(dependency: Token, tasks: Table) returns (satisfied: bool)
    ensures satisfied == Satisfied(tasks, dependency, {})
    ensures satisfied <==> ReachesDone(tasks, dependency)
  {
    SatisfiedIff(tasks, dependency);
    var seen: set<Token> := {};
    var current := dependency;
    while true
      invariant Satisfied(tasks, current, seen) == Satisfied(tasks, dependency, {})
      decreases tasks.Keys - seen
    {
      if current in seen { return false; }
      seen := seen + {current};
      if current !in tasks { return false; }
      if tasks[current].status == Done { return true; }
      if tasks[current].status != Superseded { return false; }
      if tasks[current].supersededBy.None? { return false; }
      current := tasks[current].supersededBy.value;
    }
  }

  lemma {:induction false} SatisfiedReaches(tasks: Table, id: Token, seen: set<Token>)
    requires Satisfied(tasks, id, seen)
    ensures ReachesDone(tasks, id)
    decreases tasks.Keys - seen
  {
    if tasks[id].status == Done {
      assert DoneAt(tasks, id, 0);
    } else {
      var next := tasks[id].supersededBy.value;
      SatisfiedReaches(tasks, next, seen + {id});
      var k: nat :| DoneAt(tasks, next, k);
      assert DoneAt(tasks, id, k + 1);
    }
  }

  /** From a point on a chain that reaches done, the walk never meets what it has seen. */
  lemma {:induction false} ReachesSatisfied(tasks: Table, start: Token, i: nat, k: nat, seen: set<Token>)
    requires DoneAt(tasks, start, k) && i <= k && Ancestor(Successors(tasks), start, i).Some?
    requires forall x :: x in seen ==> PassedBefore(Successors(tasks), start, i, x)
    ensures Satisfied(tasks, Ancestor(Successors(tasks), start, i).value, seen)
    decreases k - i
  {
    var next := Successors(tasks);
    var current := Ancestor(next, start, i).value;
    if current in seen {
      var j: nat :| j < i && Ancestor(next, start, j) == Some(current);
      RepeatsHaveNoRoot(next, start, j, i, k);
    } else if i < k {
      AncestorPrefix(next, start, i, k);
      AncestorStep(next, start, i);
      forall x | x in seen + {current} ensures PassedBefore(next, start, i + 1, x) {
        if x == current { assert Ancestor(next, start, i) == Some(x); }
        else { var j: nat :| j < i && Ancestor(next, start, j) == Some(x); }
      }
      ReachesSatisfied(tasks, start, i + 1, k, seen + {current});
    }
  }

  /** The walk answers true exactly when the chain arrives at a done task; cycles and dead ends answer false. */
  lemma SatisfiedIff(tasks: Table, id: Token)
    ensures Satisfied(tasks, id, {}) <==> ReachesDone(tasks, id)
  {
    if Satisfied(tasks, id, {}) { SatisfiedReaches(tasks, id, {}); }
    if ReachesDone(tasks, id) {
      var k: nat :| DoneAt(tasks, id, k);
      ReachesSatisfied(tasks, id, 0, k, {});
    }
  }

  // ---- Stability ------------------------------------------------------------

  /** A rewrite of one task that leaves done tasks done and keeps every supersession pointer. */
  predicate KeepsChains(before: Task, after: Task) {
    && (before.status == Done ==> after.status == Done)
    && (before.status == Superseded && before.supersededBy.Some? ==> after.status == Superseded && after.supersededBy == before.supersededBy)
  }

  lemma {:induction false} ChainKept(tasks: Table, id: Token, t: Task, from: Token, k: nat)
    requires id in tasks && KeepsChains(tasks[id], t) && DoneAt(tasks, from, k)
    ensures DoneAt(tasks[id := t], from, k)
    decreases k
  {
    if k > 0 { ChainKept(tasks, id, t, Successors(tasks)[from], k - 1); }
  }

  /** Every dependency satisfied before is satisfied after. */
  ghost predicate DependenciesKept(before: Table, after: Table) {
    forall d :: Satisfied(before, d, {}) ==> Satisfied(after, d, {})
  }

  lemma RewriteKeeps(tasks: Table, id: Token, t: Task)
    requires id in tasks && KeepsChains(tasks[id], t)
    ensures DependenciesKept(tasks, tasks[id := t])
  {
    forall d | Satisfied(tasks, d, {}) ensures Satisfied(tasks[id := t], d, {}) {
      SatisfiedIff(tasks, d);
      SatisfiedIff(tasks[id := t], d);
      var k: nat :| DoneAt(tasks, d, k);
      ChainKept(tasks, id, t, d, k);
    }
  }

  /** A call that takes a done task out of done: a release checks only the (empty) owner, and without claim validation so may an update. */
  predicate Reopens(backend: Backend, tasks: Table, c: Call) {
    && c.task in tasks && tasks[c.task].status == Done
    && ((c.op.Release? && c.op.to != Done) || (backend == Sqlite && c.op.Update? && c.op.status == Some(InProgress)))
  }

  /** No transition moves a supersession pointer, and only a release or an update can change the status of a done task. */
  lemma StatusChanges(tasks: Table, c: Call)
    requires c.task in tasks && Apply(tasks, c.task, c.op, c.admitted, c.now).Next?
    requires tasks[c.task].reservation.Some? ==> tasks[c.task].status == InProgress
    ensures var t := Apply(tasks, c.task, c.op, c.admitted, c.now).task;
      && t.supersededBy == tasks[c.task].supersededBy
      && (tasks[c.task].status == Done ==> (t.status != Done <==> Reopens(Sqlite, tasks, c)))
      && (c.op.Update? ==> t.owner == tasks[c.task].owner && (c.op.status.Some? ==> t.status == InProgress))
  {
  }

  /** A committed mutation keeps every satisfied dependency iff it does not reopen a done task. */
  lemma KeptIffNotReopened(backend: Backend, tasks: Table, c: Call)
    requires Commits(backend, tasks, c) && AllSupersessionsValid(tasks)
    requires tasks[c.task].status != InProgress ==> tasks[c.task].owner.None? && tasks[c.task].reservation.None?
    ensures DependenciesKept(tasks, Mutated(backend, tasks, c)) <==> !Reopens(backend, tasks, c)
  {
    var after := Mutated(backend, tasks, c)[c.task];
    StatusChanges(tasks, c);
    assert SupersessionValid(Mutated(backend, tasks, c), c.task);
    if Reopens(backend, tasks, c) {
      assert SupersessionValid(tasks, c.task);
      assert Satisfied(tasks, c.task, {});
      assert !Satisfied(Mutated(backend, tasks, c), c.task, {});
    } else {
      RewriteKeeps(tasks, c.task, after);
    }
  }

  /** The repository's promise fails here: anyone may release a done task, which has no owner, back to open. */
  lemma DoneTaskCanBeReopened() returns (tasks: Table, c: Call, user: Token, d: Token)
    ensures AllSupersessionsValid(tasks) && Commits(Git, tasks, c) && c.admitted && c.clean
    ensures forall id :: id in tasks ==> ClaimValid(tasks[id], c.at)
    ensures user in tasks && tasks[user].status == InProgress && d in tasks[user].dependsOn
    ensures Satisfied(tasks, d, {}) && !Satisfied(Mutated(Git, tasks, c), d, {})
  {
    var done := Task(Done, None, None, None, 1, None, None, [], None, None, None, None, [], None, 0);
    var active := Task(InProgress, Some(7), Some(5), None, 1, None, None, [1], None, None, None, None, [], None, 0);
    tasks := map[1 := done, 2 := active];
    c := Call(1, Release(None, Open), true, true, 0, 0);
    assert Apply(tasks, 1, c.op, true, 0) == Next(done.(status := Open));
    assert Satisfied(tasks, 1, {}) && !Satisfied(Mutated(Git, tasks, c), 1, {});
    user, d := 2, 1;
  }
}
