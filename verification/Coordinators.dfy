/** The mutation path: one transition on one task, the whole set validated, then kept or put back. */
module Coordinators {
  import opened Common
  import opened Autonomy
  import opened Tasks
  import opened TaskRecords
  import Dependencies

  /** Files list every task once. */
  ghost predicate Lists(order: seq<Token>, tasks: Table) {
    && (forall i :: 0 <= i < |order| ==> order[i] in tasks)
    && (forall i, j :: 0 <= i < j < |order| ==> order[i] != order[j])
    && (forall id :: id in tasks ==> id in order)
  }

  function OwnerOf(t: Task): Option<Token> { t.owner }

  function WorktreeOf(t: Task): Option<Token> { t.worktree }

  function BranchOf(t: Task): Option<Token> { t.branch }

  lemma SharedClashes(order: seq<Token>, tasks: Table, key: Task -> Option<Token>)
    requires Lists(order, tasks) && key in [OwnerOf, WorktreeOf, BranchOf] && SomeShared(order, tasks, key)
    ensures !KeysDistinct(tasks)
  {
    var i, j :| 0 <= i < j < |order| && Shared(tasks, key, order[i], order[j]);
    assert Clash(tasks[order[i]], tasks[order[j]]);
  }

  lemma ClashIsShared(order: seq<Token>, tasks: Table, a: Token, b: Token)
    requires Lists(order, tasks) && a in tasks && b in tasks && a != b && Clash(tasks[a], tasks[b])
    ensures SomeShared(order, tasks, OwnerOf) || SomeShared(order, tasks, WorktreeOf) || SomeShared(order, tasks, BranchOf)
  {
    var i :| 0 <= i < |order| && order[i] == a;
    var j :| 0 <= j < |order| && order[j] == b;
    var lo, hi := if i < j then i else j, if i < j then j else i;
    assert Shared(tasks, OwnerOf, order[lo], order[hi]) || Shared(tasks, WorktreeOf, order[lo], order[hi]) || Shared(tasks, BranchOf, order[lo], order[hi]);
  }

  /** The three active-key checks together: no two active tasks share a nonempty owner, worktree or branch. */
  method GlobalKeyErrors(order: seq<Token>, tasks: Table) returns (errors: bool)
    requires Lists(order, tasks)
    ensures errors <==> !KeysDistinct(tasks)
  {
    var owners := ActiveKeyErrors(order, tasks, OwnerOf);
    var worktrees := ActiveKeyErrors(order, tasks, WorktreeOf);
    var branches := ActiveKeyErrors(order, tasks, BranchOf);
    errors := owners || worktrees || branches;
    if owners { SharedClashes(order, tasks, OwnerOf); }
    if worktrees { SharedClashes(order, tasks, WorktreeOf); }
    if branches { SharedClashes(order, tasks, BranchOf); }
    forall a, b | a in tasks && b in tasks && a != b && Clash(tasks[a], tasks[b]) ensures errors {
      ClashIsShared(order, tasks, a, b);
    }
  }

  /** `supersession_errors`. */
  method SupersessionErrors(order: seq<Token>, tasks: Table) returns (errors: bool)
    requires Lists(order, tasks)
    ensures errors <==> !AllSupersessionsValid(tasks)
  {
    errors := false;
    for i := 0 to |order|
      invariant errors <==> exists k :: 0 <= k < i && !SupersessionValid(tasks, order[k])
    {
      var t := tasks[order[i]];
      if t.supersededBy.None? { continue; }
      var successor := t.supersededBy.value;
      if t.status != Superseded || successor == order[i] || successor !in tasks {
        assert !SupersessionValid(tasks, order[i]);
        errors := true;
      } else {
        var satisfied := Dependencies.DependencySatisfied(successor, tasks);
        if !satisfied {
          assert !SupersessionValid(tasks, order[i]);
          errors := true;
        }
      }
    }
  }

  class Coordinator {
    const backend: Backend
    const order: seq<Token>
    var tasks: Table

    constructor (backend: Backend, order: seq<Token>, tasks: Table)
      requires Lists(order, tasks)
      ensures this.backend == backend && this.order == order && this.tasks == tasks
    {
      this.backend, this.order, this.tasks := backend, order, tasks;
    }

    /** `mutation_errors`, with `clean` for the checks outside this model. */
    method MutationErrors(id: Token, clean: bool, at: Time) returns (errors: bool)
      requires id in tasks && Lists(order, tasks)
      ensures errors <==> !Committable(backend, tasks, id, clean, at)
    {
      errors := !clean || !RecordValid(tasks[id]);
      var supersessions := SupersessionErrors(order, tasks);
      errors := errors || supersessions;
      if backend == Git {
        var keys := GlobalKeyErrors(order, tasks);
        errors := errors || !ClaimValid(tasks[id], at) || keys;
      }
    }

    /** `_mutate_fenced` and `mutate_sqlite`: the new set is exactly the specified one, and unchanged unless the call commits. */
    method Mutate(c: Call) returns (r: Reply)
      requires Lists(order, tasks)
      modifies this
      ensures Lists(order, tasks)
      ensures tasks == Mutated(backend, old(tasks), c)
      ensures r == Changed <==> Commits(backend, old(tasks), c)
      ensures c.task in old(tasks) && r == Idempotent ==> Apply(old(tasks), c.task, c.op, c.admitted, c.now).Replay?
    {
      if c.task !in tasks { return Raised(UnknownRow); }
      var before := tasks;
      var record := new TaskRecord(tasks[c.task]);
      r := record.Transition(tasks, c.task, c.op, c.admitted, c.now);
      if r != Changed { return; }
      record.revision := record.revision + 1;
      tasks := tasks[c.task := record.View()];
      assert tasks == Candidate(before, c.task, Apply(before, c.task, c.op, c.admitted, c.now).task);
      var errors := MutationErrors(c.task, c.clean, c.at);
      if errors {
        tasks := before;
        return Raised(InvalidInput);
      }
    }
  }
}
