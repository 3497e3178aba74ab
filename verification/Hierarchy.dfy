/** Parent and children edges of hierarchy.py: the validator accepts exactly the forests. */
module Hierarchy {
  import opened Common
  import opened PointerChains

  /** `parent_task_ref`: absent (any falsy value), not an identifier, or a task. */
  datatype ParentRef = NoParent | BadParent | Parent(id: Token)

  /** `children` is `None` when the field is not a list of identifiers. */
  datatype Task = Task(id: Token, parent: ParentRef, children: Option<seq<Token>>)

  type Table = map<Token, Task>

  datatype Issue =
    | InvalidParent(task: Token)
    | SelfParent(task: Token)
    | MissingParent(task: Token, parent: Token)
    | BadChildren(task: Token)
    | DuplicateChild(task: Token)
    | OwnChild(task: Token)
    | MissingChild(task: Token, child: Token)
    | ChildPointsElsewhere(task: Token, child: Token)
    | ParentOmitsChild(task: Token, parent: Token)
    | CycleInvolving(task: Token)

  ghost predicate DistinctIds(tasks: seq<Task>) {
    forall i, j :: 0 <= i < j < |tasks| ==> tasks[i].id != tasks[j].id
  }

  /** `by_id`: every listed task under its own identifier and nothing else. */
  ghost predicate Indexes(byId: Table, tasks: seq<Task>) {
    && (forall k :: 0 <= k < |tasks| ==> tasks[k].id in byId && byId[tasks[k].id] == tasks[k])
    && (forall id :: id in byId ==> byId[id].id == id && byId[id] in tasks)
  }

  /** The well-formed parent pointers of the tasks named in `ids`. */
  function ParentsIn(byId: Table, ids: set<Token>): map<Token, Token> {
    map id | id in ids && id in byId && byId[id].parent.Parent? :: byId[id].parent.id
  }

  function ParentsOf(byId: Table): map<Token, Token> {
    ParentsIn(byId, byId.Keys)
  }

  // ---- What a forest is -----------------------------------------------------

  ghost predicate PointerOk(byId: Table, t: Task) {
    t.parent.NoParent? || (t.parent.Parent? && t.parent.id != t.id && t.parent.id in byId)
  }

  /** The children list names tasks that point back, each once, and never the task itself. */
  ghost predicate ListOk(byId: Table, t: Task) {
    && t.children.Some? && Distinct(t.children.value) && t.id !in t.children.value
    && PointBack(byId, t.id, t.children.value)
  }

  ghost predicate EdgesOk(byId: Table, t: Task) {
    PointerOk(byId, t) && ListOk(byId, t)
  }

  ghost predicate PointBack(byId: Table, id: Token, children: seq<Token>) {
    forall k :: 0 <= k < |children| ==> children[k] in byId && byId[children[k]].parent == Parent(id)
  }

  /** The parent a task points at lists it. */
  ghost predicate ListedByParent(byId: Table, t: Task) {
    t.parent.Parent? && t.parent.id in byId ==>
      byId[t.parent.id].children.Some? && t.id in byId[t.parent.id].children.value
  }

  /** Lists and pointers are each other's inverse, everything resolves, and every chain ends at a root in fewer steps than there are tasks. */
  ghost predicate Forest(byId: Table) {
    && (forall id :: id in byId ==> EdgesOk(byId, byId[id]) && ListedByParent(byId, byId[id]))
    && (forall id :: id in byId ==> RootedWithin(ParentsOf(byId), id, |byId| - 1))
  }

  /** When every pointer stays inside the tasks, a chain with a root reaches it in fewer steps than there are tasks. */
  lemma RootBound(byId: Table, id: Token, bound: int)
    requires id in byId && forall x :: x in byId ==> PointerOk(byId, byId[x])
    requires RootedWithin(ParentsOf(byId), id, bound)
    ensures RootedWithin(ParentsOf(byId), id, |byId| - 1) && RootedWithin(ParentsOf(byId), id, |ParentsOf(byId).Keys|)
  {
    var parents := ParentsOf(byId);
    var k: nat :| k <= bound && RootAt(parents, id, k);
    var root := Ancestor(parents, id, k).value;
    var passed := ChainSize(parents, id, k);
    StaysInside(parents, id, k, byId.Keys);
    SubsetSize(passed, parents.Keys);
    SubsetSize(passed + {root}, byId.Keys);
    assert |byId| == |byId.Keys|;
  }

  /** The bound is no restriction: within the tasks, any root at all is near enough. */
  lemma ForestIff(byId: Table)
    requires forall id :: id in byId ==> EdgesOk(byId, byId[id]) && ListedByParent(byId, byId[id])
    ensures Forest(byId) <==> forall id :: id in byId ==> RootedWithin(ParentsOf(byId), id, |ParentsOf(byId).Keys|)
  {
    forall id | id in byId
      ensures RootedWithin(ParentsOf(byId), id, |ParentsOf(byId).Keys|) <==> RootedWithin(ParentsOf(byId), id, |byId| - 1)
    {
      if RootedWithin(ParentsOf(byId), id, |ParentsOf(byId).Keys|) { RootBound(byId, id, |ParentsOf(byId).Keys|); }
      if RootedWithin(ParentsOf(byId), id, |byId| - 1) { RootBound(byId, id, |byId| - 1); }
    }
  }

  /** What each error says of the tasks. */
  ghost predicate Holds(byId: Table, e: Issue) {
    match e
    case InvalidParent(t) => t in byId && byId[t].parent.BadParent?
    case SelfParent(t) => t in byId && byId[t].parent == Parent(t)
    case MissingParent(t, p) => t in byId && byId[t].parent == Parent(p) && p !in byId
    case BadChildren(t) => t in byId && byId[t].children == None
    case DuplicateChild(t) => t in byId && byId[t].children.Some? && !Distinct(byId[t].children.value)
    case OwnChild(t) => t in byId && byId[t].children.Some? && t in byId[t].children.value
    case MissingChild(t, c) => t in byId && byId[t].children.Some? && c in byId[t].children.value && c !in byId
    case ChildPointsElsewhere(t, c) => t in byId && byId[t].children.Some? && c in byId[t].children.value && c in byId && byId[c].parent != Parent(t)
    case ParentOmitsChild(t, p) =>
      t in byId && byId[t].parent == Parent(p) && !(p in byId && byId[p].children.Some? && t in byId[p].children.value)
    case CycleInvolving(t) => t in byId && forall k: nat :: !RootAt(ParentsOf(byId), t, k)
  }

  ghost predicate AllHold(byId: Table, errors: seq<Issue>) {
    forall e :: e in errors ==> Holds(byId, e)
  }

  /** The same of errors about single edges. */
  ghost predicate EdgesHold(byId: Table, errors: seq<Issue>) {
    AllHold(byId, errors) && forall e :: e in errors ==> !e.CycleInvolving?
  }

  // ---- The validator --------------------------------------------------------

  /** `_children`: the list to use, and what is wrong with it. */
  method Children(t: Task) returns (children: seq<Token>, errors: seq<Issue>)
    ensures children == if t.children.Some? then t.children.value else []
    ensures errors == [] <==> t.children.Some? && Distinct(children) && t.id !in children
    ensures forall byId: Table :: t.id in byId && byId[t.id] == t ==> EdgesHold(byId, errors)
  {
    if t.children.None? { return [], [BadChildren(t.id)]; }
    children := t.children.value;
    var duplicates := HasDuplicates(children);
    if duplicates { return children, [DuplicateChild(t.id)]; }
    if t.id in children { return children, [OwnChild(t.id)]; }
    return children, [];
  }

  /** Every listed child exists and points back. */
  method BackPointers(id: Token, children: seq<Token>, byId: Table) returns (errors: seq<Issue>)
    ensures errors == [] <==> PointBack(byId, id, children)
    ensures id in byId && byId[id].children == Some(children) ==> EdgesHold(byId, errors)
  {
    errors := [];
    for i := 0 to |children|
      invariant id in byId && byId[id].children == Some(children) ==> EdgesHold(byId, errors)
      invariant errors == [] <==> forall k :: 0 <= k < i ==> children[k] in byId && byId[children[k]].parent == Parent(id)
    {
      if children[i] !in byId {
        errors := errors + [MissingChild(id, children[i])];
      } else if byId[children[i]].parent != Parent(id) {
        errors := errors + [ChildPointsElsewhere(id, children[i])];
      }
    }
  }

  method PointerErrors(t: Task, byId: Table) returns (errors: seq<Issue>)
    ensures errors == [] <==> PointerOk(byId, t)
    ensures t.id in byId && byId[t.id] == t ==> EdgesHold(byId, errors)
  {
    errors := [];
    if t.parent.BadParent? {
      errors := [InvalidParent(t.id)];
    } else if t.parent.Parent? {
      if t.parent.id == t.id {
        errors := [SelfParent(t.id)];
      } else if t.parent.id !in byId {
        errors := [MissingParent(t.id, t.parent.id)];
      }
    }
  }

  /** The list that the first loop stores for a task. */
  function ListOf(t: Task): seq<Token> {
    if t.children.Some? then t.children.value else []
  }

  function ListsIn(byId: Table, ids: set<Token>): map<Token, seq<Token>> {
    map id | id in ids && id in byId :: ListOf(byId[id])
  }

  lemma OneMore(byId: Table, ids: set<Token>, t: Task)
    requires t.id in byId && byId[t.id] == t && t.id !in ids
    ensures ListsIn(byId, ids + {t.id}) == ListsIn(byId, ids)[t.id := ListOf(t)]
    ensures ParentsIn(byId, ids + {t.id}) == if t.parent.Parent? then ParentsIn(byId, ids)[t.id := t.parent.id] else ParentsIn(byId, ids)
  {
  }

  /** What one round of the first loop reports. */
  method TaskErrors(t: Task, byId: Table) returns (errors: seq<Issue>)
    ensures errors == [] <==> EdgesOk(byId, t)
    ensures t.id in byId && byId[t.id] == t ==> EdgesHold(byId, errors)
  {
    var pointer := PointerErrors(t, byId);
    var children, listed := Children(t);
    var back := BackPointers(t.id, children, byId);
    errors := pointer + listed + back;
  }

  /** The first loop: fill `parents` and `children_by_parent`, and report what does not resolve or point back. */
  method EdgeErrors(tasks: seq<Task>, byId: Table)
    returns (errors: seq<Issue>, parents: map<Token, Token>, lists: map<Token, seq<Token>>)
    requires DistinctIds(tasks) && Indexes(byId, tasks)
    ensures errors == [] <==> forall id :: id in byId ==> EdgesOk(byId, byId[id])
    ensures EdgesHold(byId, errors)
    ensures parents == ParentsOf(byId)
    ensures lists == ListsIn(byId, byId.Keys)
  {
    errors, parents, lists := [], map[], map[];
    ghost var done: set<Token> := {};
    for i := 0 to |tasks|
      invariant done <= byId.Keys && forall k :: 0 <= k < |tasks| ==> (tasks[k].id in done <==> k < i)
      invariant errors == [] <==> forall id :: id in done ==> EdgesOk(byId, byId[id])
      invariant EdgesHold(byId, errors)
      invariant parents == ParentsIn(byId, done)
      invariant lists == ListsIn(byId, done)
    {
      var t := tasks[i];
      if t.parent.Parent? {
        parents := parents[t.id := t.parent.id];
      }
      lists := lists[t.id := ListOf(t)];
      var found := TaskErrors(t, byId);
      errors := errors + found;
      OneMore(byId, done, t);
      done := done + {t.id};
    }
    assert done == byId.Keys;
  }

  /** The second loop: a parent that a task points at must list it. */
  method OmissionErrors(tasks: seq<Task>, byId: Table, parents: map<Token, Token>, lists: map<Token, seq<Token>>)
    returns (errors: seq<Issue>)
    requires Indexes(byId, tasks) && parents == ParentsOf(byId)
    requires lists == ListsIn(byId, byId.Keys)
    ensures errors == [] <==> forall id :: id in parents ==> parents[id] in lists && id in lists[parents[id]]
    ensures EdgesHold(byId, errors)
  {
    errors := [];
    for i := 0 to |tasks|
      invariant EdgesHold(byId, errors)
      invariant errors == [] <==> forall k :: 0 <= k < i && tasks[k].id in parents ==> Lists(lists, parents[tasks[k].id], tasks[k].id)
    {
      var id := tasks[i].id;
      if id in parents && (parents[id] !in lists || id !in lists[parents[id]]) {
        errors := errors + [ParentOmitsChild(id, parents[id])];
      }
    }
    forall id | id in parents ensures exists k :: 0 <= k < |tasks| && tasks[k].id == id {
      assert byId[id] in tasks;
    }
  }

  predicate Lists(lists: map<Token, seq<Token>>, parent: Token, child: Token) {
    parent in lists && child in lists[parent]
  }

  /** The last loop for one task: walk the chain until it leaves the pointers or meets a task again. */
  method ChainRepeats(parents: map<Token, Token>, id: Token) returns (repeats: bool)
    ensures !repeats ==> RootedWithin(parents, id, |parents.Keys|)
    ensures repeats ==> forall k: nat :: !RootAt(parents, id, k)
  {
    var seen: set<Token> := {};
    var current := id;
    ghost var k: nat := 0;
    while current in parents
      invariant Ancestor(parents, id, k) == Some(current)
      invariant seen <= parents.Keys && |seen| == k
      invariant forall x :: x in seen ==> PassedBefore(parents, id, k, x)
      decreases parents.Keys - seen
    {
      if current in seen {
        RepeatedForever(parents, id, k);
        return true;
      }
      AncestorStep(parents, id, k);
      assert forall x :: PassedBefore(parents, id, k, x) ==> PassedBefore(parents, id, k + 1, x);
      seen := seen + {current};
      current := parents[current];
      k := k + 1;
    }
    SubsetSize(seen, parents.Keys);
    assert RootAt(parents, id, k);
    return false;
  }

  /** The third loop over every task. */
  method CycleErrors(tasks: seq<Task>, byId: Table, parents: map<Token, Token>) returns (errors: seq<Issue>)
    requires Indexes(byId, tasks)
    ensures errors == [] <==> forall id :: id in byId ==> RootedWithin(parents, id, |parents.Keys|)
    ensures forall id :: CycleInvolving(id) in errors <==> id in byId && forall k: nat :: !RootAt(parents, id, k)
    ensures forall e :: e in errors ==> e.CycleInvolving?
  {
    errors := [];
    for i := 0 to |tasks|
      invariant forall e :: e in errors ==> e.CycleInvolving? && e.task in byId && forall k: nat :: !RootAt(parents, e.task, k)
      invariant forall j :: 0 <= j < i && (forall k: nat :: !RootAt(parents, tasks[j].id, k)) ==> CycleInvolving(tasks[j].id) in errors
      invariant errors == [] <==> forall k :: 0 <= k < i ==> RootedWithin(parents, tasks[k].id, |parents.Keys|)
    {
      var repeats := ChainRepeats(parents, tasks[i].id);
      if repeats { errors := errors + [CycleInvolving(tasks[i].id)]; }
    }
    forall id | id in byId ensures exists k :: 0 <= k < |tasks| && tasks[k].id == id {
      assert byId[id] in tasks;
    }
  }

  /** `by_id`: a later task replaces an earlier one of the same identifier. */
  function IndexOf(tasks: seq<Task>): Table {
    if tasks == [] then map[]
    else IndexOf(tasks[..|tasks| - 1])[tasks[|tasks| - 1].id := tasks[|tasks| - 1]]
  }

  lemma IndexGrows(byId: Table, init: seq<Task>, last: Task)
    requires DistinctIds(init + [last]) && Indexes(byId, init) && |byId| == |init|
    ensures Indexes(byId[last.id := last], init + [last]) && |byId[last.id := last]| == |init| + 1
  {
    var all := init + [last];
    assert forall k :: 0 <= k < |init| ==> all[k] == init[k];
    assert all[|init|] == last;
  }

  lemma {:induction false} IndexIsComplete(tasks: seq<Task>)
    requires DistinctIds(tasks)
    ensures Indexes(IndexOf(tasks), tasks) && |IndexOf(tasks)| == |tasks|
    decreases |tasks|
  {
    if tasks != [] {
      var init, last := tasks[..|tasks| - 1], tasks[|tasks| - 1];
      IndexIsComplete(init);
      assert tasks == init + [last];
      IndexGrows(IndexOf(init), init, last);
    }
  }

  method ById(tasks: seq<Task>) returns (byId: Table)
    ensures byId == IndexOf(tasks)
  {
    byId := map[];
    for i := 0 to |tasks|
      invariant byId == IndexOf(tasks[..i])
    {
      assert tasks[..i + 1][..i] == tasks[..i];
      byId := byId[tasks[i].id := tasks[i]];
    }
    assert tasks[..|tasks|] == tasks;
  }

  /** `hierarchy_errors` on tasks with distinct identifiers: it terminates, and reports nothing iff the edges form a forest. */
  method HierarchyErrors(tasks: seq<Task>) returns (errors: seq<Issue>)
    requires DistinctIds(tasks)
    ensures errors == [] <==> Forest(IndexOf(tasks))
    ensures AllHold(IndexOf(tasks), errors)
    ensures forall id :: CycleInvolving(id) in errors <==> id in IndexOf(tasks) && forall k: nat :: !RootAt(ParentsOf(IndexOf(tasks)), id, k)
  {
    IndexIsComplete(tasks);
    var byId := ById(tasks);
    var local, parents := LocalErrors(tasks, byId);
    var cycles := CycleErrors(tasks, byId, parents);
    errors := local + cycles;
    if local == [] { ForestIff(byId); }
  }

  /** The first two loops. */
  method LocalErrors(tasks: seq<Task>, byId: Table) returns (errors: seq<Issue>, parents: map<Token, Token>)
    requires DistinctIds(tasks) && Indexes(byId, tasks)
    ensures errors == [] <==> forall id :: id in byId ==> EdgesOk(byId, byId[id]) && ListedByParent(byId, byId[id])
    ensures EdgesHold(byId, errors) && parents == ParentsOf(byId)
  {
    var edges, found, lists := EdgeErrors(tasks, byId);
    parents := found;
    var omissions := OmissionErrors(tasks, byId, parents, lists);
    if edges == [] { OmissionsMeaning(byId); }
    errors := edges + omissions;
  }

  lemma OmissionsMeaning(byId: Table)
    requires forall id :: id in byId ==> byId[id].id == id && EdgesOk(byId, byId[id])
    ensures (forall id :: id in ParentsOf(byId) ==> ParentsOf(byId)[id] in byId && id in ListOf(byId[ParentsOf(byId)[id]]))
      <==> (forall id :: id in byId ==> ListedByParent(byId, byId[id]))
  {
    forall id | id in byId
      ensures (id in ParentsOf(byId) ==> id in ListOf(byId[ParentsOf(byId)[id]])) <==> ListedByParent(byId, byId[id])
    {
      assert PointerOk(byId, byId[id]);
    }
  }
}
