/** The graph checks of issue_series.py: edges, the depth-first cycle search, and finalizer reachability. */
module IssueSeries {
  import opened Common
  import opened DependencyGraphs

  datatype Member = Member(id: Token, dependsOn: seq<Token>)

  datatype Issue =
    | DuplicateDependencies(id: Token)
    | SelfDependency(id: Token)
    | MissingDependency(id: Token, dependency: Token)
    | Cycle(id: Token)
    | NotDirect(finalizer: Token, id: Token)
    | Orphaned(id: Token, finalizer: Token)

  ghost predicate DistinctIds(members: seq<Member>) {
    forall i, j :: 0 <= i < j < |members| ==> members[i].id != members[j].id
  }

  function Ids(members: seq<Member>): set<Token> {
    set m | m in members :: m.id
  }

  function GraphOf(members: seq<Member>): Graph {
    if members == [] then map[]
    else GraphOf(members[..|members| - 1])[members[|members| - 1].id := members[|members| - 1].dependsOn]
  }

  // ---- Edges ----------------------------------------------------------------

  ghost predicate EdgesOk(m: Member, ids: set<Token>) {
    Distinct(m.dependsOn) && m.id !in m.dependsOn && forall d :: d in m.dependsOn ==> d in ids
  }

  /** What is wrong with the edges of one member, each with its own error. */
  ghost predicate EdgeFault(m: Member, ids: set<Token>, e: Issue) {
    FaultUpTo(m, ids, |m.dependsOn|, e)
  }

  ghost predicate FaultUpTo(m: Member, ids: set<Token>, n: nat, e: Issue)
    requires n <= |m.dependsOn|
  {
    || (e == DuplicateDependencies(m.id) && !Distinct(m.dependsOn))
    || (e == SelfDependency(m.id) && m.id in m.dependsOn)
    || (exists j :: 0 <= j < n && m.dependsOn[j] !in ids && e == MissingDependency(m.id, m.dependsOn[j]))
  }

  /** `_edge_errors`: the graph, and an error for every member whose edges are not well formed. */
  method EdgeErrors(members: seq<Member>) returns (errors: seq<Issue>, graph: Graph)
    ensures graph == GraphOf(members)
    ensures errors == [] <==> forall m :: m in members ==> EdgesOk(m, Ids(members))
    ensures forall e :: e in errors <==> exists k :: 0 <= k < |members| && EdgeFault(members[k], Ids(members), e)
  {
    errors, graph := [], map[];
    for i := 0 to |members|
      invariant graph == GraphOf(members[..i])
      invariant errors == [] <==> forall k :: 0 <= k < i ==> EdgesOk(members[k], Ids(members))
      invariant forall e :: e in errors <==> exists k :: 0 <= k < i && EdgeFault(members[k], Ids(members), e)
    {
      var m := members[i];
      var before := errors;
      var duplicates := HasDuplicates(m.dependsOn);
      if duplicates { errors := errors + [DuplicateDependencies(m.id)]; }
      if m.id in m.dependsOn { errors := errors + [SelfDependency(m.id)]; }
      for k := 0 to |m.dependsOn|
        invariant forall e :: e in errors <==> e in before || FaultUpTo(m, Ids(members), k, e)
        invariant errors == [] <==> before == [] && !duplicates && m.id !in m.dependsOn && forall j :: 0 <= j < k ==> m.dependsOn[j] in Ids(members)
      {
        if !(exists other :: other in members && other.id == m.dependsOn[k]) {
          errors := errors + [MissingDependency(m.id, m.dependsOn[k])];
        }
      }
      graph := graph[m.id := m.dependsOn];
      assert members[..i + 1][..i] == members[..i];
    }
    assert members[..|members|] == members;
  }

  // ---- Cycles ---------------------------------------------------------------

  /** Finished identifiers rank above the dependencies they have among the keys, all finished too. */
  ghost predicate RanksBelow(g: Graph, visited: set<Token>, rank: map<Token, int>, clock: int) {
    && (forall v :: v in visited ==> v in rank && rank[v] < clock)
    && (forall v, d :: v in visited && v in g && d in g[v] && d in g ==> d in visited && rank[d] < rank[v])
  }

  lemma RankGrows(g: Graph, visited: set<Token>, rank: map<Token, int>, clock: int, id: Token)
    requires RanksBelow(g, visited, rank, clock) && id in g && id !in visited
    requires forall d :: d in g[id] && d in g ==> d in visited
    ensures RanksBelow(g, visited + {id}, rank[id := clock], clock + 1)
  {
  }

  /**
   The search of `_cycle_errors`: `visit` works on two shared sets.  Ghost fields
   record why it is right: `stack` is the walk of identifiers being visited, and
   `rank` falls along every edge between finished identifiers.
   */
  class CycleSearch {
    const graph: Graph
    var visiting: set<Token>
    var visited: set<Token>
    var errors: seq<Issue>
    ghost var stack: seq<Token>
    ghost var rank: map<Token, int>
    ghost var clock: int

    ghost predicate Valid()
      reads this
    {
      && visiting !! visited && visiting + visited <= graph.Keys
      && (forall x :: x in visiting <==> x in stack)
      && (stack != [] ==> Walk(graph, stack))
      && (forall e :: e in errors ==> e.Cycle? && Reaches(graph, e.id, e.id))
      && (errors == [] ==> Ranked())
    }

    ghost predicate Ranked()
      reads this
    {
      RanksBelow(graph, visited, rank, clock)
    }

    constructor (graph: Graph)
      ensures Valid() && this.graph == graph && visited == {} && errors == [] && stack == []
    {
      this.graph := graph;
      visiting, visited, errors := {}, {}, [];
      stack, rank, clock := [], map[], 0;
    }

    /** An identifier met again while it is being visited closes a cycle along the stack. */
    lemma Closes(id: Token)
      requires Valid() && id in visiting && id in graph[stack[|stack| - 1]]
      ensures Reaches(graph, id, id)
    {
      var k :| 0 <= k < |stack| && stack[k] == id;
      assert Walk(graph, stack[k..] + [id]);
    }

    /** Start visiting a new identifier below the top of the stack. */
    method Enter(id: Token)
      requires Valid() && id in graph && id !in visiting && id !in visited
      requires stack != [] ==> stack[|stack| - 1] in graph && id in graph[stack[|stack| - 1]]
      modifies this`visiting, this`stack
      ensures Valid() && visiting == old(visiting) + {id} && stack == old(stack) + [id]
    {
      visiting := visiting + {id};
      stack := stack + [id];
    }

    /** Every dependency has been visited: the identifier is finished and ranks above them. */
    method Leave(id: Token)
      requires Valid() && id in visiting && stack != [] && stack[|stack| - 1] == id && id !in stack[..|stack| - 1]
      requires errors == [] ==> forall d :: d in graph[id] && d in graph ==> d in visited
      modifies this`visiting, this`visited, this`stack, this`rank, this`clock
      ensures Valid() && visiting == old(visiting) - {id} && visited == old(visited) + {id} && stack == old(stack)[..|old(stack)| - 1]
    {
      assert stack == stack[..|stack| - 1] + [id];
      if errors == [] { RankGrows(graph, visited, rank, clock, id); }
      visiting := visiting - {id};
      visited := visited + {id};
      stack := stack[..|stack| - 1];
      rank := rank[id := clock];
      clock := clock + 1;
    }

    method Visit(id: Token)
      requires Valid() && (stack != [] ==> stack[|stack| - 1] in graph && id in graph[stack[|stack| - 1]])
      modifies this
      ensures Valid() && stack == old(stack) && visiting == old(visiting) && old(visited) <= visited && old(errors) <= errors
      ensures id in graph && errors == [] ==> id in visited
      decreases graph.Keys - visiting - visited, 1
    {
      if id in visited || id !in graph { return; }
      if id in visiting {
        Closes(id);
        errors := errors + [Cycle(id)];
        return;
      }
      Enter(id);
      assert id in old(graph.Keys - visiting - visited) && id !in graph.Keys - visiting - visited;
      VisitAll(id, graph[id]);
      assert stack[..|stack| - 1] == old(stack);
      Leave(id);
    }

    /** The loop of `visit` over the dependencies of the identifier on top of the stack. */
    method VisitAll(id: Token, dependencies: seq<Token>)
      requires Valid() && id in graph && dependencies == graph[id] && stack != [] && stack[|stack| - 1] == id
      modifies this
      ensures Valid() && stack == old(stack) && visiting == old(visiting) && old(visited) <= visited && old(errors) <= errors
      ensures errors == [] ==> forall d :: d in dependencies && d in graph ==> d in visited
      decreases graph.Keys - visiting - visited, 2
    {
      for i := 0 to |dependencies|
        invariant Valid() && stack == old(stack) && visiting == old(visiting) && old(visited) <= visited && old(errors) <= errors
        invariant errors == [] ==> forall k :: 0 <= k < i && dependencies[k] in graph ==> dependencies[k] in visited
      {
        Visit(dependencies[i]);
      }
    }
  }

  /** `_cycle_errors`, for any enumeration of the keys: it always terminates, reports only identifiers on cycles, and reports nothing iff there is none. */
  method CycleErrors(graph: Graph, order: seq<Token>) returns (errors: seq<Issue>)
    requires forall id :: id in order <==> id in graph
    ensures errors == [] <==> Acyclic(graph)
    ensures forall e :: e in errors ==> e.Cycle? && Reaches(graph, e.id, e.id)
  {
    var search := new CycleSearch(graph);
    for i := 0 to |order|
      invariant search.Valid() && search.stack == [] && fresh(search)
      invariant search.errors == [] ==> forall k :: 0 <= k < i ==> order[k] in search.visited
    {
      search.Visit(order[i]);
    }
    errors := search.errors;
    if errors == [] {
      RankedIsAcyclic(graph, search.rank);
    } else {
      assert errors[0] in errors;
    }
  }

  // ---- The finalizer --------------------------------------------------------

  /** Everything a walk can visit lies among the keys and their dependencies. */
  function Universe(g: Graph): set<Token> {
    g.Keys + set id, d | id in g && d in g[id] :: d
  }

  /** Everything known is reachable, and everything pending is known. */
  ghost predicate Sound(g: Graph, start: Token, known: set<Token>, pending: seq<Token>) {
    && start in known && known <= Universe(g) + {start}
    && (forall x :: x in known ==> x == start || Reaches(g, start, x))
    && (forall x :: x in pending ==> x in known)
  }

  /** One turn of the worklist: the dependencies of one known identifier become known, the new ones pending. */
  method Expand(g: Graph, start: Token, current: Token, known: set<Token>, rest: seq<Token>)
    returns (reachable: set<Token>, pending: seq<Token>)
    requires Sound(g, start, known, rest) && current in known
    ensures Sound(g, start, reachable, pending) && known <= reachable
    ensures reachable == known ==> pending == rest
    ensures forall x :: x in rest || (x in reachable && x !in known) ==> x in pending
    ensures current in g ==> forall d :: d in g[current] ==> d in reachable
  {
    reachable, pending := known, rest;
    var dependencies := if current in g then g[current] else [];
    for i := 0 to |dependencies|
      invariant known <= reachable && Sound(g, start, reachable, pending)
      invariant reachable == known ==> pending == rest
      invariant forall x :: x in rest || (x in reachable && x !in known) ==> x in pending
      invariant forall k :: 0 <= k < i ==> dependencies[k] in reachable
    {
      if dependencies[i] !in reachable {
        Then(g, start, current, dependencies[i]);
        reachable := reachable + {dependencies[i]};
        pending := pending + [dependencies[i]];
      }
    }
  }

  /** The worklist of `_finalizer_errors`: exactly the identifiers reachable from the start. */
  method Closure(g: Graph, start: Token) returns (reachable: set<Token>)
    ensures forall x :: x in reachable <==> x == start || Reaches(g, start, x)
  {
    reachable := {start};
    var pending := [start];
    while pending != []
      invariant Sound(g, start, reachable, pending)
      invariant forall x, d :: x in reachable && x !in pending && x in g && d in g[x] ==> d in reachable
      decreases Universe(g) + {start} - reachable, |pending|
    {
      var current, rest := pending[|pending| - 1], pending[..|pending| - 1];
      assert pending == rest + [current];
      ghost var known := reachable;
      reachable, pending := Expand(g, start, current, reachable, rest);
      if reachable != known {
        var x :| x in reachable && x !in known;
        assert x in Universe(g) + {start} - known && x !in Universe(g) + {start} - reachable;
      }
    }
    forall x | Reaches(g, start, x) ensures x in reachable { Closed(g, start, x, reachable); }
  }

  lemma Closed(g: Graph, start: Token, x: Token, s: set<Token>)
    requires start in s && forall y, d :: y in s && y in g && d in g[y] ==> d in s
    requires Reaches(g, start, x)
    ensures x in s
  {
    var p :| Walk(g, p) && |p| >= 2 && p[0] == start && p[|p| - 1] == x;
    for i := 0 to |p| - 1
      invariant p[i] in s
    {
    }
  }

  /** `_finalizer_errors`: nothing iff the finalizer directly depends on every other member; orphans are exactly the unreachable members. */
  method FinalizerErrors(members: seq<Member>, graph: Graph, finalizer: Token) returns (errors: seq<Issue>)
    requires finalizer in graph
    ensures errors == [] <==> forall m :: m in members && m.id != finalizer ==> m.id in graph[finalizer]
    ensures forall m :: m in members ==> (Orphaned(m.id, finalizer) in errors <==> m.id != finalizer && !Reaches(graph, finalizer, m.id))
    ensures forall m :: m in members ==> (NotDirect(finalizer, m.id) in errors <==> m.id != finalizer && m.id !in graph[finalizer])
  {
    errors := [];
    for i := 0 to |members|
      invariant errors == [] <==> forall k :: 0 <= k < i && members[k].id != finalizer ==> members[k].id in graph[finalizer]
      invariant forall e :: e in errors ==> e.NotDirect? && e.finalizer == finalizer && e.id != finalizer && e.id !in graph[finalizer]
      invariant forall k :: 0 <= k < i && members[k].id != finalizer && members[k].id !in graph[finalizer] ==> NotDirect(finalizer, members[k].id) in errors
    {
      if members[i].id != finalizer && members[i].id !in graph[finalizer] {
        errors := errors + [NotDirect(finalizer, members[i].id)];
      }
    }
    var reachable := Closure(graph, finalizer);
    forall d | d in graph[finalizer] ensures d in reachable { Edge(graph, finalizer, d); }
    ghost var direct := errors;
    for i := 0 to |members|
      invariant direct <= errors
      invariant direct == [] ==> errors == []
      invariant forall k :: 0 <= k < i && members[k].id !in reachable ==> Orphaned(members[k].id, finalizer) in errors
      invariant forall e :: e in errors ==> (e.NotDirect? && e in direct) || (e.Orphaned? && e.id !in reachable)
    {
      if members[i].id !in reachable { errors := errors + [Orphaned(members[i].id, finalizer)]; }
    }
  }

  // ---- Manifests ------------------------------------------------------------

  /** What `parse_manifest` accepts, graph part. */
  ghost predicate GoodSeries(members: seq<Member>, finalizer: Token) {
    && (forall m :: m in members ==> EdgesOk(m, Ids(members)))
    && Acyclic(GraphOf(members))
    && forall m :: m in members && m.id != finalizer ==> finalizer in GraphOf(members) && m.id in GraphOf(members)[finalizer]
  }

  lemma GraphKeys(members: seq<Member>)
    ensures GraphOf(members).Keys == Ids(members)
    ensures forall id :: id in GraphOf(members) ==> exists m :: m in members && m.id == id && GraphOf(members)[id] == m.dependsOn
  {
    if members != [] {
      var init, last := members[..|members| - 1], members[|members| - 1];
      assert members == init + [last];
      GraphKeys(init);
    }
  }

  /** `_graph_errors`. */
  method GraphErrors(members: seq<Member>, finalizer: Token, order: seq<Token>) returns (errors: seq<Issue>)
    requires finalizer in Ids(members)
    requires forall id :: id in order <==> id in Ids(members)
    ensures errors == [] <==> GoodSeries(members, finalizer)
  {
    GraphKeys(members);
    var edges, graph := EdgeErrors(members);
    var cycles := CycleErrors(graph, order);
    var final := FinalizerErrors(members, graph, finalizer);
    errors := edges + cycles + final;
  }

  /** `_members` and the verdict of `parse_manifest`. */
  method ParseManifest(members: seq<Member>, finalizer: Token, order: seq<Token>) returns (accepted: bool)
    requires forall id :: id in order <==> id in Ids(members)
    ensures accepted <==> members != [] && DistinctIds(members) && members[|members| - 1].id == finalizer && GoodSeries(members, finalizer)
  {
    if members == [] { return false; }
    var ids := seq(|members|, i requires 0 <= i < |members| => members[i].id);
    var duplicates := HasDuplicates(ids);
    assert forall i :: 0 <= i < |ids| ==> ids[i] == members[i].id;
    assert Distinct(ids) <==> DistinctIds(members);
    if duplicates { return false; }
    if members[|members| - 1].id != finalizer { return false; }
    assert members[|members| - 1] in members;
    var errors := GraphErrors(members, finalizer, order);
    return errors == [];
  }

  /** An accepted series is a closed DAG topped by its finalizer: every other member is reached from it, and none reaches it. */
  lemma AcceptedSeries(members: seq<Member>, finalizer: Token)
    requires DistinctIds(members) && finalizer in Ids(members) && GoodSeries(members, finalizer)
    ensures var g := GraphOf(members);
      && Acyclic(g)
      && (forall id, d :: id in g && d in g[id] ==> d in g)
      && (forall m :: m in members && m.id != finalizer ==> Reaches(g, finalizer, m.id) && !Reaches(g, m.id, finalizer))
  {
    var g := GraphOf(members);
    GraphKeys(members);
    forall m | m in members && m.id != finalizer ensures Reaches(g, finalizer, m.id) && !Reaches(g, m.id, finalizer) {
      Edge(g, finalizer, m.id);
      if Reaches(g, m.id, finalizer) { Trans(g, finalizer, m.id, finalizer); }
    }
  }
}
