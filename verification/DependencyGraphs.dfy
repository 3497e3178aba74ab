/** Dependency graphs as `identifier -> dependencies` mappings, and walks along their edges. */
module DependencyGraphs {
  import opened Common

  type Graph = map<Token, seq<Token>>

  /** Consecutive elements are edges; only the last element may lie outside the graph's keys. */
  ghost predicate Walk(g: Graph, p: seq<Token>) {
    |p| >= 1 && forall i :: 0 <= i < |p| - 1 ==> p[i] in g && p[i + 1] in g[p[i]]
  }

  /** A walk of at least one edge. */
  ghost predicate Reaches(g: Graph, a: Token, b: Token) {
    exists p :: Walk(g, p) && |p| >= 2 && p[0] == a && p[|p| - 1] == b
  }

  ghost predicate Acyclic(g: Graph) {
    forall a :: !Reaches(g, a, a)
  }

  lemma Edge(g: Graph, a: Token, b: Token)
    requires a in g && b in g[a]
    ensures Reaches(g, a, b)
  {
    assert Walk(g, [a, b]);
  }

  lemma Then(g: Graph, a: Token, b: Token, c: Token)
    requires (a == b || Reaches(g, a, b)) && b in g && c in g[b]
    ensures Reaches(g, a, c)
  {
    if a == b {
      Edge(g, a, c);
    } else {
      var p :| Walk(g, p) && |p| >= 2 && p[0] == a && p[|p| - 1] == b;
      assert Walk(g, p + [c]);
    }
  }

  lemma Trans(g: Graph, a: Token, b: Token, c: Token)
    requires Reaches(g, a, b) && Reaches(g, b, c)
    ensures Reaches(g, a, c)
  {
    var p :| Walk(g, p) && |p| >= 2 && p[0] == a && p[|p| - 1] == b;
    var q :| Walk(g, q) && |q| >= 2 && q[0] == b && q[|q| - 1] == c;
    var r := p + q[1..];
    forall i | 0 <= i < |r| - 1 ensures r[i] in g && r[i + 1] in g[r[i]] {
      if i >= |p| - 1 { assert r[i] == q[i - |p| + 1] && r[i + 1] == q[i - |p| + 2]; }
    }
    assert Walk(g, r);
  }

  /** A strictly decreasing rank along the edges between keys rules out cycles. */
  lemma RankedIsAcyclic(g: Graph, rank: map<Token, int>)
    requires forall v :: v in g ==> v in rank
    requires forall v, d :: v in g && d in g[v] && d in g ==> rank[d] < rank[v]
    ensures Acyclic(g)
  {
    forall a ensures !Reaches(g, a, a) {
      if Reaches(g, a, a) {
        var p :| Walk(g, p) && |p| >= 2 && p[0] == a && p[|p| - 1] == a;
        RankFalls(g, rank, p, |p| - 1);
        assert false;
      }
    }
  }

  lemma RankFalls(g: Graph, rank: map<Token, int>, p: seq<Token>, n: nat)
    requires forall v :: v in g ==> v in rank
    requires forall v, d :: v in g && d in g[v] && d in g ==> rank[d] < rank[v]
    requires Walk(g, p) && 1 <= n < |p| && p[n] in g
    ensures rank[p[n]] < rank[p[0]]
  {
    if n > 1 { RankFalls(g, rank, p, n - 1); }
  }
}
