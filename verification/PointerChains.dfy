/** Following a partial map of pointers: parent references, supersession references. */
module PointerChains {
  import opened Common

  /** Where `steps` pointers lead from `id`, if the chain is that long. */
  function Ancestor(parents: map<Token, Token>, id: Token, steps: nat): Option<Token>
    decreases steps
  {
    if steps == 0 then Some(id)
    else if id in parents then Ancestor(parents, parents[id], steps - 1)
    else None
  }

  ghost predicate RootAt(parents: map<Token, Token>, id: Token, k: nat) {
    Ancestor(parents, id, k).Some? && Ancestor(parents, id, k).value !in parents
  }

  /** The chain from `id` ends at an identifier without pointer after at most `bound` steps. */
  ghost predicate RootedWithin(parents: map<Token, Token>, id: Token, bound: int) {
    exists k: nat :: k <= bound && RootAt(parents, id, k)
  }

  ghost predicate PassedBefore(parents: map<Token, Token>, id: Token, k: nat, x: Token) {
    exists j: nat :: j < k && Ancestor(parents, id, j) == Some(x)
  }

  lemma {:induction false} AncestorStep(parents: map<Token, Token>, id: Token, k: nat)
    requires Ancestor(parents, id, k).Some? && Ancestor(parents, id, k).value in parents
    ensures Ancestor(parents, id, k + 1) == Some(parents[Ancestor(parents, id, k).value])
    decreases k
  {
    if k > 0 { AncestorStep(parents, parents[id], k - 1); }
  }

  lemma {:induction false} AncestorPrefix(parents: map<Token, Token>, id: Token, j: nat, k: nat)
    requires j < k && Ancestor(parents, id, k).Some?
    ensures Ancestor(parents, id, j).Some? && Ancestor(parents, id, j).value in parents
    decreases j
  {
    if j > 0 { AncestorPrefix(parents, parents[id], j - 1, k - 1); }
  }

  lemma {:induction false} AncestorSplit(parents: map<Token, Token>, id: Token, j: nat, k: nat)
    requires Ancestor(parents, id, j).Some?
    ensures Ancestor(parents, id, j + k) == Ancestor(parents, Ancestor(parents, id, j).value, k)
    decreases j
  {
    if j > 0 { AncestorSplit(parents, parents[id], j - 1, k); }
  }

  /** A chain that revisits an identifier goes on forever, so it reaches no root. */
  lemma {:induction false} RepeatsHaveNoRoot(parents: map<Token, Token>, id: Token, i: nat, j: nat, k: nat)
    requires i < j && Ancestor(parents, id, j).Some? && Ancestor(parents, id, i) == Ancestor(parents, id, j)
    requires Ancestor(parents, id, k).Some?
    ensures Ancestor(parents, id, k).value in parents
    decreases k
  {
    AncestorPrefix(parents, id, i, j);
    if k < j {
      AncestorPrefix(parents, id, k, j);
    } else {
      AncestorSplit(parents, id, j, k - j);
      AncestorSplit(parents, id, i, k - j);
      RepeatsHaveNoRoot(parents, id, i, j, k - (j - i));
    }
  }

  /** The tasks passed before a root is reached are all different. */
  lemma {:induction false} ChainSize(parents: map<Token, Token>, id: Token, k: nat) returns (passed: set<Token>)
    requires Ancestor(parents, id, k).Some? && Ancestor(parents, id, k).value !in parents
    ensures |passed| == k && passed <= parents.Keys
    ensures forall x :: x in passed ==> PassedBefore(parents, id, k, x)
    decreases k
  {
    passed := {};
    if k > 0 {
      var rest := ChainSize(parents, parents[id], k - 1);
      forall x | x in rest ensures x != id && PassedBefore(parents, id, k, x) {
        var j: nat :| j < k - 1 && Ancestor(parents, parents[id], j) == Some(x);
        assert Ancestor(parents, id, j + 1) == Some(x);
        if x == id { RepeatsHaveNoRoot(parents, id, 0, j + 1, k); }
      }
      assert Ancestor(parents, id, 0) == Some(id);
      passed := rest + {id};
    }
  }

  lemma {:induction false} SubsetSize(a: set<Token>, b: set<Token>)
    requires a <= b
    ensures |a| <= |b|
  {
    if a != {} {
      var x :| x in a;
      SubsetSize(a - {x}, b - {x});
    }
  }

  lemma {:induction false} StaysInside(parents: map<Token, Token>, id: Token, k: nat, ids: set<Token>)
    requires id in ids && Ancestor(parents, id, k).Some? && forall x :: x in parents ==> parents[x] in ids
    ensures Ancestor(parents, id, k).value in ids
    decreases k
  {
    if k > 0 { StaysInside(parents, parents[id], k - 1, ids); }
  }

  lemma RepeatedForever(parents: map<Token, Token>, id: Token, k: nat)
    requires Ancestor(parents, id, k).Some? && PassedBefore(parents, id, k, Ancestor(parents, id, k).value)
    ensures forall n: nat :: !RootAt(parents, id, n)
  {
    var j: nat :| j < k && Ancestor(parents, id, j) == Ancestor(parents, id, k);
    forall n: nat ensures !RootAt(parents, id, n) {
      if Ancestor(parents, id, n).Some? { RepeatsHaveNoRoot(parents, id, j, k, n); }
    }
  }
}
