/** Tamper evidence of any hash-linked ledger, stated once for the three ledgers that are validated this way. */
module HashChains {
  import opened Common

  /** Each record names the digest of the one before it, and the first names none. */
  ghost predicate Linked<R, D>(a: seq<R>, digest: R -> D, previous: R -> Option<D>) {
    forall i :: 0 <= i < |a| ==> LinkedAt(a, i, digest, previous)
  }

  ghost predicate LinkedAt<R, D>(a: seq<R>, i: nat, digest: R -> D, previous: R -> Option<D>)
    requires i < |a|
  {
    previous(a[i]) == if i == 0 then None else Some(digest(a[i - 1]))
  }

  lemma LinkedInit<R, D>(a: seq<R>, digest: R -> D, previous: R -> Option<D>)
    requires a != [] && Linked(a, digest, previous)
    ensures Linked(a[..|a| - 1], digest, previous)
  {
    var init := a[..|a| - 1];
    forall i | 0 <= i < |init| ensures LinkedAt(init, i, digest, previous) { assert LinkedAt(a, i, digest, previous); }
  }

  /** Equal digests come from equal covered content, and the link is covered. */
  ghost predicate Covers<R, D, K>(a: seq<R>, b: seq<R>, digest: R -> D, previous: R -> Option<D>, content: R -> K) {
    forall i, j :: 0 <= i < |a| && 0 <= j < |b| && digest(a[i]) == digest(b[j]) ==>
      content(a[i]) == content(b[j]) && previous(a[i]) == previous(b[j])
  }

  /** The last digest fixes the whole ledger: its length and the covered content of every record. */
  lemma {:induction false} LastDigestFixesAll<R, D, K>(a: seq<R>, b: seq<R>, digest: R -> D, previous: R -> Option<D>, content: R -> K)
    requires a != [] && b != []
    requires Linked(a, digest, previous) && Linked(b, digest, previous) && Covers(a, b, digest, previous, content)
    requires digest(a[|a| - 1]) == digest(b[|b| - 1])
    ensures |a| == |b| && forall i :: 0 <= i < |a| ==> content(a[i]) == content(b[i])
    decreases |a|
  {
    var m, n := |a| - 1, |b| - 1;
    assert content(a[m]) == content(b[n]) && previous(a[m]) == previous(b[n]);
    assert LinkedAt(a, m, digest, previous) && LinkedAt(b, n, digest, previous);
    if m > 0 && n > 0 {
      LinkedInit(a, digest, previous);
      LinkedInit(b, digest, previous);
      LastDigestFixesAll(a[..m], b[..n], digest, previous, content);
      forall i | 0 <= i < |a| ensures content(a[i]) == content(b[i]) {
        if i < m { assert a[..m][i] == a[i] && b[..n][i] == b[i]; }
      }
    }
  }
}
