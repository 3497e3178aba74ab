/** The durable session journal of durable_session_chain.py. */
module SessionChain {
  import opened Common
  import HashChains

  datatype Status = Open | Committed | RolledBack | Ambiguous

  datatype Fsync = Pending | Durable | Uncertain

  /** The fields that never change within a session. */
  datatype Identity = Identity(session: Token, journal: Token, authority: Token, barrier: Token, owner: Token, token: Token)

  datatype Body = Body(
    identity: Identity, operation: Token, parent: Option<Token>, sequence: int, previous: Option<Digest>,
    stateRevision: int, status: Status, fsync: Fsync, payload: Token)

  /** SHA-256 of the canonical bytes, as a free constructor. */
  datatype Digest = Sha(body: Body)

  datatype SessionRecord = SessionRecord(body: Body, digest: Digest)

  type Chain = seq<SessionRecord>

  /** `validate_record`. */
  predicate RecordValid(r: SessionRecord) {
    && r.body.sequence >= 1 && r.body.stateRevision >= 1
    && (r.body.fsync == Uncertain ==> r.body.status == Ambiguous)
    && r.digest == Sha(r.body)
  }

  function PreviousOf(c: Chain, i: nat): Option<Digest>
    requires i <= |c|
  {
    if i == 0 then None else Some(c[i - 1].digest)
  }

  /** The record at one position continues the chain before it. */
  predicate Continues(c: Chain, i: nat)
    requires i < |c|
  {
    && RecordValid(c[i])
    && c[i].body.sequence == i + 1
    && c[i].body.previous == PreviousOf(c, i)
    && (i > 0 ==> c[i].body.identity == c[i - 1].body.identity)
  }

  predicate ChainValid(c: Chain) {
    forall i :: 0 <= i < |c| ==> Continues(c, i)
  }

  /** `validate_chain`: one pass that keeps only the prior record. */
  method ValidateChain(c: Chain) returns (r: Result<Chain>)
    ensures r == if ChainValid(c) then Ok(c) else Err(Malformed)
  {
    var prior: Option<SessionRecord> := None;
    var validated: Chain := [];
    for i := 0 to |c|
      invariant forall k :: 0 <= k < i ==> Continues(c, k)
      invariant prior == if i == 0 then None else Some(c[i - 1])
      invariant validated == c[..i]
    {
      var current := c[i];
      if !RecordValid(current) || current.body.sequence != i + 1 {
        assert !Continues(c, i);
        return Err(Malformed);
      }
      if prior.None? {
        if current.body.previous.Some? { assert !Continues(c, i); return Err(Malformed); }
      } else if current.body.previous != Some(prior.value.digest) || current.body.identity != prior.value.body.identity {
        assert !Continues(c, i);
        return Err(Malformed);
      }
      prior := Some(current);
      validated := validated + [current];
    }
    assert c[..|c|] == c;
    return Ok(validated);
  }

  /** `DurableSessionChain.append`: the old chain and one more record, validated from the start. */
  method Append(c: Chain, next: SessionRecord) returns (r: Result<Chain>)
    ensures r == if ChainValid(c + [next]) then Ok(c + [next]) else Err(Malformed)
  {
    r := ValidateChain(c + [next]);
  }

  /** Revalidating everything admits exactly the records that continue a valid chain. */
  lemma AppendIff(c: Chain, next: SessionRecord)
    requires ChainValid(c)
    ensures ChainValid(c + [next]) <==>
      && next.digest == Sha(next.body) && next.body.stateRevision >= 1 && (next.body.fsync == Uncertain ==> next.body.status == Ambiguous)
      && next.body.sequence == |c| + 1 && next.body.previous == (if c == [] then None else Some(c[|c| - 1].digest))
      && (c != [] ==> next.body.identity == c[0].body.identity)
  {
    var d := c + [next];
    OneIdentity(c);
    forall i | 0 <= i < |c| ensures Continues(d, i) { assert Continues(c, i); }
    assert ChainValid(d) <==> Continues(d, |c|);
    assert PreviousOf(d, |c|) == PreviousOf(c, |c|);
  }

  /** Every record of a chain belongs to the session of the first one. */
  lemma {:induction false} OneIdentity(c: Chain)
    requires ChainValid(c)
    ensures forall i :: 0 <= i < |c| ==> c[i].body.identity == c[0].body.identity
    decreases |c|
  {
    if |c| > 1 {
      var init := c[..|c| - 1];
      forall i | 0 <= i < |init| ensures Continues(init, i) { assert Continues(c, i); }
      OneIdentity(init);
      assert Continues(c, |c| - 1);
      forall i | 0 <= i < |c| ensures c[i].body.identity == c[0].body.identity {
        if i < |c| - 1 { assert init[i] == c[i]; } else { assert init[i - 1] == c[i - 1]; }
      }
    }
  }

  function Seal(r: SessionRecord): Digest { r.digest }

  function Link(r: SessionRecord): Option<Digest> { r.body.previous }

  lemma ChainOf(c: Chain)
    requires ChainValid(c)
    ensures HashChains.Linked(c, Seal, Link) && forall i :: 0 <= i < |c| ==> RecordValid(c[i])
  {
    forall i | 0 <= i < |c| ensures RecordValid(c[i]) && HashChains.LinkedAt(c, i, Seal, Link) { assert Continues(c, i); }
  }

  /** Two valid journals with the same last digest are the same journal, record for record. */
  lemma SameDigestSameJournal(a: Chain, b: Chain)
    requires ChainValid(a) && ChainValid(b) && a != [] && b != []
    requires a[|a| - 1].digest == b[|b| - 1].digest
    ensures a == b
  {
    var content := (r: SessionRecord) => r;
    ChainOf(a);
    ChainOf(b);
    HashChains.LastDigestFixesAll(a, b, Seal, Link, content);
    assert forall i :: 0 <= i < |a| ==> content(a[i]) == a[i] && content(b[i]) == b[i];
  }
}
