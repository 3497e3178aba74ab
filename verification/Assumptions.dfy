/** The assumption history of assumption_revalidation.py. */
module Assumptions {
  import opened Common
  import HashChains

  const MAX_RECORDS: nat := 64

  datatype Kind = Base | Dependency | Observation

  datatype Action = Declare | Revalidate | Dispose

  /** What was observed: the reference that stays pinned and the value found there. */
  datatype Binding = Binding(reference: Token, value: Token)

  /** A reason is absent, or one line of bounded length, or something the validator refuses. */
  datatype Reason = NoReason | Line(text: Token) | Unusable

  datatype Digest = NoDigest | Sha(action: Action, id: Token, kind: Kind, material: bool, binding: Binding, revision: nat, previous: Digest, reason: Reason)

  datatype Record = Record(action: Action, id: Token, kind: Kind, material: bool, binding: Binding, revision: nat, previous: Digest, reason: Reason, digest: Digest)

  type History = seq<Record>

  function DigestOf(r: Record): Digest {
    Sha(r.action, r.id, r.kind, r.material, r.binding, r.revision, r.previous, r.reason)
  }

  /** `_validate`. */
  predicate Valid(r: Record) {
    && r.revision >= 1 && r.digest == DigestOf(r)
    && (if r.action == Dispose then r.reason.Line? else r.reason.NoReason?)
  }

  /** `active`: the last record of each assumption. */
  function Active(h: History): map<Token, Record> {
    if h == [] then map[] else Active(h[..|h| - 1])[h[|h| - 1].id := h[|h| - 1]]
  }

  function LastDigest(h: History): Digest {
    if h == [] then NoDigest else h[|h| - 1].digest
  }

  function LastRevision(h: History): nat {
    if h == [] then 0 else h[|h| - 1].revision
  }

  /** One turn of the loop of `records`. */
  predicate Follows(active: map<Token, Record>, digest: Digest, revision: nat, r: Record) {
    && Valid(r) && r.previous == digest && r.revision > revision
    && (if r.action == Declare then r.id !in active
        else
          && r.id in active && active[r.id].kind == r.kind && active[r.id].material == r.material
          && active[r.id].action != Dispose
          && (r.action == Revalidate ==> active[r.id].binding != r.binding))
  }

  predicate Linked(h: History) {
    h == [] || (Linked(h[..|h| - 1]) && Follows(Active(h[..|h| - 1]), LastDigest(h[..|h| - 1]), LastRevision(h[..|h| - 1]), h[|h| - 1]))
  }

  predicate Accepted(h: History) {
    |h| <= MAX_RECORDS && Linked(h)
  }

  lemma {:induction false} LinkedPrefix(h: History, n: nat)
    requires n <= |h| && Linked(h)
    ensures Linked(h[..n])
    decreases |h|
  {
    if n == |h| { assert h[..n] == h; }
    else {
      LinkedPrefix(h[..|h| - 1], n);
      assert h[..|h| - 1][..n] == h[..n];
    }
  }

  /** `records`. */
  method Records(h: History) returns (ok: bool)
    ensures ok <==> Accepted(h)
  {
    if |h| > MAX_RECORDS { return false; }
    var previousDigest, previousRevision := NoDigest, 0;
    var active: map<Token, Record> := map[];
    for i := 0 to |h|
      invariant Linked(h[..i])
      invariant active == Active(h[..i])
      invariant previousDigest == LastDigest(h[..i]) && previousRevision == LastRevision(h[..i])
    {
      var r := h[i];
      assert h[..i + 1][..i] == h[..i];
      if !Follows(active, previousDigest, previousRevision, r) {
        if Linked(h) { LinkedPrefix(h, i + 1); }
        return false;
      }
      active := active[r.id := r];
      previousDigest, previousRevision := r.digest, r.revision;
    }
    assert h[..|h|] == h;
    return true;
  }

  // ---- Extending ------------------------------------------------------------

  /** A request; `kind`, `material` and `reference` are `None` where the command line left them out. */
  datatype Request = Request(action: Action, id: Token, kind: Option<Kind>, material: Option<bool>, reference: Option<Token>, reason: Reason)

  /** `_binding`: a fresh observation of a reference, or a failure. */
  type Observe = (Kind, Token) -> Option<Token>

  const NO_REFERENCE: Token := 0

  /** `_request_identity` and `_followup_identity`: materiality, kind and reference; follow-ups keep those of the declaration. */
  function RequestIdentity(existing: Option<Record>, q: Request): Result<(bool, Kind, Token)> {
    if q.action == Declare then
      if existing.Some? then Err(ConflictingInput)
      else if q.kind.None? || q.material.None? then Err(InvalidInput)
      else Ok((q.material.value, q.kind.value, if q.reference.Some? then q.reference.value else NO_REFERENCE))
    else if existing.None? then Err(UnknownRow)
    else
      var prior := existing.value;
      if prior.action == Dispose then Err(NotInPhase)
      else if q.kind.Some? && q.kind.value != prior.kind then Err(ConflictingInput)
      else if prior.kind == Base then (if q.reference.Some? then Err(InvalidInput) else Ok((prior.material, Base, NO_REFERENCE)))
      else Ok((prior.material, prior.kind, prior.binding.reference))
  }

  /** `apply`, after the owner and revision fence. */
  function Applied(h: History, revision: nat, q: Request, observe: Observe): Result<History> {
    if !Accepted(h) then Err(Malformed)
    else if |h| >= MAX_RECORDS then Err(Denied)
    else
      var existing := if q.id in Active(h) then Some(Active(h)[q.id]) else None;
      match RequestIdentity(existing, q)
      case Err(e) => Err(e)
      case Ok(identity) =>
        if (identity.1 == Base && identity.2 != NO_REFERENCE) || observe(identity.1, identity.2).None? then Err(Denied)
        else
          var binding := Binding(identity.2, observe(identity.1, identity.2).value);
          if q.action == Revalidate && existing.Some? && binding == existing.value.binding then Err(NotInPhase)
          else if q.action == Dispose && q.reason == NoReason then Err(InvalidInput)
          else
            var reason := if q.action == Dispose then q.reason else NoReason;
            Ok(h + [Appended(h, q, identity.1, identity.0, binding, revision + 1, reason)])
  }

  function Appended(h: History, q: Request, kind: Kind, material: bool, binding: Binding, revision: nat, reason: Reason): Record {
    Record(q.action, q.id, kind, material, binding, revision, LastDigest(h), reason,
      Sha(q.action, q.id, kind, material, binding, revision, LastDigest(h), reason))
  }

  lemma {:induction false} RevisionsRise(h: History)
    requires Linked(h)
    ensures forall i :: 0 <= i < |h| ==> h[i].revision <= LastRevision(h)
    ensures forall i, j :: 0 <= i < j < |h| ==> h[i].revision < h[j].revision
    decreases |h|
  {
    if h != [] {
      var init := h[..|h| - 1];
      RevisionsRise(init);
      forall i | 0 <= i < |h| - 1 ensures h[i].revision < h[|h| - 1].revision { assert init[i] == h[i]; }
      forall i, j | 0 <= i < j < |h| ensures h[i].revision < h[j].revision {
        if j < |h| - 1 { assert init[i] == h[i] && init[j] == h[j]; }
      }
    }
  }

  /** What `apply` builds, `records` accepts, unless a disposition's reason is too long or spans lines: building checks only that it is not blank. */
  lemma AppliedAcceptedIff(h: History, revision: nat, q: Request, observe: Observe)
    requires LastRevision(h) <= revision && Applied(h, revision, q, observe).Ok?
    ensures Accepted(Applied(h, revision, q, observe).value) <==> (q.action == Dispose ==> q.reason.Line?)
  {
    var h' := Applied(h, revision, q, observe).value;
    assert h'[..|h'| - 1] == h;
  }

  // ---- What is recorded, and when -------------------------------------------

  /** The latest record of this assumption. */
  ghost predicate Latest(h: History, k: nat, id: Token) {
    k < |h| && h[k].id == id && forall m :: k < m < |h| ==> h[m].id != id
  }

  ghost predicate Unknown(h: History, id: Token) {
    forall k :: 0 <= k < |h| ==> h[k].id != id
  }

  /** The record says what was asked: a declaration's own kind, materiality and reference, a follow-up those of the record before it,
      with the value observed now. */
  ghost predicate States(r: Record, h: History, q: Request, revision: nat, observe: Observe) {
    && r.action == q.action && r.id == q.id && r.revision == revision
    && observe(r.kind, r.binding.reference) == Some(r.binding.value)
    && r.reason == (if q.action == Dispose then q.reason else NoReason)
    && (q.action == Declare ==>
      && q.kind == Some(r.kind) && q.material == Some(r.material)
      && r.binding.reference == match q.reference case Some(reference) => reference case None => NO_REFERENCE)
    && (q.action != Declare ==>
      exists k: nat :: Latest(h, k, q.id) && r.kind == h[k].kind && r.material == h[k].material
        && r.binding.reference == if h[k].kind == Base then NO_REFERENCE else h[k].binding.reference)
  }

  /** A follow-up of this record: same kind, no new reference for a base assumption, another value if it revalidates, a reason if it disposes. */
  ghost predicate FollowsUp(last: Record, q: Request, observe: Observe) {
    var reference := if last.kind == Base then NO_REFERENCE else last.binding.reference;
    && last.action != Dispose && (q.kind == None || q.kind == Some(last.kind)) && (last.kind == Base ==> q.reference == None)
    && observe(last.kind, reference).Some?
    && (q.action == Revalidate ==> last.binding != Binding(reference, observe(last.kind, reference).value))
    && (q.action == Dispose ==> q.reason != NoReason)
  }

  /** A request may be taken up: a declaration of something new and observable, or a follow-up of the latest record. */
  ghost predicate MayFollow(h: History, q: Request, observe: Observe) {
    && |h| < 64
    && (if q.action == Declare then
          var reference := match q.reference case Some(given) => given case None => NO_REFERENCE;
          && Unknown(h, q.id) && q.kind.Some? && q.material.Some? && (q.kind.value == Base ==> reference == NO_REFERENCE)
          && observe(q.kind.value, reference).Some?
        else exists k: nat :: Latest(h, k, q.id) && FollowsUp(h[k], q, observe))
  }

  lemma ActiveIffLatest(h: History, id: Token)
    ensures id !in Active(h) <==> Unknown(h, id)
    ensures forall k: nat :: Latest(h, k, id) ==> id in Active(h) && Active(h)[id] == h[k]
    ensures id in Active(h) ==> exists k: nat :: Latest(h, k, id)
  {
    ActiveIsLast(h, id);
    if id in Active(h) {
      var k: nat :| k < |h| && h[k] == Active(h)[id] && h[k].id == id && (forall m :: k < m < |h| ==> h[m].id != id);
      assert Latest(h, k, id);
      forall j: nat | Latest(h, j, id) ensures j == k {}
    }
  }

  lemma AppliedIff(h: History, revision: nat, q: Request, observe: Observe)
    ensures Applied(h, revision, q, observe).Ok? <==> Accepted(h) && MayFollow(h, q, observe)
    ensures Applied(h, revision, q, observe).Ok? ==>
      var h' := Applied(h, revision, q, observe).value; h' != [] && h'[..|h'| - 1] == h && States(h'[|h'| - 1], h, q, revision + 1, observe)
  {
    ActiveIffLatest(h, q.id);
  }

  /** The fenced mutation: a refusal leaves the history alone. */
  class AssumptionTask {
    var owner: Option<Token>
    var active: bool
    var revision: nat
    var history: History

    constructor (owner: Option<Token>, active: bool, revision: nat)
      ensures this.owner == owner && this.active == active && this.revision == revision && history == []
    {
      this.owner, this.active, this.revision, this.history := owner, active, revision, [];
    }

    method Apply(caller: Option<Token>, expected: nat, q: Request, observe: Observe) returns (error: Option<Error>)
      modifies `history
      ensures owner != caller ==> error == Some(NotOwned)
      ensures owner == caller && !active ==> error == Some(NotInPhase)
      ensures owner == caller && active && expected != revision ==> error == Some(StaleRevision)
      ensures owner == caller && active && expected == revision ==>
        match Applied(old(history), revision, q, observe)
        case Err(e) => error == Some(e)
        case Ok(h) => history == h && error == None
      ensures error.Some? ==> history == old(history)
      // Taken up exactly if it may follow the story of its assumption, and recorded as given and observed.
      ensures error == None <==> owner == caller && active && expected == revision && Accepted(old(history)) && MayFollow(old(history), q, observe)
      ensures error == None ==>
        history != [] && history[..|history| - 1] == old(history) && States(history[|history| - 1], old(history), q, revision + 1, observe)
    {
      AppliedIff(history, revision, q, observe);
      if owner != caller { return Some(NotOwned); }
      if !active { return Some(NotInPhase); }
      if expected != revision { return Some(StaleRevision); }
      error := Extend(q, observe);
    }

    /** The rest of `apply`, behind the fences. */
    method Extend(q: Request, observe: Observe) returns (error: Option<Error>)
      modifies `history
      ensures match Applied(old(history), revision, q, observe)
              case Err(e) => error == Some(e) && history == old(history)
              case Ok(h) => history == h && error == None
    {
      var ok := Records(history);
      if !ok { return Some(Malformed); }
      if |history| >= MAX_RECORDS { return Some(Denied); }
      var current := Active(history);
      var existing := if q.id in current then Some(current[q.id]) else None;
      var identity := RequestIdentity(existing, q);
      if identity.Err? { return Some(identity.error); }
      var (material, kind, reference) := identity.value;
      if kind == Base && reference != NO_REFERENCE { return Some(Denied); }
      var found := observe(kind, reference);
      if found.None? { return Some(Denied); }
      var binding := Binding(reference, found.value);
      if q.action == Revalidate && existing.Some? && binding == existing.value.binding { return Some(NotInPhase); }
      if q.action == Dispose && q.reason == NoReason { return Some(InvalidInput); }
      var reason := if q.action == Dispose then q.reason else NoReason;
      history := history + [Appended(history, q, kind, material, binding, revision + 1, reason)];
      return None;
    }
  }

  // ---- What acceptance means ------------------------------------------------

  /** The latest record of an assumption before a position. */
  ghost predicate LatestBefore(h: History, i: nat, k: nat, id: Token) {
    k < i <= |h| && h[k].id == id && forall m :: k < m < i ==> h[m].id != id
  }

  /** A record where it stands: sealed, linked and later than the one before; a declaration of something new, or a follow-up that
      keeps kind and materiality, of something not disposed of, with a new binding if it revalidates. */
  ghost predicate WellPlaced(h: History, i: nat)
    requires i < |h|
  {
    var r := h[i];
    && r.revision >= 1 && r.digest == Sha(r.action, r.id, r.kind, r.material, r.binding, r.revision, r.previous, r.reason)
    && (r.action == Dispose <==> r.reason.Line?) && (r.action != Dispose <==> r.reason.NoReason?)
    && r.previous == (if i == 0 then NoDigest else h[i - 1].digest) && (i > 0 ==> r.revision > h[i - 1].revision)
    && (r.action == Declare ==> forall k :: 0 <= k < i ==> h[k].id != r.id)
    && (r.action != Declare ==>
      exists k: nat :: LatestBefore(h, i, k, r.id) && h[k].kind == r.kind && h[k].material == r.material && h[k].action != Dispose
        && (r.action == Revalidate ==> h[k].binding != r.binding))
  }

  lemma LastWellPlaced(h: History)
    requires h != []
    ensures WellPlaced(h, |h| - 1) <==> Follows(Active(h[..|h| - 1]), LastDigest(h[..|h| - 1]), LastRevision(h[..|h| - 1]), h[|h| - 1])
  {
    var n := |h| - 1;
    var init, r := h[..n], h[n];
    ActiveIffLatest(init, r.id);
    LatestInInit(h, n, init, r.id);
    if k: nat :| LatestBefore(h, n, k, r.id) { assert Latest(init, k, r.id) && Active(init)[r.id] == h[k]; }
  }

  lemma LatestInInit(h: History, n: nat, init: History, id: Token)
    requires |h| == n + 1 && init == h[..n]
    ensures forall k: nat :: Latest(init, k, id) <==> LatestBefore(h, n, k, id)
    ensures Unknown(init, id) <==> forall k :: 0 <= k < n ==> h[k].id != id
  {
    forall k: nat ensures Latest(init, k, id) <==> LatestBefore(h, n, k, id) {
      assert k < n ==> init[k] == h[k];
      if Latest(init, k, id) { forall m | k < m < n ensures h[m].id != id { assert init[m] == h[m]; } }
      if LatestBefore(h, n, k, id) { forall m | k < m < n ensures init[m].id != id { assert init[m] == h[m]; } }
    }
    assert Unknown(init, id) <==> forall k :: 0 <= k < n ==> h[k].id != id;
  }

  lemma PlacedPrefix(h: History, n: nat, i: nat)
    requires i < n <= |h|
    ensures WellPlaced(h[..n], i) <==> WellPlaced(h, i)
  {
    var p := h[..n];
    assert forall k :: 0 <= k < n ==> p[k] == h[k];
    forall k: nat ensures LatestBefore(p, i, k, h[i].id) <==> LatestBefore(h, i, k, h[i].id) {}
    if WellPlaced(h, i) && h[i].action != Declare {
      var k: nat :| LatestBefore(h, i, k, h[i].id) && h[k].kind == h[i].kind && h[k].material == h[i].material && h[k].action != Dispose
        && (h[i].action == Revalidate ==> h[k].binding != h[i].binding);
      assert LatestBefore(p, i, k, p[i].id);
    }
    if WellPlaced(p, i) && h[i].action != Declare {
      var k: nat :| LatestBefore(p, i, k, p[i].id) && p[k].kind == p[i].kind && p[k].material == p[i].material && p[k].action != Dispose
        && (p[i].action == Revalidate ==> p[k].binding != p[i].binding);
      assert LatestBefore(h, i, k, h[i].id);
    }
  }

  /** The pass accepts a history exactly if every record is well placed. */
  lemma {:induction false} LinkedIff(h: History)
    ensures Linked(h) <==> forall i :: 0 <= i < |h| ==> WellPlaced(h, i)
    decreases |h|
  {
    if h != [] {
      var n := |h| - 1;
      LinkedIff(h[..n]);
      LastWellPlaced(h);
      forall i | 0 <= i < n ensures WellPlaced(h[..n], i) <==> WellPlaced(h, i) { PlacedPrefix(h, n, i); }
    }
  }

  /** The declaration of every assumption precedes its follow-ups, which keep its kind and materiality; nothing follows a disposition. */
  lemma {:induction false} OneStoryPerAssumption(h: History, i: nat, j: nat)
    requires Linked(h) && i < j < |h| && h[i].id == h[j].id
    ensures h[j].action != Declare && h[i].action != Dispose
    ensures h[j].kind == h[i].kind && h[j].material == h[i].material
    decreases |h|
  {
    var init := h[..|h| - 1];
    if j < |h| - 1 {
      assert init[i] == h[i] && init[j] == h[j];
      OneStoryPerAssumption(init, i, j);
    } else {
      ActiveIsLast(init, h[j].id);
      assert init[i] == h[i] && h[i].id in Active(init);
      var k: nat :| k < |init| && init[k] == Active(init)[h[j].id] && init[k].id == h[j].id && (forall m :: k < m < |init| ==> init[m].id != h[j].id);
      if i < k { OneStoryPerAssumption(init, i, k); }
    }
  }

  lemma {:induction false} ActiveIsLast(h: History, id: Token)
    ensures id in Active(h) <==> exists k :: 0 <= k < |h| && h[k].id == id
    ensures id in Active(h) ==>
      exists k: nat :: k < |h| && h[k] == Active(h)[id] && h[k].id == id && (forall m :: k < m < |h| ==> h[m].id != id)
    decreases |h|
  {
    if h != [] {
      var init := h[..|h| - 1];
      ActiveIsLast(init, id);
      if h[|h| - 1].id == id {
        assert h[|h| - 1] == Active(h)[id];
      } else if id in Active(init) {
        var k: nat :| k < |init| && init[k] == Active(init)[id] && init[k].id == id && (forall m :: k < m < |init| ==> init[m].id != id);
        assert h[k] == Active(h)[id] && h[k].id == id;
      }
      if k :| 0 <= k < |h| && h[k].id == id {
        if k < |h| - 1 { assert init[k].id == id; }
      }
    }
  }

  /** The record at one position names the digest of the one before it. */
  lemma {:induction false} LinkHolds(h: History, i: nat)
    requires Linked(h) && i < |h|
    ensures Valid(h[i]) && h[i].previous == LastDigest(h[..i])
    decreases |h|
  {
    if i < |h| - 1 {
      LinkHolds(h[..|h| - 1], i);
      assert h[..|h| - 1][..i] == h[..i];
    }
  }

  function Link(r: Record): Option<Digest> {
    if r.previous == NoDigest then None else Some(r.previous)
  }

  function Seal(r: Record): Digest { r.digest }

  lemma ChainOf(h: History)
    requires Linked(h)
    ensures HashChains.Linked(h, Seal, Link) && forall i :: 0 <= i < |h| ==> Valid(h[i])
  {
    forall i | 0 <= i < |h| ensures Valid(h[i]) && HashChains.LinkedAt(h, i, Seal, Link) {
      LinkHolds(h, i);
      if i > 0 { LinkHolds(h, i - 1); }
    }
  }

  /** Two accepted histories with the same last digest are equal, record for record. */
  lemma SameDigestSameHistory(a: History, b: History)
    requires Accepted(a) && Accepted(b) && a != [] && b != []
    requires LastDigest(a) == LastDigest(b)
    ensures a == b
  {
    var content := (r: Record) => r;
    ChainOf(a);
    ChainOf(b);
    HashChains.LastDigestFixesAll(a, b, Seal, Link, content);
    assert forall i :: 0 <= i < |a| ==> content(a[i]) == a[i] && content(b[i]) == b[i];
  }
}
