/** Small vocabulary shared by the component models. */
module Common {

  /** An opaque identifier (receipt id, idempotency key, object id, lease, owner, ...): only equality matters. */
  type Token = nat

  datatype Option<+T> = None | Some(value: T)

  /** Why a call raised; each constructor stands for one message of the program. */
  datatype Error =
    | InvalidInput
    | ConflictingInput
    | UnknownRow
    | NotInPhase
    | NotOwned
    | LeaseExpired
    | LeaseActive
    | StaleRevision
    | Denied
    | Malformed

  datatype Result<+T> = Ok(value: T) | Err(error: Error)

  /** The first row a SELECT with this condition returns; `|rows|` when there is none. */
  function IndexWhere<T>(rows: seq<T>, p: T -> bool): (i: nat)
    ensures i <= |rows|
    ensures i < |rows| ==> p(rows[i])
    ensures forall j :: 0 <= j < i ==> !p(rows[j])
  {
    if rows == [] then 0
    else if p(rows[0]) then 0
    else 1 + IndexWhere(rows[1..], p)
  }

  predicate Distinct(s: seq<Token>) {
    forall i, j :: 0 <= i < j < |s| ==> s[i] != s[j]
  }

  /** `len(set(items)) != len(items)`. */
  method HasDuplicates(s: seq<Token>) returns (found: bool)
    ensures found <==> !Distinct(s)
  {
    for i := 0 to |s|
      invariant Distinct(s[..i])
    {
      if s[i] in s[..i] {
        var j :| 0 <= j < i && s[j] == s[i];
        return true;
      }
    }
    assert s[..|s|] == s;
    return false;
  }
}
