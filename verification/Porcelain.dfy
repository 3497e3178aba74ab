/** `_status_entries` of change_drift.py against Git's printer of Porcelain Format Version 1 with -z. */
module Porcelain {
  import opened Common

  type Byte = b: int | 0 <= b < 256

  type Bytes = seq<Byte>

  const NUL: Byte := 0
  const SPACE: Byte := 32
  const R: Byte := 82
  const C: Byte := 67

  /** `previous` is empty when there is none. */
  datatype Entry = Entry(status: Bytes, path: Bytes, previous: Bytes)

  predicate Ascii(s: Bytes) {
    forall k :: 0 <= k < |s| ==> s[k] < 128
  }

  /** A rename or a copy, in the index or in the worktree. */
  predicate Renames(status: Bytes)
    requires |status| == 2
  {
    status[0] == R || status[0] == C || status[1] == R || status[1] == C
  }

  /** What the parser insists on; `safe` is the path policy. */
  predicate Admissible(e: Entry, safe: Bytes -> bool) {
    && |e.status| == 2 && Ascii(e.status)
    && e.path != [] && safe(e.path)
    && (e.previous == [] || (Renames(e.status) && safe(e.previous)))
  }

  predicate NulFree(s: Bytes) {
    forall k :: 0 <= k < |s| ==> s[k] != NUL
  }

  predicate WellFormed(e: Entry, safe: Bytes -> bool) {
    Admissible(e, safe) && NulFree(e.status) && NulFree(e.path) && NulFree(e.previous)
  }

  // ---- Git's printer --------------------------------------------------------

  /** One side of a status: a rename, a copy, or the letter of any other state. */
  datatype Mark = Renamed | Copied | Letter(code: Byte)

  /** One change as Git has it: what the index shows, what the worktree shows, the path, and where a moved path came from. */
  datatype Change = Change(index: Mark, worktree: Mark, path: Bytes, origin: Bytes)

  function Printed(m: Mark): Byte {
    match m
    case Renamed => 'R' as int
    case Copied => 'C' as int
    case Letter(code) => code
  }

  predicate Moved(c: Change) {
    c.index in {Renamed, Copied} || c.worktree in {Renamed, Copied}
  }

  predicate MarkOk(m: Mark) {
    m.Letter? ==> 0 < m.code < 128 && m.code != 'R' as int && m.code != 'C' as int
  }

  /** A change whose paths Git can print and the policy allows. */
  predicate Printable(c: Change, safe: Bytes -> bool) {
    && MarkOk(c.index) && MarkOk(c.worktree)
    && c.path != [] && 0 !in c.path && safe(c.path)
    && 0 !in c.origin && (if Moved(c) then c.origin == [] || safe(c.origin) else c.origin == [])
  }

  /** `XY PATH NUL`, and for a moved path `ORIGIN NUL`. */
  function PrintOne(c: Change): Bytes {
    [Printed(c.index), Printed(c.worktree), 32] + c.path + [0] + (if Moved(c) then c.origin + [0] else [])
  }

  function Print(cs: seq<Change>): Bytes {
    if cs == [] then [] else PrintOne(cs[0]) + Print(cs[1..])
  }

  /** How the program shows a change. */
  function Shown(c: Change): Entry {
    Entry([Printed(c.index), Printed(c.worktree)], c.path, if Moved(c) then c.origin else [])
  }

  function AllShown(cs: seq<Change>): (es: seq<Entry>)
    ensures |es| == |cs| && forall k :: 0 <= k < |cs| ==> es[k] == Shown(cs[k])
  {
    if cs == [] then [] else [Shown(cs[0])] + AllShown(cs[1..])
  }

  // ---- The fields in between ------------------------------------------------

  /** The fields of one entry: one, or two for a rename or copy. */
  function FieldsOf(e: Entry): seq<Bytes> {
    [e.status + [SPACE] + e.path] + (if |e.status| == 2 && Renames(e.status) then [e.previous] else [])
  }

  function AllFields(es: seq<Entry>): seq<Bytes> {
    if es == [] then [] else FieldsOf(es[0]) + AllFields(es[1..])
  }

  /** Every field followed by NUL. */
  function Terminated(fields: seq<Bytes>): Bytes {
    if fields == [] then [] else fields[0] + [NUL] + Terminated(fields[1..])
  }

  function Encode(es: seq<Entry>): Bytes {
    Terminated(AllFields(es))
  }

  // ---- Splitting ------------------------------------------------------------

  /** `raw.split(b"\0")`. */
  function Split(raw: Bytes): (r: seq<Bytes>)
    ensures |r| >= 1
    ensures forall k :: 0 <= k < |r| ==> NulFree(r[k])
  {
    if raw == [] then [[]]
    else if raw[0] == NUL then [[]] + Split(raw[1..])
    else var rest := Split(raw[1..]); [[raw[0]] + rest[0]] + rest[1..]
  }

  /** Splitting loses nothing: all fields but the last were NUL-terminated. */
  lemma {:induction false} SplitJoins(raw: Bytes)
    ensures var f := Split(raw); raw == Terminated(f[..|f| - 1]) + f[|f| - 1]
  {
    if raw != [] {
      var rest := Split(raw[1..]);
      var f := Split(raw);
      SplitJoins(raw[1..]);
      assert raw == [raw[0]] + raw[1..];
      if raw[0] == NUL {
        assert f[..|f| - 1] == [[]] + rest[..|rest| - 1];
        assert f[..|f| - 1][1..] == rest[..|rest| - 1];
      } else if |rest| > 1 {
        assert f[..|f| - 1][1..] == rest[..|rest| - 1][1..];
        assert f[..|f| - 1][0] == [raw[0]] + rest[0];
      }
    }
  }

  lemma {:induction false} SplitOne(f: Bytes, rest: Bytes)
    requires NulFree(f)
    ensures Split(f + [NUL] + rest) == [f] + Split(rest)
  {
    var raw := f + [NUL] + rest;
    if f == [] {
      assert raw[1..] == rest;
    } else {
      assert raw[1..] == f[1..] + [NUL] + rest;
      SplitOne(f[1..], rest);
      assert [f[0]] + f[1..] == f;
    }
  }

  lemma {:induction false} SplitNone(f: Bytes)
    requires NulFree(f)
    ensures Split(f) == [f]
  {
    if f != [] {
      SplitNone(f[1..]);
      assert [f[0]] + f[1..] == f;
    }
  }

  lemma {:induction false} SplitTerminated(fields: seq<Bytes>, tail: Bytes)
    requires NulFree(tail) && forall k :: 0 <= k < |fields| ==> NulFree(fields[k])
    ensures Split(Terminated(fields) + tail) == fields + [tail]
  {
    if fields == [] {
      SplitNone(tail);
      assert Terminated(fields) + tail == tail;
    } else {
      SplitTerminated(fields[1..], tail);
      SplitOne(fields[0], Terminated(fields[1..]) + tail);
      assert Terminated(fields) + tail == fields[0] + [NUL] + (Terminated(fields[1..]) + tail);
    }
  }

  // ---- The parser -----------------------------------------------------------

  /** One turn of the loop: the entry that starts at a field, and how many fields it takes. */
  function ReadEntry(fields: seq<Bytes>, i: nat, safe: Bytes -> bool): (r: Result<Entry>)
    requires i < |fields| - 1
    ensures r.Ok? ==> |r.value.status| == 2 && (Renames(r.value.status) ==> i + 1 < |fields| - 1)
  {
    var field := fields[i];
    if |field| < 4 || field[2] != SPACE || !Ascii(field[..2]) then Err(Malformed)
    else
      var status, path := field[..2], field[3..];
      if Renames(status) && i + 1 >= |fields| - 1 then Err(Malformed)
      else
        var previous := if Renames(status) then fields[i + 1] else [];
        if !safe(path) || (previous != [] && !safe(previous)) then Err(Denied)
        else Ok(Entry(status, path, previous))
  }

  function Taken(e: Entry): nat
    requires |e.status| == 2
  {
    if Renames(e.status) then 2 else 1
  }

  /** The entries read from field `i` on, in the order printed; the last field is never read. */
  function ReadAll(fields: seq<Bytes>, i: nat, safe: Bytes -> bool): Result<seq<Entry>>
    decreases |fields| - i
  {
    if i >= |fields| - 1 then Ok([])
    else
      match ReadEntry(fields, i, safe)
      case Err(e) => Err(e)
      case Ok(e) =>
        match ReadAll(fields, i + Taken(e), safe)
        case Err(x) => Err(x)
        case Ok(es) => Ok([e] + es)
  }

  /** What is read is exactly what was printed, and every terminated field was used once. */
  lemma {:induction false} ReadsWhatIsThere(fields: seq<Bytes>, i: nat, safe: Bytes -> bool)
    requires i <= |fields| - 1 && ReadAll(fields, i, safe).Ok?
    ensures var es := ReadAll(fields, i, safe).value;
      AllFields(es) == fields[i..|fields| - 1] && forall k :: 0 <= k < |es| ==> Admissible(es[k], safe)
    decreases |fields| - i
  {
    if i < |fields| - 1 {
      var e := ReadEntry(fields, i, safe).value;
      ReadsWhatIsThere(fields, i + Taken(e), safe);
      assert fields[i] == e.status + [SPACE] + e.path;
      assert fields[i..|fields| - 1] == FieldsOf(e) + fields[i + Taken(e)..|fields| - 1];
      var rest := ReadAll(fields, i + Taken(e), safe).value;
      assert ([e] + rest)[1..] == rest;
    }
  }

  /** What was printed is read back, whatever unterminated bytes follow. */
  lemma {:induction false} ReadsBack(fields: seq<Bytes>, i: nat, es: seq<Entry>, safe: Bytes -> bool)
    requires i <= |fields| - 1 && fields[i..|fields| - 1] == AllFields(es)
    requires forall k :: 0 <= k < |es| ==> Admissible(es[k], safe)
    ensures ReadAll(fields, i, safe) == Ok(es)
    decreases |es|
  {
    if es != [] {
      var e := es[0];
      var here := fields[i..|fields| - 1];
      assert here == FieldsOf(e) + AllFields(es[1..]);
      assert here[0] == fields[i] == FieldsOf(e)[0];
      assert fields[i][..2] == e.status && fields[i][3..] == e.path;
      if Renames(e.status) { assert here[1] == fields[i + 1] == e.previous; }
      assert fields[i + Taken(e)..|fields| - 1] == here[Taken(e)..] == AllFields(es[1..]);
      ReadsBack(fields, i + Taken(e), es[1..], safe);
      assert [e] + es[1..] == es;
    }
  }

  // ---- Sorting --------------------------------------------------------------

  /** How a name reads as text: bytes decoded to code points, which is what the sort compares. */
  type Decoder = Bytes -> seq<int>

  predicate Less(a: seq<int>, b: seq<int>) {
    if b == [] then false
    else if a == [] then true
    else if a[0] != b[0] then a[0] < b[0]
    else Less(a[1..], b[1..])
  }

  /** The key (path, previous path, status). */
  predicate Before(a: Entry, b: Entry, text: Decoder) {
    if a.path != b.path then Less(text(a.path), text(b.path))
    else if a.previous != b.previous then Less(text(a.previous), text(b.previous))
    else Less(text(a.status), text(b.status))
  }

  function Insert(e: Entry, es: seq<Entry>, text: Decoder): seq<Entry> {
    if es == [] || !Before(es[0], e, text) then [e] + es
    else [es[0]] + Insert(e, es[1..], text)
  }

  /** `sorted(entries, key=...)`. */
  function Canonical(es: seq<Entry>, text: Decoder): seq<Entry> {
    if es == [] then [] else Insert(es[0], Canonical(es[1..], text), text)
  }

  predicate Sorted(es: seq<Entry>, text: Decoder) {
    forall i, j :: 0 <= i < j < |es| ==> !Before(es[j], es[i], text)
  }

  ghost predicate Injective(text: Decoder) {
    forall a, b :: text(a) == text(b) ==> a == b
  }

  lemma {:induction false} LessTotal(a: seq<int>, b: seq<int>)
    ensures a == b || Less(a, b) || Less(b, a)
    ensures !(Less(a, b) && Less(b, a)) && !Less(a, a)
    decreases |a|
  {
    if a != [] && b != [] {
      LessTotal(a[1..], b[1..]);
      LessTotal(a[1..], a[1..]);
      assert a == [a[0]] + a[1..] && b == [b[0]] + b[1..];
    } else if a != [] {
      LessTotal(a[1..], a[1..]);
    }
  }

  lemma {:induction false} LessTransitive(a: seq<int>, b: seq<int>, c: seq<int>)
    requires Less(a, b) && Less(b, c)
    ensures Less(a, c)
    decreases |a|
  {
    if a != [] && a[0] == b[0] == c[0] { LessTransitive(a[1..], b[1..], c[1..]); }
  }

  lemma BeforeTotal(a: Entry, b: Entry, text: Decoder)
    requires Injective(text)
    ensures a == b || Before(a, b, text) || Before(b, a, text)
    ensures !(Before(a, b, text) && Before(b, a, text)) && !Before(a, a, text)
  {
    LessTotal(text(a.path), text(b.path));
    LessTotal(text(a.previous), text(b.previous));
    LessTotal(text(a.status), text(b.status));
  }

  lemma BeforeTransitive(a: Entry, b: Entry, c: Entry, text: Decoder)
    requires Injective(text) && Before(a, b, text) && Before(b, c, text)
    ensures Before(a, c, text)
  {
    if a.path != b.path && b.path != c.path {
      LessTransitive(text(a.path), text(b.path), text(c.path));
      LessTotal(text(a.path), text(b.path));
      LessTotal(text(a.path), text(c.path));
    } else if a.path == b.path == c.path {
      if a.previous != b.previous && b.previous != c.previous {
        LessTransitive(text(a.previous), text(b.previous), text(c.previous));
        LessTotal(text(a.previous), text(c.previous));
      } else if a.previous == b.previous == c.previous {
        LessTransitive(text(a.status), text(b.status), text(c.status));
      }
    }
  }

  /** Not after is transitive. */
  lemma NotAfter(a: Entry, b: Entry, c: Entry, text: Decoder)
    requires Injective(text) && !Before(b, a, text) && !Before(c, b, text)
    ensures !Before(c, a, text)
  {
    BeforeTotal(a, b, text);
    BeforeTotal(b, c, text);
    if Before(c, a, text) {
      BeforeTotal(c, a, text);
      if a != b && b != c { BeforeTransitive(a, b, c, text); }
    }
  }

  lemma {:induction false} InsertSorts(e: Entry, es: seq<Entry>, text: Decoder)
    requires Injective(text) && Sorted(es, text)
    ensures Sorted(Insert(e, es, text), text) && multiset(Insert(e, es, text)) == multiset{e} + multiset(es)
  {
    var r := Insert(e, es, text);
    if es == [] || !Before(es[0], e, text) {
      forall j | 1 <= j < |r| ensures !Before(r[j], e, text) {
        if j > 1 { NotAfter(e, es[0], es[j - 1], text); }
      }
      assert multiset(r) == multiset{e} + multiset(es);
    } else {
      InsertSorts(e, es[1..], text);
      var rest := Insert(e, es[1..], text);
      assert es == [es[0]] + es[1..];
      forall j | 0 <= j < |rest| ensures !Before(rest[j], es[0], text) {
        assert rest[j] in multiset(rest);
        BeforeTotal(es[0], e, text);
        if rest[j] != e { var k :| 0 <= k < |es[1..]| && es[1..][k] == rest[j]; }
      }
    }
  }

  lemma {:induction false} CanonicalSorts(es: seq<Entry>, text: Decoder)
    requires Injective(text)
    ensures Sorted(Canonical(es, text), text) && multiset(Canonical(es, text)) == multiset(es)
  {
    if es != [] {
      CanonicalSorts(es[1..], text);
      InsertSorts(es[0], Canonical(es[1..], text), text);
      assert es == [es[0]] + es[1..];
    }
  }

  lemma SameHead(a: seq<Entry>, b: seq<Entry>, text: Decoder)
    requires Injective(text) && Sorted(a, text) && Sorted(b, text) && multiset(a) == multiset(b) && a != []
    ensures b != [] && a[0] == b[0]
  {
    assert a[0] in multiset(b);
    assert b[0] in multiset(a);
    var i :| 0 <= i < |b| && b[i] == a[0];
    var j :| 0 <= j < |a| && a[j] == b[0];
    BeforeTotal(a[0], b[0], text);
  }

  lemma SameRest(a: seq<Entry>, b: seq<Entry>)
    requires a != [] && b != [] && a[0] == b[0] && multiset(a) == multiset(b)
    ensures multiset(a[1..]) == multiset(b[1..])
  {
    assert a == [a[0]] + a[1..] && b == [b[0]] + b[1..];
    assert multiset(a[1..]) == multiset(a) - multiset{a[0]};
    assert multiset(b[1..]) == multiset(b) - multiset{b[0]};
  }

  /** A multiset of entries has one sorted listing, so the result does not depend on the order in which Git prints. */
  lemma {:induction false} SortedUnique(a: seq<Entry>, b: seq<Entry>, text: Decoder)
    requires Injective(text) && Sorted(a, text) && Sorted(b, text) && multiset(a) == multiset(b)
    ensures a == b
    decreases |a|
  {
    if a == [] {
      assert |multiset(b)| == 0;
    } else {
      SameHead(a, b, text);
      SameRest(a, b);
      SortedUnique(a[1..], b[1..], text);
      assert a == [a[0]] + a[1..] && b == [b[0]] + b[1..];
    }
  }

  // ---- The program and its main results -------------------------------------

  function Prefixed(done: seq<Entry>, r: Result<seq<Entry>>): Result<seq<Entry>> {
    match r
    case Ok(es) => Ok(done + es)
    case Err(e) => Err(e)
  }

  lemma OneTurn(fields: seq<Bytes>, i: nat, safe: Bytes -> bool, done: seq<Entry>)
    requires i < |fields| - 1 && ReadEntry(fields, i, safe).Ok?
    ensures var e := ReadEntry(fields, i, safe).value;
      Prefixed(done, ReadAll(fields, i, safe)) == Prefixed(done + [e], ReadAll(fields, i + Taken(e), safe))
  {
    var e := ReadEntry(fields, i, safe).value;
    var rest := ReadAll(fields, i + Taken(e), safe);
    if rest.Ok? { assert done + ([e] + rest.value) == done + [e] + rest.value; }
  }

  /** The body of the loop. */
  method NextEntry(fields: seq<Bytes>, index: nat, safe: Bytes -> bool) returns (r: Result<Entry>, next: nat)
    requires index < |fields| - 1
    ensures r == ReadEntry(fields, index, safe)
    ensures r.Ok? ==> next == index + Taken(r.value)
  {
    var field := fields[index];
    next := index + 1;
    if |field| < 4 || field[2] != SPACE || !Ascii(field[..2]) { return Err(Malformed), next; }
    var status, path, previous := field[..2], field[3..], [];
    if Renames(status) {
      if next >= |fields| - 1 { return Err(Malformed), next; }
      previous := fields[next];
      next := next + 1;
    }
    if !safe(path) || (previous != [] && !safe(previous)) { return Err(Denied), next; }
    r := Ok(Entry(status, path, previous));
  }

  /** `_status_entries`. */
  method StatusEntries(raw: Bytes, safe: Bytes -> bool, text: Decoder) returns (r: Result<seq<Entry>>)
    ensures r == (match ReadAll(Split(raw), 0, safe) case Ok(es) => Ok(Canonical(es, text)) case Err(e) => Err(e))
    ensures r.Ok? <==> exists cs, tail :: Prints(raw, cs, tail, safe)
    ensures Injective(text) ==> forall cs, tail :: Prints(raw, cs, tail, safe) ==> r.Ok? && InOrder(r.value, text) && multiset(r.value) == multiset(AllShown(cs))
  {
    AcceptedIff(raw, safe);
    if Injective(text) {
      forall cs, tail | Prints(raw, cs, tail, safe)
        ensures ReadAll(Split(raw), 0, safe).Ok?
        ensures InOrder(Canonical(ReadAll(Split(raw), 0, safe).value, text), text)
        ensures multiset(Canonical(ReadAll(Split(raw), 0, safe).value, text)) == multiset(AllShown(cs))
      {
        PrintedAccepted(raw, cs, tail, safe);
        CanonicalSorts(AllShown(cs), text);
        SortedInOrder(Canonical(AllShown(cs), text), text);
      }
    }
    var fields := Split(raw);
    var entries: seq<Entry> := [];
    var index := 0;
    ghost var all := ReadAll(fields, 0, safe);
    if all.Ok? { assert [] + all.value == all.value; }
    while index < |fields| - 1
      invariant index <= |fields| - 1
      invariant Prefixed(entries, ReadAll(fields, index, safe)) == all
      decreases |fields| - index
    {
      var read, next := NextEntry(fields, index, safe);
      if read.Err? { return Err(read.error); }
      OneTurn(fields, index, safe, entries);
      entries := entries + [read.value];
      index := next;
    }
    assert entries + [] == entries;
    return Ok(Canonical(entries, text));
  }

  lemma {:induction false} AllFieldsNulFree(es: seq<Entry>, safe: Bytes -> bool)
    requires forall k :: 0 <= k < |es| ==> WellFormed(es[k], safe)
    ensures forall k :: 0 <= k < |AllFields(es)| ==> NulFree(AllFields(es)[k])
  {
    if es != [] { AllFieldsNulFree(es[1..], safe); }
  }

  lemma {:induction false} FieldsInside(es: seq<Entry>, k: nat, fields: seq<Bytes>, safe: Bytes -> bool)
    requires k < |es| && AllFields(es) == fields && Admissible(es[k], safe)
    requires forall i :: 0 <= i < |fields| ==> NulFree(fields[i])
    ensures WellFormed(es[k], safe)
    decreases k
  {
    var head := FieldsOf(es[0]);
    assert fields == head + AllFields(es[1..]);
    if k == 0 {
      var line := es[0].status + [SPACE] + es[0].path;
      assert fields[0] == line;
      forall i | 0 <= i < |es[0].status| ensures es[0].status[i] != NUL { assert line[i] == es[0].status[i]; }
      forall i | 0 <= i < |es[0].path| ensures es[0].path[i] != NUL { assert line[i + 3] == es[0].path[i]; }
      if Renames(es[0].status) { assert fields[1] == es[0].previous; }
    } else {
      assert fields[|head|..] == AllFields(es[1..]);
      FieldsInside(es[1..], k - 1, fields[|head|..], safe);
    }
  }

  /** The change that an entry shows. */
  function MarkOf(b: Byte): Mark {
    if b == 'R' as int then Renamed else if b == 'C' as int then Copied else Letter(b)
  }

  function ChangeOf(e: Entry): Change
    requires |e.status| == 2
  {
    Change(MarkOf(e.status[0]), MarkOf(e.status[1]), e.path, e.previous)
  }

  function AllChanges(es: seq<Entry>): (cs: seq<Change>)
    requires forall k :: 0 <= k < |es| ==> |es[k].status| == 2
    ensures |cs| == |es| && forall k :: 0 <= k < |es| ==> cs[k] == ChangeOf(es[k])
  {
    if es == [] then [] else [ChangeOf(es[0])] + AllChanges(es[1..])
  }

  lemma ShownIsWellFormed(c: Change, safe: Bytes -> bool)
    requires Printable(c, safe)
    ensures WellFormed(Shown(c), safe) && Renames(Shown(c).status) == Moved(c)
    ensures PrintOne(c) == Terminated(FieldsOf(Shown(c)))
  {
    var e := Shown(c);
    var line := e.status + [SPACE] + e.path;
    assert line + [NUL] == [Printed(c.index), Printed(c.worktree), 32] + c.path + [0];
    if Moved(c) {
      assert FieldsOf(e)[1..] == [e.previous] && [e.previous][1..] == [];
      assert Terminated([e.previous]) == c.origin + [0] + [];
      assert Terminated(FieldsOf(e)) == line + [NUL] + (c.origin + [0]);
    } else {
      assert FieldsOf(e)[1..] == [];
    }
  }

  lemma ChangeIsPrintable(e: Entry, safe: Bytes -> bool)
    requires WellFormed(e, safe)
    ensures Printable(ChangeOf(e), safe) && Shown(ChangeOf(e)) == e
  {
    assert e.status == [e.status[0], e.status[1]];
  }

  lemma {:induction false} TerminatedConcat(a: seq<Bytes>, b: seq<Bytes>)
    ensures Terminated(a + b) == Terminated(a) + Terminated(b)
  {
    if a == [] {
      assert a + b == b;
    } else {
      assert (a + b)[1..] == a[1..] + b;
      TerminatedConcat(a[1..], b);
    }
  }

  /** Git's printing is the terminated fields of the entries it shows. */
  lemma {:induction false} PrintIsEncode(cs: seq<Change>, safe: Bytes -> bool)
    requires forall k :: 0 <= k < |cs| ==> Printable(cs[k], safe)
    ensures Print(cs) == Encode(AllShown(cs)) && forall k :: 0 <= k < |cs| ==> WellFormed(AllShown(cs)[k], safe)
  {
    if cs != [] {
      PrintIsEncode(cs[1..], safe);
      ShownIsWellFormed(cs[0], safe);
      var es := AllShown(cs);
      assert es[1..] == AllShown(cs[1..]);
      TerminatedConcat(FieldsOf(es[0]), AllFields(es[1..]));
    }
  }

  /** `raw` is Git's printing of these changes, with unterminated bytes behind it. */
  ghost predicate Prints(raw: Bytes, cs: seq<Change>, tail: Bytes, safe: Bytes -> bool) {
    0 !in tail && raw == Print(cs) + tail && forall k :: 0 <= k < |cs| ==> Printable(cs[k], safe)
  }

  /** Exact consumption: on accepted input every terminated field is consumed once, so printing the changes gives back all but the unterminated rest. */
  lemma AcceptedPrints(raw: Bytes, safe: Bytes -> bool) returns (cs: seq<Change>)
    requires ReadAll(Split(raw), 0, safe).Ok?
    ensures AllShown(cs) == ReadAll(Split(raw), 0, safe).value
    ensures Prints(raw, cs, Split(raw)[|Split(raw)| - 1], safe)
  {
    var fields := Split(raw);
    var es := ReadAll(fields, 0, safe).value;
    SplitJoins(raw);
    ReadsWhatIsThere(fields, 0, safe);
    assert fields[0..|fields| - 1] == fields[..|fields| - 1];
    forall k | 0 <= k < |es| ensures WellFormed(es[k], safe) {
      FieldsInside(es, k, fields[..|fields| - 1], safe);
    }
    cs := AllChanges(es);
    forall k | 0 <= k < |es| ensures Printable(cs[k], safe) && Shown(cs[k]) == es[k] { ChangeIsPrintable(es[k], safe); }
    assert AllShown(cs) == es;
    PrintIsEncode(cs, safe);
  }

  lemma PrintedAccepted(raw: Bytes, cs: seq<Change>, tail: Bytes, safe: Bytes -> bool)
    requires Prints(raw, cs, tail, safe)
    ensures ReadAll(Split(raw), 0, safe) == Ok(AllShown(cs))
  {
    var fields, es := Split(raw), AllShown(cs);
    PrintIsEncode(cs, safe);
    AllFieldsNulFree(es, safe);
    SplitTerminated(AllFields(es), tail);
    assert fields[0..|fields| - 1] == AllFields(es);
    ReadsBack(fields, 0, es, safe);
  }

  /** Nothing else is accepted. */
  lemma AcceptedIff(raw: Bytes, safe: Bytes -> bool)
    ensures ReadAll(Split(raw), 0, safe).Ok? <==> exists cs, tail :: Prints(raw, cs, tail, safe)
  {
    if ReadAll(Split(raw), 0, safe).Ok? { var cs := AcceptedPrints(raw, safe); }
    if cs, tail :| Prints(raw, cs, tail, safe) { PrintedAccepted(raw, cs, tail, safe); }
  }

  /** Round trip: the program reads Git's printing of any changes, in any order, as what these changes show, sorted. */
  lemma RoundTrip(cs: seq<Change>, safe: Bytes -> bool, text: Decoder)
    requires Injective(text) && forall k :: 0 <= k < |cs| ==> Printable(cs[k], safe)
    ensures ReadAll(Split(Print(cs)), 0, safe) == Ok(AllShown(cs))
    ensures InOrder(Canonical(AllShown(cs), text), text) && multiset(Canonical(AllShown(cs), text)) == multiset(AllShown(cs))
    ensures InOrder(AllShown(cs), text) ==> Canonical(AllShown(cs), text) == AllShown(cs)
  {
    PrintReadsBack(cs, safe);
    var es := AllShown(cs);
    CanonicalSorts(es, text);
    SortedInOrder(Canonical(es, text), text);
    if InOrder(es, text) {
      SortedInOrder(es, text);
      SortedUnique(Canonical(es, text), es, text);
    }
  }

  // ---- The order, and what is denied ----------------------------------------

  /** Lexicographic order of code points. */
  ghost predicate Precedes(a: seq<int>, b: seq<int>) {
    exists k: nat :: k <= |a| && k < |b| && a[..k] == b[..k] && (k < |a| ==> a[k] < b[k])
  }

  lemma {:induction false} LessIffPrecedes(a: seq<int>, b: seq<int>)
    ensures Less(a, b) <==> Precedes(a, b)
    decreases |a|
  {
    if a != [] && b != [] {
      LessIffPrecedes(a[1..], b[1..]);
      if a[0] == b[0] && Less(a[1..], b[1..]) {
        var k: nat :| k <= |a[1..]| && k < |b[1..]| && a[1..][..k] == b[1..][..k] && (k < |a[1..]| ==> a[1..][k] < b[1..][k]);
        assert a[..k + 1] == [a[0]] + a[1..][..k] && b[..k + 1] == [b[0]] + b[1..][..k];
        assert k + 1 <= |a| && k + 1 < |b| && a[..k + 1] == b[..k + 1] && (k + 1 < |a| ==> a[k + 1] < b[k + 1]);
      } else if a[0] < b[0] {
        assert a[..0] == b[..0];
      }
      if Precedes(a, b) {
        var k: nat :| k <= |a| && k < |b| && a[..k] == b[..k] && (k < |a| ==> a[k] < b[k]);
        if k > 0 {
          assert a[0] == a[..k][0] == b[..k][0] == b[0];
          assert a[1..][..k - 1] == a[..k][1..] && b[1..][..k - 1] == b[..k][1..];
        }
      }
    } else if b != [] {
      assert a[..0] == b[..0];
    }
  }

  /** By path, then by the path it came from, then by status. */
  ghost predicate InOrder(es: seq<Entry>, text: Decoder) {
    forall i, j :: 0 <= i < j < |es| ==>
      && !Precedes(text(es[j].path), text(es[i].path))
      && (es[i].path == es[j].path ==> !Precedes(text(es[j].previous), text(es[i].previous)))
      && (es[i].path == es[j].path && es[i].previous == es[j].previous ==> !Precedes(text(es[j].status), text(es[i].status)))
  }

  lemma SortedInOrder(es: seq<Entry>, text: Decoder)
    requires Injective(text)
    ensures Sorted(es, text) <==> InOrder(es, text)
  {
    forall i, j | 0 <= i < j < |es|
      ensures !Before(es[j], es[i], text) <==>
        && !Precedes(text(es[j].path), text(es[i].path))
        && (es[i].path == es[j].path ==> !Precedes(text(es[j].previous), text(es[i].previous)))
        && (es[i].path == es[j].path && es[i].previous == es[j].previous ==> !Precedes(text(es[j].status), text(es[i].status)))
    {
      LessIffPrecedes(text(es[j].path), text(es[i].path));
      LessIffPrecedes(text(es[j].previous), text(es[i].previous));
      LessIffPrecedes(text(es[j].status), text(es[i].status));
      LessTotal(text(es[i].path), text(es[i].path));
      LessTotal(text(es[i].previous), text(es[i].previous));
    }
  }

  lemma {:induction false} OnlyDenied(fields: seq<Bytes>, i: nat, safe: Bytes -> bool, all: Bytes -> bool)
    requires (forall p :: all(p)) && ReadAll(fields, i, all).Ok?
    ensures ReadAll(fields, i, safe).Ok? || ReadAll(fields, i, safe) == Err(Denied)
    decreases |fields| - i
  {
    if i < |fields| - 1 {
      var e := ReadEntry(fields, i, all).value;
      OnlyDenied(fields, i + Taken(e), safe, all);
    }
  }

  /** Of what Git prints, the policy alone decides: it is read if every path and every origin is safe, and denied otherwise. */
  lemma PrintedIsReadOrDenied(cs: seq<Change>, safe: Bytes -> bool, all: Bytes -> bool)
    requires (forall p :: all(p)) && forall k :: 0 <= k < |cs| ==> Printable(cs[k], all)
    ensures ReadAll(Split(Print(cs)), 0, safe) == if forall k :: 0 <= k < |cs| ==> Allowed(cs[k], safe) then Ok(AllShown(cs)) else Err(Denied)
  {
    PrintReadsBack(cs, all);
    OnlyDenied(Split(Print(cs)), 0, safe, all);
    if forall k :: 0 <= k < |cs| ==> Allowed(cs[k], safe) {
      PrintReadsBack(cs, safe);
    } else if ReadAll(Split(Print(cs)), 0, safe).Ok? {
      SameRead(Split(Print(cs)), 0, safe, all);
      ReadIsAllowed(cs, Split(Print(cs)), safe);
    }
  }

  predicate Allowed(c: Change, safe: Bytes -> bool) {
    safe(c.path) && (c.origin == [] || safe(c.origin))
  }

  lemma PrintReadsBack(cs: seq<Change>, safe: Bytes -> bool)
    requires forall k :: 0 <= k < |cs| ==> Printable(cs[k], safe)
    ensures ReadAll(Split(Print(cs)), 0, safe) == Ok(AllShown(cs))
  {
    assert Print(cs) + [] == Print(cs);
    assert Prints(Print(cs), cs, [], safe);
    PrintedAccepted(Print(cs), cs, [], safe);
  }

  lemma ReadIsAllowed(cs: seq<Change>, fields: seq<Bytes>, safe: Bytes -> bool)
    requires fields != [] && ReadAll(fields, 0, safe) == Ok(AllShown(cs))
    requires forall k :: 0 <= k < |cs| ==> Moved(cs[k]) || cs[k].origin == []
    ensures forall k :: 0 <= k < |cs| ==> Allowed(cs[k], safe)
  {
    ReadsWhatIsThere(fields, 0, safe);
    forall k | 0 <= k < |cs| ensures Allowed(cs[k], safe) {
      assert Admissible(AllShown(cs)[k], safe);
    }
  }

  /** The policy does not change what is read. */
  lemma {:induction false} SameRead(fields: seq<Bytes>, i: nat, safe: Bytes -> bool, all: Bytes -> bool)
    requires (forall p :: all(p)) && ReadAll(fields, i, safe).Ok?
    ensures ReadAll(fields, i, all) == ReadAll(fields, i, safe)
    decreases |fields| - i
  {
    if i < |fields| - 1 { SameRead(fields, i + Taken(ReadEntry(fields, i, safe).value), safe, all); }
  }
}
