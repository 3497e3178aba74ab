/** The hash-linked change-drift history of change_drift.py and the function that extends it. */
module DriftLedger {
  import opened Common
  import HashChains

  const MAX_RECORDS: nat := 32
  const MAX_ENTRIES: nat := 4096
  const MAX_PATHS: nat := 64

  type Path = Token

  /** One changed path; `detail` is its status, content digest and classification. */
  datatype Entry = Entry(path: Path, material: bool, detail: Token)

  /** A canonical (sorted, duplicate-free) list of paths is its set. */
  datatype Payload =
    | Baseline(head: Token, entries: seq<Entry>, scope: set<Path>)
    | Delta(base: Digest, head: Token, entries: seq<Entry>)
    | Explain(delta: Digest, paths: set<Path>, reason: Token, generated: bool)
    | Rescope(base: Digest, scope: set<Path>)

  /** SHA-256 over the identity fields, as a free constructor: equal digests have equal identities. `recorded_at` is not covered. */
  datatype Digest = NoDigest | Sha(task: Token, revision: nat, payload: Payload, previous: Digest)

  datatype Record = Record(task: Token, revision: nat, payload: Payload, previous: Digest, recordedAt: Token, digest: Digest)

  type History = seq<Record>

  function DigestOf(r: Record): Digest {
    Sha(r.task, r.revision, r.payload, r.previous)
  }

  function Sealed(task: Token, revision: nat, payload: Payload, previous: Digest, at: Token): Record {
    Record(task, revision, payload, previous, at, Sha(task, revision, payload, previous))
  }

  predicate ScopeValid(scope: set<Path>) {
    scope != {} && |scope| <= MAX_PATHS
  }

  /** `validate`: the digest fits the identity and the payload its bounds. */
  predicate Valid(r: Record) {
    && r.revision >= 1 && r.digest == DigestOf(r)
    && match r.payload
       case Baseline(_, entries, scope) => |entries| <= MAX_ENTRIES && ScopeValid(scope)
       case Delta(base, _, entries) => base.Sha? && |entries| <= MAX_ENTRIES
       case Explain(delta, paths, _, _) => delta.Sha? && paths != {} && |paths| <= MAX_PATHS
       case Rescope(base, scope) => base.Sha? && ScopeValid(scope)
  }

  // ---- Reading a history ----------------------------------------------------

  function LatestBaseline(h: History): Option<Record> {
    if h == [] then None
    else if h[|h| - 1].payload.Baseline? then Some(h[|h| - 1]) else LatestBaseline(h[..|h| - 1])
  }

  function LatestDelta(h: History): (r: Option<Record>)
    ensures r.Some? ==> r.value in h && r.value.payload.Delta?
  {
    if h == [] then None
    else if h[|h| - 1].payload.Delta? then Some(h[|h| - 1]) else LatestDelta(h[..|h| - 1])
  }

  /** Some explanation bound to this delta names the path. */
  predicate Explained(h: History, delta: Digest, path: Path) {
    exists k :: 0 <= k < |h| && h[k].payload.Explain? && h[k].payload.delta == delta && path in h[k].payload.paths
  }

  /** `unresolved` is empty. */
  predicate Resolved(h: History) {
    var d := LatestDelta(h);
    d.Some? ==> forall k :: 0 <= k < |d.value.payload.entries| && d.value.payload.entries[k].material ==>
      Explained(h, d.value.digest, d.value.payload.entries[k].path)
  }

  function PathsOf(entries: seq<Entry>): set<Path> {
    set k | 0 <= k < |entries| :: entries[k].path
  }

  /** What the loop of `records` carries from one record to the next. */
  datatype State = State(digest: Digest, revision: nat, baseline: Option<Record>, delta: Option<Record>)

  const START := State(NoDigest, 0, None, None)

  function Advance(s: State, before: History, r: Record, task: Token): Option<State> {
    if !Valid(r) || r.task != task || r.previous != s.digest || r.revision <= s.revision then None
    else
      match r.payload
      case Baseline(_, _, _) =>
        if s.delta.Some? && !Resolved(before) then None
        else Some(State(r.digest, r.revision, Some(r), None))
      case Rescope(base, _) =>
        if s.baseline.None? || s.delta.Some? || base != s.baseline.value.digest then None
        else Some(s.(digest := r.digest, revision := r.revision))
      case Delta(base, _, _) =>
        if s.baseline.None? || s.delta.Some? || base != s.baseline.value.digest then None
        else Some(s.(digest := r.digest, revision := r.revision, delta := Some(r)))
      case Explain(delta, paths, _, _) =>
        if s.delta.None? || delta != s.delta.value.digest then None
        else if !s.delta.value.payload.Delta? || !(paths <= PathsOf(s.delta.value.payload.entries)) then None
        else Some(s.(digest := r.digest, revision := r.revision))
  }

  /** The state after a history that `records` accepts. */
  function Scan(h: History, task: Token): Option<State> {
    if h == [] then Some(START)
    else
      match Scan(h[..|h| - 1], task)
      case None => None
      case Some(s) => Advance(s, h[..|h| - 1], h[|h| - 1], task)
  }

  predicate Accepted(h: History, task: Token) {
    |h| <= MAX_RECORDS && Scan(h, task).Some?
  }

  lemma {:induction false} ScanPrefix(h: History, n: nat, task: Token)
    requires n <= |h| && Scan(h, task).Some?
    ensures Scan(h[..n], task).Some?
    ensures forall k :: 0 <= k < n ==> h[k].revision <= Scan(h[..n], task).value.revision
    decreases |h| - n, n
  {
    if n == |h| {
      assert h[..n] == h;
      if n > 0 { ScanPrefix(h[..n - 1], n - 1, task); }
    } else {
      ScanPrefix(h[..|h| - 1], n, task);
      assert h[..|h| - 1][..n] == h[..n];
    }
  }

  /** `records`: the loop, including the search for the record's own first position. */
  method Records(h: History, task: Token) returns (ok: bool)
    ensures ok <==> Accepted(h, task)
  {
    if |h| > MAX_RECORDS { return false; }
    var s := START;
    for i := 0 to |h|
      invariant Scan(h[..i], task) == Some(s)
      invariant forall k :: 0 <= k < i ==> h[k].revision <= s.revision
    {
      var r := h[i];
      assert h[..i + 1][..i] == h[..i];
      var first := IndexWhere(h, x => x == r);
      var next := Advance(s, h[..first], r, task);
      if r.revision > s.revision {
        assert first == i;
      }
      if next.None? {
        assert Scan(h[..i + 1], task).None?;
        if Scan(h, task).Some? { ScanPrefix(h, i + 1, task); }
        return false;
      }
      s := next.value;
    }
    assert h[..|h|] == h;
    return true;
  }

  // ---- Extending a history --------------------------------------------------

  datatype Action =
    | TakeBaseline(head: Token, entries: seq<Entry>, scope: seq<Path>)
    | TakeDelta(head: Token, entries: seq<Entry>)
    | GiveReason(paths: seq<Path>, reason: Token, generated: bool, plain: bool)
    | ChangeScope(scope: seq<Path>)

  function AsSet(s: seq<Path>): set<Path> {
    set k | 0 <= k < |s| :: s[k]
  }

  /** `normalize_scope` raises otherwise. */
  predicate Normal(scope: seq<Path>) {
    scope != [] && |scope| <= MAX_PATHS && Distinct(scope)
  }

  /** `completion_error` is `None`: the last record belongs to a delta and every material path is explained. */
  predicate Complete(h: History) {
    h == [] || (Accepted(h, h[0].task) && (h[|h| - 1].payload.Delta? || h[|h| - 1].payload.Explain?) && Resolved(h))
  }

  predicate OpenForDelta(h: History) {
    h != [] && LatestBaseline(h).Some? && (h[|h| - 1].payload.Baseline? || h[|h| - 1].payload.Rescope?)
  }

  /** `next_record`: the new record and the history it is appended to. */
  function NextRecord(h: History, task: Token, revision: nat, at: Token, a: Action): Result<(Record, History)> {
    match a
    case TakeBaseline(head, entries, scope) =>
      if !Complete(h) then Err(NotInPhase)
      else if !Normal(scope) then Err(InvalidInput)
      else Ok((Sealed(task, revision, Baseline(head, entries, AsSet(scope)), NoDigest, at), []))
    case TakeDelta(head, entries) =>
      if !OpenForDelta(h) then Err(NotInPhase)
      else Ok((Sealed(task, revision, Delta(LatestBaseline(h).value.digest, head, entries), h[|h| - 1].digest, at), h))
    case GiveReason(paths, reason, generated, plain) =>
      if LatestDelta(h).None? || h == [] then Err(NotInPhase)
      else if LatestDelta(h).value.digest == NoDigest || paths == [] || |paths| > MAX_PATHS || !plain then Err(InvalidInput)
      else Ok((Sealed(task, revision, Explain(LatestDelta(h).value.digest, AsSet(paths), reason, generated), h[|h| - 1].digest, at), h))
    case ChangeScope(scope) =>
      if !OpenForDelta(h) then Err(NotInPhase)
      else if LatestBaseline(h).value.digest == NoDigest || !Normal(scope) then Err(InvalidInput)
      else Ok((Sealed(task, revision, Rescope(LatestBaseline(h).value.digest, AsSet(scope)), h[|h| - 1].digest, at), h))
  }

  /** `apply`, after the owner and revision checks. */
  function Applied(h: History, task: Token, revision: nat, at: Token, a: Action): Result<History> {
    if !Accepted(h, task) then Err(Malformed)
    else
      match NextRecord(h, task, revision + 1, at, a)
      case Err(e) => Err(e)
      case Ok(p) => if |p.1| >= MAX_RECORDS then Err(Denied) else Ok(p.1 + [p.0])
  }

  // ---- What is recorded -----------------------------------------------------

  /** The record says what the action gave: head and entries as they are, paths and scope as sets. */
  ghost predicate States(r: Record, a: Action, revision: nat, at: Token, task: Token) {
    && r.task == task && r.revision == revision && r.recordedAt == at
    && match a
       case TakeBaseline(head, entries, scope) =>
         && r.previous == NoDigest && r.payload.Baseline? && r.payload.head == head && r.payload.entries == entries
         && (forall p :: p in r.payload.scope <==> p in scope)
       case TakeDelta(head, entries) => r.payload.Delta? && r.payload.head == head && r.payload.entries == entries
       case GiveReason(paths, reason, generated, _) =>
         && r.payload.Explain? && r.payload.reason == reason && r.payload.generated == generated
         && (forall p :: p in r.payload.paths <==> p in paths)
       case ChangeScope(scope) => r.payload.Rescope? && (forall p :: p in r.payload.scope <==> p in scope)
  }

  lemma AsSetMembers(s: seq<Path>)
    ensures forall p :: p in AsSet(s) <==> p in s
  {
  }

  lemma RecordsGiven(h: History, task: Token, revision: nat, at: Token, a: Action)
    requires Applied(h, task, revision, at, a).Ok?
    ensures var h' := Applied(h, task, revision, at, a).value;
      && h' != [] && h'[..|h'| - 1] == (if a.TakeBaseline? then [] else h) && States(h'[|h'| - 1], a, revision + 1, at, task)
  {
    match a {
      case TakeBaseline(_, _, scope) => AsSetMembers(scope);
      case GiveReason(paths, _, _, _) => AsSetMembers(paths);
      case ChangeScope(scope) => AsSetMembers(scope);
      case _ =>
    }
  }

  // ---- Shape ----------------------------------------------------------------

  /** baseline rescope* (delta explain*)?, with the delta at `d` or, when there is none, `d` the length. */
  predicate ShapedAt(h: History, d: nat) {
    && 1 <= d <= |h| && h[0].payload.Baseline?
    && (forall k :: 1 <= k < d ==> h[k].payload.Rescope?)
    && (d < |h| ==> h[d].payload.Delta?)
    && (forall k :: d < k < |h| ==> h[k].payload.Explain?)
  }

  ghost predicate Shaped(h: History) {
    h == [] || exists d: nat :: ShapedAt(h, d)
  }

  lemma {:induction false} LatestOfShape(h: History, d: nat)
    requires ShapedAt(h, d)
    ensures LatestBaseline(h) == Some(h[0])
    ensures LatestDelta(h) == if d < |h| then Some(h[d]) else None
    decreases |h|
  {
    var init := h[..|h| - 1];
    if |h| == 1 {
      assert LatestDelta(init) == None;
    } else if d == |h| {
      assert ShapedAt(init, d - 1);
      LatestOfShape(init, d - 1);
    } else if d == |h| - 1 {
      assert ShapedAt(init, d);
      LatestOfShape(init, d);
    } else {
      assert ShapedAt(init, d);
      LatestOfShape(init, d);
    }
  }

  /** On a shaped, accepted history the loop's state names the first record, the delta and the last record. */
  lemma {:induction false} StateOfShape(h: History, d: nat, task: Token)
    requires ShapedAt(h, d) && Scan(h, task).Some?
    ensures var s := Scan(h, task).value;
      && s.baseline == Some(h[0]) && s.delta == (if d < |h| then Some(h[d]) else None)
      && s.digest == h[|h| - 1].digest && s.revision == h[|h| - 1].revision
    decreases |h|
  {
    var init := h[..|h| - 1];
    if |h| == 1 {
      assert Scan(init, task) == Some(START);
    } else if d == |h| {
      assert ShapedAt(init, d - 1);
      StateOfShape(init, d - 1, task);
    } else {
      assert ShapedAt(init, d);
      StateOfShape(init, d, task);
    }
  }

  lemma {:induction false} AsSetSize(s: seq<Path>)
    ensures |AsSet(s)| <= |s| && (s != [] ==> AsSet(s) != {})
  {
    if s != [] {
      assert s[0] in AsSet(s);
      var init := s[..|s| - 1];
      AsSetSize(init);
      assert AsSet(s) == AsSet(init) + {s[|s| - 1]};
    }
  }

  /** The two things that building a record does not check. */
  predicate Admissible(h: History, a: Action) {
    match a
    case TakeBaseline(_, entries, _) => |entries| <= MAX_ENTRIES
    case TakeDelta(_, entries) => |entries| <= MAX_ENTRIES
    case GiveReason(paths, _, _, _) => LatestDelta(h).Some? && AsSet(paths) <= PathsOf(LatestDelta(h).value.payload.entries)
    case ChangeScope(_) => true
  }

  /** An extension keeps the shape. */
  lemma AppliedShaped(h: History, task: Token, revision: nat, at: Token, a: Action)
    requires Shaped(h) && Applied(h, task, revision, at, a).Ok?
    ensures Shaped(Applied(h, task, revision, at, a).value)
  {
    var h' := Applied(h, task, revision, at, a).value;
    if a.TakeBaseline? {
      assert ShapedAt(h', 1);
    } else {
      var d: nat :| ShapedAt(h, d);
      LatestOfShape(h, d);
      assert ShapedAt(h', if d < |h| || a.TakeDelta? then d else d + 1);
    }
  }

  /** An extension is accepted by `records` exactly when an explanation names only paths of the active delta and an observation is not too long. */
  lemma AppliedAcceptedIff(h: History, task: Token, revision: nat, at: Token, a: Action)
    requires Shaped(h) && (h != [] ==> h[|h| - 1].revision <= revision)
    requires Applied(h, task, revision, at, a).Ok?
    ensures Accepted(Applied(h, task, revision, at, a).value, task) <==> Admissible(h, a)
  {
    var p := NextRecord(h, task, revision + 1, at, a).value;
    AppendScan(p.1, p.0, task);
    if a.TakeBaseline? {
      AsSetSize(a.scope);
      assert Advance(START, [], p.0, task).Some? <==> Admissible(h, a);
    } else {
      ContinuationAdvances(h, task, revision, at, a);
    }
  }

  lemma ContinuationAdvances(h: History, task: Token, revision: nat, at: Token, a: Action)
    requires Shaped(h) && Scan(h, task).Some? && (h != [] ==> h[|h| - 1].revision <= revision)
    requires !a.TakeBaseline? && NextRecord(h, task, revision + 1, at, a).Ok?
    ensures Advance(Scan(h, task).value, h, NextRecord(h, task, revision + 1, at, a).value.0, task).Some? <==> Admissible(h, a)
  {
    var d: nat :| ShapedAt(h, d);
    LatestOfShape(h, d);
    StateOfShape(h, d, task);
    FirstIsValid(h, task);
    if a.GiveReason? { AsSetSize(a.paths); } else if a.ChangeScope? { AsSetSize(a.scope); }
  }

  lemma AppendScan(h: History, r: Record, task: Token)
    ensures Scan(h + [r], task) == match Scan(h, task) case None => None case Some(s) => Advance(s, h, r, task)
  {
    assert (h + [r])[..|h + [r]| - 1] == h;
  }

  /** An accepted history starts with a valid record. */
  lemma FirstIsValid(h: History, task: Token)
    requires h != [] && Scan(h, task).Some?
    ensures Valid(h[0])
  {
    ScanPrefix(h, 1, task);
    assert h[..1][..0] == [] && h[..1][0] == h[0];
  }

  /** A baseline replaces a nonempty history only if that history ended in a delta all of whose material paths were explained under its digest. */
  lemma BaselineNeedsResolvedCycle(h: History, task: Token, revision: nat, at: Token, a: Action, d: nat)
    requires a.TakeBaseline? && ShapedAt(h, d) && Applied(h, task, revision, at, a).Ok?
    ensures d < |h|
    ensures forall k :: 0 <= k < |h[d].payload.entries| && h[d].payload.entries[k].material ==>
      Explained(h, h[d].digest, h[d].payload.entries[k].path)
    ensures |Applied(h, task, revision, at, a).value| == 1
  {
    LatestOfShape(h, d);
  }

  // ---- Runs -----------------------------------------------------------------

  datatype World = World(revision: nat, history: History)

  datatype Step = Drift(action: Action, at: Token) | Other

  /** A drift command that the task validation rejects is not committed; other mutations only move the revision. */
  function Next(w: World, s: Step, task: Token): World {
    match s
    case Other => w.(revision := w.revision + 1)
    case Drift(a, at) =>
      var r := Applied(w.history, task, w.revision, at, a);
      if r.Ok? && Accepted(r.value, task) then World(w.revision + 1, r.value) else w
  }

  function Exec(w: World, steps: seq<Step>, task: Token): World
    decreases |steps|
  {
    if steps == [] then w else Exec(Next(w, steps[0], task), steps[1..], task)
  }

  ghost predicate Inv(w: World, task: Token) {
    Shaped(w.history) && Accepted(w.history, task) && (w.history != [] ==> w.history[|w.history| - 1].revision <= w.revision)
  }

  lemma RecordRevision(h: History, task: Token, revision: nat, at: Token, a: Action)
    requires NextRecord(h, task, revision, at, a).Ok?
    ensures NextRecord(h, task, revision, at, a).value.0.revision == revision
  {
  }

  lemma AppliedLast(h: History, task: Token, revision: nat, at: Token, a: Action)
    requires Applied(h, task, revision, at, a).Ok?
    ensures var h' := Applied(h, task, revision, at, a).value; h' != [] && h'[|h'| - 1].revision == revision + 1
  {
    RecordRevision(h, task, revision + 1, at, a);
  }

  lemma DriftKeeps(w: World, a: Action, at: Token, task: Token, h: History)
    requires Inv(w, task) && Applied(w.history, task, w.revision, at, a) == Ok(h) && Accepted(h, task)
    ensures Inv(World(w.revision + 1, h), task)
  {
    AppliedShaped(w.history, task, w.revision, at, a);
    AppliedLast(w.history, task, w.revision, at, a);
  }

  lemma StepKeeps(w: World, s: Step, task: Token)
    requires Inv(w, task)
    ensures Inv(Next(w, s, task), task)
  {
    if s.Drift? {
      var r := Applied(w.history, task, w.revision, s.at, s.action);
      if r.Ok? && Accepted(r.value, task) { DriftKeeps(w, s.action, s.at, task, r.value); }
    }
  }

  /** Every committed history has the shape and is accepted. */
  lemma {:induction false} RunKeeps(w: World, steps: seq<Step>, task: Token)
    requires Inv(w, task)
    ensures Inv(Exec(w, steps, task), task)
    decreases |steps|
  {
    if steps != [] {
      StepKeeps(w, steps[0], task);
      RunKeeps(Next(w, steps[0], task), steps[1..], task);
    }
  }

  /** A run in which explanations stay inside the active delta and observations inside the bound loses no buildable record to validation. */
  lemma AdmissibleIsCommitted(w: World, a: Action, at: Token, task: Token)
    requires Inv(w, task) && Applied(w.history, task, w.revision, at, a).Ok?
    ensures Next(w, Drift(a, at), task) != w <==> Admissible(w.history, a)
  {
    AppliedAcceptedIff(w.history, task, w.revision, at, a);
  }

  // ---- What acceptance means ------------------------------------------------

  /** The last baseline before a position. */
  ghost predicate BaseAt(h: History, i: nat, b: nat) {
    b < i <= |h| && h[b].payload.Baseline? && forall m :: b < m < i ==> !h[m].payload.Baseline?
  }

  /** The delta that is open at a position: no baseline and no other delta follows it. */
  ghost predicate OpenAt(h: History, i: nat, d: nat) {
    d < i <= |h| && h[d].payload.Delta? && forall m :: d < m < i ==> !h[m].payload.Baseline? && !h[m].payload.Delta?
  }

  /** A record before the position explains this path under the delta's digest. */
  ghost predicate ExplainedBefore(h: History, i: nat, delta: Digest, path: Path) {
    i <= |h| && exists k: nat :: k < i && h[k].payload.Explain? && h[k].payload.delta == delta && path in h[k].payload.paths
  }

  /** The record fits the cycle it stands in. */
  ghost predicate FitsCycle(h: History, i: nat)
    requires i < |h|
  {
    match h[i].payload
    case Baseline(_, _, _) =>
      forall d: nat :: OpenAt(h, i, d) ==> forall k :: 0 <= k < |h[d].payload.entries| && h[d].payload.entries[k].material ==>
        ExplainedBefore(h, i, h[d].digest, h[d].payload.entries[k].path)
    case Rescope(base, _) => (forall d: nat :: !OpenAt(h, i, d)) && exists b: nat :: BaseAt(h, i, b) && base == h[b].digest
    case Delta(base, _, _) => (forall d: nat :: !OpenAt(h, i, d)) && exists b: nat :: BaseAt(h, i, b) && base == h[b].digest
    case Explain(delta, paths, _, _) =>
      exists d: nat :: OpenAt(h, i, d) && delta == h[d].digest && forall p :: p in paths ==> exists k :: 0 <= k < |h[d].payload.entries| && h[d].payload.entries[k].path == p
  }

  predicate Bounded(p: Payload) {
    match p
    case Baseline(_, entries, scope) => |entries| <= 4096 && 1 <= |scope| <= 64
    case Delta(base, _, entries) => base != NoDigest && |entries| <= 4096
    case Explain(delta, paths, _, _) => delta != NoDigest && 1 <= |paths| <= 64
    case Rescope(base, scope) => base != NoDigest && 1 <= |scope| <= 64
  }

  /** A record where it stands: bounded, sealed, of this task, linked, later than the one before, and fitting its cycle. */
  ghost predicate WellPlaced(h: History, i: nat, task: Token)
    requires i < |h|
  {
    && h[i].revision >= 1 && Bounded(h[i].payload) && h[i].digest == Sha(h[i].task, h[i].revision, h[i].payload, h[i].previous) && h[i].task == task
    && h[i].previous == (if i == 0 then NoDigest else h[i - 1].digest) && h[i].revision > (if i == 0 then 0 else h[i - 1].revision)
    && FitsCycle(h, i)
  }

  /** What the pass carries: the digest and revision of the last record, the last baseline and the open delta. */
  ghost predicate Carries(s: State, h: History) {
    && s.digest == LastDigest(h) && s.revision == (if h == [] then 0 else h[|h| - 1].revision)
    && (s.baseline.None? ==> forall b: nat :: !BaseAt(h, |h|, b)) && (s.baseline.Some? ==> exists b: nat :: BaseAt(h, |h|, b) && h[b] == s.baseline.value)
    && (s.delta.None? ==> forall d: nat :: !OpenAt(h, |h|, d)) && (s.delta.Some? ==> exists d: nat :: OpenAt(h, |h|, d) && h[d] == s.delta.value)
  }

  lemma OneBase(h: History, i: nat, a: nat, b: nat)
    requires BaseAt(h, i, a) && BaseAt(h, i, b)
    ensures a == b
  {
  }

  lemma OneOpen(h: History, i: nat, a: nat, b: nat)
    requires OpenAt(h, i, a) && OpenAt(h, i, b)
    ensures a == b
  {
  }

  lemma {:induction false} OpenIsLatest(h: History, d: nat)
    requires OpenAt(h, |h|, d)
    ensures LatestDelta(h) == Some(h[d])
    decreases |h|
  {
    if d < |h| - 1 {
      var init := h[..|h| - 1];
      assert forall m :: 0 <= m < |init| ==> init[m] == h[m];
      assert OpenAt(init, |init|, d);
      OpenIsLatest(init, d);
    }
  }

  lemma ResolvedAtOpen(h: History, d: nat)
    requires OpenAt(h, |h|, d)
    ensures Resolved(h) <==> forall k :: 0 <= k < |h[d].payload.entries| && h[d].payload.entries[k].material ==>
      ExplainedBefore(h, |h|, h[d].digest, h[d].payload.entries[k].path)
  {
    OpenIsLatest(h, d);
    forall p ensures Explained(h, h[d].digest, p) <==> ExplainedBefore(h, |h|, h[d].digest, p) {}
  }

  lemma AdvanceIff(h: History, s: State, r: Record, task: Token)
    requires Carries(s, h)
    ensures Advance(s, h, r, task).Some? <==> WellPlaced(h + [r], |h|, task)
    ensures Advance(s, h, r, task).Some? ==> Carries(Advance(s, h, r, task).value, h + [r])
  {
    CycleIff(h, s, r);
    if Advance(s, h, r, task).Some? { CarriesOn(h, s, r, task); }
  }

  lemma SameBefore(h: History, r: Record)
    ensures forall b: nat :: BaseAt(h + [r], |h|, b) <==> BaseAt(h, |h|, b)
    ensures forall d: nat :: OpenAt(h + [r], |h|, d) <==> OpenAt(h, |h|, d)
    ensures forall delta, p :: ExplainedBefore(h + [r], |h|, delta, p) <==> ExplainedBefore(h, |h|, delta, p)
  {
    var g := h + [r];
    assert forall m :: 0 <= m < |h| ==> g[m] == h[m];
    forall delta, p ensures ExplainedBefore(g, |h|, delta, p) <==> ExplainedBefore(h, |h|, delta, p) {
      if ExplainedBefore(h, |h|, delta, p) {
        var k: nat :| k < |h| && h[k].payload.Explain? && h[k].payload.delta == delta && p in h[k].payload.paths;
        assert g[k] == h[k];
      }
    }
  }

  /** The checks of one turn of the loop on the kind of record. */
  predicate CycleAllows(s: State, h: History, r: Record) {
    match r.payload
    case Baseline(_, _, _) => s.delta.Some? ==> Resolved(h)
    case Rescope(base, _) => s.baseline.Some? && s.delta.None? && base == s.baseline.value.digest
    case Delta(base, _, _) => s.baseline.Some? && s.delta.None? && base == s.baseline.value.digest
    case Explain(delta, paths, _, _) =>
      s.delta.Some? && delta == s.delta.value.digest && s.delta.value.payload.Delta? && paths <= PathsOf(s.delta.value.payload.entries)
  }

  lemma CycleIff(h: History, s: State, r: Record)
    requires Carries(s, h)
    ensures CycleAllows(s, h, r) <==> FitsCycle(h + [r], |h|)
  {
    var g, i := h + [r], |h|;
    SameBefore(h, r);
    assert forall m :: 0 <= m < |h| ==> g[m] == h[m];
    if s.delta.Some? {
      var d: nat :| OpenAt(h, |h|, d) && h[d] == s.delta.value;
      assert OpenAt(g, i, d) && g[d] == h[d];
      forall o: nat | OpenAt(g, i, o) ensures o == d { OneOpen(g, i, o, d); }
      ResolvedAtOpen(h, d);
    }
    if s.baseline.Some? {
      var b: nat :| BaseAt(h, |h|, b) && h[b] == s.baseline.value;
      assert BaseAt(g, i, b) && g[b] == h[b];
      forall o: nat | BaseAt(g, i, o) ensures o == b { OneBase(g, i, o, b); }
    }
  }

  lemma CarriesOn(h: History, s: State, r: Record, task: Token)
    requires Carries(s, h) && Advance(s, h, r, task).Some?
    ensures Carries(Advance(s, h, r, task).value, h + [r])
  {
    var g := h + [r];
    var v := Advance(s, h, r, task).value;
    assert forall m :: 0 <= m < |h| ==> g[m] == h[m];
    if r.payload.Baseline? {
      assert BaseAt(g, |g|, |h|);
    } else {
      forall b: nat ensures BaseAt(g, |g|, b) <==> BaseAt(h, |h|, b) {}
      if s.baseline.Some? { var b: nat :| BaseAt(h, |h|, b) && h[b] == s.baseline.value; assert BaseAt(g, |g|, b) && g[b] == h[b]; }
    }
    if r.payload.Delta? {
      assert OpenAt(g, |g|, |h|);
    } else if !r.payload.Baseline? {
      forall d: nat ensures OpenAt(g, |g|, d) <==> OpenAt(h, |h|, d) {}
      if s.delta.Some? { var d: nat :| OpenAt(h, |h|, d) && h[d] == s.delta.value; assert OpenAt(g, |g|, d) && g[d] == h[d]; }
    }
  }

  lemma PlacedPrefix(h: History, n: nat, i: nat, task: Token)
    requires i < n <= |h|
    ensures WellPlaced(h[..n], i, task) <==> WellPlaced(h, i, task)
  {
    var p := h[..n];
    assert forall m :: 0 <= m < n ==> p[m] == h[m];
    forall b: nat ensures BaseAt(p, i, b) <==> BaseAt(h, i, b) {}
    forall d: nat ensures OpenAt(p, i, d) <==> OpenAt(h, i, d) {}
    forall delta, q ensures ExplainedBefore(p, i, delta, q) <==> ExplainedBefore(h, i, delta, q) {
      if ExplainedBefore(h, i, delta, q) {
        var k: nat :| k < i && h[k].payload.Explain? && h[k].payload.delta == delta && q in h[k].payload.paths;
        assert p[k] == h[k];
      }
    }
    assert FitsCycle(p, i) <==> FitsCycle(h, i);
  }

  /** The pass accepts a history exactly if every record is well placed. */
  lemma {:induction false} ScanIff(h: History, task: Token)
    ensures Scan(h, task).Some? <==> forall i :: 0 <= i < |h| ==> WellPlaced(h, i, task)
    ensures Scan(h, task).Some? ==> Carries(Scan(h, task).value, h)
    decreases |h|
  {
    if h != [] {
      var n := |h| - 1;
      ScanIff(h[..n], task);
      forall i | 0 <= i < n ensures WellPlaced(h[..n], i, task) <==> WellPlaced(h, i, task) { PlacedPrefix(h, n, i, task); }
      assert h[..n] + [h[n]] == h;
      if Scan(h[..n], task).Some? { AdvanceIff(h[..n], Scan(h[..n], task).value, h[n], task); }
    }
  }

  // ---- When a cycle is resolved ---------------------------------------------

  /** Every material path of the delta at `d` is named by an explanation behind it. */
  predicate AllNamed(h: History, d: nat)
    requires d < |h| && h[d].payload.Delta?
  {
    forall k :: 0 <= k < |h[d].payload.entries| && h[d].payload.entries[k].material ==> NamedBehind(h, d, h[d].payload.entries[k].path)
  }

  predicate NamedBehind(h: History, d: nat, path: Path) {
    exists j :: d < j < |h| && h[j].payload.Explain? && path in h[j].payload.paths
  }

  /** In the phase of the cycle that the history stands in (a delta at `d`, or none yet), which actions are taken up. */
  predicate Timely(h: History, d: nat, a: Action) {
    match a
    case TakeBaseline(_, _, scope) =>
      && (h == [] || (d < |h| && h[d].payload.Delta? && AllNamed(h, d)))
      && scope != [] && |scope| <= 64 && Distinct(scope)
    case TakeDelta(_, _) => h != [] && d == |h| && |h| < 32
    case GiveReason(paths, _, _, plain) => d < |h| && paths != [] && |paths| <= 64 && plain && |h| < 32
    case ChangeScope(scope) => h != [] && d == |h| && scope != [] && |scope| <= 64 && Distinct(scope) && |h| < 32
  }

  lemma {:induction false} ExplanationsNameTheDelta(h: History, d: nat, task: Token, j: nat)
    requires ShapedAt(h, d) && Scan(h, task).Some? && d < j < |h|
    ensures h[j].payload.delta == h[d].digest && Valid(h[d])
    decreases |h|
  {
    var init := h[..|h| - 1];
    assert ShapedAt(init, d);
    if j < |h| - 1 {
      ExplanationsNameTheDelta(init, d, task, j);
    } else {
      StateOfShape(init, d, task);
      LinkHolds(h, d, task);
    }
  }

  lemma ResolvedIffNamed(h: History, d: nat, task: Token)
    requires ShapedAt(h, d) && d < |h| && Scan(h, task).Some?
    ensures Resolved(h) <==> AllNamed(h, d)
  {
    LatestOfShape(h, d);
    forall p ensures Explained(h, h[d].digest, p) <==> NamedBehind(h, d, p) {
      if NamedBehind(h, d, p) {
        var j :| d < j < |h| && h[j].payload.Explain? && p in h[j].payload.paths;
        ExplanationsNameTheDelta(h, d, task, j);
      }
    }
  }

  /** Which actions build a record: exactly the timely and well-formed ones. */
  lemma AppliedIff(h: History, task: Token, revision: nat, at: Token, a: Action, d: nat)
    requires Accepted(h, task) && if h == [] then d == 0 else ShapedAt(h, d)
    ensures Applied(h, task, revision, at, a).Ok? <==> Timely(h, d, a)
  {
    if h != [] {
      LatestOfShape(h, d);
      LinkHolds(h, 0, task);
      LinkHolds(h, |h| - 1, task);
      SameTask(h, task);
      if d < |h| {
        LinkHolds(h, d, task);
        ResolvedIffNamed(h, d, task);
      }
    }
  }

  lemma SameTask(h: History, task: Token)
    requires h != [] && Scan(h, task).Some?
    ensures h[0].task == task
  {
    ScanPrefix(h, 1, task);
    assert h[..1][..0] == [] && h[..1][0] == h[0];
  }

  /** Some committed step of the run gave a reason for this path. */
  predicate NamedIn(w: World, steps: seq<Step>, task: Token, path: Path)
    decreases |steps|
  {
    && steps != []
    && ((steps[0].Drift? && steps[0].action.GiveReason? && path in steps[0].action.paths && Next(w, steps[0], task) != w)
        || NamedIn(Next(w, steps[0], task), steps[1..], task, path))
  }

  /** Some committed step of the run took a baseline. */
  predicate StartsOver(w: World, steps: seq<Step>, task: Token)
    decreases |steps|
  {
    && steps != []
    && ((steps[0].Drift? && steps[0].action.TakeBaseline? && Next(w, steps[0], task) != w)
        || StartsOver(Next(w, steps[0], task), steps[1..], task))
  }

  /** Behind a delta a step that does not start over only adds an explanation, of the paths it names. */
  lemma StepBehindDelta(w: World, s: Step, task: Token, d: nat)
    requires Inv(w, task) && ShapedAt(w.history, d) && d < |w.history| && !(s.Drift? && s.action.TakeBaseline? && Next(w, s, task) != w)
    ensures var v := Next(w, s, task);
      && Inv(v, task) && ShapedAt(v.history, d) && d < |v.history| && v.history[d] == w.history[d]
      && forall p :: NamedBehind(v.history, d, p) <==>
        NamedBehind(w.history, d, p) || (s.Drift? && s.action.GiveReason? && p in s.action.paths && v != w)
  {
    StepKeeps(w, s, task);
    var h, v := w.history, Next(w, s, task);
    if s.Drift? && v != w {
      AppliedIff(h, task, w.revision, s.at, s.action, d);
      RecordsGiven(h, task, w.revision, s.at, s.action);
      assert v.history == h + [v.history[|h|]];
      forall p ensures NamedBehind(v.history, d, p) <==> NamedBehind(h, d, p) || p in s.action.paths {
        if NamedBehind(h, d, p) { var j :| d < j < |h| && h[j].payload.Explain? && p in h[j].payload.paths; assert v.history[j] == h[j]; }
        if p in s.action.paths { assert d < |h| < |v.history| && v.history[|h|].payload.Explain? && p in v.history[|h|].payload.paths; }
        if NamedBehind(v.history, d, p) { var j :| d < j < |v.history| && v.history[j].payload.Explain? && p in v.history[j].payload.paths; if j < |h| { assert h[j] == v.history[j]; } }
      }
    }
  }

  lemma {:induction false} RunBehindDelta(w: World, steps: seq<Step>, task: Token, d: nat)
    requires Inv(w, task) && ShapedAt(w.history, d) && d < |w.history| && !StartsOver(w, steps, task)
    ensures var v := Exec(w, steps, task);
      && Inv(v, task) && ShapedAt(v.history, d) && d < |v.history| && v.history[d] == w.history[d]
      && forall p :: NamedBehind(v.history, d, p) <==> NamedBehind(w.history, d, p) || NamedIn(w, steps, task, p)
    decreases |steps|
  {
    if steps != [] {
      StepBehindDelta(w, steps[0], task, d);
      RunBehindDelta(Next(w, steps[0], task), steps[1..], task, d);
    }
  }

  /** After a committed delta, in every run that has not started over, a new baseline is taken up exactly if each given material path
      was named by a reason committed since. */
  lemma BaselineIffAllNamed(w: World, head: Token, entries: seq<Entry>, at: Token, steps: seq<Step>, task: Token, next: Action, later: Token)
    requires Inv(w, task) && next.TakeBaseline? && next.scope != [] && |next.scope| <= 64 && Distinct(next.scope)
    requires var u := Next(w, Drift(TakeDelta(head, entries), at), task); u != w && !StartsOver(u, steps, task)
    ensures var u := Next(w, Drift(TakeDelta(head, entries), at), task); var v := Exec(u, steps, task);
      Applied(v.history, task, v.revision, later, next).Ok? <==>
        forall k :: 0 <= k < |entries| && entries[k].material ==> NamedIn(u, steps, task, entries[k].path)
  {
    var s := Drift(TakeDelta(head, entries), at);
    var u := Next(w, s, task);
    var d := |w.history|;
    StepKeeps(w, s, task);
    RecordsGiven(w.history, task, w.revision, at, s.action);
    DeltaShape(w, head, entries, at, task);
    RunBehindDelta(u, steps, task, d);
    var v := Exec(u, steps, task);
    AppliedIff(v.history, task, v.revision, later, next, d);
    forall p ensures !NamedBehind(u.history, d, p) {}
  }

  lemma DeltaShape(w: World, head: Token, entries: seq<Entry>, at: Token, task: Token)
    requires Inv(w, task) && Next(w, Drift(TakeDelta(head, entries), at), task) != w
    ensures var u := Next(w, Drift(TakeDelta(head, entries), at), task);
      |u.history| == |w.history| + 1 && ShapedAt(u.history, |w.history|) && u.history[|w.history|].payload.entries == entries
  {
    var u := Next(w, Drift(TakeDelta(head, entries), at), task);
    RecordsGiven(w.history, task, w.revision, at, TakeDelta(head, entries));
    var d: nat :| ShapedAt(w.history, d);
    AppliedIff(w.history, task, w.revision, at, TakeDelta(head, entries), d);
    assert u.history == w.history + [u.history[|w.history|]];
  }

  // ---- Tamper evidence ------------------------------------------------------

  function LastDigest(h: History): Digest {
    if h == [] then NoDigest else h[|h| - 1].digest
  }

  /** The record at one position names the digest of the one before it. */
  lemma {:induction false} LinkHolds(h: History, i: nat, task: Token)
    requires Scan(h, task).Some? && i < |h|
    ensures Valid(h[i]) && h[i].previous == LastDigest(h[..i])
    decreases |h|
  {
    if i < |h| - 1 {
      LinkHolds(h[..|h| - 1], i, task);
      assert h[..|h| - 1][..i] == h[..i];
    } else {
      StateDigest(h[..i], task);
    }
  }

  lemma StateDigest(h: History, task: Token)
    requires Scan(h, task).Some?
    ensures Scan(h, task).value.digest == LastDigest(h)
  {
  }

  function Link(r: Record): Option<Digest> {
    if r.previous == NoDigest then None else Some(r.previous)
  }

  /** Everything but the time of recording. */
  function Covered(r: Record): Record {
    r.(recordedAt := 0)
  }

  function Seal(r: Record): Digest { r.digest }

  lemma ChainOf(h: History, task: Token)
    requires Scan(h, task).Some?
    ensures HashChains.Linked(h, Seal, Link) && forall i :: 0 <= i < |h| ==> Valid(h[i])
  {
    forall i | 0 <= i < |h| ensures Valid(h[i]) && HashChains.LinkedAt(h, i, Seal, Link) {
      LinkHolds(h, i, task);
      if i > 0 { LinkHolds(h, i - 1, task); }
    }
  }

  /** Two accepted histories with the same last digest agree record for record, up to the times of recording. */
  lemma SameDigestSameHistory(a: History, b: History, task: Token, other: Token)
    requires Accepted(a, task) && Accepted(b, other) && a != [] && b != []
    requires a[|a| - 1].digest == b[|b| - 1].digest
    ensures |a| == |b| && forall i :: 0 <= i < |a| ==> Covered(a[i]) == Covered(b[i])
  {
    ChainOf(a, task);
    ChainOf(b, other);
    HashChains.LastDigestFixesAll(a, b, Seal, Link, Covered);
  }

  /** The same records but for the times of recording. */
  predicate SameCovered(a: History, b: History) {
    |a| == |b| && forall i :: 0 <= i < |a| ==> Covered(a[i]) == Covered(b[i])
  }

  predicate SameRecord(x: Option<Record>, y: Option<Record>) {
    if x.Some? && y.Some? then Covered(x.value) == Covered(y.value) else x == y
  }

  predicate SameState(s: State, t: State) {
    s.digest == t.digest && s.revision == t.revision && SameRecord(s.baseline, t.baseline) && SameRecord(s.delta, t.delta)
  }

  lemma {:induction false} SameDelta(a: History, b: History)
    requires SameCovered(a, b)
    ensures SameRecord(LatestDelta(a), LatestDelta(b))
    decreases |a|
  {
    if a != [] {
      assert Covered(a[|a| - 1]) == Covered(b[|b| - 1]);
      SameDelta(a[..|a| - 1], b[..|b| - 1]);
    }
  }

  lemma SameExplained(a: History, b: History, delta: Digest, path: Path)
    requires SameCovered(a, b) && Explained(a, delta, path)
    ensures Explained(b, delta, path)
  {
    var k :| 0 <= k < |a| && a[k].payload.Explain? && a[k].payload.delta == delta && path in a[k].payload.paths;
    assert Covered(a[k]) == Covered(b[k]);
  }

  lemma SameResolved(a: History, b: History)
    requires SameCovered(a, b) && Resolved(a)
    ensures Resolved(b)
  {
    SameDelta(a, b);
    if LatestDelta(b).Some? {
      var d := LatestDelta(b).value;
      assert d.payload == LatestDelta(a).value.payload && d.digest == LatestDelta(a).value.digest;
      forall k | 0 <= k < |d.payload.entries| && d.payload.entries[k].material ensures Explained(b, d.digest, d.payload.entries[k].path) {
        SameExplained(a, b, d.digest, d.payload.entries[k].path);
      }
    }
  }

  lemma SameAdvance(s: State, t: State, a: History, b: History, x: Record, y: Record, task: Token)
    requires SameState(s, t) && SameCovered(a, b) && Covered(x) == Covered(y) && Advance(s, a, x, task).Some?
    ensures Advance(t, b, y, task).Some? && SameState(Advance(s, a, x, task).value, Advance(t, b, y, task).value)
  {
    assert x.payload == y.payload && x.digest == y.digest && DigestOf(x) == DigestOf(y);
    if Resolved(a) { SameResolved(a, b); }
  }

  lemma {:induction false} SameScan(a: History, b: History, task: Token)
    requires SameCovered(a, b) && Scan(a, task).Some?
    ensures Scan(b, task).Some? && SameState(Scan(a, task).value, Scan(b, task).value)
    decreases |a|
  {
    if a != [] {
      var n := |a| - 1;
      SameScan(a[..n], b[..n], task);
      assert Covered(a[n]) == Covered(b[n]);
      SameAdvance(Scan(a[..n], task).value, Scan(b[..n], task).value, a[..n], b[..n], a[n], b[n], task);
    }
  }

  /** The times are not covered: histories that differ in nothing else are accepted alike, are resolved alike, and end in the same digest. */
  lemma TimesAreNotCovered(a: History, b: History, task: Token)
    requires SameCovered(a, b)
    ensures Accepted(a, task) <==> Accepted(b, task)
    ensures Resolved(a) <==> Resolved(b)
    ensures LastDigest(a) == LastDigest(b)
  {
    if Scan(a, task).Some? { SameScan(a, b, task); }
    if Scan(b, task).Some? { SameScan(b, a, task); }
    if Resolved(a) { SameResolved(a, b); }
    if Resolved(b) { SameResolved(b, a); }
    if a != [] { assert Covered(a[|a| - 1]) == Covered(b[|b| - 1]); }
  }

  /** Two accepted histories have the same last digest exactly if they are the same up to the times of recording. */
  lemma LastDigestIff(a: History, b: History, task: Token, other: Token)
    requires Accepted(a, task) && Accepted(b, other)
    ensures LastDigest(a) == LastDigest(b) <==> SameCovered(a, b)
  {
    if a != [] { LinkHolds(a, |a| - 1, task); }
    if b != [] { LinkHolds(b, |b| - 1, other); }
    if a != [] && b != [] && LastDigest(a) == LastDigest(b) { SameDigestSameHistory(a, b, task, other); }
    if SameCovered(a, b) { TimesAreNotCovered(a, b, task); }
  }

  // ---- The mutable record ---------------------------------------------------

  class DriftTask {
    const id: Token
    var owner: Option<Token>
    var active: bool
    var revision: nat
    var history: History

    constructor (id: Token, owner: Option<Token>, active: bool, revision: nat)
      ensures this.id == id && this.owner == owner && this.active == active && this.revision == revision && history == []
    {
      this.id, this.owner, this.active, this.revision, this.history := id, owner, active, revision, [];
    }

    /** `apply`: the owner and revision fences, then the extension; a refusal leaves the history alone. */
    method Apply(caller: Option<Token>, expected: nat, at: Token, a: Action) returns (r: Result<Digest>)
      modifies `history
      ensures owner != caller || !active ==> r == Err(NotOwned)
      ensures owner == caller && active && expected != revision ==> r == Err(StaleRevision)
      ensures owner == caller && active && expected == revision ==>
        match Applied(old(history), id, revision, at, a)
        case Err(e) => r == Err(e)
        case Ok(h) => history == h && r == Ok(h[|h| - 1].digest)
      ensures r.Err? ==> history == old(history)
      // What was given is what is recorded, under the next revision; a baseline starts over and everything else is kept.
      ensures r.Ok? ==>
        && history != [] && history[..|history| - 1] == (if a.TakeBaseline? then [] else old(history))
        && States(history[|history| - 1], a, revision + 1, at, id) && r.value == history[|history| - 1].digest
    {
      if owner == caller && active && expected == revision && Applied(history, id, revision, at, a).Ok? { RecordsGiven(history, id, revision, at, a); }
      if owner != caller || !active { return Err(NotOwned); }
      if expected != revision { return Err(StaleRevision); }
      var ok := Records(history, id);
      if !ok { return Err(Malformed); }
      var next := NextRecord(history, id, revision + 1, at, a);
      if next.Err? { return Err(next.error); }
      if |next.value.1| >= MAX_RECORDS { return Err(Denied); }
      history := next.value.1 + [next.value.0];
      return Ok(next.value.0.digest);
    }
  }
}
