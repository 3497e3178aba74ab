/** Envelope replacement and admission of execution_envelope.py: what "narrower" is checked to be, and what it buys. */
module Envelopes {
  import opened Common

  datatype CommandClass = Read | Test | SourceWrite | GitPublication

  datatype Capability = GitMetadata | Network

  /** A timeout may be left out. */
  datatype Rule = Rule(allowed: bool, timeout: Option<nat>)

  /** `id` is the number behind the task's name in the envelope's identifier; `capabilities` is empty where the envelope has none. */
  datatype Envelope = Envelope(
    id: nat, revision: nat, task: Token, taskRevision: nat, spec: Token, specRevision: nat,
    read: set<string>, write: set<string>, classes: map<CommandClass, Rule>,
    capabilities: map<Capability, bool>, nonGoals: set<string>, other: Token)

  /** SHA-256 of the canonical envelope, as a free constructor. */
  datatype Digest = Sha(envelope: Envelope)

  const MAX_TIMEOUT: nat := 3600

  const MAX_SCOPE: nat := 64

  const MAX_NON_GOALS: nat := 32

  const MAX_REPLACEMENTS: nat := 16

  /** `errors` on the fields that are compared: positive numbers, bounded timeouts, scopes and non-goals, and both capabilities or none. */
  predicate Valid(e: Envelope) {
    && e.id >= 1 && e.revision >= 1 && e.taskRevision >= 1 && e.specRevision >= 1
    && (forall c :: c in e.classes && e.classes[c].timeout.Some? ==> 1 <= e.classes[c].timeout.value <= MAX_TIMEOUT)
    && e.classes != map[]
    && 1 <= |e.read| <= MAX_SCOPE && 1 <= |e.write| <= MAX_SCOPE && 1 <= |e.nonGoals| <= MAX_NON_GOALS
    && (e.capabilities == map[] || e.capabilities.Keys == {GitMetadata, Network})
  }

  // ---- Replacement ----------------------------------------------------------

  predicate ClassAllowed(e: Envelope, c: CommandClass) {
    c in e.classes && e.classes[c].allowed
  }

  predicate Enabled(e: Envelope, c: Capability) {
    c in e.capabilities && e.capabilities[c]
  }

  /** `rule.get("timeout_seconds", 0)` and the prior's default, which is the successor's own value. */
  predicate TimeoutWidens(next: Rule, earlier: Option<Rule>) {
    var wanted := if next.timeout.Some? then next.timeout.value else 0;
    var bound := if earlier.Some? && earlier.value.timeout.Some? then earlier.value.timeout.value else wanted;
    wanted > bound
  }

  function RuleOf(e: Envelope, c: CommandClass): Option<Rule> {
    if c in e.classes then Some(e.classes[c]) else None
  }

  predicate ClassWidens(prior: Envelope, next: Envelope, c: CommandClass)
    requires c in next.classes
  {
    (next.classes[c].allowed && !ClassAllowed(prior, c)) || TimeoutWidens(next.classes[c], RuleOf(prior, c))
  }

  /** The comparisons of `replace_bound` that concern what is permitted. */
  predicate Narrower(prior: Envelope, next: Envelope) {
    && next.read <= prior.read && next.write <= prior.write
    && (forall c :: c in next.classes ==> !ClassWidens(prior, next, c))
    && (forall c :: c in next.capabilities && next.capabilities[c] ==> Enabled(prior, c))
    && prior.nonGoals <= next.nonGoals
  }

  datatype Replacement = Replacement(oldRef: Token, oldRevision: nat, oldTaskRevision: nat, oldDigest: Digest, newRef: Token, newRevision: nat, newDigest: Digest, at: Token)

  /** The fields of a task that a replacement reads or writes. `current` is the task's revision now, `taskRevision` the one its envelope was bound at. */
  datatype Binding = Binding(
    task: Token, spec: Token, specRevision: nat, current: nat,
    ref: Token, revision: nat, taskRevision: nat, digest: Digest, envelope: Envelope, history: seq<Replacement>)

  /** What the caller names. */
  datatype Request = Request(ref: Token, revision: nat, at: Token)

  /** The identity checks of `replace_bound`; `loaded` is the file, if it could be read. */
  function IdentityRefusal(b: Binding, q: Request, loaded: Option<Envelope>): Option<Error> {
    if loaded.None? || !Valid(loaded.value) then Some(Malformed)
    else
      var e := loaded.value;
      if e.task != b.task || e.spec != b.spec then Some(ConflictingInput)
      else if e.taskRevision != b.current || e.specRevision != b.specRevision then Some(StaleRevision)
      else if q.revision != e.revision then Some(StaleRevision)
      else if q.ref == b.ref || e.id == b.envelope.id then Some(ConflictingInput)
      else if q.revision != b.revision + 1 || Sha(e) == b.digest then Some(ConflictingInput)
      else None
  }

  function Rebound(b: Binding, q: Request, e: Envelope): Binding {
    b.(ref := q.ref, revision := q.revision, taskRevision := b.current, digest := Sha(e), envelope := e,
      history := b.history + [Replacement(b.ref, b.revision, b.taskRevision, b.digest, q.ref, q.revision, Sha(e), q.at)])
  }

  /** `replace_bound`. */
  function Replaced(b: Binding, q: Request, loaded: Option<Envelope>): Result<Binding> {
    var refusal := IdentityRefusal(b, q, loaded);
    if refusal.Some? then Err(refusal.value)
    else if !Narrower(b.envelope, loaded.value) then Err(Denied)
    else Ok(Rebound(b, q, loaded.value))
  }

  /** The whole mutation: the replacement, then the validation of the history's length, then the next task revision. */
  function Committed(b: Binding, q: Request, loaded: Option<Envelope>): Result<Binding> {
    match Replaced(b, q, loaded)
    case Err(e) => Err(e)
    case Ok(v) => if |v.history| > MAX_REPLACEMENTS then Err(Malformed) else Ok(v.(current := b.current + 1))
  }

  /** The loop over the successor's command classes. */
  method AnyClassWidens(prior: Envelope, next: Envelope) returns (widens: bool)
    ensures widens <==> exists c :: c in next.classes && ClassWidens(prior, next, c)
  {
    var todo := next.classes.Keys;
    while todo != {}
      invariant todo <= next.classes.Keys
      invariant forall c :: c in next.classes && c !in todo ==> !ClassWidens(prior, next, c)
      decreases |todo|
    {
      var name :| name in todo;
      var rule := next.classes[name];
      var earlier := if name in prior.classes then prior.classes[name] else Rule(false, None);
      if rule.allowed && !earlier.allowed { return true; }
      var wanted := if rule.timeout.Some? then rule.timeout.value else 0;
      if wanted > (if earlier.timeout.Some? then earlier.timeout.value else wanted) { return true; }
      todo := todo - {name};
    }
    return false;
  }

  method AnyCapabilityWidens(prior: Envelope, next: Envelope) returns (widens: bool)
    ensures widens <==> exists c :: c in next.capabilities && next.capabilities[c] && !Enabled(prior, c)
  {
    var todo := next.capabilities.Keys;
    while todo != {}
      invariant todo <= next.capabilities.Keys
      invariant forall c :: c in next.capabilities && c !in todo ==> !next.capabilities[c] || Enabled(prior, c)
      decreases |todo|
    {
      var name :| name in todo;
      if next.capabilities[name] && !(name in prior.capabilities && prior.capabilities[name]) { return true; }
      todo := todo - {name};
    }
    return false;
  }

  class BoundTask {
    const task: Token
    const spec: Token
    const specRevision: nat
    var current: nat
    var ref: Token
    var revision: nat
    var taskRevision: nat
    var digest: Digest
    var envelope: Envelope
    var history: seq<Replacement>

    function View(): Binding
      reads this
    {
      Binding(task, spec, specRevision, current, ref, revision, taskRevision, digest, envelope, history)
    }

    constructor (b: Binding)
      ensures View() == b
    {
      task, spec, specRevision, current := b.task, b.spec, b.specRevision, b.current;
      ref, revision, taskRevision, digest, envelope, history := b.ref, b.revision, b.taskRevision, b.digest, b.envelope, b.history;
    }

    method CheckIdentity(q: Request, loaded: Option<Envelope>) returns (refusal: Option<Error>)
      ensures refusal == IdentityRefusal(View(), q, loaded)
    {
      if loaded.None? || !Valid(loaded.value) { return Some(Malformed); }
      var e := loaded.value;
      if e.task != task || e.spec != spec { return Some(ConflictingInput); }
      if e.taskRevision != current || e.specRevision != specRevision { return Some(StaleRevision); }
      if q.revision != e.revision { return Some(StaleRevision); }
      if q.ref == ref || e.id == envelope.id { return Some(ConflictingInput); }
      if q.revision != revision + 1 || Sha(e) == digest { return Some(ConflictingInput); }
      return None;
    }

    /** `replace_bound`: the successor is bound and the predecessor's identity appended to the history, or nothing changes. */
    method ReplaceBound(q: Request, loaded: Option<Envelope>) returns (error: Option<Error>)
      modifies this
      ensures match Replaced(old(View()), q, loaded)
              case Ok(b) => View() == b && error == None
              case Err(e) => View() == old(View()) && error == Some(e)
    {
      var refusal := CheckIdentity(q, loaded);
      if refusal.Some? { return refusal; }
      var next := loaded.value;
      if !(next.read <= envelope.read) || !(next.write <= envelope.write) { return Some(Denied); }
      var widens := AnyClassWidens(envelope, next);
      if widens { return Some(Denied); }
      widens := AnyCapabilityWidens(envelope, next);
      if widens { return Some(Denied); }
      if !(envelope.nonGoals <= next.nonGoals) { return Some(Denied); }
      history := history + [Replacement(ref, revision, taskRevision, digest, q.ref, q.revision, Sha(next), q.at)];
      ref, revision, taskRevision, digest, envelope := q.ref, q.revision, current, Sha(next), next;
      return None;
    }

    /** The mutation around it: a history that validation finds too long is not committed, and the record stays as it was stored. */
    method Replace(q: Request, loaded: Option<Envelope>) returns (error: Option<Error>)
      modifies this
      ensures match Committed(old(View()), q, loaded)
              case Ok(b) => View() == b && error == None
              case Err(e) => View() == old(View()) && error == Some(e)
      ensures error == None ==> |old(history)| < MAX_REPLACEMENTS && taskRevision == old(current) < current
    {
      var stored := View();
      error := ReplaceBound(q, loaded);
      if error.Some? { return; }
      if |history| > MAX_REPLACEMENTS {
        ref, revision, taskRevision, digest, envelope, history :=
          stored.ref, stored.revision, stored.taskRevision, stored.digest, stored.envelope, stored.history;
        return Some(Malformed);
      }
      current := current + 1;
    }
  }

  // ---- Admission ------------------------------------------------------------

  function StripSlashes(s: string): string {
    if s != [] && s[|s| - 1] == '/' then StripSlashes(s[..|s| - 1]) else s
  }

  predicate StartsWith(s: string, prefix: string) {
    |prefix| <= |s| && s[..|prefix|] == prefix
  }

  /** `partition(":")`: the first colon, or the length. */
  function Colon(s: string): (k: nat)
    ensures k <= |s| && (k < |s| ==> s[k] == ':')
  {
    if s == [] then 0 else if s[0] == ':' then 0 else 1 + Colon(s[1..])
  }

  /** `ROOT_SELECTORS`. */
  function Selected(s: string): Option<string> {
    if s == "product-root" then Some("product")
    else if s == "state-root" then Some("state")
    else if s == "source-root" then Some("source")
    else None
  }

  /** A declared path taken apart: its root, the path below it, and the name that scopes are compared with. */
  datatype Declared = Declared(root: string, relative: string, scopeName: string, selector: bool)

  function Parse(path: string): Declared {
    var k := Colon(path);
    var qualified := k < |path|;
    var selector := Selected(path);
    if selector.Some? then Declared(selector.value, "", path, true)
    else if qualified then Declared(path[..k], path[k + 1..], path, false)
    else Declared("product", path, path, false)
  }

  /** One scope of the envelope covers the declared path. */
  predicate Covers(scope: string, d: Declared) {
    || (Selected(scope).Some? && Selected(scope).value == d.root)
    || d.scopeName == StripSlashes(scope)
    || StartsWith(d.scopeName, StripSlashes(scope) + "/")
  }

  /** The roots the caller has, and the file system's answer about a path below one of them. */
  datatype Site = Site(roots: set<string>, reachable: (string, string, bool) -> bool)

  predicate Mutating(c: CommandClass) {
    c == SourceWrite || c == GitPublication
  }

  predicate PathAdmitted(allowed: set<string>, path: string, c: CommandClass, site: Site) {
    var d := Parse(path);
    && d.root in site.roots
    && (d.selector || (d.relative != "" && d.relative[0] != '/'))
    && (exists scope :: scope in allowed && Covers(scope, d))
    && site.reachable(d.root, if d.relative == "" then "." else d.relative, Mutating(c))
  }

  datatype Command = Command(class_: CommandClass, paths: seq<string>, external: bool)

  /** `_scope_error` is `None`. */
  predicate ScopeAdmitted(e: Envelope, q: Command, site: Site) {
    && (Mutating(q.class_) ==> q.paths != [])
    && forall k :: 0 <= k < |q.paths| ==> PathAdmitted(if Mutating(q.class_) then e.write else e.read, q.paths[k], q.class_, site)
  }

  /** `_capability_denial` is `None`. */
  predicate CapabilitiesAdmit(e: Envelope, q: Command) {
    && (q.class_ == GitPublication ==> Enabled(e, GitMetadata))
    && (q.external ==> q.class_ == GitPublication && Enabled(e, Network))
    && !(q.class_ == GitPublication && Enabled(e, Network) && !q.external)
  }

  /** `preflight` answers ALLOWED; `live` says that the caller owns the active, unexpired claim and the binding is coherent. */
  predicate Admitted(e: Envelope, q: Command, site: Site, live: bool) {
    live && ClassAllowed(e, q.class_) && CapabilitiesAdmit(e, q) && ScopeAdmitted(e, q, site)
  }

  // ---- What narrowing and admission mean ------------------------------------

  /** A timeout that is stated on both sides does not rise. */
  predicate TimeoutsKept(prior: Envelope, next: Envelope) {
    forall c :: c in prior.classes && c in next.classes && prior.classes[c].timeout.Some? && next.classes[c].timeout.Some? ==>
      next.classes[c].timeout.value <= prior.classes[c].timeout.value
  }

  /** Narrower: smaller scopes, no class newly allowed, no stated timeout raised, no capability newly on, no non-goal dropped. */
  lemma NarrowerIff(prior: Envelope, next: Envelope)
    ensures Narrower(prior, next) <==>
      && (forall p :: p in next.read ==> p in prior.read) && (forall p :: p in next.write ==> p in prior.write)
      && (forall c :: c in next.classes && next.classes[c].allowed ==> c in prior.classes && prior.classes[c].allowed)
      && TimeoutsKept(prior, next)
      && (forall c :: c in next.capabilities && next.capabilities[c] ==> c in prior.capabilities && prior.capabilities[c])
      && (forall g :: g in prior.nonGoals ==> g in next.nonGoals)
  {
    forall c | c in next.classes
      ensures ClassWidens(prior, next, c) <==>
        || (next.classes[c].allowed && !(c in prior.classes && prior.classes[c].allowed))
        || (c in prior.classes && prior.classes[c].timeout.Some? && next.classes[c].timeout.Some? && next.classes[c].timeout.value > prior.classes[c].timeout.value)
    {}
  }

  /** A path taken apart at its slashes. */
  function Components(s: string): (r: seq<string>)
    ensures r != [] && (s == "" ==> r == [""])
    ensures if s == "" || s[0] == '/' then r[0] == "" else r[0] != "" && r[0][0] == s[0]
    ensures s != "" && s[0] == '/' ==> |r| >= 2
  {
    if s == "" then [""]
    else var rest := Components(s[1..]); if s[0] == '/' then [""] + rest else [[s[0]] + rest[0]] + rest[1..]
  }

  lemma SameFirst(c: char, a: seq<string>, b: seq<string>)
    requires a != [] && b != []
    ensures [[c] + a[0]] + a[1..] <= [[c] + b[0]] + b[1..] <==> a <= b
  {
    var la, lb := [[c] + a[0]] + a[1..], [[c] + b[0]] + b[1..];
    assert forall k :: 1 <= k < |a| ==> la[k] == a[k];
    assert forall k :: 1 <= k < |b| ==> lb[k] == b[k];
    assert la[0][1..] == a[0] && lb[0][1..] == b[0];
    if a <= b { assert forall k :: 0 <= k < |la| ==> la[k] == lb[k]; }
    if la <= lb { assert forall k :: 0 <= k < |a| ==> a[k] == b[k]; }
  }

  lemma SameStart(a: string, b: string)
    requires a != "" && b != "" && a[0] == b[0]
    ensures (b == a || StartsWith(b, a + "/")) <==> (b[1..] == a[1..] || StartsWith(b[1..], a[1..] + "/"))
  {
    assert a == [a[0]] + a[1..] && b == [b[0]] + b[1..];
    assert (a + "/")[1..] == a[1..] + "/";
    if |a| + 1 <= |b| {
      assert b[..|a| + 1] == [b[0]] + b[1..][..|a|];
      assert a + "/" == [a[0]] + (a[1..] + "/");
    }
  }

  /** The name is the scope itself or lies below it: component by component, never inside a name. */
  lemma {:induction false} BelowIff(scope: string, name: string)
    ensures name == scope || StartsWith(name, scope + "/") <==> Components(scope) <= Components(name)
    decreases |scope|
  {
    if scope != "" && name != "" && scope[0] == name[0] {
      BelowIff(scope[1..], name[1..]);
      SameStart(scope, name);
      if scope[0] == '/' {
        assert ([""] + Components(scope[1..]))[1..] == Components(scope[1..]) && ([""] + Components(name[1..]))[1..] == Components(name[1..]);
      } else {
        SameFirst(scope[0], Components(scope[1..]), Components(name[1..]));
      }
    } else if scope == "" && name != "" && name[0] == '/' {
      assert name[..1] == "/" && Components(scope) == [""];
    } else {
      assert Components(scope) <= Components(name) ==> Components(scope)[0] == Components(name)[0];
    }
  }

  function Slashes(n: nat): string {
    if n == 0 then "" else Slashes(n - 1) + "/"
  }

  lemma {:induction false} StripsSlashes(s: string) returns (n: nat)
    ensures s == StripSlashes(s) + Slashes(n) && (StripSlashes(s) == "" || StripSlashes(s)[|StripSlashes(s)| - 1] != '/')
  {
    n := 0;
    if s != [] && s[|s| - 1] == '/' {
      n := StripsSlashes(s[..|s| - 1]);
      n := n + 1;
      assert s == s[..|s| - 1] + "/";
    }
  }

  /** What a declared path names, and how a scope entry covers it. */
  ghost predicate InScope(scope: string, d: Declared) {
    || (scope == "product-root" && d.root == "product") || (scope == "state-root" && d.root == "state") || (scope == "source-root" && d.root == "source")
    || exists bare: string, n: nat :: scope == bare + Slashes(n) && (bare == "" || bare[|bare| - 1] != '/') && Components(bare) <= Components(d.scopeName)
  }

  lemma {:induction false} SlashesStripped(bare: string, n: nat)
    requires bare == "" || bare[|bare| - 1] != '/'
    ensures StripSlashes(bare + Slashes(n)) == bare
  {
    var s := bare + Slashes(n);
    if n == 0 {
      assert s == bare;
    } else {
      assert s[..|s| - 1] == bare + Slashes(n - 1);
      SlashesStripped(bare, n - 1);
    }
  }

  lemma CoversIff(scope: string, d: Declared)
    ensures Covers(scope, d) <==> InScope(scope, d)
  {
    var n := StripsSlashes(scope);
    BelowIff(StripSlashes(scope), d.scopeName);
    if bare: string, m: nat :| scope == bare + Slashes(m) && (bare == "" || bare[|bare| - 1] != '/') && Components(bare) <= Components(d.scopeName) {
      SlashesStripped(bare, m);
    }
  }

  /** A selector stands for a whole root, a prefix before the first colon names one, and anything else is below the product. */
  predicate Names(path: string, d: Declared) {
    if path == "product-root" then d == Declared("product", "", path, true)
    else if path == "state-root" then d == Declared("state", "", path, true)
    else if path == "source-root" then d == Declared("source", "", path, true)
    else if ':' in path then !d.selector && d.scopeName == path && path == d.root + ":" + d.relative && ':' !in d.root
    else d == Declared("product", path, path, false)
  }

  lemma {:induction false} ColonIsFirst(s: string)
    ensures Colon(s) < |s| <==> ':' in s
    ensures ':' !in s[..Colon(s)]
  {
    if s != "" && s[0] != ':' {
      ColonIsFirst(s[1..]);
      assert s == [s[0]] + s[1..] && s[..Colon(s)] == [s[0]] + s[1..][..Colon(s[1..])];
    }
  }

  lemma ParseNames(path: string)
    ensures Names(path, Parse(path))
  {
    ColonIsFirst(path);
    var k := Colon(path);
    if k < |path| { assert path == path[..k] + ":" + path[k + 1..]; }
  }

  /** One path of a command is admitted under these scope entries. */
  ghost predicate PathIn(scopes: set<string>, path: string, writes: bool, site: Site) {
    exists d :: Names(path, d) && Reached(scopes, d, writes, site)
  }

  ghost predicate Reached(scopes: set<string>, d: Declared, writes: bool, site: Site) {
    && d.root in site.roots && (d.selector || (d.relative != "" && d.relative[0] != '/'))
    && (exists scope :: scope in scopes && InScope(scope, d))
    && site.reachable(d.root, if d.relative == "" then "." else d.relative, writes)
  }

  lemma OneName(path: string, a: Declared, b: Declared)
    requires Names(path, a) && Names(path, b)
    ensures a == b
  {
    if ':' in path && path !in {"product-root", "state-root", "source-root"} {
      assert path[|a.root|] == ':' && path[|b.root|] == ':';
      assert forall j :: 0 <= j < |a.root| ==> path[j] == a.root[j] && a.root[j] in a.root;
      assert forall j :: 0 <= j < |b.root| ==> path[j] == b.root[j] && b.root[j] in b.root;
      assert |a.root| == |b.root|;
      assert a.root == path[..|a.root|] && b.root == path[..|b.root|];
      assert a.relative == path[|a.root| + 1..] && b.relative == path[|b.root| + 1..];
    }
  }

  lemma SomeCovers(scopes: set<string>, d: Declared)
    ensures (exists scope :: scope in scopes && Covers(scope, d)) <==> exists scope :: scope in scopes && InScope(scope, d)
  {
    if scope :| scope in scopes && Covers(scope, d) { CoversIff(scope, d); }
    if scope :| scope in scopes && InScope(scope, d) { CoversIff(scope, d); }
  }

  lemma PathAdmittedIff(scopes: set<string>, path: string, c: CommandClass, site: Site)
    ensures PathAdmitted(scopes, path, c, site) <==> PathIn(scopes, path, c == SourceWrite || c == GitPublication, site)
  {
    var d := Parse(path);
    ParseNames(path);
    SomeCovers(scopes, d);
    assert PathAdmitted(scopes, path, c, site) <==> Reached(scopes, d, c == SourceWrite || c == GitPublication, site);
    if e :| Names(path, e) && Reached(scopes, e, c == SourceWrite || c == GitPublication, site) { OneName(path, d, e); }
  }

  /** A command is admitted exactly if its class is allowed, it publishes with metadata and with external effects just when the network
      is on, and each of its paths lies in the scope of its kind: the write scope if it writes, the read scope if it does not. */
  lemma AdmittedIff(e: Envelope, q: Command, site: Site, live: bool)
    ensures Admitted(e, q, site, live) <==>
      var writes := q.class_ == SourceWrite || q.class_ == GitPublication;
      && live && q.class_ in e.classes && e.classes[q.class_].allowed
      && (if q.class_ == GitPublication then
            GitMetadata in e.capabilities && e.capabilities[GitMetadata] && (q.external <==> Network in e.capabilities && e.capabilities[Network])
          else !q.external)
      && (writes ==> q.paths != [])
      && forall k :: 0 <= k < |q.paths| ==> PathIn(if writes then e.write else e.read, q.paths[k], writes, site)
  {
    var scopes := if Mutating(q.class_) then e.write else e.read;
    forall k | 0 <= k < |q.paths| ensures PathAdmitted(scopes, q.paths[k], q.class_, site) <==> PathIn(scopes, q.paths[k], Mutating(q.class_), site) {
      PathAdmittedIff(scopes, q.paths[k], q.class_, site);
    }
  }

  // ---- Main results ---------------------------------------------------------

  lemma ScopesMonotone(small: set<string>, large: set<string>, path: string, c: CommandClass, site: Site)
    requires small <= large && PathAdmitted(small, path, c, site)
    ensures PathAdmitted(large, path, c, site)
  {
  }

  /** One replacement: what the successor admits, the predecessor admits, except a publication without external authorization
      where the predecessor still had the network. */
  lemma SuccessorAdmitsLess(prior: Envelope, next: Envelope, q: Command, site: Site, live: bool)
    requires Narrower(prior, next) && Admitted(next, q, site, live)
    ensures Admitted(prior, q, site, live) <==> !(q.class_ == GitPublication && !q.external && Enabled(prior, Network))
  {
    assert !ClassWidens(prior, next, q.class_);
    forall k | 0 <= k < |q.paths| ensures PathAdmitted(if Mutating(q.class_) then prior.write else prior.read, q.paths[k], q.class_, site) {
      ScopesMonotone(if Mutating(q.class_) then next.write else next.read, if Mutating(q.class_) then prior.write else prior.read, q.paths[k], q.class_, site);
    }
  }

  /** Successive envelopes, each admitted as a replacement of the one before. */
  predicate Chain(es: seq<Envelope>) {
    forall i :: 0 <= i < |es| - 1 ==> Narrower(es[i], es[i + 1])
  }

  /** What a whole chain guarantees between its ends: everything but the timeouts. */
  predicate Within(prior: Envelope, next: Envelope) {
    && next.read <= prior.read && next.write <= prior.write && prior.nonGoals <= next.nonGoals
    && (forall c :: ClassAllowed(next, c) ==> ClassAllowed(prior, c))
    && (forall c :: Enabled(next, c) ==> Enabled(prior, c))
  }

  /** Along any chain scopes and allowed classes shrink, non-goals grow and capabilities never switch on. */
  lemma {:induction false} ChainNarrows(es: seq<Envelope>, i: nat, j: nat)
    requires Chain(es) && i <= j < |es|
    ensures Within(es[i], es[j])
    decreases j - i
  {
    if i < j {
      ChainNarrows(es, i, j - 1);
      var a, b := es[j - 1], es[j];
      assert Narrower(a, es[j - 1 + 1]);
      forall c | ClassAllowed(b, c) ensures ClassAllowed(a, c) { assert !ClassWidens(a, b, c); }
    }
  }

  /** So admission under any later envelope means admission under every earlier one, with the same single exception. */
  lemma ChainAdmitsLess(es: seq<Envelope>, i: nat, j: nat, q: Command, site: Site, live: bool)
    requires Chain(es) && i <= j < |es| && Admitted(es[j], q, site, live)
    ensures Admitted(es[i], q, site, live) <==> !(q.class_ == GitPublication && !q.external && Enabled(es[i], Network))
  {
    ChainNarrows(es, i, j);
    var prior, next := es[i], es[j];
    forall k | 0 <= k < |q.paths| ensures PathAdmitted(if Mutating(q.class_) then prior.write else prior.read, q.paths[k], q.class_, site) {
      ScopesMonotone(if Mutating(q.class_) then next.write else next.read, if Mutating(q.class_) then prior.write else prior.read, q.paths[k], q.class_, site);
    }
  }

  // ---- Runs of replacements -------------------------------------------------

  /** One call of replace-envelope, or any other committed mutation of the task. */
  datatype Step = Attempt(request: Request, loaded: Option<Envelope>) | Other

  function AfterStep(b: Binding, s: Step): Binding {
    match s
    case Other => b.(current := b.current + 1)
    case Attempt(q, loaded) =>
      var r := Committed(b, q, loaded);
      if r.Ok? then r.value else b
  }

  /** The binding after a run; a call that is not committed changes nothing. */
  function AfterRun(b: Binding, run: seq<Step>): Binding {
    if run == [] then b else AfterStep(AfterRun(b, run[..|run| - 1]), run[|run| - 1])
  }

  predicate Commits(b: Binding, s: Step) {
    s.Attempt? && Committed(b, s.request, s.loaded).Ok?
  }

  /** The envelopes that were bound, first to last. */
  function BoundEnvelopes(b: Binding, run: seq<Step>): (es: seq<Envelope>)
    ensures es != []
  {
    if run == [] then [b.envelope]
    else
      var init := run[..|run| - 1];
      if Commits(AfterRun(b, init), run[|run| - 1]) then BoundEnvelopes(b, init) + [AfterRun(b, run).envelope] else BoundEnvelopes(b, init)
  }

  /** What validation requires of every committed binding, and that the envelope was bound at an earlier task revision. */
  predicate Coherent(b: Binding) {
    && Valid(b.envelope) && b.envelope.task == b.task && b.envelope.spec == b.spec && b.envelope.specRevision == b.specRevision
    && b.digest == Sha(b.envelope) && b.revision == b.envelope.revision
    && b.taskRevision == b.envelope.taskRevision < b.current
    && |b.history| <= MAX_REPLACEMENTS
  }

  predicate NamesStep(r: Replacement, prior: Envelope, next: Envelope) {
    && r.oldDigest == Sha(prior) && r.newDigest == Sha(next) && next.id != prior.id
    && r.oldRevision == prior.revision && r.newRevision == next.revision == prior.revision + 1
    && r.oldTaskRevision == prior.taskRevision < next.taskRevision
  }

  /** From position `from` on, the history has one entry for each step from one bound envelope to the next. */
  predicate Recorded(history: seq<Replacement>, from: nat, es: seq<Envelope>) {
    && |history| == from + |es| - 1
    && forall k: nat :: from <= k < |history| ==> NamesStep(history[k], es[k - from], es[k - from + 1])
  }

  /** Any run binds a chain that ends in the current envelope, one revision a step and never beyond the room of the history,
      which keeps what it had and names every step in order. */
  lemma {:induction false} ReplacementsChain(b: Binding, run: seq<Step>)
    requires Coherent(b)
    ensures var es := BoundEnvelopes(b, run); var v := AfterRun(b, run);
      && Coherent(v) && Chain(es) && es[0] == b.envelope && es[|es| - 1] == v.envelope
      && v.revision == b.revision + |es| - 1 && v.current >= b.current
      && b.history <= v.history && Recorded(v.history, |b.history|, es)
    decreases |run|
  {
    if run != [] {
      var init, last := run[..|run| - 1], run[|run| - 1];
      ReplacementsChain(b, init);
      var before, es := AfterRun(b, init), BoundEnvelopes(b, init);
      if Commits(before, last) { OneMoreBound(b, before, es, last); }
    }
  }

  lemma OneMoreBound(b: Binding, before: Binding, es: seq<Envelope>, last: Step)
    requires Coherent(before) && es != [] && Chain(es) && es[|es| - 1] == before.envelope
    requires b.history <= before.history && Recorded(before.history, |b.history|, es)
    requires Commits(before, last)
    ensures var v := AfterStep(before, last); var all := es + [v.envelope];
      && Coherent(v) && Chain(all) && v.revision == before.revision + 1 && v.current == before.current + 1
      && b.history <= v.history && Recorded(v.history, |b.history|, all)
  {
    var v := AfterStep(before, last);
    var all := es + [v.envelope];
    forall i | 0 <= i < |all| - 1 ensures Narrower(all[i], all[i + 1]) {
      if i < |es| - 1 { assert Narrower(es[i], es[i + 1]); }
    }
    var from := |b.history|;
    forall k: nat | from <= k < |v.history| ensures NamesStep(v.history[k], all[k - from], all[k - from + 1]) {
      if k < |before.history| { assert NamesStep(before.history[k], es[k - from], es[k - from + 1]); }
    }
  }

  /** After any run the bound envelope admits no command that the first one refused, with the one exception. */
  lemma RunsAdmitLess(b: Binding, run: seq<Step>, q: Command, site: Site, live: bool)
    requires Coherent(b) && Admitted(AfterRun(b, run).envelope, q, site, live)
    ensures Admitted(b.envelope, q, site, live) <==> !(q.class_ == GitPublication && !q.external && Enabled(b.envelope, Network))
  {
    ReplacementsChain(b, run);
    var es := BoundEnvelopes(b, run);
    ChainAdmitsLess(es, 0, |es| - 1, q, site, live);
  }

  /** On a coherent binding a replacement is committed exactly if the file is valid, for this task, spec and revision, the next of the line
      under fresh names, narrower, and the history has room. */
  lemma CommittedIff(b: Binding, q: Request, loaded: Option<Envelope>)
    requires Coherent(b)
    ensures Committed(b, q, loaded).Ok? <==>
      && loaded.Some? && Valid(loaded.value) && loaded.value.task == b.task && loaded.value.spec == b.spec
      && loaded.value.taskRevision == b.current && loaded.value.specRevision == b.specRevision
      && q.revision == loaded.value.revision == b.revision + 1 && q.ref != b.ref && loaded.value.id != b.envelope.id
      && Narrower(b.envelope, loaded.value) && |b.history| < 16
    ensures Committed(b, q, loaded).Ok? ==>
      var v := Committed(b, q, loaded).value;
      && v.task == b.task && v.spec == b.spec && v.specRevision == b.specRevision && v.current == b.current + 1
      && v.ref == q.ref && v.revision == q.revision && v.taskRevision == b.current && v.envelope == loaded.value && v.digest == Sha(loaded.value)
      && v.history == b.history + [Replacement(b.ref, b.revision, b.taskRevision, b.digest, q.ref, q.revision, Sha(loaded.value), q.at)]
  {
    if loaded.Some? { assert Sha(loaded.value).envelope == loaded.value && b.digest.envelope == b.envelope; }
  }

  /** The file of a successor: what the old envelope says under the next revision, at the task's revision now, with a fresh identifier. */
  function Successor(b: Binding): Envelope {
    b.envelope.(id := b.envelope.id + 1, revision := b.revision + 1, taskRevision := b.current)
  }

  function Binds(b: Binding, e: Envelope): Step {
    Attempt(Request(b.ref + 1, e.revision, 0), Some(e))
  }

  lemma SuccessorCommits(b: Binding, e: Envelope)
    requires Coherent(b) && |b.history| < MAX_REPLACEMENTS && Valid(e) && Narrower(b.envelope, e)
    requires e.(classes := b.envelope.classes, capabilities := b.envelope.capabilities) == Successor(b)
    ensures Commits(b, Binds(b, e)) && Coherent(AfterStep(b, Binds(b, e)))
    ensures AfterStep(b, Binds(b, e)).envelope == e && |AfterStep(b, Binds(b, e)).history| == |b.history| + 1
  {
    assert Sha(e).envelope.id != b.digest.envelope.id;
  }

  lemma OneStepRun(b: Binding, s: Step)
    ensures AfterRun(b, [s]) == AfterStep(b, s)
  {
    assert [s][..0] == [];
  }

  /** The exception is real: a committed replacement that only switches the network off admits every publication in scope
      that needs no external effects, and the envelope before refused it. */
  lemma DroppedNetworkAdmits(b: Binding, q: Command, site: Site) returns (s: Step)
    requires Coherent(b) && |b.history| < MAX_REPLACEMENTS && Enabled(b.envelope, GitMetadata) && Enabled(b.envelope, Network)
    requires q.class_ == GitPublication && !q.external && ClassAllowed(b.envelope, GitPublication) && ScopeAdmitted(b.envelope, q, site)
    ensures Commits(b, s)
    ensures Admitted(AfterStep(b, s).envelope, q, site, true) && !Admitted(b.envelope, q, site, true)
  {
    var e := Successor(b).(capabilities := b.envelope.capabilities[Network := false]);
    forall k | k in e.classes ensures !ClassWidens(b.envelope, e, k) {}
    SuccessorCommits(b, e);
    s := Binds(b, e);
  }

  /** Some run of committed calls makes the task admit what its envelope refuses now. */
  ghost predicate CanBecomeAdmitted(b: Binding, q: Command, site: Site) {
    exists run :: Admitted(AfterRun(b, run).envelope, q, site, true) && !Admitted(b.envelope, q, site, true)
  }

  /** A refused command can become admitted exactly if it is a publication without external effects, allowed but for the network, and the history has room. */
  lemma BecomesAdmittedIff(b: Binding, q: Command, site: Site)
    requires Coherent(b)
    ensures CanBecomeAdmitted(b, q, site) <==>
      && q.class_ == GitPublication && !q.external && Enabled(b.envelope, GitMetadata) && Enabled(b.envelope, Network)
      && ClassAllowed(b.envelope, GitPublication) && ScopeAdmitted(b.envelope, q, site) && |b.history| < 16
  {
    if CanBecomeAdmitted(b, q, site) {
      var run :| Admitted(AfterRun(b, run).envelope, q, site, true) && !Admitted(b.envelope, q, site, true);
      RunsAdmitLess(b, run, q, site, true);
      ReplacementsChain(b, run);
      var es := BoundEnvelopes(b, run);
      ChainNarrows(es, 0, |es| - 1);
      forall k | 0 <= k < |q.paths| ensures PathAdmitted(b.envelope.write, q.paths[k], q.class_, site) {
        ScopesMonotone(es[|es| - 1].write, b.envelope.write, q.paths[k], q.class_, site);
      }
    } else if ClassAllowed(b.envelope, GitPublication) && ScopeAdmitted(b.envelope, q, site) && |b.history| < MAX_REPLACEMENTS
      && q.class_ == GitPublication && !q.external && Enabled(b.envelope, GitMetadata) && Enabled(b.envelope, Network) {
      var s := DroppedNetworkAdmits(b, q, site);
      OneStepRun(b, s);
    }
  }

  // ---- Timeouts -------------------------------------------------------------

  predicate Stated(e: Envelope, c: CommandClass) {
    c in e.classes && e.classes[c].timeout.Some?
  }

  /** The successor that differs in one rule only. */
  function WithRule(b: Binding, c: CommandClass, rule: Rule): Envelope {
    Successor(b).(classes := b.envelope.classes[c := rule])
  }

  lemma RuleCommits(b: Binding, c: CommandClass, rule: Rule)
    requires Coherent(b) && |b.history| < MAX_REPLACEMENTS
    requires rule.timeout.Some? ==> 1 <= rule.timeout.value <= MAX_TIMEOUT
    requires (rule.allowed ==> ClassAllowed(b.envelope, c)) && !TimeoutWidens(rule, RuleOf(b.envelope, c))
    ensures var s := Binds(b, WithRule(b, c, rule));
      && Commits(b, s) && Coherent(AfterStep(b, s)) && AfterStep(b, s).envelope == WithRule(b, c, rule)
      && |AfterStep(b, s).history| == |b.history| + 1
  {
    var e := WithRule(b, c, rule);
    assert c in e.classes;
    forall k | k in e.classes ensures !ClassWidens(b.envelope, e, k) {}
    SuccessorCommits(b, e);
  }

  predicate StatesAtMost(e: Envelope, c: CommandClass, bound: nat) {
    Stated(e, c) ==> e.classes[c].timeout.value <= bound
  }

  /** Every committed successor that states a timeout for this class keeps it within the bound. */
  ghost predicate SuccessorsWithin(b: Binding, c: CommandClass, bound: nat) {
    forall s :: Commits(b, s) ==> StatesAtMost(AfterStep(b, s).envelope, c, bound)
  }

  /** One replacement keeps a timeout within a bound exactly when the bound envelope states one itself,
      the bound is the format's own, or the history has no room for a replacement. */
  lemma TimeoutBoundedIff(b: Binding, c: CommandClass, bound: nat)
    requires Coherent(b) && StatesAtMost(b.envelope, c, bound)
    ensures SuccessorsWithin(b, c, bound) <==> Stated(b.envelope, c) || bound >= 3600 || |b.history| == 16
  {
    if Stated(b.envelope, c) || bound >= MAX_TIMEOUT || |b.history| == MAX_REPLACEMENTS {
      forall s | Commits(b, s) ensures StatesAtMost(AfterStep(b, s).envelope, c, bound) {
        if Stated(s.loaded.value, c) { assert !ClassWidens(b.envelope, s.loaded.value, c); }
      }
    } else {
      var rule := Rule(false, Some(bound + 1));
      RuleCommits(b, c, rule);
      assert !StatesAtMost(AfterStep(b, Binds(b, WithRule(b, c, rule))).envelope, c, bound);
    }
  }

  /** Along a chain in which every envelope states the timeout of a class, it never rises. */
  lemma {:induction false} StatedTimeoutsShrink(es: seq<Envelope>, c: CommandClass, i: nat, j: nat)
    requires Chain(es) && i <= j < |es| && Stated(es[i], c) && Stated(es[j], c) && forall k :: i <= k <= j ==> Stated(es[k], c)
    ensures es[j].classes[c].timeout.value <= es[i].classes[c].timeout.value
    decreases j - i
  {
    if i < j {
      StatedTimeoutsShrink(es, c, i, j - 1);
      assert Narrower(es[j - 1], es[j - 1 + 1]);
      assert !ClassWidens(es[j - 1], es[j], c);
    }
  }

  predicate States(e: Envelope, c: CommandClass, timeout: nat) {
    Stated(e, c) && e.classes[c].timeout.value == timeout
  }

  /** So over any run a timeout can only have risen if some bound envelope in between left it out. */
  lemma RisenMeansLeftOut(b: Binding, run: seq<Step>, c: CommandClass)
    requires Coherent(b) && Stated(b.envelope, c) && Stated(AfterRun(b, run).envelope, c)
    requires AfterRun(b, run).envelope.classes[c].timeout.value > b.envelope.classes[c].timeout.value
    ensures exists k :: 0 < k < |BoundEnvelopes(b, run)| - 1 && !Stated(BoundEnvelopes(b, run)[k], c)
  {
    ReplacementsChain(b, run);
    var es := BoundEnvelopes(b, run);
    if forall k :: 0 <= k <= |es| - 1 ==> Stated(es[k], c) { StatedTimeoutsShrink(es, c, 0, |es| - 1); }
  }

  /** Two committed replacements raise a stated timeout to any higher value of the format; one alone is refused. */
  lemma TimeoutsCanRise(b: Binding, c: CommandClass, high: nat) returns (run: seq<Step>)
    requires Coherent(b) && |b.history| <= MAX_REPLACEMENTS - 2
    requires Stated(b.envelope, c) && b.envelope.classes[c].timeout.value < high <= MAX_TIMEOUT
    ensures |run| == 2 && Commits(b, run[0]) && Commits(AfterRun(b, run[..1]), run[1])
    ensures b.taskRevision < run[0].loaded.value.taskRevision < run[1].loaded.value.taskRevision
    ensures States(AfterRun(b, run).envelope, c, high)
    ensures SuccessorsWithin(b, c, b.envelope.classes[c].timeout.value)
  {
    var rule := b.envelope.classes[c];
    var first := Binds(b, WithRule(b, c, rule.(timeout := None)));
    RuleCommits(b, c, rule.(timeout := None));
    var middle := AfterStep(b, first);
    var second := Binds(middle, WithRule(middle, c, rule.(timeout := Some(high))));
    RuleCommits(middle, c, rule.(timeout := Some(high)));
    run := [first, second];
    assert run[..1] == [first] && run[..|run| - 1] == run[..1];
    OneStepRun(b, first);
    TimeoutBoundedIff(b, c, rule.timeout.value);
  }

  ghost predicate CanReach(b: Binding, c: CommandClass, timeout: nat) {
    exists run :: States(AfterRun(b, run).envelope, c, timeout)
  }

  /** A stated timeout can be raised exactly to the values of the format, and exactly while the history has room for two replacements. */
  lemma TimeoutRisesIff(b: Binding, c: CommandClass, high: nat)
    requires Coherent(b) && Stated(b.envelope, c) && b.envelope.classes[c].timeout.value < high
    ensures CanReach(b, c, high) <==> high <= 3600 && |b.history| <= 14
  {
    if CanReach(b, c, high) {
      var run :| States(AfterRun(b, run).envelope, c, high);
      RisenMeansLeftOut(b, run, c);
      ReplacementsChain(b, run);
    } else if high <= MAX_TIMEOUT && |b.history| <= MAX_REPLACEMENTS - 2 {
      var run := TimeoutsCanRise(b, c, high);
    }
  }
}
