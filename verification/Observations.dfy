/** The single-flight observation cache of fast_observation.py, one locked section per step. */
module Observations {
  import opened Common

  /** A monotonic clock. */
  type Time = int

  const WAIT: Time := 90

  const MAX_AGE: nat := 300

  /** The fields under the condition variable. */
  datatype Cache = Cache(
    refreshing: bool, state: Option<Token>, digest: Option<Token>, observedAt: Time,
    generation: nat, failedGeneration: Option<nat>, failedDigest: Option<Token>)

  /** One call of `observe`, between its locked sections. */
  datatype Caller = Caller(digest: Token, maximum: nat, generation: nat, deadline: Time)

  /** What one turn of the waiting loop decides. */
  datatype Verdict = InputChanged | Bounded(age: Time) | Fresh(age: Time) | BecomeScanner | TimedOut | KeepWaiting

  function Max(a: int, b: int): int { if a >= b then a else b }

  function Turn(k: Cache, c: Caller, now: Time): Verdict {
    var age := Max(0, now - k.observedAt);
    if k.failedGeneration.Some? && c.generation <= k.failedGeneration.value && k.failedDigest == Some(c.digest) then InputChanged
    else if c.maximum > 0 && k.state.Some? && k.digest == Some(c.digest) && age <= c.maximum then Bounded(age)
    else if k.generation > c.generation && k.state.Some? && k.digest == Some(c.digest) then Fresh(age)
    else if !k.refreshing then BecomeScanner
    else if c.deadline - now <= 0 then TimedOut
    else KeepWaiting
  }

  function AfterTurn(k: Cache, v: Verdict): Cache {
    if v.BecomeScanner? then k.(refreshing := true) else k
  }

  function Published(k: Cache, c: Caller, state: Token, at: Time): Cache {
    k.(state := Some(state), digest := Some(c.digest), observedAt := at, generation := k.generation + 1, refreshing := false)
  }

  /** A scan that ended in an error; `changed` when the inputs moved under it. */
  function Failed(k: Cache, c: Caller, changed: bool): Cache {
    if changed
    then k.(failedGeneration := Some(k.generation), failedDigest := Some(c.digest), generation := k.generation + 1, refreshing := false)
    else k.(refreshing := false)
  }

  class ObservationCache {
    var refreshing: bool
    var state: Option<Token>
    var digest: Option<Token>
    var observedAt: Time
    var generation: nat
    var failedGeneration: Option<nat>
    var failedDigest: Option<Token>

    function View(): Cache
      reads this
    {
      Cache(refreshing, state, digest, observedAt, generation, failedGeneration, failedDigest)
    }

    constructor ()
      ensures View() == Cache(false, None, None, 0, 0, None, None)
    {
      refreshing, state, digest, observedAt, generation, failedGeneration, failedDigest := false, None, None, 0, 0, None, None;
    }

    /** The locked section that a caller runs on arrival and after every wake-up. */
    method Look(c: Caller, now: Time) returns (v: Verdict)
      modifies this
      ensures v == Turn(old(View()), c, now) && View() == AfterTurn(old(View()), v)
      // A failure for these inputs since the call arrived is reported before anything else.
      ensures v == InputChanged <==> old(failedGeneration).Some? && c.generation <= old(failedGeneration).value && old(failedDigest) == Some(c.digest)
      // A cached observation of these inputs answers if it is young enough or newer than the call.
      ensures v.Bounded? || v.Fresh? <==>
        && v != InputChanged && old(state).Some? && old(digest) == Some(c.digest)
        && ((c.maximum > 0 && now - old(observedAt) <= c.maximum) || old(generation) > c.generation)
      ensures v.Bounded? ==> c.maximum > 0 && v.age <= c.maximum
      ensures v.Fresh? ==> c.maximum == 0 || v.age > c.maximum
      ensures v.Bounded? || v.Fresh? ==> v.age == if now > old(observedAt) then now - old(observedAt) else 0
      // Without an answer the call scans if nobody does, and otherwise waits until its deadline.
      ensures v == BecomeScanner ==> !old(refreshing) && refreshing
      ensures v != BecomeScanner ==> View() == old(View())
      ensures v == TimedOut ==> old(refreshing) && now >= c.deadline
      ensures v == KeepWaiting ==> old(refreshing) && now < c.deadline
    {
      if failedGeneration.Some? && c.generation <= failedGeneration.value && failedDigest == Some(c.digest) { return InputChanged; }
      var age := Max(0, now - observedAt);
      if c.maximum > 0 && state.Some? && digest == Some(c.digest) && age <= c.maximum { return Bounded(age); }
      if generation > c.generation && state.Some? && digest == Some(c.digest) { return Fresh(age); }
      if !refreshing {
        refreshing := true;
        return BecomeScanner;
      }
      if c.deadline - now <= 0 { return TimedOut; }
      return KeepWaiting;
    }

    method Publish(c: Caller, found: Token, at: Time)
      modifies this
      ensures View() == Published(old(View()), c, found, at)
    {
      state, digest, observedAt := Some(found), Some(c.digest), at;
      generation := generation + 1;
      refreshing := false;
    }

    method Fail(c: Caller, changed: bool)
      modifies this
      ensures View() == Failed(old(View()), c, changed)
    {
      if changed {
        failedGeneration, failedDigest := Some(generation), Some(c.digest);
        generation := generation + 1;
      }
      refreshing := false;
    }
  }

  // ---- Interleavings --------------------------------------------------------

  /** A completed scan, as published. */
  datatype Scan = Scan(state: Token, digest: Token, at: Time)

  datatype Phase = Waiting | Scanning

  /** What an outsider remembers of a call: how many scans had been published when it arrived, and whether other inputs failed since. */
  datatype Local = Local(caller: Caller, phase: Phase, scansBefore: nat, othersFailed: bool)

  datatype Freshness = BoundedCache | FreshScan

  datatype Answer = Answer(
    digest: Token, maximum: nat, state: Token, age: Time, freshness: Freshness, at: Time,
    scan: nat, scansBefore: nat, othersFailed: bool)

  datatype World = World(cache: Cache, callers: map<Token, Local>, clock: Time, scans: seq<Scan>, answers: seq<Answer>)

  datatype Step =
    | Enter(id: Token, digest: Token, maximum: nat, now: Time)
    | Wake(id: Token, now: Time)
    | Publish(id: Token, state: Token, at: Time, now: Time)
    | Fail(id: Token, changed: bool, now: Time)

  function Without(callers: map<Token, Local>, id: Token): map<Token, Local> {
    map k | k in callers && k != id :: callers[k]
  }

  /** The verdict of one turn, carried out. */
  function Act(w: World, id: Token, l: Local, now: Time): World {
    var v := Turn(w.cache, l.caller, now);
    var w' := w.(cache := AfterTurn(w.cache, v), clock := now);
    match v
    case InputChanged => w'.(callers := Without(w.callers, id))
    case TimedOut => w'.(callers := Without(w.callers, id))
    case Bounded(age) => w'.(callers := Without(w.callers, id), answers := w.answers + [AnswerTo(w, l, BoundedCache, age, now)])
    case Fresh(age) => w'.(callers := Without(w.callers, id), answers := w.answers + [AnswerTo(w, l, FreshScan, age, now)])
    case BecomeScanner => w'.(callers := w.callers[id := l.(phase := Scanning)])
    case KeepWaiting => w'.(callers := w.callers[id := l])
  }

  function AnswerTo(w: World, l: Local, freshness: Freshness, age: Time, now: Time): Answer {
    Answer(l.caller.digest, l.caller.maximum, if w.cache.state.Some? then w.cache.state.value else 0, age, freshness, now,
      if |w.scans| > 0 then |w.scans| - 1 else 0, l.scansBefore, l.othersFailed)
  }

  /** Every other waiting call notes that inputs unlike its own failed. */
  function NoteFailure(callers: map<Token, Local>, digest: Token): map<Token, Local> {
    map k | k in callers :: callers[k].(othersFailed := callers[k].othersFailed || callers[k].caller.digest != digest)
  }

  function Next(w: World, s: Step): World {
    match s
    case Enter(id, digest, maximum, now) =>
      if maximum > MAX_AGE || now < w.clock || id in w.callers then w
      else Act(w, id, Local(Caller(digest, maximum, w.cache.generation, now + WAIT), Waiting, |w.scans|, false), now)
    case Wake(id, now) =>
      if now < w.clock || id !in w.callers || w.callers[id].phase != Waiting then w
      else Act(w, id, w.callers[id], now)
    case Publish(id, state, at, now) =>
      if now < w.clock || at > now || id !in w.callers || w.callers[id].phase != Scanning then w
      else
        var l := w.callers[id];
        World(Published(w.cache, l.caller, state, at), Without(w.callers, id), now, w.scans + [Scan(state, l.caller.digest, at)],
          w.answers + [Answer(l.caller.digest, l.caller.maximum, state, 0, FreshScan, now, |w.scans|, l.scansBefore, l.othersFailed)])
    case Fail(id, changed, now) =>
      if now < w.clock || id !in w.callers || w.callers[id].phase != Scanning then w
      else
        var l := w.callers[id];
        var rest := Without(w.callers, id);
        w.(cache := Failed(w.cache, l.caller, changed), clock := now,
           callers := if changed then NoteFailure(rest, l.caller.digest) else rest)
  }

  function Exec(w: World, steps: seq<Step>): World
    decreases |steps|
  {
    if steps == [] then w else Exec(Next(w, steps[0]), steps[1..])
  }

  const EMPTY := World(Cache(false, None, None, 0, 0, None, None), map[], 0, [], [])

  // ---- Invariant ------------------------------------------------------------

  /** At most one call scans, and the flag says whether one does. */
  predicate OneScanner(w: World) {
    && (forall a, b :: a in w.callers && b in w.callers && w.callers[a].phase == Scanning && w.callers[b].phase == Scanning ==> a == b)
    && (w.cache.refreshing <==> exists a :: a in w.callers && w.callers[a].phase == Scanning)
  }

  /** The cached state is the last published scan. */
  predicate CacheIsLastScan(w: World) {
    if w.scans == [] then w.cache.state.None?
    else
      var s := w.scans[|w.scans| - 1];
      w.cache.state == Some(s.state) && w.cache.digest == Some(s.digest) && w.cache.observedAt == s.at
  }

  /** Why the generation may have moved since a call arrived. */
  predicate GenerationExplained(w: World, l: Local) {
    && l.caller.generation <= w.cache.generation && l.scansBefore <= |w.scans|
    && (w.cache.generation > l.caller.generation ==>
      || |w.scans| > l.scansBefore || l.othersFailed
      || (w.cache.failedGeneration.Some? && l.caller.generation <= w.cache.failedGeneration.value && w.cache.failedDigest == Some(l.caller.digest)))
  }

  predicate AnswerSound(w: World, a: Answer) {
    && a.scan < |w.scans| && w.scans[a.scan].digest == a.digest && w.scans[a.scan].state == a.state
    && (a.freshness.BoundedCache? ==> a.age <= a.maximum && a.age == Max(0, a.at - w.scans[a.scan].at))
    && (a.freshness.FreshScan? ==> a.scan >= a.scansBefore || a.othersFailed)
  }

  predicate Inv(w: World) {
    && OneScanner(w) && CacheIsLastScan(w)
    && (forall id :: id in w.callers ==> GenerationExplained(w, w.callers[id]))
    && (forall k :: 0 <= k < |w.answers| ==> AnswerSound(w, w.answers[k]))
  }

  lemma TurnAnswers(w: World, l: Local, now: Time)
    requires CacheIsLastScan(w) && GenerationExplained(w, l)
    ensures var v := Turn(w.cache, l.caller, now);
      && (v.Bounded? ==> AnswerSound(w, AnswerTo(w, l, BoundedCache, v.age, now)))
      && (v.Fresh? ==> AnswerSound(w, AnswerTo(w, l, FreshScan, v.age, now)))
  {
  }

  lemma ActKeeps(w: World, id: Token, l: Local, now: Time)
    requires Inv(w) && l.phase == Waiting && GenerationExplained(w, l)
    requires id in w.callers ==> w.callers[id] == l
    ensures Inv(Act(w, id, l, now))
  {
    TurnAnswers(w, l, now);
    var v := Act(w, id, l, now);
    assert v.cache.(refreshing := false) == w.cache.(refreshing := false) && v.scans == w.scans;
    forall k | k in v.callers ensures GenerationExplained(v, v.callers[k]) {
      if k != id { assert GenerationExplained(w, w.callers[k]); }
    }
    ScannerAfter(w, id, l, now);
  }

  lemma ScannerAfter(w: World, id: Token, l: Local, now: Time)
    requires OneScanner(w) && l.phase == Waiting && (id in w.callers ==> w.callers[id] == l)
    ensures OneScanner(Act(w, id, l, now))
  {
    var v := Act(w, id, l, now);
    if Turn(w.cache, l.caller, now).BecomeScanner? {
      assert id in v.callers && v.callers[id].phase == Scanning;
    } else if w.cache.refreshing {
      var a :| a in w.callers && w.callers[a].phase == Scanning;
      assert a in v.callers && v.callers[a].phase == Scanning;
    }
  }

  lemma PublishKeeps(w: World, s: Step)
    requires Inv(w) && s.Publish?
    ensures Inv(Next(w, s))
  {
    var v := Next(w, s);
    if v != w {
      forall k | k in v.callers ensures GenerationExplained(v, v.callers[k]) { assert GenerationExplained(w, w.callers[k]); }
      forall k | 0 <= k < |v.answers| ensures AnswerSound(v, v.answers[k]) {
        if k < |w.answers| { assert AnswerSound(w, w.answers[k]); }
        else { assert GenerationExplained(w, w.callers[s.id]); }
      }
    }
  }

  lemma FailKeeps(w: World, s: Step)
    requires Inv(w) && s.Fail?
    ensures Inv(Next(w, s))
  {
    var v := Next(w, s);
    if v != w {
      forall k | k in v.callers ensures GenerationExplained(v, v.callers[k]) { assert GenerationExplained(w, w.callers[k]); }
      forall k | 0 <= k < |v.answers| ensures AnswerSound(v, v.answers[k]) { assert AnswerSound(w, w.answers[k]); }
    }
  }

  lemma StepKeeps(w: World, s: Step)
    requires Inv(w)
    ensures Inv(Next(w, s))
  {
    match s {
      case Enter(id, digest, maximum, now) =>
        if Next(w, s) != w {
          ActKeeps(w, id, Local(Caller(digest, maximum, w.cache.generation, now + WAIT), Waiting, |w.scans|, false), now);
        }
      case Wake(id, now) =>
        if Next(w, s) != w { ActKeeps(w, id, w.callers[id], now); }
      case Publish(_, _, _, _) => PublishKeeps(w, s);
      case Fail(_, _, _) => FailKeeps(w, s);
    }
  }

  lemma {:induction false} RunKeeps(w: World, steps: seq<Step>)
    requires Inv(w)
    ensures Inv(Exec(w, steps))
    decreases |steps|
  {
    if steps != [] {
      StepKeeps(w, steps[0]);
      RunKeeps(Next(w, steps[0]), steps[1..]);
    }
  }

  // ---- Main results ---------------------------------------------------------

  /** In every interleaving at most one call is scanning. */
  lemma SingleFlight(steps: seq<Step>, a: Token, b: Token)
    requires var v := Exec(EMPTY, steps); a in v.callers && b in v.callers && v.callers[a].phase == Scanning && v.callers[b].phase == Scanning
    ensures a == b
  {
    RunKeeps(EMPTY, steps);
  }

  /** In every interleaving an answer is a scan published for the caller's own inputs, and a bounded answer is within the caller's age. */
  lemma AnswersAreTheCallers(steps: seq<Step>, k: nat)
    requires k < |Exec(EMPTY, steps).answers|
    ensures var v := Exec(EMPTY, steps); var a := v.answers[k];
      && a.scan < |v.scans| && v.scans[a.scan].digest == a.digest && v.scans[a.scan].state == a.state
      && (a.freshness.BoundedCache? ==> a.age <= a.maximum && a.at - v.scans[a.scan].at <= a.maximum)
  {
    RunKeeps(EMPTY, steps);
    assert AnswerSound(Exec(EMPTY, steps), Exec(EMPTY, steps).answers[k]);
  }

  /** A fresh answer was published after its caller arrived, unless a scan for other inputs failed while it waited. */
  lemma FreshUnlessOthersFailed(steps: seq<Step>, k: nat)
    requires k < |Exec(EMPTY, steps).answers| && Exec(EMPTY, steps).answers[k].freshness.FreshScan?
    ensures var a := Exec(EMPTY, steps).answers[k]; a.scan >= a.scansBefore || a.othersFailed
  {
    RunKeeps(EMPTY, steps);
    assert AnswerSound(Exec(EMPTY, steps), Exec(EMPTY, steps).answers[k]);
  }

  /** All calls are made with these inputs. */
  predicate Shares(w: World, digest: Token) {
    && (forall id :: id in w.callers ==> w.callers[id].caller.digest == digest && !w.callers[id].othersFailed)
    && (forall k :: 0 <= k < |w.answers| ==> !w.answers[k].othersFailed)
  }

  lemma SharedStep(w: World, s: Step, digest: Token)
    requires Shares(w, digest) && (s.Enter? ==> s.digest == digest)
    ensures Shares(Next(w, s), digest)
  {
  }

  lemma {:induction false} SharedRun(w: World, steps: seq<Step>, digest: Token)
    requires Shares(w, digest) && forall k :: 0 <= k < |steps| && steps[k].Enter? ==> steps[k].digest == digest
    ensures Shares(Exec(w, steps), digest)
    decreases |steps|
  {
    if steps != [] {
      SharedStep(w, steps[0], digest);
      SharedRun(Next(w, steps[0]), steps[1..], digest);
    }
  }

  /** When all callers share one input digest, every fresh answer was published after its caller arrived. */
  lemma SharedInputsAreFresh(steps: seq<Step>, digest: Token, k: nat)
    requires forall k :: 0 <= k < |steps| && steps[k].Enter? ==> steps[k].digest == digest
    requires k < |Exec(EMPTY, steps).answers| && Exec(EMPTY, steps).answers[k].freshness.FreshScan?
    ensures var a := Exec(EMPTY, steps).answers[k]; a.scan >= a.scansBefore
  {
    SharedRun(EMPTY, steps, digest);
    FreshUnlessOthersFailed(steps, k);
  }

  // ---- Exactly when fresh answers are fresh ---------------------------------

  /** Every call is made with inputs of this set: which inputs a deployment's callers may have is known beforehand. */
  predicate UsesOnly(steps: seq<Step>, digests: set<Token>) {
    forall k :: 0 <= k < |steps| && steps[k].Enter? ==> steps[k].digest in digests
  }

  /** Every fresh-scan answer of the run was published after its caller arrived. */
  predicate FreshRun(steps: seq<Step>) {
    var answers := Exec(EMPTY, steps).answers;
    forall k :: 0 <= k < |answers| && answers[k].freshness.FreshScan? ==> answers[k].scan >= answers[k].scansBefore
  }

  ghost predicate AlwaysFresh(digests: set<Token>) {
    forall steps :: UsesOnly(steps, digests) ==> FreshRun(steps)
  }

  /** Callers with inputs of a set always get fresh answers exactly when the set has at most one member. */
  lemma AlwaysFreshIff(digests: set<Token>)
    ensures AlwaysFresh(digests) <==> |digests| <= 1
  {
    if |digests| <= 1 {
      var digest := TheOnly(digests);
      forall steps | UsesOnly(steps, digests) ensures FreshRun(steps) {
        var answers := Exec(EMPTY, steps).answers;
        forall k | 0 <= k < |answers| && answers[k].freshness.FreshScan? ensures answers[k].scan >= answers[k].scansBefore {
          SharedInputsAreFresh(steps, digest, k);
        }
      }
    } else {
      var d1, d2 := TwoOf(digests);
      var steps := OtherInputsMakeStale(d1, d2);
      assert UsesOnly(steps, digests) && !FreshRun(steps);
    }
  }

  lemma TheOnly(digests: set<Token>) returns (digest: Token)
    requires |digests| <= 1
    ensures forall d :: d in digests ==> d == digest
  {
    digest := 0;
    if digests != {} {
      digest :| digest in digests;
      assert |digests - {digest}| == 0;
      assert digests == {digest} + (digests - {digest});
    }
  }

  lemma TwoOf(digests: set<Token>) returns (d1: Token, d2: Token)
    requires |digests| >= 2
    ensures d1 in digests && d2 in digests && d1 != d2
  {
    d1 :| d1 in digests;
    assert |digests - {d1}| >= 1;
    d2 :| d2 in digests - {d1};
  }

  /** One scan for some inputs is published at time 0 and nobody is waiting. */
  function OneScan(d: Token): World {
    World(
      Cache(false, Some(77), Some(d), 0, 1, None, None), map[], 0, [Scan(77, d, 0)],
      [Answer(d, 0, 77, 0, FreshScan, 0, 0, 0, false)])
  }

  function Opening(d: Token): seq<Step> { [Enter(1, d, 0, 0), Publish(1, 77, 0, 0)] }

  lemma Opens(d: Token)
    ensures Exec(EMPTY, Opening(d)) == OneScan(d)
  {
    var w1 := Next(EMPTY, Opening(d)[0]);
    var w2 := Next(w1, Opening(d)[1]);
    assert w2.callers == map[];
    assert Opening(d)[1..] == [Opening(d)[1]] && Opening(d)[1..][1..] == [];
    assert Exec(EMPTY, Opening(d)) == Exec(w1, Opening(d)[1..]) == Exec(w2, Opening(d)[1..][1..]);
  }

  /** Other inputs start a scan, a caller of the first inputs waits, the scan fails, the caller wakes. */
  function FailureAround(d1: Token, d2: Token): seq<Step> {
    [Enter(2, d2, 0, 1), Enter(3, d1, 0, 2), Fail(2, true, 3), Wake(3, 4)]
  }

  lemma StaleAnswer(d1: Token, d2: Token)
    requires d1 != d2
    ensures var s := FailureAround(d1, d2); var v := Next(Next(Next(Next(OneScan(d1), s[0]), s[1]), s[2]), s[3]);
      |v.answers| == 2 && v.answers[1].freshness.FreshScan? && v.answers[1].scan < v.answers[1].scansBefore
  {
    var s := FailureAround(d1, d2);
    var w2 := Next(Next(OneScan(d1), s[0]), s[1]);
    assert 3 in w2.callers && w2.callers[3].phase == Waiting && w2.callers[3].scansBefore == 1;
    var w3 := Next(w2, s[2]);
    assert w3.cache == Cache(false, Some(77), Some(d1), 0, 2, Some(1), Some(d2));
    assert Turn(w3.cache, w3.callers[3].caller, 4).Fresh?;
  }

  /** With any two different inputs in flight, a failed scan for one turns an old entry of the other into a fresh-scan answer. */
  lemma OtherInputsMakeStale(d1: Token, d2: Token) returns (steps: seq<Step>)
    requires d1 != d2
    ensures UsesOnly(steps, {d1, d2}) && !FreshRun(steps)
  {
    var s := FailureAround(d1, d2);
    steps := Opening(d1) + s;
    Opens(d1);
    StaleAnswer(d1, d2);
    ExecConcat(EMPTY, Opening(d1), s);
    LastSteps(OneScan(d1), s[0], s[1], s[2], s[3]);
    assert s == [s[0], s[1], s[2], s[3]];
    assert Exec(EMPTY, steps).answers[1].freshness.FreshScan?;
  }

  lemma {:induction false} ExecConcat(w: World, a: seq<Step>, b: seq<Step>)
    ensures Exec(w, a + b) == Exec(Exec(w, a), b)
    decreases |a|
  {
    if a == [] {
      assert a + b == b;
    } else {
      assert (a + b)[1..] == a[1..] + b;
      ExecConcat(Next(w, a[0]), a[1..], b);
    }
  }

  lemma LastSteps(w: World, a: Step, b: Step, c: Step, d: Step)
    ensures Exec(w, [a, b, c, d]) == Next(Next(Next(Next(w, a), b), c), d)
  {
    assert [a, b, c, d][1..] == [b, c, d] && [b, c, d][1..] == [c, d] && [c, d][1..] == [d] && [d][1..] == [];
    var w1 := Next(w, a);
    var w2 := Next(w1, b);
    var w3 := Next(w2, c);
    assert Exec(w, [a, b, c, d]) == Exec(w1, [b, c, d]) == Exec(w2, [c, d]) == Exec(w3, [d]) == Exec(Next(w3, d), []);
  }

  // ---- What waiting is good for ---------------------------------------------

  /** A recorded failure is older than the generation it opened. */
  predicate FailureIsPast(k: Cache) {
    k.failedGeneration.Some? ==> k.failedGeneration.value < k.generation
  }

  lemma {:induction false} FailuresArePast(w: World, steps: seq<Step>)
    requires FailureIsPast(w.cache)
    ensures FailureIsPast(Exec(w, steps).cache)
    decreases |steps|
  {
    if steps != [] {
      StepFailureIsPast(w, steps[0]);
      FailuresArePast(Next(w, steps[0]), steps[1..]);
    }
  }

  lemma StepFailureIsPast(w: World, s: Step)
    requires FailureIsPast(w.cache)
    ensures FailureIsPast(Next(w, s).cache)
  {
  }

  /** The inputs of this call moved under a scan since it arrived. */
  predicate Told(w: World, l: Local) {
    w.cache.failedGeneration.Some? && l.caller.generation <= w.cache.failedGeneration.value && w.cache.failedDigest == Some(l.caller.digest)
  }

  predicate Waits(w: World, id: Token) {
    id in w.callers && w.callers[id].phase == Waiting
  }

  predicate Scans(w: World, id: Token) {
    id in w.callers && w.callers[id].phase == Scanning
  }

  /** The call is over, and its answer is this scan. */
  predicate AnsweredBy(w: World, v: World, id: Token, digest: Token, scan: nat) {
    && id !in v.callers && v.scans == w.scans && scan < |w.scans| && |v.answers| == |w.answers| + 1 && v.answers[..|w.answers|] == w.answers
    && var a := v.answers[|w.answers|];
    a.digest == digest && a.scan == scan && a.state == w.scans[scan].state
  }

  /** One scan serves everybody: once it is published, each call that waited for the same inputs is answered by it when it wakes,
      unless those inputs had moved under an earlier scan while it waited. */
  lemma OneScanServesAll(steps: seq<Step>, scanner: Token, waiter: Token, state: Token, at: Time, now: Time, later: Time)
    requires var w := Exec(EMPTY, steps);
      && Scans(w, scanner) && Waits(w, waiter) && w.callers[scanner].caller.digest == w.callers[waiter].caller.digest
      && at <= now && w.clock <= now <= later
    ensures var w := Exec(EMPTY, steps); var v := Next(w, Publish(scanner, state, at, now)); var u := Next(v, Wake(waiter, later));
      && v.scans == w.scans + [Scan(state, w.callers[scanner].caller.digest, at)] && scanner !in v.callers
      && (if Told(w, w.callers[waiter]) then waiter !in u.callers && u.answers == v.answers
          else AnsweredBy(v, u, waiter, w.callers[waiter].caller.digest, |w.scans|))
  {
    RunKeeps(EMPTY, steps);
    var w := Exec(EMPTY, steps);
    assert GenerationExplained(w, w.callers[waiter]);
    var v := Next(w, Publish(scanner, state, at, now));
    var u := Next(v, Wake(waiter, later));
    if !Told(w, w.callers[waiter]) { assert u.answers[..|v.answers|] == v.answers; }
  }

  /** When its inputs move, a scan ends without an answer, and so does every call that waited for the same inputs. */
  lemma FailureIsTold(steps: seq<Step>, scanner: Token, waiter: Token, now: Time, later: Time)
    requires var w := Exec(EMPTY, steps);
      && Scans(w, scanner) && Waits(w, waiter) && w.callers[scanner].caller.digest == w.callers[waiter].caller.digest
      && w.clock <= now <= later
    ensures var w := Exec(EMPTY, steps); var v := Next(w, Fail(scanner, true, now)); var u := Next(v, Wake(waiter, later));
      scanner !in v.callers && v.answers == w.answers && waiter !in u.callers && u.answers == w.answers
  {
    RunKeeps(EMPTY, steps);
    assert GenerationExplained(Exec(EMPTY, steps), Exec(EMPTY, steps).callers[waiter]);
  }

  /** A new call is answered at once by the last scan if that was for its inputs and is not older than the call allows. */
  lemma RecentScanAnswers(steps: seq<Step>, id: Token, digest: Token, maximum: nat, now: Time)
    requires var w := Exec(EMPTY, steps);
      && id !in w.callers && w.clock <= now && 0 < maximum <= 300
      && w.scans != [] && w.scans[|w.scans| - 1].digest == digest && now - w.scans[|w.scans| - 1].at <= maximum
    ensures var w := Exec(EMPTY, steps); var v := Next(w, Enter(id, digest, maximum, now));
      AnsweredBy(w, v, id, digest, |w.scans| - 1) && v.cache == w.cache
  {
    RunKeeps(EMPTY, steps);
    FailuresArePast(EMPTY, steps);
    var w := Exec(EMPTY, steps);
    var v := Next(w, Enter(id, digest, maximum, now));
    assert v.answers[..|w.answers|] == w.answers;
  }

  /** A new call without such a scan scans itself if nobody else does, and otherwise waits; one that allows more than 300 seconds is refused. */
  lemma OthersScanOrWait(steps: seq<Step>, id: Token, digest: Token, maximum: nat, now: Time)
    requires var w := Exec(EMPTY, steps);
      && id !in w.callers && w.clock <= now
      && (w.scans == [] || w.scans[|w.scans| - 1].digest != digest || maximum == 0 || now - w.scans[|w.scans| - 1].at > maximum)
    ensures var w := Exec(EMPTY, steps); var v := Next(w, Enter(id, digest, maximum, now));
      && v.answers == w.answers
      && (if maximum > 300 then v == w
          else if exists other :: Scans(w, other) then Waits(v, id) && v.callers[id].caller.deadline == now + 90
          else Scans(v, id))
  {
    RunKeeps(EMPTY, steps);
    FailuresArePast(EMPTY, steps);
    var w := Exec(EMPTY, steps);
    if w.cache.refreshing {
      var other :| other in w.callers && w.callers[other].phase == Scanning;
      assert Scans(w, other);
    }
  }

  /** A call that wakes at its deadline or later is over or scans itself; one that keeps waiting does so while somebody else scans. */
  lemma DeadlineEnds(steps: seq<Step>, id: Token, now: Time)
    requires var w := Exec(EMPTY, steps); Waits(w, id) && w.clock <= now
    ensures var w := Exec(EMPTY, steps); var v := Next(w, Wake(id, now));
      Waits(v, id) ==> now < w.callers[id].caller.deadline && exists other :: Scans(v, other)
  {
    RunKeeps(EMPTY, steps);
    var w := Exec(EMPTY, steps);
    var v := Next(w, Wake(id, now));
    if Waits(v, id) {
      var other :| other in w.callers && w.callers[other].phase == Scanning;
      assert Scans(v, other);
    }
  }
}
