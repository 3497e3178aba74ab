/** Budgets of autonomy_limits.py: one ledger, its policy and the hold that stops further commands. */
module Autonomy {
  import opened Common

  /** Microseconds. */
  type Time = int

  const SECOND: int := 1_000_000
  const MAX_DISPOSITIONS: nat := 32

  datatype Trigger = ElapsedTime | Retries | Commands | DiffSize | Cost | SideEffects

  /** The limits of a tracked policy file; its digest identifies them. */
  datatype Policy = Policy(
    elapsed: Option<nat>, retries: Option<nat>, commands: Option<nat>,
    diff: Option<nat>, cost: Option<nat>, effects: Option<nat>)

  datatype Hold = Hold(trigger: Trigger, observed: int, limit: int, heldAt: Time, revision: nat)

  datatype Disposition = Disposition(heldRevision: nat, revision: nat, reason: Token, recordedAt: Time)

  datatype Ledger = Ledger(
    policy: Policy, startedAt: Time, commands: nat, retries: nat, cost: nat, effects: nat,
    hold: Option<Hold>, dispositions: seq<Disposition>)

  /** `int(timedelta.total_seconds())`: towards zero. */
  function Seconds(d: Time): int {
    if d >= 0 then d / SECOND else -((-d) / SECOND)
  }

  /** `metadata_error`: a hold is fenced to the task's revision. */
  predicate Valid(l: Ledger, revision: nat) {
    && |l.dispositions| <= MAX_DISPOSITIONS
    && (l.hold.Some? ==> l.hold.value.revision == revision)
  }

  predicate Reached(observed: int, limit: Option<nat>) {
    limit.Some? && observed >= limit.value
  }

  /** `_breach`: the first limit reached, in the order of the policy's names. */
  function Breach(l: Ledger, now: Time, diff: nat, revision: nat): Option<Hold> {
    var p := l.policy;
    var elapsed := Seconds(now - l.startedAt);
    if Reached(elapsed, p.elapsed) then Some(Hold(ElapsedTime, elapsed, p.elapsed.value, now, revision))
    else if Reached(l.retries, p.retries) then Some(Hold(Retries, l.retries, p.retries.value, now, revision))
    else if Reached(l.commands, p.commands) then Some(Hold(Commands, l.commands, p.commands.value, now, revision))
    else if Reached(diff, p.diff) then Some(Hold(DiffSize, diff, p.diff.value, now, revision))
    else if Reached(l.cost, p.cost) then Some(Hold(Cost, l.cost, p.cost.value, now, revision))
    else if Reached(l.effects, p.effects) then Some(Hold(SideEffects, l.effects, p.effects.value, now, revision))
    else None
  }

  /** `_state`: the task's ledger, started now if there is none. */
  function State(current: Option<Ledger>, policy: Policy, revision: nat, now: Time): Result<Ledger> {
    var l := if current.Some? then current.value else Ledger(policy, now, 0, 0, 0, 0, None, []);
    if Valid(l, revision) && l.policy == policy then Ok(l) else Err(ConflictingInput)
  }

  /** `apply_preflight`. */
  function Preflight(current: Option<Ledger>, policy: Policy, revision: nat, now: Time, diff: nat): Result<Ledger> {
    match State(current, policy, revision, now)
    case Err(e) => Err(e)
    case Ok(l) =>
      if l.hold.Some? then Err(Denied) else Ok(l.(hold := Breach(l, now, diff, revision + 1)))
  }

  /** What one completed command adds. */
  function Charged(l: Ledger, failed: bool, cost: nat, effect: bool): Ledger {
    l.(commands := l.commands + 1,
       retries := l.retries + (if failed then 1 else 0),
       cost := l.cost + cost,
       effects := l.effects + (if effect then 1 else 0))
  }

  /** `apply_record`. */
  function Record(current: Option<Ledger>, policy: Policy, revision: nat, now: Time, diff: nat, failed: bool, cost: int, effect: bool): Result<Ledger> {
    match State(current, policy, revision, now)
    case Err(e) => Err(e)
    case Ok(l) =>
      if cost < 0 then Err(InvalidInput)
      else
        var charged := Charged(l, failed, cost, effect);
        Ok(if charged.hold.None? then charged.(hold := Breach(charged, now, diff, revision + 1)) else charged)
  }

  /** `[...][-32:]`. */
  function LastOf<T>(s: seq<T>, n: nat): seq<T> {
    if |s| <= n then s else s[|s| - n..]
  }

  /** `apply_dispose`, the part on the ledger. */
  function Dispose(current: Option<Ledger>, revision: nat, reason: Token, now: Time): Result<Ledger> {
    if current.None? || !Valid(current.value, revision) || current.value.hold.None? then Err(NotInPhase)
    else
      var l := current.value;
      Ok(l.(dispositions := LastOf(l.dispositions + [Disposition(l.hold.value.revision, revision + 1, reason, now)], MAX_DISPOSITIONS), hold := None))
  }

  /** `carry_run_hold`: the final update of a run moves its hold to the revision it creates. */
  function Carry(current: Option<Ledger>, revision: nat): Option<Ledger> {
    if current.Some? && current.value.hold.Some?
    then Some(current.value.(hold := Some(current.value.hold.value.(revision := revision + 1))))
    else current
  }

  // ---- What the ledger shows ------------------------------------------------

  /** The policy's names, in the order in which limits are tried. */
  function Place(t: Trigger): nat {
    match t
    case ElapsedTime => 0
    case Retries => 1
    case Commands => 2
    case DiffSize => 3
    case Cost => 4
    case SideEffects => 5
  }

  function LimitOf(p: Policy, t: Trigger): Option<nat> {
    match t
    case ElapsedTime => p.elapsed
    case Retries => p.retries
    case Commands => p.commands
    case DiffSize => p.diff
    case Cost => p.cost
    case SideEffects => p.effects
  }

  /** A limit is used up: the counter is at it, or that many whole seconds have gone by. */
  predicate UsedUp(l: Ledger, t: Trigger, now: Time, diff: nat) {
    LimitOf(l.policy, t).Some? &&
      var limit := LimitOf(l.policy, t).value;
      match t
      case ElapsedTime => if limit == 0 then now - l.startedAt > -1_000_000 else now - l.startedAt >= limit * 1_000_000
      case Retries => l.retries >= limit
      case Commands => l.commands >= limit
      case DiffSize => diff >= limit
      case Cost => l.cost >= limit
      case SideEffects => l.effects >= limit
  }

  /** This hold stands for the first limit used up. */
  ghost predicate HeldFor(h: Hold, l: Ledger, now: Time, diff: nat, revision: nat) {
    && h.heldAt == now && h.revision == revision
    && UsedUp(l, h.trigger, now, diff) && LimitOf(l.policy, h.trigger) == Some(h.limit)
    && (match h.trigger
        case ElapsedTime => h.observed * 1_000_000 <= now - l.startedAt + (if now < l.startedAt then 1_000_000 else 0) && now - l.startedAt < (h.observed + 1) * 1_000_000
        case Retries => h.observed == l.retries
        case Commands => h.observed == l.commands
        case DiffSize => h.observed == diff
        case Cost => h.observed == l.cost
        case SideEffects => h.observed == l.effects)
    && forall t :: Place(t) < Place(h.trigger) ==> !UsedUp(l, t, now, diff)
  }

  /** A hold is due exactly if some limit is used up, and it is for the first of them. */
  lemma BreachIff(l: Ledger, now: Time, diff: nat, revision: nat)
    ensures Breach(l, now, diff, revision).None? <==> forall t :: !UsedUp(l, t, now, diff)
    ensures Breach(l, now, diff, revision).Some? ==> HeldFor(Breach(l, now, diff, revision).value, l, now, diff, revision)
  {
    SecondsReached(now - l.startedAt, if l.policy.elapsed.Some? then l.policy.elapsed.value else 0);
    assert UsedUp(l, ElapsedTime, now, diff) <==> Reached(Seconds(now - l.startedAt), l.policy.elapsed);
    assert UsedUp(l, Retries, now, diff) <==> Reached(l.retries, l.policy.retries);
    assert UsedUp(l, Commands, now, diff) <==> Reached(l.commands, l.policy.commands);
    assert UsedUp(l, DiffSize, now, diff) <==> Reached(diff, l.policy.diff);
    assert UsedUp(l, Cost, now, diff) <==> Reached(l.cost, l.policy.cost);
    assert UsedUp(l, SideEffects, now, diff) <==> Reached(l.effects, l.policy.effects);
  }

  lemma SecondsReached(d: Time, limit: nat)
    ensures Seconds(d) >= limit <==> (if limit == 0 then d > -1_000_000 else d >= limit * 1_000_000)
    ensures Seconds(d) * 1_000_000 <= d + (if d < 0 then 1_000_000 else 0) && d < (Seconds(d) + 1) * 1_000_000
  {
  }

  /** The ledger a call works on: the task's, or one that starts now. */
  predicate Opens(l: Ledger, current: Option<Ledger>, policy: Policy, now: Time) {
    if current.Some? then l == current.value
    else l.policy == policy && l.startedAt == now && l.commands == l.retries == l.cost == l.effects == 0 && l.hold == None && l.dispositions == []
  }

  /** A ledger that is stale, too long, or of another policy answers nobody. */
  predicate Usable(current: Option<Ledger>, policy: Policy, revision: nat) {
    current.Some? ==>
      && current.value.policy == policy && |current.value.dispositions| <= 32
      && (current.value.hold.Some? ==> current.value.hold.value.revision == revision)
  }

  /** A preflight is admitted exactly on a usable ledger without a hold, and changes nothing but to hold the task when a limit is used up. */
  lemma PreflightEffect(current: Option<Ledger>, policy: Policy, revision: nat, now: Time, diff: nat)
    ensures var r := Preflight(current, policy, revision, now, diff);
      && (r.Ok? <==> Usable(current, policy, revision) && (current.Some? ==> current.value.hold.None?))
      && (r == Err(Denied) <==> Usable(current, policy, revision) && current.Some? && current.value.hold.Some?)
      && (r.Ok? ==> Opens(r.value.(hold := None), current, policy, now))
      && (r.Ok? ==> if r.value.hold.None? then forall t :: !UsedUp(r.value, t, now, diff) else HeldFor(r.value.hold.value, r.value.(hold := None), now, diff, revision + 1))
  {
    var r := Preflight(current, policy, revision, now, diff);
    if r.Ok? { BreachIff(r.value.(hold := None), now, diff, revision + 1); }
    if r.Ok? { forall t ensures UsedUp(r.value, t, now, diff) <==> UsedUp(r.value.(hold := None), t, now, diff) {} }
  }

  /** A record charges one command and what it reports; it keeps a hold, and otherwise holds the task when a limit is used up. */
  lemma RecordEffect(current: Option<Ledger>, policy: Policy, revision: nat, now: Time, diff: nat, failed: bool, cost: int, effect: bool, l: Ledger)
    requires Opens(l, current, policy, now)
    ensures var r := Record(current, policy, revision, now, diff, failed, cost, effect);
      && (r.Ok? <==> Usable(current, policy, revision) && cost >= 0)
      && (r.Ok? ==>
        && r.value.commands == l.commands + 1 && r.value.cost == l.cost + cost
        && r.value.retries == (if failed then l.retries + 1 else l.retries) && r.value.effects == (if effect then l.effects + 1 else l.effects)
        && r.value.policy == policy && r.value.startedAt == l.startedAt && r.value.dispositions == l.dispositions
        && (if l.hold.Some? then r.value.hold == l.hold
            else if r.value.hold.None? then forall t :: !UsedUp(r.value, t, now, diff)
            else HeldFor(r.value.hold.value, r.value.(hold := None), now, diff, revision + 1)))
  {
    var r := Record(current, policy, revision, now, diff, failed, cost, effect);
    if r.Ok? && l.hold.None? {
      BreachIff(r.value.(hold := None), now, diff, revision + 1);
      forall t ensures UsedUp(r.value, t, now, diff) <==> UsedUp(r.value.(hold := None), t, now, diff) {}
    }
  }

  /** A disposition lifts a current hold and is added at the end; of more than 32 the oldest is dropped. Nothing else changes. */
  lemma DisposeEffect(current: Option<Ledger>, revision: nat, reason: Token, now: Time)
    ensures var r := Dispose(current, revision, reason, now);
      && (r.Ok? <==> current.Some? && |current.value.dispositions| <= 32 && current.value.hold.Some? && current.value.hold.value.revision == revision)
      && (r.Ok? ==>
        var before := current.value.dispositions; var added := Disposition(revision, revision + 1, reason, now);
        && r.value == current.value.(hold := None, dispositions := r.value.dispositions)
        && r.value.dispositions == (if |before| < 32 then before else before[1..]) + [added])
  {
  }

  /** The final update of a run moves a hold to the next revision and changes nothing else. */
  lemma CarryEffect(current: Option<Ledger>, revision: nat)
    ensures var r := Carry(current, revision);
      && (r.Some? <==> current.Some?)
      && (r.Some? && r.value.hold.None? ==> r == current)
      && (r.Some? && r.value.hold.Some? ==>
        && current.value.hold.Some? && r.value.hold.value.revision == revision + 1
        && r.value.(hold := Some(r.value.hold.value.(revision := current.value.hold.value.revision))) == current.value)
  {
  }
}
