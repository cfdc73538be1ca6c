/**
 Whole runs of the CF domain pool: every operation in any order, selections included
 (`CFDomainPool`, native/tgwsproxy/tgwsroute/cfpool.go).
 */
module CfPoolRuns {
  import opened CfPool
  import opened CfSelection

  // ---------------------------------------------------------------------------
  // Runs
  // ---------------------------------------------------------------------------

  datatype Op =
    | Reserve(key: Key)
    | Free(key: Key)
    | Fail(key: Key, kind: Failure, latencyMs: int)
    | Succeed(key: Key, latencyMs: int)
    | Reset
    | Manuals(domains: seq<Name>)
    | Cacheds(domains: seq<Name>)
    | Builtins(domains: seq<Name>)
    | Select(dc: int)

  datatype Event = Event(now: Time, op: Op)

  function Apply(p: Pool, e: Event): Pool {
    match e.op
    case Reserve(key) => TryReserve(p, e.now, key).0
    case Free(key) => Release(p, key)
    case Fail(key, kind, latencyMs) => MarkFailure(p, e.now, key, kind, latencyMs)
    case Succeed(key, latencyMs) => MarkSuccess(p, e.now, key, latencyMs)
    case Reset => ResetCooldowns(p)
    case Manuals(domains) => SetManual(p, domains)
    case Cacheds(domains) => SetCached(p, domains)
    case Builtins(domains) => SetBuiltin(p, domains)
    case Select(dc) => Selected(p, dc)
  }

  function Run(p: Pool, events: seq<Event>): Pool
    decreases |events|
  {
    if events == [] then p else Run(Apply(p, events[0]), events[1..])
  }

  // ---------------------------------------------------------------------------
  // The invariant
  // ---------------------------------------------------------------------------

  lemma ApplyInv(p: Pool, e: Event)
    requires Inv(p)
    ensures Inv(Apply(p, e))
  {
    match e.op
    case Reserve(key) =>
      HealthOfSane(p, key, SourceOf(p, key.domain));
      PutHealth(p, Apply(p, e), key, HealthOf(p, key, SourceOf(p, key.domain)));
    case Free(_) =>
    case Fail(key, kind, latencyMs) => FailInv(p, e.now, key, kind, latencyMs);
    case Succeed(key, latencyMs) => SucceedInv(p, e.now, key, latencyMs);
    case Select(dc) => SelectedInv(p, dc);
    case Reset => ResetInv(p);
    case Manuals(domains) => ReclassifyInv(p.(manual := domains));
    case Cacheds(domains) => ReclassifyInv(p.(cached := domains));
    case Builtins(domains) => ReclassifyInv(p.(builtin := domains));
  }

  /** In every reachable pool: entries sit under their own key, a failure count is never below the
      consecutive one, and a cooldown ends 30 seconds to 6 hours after the failure that set it. */
  lemma {:induction false} RunInv(p: Pool, events: seq<Event>)
    requires Inv(p)
    ensures Inv(Run(p, events))
    decreases |events|
  {
    if events != [] {
      ApplyInv(p, events[0]);
      RunInv(Apply(p, events[0]), events[1..]);
    }
  }

  /** The same from a new pool. */
  lemma RunFromNew(events: seq<Event>)
    ensures Inv(Run(NewPool(), events))
  {
    RunInv(NewPool(), events);
  }

  // ---------------------------------------------------------------------------
  // Bursts and reservations
  // ---------------------------------------------------------------------------

  /** What may end a cooldown early: a success of the domain, a reset, or the domain leaving all lists. */
  predicate Lifts(p: Pool, op: Op, key: Key) {
    match op
    case Succeed(k, _) => k == key
    case Reset => true
    case Manuals(domains) => !Listed(p.(manual := domains), key.domain)
    case Cacheds(domains) => !Listed(p.(cached := domains), key.domain)
    case Builtins(domains) => !Listed(p.(builtin := domains), key.domain)
    case _ => false
  }

  /** The run stays inside a cooldown of the key, and nothing in it lifts that cooldown. */
  ghost predicate Inside(p: Pool, events: seq<Event>, key: Key, deadline: real)
    decreases |events|
  {
    events == [] ||
    (events[0].now < deadline && !Lifts(p, events[0].op, key)
     && Inside(Apply(p, events[0]), events[1..], key, deadline))
  }

  lemma StepInside(p: Pool, e: Event, key: Key)
    requires key in p.health && e.now < p.health[key].cooldownUntil && !Lifts(p, e.op, key)
    ensures key in Apply(p, e).health && SameRecord(p.health[key], Apply(p, e).health[key])
  {
    match e.op
    case Reserve(k) => UpdateInside(p, Apply(p, e), key, k, HealthOf(p, k, SourceOf(p, k.domain)));
    case Free(_) =>
    case Fail(k, kind, latencyMs) =>
      var h := HealthOf(p, k, SourceOf(p, k.domain));
      UpdateInside(p, Apply(p, e), key, k,
                   if e.now < h.cooldownUntil then h else FailedHealth(h, e.now, kind, latencyMs));
    case Succeed(k, latencyMs) =>
      UpdateInside(p, Apply(p, e), key, k, SucceededHealth(HealthOf(p, k, SourceOf(p, k.domain)), e.now, latencyMs));
    case Reset =>
    case Manuals(domains) => ReclassifyInside(p.(manual := domains), key);
    case Cacheds(domains) => ReclassifyInside(p.(cached := domains), key);
    case Builtins(domains) => ReclassifyInside(p.(builtin := domains), key);
    case Select(dc) => GatheredEntries(p, dc, ItemsFor(p, dc), key);
  }

  /** The number of reservations of the key granted in a run. */
  function Granted(p: Pool, events: seq<Event>, key: Key): nat
    decreases |events|
  {
    if events == [] then 0
    else
      (if events[0].op == Reserve(key) && TryReserve(p, events[0].now, key).1 then 1 else 0)
      + Granted(Apply(p, events[0]), events[1..], key)
  }

  /** Whatever happens inside a cooldown, further failures of the same domain among it: counts, reason
      and deadline stay as the first failure left them, and no reservation is granted. */
  lemma {:induction false} BurstCoalesces(p: Pool, events: seq<Event>, key: Key)
    requires key in p.health && Inside(p, events, key, p.health[key].cooldownUntil)
    ensures key in Run(p, events).health && SameRecord(p.health[key], Run(p, events).health[key])
    ensures Granted(p, events, key) == 0
    decreases |events|
  {
    if events != [] {
      StepInside(p, events[0], key);
      ReserveIff(p, events[0].now, key);
      BurstCoalesces(Apply(p, events[0]), events[1..], key);
    }
  }

  /** Nothing but a release, a recorded failure, or its domain leaving all lists ends a reservation. */
  lemma ReservationKept(p: Pool, e: Event, key: Key)
    requires key in p.inFlight && key !in Apply(p, e).inFlight
    ensures e.op == Free(key) || (e.op.Fail? && e.op.key == key)
            || ((e.op.Manuals? || e.op.Cacheds? || e.op.Builtins?) && !Listed(Apply(p, e), key.domain))
  {
  }
}
