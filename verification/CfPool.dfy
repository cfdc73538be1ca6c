/**
 The CF domain pool: reservations, failure bursts and cooldowns
 (`CFDomainPool`, native/tgwsproxy/tgwsroute/cfpool.go).

 Operations are functions on the pool's value; the class in CfDomainPool.dfy is proved to be them.
 Time is a real number passed in where the code asks its clock. Domain names are what
 `NormalizeCFDomain` returned.
 */
module CfPool {
  import opened ByteStreams

  type Name = s: string | s != "" witness "a"

  /** Seconds since 1970. */
  type Time = t: real | t >= 0.0

  datatype Source = Manual | CachedUpstream | BuiltIn

  datatype Failure = Unknown | Dns | RateLimit | Forbidden | Server | Timeout | Tls | WebSocket

  datatype Key = Key(dc: int, domain: Name)

  datatype Health = Health(
    dc: int,
    domain: Name,
    source: Source,
    successCount: int,
    failureCount: int,
    consecutive: int,
    lastSuccessAt: real,
    lastFailureAt: real,
    lastFailureReason: Option<Failure>,
    cooldownUntil: real,
    lastLatencyMs: int)

  datatype Pool = Pool(
    manual: seq<Name>,
    cached: seq<Name>,
    builtin: seq<Name>,
    health: map<Key, Health>,
    inFlight: set<Key>,
    preferred: map<int, Name>,
    selections: map<int, nat>,
    cachedCursor: nat,
    builtinCursor: nat)

  const DNS_COOLDOWN: real := 21600.0

  // ---------------------------------------------------------------------------
  // Operations
  // ---------------------------------------------------------------------------

  predicate Listed(p: Pool, d: Name) {
    d in p.manual || d in p.cached || d in p.builtin
  }

  function SourceOf(p: Pool, d: Name): Source {
    if d in p.manual then Manual else if d in p.cached then CachedUpstream else BuiltIn
  }

  function NewHealth(key: Key, source: Source): Health {
    Health(key.dc, key.domain, source, 0, 0, 0, 0.0, 0.0, None, 0.0, 0)
  }

  /** `ensureHealthLocked`: the entry of a key, made if missing, with its source brought up to date. */
  function HealthOf(p: Pool, key: Key, source: Source): Health {
    if key in p.health then p.health[key].(source := source) else NewHealth(key, source)
  }

  function CooldownSeconds(kind: Failure, consecutive: int): real {
    var progressive := if consecutive >= 3 then 300.0 else if consecutive == 2 then 120.0 else 30.0;
    match kind
    case Dns => MaxReal(progressive, 120.0)
    case RateLimit => MaxReal(progressive, 300.0)
    case Forbidden => MaxReal(progressive, 600.0)
    case Server => MaxReal(progressive, 120.0)
    case _ => progressive
  }

  function MaxReal(a: real, b: real): real {
    if a > b then a else b
  }

  function BurstCooldown(kind: Failure, source: Source, consecutive: int): real {
    if source == CachedUpstream && kind == Dns then DNS_COOLDOWN else CooldownSeconds(kind, consecutive)
  }

  function TryReserve(p: Pool, now: Time, key: Key): (Pool, bool) {
    var health := HealthOf(p, key, SourceOf(p, key.domain));
    var q := p.(health := p.health[key := health]);
    if now < health.cooldownUntil || key in p.inFlight then (q, false)
    else (q.(inFlight := p.inFlight + {key}), true)
  }

  function Release(p: Pool, key: Key): Pool {
    p.(inFlight := p.inFlight - {key})
  }

  function FailedHealth(h: Health, now: Time, kind: Failure, latencyMs: int): Health {
    h.(failureCount := h.failureCount + 1,
       consecutive := h.consecutive + 1,
       lastFailureAt := now,
       lastFailureReason := Some(kind),
       lastLatencyMs := if latencyMs > 0 then latencyMs else h.lastLatencyMs,
       cooldownUntil := now + BurstCooldown(kind, h.source, h.consecutive + 1))
  }

  function MarkFailure(p: Pool, now: Time, key: Key, kind: Failure, latencyMs: int): Pool {
    var h := HealthOf(p, key, SourceOf(p, key.domain));
    p.(health := p.health[key := if now < h.cooldownUntil then h else FailedHealth(h, now, kind, latencyMs)],
       inFlight := p.inFlight - {key})
  }

  function SucceededHealth(h: Health, now: Time, latencyMs: int): Health {
    h.(successCount := h.successCount + 1,
       consecutive := 0,
       lastSuccessAt := now,
       cooldownUntil := 0.0,
       lastLatencyMs := if latencyMs > 0 then latencyMs else h.lastLatencyMs)
  }

  function MarkSuccess(p: Pool, now: Time, key: Key, latencyMs: int): Pool {
    var h := HealthOf(p, key, SourceOf(p, key.domain));
    p.(health := p.health[key := SucceededHealth(h, now, latencyMs)],
       preferred := p.preferred[key.dc := key.domain])
  }

  function ResetCooldowns(p: Pool): Pool {
    p.(health := map key | key in p.health :: p.health[key].(cooldownUntil := 0.0, consecutive := 0))
  }

  /** `reclassifyRemovedDomainsLocked`: what is no longer listed is forgotten, reservations included. */
  function Reclassify(p: Pool): Pool {
    p.(health := map key | key in p.health && Listed(p, key.domain) ::
                   p.health[key].(source := SourceOf(p, key.domain)),
       inFlight := set key | key in p.inFlight && Listed(p, key.domain))
  }

  function SetManual(p: Pool, domains: seq<Name>): Pool {
    Reclassify(p.(manual := domains))
  }

  function SetCached(p: Pool, domains: seq<Name>): Pool {
    Reclassify(p.(cached := domains))
  }

  function SetBuiltin(p: Pool, domains: seq<Name>): Pool {
    Reclassify(p.(builtin := domains))
  }

  function NewPool(): Pool {
    Pool([], [], [], map[], {}, map[], map[], 0, 0)
  }

  function SelectionsOf(p: Pool, dc: int): nat {
    if dc in p.selections then p.selections[dc] else 0
  }

  // ---------------------------------------------------------------------------
  // Cooldowns
  // ---------------------------------------------------------------------------

  /** A counted burst stops a domain for 30 seconds to 6 hours, for longer the more failures came before. */
  lemma CooldownBounds(kind: Failure, source: Source, m: int, n: int)
    requires m <= n
    ensures 30.0 <= BurstCooldown(kind, source, m) <= BurstCooldown(kind, source, n) <= 21600.0
    ensures BurstCooldown(kind, source, n) <= 600.0 || (source == CachedUpstream && kind == Dns)
  {
  }

  /** How long a counted failure stops a domain: 30, 120 or 300 seconds by the length of its row of failures,
      but no less than its kind asks for, and no more than either. */
  lemma CooldownIs(kind: Failure, n: int)
    ensures var c := CooldownSeconds(kind, n);
            && c in {30.0, 120.0, 300.0, 600.0}
            && (c >= 600.0 <==> kind == Forbidden)
            && (c >= 300.0 <==> n >= 3 || kind in {RateLimit, Forbidden})
            && (c >= 120.0 <==> n >= 2 || kind in {Dns, Server, RateLimit, Forbidden})
    ensures forall source ::
              BurstCooldown(kind, source, n) ==
              if source == CachedUpstream && kind == Dns then 6.0 * 3600.0 else CooldownSeconds(kind, n)
  {
  }

  /** A domain belongs to the first of the three lists that has it, and to the built-in ones if none has. */
  lemma SourceIs(p: Pool, d: Name)
    ensures SourceOf(p, d) == Manual <==> d in p.manual
    ensures SourceOf(p, d) == CachedUpstream <==> d in p.cached && d !in p.manual
    ensures SourceOf(p, d) == BuiltIn <==> d !in p.manual && d !in p.cached
  {
  }

  /** An entry keeps its record and takes the source it is asked for; a new one has no record. */
  lemma HealthIs(p: Pool, key: Key, source: Source)
    ensures HealthOf(p, key, source).source == source
    ensures key in p.health ==> SameRecord(p.health[key], HealthOf(p, key, source))
    ensures key !in p.health ==>
              var h := HealthOf(p, key, source);
              && h.dc == key.dc && h.domain == key.domain && h.lastFailureReason == None
              && h.successCount == h.failureCount == h.consecutive == h.lastLatencyMs == 0
              && h.lastSuccessAt == h.lastFailureAt == h.cooldownUntil == 0.0
  {
  }

  ghost predicate SaneHealth(key: Key, h: Health) {
    && h.dc == key.dc && h.domain == key.domain
    && h.failureCount >= h.consecutive >= 0 && h.successCount >= 0
    && (h.cooldownUntil != 0.0 ==> h.consecutive > 0 && h.lastFailureReason.Some?
                                   && h.lastFailureAt + 30.0 <= h.cooldownUntil <= h.lastFailureAt + 21600.0)
  }

  ghost predicate Inv(p: Pool) {
    forall key :: key in p.health ==> SaneHealth(key, p.health[key])
  }

  lemma HealthOfSane(p: Pool, key: Key, source: Source)
    requires Inv(p)
    ensures SaneHealth(key, HealthOf(p, key, source))
  {
  }

  lemma FailedHealthSane(key: Key, h: Health, now: Time, kind: Failure, latencyMs: int)
    requires SaneHealth(key, h)
    ensures SaneHealth(key, FailedHealth(h, now, kind, latencyMs))
  {
    CooldownBounds(kind, h.source, h.consecutive + 1, h.consecutive + 1);
  }

  lemma PutHealth(p: Pool, q: Pool, key: Key, h: Health)
    requires Inv(p) && SaneHealth(key, h) && q.health == p.health[key := h]
    ensures Inv(q)
  {
  }

  lemma FailInv(p: Pool, now: Time, key: Key, kind: Failure, latencyMs: int)
    requires Inv(p)
    ensures Inv(MarkFailure(p, now, key, kind, latencyMs))
  {
    var h := HealthOf(p, key, SourceOf(p, key.domain));
    HealthOfSane(p, key, SourceOf(p, key.domain));
    FailedHealthSane(key, h, now, kind, latencyMs);
    PutHealth(p, MarkFailure(p, now, key, kind, latencyMs), key,
              if now < h.cooldownUntil then h else FailedHealth(h, now, kind, latencyMs));
  }

  lemma SucceedInv(p: Pool, now: Time, key: Key, latencyMs: int)
    requires Inv(p)
    ensures Inv(MarkSuccess(p, now, key, latencyMs))
  {
    var h := HealthOf(p, key, SourceOf(p, key.domain));
    HealthOfSane(p, key, SourceOf(p, key.domain));
    PutHealth(p, MarkSuccess(p, now, key, latencyMs), key, SucceededHealth(h, now, latencyMs));
  }

  lemma ResetInv(p: Pool)
    requires Inv(p)
    ensures Inv(ResetCooldowns(p))
  {
  }

  lemma ReclassifyInv(p: Pool)
    requires Inv(p)
    ensures Inv(Reclassify(p))
  {
  }

  // ---------------------------------------------------------------------------
  // Bursts
  // ---------------------------------------------------------------------------

  /** Equal but for the source, which follows the lists. */
  predicate SameRecord(a: Health, b: Health) {
    a.(source := b.source) == b
  }

  /** The entries of all keys but one are the same. */
  ghost predicate OthersKept(p: Pool, q: Pool, key: Key) {
    forall other :: other != key ==>
      (other in q.health <==> other in p.health) && (other in p.health ==> q.health[other] == p.health[other])
  }

  lemma UpdateInside(p: Pool, q: Pool, key: Key, k: Key, h: Health)
    requires key in p.health && q.health == p.health[k := h] && (k == key ==> SameRecord(p.health[key], h))
    ensures key in q.health && SameRecord(p.health[key], q.health[key])
  {
  }

  lemma ReclassifyInside(p: Pool, key: Key)
    requires key in p.health && Listed(p, key.domain)
    ensures key in Reclassify(p).health && SameRecord(p.health[key], Reclassify(p).health[key])
  {
  }

  /** A failure outside a cooldown is counted, starts one, and gives the reservation back; it leaves the
      successes and every other domain alone. */
  lemma FailureCounted(p: Pool, now: Time, key: Key, kind: Failure, latencyMs: int)
    requires key in p.health ==> p.health[key].cooldownUntil <= now
    ensures var q := MarkFailure(p, now, key, kind, latencyMs);
            var before := HealthOf(p, key, SourceOf(p, key.domain));
            && key in q.health && q.inFlight == p.inFlight - {key}
            && q.health[key].failureCount == before.failureCount + 1
            && q.health[key].consecutive == before.consecutive + 1
            && q.health[key].lastFailureAt == now && q.health[key].lastFailureReason == Some(kind)
            && q.health[key].cooldownUntil == now + BurstCooldown(kind, before.source, before.consecutive + 1)
            && now + 30.0 <= q.health[key].cooldownUntil <= now + 21600.0
            && q.health[key].lastLatencyMs == (if latencyMs > 0 then latencyMs else before.lastLatencyMs)
            && q.health[key].successCount == before.successCount && q.health[key].lastSuccessAt == before.lastSuccessAt
            && q.health[key].source == before.source && q.preferred == p.preferred
            && (forall t: Time :: now <= t < q.health[key].cooldownUntil ==> !TryReserve(q, t, key).1)
            && OthersKept(p, q, key)
  {
    var before := HealthOf(p, key, SourceOf(p, key.domain));
    CooldownBounds(kind, before.source, before.consecutive + 1, before.consecutive + 1);
  }

  /** A success is counted, ends the cooldown and the row of failures, and makes the domain the preferred one;
      it keeps the failures on record, and every other domain and all reservations as they are. */
  lemma SuccessCounted(p: Pool, now: Time, key: Key, latencyMs: int)
    ensures var q := MarkSuccess(p, now, key, latencyMs);
            var before := HealthOf(p, key, SourceOf(p, key.domain));
            && key in q.health && q.inFlight == p.inFlight
            && q.health[key].successCount == before.successCount + 1 && q.health[key].lastSuccessAt == now
            && q.health[key].consecutive == 0 && q.health[key].cooldownUntil == 0.0
            && q.health[key].lastLatencyMs == (if latencyMs > 0 then latencyMs else before.lastLatencyMs)
            && q.health[key].failureCount == before.failureCount && q.health[key].lastFailureAt == before.lastFailureAt
            && q.health[key].lastFailureReason == before.lastFailureReason && q.health[key].source == before.source
            && q.preferred == p.preferred[key.dc := key.domain]
            && (key !in p.inFlight ==> forall t: Time :: TryReserve(q, t, key).1)
            && OthersKept(p, q, key)
  {
  }

  /** From a new pool the selections of a data centre are counted one by one; nothing else counts. */
  lemma NewPoolIsEmpty(key: Key, now: Time)
    ensures TryReserve(NewPool(), now, key).1 && SelectionsOf(NewPool(), key.dc) == 0
    ensures forall d :: !Listed(NewPool(), d)
    ensures NewPool().cachedCursor == NewPool().builtinCursor == 0
  {
  }

  // ---------------------------------------------------------------------------
  // Reservations
  // ---------------------------------------------------------------------------

  /** A reservation is granted exactly outside cooldown and when nobody holds one, and then it is held. */
  lemma ReserveIff(p: Pool, now: Time, key: Key)
    ensures var (q, granted) := TryReserve(p, now, key);
            && (granted <==> key !in p.inFlight && (key in p.health ==> p.health[key].cooldownUntil <= now))
            && q.inFlight == (if granted then p.inFlight + {key} else p.inFlight)
            && (granted ==> !TryReserve(q, now, key).1)
  {
  }
}
