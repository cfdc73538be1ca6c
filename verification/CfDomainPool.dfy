/** The pool object (`CFDomainPool`, native/tgwsproxy/tgwsroute/cfpool.go). */
module CfDomainPool {
  import opened ByteStreams
  import opened CfPool
  import opened CfSelection

  /** A domain argument is what `NormalizeCFDomain` makes of the caller's string: None if it refuses it. */
  class CFDomainPool {
    var manual: seq<Name>
    var cachedUpstream: seq<Name>
    var builtin: seq<Name>
    var health: map<Key, Health>
    var inFlight: set<Key>
    var dcPreferred: map<int, Name>
    var selectionCount: map<int, nat>
    var cachedCursor: nat
    var builtinCursor: nat

    function Value(): Pool reads this {
      Pool(manual, cachedUpstream, builtin, health, inFlight, dcPreferred, selectionCount, cachedCursor, builtinCursor)
    }

    constructor ()
      ensures Value() == NewPool()
    {
      manual, cachedUpstream, builtin := [], [], [];
      health, inFlight, dcPreferred, selectionCount := map[], {}, map[], map[];
      cachedCursor, builtinCursor := 0, 0;
    }

    method SetManualDomains(domains: seq<Name>)
      modifies this
      ensures Value() == SetManual(old(Value()), domains)
    {
      manual := domains;
      ReclassifyRemovedDomains();
    }

    method SetCachedUpstreamDomains(domains: seq<Name>)
      modifies this
      ensures Value() == SetCached(old(Value()), domains)
    {
      cachedUpstream := domains;
      ReclassifyRemovedDomains();
    }

    method SetBuiltinDomains(domains: seq<Name>)
      modifies this
      ensures Value() == SetBuiltin(old(Value()), domains)
    {
      builtin := domains;
      ReclassifyRemovedDomains();
    }

    /** One pass over the entries, in whatever order the map yields them, then one over the reservations. */
    method ReclassifyRemovedDomains()
      modifies `health, `inFlight
      ensures Value() == Reclassify(old(Value()))
    {
      ghost var p := Value();
      var keys := health.Keys;
      while keys != {}
        invariant Value() == p.(health := health, inFlight := inFlight)
        invariant Swept(p, health, inFlight, keys)
        decreases |keys|
      {
        var key :| key in keys;
        ReclassifyKey(p, keys, key);
        keys := keys - {key};
      }
      DropUnlisted(p);
    }

    method DropUnlisted(ghost p: Pool)
      requires Value() == p.(health := health, inFlight := inFlight) && Swept(p, health, inFlight, {})
      modifies `inFlight
      ensures health == Reclassify(p).health && inFlight == Reclassify(p).inFlight
    {
      SweptAll(p, health, inFlight);
      inFlight := set key | key in inFlight
        && (key.domain in manual || key.domain in cachedUpstream || key.domain in builtin);
    }

    method ReclassifyKey(ghost p: Pool, ghost keys: set<Key>, key: Key)
      requires Value() == p.(health := health, inFlight := inFlight)
      requires key in keys && Swept(p, health, inFlight, keys)
      modifies `health, `inFlight
      ensures Swept(p, health, inFlight, keys - {key})
    {
      SweepKey(p, health, inFlight, keys, key);
      ReclassifyEntry(key);
    }

    method ReclassifyEntry(key: Key)
      requires key in health
      modifies `health, `inFlight
      ensures health == if Listed(old(Value()), key.domain)
                        then old(health)[key := old(health)[key].(source := SourceOf(old(Value()), key.domain))]
                        else old(health) - {key}
      ensures inFlight == if Listed(old(Value()), key.domain) then old(inFlight) else old(inFlight) - {key}
    {
      if key.domain in manual {
        health := health[key := health[key].(source := Manual)];
      } else if key.domain in cachedUpstream {
        health := health[key := health[key].(source := CachedUpstream)];
      } else if key.domain in builtin {
        health := health[key := health[key].(source := BuiltIn)];
      } else {
        health := health - {key};
        inFlight := inFlight - {key};
      }
    }

    method EnsureHealth(key: Key, source: Source)
      modifies `health
      ensures health == old(health)[key := HealthOf(old(Value()), key, source)]
    {
      if key in health {
        health := health[key := health[key].(source := source)];
      } else {
        health := health[key := NewHealth(key, source)];
      }
    }

    method Reserve(now: Time, dc: int, domain: Option<Name>) returns (granted: bool)
      modifies `health, `inFlight
      ensures match domain
              case None => !granted && Value() == old(Value())
              case Some(d) => TryReserve(old(Value()), now, Key(dc, d)) == (Value(), granted)
    {
      if domain == None {
        return false;
      }
      var key := Key(dc, domain.value);
      EnsureHealth(key, SourceOf(Value(), domain.value));
      if now < health[key].cooldownUntil {
        return false;
      }
      if key in inFlight {
        return false;
      }
      inFlight := inFlight + {key};
      granted := true;
    }

    method ReleaseReservation(dc: int, domain: Option<Name>)
      modifies `inFlight
      ensures Value() == match domain case None => old(Value()) case Some(d) => Release(old(Value()), Key(dc, d))
    {
      if domain == None {
        return;
      }
      inFlight := inFlight - {Key(dc, domain.value)};
    }

    method RecordFailure(now: Time, dc: int, domain: Option<Name>, kind: Failure, latencyMs: int)
      returns (r: Option<Health>)
      modifies `health, `inFlight
      ensures match domain
              case None => r == None && Value() == old(Value())
              case Some(d) => Value() == MarkFailure(old(Value()), now, Key(dc, d), kind, latencyMs)
                              && r == Some(Value().health[Key(dc, d)])
    {
      if domain == None {
        return None;
      }
      var key := Key(dc, domain.value);
      EnsureHealth(key, SourceOf(Value(), domain.value));
      var h := health[key];
      if now < h.cooldownUntil {
        inFlight := inFlight - {key};
        return Some(h);
      }
      h := CountFailure(h, now, kind, latencyMs);
      health := health[key := h];
      inFlight := inFlight - {key};
      assert health == old(health)[key := h];
      r := Some(h);
    }

    static method CountFailure(before: Health, now: Time, kind: Failure, latencyMs: int) returns (h: Health)
      ensures h == FailedHealth(before, now, kind, latencyMs)
    {
      h := before.(failureCount := before.failureCount + 1, consecutive := before.consecutive + 1,
                   lastFailureAt := now, lastFailureReason := Some(kind));
      if latencyMs > 0 {
        h := h.(lastLatencyMs := latencyMs);
      }
      h := h.(cooldownUntil := now + CooldownSeconds(kind, h.consecutive));
      if before.source == CachedUpstream && kind == Dns {
        h := h.(cooldownUntil := now + DNS_COOLDOWN);
      }
    }

    method RecordSuccess(now: Time, dc: int, domain: Option<Name>, latencyMs: int) returns (r: Option<Health>)
      modifies `health, `dcPreferred
      ensures match domain
              case None => r == None && Value() == old(Value())
              case Some(d) => Value() == MarkSuccess(old(Value()), now, Key(dc, d), latencyMs)
                              && r == Some(Value().health[Key(dc, d)])
    {
      if domain == None {
        return None;
      }
      var key := Key(dc, domain.value);
      EnsureHealth(key, SourceOf(Value(), domain.value));
      var h := health[key];
      h := h.(successCount := h.successCount + 1, consecutive := 0, lastSuccessAt := now, cooldownUntil := 0.0);
      if latencyMs > 0 {
        h := h.(lastLatencyMs := latencyMs);
      }
      health := health[key := h];
      dcPreferred := dcPreferred[dc := domain.value];
      r := Some(h);
    }

    method ResetAllCooldowns()
      modifies `health
      ensures Value() == ResetCooldowns(old(Value()))
    {
      ghost var p := Value();
      var keys := health.Keys;
      while keys != {}
        invariant keys <= p.health.Keys && health.Keys == p.health.Keys
        invariant forall key :: key in health ==>
                    health[key] == if key in keys then p.health[key]
                                   else p.health[key].(cooldownUntil := 0.0, consecutive := 0)
        decreases |keys|
      {
        var key :| key in keys;
        keys := keys - {key};
        health := health[key := health[key].(cooldownUntil := 0.0, consecutive := 0)];
      }
      assert health == ResetCooldowns(p).health;
    }

    method IsCoolingDown(now: Time, dc: int, domain: Option<Name>) returns (cooling: bool)
      ensures cooling <==> domain.Some? && StatusOf(Value(), now, Key(dc, domain.value)) == Cooling
    {
      if domain == None {
        return false;
      }
      cooling := Key(dc, domain.value) in health && now < health[Key(dc, domain.value)].cooldownUntil;
    }

    method Rotate() returns (cached: seq<Name>, builtins: seq<Name>)
      modifies `cachedCursor, `builtinCursor
      ensures cached == Rotated(cachedUpstream, old(cachedCursor)) && builtins == Rotated(builtin, old(builtinCursor))
      ensures cachedCursor == NextCursor(cachedUpstream, old(cachedCursor))
      ensures builtinCursor == NextCursor(builtin, old(builtinCursor))
    {
      cached, builtins := [], [];
      if cachedUpstream != [] {
        var start := cachedCursor % |cachedUpstream|;
        cached := cachedUpstream[start..] + cachedUpstream[..start];
        cachedCursor := (cachedCursor + 1) % |cachedUpstream|;
      }
      if builtin != [] {
        var start := builtinCursor % |builtin|;
        builtins := builtin[start..] + builtin[..start];
        builtinCursor := (builtinCursor + 1) % |builtin|;
      }
    }

    /** The loop over the three lists, with the names seen so far. */
    method GatherCandidates(now: Time, dc: int, items: seq<Item>) returns (s: Selection)
      modifies `health
      ensures s == Gather(old(Value()), now, dc, items) && health == Gathered(old(Value()), dc, items)
    {
      ghost var p := Value();
      s := Selection([], [], [], 0.0);
      var seen: set<Name> := {};
      assert Seen(items[..0]) == {};
      for i := 0 to |items|
        invariant seen == Seen(items[..i]) && inFlight == p.inFlight
        invariant s == Gather(p, now, dc, items[..i]) && health == Gathered(p, dc, items[..i])
      {
        var item := items[i];
        SeenSnoc(items[..i], item);
        assert items[..i + 1] == items[..i] + [item];
        if item.domain !in seen {
          GatheredEntries(p, dc, items[..i], Key(dc, item.domain));
          UntouchedEntry(p, dc, items[..i], item.domain);
          seen := seen + {item.domain};
          s := AddCandidate(p, now, dc, s, item);
        } else {
          assert seen + {item.domain} == seen;
        }
      }
      assert items[..|items|] == items;
    }

    method AddCandidate(ghost p: Pool, now: Time, dc: int, before: Selection, item: Item) returns (s: Selection)
      requires inFlight == p.inFlight
      requires var key := Key(dc, item.domain);
               (key in health <==> key in p.health) && (key in health ==> health[key] == p.health[key])
      modifies `health
      ensures s == Add(p, now, dc, before, item)
      ensures health == old(health)[Key(dc, item.domain) := HealthOf(p, Key(dc, item.domain), item.source)]
    {
      s := before;
      var key := Key(dc, item.domain);
      EnsureHealth(key, item.source);
      var h := health[key];
      if now < h.cooldownUntil {
        s := s.(cooling := s.cooling + [h]);
        var retry := h.cooldownUntil - now;
        if s.retryAfter == 0.0 || retry < s.retryAfter {
          s := s.(retryAfter := retry);
        }
      } else if key in inFlight {
        s := s.(inFlight := s.inFlight + [h]);
      } else {
        s := s.(candidates := s.candidates + [Candidate(item.domain, item.source, ScoreHealth(h, now), h)]);
      }
    }

    method SelectionForDC(now: Time, dc: int) returns (s: Selection)
      modifies `health, `selectionCount, `cachedCursor, `builtinCursor
      ensures s == SelectionFor(old(Value()), now, dc) && Value() == Selected(old(Value()), dc)
    {
      s := GatherFor(now, dc);
      var ranked := Rank(dc, s.candidates);
      s := s.(candidates := ranked);
    }

    method GatherFor(now: Time, dc: int) returns (s: Selection)
      modifies `health, `cachedCursor, `builtinCursor
      ensures s == Gather(old(Value()), now, dc, ItemsFor(old(Value()), dc))
      ensures health == Gathered(old(Value()), dc, ItemsFor(old(Value()), dc))
      ensures cachedCursor == NextCursor(cachedUpstream, old(cachedCursor))
      ensures builtinCursor == NextCursor(builtin, old(builtinCursor))
    {
      ghost var p := Value();
      var items := CollectItems(dc);
      SameGather(p, Value(), now, dc, items);
      s := GatherCandidates(now, dc, items);
    }

    method CollectItems(dc: int) returns (items: seq<Item>)
      modifies `cachedCursor, `builtinCursor
      ensures items == ItemsFor(old(Value()), dc)
      ensures cachedCursor == NextCursor(cachedUpstream, old(cachedCursor))
      ensures builtinCursor == NextCursor(builtin, old(builtinCursor))
    {
      var cached, builtins := Rotate();
      if dc in dcPreferred {
        match SourceOf(Value(), dcPreferred[dc])
        case CachedUpstream => cached := [dcPreferred[dc]] + cached;
        case BuiltIn => builtins := [dcPreferred[dc]] + builtins;
        case Manual =>
      }
      items := Items(manual, Manual) + Items(cached, CachedUpstream) + Items(builtins, BuiltIn);
    }

    method Rank(dc: int, candidates: seq<Candidate>) returns (ranked: seq<Candidate>)
      modifies `selectionCount
      ensures ranked == Ranked(old(Value()), dc, candidates)
      ensures selectionCount == old(selectionCount)[dc := SelectionsOf(old(Value()), dc) + 1]
    {
      ranked := StableSort(candidates);
      var count := SelectionsOf(Value(), dc) + 1;
      selectionCount := selectionCount[dc := count];
      if count % EXPLORATION_INTERVAL == 0 {
        ranked := PromoteExplorationCandidate(ranked);
      }
    }

    method AvailabilityForDC(now: Time, dc: int) returns (a: Availability)
      ensures a == AvailabilityFor(Value(), now, dc)
    {
      var names := manual + cachedUpstream + builtin;
      a := Availability([], [], [], 0.0);
      for i := 0 to |names|
        invariant a == AvailabilityOf(Value(), now, dc, names[..i])
      {
        assert names[..i + 1] == names[..i] + [names[i]];
        if names[i] in names[..i] {
          continue;
        }
        a := ObserveDomain(now, dc, a, names[i]);
      }
      assert names[..|names|] == names;
    }

    method ObserveDomain(now: Time, dc: int, before: Availability, domain: Name) returns (a: Availability)
      ensures a == Observe(Value(), now, dc, before, domain)
    {
      a := before;
      var key := Key(dc, domain);
      if key in health && now < health[key].cooldownUntil {
        a := a.(cooling := a.cooling + [health[key]],
                retryAfter := Earlier(a.retryAfter, health[key].cooldownUntil - now));
      } else if key in inFlight {
        a := a.(inFlight := a.inFlight + [domain]);
      } else {
        a := a.(candidates := a.candidates + [domain]);
      }
    }
  }

  /** The entries but those of `left` have been reclassified. */
  ghost predicate Swept(p: Pool, health: map<Key, Health>, inFlight: set<Key>, left: set<Key>) {
    && left <= p.health.Keys && left <= health.Keys
    && health.Keys <= p.health.Keys && inFlight <= p.inFlight
    && (forall key :: key in left ==> health[key] == p.health[key])
    && (forall key :: key in p.health && key !in left ==> (key in health <==> Listed(p, key.domain)))
    && (forall key :: key in health && key !in left ==>
          health[key] == p.health[key].(source := SourceOf(p, key.domain)))
    && (forall key :: key in p.inFlight && Listed(p, key.domain) ==> key in inFlight)
  }

  lemma SweepKey(p: Pool, health: map<Key, Health>, inFlight: set<Key>, left: set<Key>, key: Key)
    requires Swept(p, health, inFlight, left) && key in left
    ensures if Listed(p, key.domain)
            then Swept(p, health[key := health[key].(source := SourceOf(p, key.domain))], inFlight, left - {key})
            else Swept(p, health - {key}, inFlight - {key}, left - {key})
  {
  }

  lemma SweptAll(p: Pool, health: map<Key, Health>, inFlight: set<Key>)
    requires Swept(p, health, inFlight, {})
    ensures health == Reclassify(p).health
    ensures (set key | key in inFlight && Listed(p, key.domain)) == Reclassify(p).inFlight
  {
  }

  lemma {:induction false} UntouchedEntry(p: Pool, dc: int, items: seq<Item>, d: Name)
    requires d !in Seen(items)
    ensures Key(dc, d) in Gathered(p, dc, items) <==> Key(dc, d) in p.health
    ensures Key(dc, d) in p.health ==> Gathered(p, dc, items)[Key(dc, d)] == p.health[Key(dc, d)]
  {
    if items != [] {
      var before, last := items[..|items| - 1], items[|items| - 1];
      SeenSnoc(before, last);
      assert items == before + [last];
      UntouchedEntry(p, dc, before, d);
    }
  }

  /** Gathering does not look at the cursors. */
  lemma {:induction false} SameGather(p: Pool, q: Pool, now: Time, dc: int, items: seq<Item>)
    requires p.health == q.health && p.inFlight == q.inFlight
    ensures Gather(p, now, dc, items) == Gather(q, now, dc, items) && Gathered(p, dc, items) == Gathered(q, dc, items)
  {
    if items != [] {
      SameGather(p, q, now, dc, items[..|items| - 1]);
    }
  }

  /** The candidates are shifted in place by one, up to the chosen one, which goes in front. */
  method PromoteExplorationCandidate(candidates: seq<Candidate>) returns (r: seq<Candidate>)
    ensures r == Promoted(candidates)
  {
    r := candidates;
    var first := 0;
    while first < |candidates| && candidates[first].source == Manual
      invariant first <= |candidates|
      invariant FirstNonManual(candidates) == first + FirstNonManual(candidates[first..])
    {
      first := first + 1;
    }
    if |candidates| - first < 2 {
      return;
    }
    var best, index, oldest := candidates[first].score, None, 0.0;
    for i := first + 1 to |candidates|
      invariant index == Choice(candidates, first, i)
      invariant index.Some? ==> oldest == Observation(candidates[index.value])
    {
      var candidate := candidates[i];
      if best - candidate.score > EXPLORATION_MAX_GAP {
        continue;
      }
      var observation := MaxReal(candidate.health.lastSuccessAt, candidate.health.lastFailureAt);
      if index == None || observation < oldest {
        index, oldest := Some(i), observation;
      }
    }
    if index == None {
      return;
    }
    var buffer := new Candidate[|candidates|](k requires 0 <= k < |candidates| => candidates[k]);
    assert buffer[..] == candidates;
    MoveInPlace(buffer, first, index.value);
    r := buffer[..];
  }

  method MoveInPlace(buffer: array<Candidate>, from: nat, at: nat)
    requires from <= at < buffer.Length
    modifies buffer
    ensures buffer[..] == MoveTo(old(buffer[..]), from, at)
  {
    var chosen := buffer[at];
    forall k | from < k <= at {
      buffer[k] := buffer[k - 1];
    }
    buffer[from] := chosen;
  }
}
