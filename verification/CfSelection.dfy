/**
 Choosing domains for a data centre: gathering, ranking and exploration
 (`SelectionForDC`, `AvailabilityForDC`, `promoteExplorationCandidate`,
 native/tgwsproxy/tgwsroute/cfpool.go).
 */
module CfSelection {
  import opened ByteStreams
  import opened CfPool

  const EXPLORATION_INTERVAL: nat := 5
  const EXPLORATION_MAX_GAP: int := 40

  datatype Candidate = Candidate(domain: Name, source: Source, score: int, health: Health)

  datatype Selection = Selection(candidates: seq<Candidate>, cooling: seq<Health>, inFlight: seq<Health>,
                                 retryAfter: real)

  datatype Item = Item(domain: Name, source: Source)

  // ---------------------------------------------------------------------------
  // Scores
  // ---------------------------------------------------------------------------

  function Min(a: int, b: int): int {
    if a < b then a else b
  }

  function RecentSuccessBonus(age: real): int {
    if age < 0.0 then 0 else if age <= 300.0 then 30 else if age <= 1800.0 then 15 else if age <= 7200.0 then 5 else 0
  }

  function DecayedFailurePenalty(h: Health, now: Time): int {
    if h.lastFailureAt <= 0.0 || now - h.lastFailureAt < 0.0 then 0
    else
      var age := now - h.lastFailureAt;
      var penalty := Min(h.failureCount, 5) * 4 + Min(h.consecutive, 5) * 12;
      if age <= 600.0 then penalty else if age <= 3600.0 then penalty / 2 else if age <= 21600.0 then penalty / 4 else 0
  }

  function ScoreHealth(h: Health, now: Time): int {
    100 + Min(h.successCount, 3) * 2 - DecayedFailurePenalty(h, now)
    - (if h.lastLatencyMs > 0 then Min(h.lastLatencyMs / 250, 12) else 0)
    + (if h.lastSuccessAt > 0.0 && h.lastSuccessAt >= h.lastFailureAt then RecentSuccessBonus(now - h.lastSuccessAt)
       else 0)
    + (if h.source == CachedUpstream then 4 else if h.source == Manual then 1000 else 0)
  }

  /** A domain without a record scores 100. A configured one scores 1000 more than a built-in one, a cached
      upstream one 4 more, whatever their records. */
  lemma SourceScore(key: Key, h: Health, source: Source, now: Time)
    ensures ScoreHealth(NewHealth(key, BuiltIn), now) == 100
    ensures ScoreHealth(h.(source := source), now) - ScoreHealth(h.(source := BuiltIn), now)
         == match source case Manual => 1000 case CachedUpstream => 4 case BuiltIn => 0
  {
  }

  /** Each of the first three successes is worth two points, and each quarter of a second of latency, up to
      twelve of them, costs one. */
  lemma RecordScore(h: Health, now: Time)
    requires h.successCount >= 0 && h.lastLatencyMs >= 0
    ensures ScoreHealth(h.(successCount := h.successCount + 1), now) - ScoreHealth(h, now)
         == if h.successCount < 3 then 2 else 0
    ensures ScoreHealth(h.(lastLatencyMs := h.lastLatencyMs + 250), now) - ScoreHealth(h, now)
         == if h.lastLatencyMs < 3000 then -1 else 0
    ensures h.lastLatencyMs < 250 ==> ScoreHealth(h, now) == ScoreHealth(h.(lastLatencyMs := 0), now)
  {
    QuarterSeconds(h.lastLatencyMs);
    SamePenalty(h, h.(successCount := h.successCount + 1), now);
    SamePenalty(h, h.(lastLatencyMs := h.lastLatencyMs + 250), now);
    SamePenalty(h, h.(lastLatencyMs := 0), now);
  }

  lemma QuarterSeconds(ms: int)
    requires ms >= 0
    ensures (ms + 250) / 250 == ms / 250 + 1 && (ms < 250 <==> ms / 250 == 0) && (ms < 3000 <==> ms / 250 < 12)
  {
  }

  lemma SamePenalty(a: Health, b: Health, now: Time)
    requires a.lastFailureAt == b.lastFailureAt && a.failureCount == b.failureCount && a.consecutive == b.consecutive
    ensures DecayedFailurePenalty(a, now) == DecayedFailurePenalty(b, now)
  {
  }

  /** A success after the last failure is worth 30, 15 or 5 points for 5 minutes, half an hour and two hours. */
  lemma RecencyScore(h: Health, now: Time)
    ensures var age, worth := now - h.lastSuccessAt,
                              ScoreHealth(h, now) - ScoreHealth(h.(lastSuccessAt := 0.0), now);
            if h.lastSuccessAt <= 0.0 || h.lastSuccessAt < h.lastFailureAt || age < 0.0 || age > 7200.0 then worth == 0
            else if age > 1800.0 then worth == 5 else if age > 300.0 then worth == 15 else worth == 30
  {
  }

  lemma PenaltyScore(h: Health, now: Time)
    ensures ScoreHealth(h, now) == ScoreHealth(h.(failureCount := 0, consecutive := 0), now)
                                   - DecayedFailurePenalty(h, now)
                                   + DecayedFailurePenalty(h.(failureCount := 0, consecutive := 0), now)
  {
  }

  /** What failures cost: each of the first five 4 points, each of the first five in a row 12, the whole of it
      for ten minutes after the last one, half of it for an hour, a quarter for six hours, then nothing. */
  lemma PenaltySteps(h: Health, now: Time)
    requires h.failureCount >= 0 && h.consecutive >= 0 && 0.0 < h.lastFailureAt
    ensures DecayedFailurePenalty(h.(failureCount := 0, consecutive := 0), now) == 0
    ensures DecayedFailurePenalty(h.(failureCount := h.failureCount + 1), h.lastFailureAt)
            - DecayedFailurePenalty(h, h.lastFailureAt) == if h.failureCount < 5 then 4 else 0
    ensures DecayedFailurePenalty(h.(consecutive := h.consecutive + 1), h.lastFailureAt)
            - DecayedFailurePenalty(h, h.lastFailureAt) == if h.consecutive < 5 then 12 else 0
    ensures var whole, age := DecayedFailurePenalty(h, h.lastFailureAt), now - h.lastFailureAt;
            var penalty := DecayedFailurePenalty(h, now);
            && (age < 0.0 || age > 21600.0 ==> penalty == 0)
            && (0.0 <= age <= 600.0 ==> penalty == whole)
            && (600.0 < age <= 3600.0 ==> 2 * penalty <= whole < 2 * penalty + 2)
            && (3600.0 < age <= 21600.0 ==> 4 * penalty <= whole < 4 * penalty + 4)
  {
  }

  // ---------------------------------------------------------------------------
  // Gathering
  // ---------------------------------------------------------------------------

  datatype Status = Cooling | Busy | Ready

  /** How a domain stands for a data centre. */
  function StatusOf(p: Pool, now: Time, key: Key): Status {
    if now < (if key in p.health then p.health[key].cooldownUntil else 0.0) then Cooling
    else if key in p.inFlight then Busy
    else Ready
  }

  /** A domain in cooldown is skipped as cooling, a reserved one outside it as busy, and the others are just
      those of which a reservation would be granted. */
  lemma StatusIs(p: Pool, now: Time, key: Key)
    ensures StatusOf(p, now, key) == Cooling <==> key in p.health && now < p.health[key].cooldownUntil
    ensures StatusOf(p, now, key) == Busy <==>
              key in p.inFlight && (key in p.health ==> p.health[key].cooldownUntil <= now)
    ensures StatusOf(p, now, key) == Ready <==> TryReserve(p, now, key).1
  {
    ReserveIff(p, now, key);
  }

  function Seen(items: seq<Item>): set<Name> {
    set item | item in items :: item.domain
  }

  function Earlier(retryAfter: real, retry: real): real {
    if retryAfter == 0.0 || retry < retryAfter then retry else retryAfter
  }

  function CandidateOf(p: Pool, now: Time, dc: int, item: Item): Candidate {
    var h := HealthOf(p, Key(dc, item.domain), item.source);
    Candidate(item.domain, item.source, ScoreHealth(h, now), h)
  }

  function Add(p: Pool, now: Time, dc: int, s: Selection, item: Item): Selection {
    var h := HealthOf(p, Key(dc, item.domain), item.source);
    match StatusOf(p, now, Key(dc, item.domain))
    case Cooling => s.(cooling := s.cooling + [h], retryAfter := Earlier(s.retryAfter, h.cooldownUntil - now))
    case Busy => s.(inFlight := s.inFlight + [h])
    case Ready => s.(candidates := s.candidates + [CandidateOf(p, now, dc, item)])
  }

  /** The domains in order, each looked at where it comes first. */
  function Gather(p: Pool, now: Time, dc: int, items: seq<Item>): Selection {
    if items == [] then Selection([], [], [], 0.0)
    else
      var before, last := items[..|items| - 1], items[|items| - 1];
      if last.domain in Seen(before) then Gather(p, now, dc, before)
      else Add(p, now, dc, Gather(p, now, dc, before), last)
  }

  /** The health entries after gathering: every domain looked at has one, with the source it was met under. */
  function Gathered(p: Pool, dc: int, items: seq<Item>): map<Key, Health> {
    if items == [] then p.health
    else
      var before, last := items[..|items| - 1], items[|items| - 1];
      var health := Gathered(p, dc, before);
      if last.domain in Seen(before) then health
      else health[Key(dc, last.domain) := HealthOf(p, Key(dc, last.domain), last.source)]
  }

  lemma {:induction false} GatheredEntries(p: Pool, dc: int, items: seq<Item>, key: Key)
    ensures key in Gathered(p, dc, items) <==> key in p.health || (key.dc == dc && key.domain in Seen(items))
    ensures key in p.health ==> SameRecord(p.health[key], Gathered(p, dc, items)[key])
    ensures key in Gathered(p, dc, items) && key !in p.health ==>
              SameRecord(NewHealth(key, BuiltIn), Gathered(p, dc, items)[key])
  {
    if items != [] {
      var before, last := items[..|items| - 1], items[|items| - 1];
      GatheredEntries(p, dc, before, key);
      SeenSnoc(before, last);
      assert items == before + [last];
    }
  }

  /** A domain takes the source under which it is met first. */
  lemma {:induction false} GatheredSource(p: Pool, dc: int, items: seq<Item>, i: nat)
    requires i < |items| && forall j :: 0 <= j < i ==> items[j].domain != items[i].domain
    ensures Key(dc, items[i].domain) in Gathered(p, dc, items)
    ensures Gathered(p, dc, items)[Key(dc, items[i].domain)].source == items[i].source
  {
    var before, last := items[..|items| - 1], items[|items| - 1];
    if i < |before| {
      GatheredSource(p, dc, before, i);
      assert before[i] in before;
    } else {
      assert last.domain !in Seen(before);
    }
  }

  lemma SeenSnoc(items: seq<Item>, last: Item)
    ensures Seen(items + [last]) == Seen(items) + {last.domain}
  {
    assert last in items + [last];
    assert forall item :: item in items ==> item in items + [last];
  }

  function NameSet(names: seq<Name>): set<Name> {
    set d | d in names
  }

  lemma NamesSnoc(names: seq<Name>, last: Name)
    ensures NameSet(names + [last]) == NameSet(names) + {last}
  {
    assert last in names + [last];
    assert forall d :: d in names ==> d in names + [last];
  }

  function Items(names: seq<Name>, source: Source): (items: seq<Item>)
    ensures |items| == |names|
  {
    if names == [] then [] else Items(names[..|names| - 1], source) + [Item(names[|names| - 1], source)]
  }

  lemma {:induction false} ItemsSeen(names: seq<Name>, source: Source)
    ensures Seen(Items(names, source)) == NameSet(names)
  {
    if names != [] {
      var before, last := names[..|names| - 1], names[|names| - 1];
      ItemsSeen(before, source);
      SeenSnoc(Items(before, source), Item(last, source));
      NamesSnoc(before, last);
      assert names == before + [last];
    } else {
      assert Seen([]) == {};
    }
  }

  lemma SeenAppend(a: seq<Item>, b: seq<Item>)
    ensures Seen(a + b) == Seen(a) + Seen(b)
  {
    assert forall item :: item in a ==> item in a + b;
    assert forall item :: item in b ==> item in a + b;
  }

  // ---------------------------------------------------------------------------
  // The partition
  // ---------------------------------------------------------------------------

  function CandidateNames(cs: seq<Candidate>): set<Name> {
    set c | c in cs :: c.domain
  }

  function HealthNames(hs: seq<Health>): set<Name> {
    set h | h in hs :: h.domain
  }

  function WithStatus(p: Pool, now: Time, dc: int, names: set<Name>, status: Status): set<Name> {
    set d | d in names && StatusOf(p, now, Key(dc, d)) == status
  }

  ghost predicate NoDuplicates(s: Selection) {
    && (forall i, j :: 0 <= i < j < |s.candidates| ==> s.candidates[i].domain != s.candidates[j].domain)
    && (forall i, j :: 0 <= i < j < |s.cooling| ==> s.cooling[i].domain != s.cooling[j].domain)
    && (forall i, j :: 0 <= i < j < |s.inFlight| ==> s.inFlight[i].domain != s.inFlight[j].domain)
  }

  /** Every domain looked at is in exactly one of the three lists, once: the one its state asks for. */
  ghost predicate Partitioned(p: Pool, now: Time, dc: int, names: set<Name>, s: Selection) {
    && CandidateNames(s.candidates) == WithStatus(p, now, dc, names, Ready)
    && HealthNames(s.cooling) == WithStatus(p, now, dc, names, Cooling)
    && HealthNames(s.inFlight) == WithStatus(p, now, dc, names, Busy)
    && NoDuplicates(s)
  }

  lemma CandidateNamesSnoc(cs: seq<Candidate>, c: Candidate)
    ensures CandidateNames(cs + [c]) == CandidateNames(cs) + {c.domain}
  {
    assert c in cs + [c];
    assert forall x :: x in cs ==> x in cs + [c];
  }

  lemma HealthNamesSnoc(hs: seq<Health>, h: Health)
    ensures HealthNames(hs + [h]) == HealthNames(hs) + {h.domain}
  {
    assert h in hs + [h];
    assert forall x :: x in hs ==> x in hs + [h];
  }

  lemma WithStatusAdd(p: Pool, now: Time, dc: int, names: set<Name>, d: Name, status: Status)
    ensures WithStatus(p, now, dc, names + {d}, status)
         == WithStatus(p, now, dc, names, status) + (if StatusOf(p, now, Key(dc, d)) == status then {d} else {})
  {
  }

  lemma CandidatesFresh(cs: seq<Candidate>, c: Candidate)
    requires forall i, j :: 0 <= i < j < |cs| ==> cs[i].domain != cs[j].domain
    requires c.domain !in CandidateNames(cs)
    ensures forall i, j :: 0 <= i < j < |cs + [c]| ==> (cs + [c])[i].domain != (cs + [c])[j].domain
  {
    forall i | 0 <= i < |cs|
      ensures cs[i].domain != c.domain
    {
      assert cs[i] in cs;
    }
  }

  lemma HealthsFresh(hs: seq<Health>, h: Health)
    requires forall i, j :: 0 <= i < j < |hs| ==> hs[i].domain != hs[j].domain
    requires h.domain !in HealthNames(hs)
    ensures forall i, j :: 0 <= i < j < |hs + [h]| ==> (hs + [h])[i].domain != (hs + [h])[j].domain
  {
    forall i | 0 <= i < |hs|
      ensures hs[i].domain != h.domain
    {
      assert hs[i] in hs;
    }
  }

  lemma AddPartitioned(p: Pool, now: Time, dc: int, names: set<Name>, s: Selection, item: Item)
    requires Inv(p) && item.domain !in names && Partitioned(p, now, dc, names, s)
    ensures Partitioned(p, now, dc, names + {item.domain}, Add(p, now, dc, s, item))
  {
    var d, h := item.domain, HealthOf(p, Key(dc, item.domain), item.source);
    assert h.domain == d;
    WithStatusAdd(p, now, dc, names, d, Ready);
    WithStatusAdd(p, now, dc, names, d, Cooling);
    WithStatusAdd(p, now, dc, names, d, Busy);
    match StatusOf(p, now, Key(dc, d))
    case Ready =>
      CandidateNamesSnoc(s.candidates, CandidateOf(p, now, dc, item));
      CandidatesFresh(s.candidates, CandidateOf(p, now, dc, item));
    case Cooling =>
      HealthNamesSnoc(s.cooling, h);
      HealthsFresh(s.cooling, h);
    case Busy =>
      HealthNamesSnoc(s.inFlight, h);
      HealthsFresh(s.inFlight, h);
  }

  lemma {:induction false} GatherPartitions(p: Pool, now: Time, dc: int, items: seq<Item>)
    requires Inv(p)
    ensures Partitioned(p, now, dc, Seen(items), Gather(p, now, dc, items))
  {
    if items == [] {
      assert Seen(items) == {};
    } else {
      var before, last := items[..|items| - 1], items[|items| - 1];
      GatherPartitions(p, now, dc, before);
      SeenSnoc(before, last);
      assert items == before + [last];
      if last.domain in Seen(before) {
        assert Seen(items) == Seen(before);
      } else {
        AddPartitioned(p, now, dc, Seen(before), Gather(p, now, dc, before), last);
      }
    }
  }

  /** The retry time is the least time to the end of a cooldown among the cooling domains, or 0. */
  ghost predicate LeastRetry(now: Time, s: Selection) {
    && (s.cooling == [] ==> s.retryAfter == 0.0)
    && (forall h :: h in s.cooling ==> 0.0 < s.retryAfter <= h.cooldownUntil - now)
    && (s.cooling != [] ==> exists h :: h in s.cooling && s.retryAfter == h.cooldownUntil - now)
  }

  lemma RetrySnoc(now: Time, s: Selection, h: Health)
    requires LeastRetry(now, s) && now < h.cooldownUntil
    ensures LeastRetry(now, s.(cooling := s.cooling + [h], retryAfter := Earlier(s.retryAfter, h.cooldownUntil - now)))
  {
    var t := s.(cooling := s.cooling + [h], retryAfter := Earlier(s.retryAfter, h.cooldownUntil - now));
    assert h in t.cooling;
    if s.cooling != [] {
      var least :| least in s.cooling && s.retryAfter == least.cooldownUntil - now;
      assert least in t.cooling;
    }
  }

  lemma {:induction false} GatherRetry(p: Pool, now: Time, dc: int, items: seq<Item>)
    ensures LeastRetry(now, Gather(p, now, dc, items))
  {
    if items != [] {
      var before, last := items[..|items| - 1], items[|items| - 1];
      GatherRetry(p, now, dc, before);
      if last.domain !in Seen(before) && StatusOf(p, now, Key(dc, last.domain)) == Cooling {
        RetrySnoc(now, Gather(p, now, dc, before), HealthOf(p, Key(dc, last.domain), last.source));
      }
    }
  }

  // ---------------------------------------------------------------------------
  // Ranking
  // ---------------------------------------------------------------------------

  function SourcePriority(source: Source): int {
    match source
    case Manual => 0
    case CachedUpstream => 1
    case BuiltIn => 2
  }

  /** The order the candidates are sorted by. */
  predicate Less(left: Candidate, right: Candidate) {
    if left.source == Manual || right.source == Manual then left.source == Manual && right.source != Manual
    else if left.score != right.score then left.score > right.score
    else SourcePriority(left.source) < SourcePriority(right.source)
  }

  predicate Equivalent(a: Candidate, b: Candidate) {
    !Less(a, b) && !Less(b, a)
  }

  /** Configured domains come before all others; among the others the higher score comes first, and at equal
      scores a cached upstream domain before a built-in one. */
  lemma LessIff(a: Candidate, b: Candidate)
    ensures Less(a, b) <==>
              || (a.source == Manual && b.source != Manual)
              || (a.source != Manual && b.source != Manual && a.score > b.score)
              || (a.score == b.score && a.source == CachedUpstream && b.source == BuiltIn)
  {
  }

  /** `Less` is a strict weak order, which is what a sort needs. */
  lemma WeakOrder(a: Candidate, b: Candidate, c: Candidate)
    ensures !Less(a, a) && !(Less(a, b) && Less(b, a))
    ensures Less(a, b) && Less(b, c) ==> Less(a, c)
    ensures Equivalent(a, b) && Equivalent(b, c) ==> Equivalent(a, c)
    ensures Less(a, b) && Equivalent(b, c) ==> Less(a, c)
    ensures Less(a, c) && Equivalent(a, b) ==> Less(b, c)
    ensures !Less(b, a) && !Less(c, b) ==> !Less(c, a)
  {
  }

  /** `sort.SliceStable`, as insertion in front of what is not less. */
  function Insert(c: Candidate, sorted: seq<Candidate>): seq<Candidate> {
    if sorted != [] && Less(sorted[0], c) then [sorted[0]] + Insert(c, sorted[1..]) else [c] + sorted
  }

  function StableSort(cs: seq<Candidate>): seq<Candidate> {
    if cs == [] then [] else Insert(cs[0], StableSort(cs[1..]))
  }

  ghost predicate Sorted(cs: seq<Candidate>) {
    |cs| < 2 || (!Less(cs[1], cs[0]) && Sorted(cs[1..]))
  }

  lemma {:induction false} SortedPairs(cs: seq<Candidate>, i: nat, j: nat)
    requires Sorted(cs) && i < j < |cs|
    ensures !Less(cs[j], cs[i])
  {
    if i > 0 {
      SortedPairs(cs[1..], i - 1, j - 1);
    } else if j > 1 {
      SortedPairs(cs[1..], 0, j - 1);
      WeakOrder(cs[0], cs[1], cs[j]);
    }
  }

  lemma {:induction false} InsertKeeps(c: Candidate, sorted: seq<Candidate>)
    ensures multiset(Insert(c, sorted)) == multiset{c} + multiset(sorted)
  {
    if sorted != [] && Less(sorted[0], c) {
      InsertKeeps(c, sorted[1..]);
      assert sorted == [sorted[0]] + sorted[1..];
    }
  }

  lemma {:induction false} InsertSorted(c: Candidate, sorted: seq<Candidate>)
    requires Sorted(sorted)
    ensures Sorted(Insert(c, sorted))
  {
    var out := Insert(c, sorted);
    if sorted != [] && Less(sorted[0], c) {
      InsertSorted(c, sorted[1..]);
      assert out[1..] == Insert(c, sorted[1..]);
      WeakOrder(sorted[0], c, c);
    } else {
      assert out[1..] == sorted;
    }
  }

  /** The elements equivalent to c, in order. */
  function Class(cs: seq<Candidate>, c: Candidate): seq<Candidate> {
    if cs == [] then [] else (if Equivalent(cs[0], c) then [cs[0]] else []) + Class(cs[1..], c)
  }

  lemma {:induction false} InsertClass(x: Candidate, sorted: seq<Candidate>, c: Candidate)
    ensures Class(Insert(x, sorted), c) == (if Equivalent(x, c) then [x] else []) + Class(sorted, c)
  {
    var out := Insert(x, sorted);
    if sorted != [] && Less(sorted[0], x) {
      InsertClass(x, sorted[1..], c);
      assert out[1..] == Insert(x, sorted[1..]);
      WeakOrder(sorted[0], x, c);
    } else {
      assert out[1..] == sorted;
    }
  }

  /** The ranking is sorted, keeps every candidate, and keeps the order of equivalent ones. */
  lemma {:induction false} StableSortIsStable(cs: seq<Candidate>, c: Candidate)
    ensures Sorted(StableSort(cs)) && multiset(StableSort(cs)) == multiset(cs)
    ensures Class(StableSort(cs), c) == Class(cs, c)
  {
    if cs != [] {
      StableSortIsStable(cs[1..], c);
      InsertSorted(cs[0], StableSort(cs[1..]));
      InsertKeeps(cs[0], StableSort(cs[1..]));
      InsertClass(cs[0], StableSort(cs[1..]), c);
      assert cs == [cs[0]] + cs[1..];
    }
  }

  /** So the ranking goes down in score behind the configured domains. */
  lemma RankedByScore(cs: seq<Candidate>, i: nat, j: nat)
    requires i < j < |StableSort(cs)|
    ensures var a, b := StableSort(cs)[i], StableSort(cs)[j];
            a.source == Manual || (b.source != Manual && a.score >= b.score
                                   && (a.score == b.score && b.source == CachedUpstream ==> a.source == CachedUpstream))
  {
    if cs != [] {
      StableSortIsStable(cs, cs[0]);
      SortedPairs(StableSort(cs), i, j);
    }
  }

  ghost predicate SameClasses(a: seq<Candidate>, b: seq<Candidate>) {
    forall c :: Class(a, c) == Class(b, c)
  }

  /** Nothing in a sorted list lies below its head, nor does anything its elements are equivalent to. */
  lemma {:induction false} HeadIsLeast(sorted: seq<Candidate>, c: Candidate)
    requires Sorted(sorted) && Class(sorted, c) != []
    ensures sorted != [] && !Less(c, sorted[0])
  {
    if Equivalent(sorted[0], c) {
      WeakOrder(sorted[0], c, c);
    } else {
      HeadIsLeast(sorted[1..], c);
      WeakOrder(sorted[0], sorted[1], c);
    }
  }

  lemma ClassOfHead(cs: seq<Candidate>, c: Candidate)
    requires cs != [] && Equivalent(cs[0], c)
    ensures Class(cs, c) != [] && Class(cs, c)[0] == cs[0]
  {
  }

  lemma SameTails(a: seq<Candidate>, b: seq<Candidate>)
    requires a != [] && b != [] && a[0] == b[0] && SameClasses(a, b)
    ensures SameClasses(a[1..], b[1..])
  {
    forall c ensures Class(a[1..], c) == Class(b[1..], c) {
      var head := if Equivalent(a[0], c) then [a[0]] else [];
      assert Class(a, c) == head + Class(a[1..], c) && Class(b, c) == head + Class(b[1..], c);
      assert Class(a, c)[|head|..] == Class(a[1..], c) && Class(b, c)[|head|..] == Class(b[1..], c);
    }
  }

  lemma BothEmpty(a: seq<Candidate>, b: seq<Candidate>)
    requires SameClasses(a, b)
    ensures b == [] ==> a == []
  {
    if a != [] {
      ClassOfHead(a, a[0]);
      assert Class(b, a[0]) == Class(a, a[0]);
    }
  }

  /** Two sorted lists with the same candidates in the same order in every class are one list. */
  lemma {:induction false} SortedUnique(a: seq<Candidate>, b: seq<Candidate>)
    requires Sorted(a) && Sorted(b) && SameClasses(a, b)
    ensures a == b
  {
    BothEmpty(a, b);
    BothEmpty(b, a);
    if a != [] {
      ClassOfHead(a, a[0]);
      HeadIsLeast(b, a[0]);
      ClassOfHead(b, b[0]);
      HeadIsLeast(a, b[0]);
      ClassOfHead(b, a[0]);
      SameTails(a, b);
      SortedUnique(a[1..], b[1..]);
      assert a == [a[0]] + a[1..] && b == [b[0]] + b[1..];
    }
  }

  /** What a stable sort promises fixes its result, so every stable sort ranks as this one does: a list
      is the ranking exactly when it is sorted and keeps each class of equivalent candidates in order. */
  lemma RankingIff(cs: seq<Candidate>, out: seq<Candidate>)
    ensures out == StableSort(cs) <==> Sorted(out) && SameClasses(out, cs)
  {
    if cs != [] {
      StableSortIsStable(cs, cs[0]);
    }
    forall c ensures Class(StableSort(cs), c) == Class(cs, c) {
      StableSortIsStable(cs, c);
    }
    if Sorted(out) && SameClasses(out, cs) {
      forall c ensures Class(out, c) == Class(StableSort(cs), c) {
        assert Class(out, c) == Class(cs, c);
      }
      SortedUnique(out, StableSort(cs));
    }
  }

  function Manuals(cs: seq<Candidate>): seq<Candidate> {
    if cs == [] then [] else (if cs[0].source == Manual then [cs[0]] else []) + Manuals(cs[1..])
  }

  function Others(cs: seq<Candidate>): seq<Candidate> {
    if cs == [] then [] else (if cs[0].source != Manual then [cs[0]] else []) + Others(cs[1..])
  }

  predicate AllManual(cs: seq<Candidate>) {
    cs == [] || (cs[0].source == Manual && AllManual(cs[1..]))
  }

  lemma {:induction false} InsertAfterManuals(c: Candidate, manuals: seq<Candidate>, rest: seq<Candidate>)
    requires c.source != Manual && AllManual(manuals)
    ensures Insert(c, manuals + rest) == manuals + Insert(c, rest)
  {
    if manuals == [] {
      assert manuals + rest == rest;
    } else {
      InsertAfterManuals(c, manuals[1..], rest);
      var all := manuals + rest;
      assert all[1..] == manuals[1..] + rest;
      ConcatAssoc([manuals[0]], manuals[1..], Insert(c, rest));
      assert Insert(c, all) == [all[0]] + Insert(c, all[1..]);
    }
  }

  lemma {:induction false} ManualsAreManual(cs: seq<Candidate>)
    ensures AllManual(Manuals(cs))
  {
    if cs != [] {
      ManualsAreManual(cs[1..]);
      if cs[0].source == Manual {
        assert Manuals(cs)[1..] == Manuals(cs[1..]);
      } else {
        assert Manuals(cs) == Manuals(cs[1..]);
      }
    }
  }

  lemma InsertManual(c: Candidate, sorted: seq<Candidate>)
    requires c.source == Manual
    ensures Insert(c, sorted) == [c] + sorted
  {
  }

  /** Manual domains come first, in the order they were met, whatever their scores. */
  lemma {:induction false} ManualsFirst(cs: seq<Candidate>)
    ensures StableSort(cs) == Manuals(cs) + StableSort(Others(cs))
  {
    if cs != [] {
      ManualsFirst(cs[1..]);
      ManualsAreManual(cs[1..]);
      var manuals, others := Manuals(cs[1..]), Others(cs[1..]);
      if cs[0].source == Manual {
        InsertManual(cs[0], manuals + StableSort(others));
        ConcatAssoc([cs[0]], manuals, StableSort(others));
        assert Others(cs) == others;
      } else {
        InsertAfterManuals(cs[0], manuals, StableSort(others));
        assert ([cs[0]] + others)[1..] == others;
        assert Manuals(cs) == manuals;
      }
    }
  }

  function NamesOf(cs: seq<Candidate>): seq<Name> {
    if cs == [] then [] else NamesOf(cs[..|cs| - 1]) + [cs[|cs| - 1].domain]
  }

  /** The names that are ready, in order, each once. */
  function ReadyInOrder(p: Pool, now: Time, dc: int, names: seq<Name>): seq<Name> {
    if names == [] then []
    else
      var before, last := names[..|names| - 1], names[|names| - 1];
      ReadyInOrder(p, now, dc, before)
      + (if last !in before && StatusOf(p, now, Key(dc, last)) == Ready then [last] else [])
  }

  lemma {:induction false} ManualsSnoc(cs: seq<Candidate>, c: Candidate)
    ensures Manuals(cs + [c]) == Manuals(cs) + (if c.source == Manual then [c] else [])
  {
    if cs != [] {
      ManualsSnoc(cs[1..], c);
      assert (cs + [c])[1..] == cs[1..] + [c];
    }
  }

  lemma {:induction false} GatherManuals(p: Pool, now: Time, dc: int, names: seq<Name>)
    ensures var cs := Gather(p, now, dc, Items(names, Manual)).candidates;
            Manuals(cs) == cs && NamesOf(cs) == ReadyInOrder(p, now, dc, names)
  {
    if names != [] {
      var before, last := names[..|names| - 1], names[|names| - 1];
      GatherManuals(p, now, dc, before);
      ItemsSeen(before, Manual);
      GatherSnoc(p, now, dc, Items(before, Manual), Item(last, Manual));
      AddManual(p, now, dc, Gather(p, now, dc, Items(before, Manual)), last, ReadyInOrder(p, now, dc, before));
    }
  }

  lemma GatherSnoc(p: Pool, now: Time, dc: int, before: seq<Item>, last: Item)
    ensures Gather(p, now, dc, before + [last])
         == if last.domain in Seen(before) then Gather(p, now, dc, before)
           else Add(p, now, dc, Gather(p, now, dc, before), last)
  {
    assert (before + [last])[..|before|] == before;
  }

  lemma AddManual(p: Pool, now: Time, dc: int, s: Selection, d: Name, ready: seq<Name>)
    requires Manuals(s.candidates) == s.candidates && NamesOf(s.candidates) == ready
    ensures var cs := Add(p, now, dc, s, Item(d, Manual)).candidates;
            && Manuals(cs) == cs
            && NamesOf(cs) == ready + (if StatusOf(p, now, Key(dc, d)) == Ready then [d] else [])
  {
    var c := CandidateOf(p, now, dc, Item(d, Manual));
    ManualsSnoc(s.candidates, c);
    assert (s.candidates + [c])[..|s.candidates|] == s.candidates;
    assert ready + [] == ready;
  }

  predicate NoneManual(items: seq<Item>) {
    items == [] || (items[|items| - 1].source != Manual && NoneManual(items[..|items| - 1]))
  }

  lemma {:induction false} GatherOthers(p: Pool, now: Time, dc: int, items: seq<Item>, later: seq<Item>)
    requires NoneManual(later)
    ensures Manuals(Gather(p, now, dc, items + later).candidates) == Manuals(Gather(p, now, dc, items).candidates)
    decreases |later|
  {
    if later == [] {
      assert items + later == items;
    } else {
      var before, last := later[..|later| - 1], later[|later| - 1];
      var all := items + later;
      assert all[..|all| - 1] == items + before && all[|all| - 1] == last;
      GatherOthers(p, now, dc, items, before);
      AddOther(p, now, dc, Gather(p, now, dc, items + before), last);
    }
  }

  lemma AddOther(p: Pool, now: Time, dc: int, s: Selection, item: Item)
    requires item.source != Manual
    ensures Manuals(Add(p, now, dc, s, item).candidates) == Manuals(s.candidates)
  {
    ManualsSnoc(s.candidates, CandidateOf(p, now, dc, item));
    assert Manuals(s.candidates) + [] == Manuals(s.candidates);
  }

  lemma {:induction false} ItemsNotManual(names: seq<Name>, source: Source)
    requires source != Manual
    ensures NoneManual(Items(names, source))
  {
    if names != [] {
      ItemsNotManual(names[..|names| - 1], source);
      var items := Items(names, source);
      assert items[..|items| - 1] == Items(names[..|names| - 1], source);
    }
  }

  // ---------------------------------------------------------------------------
  // Exploration
  // ---------------------------------------------------------------------------

  function FirstNonManual(cs: seq<Candidate>): (k: nat)
    ensures k <= |cs|
  {
    if cs == [] || cs[0].source != Manual then 0 else 1 + FirstNonManual(cs[1..])
  }

  function Observation(c: Candidate): real {
    MaxReal(c.health.lastSuccessAt, c.health.lastFailureAt)
  }

  predicate Eligible(best: int, c: Candidate) {
    best - c.score <= EXPLORATION_MAX_GAP
  }

  /** The choice among the candidates after `from` and before `until`. */
  function Choice(cs: seq<Candidate>, from: nat, until: nat): (r: Option<nat>)
    requires from < |cs| && until <= |cs|
    ensures r.Some? ==> from < r.value < until
  {
    if until <= from + 1 then None
    else
      var before, c := Choice(cs, from, until - 1), cs[until - 1];
      if !Eligible(cs[from].score, c) then before
      else if before == None || Observation(c) < Observation(cs[before.value]) then Some(until - 1)
      else before
  }

  /** The choice is an eligible candidate that has gone unobserved longest, the first of several. */
  lemma {:induction false} ChoiceIsOldest(cs: seq<Candidate>, from: nat, until: nat)
    requires from < |cs| && until <= |cs|
    ensures match Choice(cs, from, until)
            case None => forall i :: from < i < until ==> !Eligible(cs[from].score, cs[i])
            case Some(k) =>
              && Eligible(cs[from].score, cs[k])
              && (forall i :: from < i < until && Eligible(cs[from].score, cs[i]) ==>
                    Observation(cs[k]) <= Observation(cs[i]))
              && (forall i :: from < i < k && Eligible(cs[from].score, cs[i]) ==>
                    Observation(cs[k]) < Observation(cs[i]))
    decreases until
  {
    if until > from + 1 {
      ChoiceIsOldest(cs, from, until - 1);
    }
  }

  function MoveTo(cs: seq<Candidate>, from: nat, at: nat): (r: seq<Candidate>)
    requires from <= at < |cs|
    ensures |r| == |cs|
  {
    cs[..from] + [cs[at]] + cs[from..at] + cs[at + 1..]
  }

  function Promoted(cs: seq<Candidate>): (r: seq<Candidate>)
    ensures |r| == |cs|
  {
    var first := FirstNonManual(cs);
    if |cs| - first < 2 then cs
    else
      match Choice(cs, first, |cs|)
      case None => cs
      case Some(k) => MoveTo(cs, first, k)
  }

  /** Moving one candidate forward keeps the others in order, and keeps everything before its new place. */
  lemma MoveKeepsOthers(cs: seq<Candidate>, from: nat, at: nat)
    requires from <= at < |cs|
    ensures var r := MoveTo(cs, from, at);
            && r[..from] == cs[..from] && r[from] == cs[at]
            && r[..from] + r[from + 1..] == cs[..at] + cs[at + 1..]
            && multiset(r) == multiset(cs)
  {
    var r := MoveTo(cs, from, at);
    assert r[from + 1..] == cs[from..at] + cs[at + 1..];
    assert cs == cs[..from] + cs[from..at] + [cs[at]] + cs[at + 1..];
  }

  /** Exploration moves at most one candidate, to the front of those that are not manual; it is within
      40 points of the best of them, and everything else keeps its order. */
  lemma PromotionMovesOne(cs: seq<Candidate>)
    ensures var first := FirstNonManual(cs);
            Promoted(cs) == cs
            || (exists at :: first < at < |cs| && Promoted(cs) == MoveTo(cs, first, at)
                             && cs[first].score - cs[at].score <= EXPLORATION_MAX_GAP)
  {
    var first := FirstNonManual(cs);
    if |cs| - first >= 2 {
      ChoiceIsOldest(cs, first, |cs|);
    }
  }

  lemma PromotionKeeps(cs: seq<Candidate>)
    ensures multiset(Promoted(cs)) == multiset(cs)
    ensures Promoted(cs)[..FirstNonManual(cs)] == cs[..FirstNonManual(cs)]
  {
    PromotionMovesOne(cs);
    var first := FirstNonManual(cs);
    if Promoted(cs) != cs {
      var at :| first < at < |cs| && Promoted(cs) == MoveTo(cs, first, at);
      MoveKeepsOthers(cs, first, at);
    }
  }

  /** What exploration puts first among the candidates that are not configured: of those within 40 points of
      the best, other than the best itself, the one observed longest ago. */
  lemma PromotedLeads(cs: seq<Candidate>)
    ensures var first := FirstNonManual(cs);
            Promoted(cs) != cs ==>
              && first + 1 < |cs|
              && cs[first].score - Promoted(cs)[first].score <= 40
              && (forall i :: first < i < |cs| && cs[first].score - cs[i].score <= 40 ==>
                    Observation(Promoted(cs)[first]) <= Observation(cs[i]))
    ensures var first := FirstNonManual(cs);
            forall i :: first < i < |cs| && cs[first].score - cs[i].score <= 40 ==>
              exists k :: first < k < |cs| && Promoted(cs) == MoveTo(cs, first, k)
  {
    var first := FirstNonManual(cs);
    if |cs| - first >= 2 {
      ChoiceIsOldest(cs, first, |cs|);
      match Choice(cs, first, |cs|)
      case Some(k) => MoveKeepsOthers(cs, first, k);
      case None =>
    }
  }

  // ---------------------------------------------------------------------------
  // Selection
  // ---------------------------------------------------------------------------

  function Rotated(names: seq<Name>, cursor: nat): (r: seq<Name>)
    ensures |r| == |names|
  {
    if names == [] then [] else names[cursor % |names|..] + names[..cursor % |names|]
  }

  function NextCursor(names: seq<Name>, cursor: nat): nat {
    if names == [] then cursor else (cursor + 1) % |names|
  }

  lemma RotatedNames(names: seq<Name>, cursor: nat)
    ensures NameSet(Rotated(names, cursor)) == NameSet(names)
  {
    if names != [] {
      var k := cursor % |names|;
      assert names == names[..k] + names[k..];
    }
  }

  /** The domain a cached or built-in list leads with: the one that last worked for this data centre. */
  function Led(p: Pool, dc: int, source: Source, names: seq<Name>): seq<Name> {
    if dc in p.preferred && SourceOf(p, p.preferred[dc]) == source then [p.preferred[dc]] + names else names
  }

  function ItemsFor(p: Pool, dc: int): seq<Item> {
    Items(p.manual, Manual)
    + Items(Led(p, dc, CachedUpstream, Rotated(p.cached, p.cachedCursor)), CachedUpstream)
    + Items(Led(p, dc, BuiltIn, Rotated(p.builtin, p.builtinCursor)), BuiltIn)
  }

  function Ranked(p: Pool, dc: int, candidates: seq<Candidate>): seq<Candidate> {
    var sorted := StableSort(candidates);
    if (SelectionsOf(p, dc) + 1) % EXPLORATION_INTERVAL == 0 then Promoted(sorted) else sorted
  }

  function SelectionFor(p: Pool, now: Time, dc: int): Selection {
    var s := Gather(p, now, dc, ItemsFor(p, dc));
    s.(candidates := Ranked(p, dc, s.candidates))
  }

  function Selected(p: Pool, dc: int): Pool {
    p.(health := Gathered(p, dc, ItemsFor(p, dc)),
       selections := p.selections[dc := SelectionsOf(p, dc) + 1],
       cachedCursor := NextCursor(p.cached, p.cachedCursor),
       builtinCursor := NextCursor(p.builtin, p.builtinCursor))
  }

  /** A selection keeps the pool's invariant, every record, and every reservation. */
  lemma SelectedInv(p: Pool, dc: int)
    requires Inv(p)
    ensures Inv(Selected(p, dc)) && Selected(p, dc).inFlight == p.inFlight
    ensures forall key :: key in p.health ==>
              key in Selected(p, dc).health && SameRecord(p.health[key], Selected(p, dc).health[key])
  {
    forall key | key in Selected(p, dc).health
      ensures SaneHealth(key, Selected(p, dc).health[key])
    {
      GatheredEntries(p, dc, ItemsFor(p, dc), key);
    }
    forall key | key in p.health
      ensures key in Selected(p, dc).health && SameRecord(p.health[key], Selected(p, dc).health[key])
    {
      GatheredEntries(p, dc, ItemsFor(p, dc), key);
    }
  }

  function ListedNames(p: Pool): set<Name> {
    NameSet(p.manual) + NameSet(p.cached) + NameSet(p.builtin)
  }

  /** The domain that was last successful is offered although no list has it any more. */
  predicate PreferredUnlisted(p: Pool, dc: int) {
    dc in p.preferred && !Listed(p, p.preferred[dc])
  }

  lemma LedNames(p: Pool, dc: int, source: Source, names: seq<Name>)
    ensures NameSet(Led(p, dc, source, names))
         == NameSet(names)
            + (if dc in p.preferred && SourceOf(p, p.preferred[dc]) == source then {p.preferred[dc]} else {})
  {
    if dc in p.preferred && SourceOf(p, p.preferred[dc]) == source {
      assert p.preferred[dc] in [p.preferred[dc]] + names;
      assert forall d :: d in names ==> d in [p.preferred[dc]] + names;
    }
  }

  lemma SeenFor(p: Pool, dc: int)
    ensures Seen(ItemsFor(p, dc)) == ListedNames(p) + (if PreferredUnlisted(p, dc) then {p.preferred[dc]} else {})
  {
    var cached := Led(p, dc, CachedUpstream, Rotated(p.cached, p.cachedCursor));
    var builtin := Led(p, dc, BuiltIn, Rotated(p.builtin, p.builtinCursor));
    SeenAppend(Items(p.manual, Manual) + Items(cached, CachedUpstream), Items(builtin, BuiltIn));
    SeenAppend(Items(p.manual, Manual), Items(cached, CachedUpstream));
    ItemsSeen(p.manual, Manual);
    ItemsSeen(cached, CachedUpstream);
    ItemsSeen(builtin, BuiltIn);
    LedNames(p, dc, CachedUpstream, Rotated(p.cached, p.cachedCursor));
    LedNames(p, dc, BuiltIn, Rotated(p.builtin, p.builtinCursor));
    RotatedNames(p.cached, p.cachedCursor);
    RotatedNames(p.builtin, p.builtinCursor);
  }

  lemma RankedNames(p: Pool, dc: int, cs: seq<Candidate>)
    ensures multiset(Ranked(p, dc, cs)) == multiset(cs)
  {
    if cs != [] {
      StableSortIsStable(cs, cs[0]);
    }
    PromotionKeeps(StableSort(cs));
  }

  lemma SameNames(a: seq<Candidate>, b: seq<Candidate>)
    requires multiset(a) == multiset(b)
    requires forall i, j :: 0 <= i < j < |a| ==> a[i].domain != a[j].domain
    ensures CandidateNames(a) == CandidateNames(b)
    ensures forall i, j :: 0 <= i < j < |b| ==> b[i].domain != b[j].domain
  {
    forall c
      ensures c in a <==> c in b
    {
      assert c in a <==> c in multiset(a);
      assert c in b <==> c in multiset(b);
    }
    forall i, j | 0 <= i < j < |b|
      ensures b[i].domain != b[j].domain
    {
      OncePerDomain(a, b, i, j);
    }
  }

  lemma OncePerDomain(a: seq<Candidate>, b: seq<Candidate>, i: nat, j: nat)
    requires multiset(a) == multiset(b) && i < j < |b|
    requires forall i, j :: 0 <= i < j < |a| ==> a[i].domain != a[j].domain
    ensures b[i].domain != b[j].domain
  {
    assert b[i] in multiset(b) && b[j] in multiset(b);
    assert b[i] in a && b[j] in a;
    if b[i] == b[j] {
      assert b == b[..i] + [b[i]] + b[i + 1..j] + [b[j]] + b[j + 1..];
      assert multiset(b)[b[i]] >= 2;
      AtMostOnce(a, b[i]);
    }
  }

  lemma {:induction false} AtMostOnce(a: seq<Candidate>, c: Candidate)
    requires forall i, j :: 0 <= i < j < |a| ==> a[i].domain != a[j].domain
    ensures multiset(a)[c] <= 1
  {
    if a != [] {
      AtMostOnce(a[1..], c);
      assert a == [a[0]] + a[1..];
      forall k | 0 <= k < |a[1..]|
        ensures a[1..][k] != a[0]
      {
        assert a[1..][k] == a[k + 1];
      }
    }
  }

  /** The selection is a ranked partition of the listed domains, and of the one domain that is preferred
      though not listed, if there is one; the retry time is the true minimum. */
  lemma SelectionPartitions(p: Pool, now: Time, dc: int)
    requires Inv(p)
    ensures Partitioned(p, now, dc, ListedNames(p) + (if PreferredUnlisted(p, dc) then {p.preferred[dc]} else {}),
                        SelectionFor(p, now, dc))
    ensures LeastRetry(now, SelectionFor(p, now, dc))
  {
    var s := Gather(p, now, dc, ItemsFor(p, dc));
    GatherPartitions(p, now, dc, ItemsFor(p, dc));
    GatherRetry(p, now, dc, ItemsFor(p, dc));
    SeenFor(p, dc);
    RankedNames(p, dc, s.candidates);
    SameNames(s.candidates, Ranked(p, dc, s.candidates));
  }

  /** The ranking leads with the manual domains that are ready, in the order they were configured;
      exploration does not touch them. */
  lemma ManualOrder(p: Pool, now: Time, dc: int)
    ensures var cs := SelectionFor(p, now, dc).candidates;
            var manuals := Manuals(Gather(p, now, dc, ItemsFor(p, dc)).candidates);
            && manuals <= cs && NamesOf(manuals) == ReadyInOrder(p, now, dc, p.manual)
            && (forall i :: |manuals| <= i < |cs| ==> cs[i].source != Manual)
  {
    var cached := Items(Led(p, dc, CachedUpstream, Rotated(p.cached, p.cachedCursor)), CachedUpstream);
    var builtin := Items(Led(p, dc, BuiltIn, Rotated(p.builtin, p.builtinCursor)), BuiltIn);
    GatherManuals(p, now, dc, p.manual);
    ItemsNotManual(Led(p, dc, CachedUpstream, Rotated(p.cached, p.cachedCursor)), CachedUpstream);
    ItemsNotManual(Led(p, dc, BuiltIn, Rotated(p.builtin, p.builtinCursor)), BuiltIn);
    GatherOthers(p, now, dc, Items(p.manual, Manual), cached);
    GatherOthers(p, now, dc, Items(p.manual, Manual) + cached, builtin);
    RankedManuals(p, dc, Gather(p, now, dc, ItemsFor(p, dc)).candidates);
  }

  lemma RankedManuals(p: Pool, dc: int, cs: seq<Candidate>)
    ensures Manuals(cs) <= Ranked(p, dc, cs)
    ensures forall i :: |Manuals(cs)| <= i < |Ranked(p, dc, cs)| ==> Ranked(p, dc, cs)[i].source != Manual
  {
    ManualsFirst(cs);
    ManualsAreManual(cs);
    SortedOthers(cs);
    PromotedManuals(Manuals(cs), StableSort(Others(cs)));
  }

  lemma PromotedManuals(manuals: seq<Candidate>, others: seq<Candidate>)
    requires AllManual(manuals) && (forall i :: 0 <= i < |others| ==> others[i].source != Manual)
    ensures manuals <= Promoted(manuals + others)
    ensures forall i :: |manuals| <= i < |manuals + others| ==>
              (manuals + others)[i].source != Manual && Promoted(manuals + others)[i].source != Manual
  {
    var all := manuals + others;
    LeadingManuals(manuals, others);
    PromotionKeeps(all);
    PromotedOthers(all, |manuals|);
    assert all[..|manuals|] == manuals;
    assert manuals == Promoted(all)[..|manuals|];
  }

  lemma {:induction false} LeadingManuals(manuals: seq<Candidate>, others: seq<Candidate>)
    requires AllManual(manuals) && (others != [] ==> others[0].source != Manual)
    ensures FirstNonManual(manuals + others) == |manuals|
  {
    if manuals == [] {
      assert manuals + others == others;
    } else {
      assert (manuals + others)[1..] == manuals[1..] + others;
      LeadingManuals(manuals[1..], others);
    }
  }

  lemma {:induction false} InsertOther(c: Candidate, sorted: seq<Candidate>)
    requires c.source != Manual && (forall i :: 0 <= i < |sorted| ==> sorted[i].source != Manual)
    ensures forall i :: 0 <= i < |Insert(c, sorted)| ==> Insert(c, sorted)[i].source != Manual
  {
    if sorted != [] && Less(sorted[0], c) {
      InsertOther(c, sorted[1..]);
    }
  }

  lemma {:induction false} SortedOthers(cs: seq<Candidate>)
    ensures forall i :: 0 <= i < |StableSort(Others(cs))| ==> StableSort(Others(cs))[i].source != Manual
  {
    if cs != [] {
      SortedOthers(cs[1..]);
      if cs[0].source != Manual {
        InsertOther(cs[0], StableSort(Others(cs[1..])));
        assert Others(cs)[1..] == Others(cs[1..]);
      } else {
        assert Others(cs) == Others(cs[1..]);
      }
    }
  }

  lemma PromotedOthers(cs: seq<Candidate>, k: nat)
    requires k <= |cs| && FirstNonManual(cs) == k && (forall i :: k <= i < |cs| ==> cs[i].source != Manual)
    ensures forall i :: k <= i < |cs| ==> Promoted(cs)[i].source != Manual
  {
    PromotionMovesOne(cs);
    if Promoted(cs) != cs {
      var at :| k < at < |cs| && Promoted(cs) == MoveTo(cs, k, at);
      MoveAmongOthers(cs, k, at);
    }
  }

  lemma MoveAmongOthers(cs: seq<Candidate>, k: nat, at: nat)
    requires k <= at < |cs| && (forall i :: k <= i < |cs| ==> cs[i].source != Manual)
    ensures forall i :: k <= i < |cs| ==> MoveTo(cs, k, at)[i].source != Manual
  {
    var r := MoveTo(cs, k, at);
    assert forall i :: k < i <= at ==> r[i] == cs[i - 1];
    assert forall i :: at < i < |cs| ==> r[i] == cs[i];
  }

  // ---------------------------------------------------------------------------
  // Availability
  // ---------------------------------------------------------------------------

  /** `AvailabilityForDC`, as the names it reports. */
  datatype Availability = Availability(candidates: seq<Name>, cooling: seq<Health>, inFlight: seq<Name>,
                                       retryAfter: real)

  function Observe(p: Pool, now: Time, dc: int, a: Availability, d: Name): Availability {
    match StatusOf(p, now, Key(dc, d))
    case Cooling =>
      var h := p.health[Key(dc, d)];
      a.(cooling := a.cooling + [h],
         retryAfter := Earlier(a.retryAfter, h.cooldownUntil - now))
    case Busy => a.(inFlight := a.inFlight + [d])
    case Ready => a.(candidates := a.candidates + [d])
  }

  function AvailabilityOf(p: Pool, now: Time, dc: int, names: seq<Name>): Availability {
    if names == [] then Availability([], [], [], 0.0)
    else
      var before, last := names[..|names| - 1], names[|names| - 1];
      var a := AvailabilityOf(p, now, dc, before);
      if last in before then a else Observe(p, now, dc, a, last)
  }

  function AvailabilityFor(p: Pool, now: Time, dc: int): Availability {
    AvailabilityOf(p, now, dc, p.manual + p.cached + p.builtin)
  }

  lemma {:induction false} AvailabilityNames(p: Pool, now: Time, dc: int, names: seq<Name>)
    requires Inv(p)
    ensures var a := AvailabilityOf(p, now, dc, names);
            && NameSet(a.candidates) == WithStatus(p, now, dc, NameSet(names), Ready)
            && NameSet(a.inFlight) == WithStatus(p, now, dc, NameSet(names), Busy)
            && HealthNames(a.cooling) == WithStatus(p, now, dc, NameSet(names), Cooling)
    decreases |names|
  {
    if names != [] {
      var before, last := names[..|names| - 1], names[|names| - 1];
      AvailabilityNames(p, now, dc, before);
      NamesSnoc(before, last);
      assert names == before + [last];
      var all := NameSet(before);
      WithStatusAdd(p, now, dc, all, last, Ready);
      WithStatusAdd(p, now, dc, all, last, Busy);
      WithStatusAdd(p, now, dc, all, last, Cooling);
      var a := AvailabilityOf(p, now, dc, before);
      if last in before {
        assert all + {last} == all;
      } else {
        NamesSnoc(a.candidates, last);
        NamesSnoc(a.inFlight, last);
        if StatusOf(p, now, Key(dc, last)) == Cooling {
          HealthNamesSnoc(a.cooling, p.health[Key(dc, last)]);
        }
      }
    }
  }

  /** An observation names every listed domain once, and its retry time is the true minimum too. */
  lemma {:induction false} AvailabilityOnce(p: Pool, now: Time, dc: int, names: seq<Name>)
    requires Inv(p)
    ensures var a := AvailabilityOf(p, now, dc, names);
            && (forall i, j :: 0 <= i < j < |a.candidates| ==> a.candidates[i] != a.candidates[j])
            && (forall i, j :: 0 <= i < j < |a.inFlight| ==> a.inFlight[i] != a.inFlight[j])
            && (forall i, j :: 0 <= i < j < |a.cooling| ==> a.cooling[i].domain != a.cooling[j].domain)
            && LeastRetry(now, Selection([], a.cooling, [], a.retryAfter))
            && (forall h :: h in a.cooling ==> Key(dc, h.domain) in p.health && h == p.health[Key(dc, h.domain)])
    decreases |names|
  {
    if names != [] {
      var before, last := names[..|names| - 1], names[|names| - 1];
      AvailabilityOnce(p, now, dc, before);
      AvailabilityNames(p, now, dc, before);
      var a := AvailabilityOf(p, now, dc, before);
      if last !in before {
        NotIn(NameSet(a.candidates), NameSet(before), last);
        NotIn(NameSet(a.inFlight), NameSet(before), last);
        NotIn(HealthNames(a.cooling), NameSet(before), last);
        if StatusOf(p, now, Key(dc, last)) == Cooling {
          HealthsFresh(a.cooling, p.health[Key(dc, last)]);
          RetrySnoc(now, Selection([], a.cooling, [], a.retryAfter), p.health[Key(dc, last)]);
        }
      }
    }
  }

  lemma NotIn(part: set<Name>, all: set<Name>, d: Name)
    requires part <= all && d !in all
    ensures d !in part
  {
  }

  ghost predicate Agree(s: Selection, a: Availability) {
    && CandidateNames(s.candidates) == NameSet(a.candidates)
    && HealthNames(s.inFlight) == NameSet(a.inFlight)
    && HealthNames(s.cooling) == HealthNames(a.cooling)
  }

  /** Selecting and observing agree on every data centre whose preferred domain is still listed, and on
      no other: there the selection has one domain more. */
  lemma AvailabilityAgrees(p: Pool, now: Time, dc: int)
    requires Inv(p)
    ensures Agree(SelectionFor(p, now, dc), AvailabilityFor(p, now, dc)) <==> !PreferredUnlisted(p, dc)
  {
    SelectionPartitions(p, now, dc);
    AvailabilityNames(p, now, dc, p.manual + p.cached + p.builtin);
    assert NameSet(p.manual + p.cached + p.builtin) == ListedNames(p);
    if PreferredUnlisted(p, dc) {
      var d := p.preferred[dc];
      assert d !in ListedNames(p);
      var names := ListedNames(p) + {d};
      match StatusOf(p, now, Key(dc, d))
      case Ready => assert d in WithStatus(p, now, dc, names, Ready);
      case Busy => assert d in WithStatus(p, now, dc, names, Busy);
      case Cooling => assert d in WithStatus(p, now, dc, names, Cooling);
    } else {
      assert ListedNames(p) + {} == ListedNames(p);
    }
  }

  /** How that comes about: a domain succeeds and is then removed from its list. */
  lemma RemovedDomainComesBack(d: Name, dc: int, p: Pool)
    requires p == SetBuiltin(MarkSuccess(SetBuiltin(NewPool(), [d]), 1.0, Key(dc, d), 0), [])
    ensures !Listed(p, d) && PreferredUnlisted(p, dc) && d in CandidateNames(SelectionFor(p, 2.0, dc).candidates)
  {
    assert Inv(p);
    SelectionPartitions(p, 2.0, dc);
    assert d in WithStatus(p, 2.0, dc, ListedNames(p) + {d}, Ready);
  }
}
