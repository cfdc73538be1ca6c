/**
 One `Connect` call of the CF proxy connector, run alone over the pool object
 (native/tgwsproxy/mtproto_ws_route.go).
 */
module CfCall {
  import opened ByteStreams
  import opened CfPool
  import opened CfSelection
  import opened CfDomainPool

  // ---------------------------------------------------------------------------
  // One call
  // ---------------------------------------------------------------------------

  /** What happens outside the pool while a candidate is tried: whether the context is found cancelled at
      each of its checks, how the dial ends, and whether the packet splitter can be built. */
  datatype Weather = Weather(
    cancelledBefore: bool,
    cancelledReserved: bool,
    cancelledDialed: bool,
    dialError: Option<Failure>,
    cancelledBuilt: bool,
    splitterFails: bool)

  datatype Settings = Settings(policyPresent: bool, allowCFProxy: bool, enabled: bool)

  datatype Reason = Cancelled | TestDC | DisabledByPolicy | Disabled | Unavailable | SplitterError
    | DialError(kind: Failure) | Success

  /** A dial that was made: the place of the candidate in the ranking, and the failure recorded, if any. */
  datatype Dialed = Dialed(index: nat, error: Option<Failure>)

  predicate RulesOutCached(candidates: seq<Candidate>, d: Dialed) {
    d.index < |candidates| && candidates[d.index].source == CachedUpstream && d.error == Some(Dns)
  }

  /** Dials go down the ranking, and after a DNS failure of a cached upstream domain to no other one. */
  ghost predicate InOrder(candidates: seq<Candidate>, dials: seq<Dialed>) {
    && (forall i :: 0 <= i < |dials| ==> dials[i].index < |candidates|)
    && (forall i, j :: 0 <= i < j < |dials| ==> dials[i].index < dials[j].index)
    && (forall i, j :: 0 <= i < j < |dials| && RulesOutCached(candidates, dials[i]) ==>
          candidates[dials[j].index].source != CachedUpstream)
  }

  /** What became of one candidate. */
  datatype Tried = NotReserved | Stopped | Broken(kind: Failure, splitter: bool) | Streaming

  /** One candidate, reserved at `now`, its dial over at `later`. */
  function Try(p: Pool, key: Key, now: Time, later: Time, w: Weather): (Pool, Tried) {
    var (q, granted) := TryReserve(p, now, key);
    if !granted then (q, NotReserved)
    else if w.cancelledReserved || w.cancelledDialed then (Release(q, key), Stopped)
    else if w.dialError.Some? then (MarkFailure(q, later, key, w.dialError.value, 0), Broken(w.dialError.value, false))
    else if w.cancelledBuilt then (Release(q, key), Stopped)
    else if w.splitterFails then (MarkFailure(q, later, key, WebSocket, 0), Broken(WebSocket, true))
    else (Release(MarkSuccess(q, later, key, 0), key), Streaming)
  }

  /** Whatever becomes of a candidate, the reservation is given back; a failed one is left cooling. */
  lemma TryGivesBack(p: Pool, key: Key, now: Time, later: Time, w: Weather)
    ensures var (q, tried) := Try(p, key, now, later, w);
            && q.inFlight == p.inFlight
            && (tried == NotReserved <==> !TryReserve(p, now, key).1)
            && (tried.Broken? ==> key in q.health && q.health[key].cooldownUntil > later)
            && (tried.Streaming? ==>
                  key in q.health && q.health[key].cooldownUntil == 0.0 &&
                  q.preferred == p.preferred[key.dc := key.domain])
            && (tried.Broken? ==> if tried.splitter then tried.kind == WebSocket else w.dialError == Some(tried.kind))
            && (if tried.Broken? || tried.Streaming? then Recorded(p, q, key, now, later, ErrorOf(tried))
                else Untouched(p, q, key))
  {
    ReserveIff(p, now, key);
    var q := TryReserve(p, now, key).0;
    if w.dialError.Some? {
      FailureCools(q, later, key, w.dialError.value);
    }
    FailureCools(q, later, key, WebSocket);
  }

  function ErrorOf(tried: Tried): Option<Failure> {
    if tried.Broken? then Some(tried.kind) else None
  }

  /** Nothing is on record of a candidate that was not dialed, or whose dial was cancelled. */
  ghost predicate Untouched(p: Pool, q: Pool, key: Key) {
    && (key in p.health ==> key in q.health)
    && (key in q.health ==> SameRecord(HealthOf(p, key, BuiltIn), q.health[key]))
  }

  /** One dial on record: a stream is counted and ends the cooldown, an error is counted and starts one. */
  ghost predicate Recorded(p: Pool, q: Pool, key: Key, now: Time, later: Time, error: Option<Failure>) {
    var before := HealthOf(p, key, BuiltIn);
    key in q.health &&
    match error
    case None =>
      && q.health[key].cooldownUntil == 0.0 && q.health[key].consecutive == 0
      && q.health[key].successCount == before.successCount + 1 && q.health[key].failureCount == before.failureCount
    case Some(kind) =>
      && q.health[key].cooldownUntil > later && q.health[key].successCount == before.successCount
      && (now <= later ==>
            && q.health[key].lastFailureReason == Some(kind) && q.health[key].lastFailureAt == later
            && q.health[key].failureCount == before.failureCount + 1
            && q.health[key].consecutive == before.consecutive + 1)
  }

  /** After a failure the domain is cooling, whether the failure was counted or fell into a cooldown. */
  lemma FailureCools(p: Pool, now: Time, key: Key, kind: Failure)
    ensures var q := MarkFailure(p, now, key, kind, 0);
            key in q.health && q.health[key].cooldownUntil > now && q.inFlight == p.inFlight - {key}
  {
    var h := HealthOf(p, key, SourceOf(p, key.domain));
    CooldownBounds(kind, h.source, h.consecutive + 1, h.consecutive + 1);
  }

  /** The call's variables between two candidates, and whether it has returned. */
  datatype Attempts = Attempts(pool: Pool, skipCached: bool, reason: Reason, dials: seq<Dialed>, over: bool)

  /** What a call does with candidate i. */
  function Visit(a: Attempts, dc: int, candidates: seq<Candidate>, i: nat, now: Time, later: Time, w: Weather): Attempts
    requires i < |candidates|
  {
    if w.cancelledBefore then a.(reason := Cancelled, over := true)
    else if a.skipCached && candidates[i].source == CachedUpstream then a
    else
      var (pool, tried) := Try(a.pool, Key(dc, candidates[i].domain), now, later, w);
      match tried
      case NotReserved => a.(pool := pool)
      case Stopped => a.(pool := pool, reason := Cancelled, over := true)
      case Broken(kind, splitter) =>
        Attempts(pool, a.skipCached || (!splitter && candidates[i].source == CachedUpstream && kind == Dns),
                 if splitter then SplitterError else DialError(kind), a.dials + [Dialed(i, Some(kind))], false)
      case Streaming => a.(pool := pool, reason := Success, dials := a.dials + [Dialed(i, None)], over := true)
  }

  /** A call's clocks and outside events, by candidate: when it is reserved, when its dial is over. */
  datatype Outside = Outside(now: nat -> Time, later: nat -> Time, weather: nat -> Weather)

  /** The candidates from the i-th on, until the call returns. */
  function VisitAll(a: Attempts, dc: int, candidates: seq<Candidate>, i: nat, o: Outside): Attempts
    requires i <= |candidates|
    decreases |candidates| - i
  {
    if a.over || i == |candidates| then a
    else VisitAll(Visit(a, dc, candidates, i, o.now(i), o.later(i), o.weather(i)), dc, candidates, i + 1, o)
  }

  /** A call before its first candidate. */
  function Untried(p: Pool): Attempts {
    Attempts(p, false, Unavailable, [], false)
  }

  /** How a call that has made these dials would end if no further domain could be dialed. */
  predicate EndsWith(reason: Reason, dials: seq<Dialed>) {
    match reason
    case Unavailable => dials == []
    case SplitterError => dials != [] && dials[|dials| - 1].error == Some(WebSocket)
    case DialError(kind) => dials != [] && dials[|dials| - 1].error == Some(kind)
    case Success => dials != [] && dials[|dials| - 1].error == None
    case Cancelled => true
    case _ => false
  }

  /** The knowledge of the dials so far. */
  ghost predicate Progress(candidates: seq<Candidate>, next: nat, skipCached: bool, dials: seq<Dialed>) {
    && next <= |candidates| && InOrder(candidates, dials)
    && (forall i :: 0 <= i < |dials| ==> dials[i].index < next)
    && (forall i :: 0 <= i < |dials| && RulesOutCached(candidates, dials[i]) ==> skipCached)
  }

  lemma ProgressSnoc(candidates: seq<Candidate>, next: nat, skipCached: bool, dials: seq<Dialed>,
                     error: Option<Failure>, skip': bool)
    requires Progress(candidates, next, skipCached, dials) && next < |candidates|
    requires !(skipCached && candidates[next].source == CachedUpstream)
    requires skipCached ==> skip'
    requires candidates[next].source == CachedUpstream && error == Some(Dns) ==> skip'
    ensures Progress(candidates, next + 1, skip', dials + [Dialed(next, error)])
  {
  }

  ghost predicate Proper(p: Pool, dc: int, candidates: seq<Candidate>, k: nat, a: Attempts) {
    && a.pool.inFlight == p.inFlight
    && Progress(candidates, k, a.skipCached, a.dials) && EndsWith(a.reason, a.dials)
    && (a.reason == Success ==> dc in a.pool.preferred
                                && a.pool.preferred[dc] == candidates[a.dials[|a.dials| - 1].index].domain)
    && (a.over <==> a.reason == Cancelled || a.reason == Success)
  }

  lemma VisitProper(p: Pool, dc: int, candidates: seq<Candidate>, i: nat, a: Attempts, now: Time, later: Time,
                    w: Weather)
    requires i < |candidates| && Proper(p, dc, candidates, i, a) && !a.over
    ensures Proper(p, dc, candidates, i + 1, Visit(a, dc, candidates, i, now, later, w))
  {
    var b := Visit(a, dc, candidates, i, now, later, w);
    if !w.cancelledBefore && !(a.skipCached && candidates[i].source == CachedUpstream) {
      TryGivesBack(a.pool, Key(dc, candidates[i].domain), now, later, w);
      match Try(a.pool, Key(dc, candidates[i].domain), now, later, w).1
      case Broken(kind, _) => ProgressSnoc(candidates, i, a.skipCached, a.dials, Some(kind), b.skipCached);
      case Streaming => ProgressSnoc(candidates, i, a.skipCached, a.dials, None, b.skipCached);
      case _ =>
    }
  }

  /** Whatever happens outside, a call leaves no reservation behind, dials down the ranking, never a cached
      upstream domain after a DNS failure of one, and ends with the outcome of its last dial. */
  lemma {:induction false} AttemptsProper(p: Pool, dc: int, candidates: seq<Candidate>, i: nat, a: Attempts, o: Outside)
    returns (k: nat)
    requires i <= |candidates| && Proper(p, dc, candidates, i, a)
    ensures i <= k <= |candidates| && Proper(p, dc, candidates, k, VisitAll(a, dc, candidates, i, o))
    decreases |candidates| - i
  {
    k := i;
    if !a.over && i < |candidates| {
      var b := Visit(a, dc, candidates, i, o.now(i), o.later(i), o.weather(i));
      VisitProper(p, dc, candidates, i, a, o.now(i), o.later(i), o.weather(i));
      k := AttemptsProper(p, dc, candidates, i + 1, b, o);
    }
  }

  lemma {:induction false} TriedStays(dc: int, candidates: seq<Candidate>, i: nat, a: Attempts, o: Outside)
    requires i <= |candidates| && a.reason != Unavailable
    ensures VisitAll(a, dc, candidates, i, o).reason != Unavailable
    decreases |candidates| - i
  {
    if !a.over && i < |candidates| {
      VisitTried(a, dc, candidates, i, o.now(i), o.later(i), o.weather(i));
      TriedStays(dc, candidates, i + 1, Visit(a, dc, candidates, i, o.now(i), o.later(i), o.weather(i)), o);
    }
  }

  lemma VisitTried(a: Attempts, dc: int, candidates: seq<Candidate>, i: nat, now: Time, later: Time, w: Weather)
    requires i < |candidates| && a.reason != Unavailable
    ensures Visit(a, dc, candidates, i, now, later, w).reason != Unavailable
  {
  }

  /** A call that is given a candidate, run alone, never reports the pool as unavailable: the first one can
      be reserved, so it is dialed or the call is cancelled. */
  lemma CandidateIsTried(p: Pool, start: Time, dc: int, o: Outside)
    requires Inv(p) && o.now(0) >= start && SelectionFor(p, start, dc).candidates != []
    ensures var candidates := SelectionFor(p, start, dc).candidates;
            VisitAll(Untried(Selected(p, dc)), dc, candidates, 0, o).reason != Unavailable
  {
    var candidates := SelectionFor(p, start, dc).candidates;
    var key := Key(dc, candidates[0].domain);
    SelectionPartitions(p, start, dc);
    assert candidates[0].domain in CandidateNames(candidates);
    assert StatusOf(p, start, key) == Ready;
    GatheredEntries(p, dc, ItemsFor(p, dc), key);
    FirstIsTried(Selected(p, dc), dc, candidates, o.now(0), o.later(0), o.weather(0));
    TriedStays(dc, candidates, 1,
               Visit(Untried(Selected(p, dc)), dc, candidates, 0, o.now(0), o.later(0), o.weather(0)), o);
  }

  lemma FirstIsTried(p: Pool, dc: int, candidates: seq<Candidate>, now: Time, later: Time, w: Weather)
    requires candidates != []
    requires var key := Key(dc, candidates[0].domain);
             key !in p.inFlight && (key in p.health ==> p.health[key].cooldownUntil <= now)
    ensures Visit(Untried(p), dc, candidates, 0, now, later, w).reason != Unavailable
  {
    var key := Key(dc, candidates[0].domain);
    ReserveIff(p, now, key);
    TryGivesBack(p, key, now, later, w);
  }

  // ---------------------------------------------------------------------------
  // What a call does, told by the pool it starts from and the outside alone
  // ---------------------------------------------------------------------------

  /** Nobody holds the domain, and it is not in cooldown. */
  predicate Grantable(p: Pool, key: Key, now: Time) {
    key !in p.inFlight && (key in p.health ==> p.health[key].cooldownUntil <= now)
  }

  /** A cached upstream domain after a DNS failure of one. */
  ghost predicate RuledOut(candidates: seq<Candidate>, dials: seq<Dialed>, i: nat)
    requires i < |candidates|
  {
    candidates[i].source == CachedUpstream
    && exists d :: d in dials && d.index < i && RulesOutCached(candidates, d)
  }

  ghost predicate IsReserved(p: Pool, dc: int, candidates: seq<Candidate>, o: Outside, dials: seq<Dialed>, i: nat)
    requires i < |candidates|
  {
    Grantable(p, Key(dc, candidates[i].domain), o.now(i)) && !RuledOut(candidates, dials, i)
  }

  /** The call is found cancelled at a check it comes to. */
  predicate CancelSeen(w: Weather, reserved: bool) {
    w.cancelledBefore
    || (reserved && (w.cancelledReserved || w.cancelledDialed || (w.dialError == None && w.cancelledBuilt)))
  }

  /** Why a dialed candidate gives no stream, if it does not. */
  function FailureOf(w: Weather): Option<Failure> {
    if w.dialError.Some? then w.dialError else if w.splitterFails then Some(WebSocket) else None
  }

  /** Candidate i is the last one the call looks at. */
  ghost predicate Ends(p: Pool, dc: int, candidates: seq<Candidate>, o: Outside, dials: seq<Dialed>, i: nat)
    requires i < |candidates|
  {
    var reserved := IsReserved(p, dc, candidates, o, dials, i);
    CancelSeen(o.weather(i), reserved) || (reserved && FailureOf(o.weather(i)) == None)
  }

  ghost predicate WasDialed(dials: seq<Dialed>, i: nat) {
    exists d :: d in dials && d.index == i
  }

  /** Of the first k candidates exactly those are dialed that can be reserved, are not ruled out, and are not
      cut off by a cancellation; each with the outcome the outside gives it. */
  ghost predicate RightDials(p: Pool, dc: int, candidates: seq<Candidate>, o: Outside, k: nat, dials: seq<Dialed>) {
    && k <= |candidates| && InOrder(candidates, dials)
    && (forall d :: d in dials ==> d.index < k && d.error == FailureOf(o.weather(d.index)))
    && (forall i :: 0 <= i < k ==>
          (WasDialed(dials, i) <==>
           IsReserved(p, dc, candidates, o, dials, i) && !CancelSeen(o.weather(i), true)))
  }

  /** The reason when no candidate is left: that of the last dial. */
  function ExhaustedReason(o: Outside, dials: seq<Dialed>): Reason {
    if dials == [] then Unavailable
    else
      match o.weather(dials[|dials| - 1].index).dialError
      case Some(kind) => DialError(kind)
      case None => SplitterError
  }

  /** The call looks at k candidates: the first that ends it is the last of them, and without one it looks
      at all. */
  ghost predicate RightEnd(p: Pool, dc: int, candidates: seq<Candidate>, o: Outside, k: nat, dials: seq<Dialed>,
                           reason: Reason)
    requires k <= |candidates|
  {
    && (forall i :: 0 <= i < k - 1 ==> !Ends(p, dc, candidates, o, dials, i))
    && if k > 0 && Ends(p, dc, candidates, o, dials, k - 1) then
         reason == if CancelSeen(o.weather(k - 1), IsReserved(p, dc, candidates, o, dials, k - 1)) then Cancelled
                   else Success
       else k == |candidates| && reason == ExhaustedReason(o, dials)
  }

  ghost predicate SameEntry(p: Pool, q: Pool, key: Key) {
    (key in q.health <==> key in p.health) && (key in p.health ==> q.health[key] == p.health[key])
  }

  ghost predicate UnvisitedKept(p: Pool, dc: int, candidates: seq<Candidate>, k: nat, q: Pool)
    requires k <= |candidates|
  {
    forall key :: !Visited(dc, candidates, k, key) ==> SameEntry(p, q, key)
  }

  ghost predicate OnRecord(p: Pool, dc: int, candidates: seq<Candidate>, o: Outside, k: nat, dials: seq<Dialed>,
                           q: Pool)
    requires k <= |candidates| && forall d :: d in dials ==> d.index < k
  {
    && (forall d :: d in dials ==>
          Recorded(p, q, Key(dc, candidates[d.index].domain), o.now(d.index), o.later(d.index), d.error))
    && (forall i :: 0 <= i < k && !WasDialed(dials, i) ==> Untouched(p, q, Key(dc, candidates[i].domain)))
  }

  /** What the dials leave behind: each on record, a failed domain cooling, the one that streams preferred and
      free of cooldown, and nothing else changed. */
  ghost predicate RightPool(p: Pool, dc: int, candidates: seq<Candidate>, o: Outside, k: nat, dials: seq<Dialed>,
                            q: Pool)
    requires k <= |candidates| && forall d :: d in dials ==> d.index < k
  {
    && q.inFlight == p.inFlight
    && UnvisitedKept(p, dc, candidates, k, q)
    && OnRecord(p, dc, candidates, o, k, dials, q)
    && q == p.(health := q.health, inFlight := q.inFlight, preferred := q.preferred)
    && q.preferred == if dials != [] && dials[|dials| - 1].error == None
                      then p.preferred[dc := candidates[dials[|dials| - 1].index].domain] else p.preferred
  }

  ghost predicate Visited(dc: int, candidates: seq<Candidate>, k: nat, key: Key)
    requires k <= |candidates|
  {
    key.dc == dc && exists i :: 0 <= i < k && candidates[i].domain == key.domain
  }

  ghost predicate Distinct(candidates: seq<Candidate>) {
    forall i, j :: 0 <= i < j < |candidates| ==> candidates[i].domain != candidates[j].domain
  }

  lemma TryTouches(p: Pool, key: Key, now: Time, later: Time, w: Weather)
    ensures var (q, tried) := Try(p, key, now, later, w);
            && OthersKept(p, q, key) && q == p.(health := q.health, inFlight := q.inFlight, preferred := q.preferred)
            && (tried == NotReserved <==> !Grantable(p, key, now))
            && (!tried.Streaming? ==> q.preferred == p.preferred)
  {
    ReserveIff(p, now, key);
  }

  lemma LaterDialsMatterNot(candidates: seq<Candidate>, dials: seq<Dialed>, last: Dialed, i: nat)
    requires i < |candidates| && i <= last.index
    ensures RuledOut(candidates, dials + [last], i) == RuledOut(candidates, dials, i)
  {
    assert forall d :: d in dials ==> d in dials + [last];
  }

  /** The first i candidates are behind the call, and none of them ended it. */
  ghost predicate Passed(p: Pool, dc: int, candidates: seq<Candidate>, o: Outside, i: nat, dials: seq<Dialed>) {
    && RightDials(p, dc, candidates, o, i, dials)
    && (forall j :: 0 <= j < i ==> !Ends(p, dc, candidates, o, dials, j))
    && (forall d :: d in dials ==> d.error != None)
  }

  ghost predicate CachedFailed(candidates: seq<Candidate>, dials: seq<Dialed>) {
    exists d :: d in dials && RulesOutCached(candidates, d)
  }

  /** What is known between two candidates. */
  ghost predicate Scanned(p: Pool, dc: int, candidates: seq<Candidate>, o: Outside, i: nat, a: Attempts) {
    && Passed(p, dc, candidates, o, i, a.dials) && !a.over
    && a.reason == ExhaustedReason(o, a.dials)
    && RightPool(p, dc, candidates, o, i, a.dials, a.pool)
    && a.skipCached == CachedFailed(candidates, a.dials)
  }

  ghost predicate Explained(p: Pool, dc: int, candidates: seq<Candidate>, o: Outside, k: nat, dials: seq<Dialed>,
                            reason: Reason, q: Pool) {
    && RightDials(p, dc, candidates, o, k, dials)
    && RightEnd(p, dc, candidates, o, k, dials, reason)
    && RightPool(p, dc, candidates, o, k, dials, q)
  }

  lemma DialsWithout(p: Pool, dc: int, candidates: seq<Candidate>, o: Outside, i: nat, dials: seq<Dialed>)
    requires RightDials(p, dc, candidates, o, i, dials) && i < |candidates|
    requires !IsReserved(p, dc, candidates, o, dials, i) || CancelSeen(o.weather(i), true)
    ensures RightDials(p, dc, candidates, o, i + 1, dials)
  {
  }

  lemma DialsWith(p: Pool, dc: int, candidates: seq<Candidate>, o: Outside, i: nat, dials: seq<Dialed>, last: Dialed)
    requires RightDials(p, dc, candidates, o, i, dials) && i < |candidates|
    requires IsReserved(p, dc, candidates, o, dials, i) && !CancelSeen(o.weather(i), true)
    requires last == Dialed(i, FailureOf(o.weather(i)))
    ensures RightDials(p, dc, candidates, o, i + 1, dials + [last])
    ensures forall j :: 0 <= j <= i ==>
              IsReserved(p, dc, candidates, o, dials + [last], j) == IsReserved(p, dc, candidates, o, dials, j)
    ensures forall j :: 0 <= j <= i ==>
              Ends(p, dc, candidates, o, dials + [last], j) == Ends(p, dc, candidates, o, dials, j)
  {
    var longer := dials + [last];
    forall j | 0 <= j <= i
      ensures IsReserved(p, dc, candidates, o, longer, j) == IsReserved(p, dc, candidates, o, dials, j)
    {
      LaterDialsMatterNot(candidates, dials, last, j);
    }
    StillInOrder(candidates, i, dials, last);
    forall j | 0 <= j <= i
      ensures WasDialed(longer, j) <==> WasDialed(dials, j) || j == i
    {
      assert last in longer && forall d :: d in dials ==> d in longer;
    }
  }

  lemma StillInOrder(candidates: seq<Candidate>, i: nat, dials: seq<Dialed>, last: Dialed)
    requires InOrder(candidates, dials) && last.index == i < |candidates|
    requires !RuledOut(candidates, dials, i) && forall d :: d in dials ==> d.index < i
    ensures InOrder(candidates, dials + [last])
  {
    forall j | 0 <= j < |dials|
      ensures dials[j].index < i
      ensures RulesOutCached(candidates, dials[j]) ==> candidates[i].source != CachedUpstream
    {
      assert dials[j] in dials;
    }
  }

  /** Candidate i is the first of its domain, so its entry is still the one the call began with. */
  lemma FirstOfItsDomain(dc: int, candidates: seq<Candidate>, i: nat)
    requires Distinct(candidates) && i < |candidates|
    ensures !Visited(dc, candidates, i, Key(dc, candidates[i].domain))
    ensures forall key :: Visited(dc, candidates, i + 1, key)
                          <==> Visited(dc, candidates, i, key) || key == Key(dc, candidates[i].domain)
  {
    forall key
      ensures Visited(dc, candidates, i + 1, key)
              <==> Visited(dc, candidates, i, key) || key == Key(dc, candidates[i].domain)
    {
      if key.dc == dc && key.domain == candidates[i].domain {
        assert Visited(dc, candidates, i + 1, key);
      }
    }
  }

  lemma EntryUsed(p: Pool, q: Pool, r: Pool, key: Key, now: Time, later: Time, error: Option<Failure>)
    requires SameEntry(p, q, key)
    ensures Untouched(q, r, key) ==> Untouched(p, r, key)
    ensures Recorded(q, r, key, now, later, error) ==> Recorded(p, r, key, now, later, error)
  {
  }

  lemma EntryKept(p: Pool, q: Pool, r: Pool, key: Key, now: Time, later: Time, error: Option<Failure>)
    requires SameEntry(q, r, key)
    ensures Untouched(p, q, key) ==> Untouched(p, r, key)
    ensures Recorded(p, q, key, now, later, error) ==> Recorded(p, r, key, now, later, error)
  {
  }

  lemma UnvisitedStill(p: Pool, dc: int, candidates: seq<Candidate>, i: nat, q: Pool, r: Pool)
    requires i < |candidates| && UnvisitedKept(p, dc, candidates, i, q)
    requires OthersKept(q, r, Key(dc, candidates[i].domain))
    ensures UnvisitedKept(p, dc, candidates, i + 1, r)
  {
    forall key | !Visited(dc, candidates, i + 1, key)
      ensures SameEntry(p, r, key)
    {
      assert key != Key(dc, candidates[i].domain) && !Visited(dc, candidates, i, key);
      assert SameEntry(p, q, key);
    }
  }

  /** What is on record of the candidates before stays on record. */
  lemma RecordsKept(p: Pool, dc: int, candidates: seq<Candidate>, o: Outside, i: nat, dials: seq<Dialed>, q: Pool,
                    r: Pool)
    requires Distinct(candidates) && i < |candidates| && (forall d :: d in dials ==> d.index < i)
    requires OnRecord(p, dc, candidates, o, i, dials, q) && OthersKept(q, r, Key(dc, candidates[i].domain))
    ensures OnRecord(p, dc, candidates, o, i, dials, r)
  {
    forall d | d in dials
      ensures Recorded(p, r, Key(dc, candidates[d.index].domain), o.now(d.index), o.later(d.index), d.error)
    {
      EntryKept(p, q, r, Key(dc, candidates[d.index].domain), o.now(d.index), o.later(d.index), d.error);
    }
    forall j | 0 <= j < i && !WasDialed(dials, j)
      ensures Untouched(p, r, Key(dc, candidates[j].domain))
    {
      EntryKept(p, q, r, Key(dc, candidates[j].domain), 0.0, 0.0, None);
    }
  }

  lemma RecordWithout(p: Pool, dc: int, candidates: seq<Candidate>, o: Outside, i: nat, dials: seq<Dialed>, r: Pool)
    requires i < |candidates| && (forall d :: d in dials ==> d.index < i)
    requires OnRecord(p, dc, candidates, o, i, dials, r) && Untouched(p, r, Key(dc, candidates[i].domain))
    ensures OnRecord(p, dc, candidates, o, i + 1, dials, r)
  {
  }

  lemma RecordWith(p: Pool, dc: int, candidates: seq<Candidate>, o: Outside, i: nat, dials: seq<Dialed>, last: Dialed,
                   r: Pool)
    requires i < |candidates| && (forall d :: d in dials ==> d.index < i) && last.index == i
    requires OnRecord(p, dc, candidates, o, i, dials, r)
    requires Recorded(p, r, Key(dc, candidates[i].domain), o.now(i), o.later(i), last.error)
    ensures OnRecord(p, dc, candidates, o, i + 1, dials + [last], r)
  {
    var longer := dials + [last];
    forall j | 0 <= j < i + 1 && !WasDialed(longer, j)
      ensures Untouched(p, r, Key(dc, candidates[j].domain))
    {
      assert last in longer && forall d :: d in dials ==> d in longer;
      assert j != i && !WasDialed(dials, j);
    }
  }

  lemma PoolWithout(p: Pool, dc: int, candidates: seq<Candidate>, o: Outside, i: nat, dials: seq<Dialed>, q: Pool,
                    r: Pool)
    requires Distinct(candidates) && i < |candidates| && (forall d :: d in dials ==> d.index < i)
    requires RightPool(p, dc, candidates, o, i, dials, q)
    requires r.inFlight == q.inFlight && r.preferred == q.preferred
    requires r == q.(health := r.health, inFlight := r.inFlight, preferred := r.preferred)
    requires OthersKept(q, r, Key(dc, candidates[i].domain)) && Untouched(q, r, Key(dc, candidates[i].domain))
    ensures RightPool(p, dc, candidates, o, i + 1, dials, r)
  {
    FirstOfItsDomain(dc, candidates, i);
    assert SameEntry(p, q, Key(dc, candidates[i].domain));
    UnvisitedStill(p, dc, candidates, i, q, r);
    RecordsKept(p, dc, candidates, o, i, dials, q, r);
    EntryUsed(p, q, r, Key(dc, candidates[i].domain), 0.0, 0.0, None);
    RecordWithout(p, dc, candidates, o, i, dials, r);
  }

  lemma PoolWith(p: Pool, dc: int, candidates: seq<Candidate>, o: Outside, i: nat, dials: seq<Dialed>, q: Pool,
                 last: Dialed, r: Pool)
    requires Distinct(candidates) && i < |candidates| && (forall d :: d in dials ==> d.index < i)
    requires RightPool(p, dc, candidates, o, i, dials, q) && last.index == i
    requires r.inFlight == q.inFlight && q.preferred == p.preferred
    requires r.preferred == if last.error == None then p.preferred[dc := candidates[i].domain] else p.preferred
    requires OthersKept(q, r, Key(dc, candidates[i].domain))
    requires r == q.(health := r.health, inFlight := r.inFlight, preferred := r.preferred)
    requires Recorded(q, r, Key(dc, candidates[i].domain), o.now(i), o.later(i), last.error)
    ensures RightPool(p, dc, candidates, o, i + 1, dials + [last], r)
  {
    FirstOfItsDomain(dc, candidates, i);
    assert SameEntry(p, q, Key(dc, candidates[i].domain));
    UnvisitedStill(p, dc, candidates, i, q, r);
    RecordsKept(p, dc, candidates, o, i, dials, q, r);
    EntryUsed(p, q, r, Key(dc, candidates[i].domain), o.now(i), o.later(i), last.error);
    RecordWith(p, dc, candidates, o, i, dials, last, r);
  }

  /** The candidate at its turn stands as it stood when the call began. */
  lemma ReservedAtItsTurn(p: Pool, dc: int, candidates: seq<Candidate>, o: Outside, i: nat, a: Attempts)
    requires Distinct(candidates) && i < |candidates| && Scanned(p, dc, candidates, o, i, a)
    ensures IsReserved(p, dc, candidates, o, a.dials, i)
       <==> !(a.skipCached && candidates[i].source == CachedUpstream)
            && Grantable(a.pool, Key(dc, candidates[i].domain), o.now(i))
  {
    FirstOfItsDomain(dc, candidates, i);
    if CachedFailed(candidates, a.dials) {
      assert exists d :: d in a.dials && d.index < i && RulesOutCached(candidates, d);
    }
  }

  /** One candidate that is not dialed: passed over, or the call is cancelled at it. */
  lemma PassedWithout(p: Pool, dc: int, candidates: seq<Candidate>, o: Outside, i: nat, dials: seq<Dialed>)
    requires Passed(p, dc, candidates, o, i, dials) && i < |candidates|
    requires !IsReserved(p, dc, candidates, o, dials, i) || CancelSeen(o.weather(i), true)
    ensures if CancelSeen(o.weather(i), IsReserved(p, dc, candidates, o, dials, i)) then
              RightDials(p, dc, candidates, o, i + 1, dials) && RightEnd(p, dc, candidates, o, i + 1, dials, Cancelled)
            else Passed(p, dc, candidates, o, i + 1, dials)
  {
    DialsWithout(p, dc, candidates, o, i, dials);
  }

  /** One candidate that is dialed. */
  lemma PassedWith(p: Pool, dc: int, candidates: seq<Candidate>, o: Outside, i: nat, dials: seq<Dialed>, last: Dialed)
    requires Passed(p, dc, candidates, o, i, dials) && i < |candidates|
    requires IsReserved(p, dc, candidates, o, dials, i) && !CancelSeen(o.weather(i), true)
    requires last == Dialed(i, FailureOf(o.weather(i)))
    ensures var longer := dials + [last];
            if last.error == None then
              RightDials(p, dc, candidates, o, i + 1, longer) && RightEnd(p, dc, candidates, o, i + 1, longer, Success)
            else Passed(p, dc, candidates, o, i + 1, longer)
  {
    DialsWith(p, dc, candidates, o, i, dials, last);
  }

  lemma CachedFailedWith(candidates: seq<Candidate>, dials: seq<Dialed>, last: Dialed)
    ensures CachedFailed(candidates, dials + [last])
       <==> CachedFailed(candidates, dials) || RulesOutCached(candidates, last)
  {
    assert last in dials + [last] && forall d :: d in dials ==> d in dials + [last];
  }

  lemma NoStreamYet(p: Pool, dc: int, candidates: seq<Candidate>, o: Outside, i: nat, a: Attempts)
    requires Scanned(p, dc, candidates, o, i, a)
    ensures a.pool.preferred == p.preferred
  {
    if a.dials != [] {
      assert a.dials[|a.dials| - 1] in a.dials;
    }
  }

  /** What follows a Try that ends in a dial with a result. */
  lemma TryDialed(p: Pool, dc: int, candidates: seq<Candidate>, o: Outside, i: nat, a: Attempts, q: Pool, tried: Tried)
    requires Distinct(candidates) && i < |candidates| && Scanned(p, dc, candidates, o, i, a)
    requires (q, tried) == Try(a.pool, Key(dc, candidates[i].domain), o.now(i), o.later(i), o.weather(i))
    requires !o.weather(i).cancelledBefore && !(a.skipCached && candidates[i].source == CachedUpstream)
    requires tried.Broken? || tried.Streaming?
    ensures IsReserved(p, dc, candidates, o, a.dials, i) && !CancelSeen(o.weather(i), true)
    ensures FailureOf(o.weather(i)) == if tried.Broken? then Some(tried.kind) else None
    ensures RightPool(p, dc, candidates, o, i + 1, a.dials + [Dialed(i, FailureOf(o.weather(i)))], q)
  {
    var key := Key(dc, candidates[i].domain);
    ReservedAtItsTurn(p, dc, candidates, o, i, a);
    TryGivesBack(a.pool, key, o.now(i), o.later(i), o.weather(i));
    TryTouches(a.pool, key, o.now(i), o.later(i), o.weather(i));
    NoStreamYet(p, dc, candidates, o, i, a);
    PoolWith(p, dc, candidates, o, i, a.dials, a.pool, Dialed(i, FailureOf(o.weather(i))), q);
  }

  lemma TryPassed(p: Pool, dc: int, candidates: seq<Candidate>, o: Outside, i: nat, a: Attempts, q: Pool, tried: Tried)
    requires Distinct(candidates) && i < |candidates| && Scanned(p, dc, candidates, o, i, a)
    requires (q, tried) == Try(a.pool, Key(dc, candidates[i].domain), o.now(i), o.later(i), o.weather(i))
    requires !o.weather(i).cancelledBefore && !(a.skipCached && candidates[i].source == CachedUpstream)
    requires tried == NotReserved || tried == Stopped
    ensures CancelSeen(o.weather(i), IsReserved(p, dc, candidates, o, a.dials, i)) <==> tried == Stopped
    ensures !IsReserved(p, dc, candidates, o, a.dials, i) || CancelSeen(o.weather(i), true)
    ensures RightPool(p, dc, candidates, o, i + 1, a.dials, q)
  {
    var key := Key(dc, candidates[i].domain);
    ReservedAtItsTurn(p, dc, candidates, o, i, a);
    TryGivesBack(a.pool, key, o.now(i), o.later(i), o.weather(i));
    TryTouches(a.pool, key, o.now(i), o.later(i), o.weather(i));
    PoolWithout(p, dc, candidates, o, i, a.dials, a.pool, q);
  }

  lemma TurnWithoutTry(p: Pool, dc: int, candidates: seq<Candidate>, o: Outside, i: nat, a: Attempts)
    requires Distinct(candidates) && i < |candidates| && Scanned(p, dc, candidates, o, i, a)
    requires o.weather(i).cancelledBefore || (a.skipCached && candidates[i].source == CachedUpstream)
    ensures if o.weather(i).cancelledBefore then Explained(p, dc, candidates, o, i + 1, a.dials, Cancelled, a.pool)
            else Scanned(p, dc, candidates, o, i + 1, a)
  {
    ReservedAtItsTurn(p, dc, candidates, o, i, a);
    PassedWithout(p, dc, candidates, o, i, a.dials);
    assert !WasDialed(a.dials, i);
    PoolWithout(p, dc, candidates, o, i, a.dials, a.pool, a.pool);
  }

  lemma TurnPassed(p: Pool, dc: int, candidates: seq<Candidate>, o: Outside, i: nat, a: Attempts, q: Pool, tried: Tried)
    requires Distinct(candidates) && i < |candidates| && Scanned(p, dc, candidates, o, i, a)
    requires (q, tried) == Try(a.pool, Key(dc, candidates[i].domain), o.now(i), o.later(i), o.weather(i))
    requires !o.weather(i).cancelledBefore && !(a.skipCached && candidates[i].source == CachedUpstream)
    requires tried == NotReserved || tried == Stopped
    ensures if tried == Stopped then Explained(p, dc, candidates, o, i + 1, a.dials, Cancelled, q)
            else Scanned(p, dc, candidates, o, i + 1, a.(pool := q))
  {
    TryPassed(p, dc, candidates, o, i, a, q, tried);
    PassedWithout(p, dc, candidates, o, i, a.dials);
  }

  lemma TurnDialed(p: Pool, dc: int, candidates: seq<Candidate>, o: Outside, i: nat, a: Attempts, q: Pool, tried: Tried)
    requires Distinct(candidates) && i < |candidates| && Scanned(p, dc, candidates, o, i, a)
    requires (q, tried) == Try(a.pool, Key(dc, candidates[i].domain), o.now(i), o.later(i), o.weather(i))
    requires !o.weather(i).cancelledBefore && !(a.skipCached && candidates[i].source == CachedUpstream)
    requires tried.Broken? || tried.Streaming?
    ensures var b := Visit(a, dc, candidates, i, o.now(i), o.later(i), o.weather(i));
            if tried.Streaming? then Explained(p, dc, candidates, o, i + 1, b.dials, Success, q)
            else Scanned(p, dc, candidates, o, i + 1, b)
  {
    var w := o.weather(i);
    TryDialed(p, dc, candidates, o, i, a, q, tried);
    PassedWith(p, dc, candidates, o, i, a.dials, Dialed(i, FailureOf(w)));
    CachedFailedWith(candidates, a.dials, Dialed(i, FailureOf(w)));
  }

  /** What one turn of the loop does, in these terms. */
  lemma VisitExplained(p: Pool, dc: int, candidates: seq<Candidate>, o: Outside, i: nat, a: Attempts, b: Attempts)
    requires Distinct(candidates) && i < |candidates| && Scanned(p, dc, candidates, o, i, a)
    requires b == Visit(a, dc, candidates, i, o.now(i), o.later(i), o.weather(i))
    ensures if b.over then Explained(p, dc, candidates, o, i + 1, b.dials, b.reason, b.pool)
            else Scanned(p, dc, candidates, o, i + 1, b)
  {
    var w := o.weather(i);
    if w.cancelledBefore || (a.skipCached && candidates[i].source == CachedUpstream) {
      TurnWithoutTry(p, dc, candidates, o, i, a);
    } else {
      var (q, tried) := Try(a.pool, Key(dc, candidates[i].domain), o.now(i), o.later(i), w);
      if tried == NotReserved || tried == Stopped {
        TurnPassed(p, dc, candidates, o, i, a, q, tried);
      } else {
        TurnDialed(p, dc, candidates, o, i, a, q, tried);
      }
    }
  }

  lemma VisitFirst(a: Attempts, dc: int, candidates: seq<Candidate>, i: nat, o: Outside)
    requires i < |candidates| && !a.over
    ensures var next := Visit(a, dc, candidates, i, o.now(i), o.later(i), o.weather(i));
            && VisitAll(a, dc, candidates, i, o) == VisitAll(next, dc, candidates, i + 1, o)
            && (next.over ==> VisitAll(a, dc, candidates, i, o) == next)
  {
  }

  lemma AllPassed(p: Pool, dc: int, candidates: seq<Candidate>, o: Outside, a: Attempts)
    requires Scanned(p, dc, candidates, o, |candidates|, a)
    ensures Explained(p, dc, candidates, o, |candidates|, a.dials, a.reason, a.pool)
  {
  }

  /** A call is explained by the pool it starts from and the outside: which candidates it dials, how it ends,
      and what it leaves behind. */
  lemma {:induction false} AttemptsExplained(p: Pool, dc: int, candidates: seq<Candidate>, i: nat, a: Attempts,
                                             o: Outside, b: Attempts)
    returns (k: nat)
    requires Distinct(candidates) && i <= |candidates| && Scanned(p, dc, candidates, o, i, a)
    requires b == VisitAll(a, dc, candidates, i, o)
    ensures Explained(p, dc, candidates, o, k, b.dials, b.reason, b.pool)
    decreases |candidates| - i
  {
    if i == |candidates| {
      AllPassed(p, dc, candidates, o, a);
      return i;
    }
    var next := Visit(a, dc, candidates, i, o.now(i), o.later(i), o.weather(i));
    VisitFirst(a, dc, candidates, i, o);
    VisitExplained(p, dc, candidates, o, i, a, next);
    if next.over {
      return i + 1;
    }
    k := AttemptsExplained(p, dc, candidates, i + 1, next, o, b);
  }

  lemma {:induction false} GatheredDistinct(p: Pool, now: Time, dc: int, items: seq<Item>)
    ensures Distinct(Gather(p, now, dc, items).candidates)
    ensures CandidateNames(Gather(p, now, dc, items).candidates) <= Seen(items)
  {
    if items != [] {
      var before, last := items[..|items| - 1], items[|items| - 1];
      var cs := Gather(p, now, dc, before).candidates;
      GatheredDistinct(p, now, dc, before);
      SeenSnoc(before, last);
      assert items == before + [last];
      if last.domain !in Seen(before) {
        CandidatesFresh(cs, CandidateOf(p, now, dc, last));
        CandidateNamesSnoc(cs, CandidateOf(p, now, dc, last));
      }
    }
  }

  lemma SelectionDistinct(p: Pool, now: Time, dc: int)
    ensures Distinct(SelectionFor(p, now, dc).candidates)
  {
    var cs := Gather(p, now, dc, ItemsFor(p, dc)).candidates;
    GatheredDistinct(p, now, dc, ItemsFor(p, dc));
    RankedNames(p, dc, cs);
    SameNames(cs, Ranked(p, dc, cs));
  }

  lemma StartsScanned(p: Pool, dc: int, candidates: seq<Candidate>, o: Outside)
    ensures Scanned(p, dc, candidates, o, 0, Untried(p))
  {
  }

  /** A call that is never found cancelled: it streams exactly when some candidate can be reserved, is not
      ruled out and works, the first such one; it finds the pool unavailable exactly when none can be reserved. */
  lemma UndisturbedCall(p: Pool, dc: int, candidates: seq<Candidate>, o: Outside, k: nat, dials: seq<Dialed>,
                        reason: Reason, q: Pool)
    requires Explained(p, dc, candidates, o, k, dials, reason, q)
    requires forall i :: 0 <= i < |candidates| ==> !CancelSeen(o.weather(i), true)
    ensures reason != Cancelled
    ensures reason == Success <==>
              exists i :: 0 <= i < k && IsReserved(p, dc, candidates, o, dials, i) && FailureOf(o.weather(i)) == None
    ensures reason == Success || k == |candidates|
    ensures reason == Unavailable <==>
              k == |candidates| && forall i :: 0 <= i < k ==> !IsReserved(p, dc, candidates, o, dials, i)
    ensures forall i :: 0 <= i < k - 1 && IsReserved(p, dc, candidates, o, dials, i) ==> FailureOf(o.weather(i)) != None
  {
    forall i | 0 <= i < k
      ensures Ends(p, dc, candidates, o, dials, i)
         <==> IsReserved(p, dc, candidates, o, dials, i) && FailureOf(o.weather(i)) == None
      ensures WasDialed(dials, i) <==> IsReserved(p, dc, candidates, o, dials, i)
    {
      assert !CancelSeen(o.weather(i), true);
    }
    if dials != [] {
      assert dials[0] in dials && WasDialed(dials, dials[0].index);
    }
  }

  /** The body of the loop, from the reservation on. */
  method TryCandidate(pool: CFDomainPool, dc: int, domain: Name, now: Time, later: Time, w: Weather) returns (r: Tried)
    modifies pool
    ensures (pool.Value(), r) == Try(old(pool.Value()), Key(dc, domain), now, later, w)
  {
    var granted := pool.Reserve(now, dc, Some(domain));
    if !granted {
      return NotReserved;
    }
    if w.cancelledReserved {
      pool.ReleaseReservation(dc, Some(domain));
      return Stopped;
    }
    if w.cancelledDialed {
      pool.ReleaseReservation(dc, Some(domain));
      return Stopped;
    }
    if w.dialError.Some? {
      var _ := pool.RecordFailure(later, dc, Some(domain), w.dialError.value, 0);
      return Broken(w.dialError.value, false);
    }
    if w.cancelledBuilt {
      pool.ReleaseReservation(dc, Some(domain));
      return Stopped;
    }
    if w.splitterFails {
      var _ := pool.RecordFailure(later, dc, Some(domain), WebSocket, 0);
      return Broken(WebSocket, true);
    }
    var _ := pool.RecordSuccess(later, dc, Some(domain), 0);
    pool.ReleaseReservation(dc, Some(domain));
    r := Streaming;
  }

  /** `Connect`, run alone. */
  method Connect(pool: CFDomainPool, settings: Settings, cancelled: bool, isTestDC: bool, dc: int, start: Time,
                 o: Outside)
    returns (reason: Reason, candidates: seq<Candidate>, dials: seq<Dialed>)
    modifies pool
    ensures pool.inFlight == old(pool.inFlight)
    ensures match Refusal(settings, cancelled, isTestDC)
            case Some(refused) =>
              reason == refused && candidates == [] && dials == [] && pool.Value() == old(pool.Value())
            case None =>
              && candidates == SelectionFor(old(pool.Value()), start, dc).candidates
              && (exists k :: Explained(Selected(old(pool.Value()), dc), dc, candidates, o, k, dials, reason,
                                        pool.Value()))
              && EndsWith(reason, dials)
              && var a := VisitAll(Untried(Selected(old(pool.Value()), dc)), dc, candidates, 0, o);
                 pool.Value() == a.pool && reason == a.reason && dials == a.dials
  {
    candidates, dials := [], [];
    if cancelled {
      return Cancelled, [], [];
    }
    if isTestDC {
      return TestDC, [], [];
    }
    if settings.policyPresent && !settings.allowCFProxy {
      return DisabledByPolicy, [], [];
    }
    if !settings.enabled {
      return Disabled, [], [];
    }
    var selection := pool.SelectionForDC(start, dc);
    candidates := selection.candidates;
    ghost var p := pool.Value();
    ghost var a := VisitAll(Untried(p), dc, candidates, 0, o);
    ghost var proper := AttemptsProper(p, dc, candidates, 0, Untried(p), o);
    SelectionDistinct(old(pool.Value()), start, dc);
    StartsScanned(p, dc, candidates, o);
    ghost var k := AttemptsExplained(p, dc, candidates, 0, Untried(p), o, a);
    reason, dials := TryCandidates(pool, dc, candidates, o);
    assert Explained(p, dc, candidates, o, k, dials, reason, pool.Value());
  }

  /** The reasons for which nothing is tried, the first that applies. */
  function Refusal(settings: Settings, cancelled: bool, isTestDC: bool): Option<Reason> {
    if cancelled then Some(Cancelled)
    else if isTestDC then Some(TestDC)
    else if settings.policyPresent && !settings.allowCFProxy then Some(DisabledByPolicy)
    else if !settings.enabled then Some(Disabled)
    else None
  }

  /** Each reason exactly: an earlier one hides the later ones. */
  lemma RefusalIff(settings: Settings, cancelled: bool, isTestDC: bool)
    ensures var r, started := Refusal(settings, cancelled, isTestDC), !cancelled && !isTestDC;
            var allowed := !settings.policyPresent || settings.allowCFProxy;
            && (r == Some(Cancelled) <==> cancelled)
            && (r == Some(TestDC) <==> !cancelled && isTestDC)
            && (r == Some(DisabledByPolicy) <==> started && !allowed)
            && (r == Some(Disabled) <==> started && allowed && !settings.enabled)
            && (r == None <==> started && allowed && settings.enabled)
  {
  }

  method TryCandidates(pool: CFDomainPool, dc: int, candidates: seq<Candidate>, o: Outside)
    returns (reason: Reason, dials: seq<Dialed>)
    modifies pool
    ensures var a := VisitAll(Untried(old(pool.Value())), dc, candidates, 0, o);
            pool.Value() == a.pool && reason == a.reason && dials == a.dials
  {
    ghost var p := pool.Value();
    reason, dials := Unavailable, [];
    var skipCachedUpstream := false;
    for i := 0 to |candidates|
      invariant VisitAll(Attempts(pool.Value(), skipCachedUpstream, reason, dials, false), dc, candidates, i, o)
             == VisitAll(Untried(p), dc, candidates, 0, o)
    {
      var candidate := candidates[i];
      if o.weather(i).cancelledBefore {
        reason := Cancelled;
        return;
      }
      if skipCachedUpstream && candidate.source == CachedUpstream {
        continue;
      }
      var tried := TryCandidate(pool, dc, candidate.domain, o.now(i), o.later(i), o.weather(i));
      match tried {
        case NotReserved => continue;
        case Stopped =>
          reason := Cancelled;
          return;
        case Broken(kind, splitter) =>
          dials := dials + [Dialed(i, Some(kind))];
          reason := if splitter then SplitterError else DialError(kind);
          skipCachedUpstream := skipCachedUpstream || (!splitter && candidate.source == CachedUpstream && kind == Dns);
        case Streaming =>
          dials := dials + [Dialed(i, None)];
          reason := Success;
          return;
      }
    }
  }
}
