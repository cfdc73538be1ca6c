/**
 Connecting through the CF pool (`mtProtoCFProxyConnector.Connect`,
 native/tgwsproxy/mtproto_ws_route.go): the discipline of its reservations over all
 interleavings of any number of calls. CfCall.dfy has the loop of one call.
 */
module CfConnector {
  import opened ByteStreams
  import opened CfPool
  import opened CfSelection

  // ---------------------------------------------------------------------------
  // Interleaved calls
  // ---------------------------------------------------------------------------

  /** Where a call is: between candidates, holding a reservation (dialing, or building the stream),
      holding it after its success was recorded, or over. */
  datatype Phase = Scanning | Holding(key: Key) | Releasing(key: Key) | Over

  datatype Call = Call(dc: int, candidates: seq<Candidate>, next: nat, skipCached: bool, phase: Phase)

  datatype World = World(pool: Pool, calls: map<nat, Call>)

  /** One atomic step; every pool operation takes the pool's lock once. */
  datatype Step =
    | Begin(id: nat, dc: int)
    | Skip(id: nat)
    | Attempt(id: nat)
    | DialFailed(id: nat, kind: Failure)
    | SplitterFailed(id: nat)
    | Connected(id: nat)
    | Finish(id: nat)
    | Cancel(id: nat)
    | Exhausted(id: nat)
    | SetLists(manual: seq<Name>, cached: seq<Name>, builtin: seq<Name>)
    | ResetAll

  function Current(c: Call): Candidate
    requires c.next < |c.candidates|
  {
    c.candidates[c.next]
  }

  predicate Enabled(w: World, s: Step) {
    match s
    case Begin(id, _) => id !in w.calls
    case Skip(id) =>
      id in w.calls && w.calls[id].phase == Scanning && w.calls[id].next < |w.calls[id].candidates|
      && w.calls[id].skipCached && Current(w.calls[id]).source == CachedUpstream
    case Attempt(id) =>
      id in w.calls && w.calls[id].phase == Scanning && w.calls[id].next < |w.calls[id].candidates|
      && !(w.calls[id].skipCached && Current(w.calls[id]).source == CachedUpstream)
    case DialFailed(id, _) => id in w.calls && w.calls[id].phase.Holding? && w.calls[id].next < |w.calls[id].candidates|
    case SplitterFailed(id) =>
      id in w.calls && w.calls[id].phase.Holding? && w.calls[id].next < |w.calls[id].candidates|
    case Connected(id) => id in w.calls && w.calls[id].phase.Holding?
    case Finish(id) => id in w.calls && w.calls[id].phase.Releasing?
    case Cancel(id) => id in w.calls && (w.calls[id].phase == Scanning || w.calls[id].phase.Holding?)
    case Exhausted(id) => id in w.calls && w.calls[id].phase == Scanning && w.calls[id].next == |w.calls[id].candidates|
    case _ => true
  }

  function WithCall(w: World, pool: Pool, id: nat, c: Call): World {
    World(pool, w.calls[id := c])
  }

  function Do(w: World, now: Time, s: Step): World
    requires Enabled(w, s)
  {
    match s
    case Begin(id, dc) =>
      var candidates := SelectionFor(w.pool, now, dc).candidates;
      WithCall(w, Selected(w.pool, dc), id, Call(dc, candidates, 0, false, if candidates == [] then Over else Scanning))
    case Skip(id) => WithCall(w, w.pool, id, w.calls[id].(next := w.calls[id].next + 1))
    case Attempt(id) =>
      var c := w.calls[id];
      var key := Key(c.dc, Current(c).domain);
      var (pool, granted) := TryReserve(w.pool, now, key);
      WithCall(w, pool, id, if granted then c.(phase := Holding(key)) else c.(next := c.next + 1))
    case DialFailed(id, kind) =>
      var c := w.calls[id];
      WithCall(w, MarkFailure(w.pool, now, c.phase.key, kind, 0), id,
               c.(next := c.next + 1, phase := Scanning,
                  skipCached := c.skipCached || (Current(c).source == CachedUpstream && kind == Dns)))
    case SplitterFailed(id) =>
      var c := w.calls[id];
      WithCall(w, MarkFailure(w.pool, now, c.phase.key, WebSocket, 0), id, c.(next := c.next + 1, phase := Scanning))
    case Connected(id) =>
      var c := w.calls[id];
      WithCall(w, MarkSuccess(w.pool, now, c.phase.key, 0), id, c.(phase := Releasing(c.phase.key)))
    case Finish(id) =>
      WithCall(w, Release(w.pool, w.calls[id].phase.key), id, w.calls[id].(phase := Over))
    case Cancel(id) =>
      var c := w.calls[id];
      WithCall(w, if c.phase.Holding? then Release(w.pool, c.phase.key) else w.pool, id, c.(phase := Over))
    case Exhausted(id) => WithCall(w, w.pool, id, w.calls[id].(phase := Over))
    case SetLists(manual, cached, builtin) =>
      w.(pool := Reclassify(w.pool.(manual := manual, cached := cached, builtin := builtin)))
    case ResetAll => w.(pool := ResetCooldowns(w.pool))
  }

  predicate Holds(c: Call, key: Key) {
    (c.phase.Holding? || c.phase.Releasing?) && c.phase.key == key
  }

  predicate Held(w: World, id: nat, key: Key) {
    id in w.calls && Holds(w.calls[id], key)
  }

  /** No reservation without a live call that will give it back. */
  ghost predicate NoLeaks(w: World) {
    forall key :: key in w.pool.inFlight ==> exists id :: Held(w, id, key)
  }

  /** What a call holds is reserved, and by it alone. */
  ghost predicate Exclusive(w: World) {
    && (forall id, key :: Held(w, id, key) ==> key in w.pool.inFlight)
    && (forall id, other, key :: Held(w, id, key) && Held(w, other, key) ==> id == other)
  }

  /** The new lists still have every domain that a call holds. */
  ghost predicate KeepsHeld(w: World, s: Step) {
    s.SetLists? ==>
      forall id, key :: Held(w, id, key) ==> key.domain in s.manual || key.domain in s.cached || key.domain in s.builtin
  }

  /** What a step does to the reservations, and to what one call holds. */
  datatype Effect = Nothing | Takes(id: nat, key: Key) | Gives(id: nat, key: Key) | Drops

  function EffectOf(w: World, now: Time, s: Step): Effect
    requires Enabled(w, s)
  {
    match s
    case Attempt(id) =>
      var key := Key(w.calls[id].dc, Current(w.calls[id]).domain);
      if TryReserve(w.pool, now, key).1 then Takes(id, key) else Nothing
    case DialFailed(id, _) => Gives(id, w.calls[id].phase.key)
    case SplitterFailed(id) => Gives(id, w.calls[id].phase.key)
    case Finish(id) => Gives(id, w.calls[id].phase.key)
    case Cancel(id) => if w.calls[id].phase.Holding? then Gives(id, w.calls[id].phase.key) else Nothing
    case SetLists(_, _, _) => Drops
    case _ => Nothing
  }

  /** Who holds what, and what is reserved, before and after a step. */
  ghost predicate Moves(w: World, w': World, e: Effect) {
    match e
    case Nothing => w'.pool.inFlight == w.pool.inFlight && (forall id, key :: Held(w', id, key) <==> Held(w, id, key))
    case Takes(i, k) =>
      && k !in w.pool.inFlight && w'.pool.inFlight == w.pool.inFlight + {k}
      && (forall key :: !Held(w, i, key))
      && (forall id, key :: Held(w', id, key) <==> Held(w, id, key) || (id == i && key == k))
    case Gives(i, k) =>
      && Held(w, i, k) && w'.pool.inFlight == w.pool.inFlight - {k}
      && (forall id, key :: Held(w', id, key) <==> Held(w, id, key) && id != i)
    case Drops => w'.pool.inFlight <= w.pool.inFlight && (forall id, key :: Held(w', id, key) <==> Held(w, id, key))
  }

  lemma SameCalls(w: World, w': World, id: nat, c: Call)
    requires w'.calls == w.calls[id := c]
    ensures forall other, key :: other != id ==> (Held(w', other, key) <==> Held(w, other, key))
    ensures forall key :: Held(w', id, key) <==> Holds(c, key)
  {
  }

  lemma StepMoves(w: World, now: Time, s: Step)
    requires Enabled(w, s)
    ensures Moves(w, Do(w, now, s), EffectOf(w, now, s))
  {
    var w' := Do(w, now, s);
    match s
    case SetLists(_, _, _) =>
    case ResetAll =>
    case Begin(id, dc) => SameCalls(w, w', id, w'.calls[id]);
    case Skip(id) => SameCalls(w, w', id, w'.calls[id]);
    case Attempt(id) => SameCalls(w, w', id, w'.calls[id]);
    case DialFailed(id, _) => SameCalls(w, w', id, w'.calls[id]);
    case SplitterFailed(id) => SameCalls(w, w', id, w'.calls[id]);
    case Connected(id) => SameCalls(w, w', id, w'.calls[id]);
    case Finish(id) => SameCalls(w, w', id, w'.calls[id]);
    case Cancel(id) => SameCalls(w, w', id, w'.calls[id]);
    case Exhausted(id) => SameCalls(w, w', id, w'.calls[id]);
  }

  lemma MovesNoLeaks(w: World, w': World, e: Effect)
    requires Moves(w, w', e) && NoLeaks(w)
    ensures NoLeaks(w')
  {
    forall key | key in w'.pool.inFlight
      ensures exists id :: Held(w', id, key)
    {
      if e.Takes? && key == e.key {
        assert Held(w', e.id, key);
      } else {
        var id :| Held(w, id, key);
        assert Held(w', id, key);
      }
    }
  }

  lemma MovesExclusive(w: World, w': World, e: Effect)
    requires Moves(w, w', e) && !e.Drops? && Exclusive(w)
    ensures Exclusive(w')
  {
  }

  /** No step leaks a reservation, whatever the lists do meanwhile. */
  lemma StepNoLeaks(w: World, now: Time, s: Step)
    requires Enabled(w, s) && NoLeaks(w)
    ensures NoLeaks(Do(w, now, s))
  {
    StepMoves(w, now, s);
    MovesNoLeaks(w, Do(w, now, s), EffectOf(w, now, s));
  }

  /** A step keeps reservations exclusive exactly when it does not unlist a domain some call holds. */
  lemma StepExclusiveIff(w: World, now: Time, s: Step)
    requires Enabled(w, s) && Exclusive(w)
    ensures Exclusive(Do(w, now, s)) <==> KeepsHeld(w, s)
  {
    StepMoves(w, now, s);
    var w' := Do(w, now, s);
    if s.SetLists? {
      assert forall key :: key in w'.pool.inFlight <==>
               key in w.pool.inFlight && (key.domain in s.manual || key.domain in s.cached || key.domain in s.builtin);
    } else {
      MovesExclusive(w, w', EffectOf(w, now, s));
    }
  }

  datatype Timed = Timed(now: Time, step: Step)

  ghost predicate Legal(w: World, steps: seq<Timed>)
    decreases |steps|
  {
    steps == [] || (Enabled(w, steps[0].step) && Legal(Do(w, steps[0].now, steps[0].step), steps[1..]))
  }

  ghost predicate AlwaysKeepsHeld(w: World, steps: seq<Timed>)
    requires Legal(w, steps)
    decreases |steps|
  {
    steps == [] || (KeepsHeld(w, steps[0].step) && AlwaysKeepsHeld(Do(w, steps[0].now, steps[0].step), steps[1..]))
  }

  ghost function After(w: World, steps: seq<Timed>): World
    requires Legal(w, steps)
    decreases |steps|
  {
    if steps == [] then w else After(Do(w, steps[0].now, steps[0].step), steps[1..])
  }

  /** Reservation safety over all interleavings: nothing leaks, ever; and while no list change unlists a
      held domain, at most one call holds a domain for a data centre. */
  lemma {:induction false} ReservationSafety(w: World, steps: seq<Timed>)
    requires Legal(w, steps) && NoLeaks(w)
    ensures NoLeaks(After(w, steps))
    ensures Exclusive(w) && AlwaysKeepsHeld(w, steps) ==> Exclusive(After(w, steps))
    decreases |steps|
  {
    if steps != [] {
      var w' := Do(w, steps[0].now, steps[0].step);
      StepNoLeaks(w, steps[0].now, steps[0].step);
      if Exclusive(w) {
        StepExclusiveIff(w, steps[0].now, steps[0].step);
      }
      ReservationSafety(w', steps[1..]);
    }
  }

  lemma HolderIsLive(w: World, key: Key)
    requires NoLeaks(w) && key in w.pool.inFlight
    ensures exists id :: id in w.calls && w.calls[id].phase != Over
  {
    var id :| Held(w, id, key);
    assert w.calls[id].phase != Over;
  }

  /** When every call is over, nothing is reserved. */
  lemma AllOver(w: World)
    requires NoLeaks(w) && (forall id :: id in w.calls ==> w.calls[id].phase == Over)
    ensures w.pool.inFlight == {}
  {
    if w.pool.inFlight != {} {
      var key :| key in w.pool.inFlight;
      HolderIsLive(w, key);
    }
  }

  /** A call comes to hold a domain only by a reservation granted outside its cooldown and held by no one. */
  lemma DialsReserved(w: World, now: Time, s: Step, id: nat, key: Key)
    requires Enabled(w, s) && !Held(w, id, key) && Held(Do(w, now, s), id, key)
    ensures s == Attempt(id) && key !in w.pool.inFlight
    ensures key in w.pool.health ==> w.pool.health[key].cooldownUntil <= now
  {
    StepMoves(w, now, s);
    ReserveIff(w.pool, now, key);
  }

  // ---------------------------------------------------------------------------
  // How exclusivity is lost
  // ---------------------------------------------------------------------------

  lemma LegalCons(w: World, t: Timed, later: seq<Timed>)
    requires Enabled(w, t.step) && Legal(Do(w, t.now, t.step), later)
    ensures Legal(w, [t] + later) && After(w, [t] + later) == After(Do(w, t.now, t.step), later)
  {
    assert ([t] + later)[1..] == later;
  }

  /** One built-in domain, nothing reserved, cooling or preferred. */
  ghost predicate Quiet(p: Pool, d: Name) {
    && Inv(p) && p.manual == [] == p.cached && p.builtin == [d] && p.preferred == map[] && p.inFlight == {}
    && (forall key :: key in p.health ==> p.health[key].cooldownUntil == 0.0)
  }

  lemma OneName(cs: seq<Candidate>, d: Name)
    requires CandidateNames(cs) == {d}
    requires forall i, j :: 0 <= i < j < |cs| ==> cs[i].domain != cs[j].domain
    ensures |cs| == 1 && cs[0].domain == d
  {
    assert |cs| > 1 ==> cs[0].domain != cs[1].domain;
    assert d in CandidateNames(cs);
    var c :| c in cs && c.domain == d;
    forall i | 0 <= i < |cs|
      ensures cs[i].domain == d
    {
      assert cs[i].domain in CandidateNames(cs);
    }
  }

  lemma QuietSelection(p: Pool, d: Name, now: Time, dc: int)
    requires Quiet(p, d)
    ensures var cs := SelectionFor(p, now, dc).candidates; |cs| == 1 && cs[0].domain == d
  {
    SelectionPartitions(p, now, dc);
    assert ListedNames(p) == {d};
    QuietStatus(p, d, now, dc);
    OneName(SelectionFor(p, now, dc).candidates, d);
  }

  lemma QuietStatus(p: Pool, d: Name, now: Time, dc: int)
    requires Quiet(p, d)
    ensures WithStatus(p, now, dc, {d}, Ready) == {d} && {d} + {} == {d}
  {
    assert StatusOf(p, now, Key(dc, d)) == Ready;
  }

  lemma QuietSelected(p: Pool, d: Name, dc: int)
    requires Quiet(p, d)
    ensures Quiet(Selected(p, dc), d)
  {
    SelectedInv(p, dc);
    forall k | k in Selected(p, dc).health
      ensures Selected(p, dc).health[k].cooldownUntil == 0.0
    {
      GatheredEntries(p, dc, ItemsFor(p, dc), k);
    }
  }

  /** A call that scans, with the domain as its only candidate. */
  ghost predicate AboutToTry(w: World, id: nat, dc: int, d: Name) {
    id in w.calls && w.calls[id].dc == dc && w.calls[id].phase == Scanning && w.calls[id].next == 0
    && !w.calls[id].skipCached && |w.calls[id].candidates| == 1 && w.calls[id].candidates[0].domain == d
  }

  lemma QuietBegin(w: World, now: Time, id: nat, dc: int, d: Name)
    requires Quiet(w.pool, d) && id !in w.calls
    ensures var w' := Do(w, now, Begin(id, dc)); Quiet(w'.pool, d) && AboutToTry(w', id, dc, d)
  {
    QuietSelection(w.pool, d, now, dc);
    QuietSelected(w.pool, d, dc);
  }

  lemma AttemptGranted(w: World, now: Time, id: nat, dc: int, d: Name)
    requires AboutToTry(w, id, dc, d) && Key(dc, d) !in w.pool.inFlight
    requires Key(dc, d) in w.pool.health ==> w.pool.health[Key(dc, d)].cooldownUntil == 0.0
    ensures Enabled(w, Attempt(id)) && Held(Do(w, now, Attempt(id)), id, Key(dc, d))
    ensures Key(dc, d) in Do(w, now, Attempt(id)).pool.inFlight
    ensures forall other :: other != id && other in w.calls ==>
              other in Do(w, now, Attempt(id)).calls && Do(w, now, Attempt(id)).calls[other] == w.calls[other]
  {
    ReserveIff(w.pool, now, Key(dc, d));
  }

  lemma Relisted(w: World, now: Time, later: Time, d: Name)
    ensures var w' := Do(Do(w, now, SetLists([], [], [])), later, SetLists([], [], [d]));
            w'.calls == w.calls && w'.pool.inFlight == {} && w'.pool.health == map[]
  {
  }

  /** From a pool with one domain and no call: two calls begin, one reserves the domain; it leaves its list
      and comes back; the other reserves it too. */
  lemma UnlistedWhileHeld(d: Name)
    ensures exists steps :: Legal(World(SetBuiltin(NewPool(), [d]), map[]), steps)
                            && Held(After(World(SetBuiltin(NewPool(), [d]), map[]), steps), 1, Key(2, d))
                            && Held(After(World(SetBuiltin(NewPool(), [d]), map[]), steps), 2, Key(2, d))
  {
    var w0 := World(SetBuiltin(NewPool(), [d]), map[]);
    QuietBegin(w0, 1.0, 1, 2, d);
    var w1 := Do(w0, 1.0, Begin(1, 2));
    QuietBegin(w1, 2.0, 2, 2, d);
    var w2 := Do(w1, 2.0, Begin(2, 2));
    assert AboutToTry(w2, 1, 2, d);
    var later := BothHold(w2, d);
    LegalCons(w1, Timed(2.0, Begin(2, 2)), later);
    LegalCons(w0, Timed(1.0, Begin(1, 2)), [Timed(2.0, Begin(2, 2))] + later);
    assert Legal(w0, [Timed(1.0, Begin(1, 2))] + ([Timed(2.0, Begin(2, 2))] + later));
  }

  lemma BothHold(w: World, d: Name) returns (steps: seq<Timed>)
    requires Quiet(w.pool, d) && AboutToTry(w, 1, 2, d) && AboutToTry(w, 2, 2, d)
    ensures Legal(w, steps) && Held(After(w, steps), 1, Key(2, d)) && Held(After(w, steps), 2, Key(2, d))
  {
    AttemptGranted(w, 3.0, 1, 2, d);
    var w3 := Do(w, 3.0, Attempt(1));
    var w4 := Do(w3, 4.0, SetLists([], [], []));
    var w5 := Do(w4, 5.0, SetLists([], [], [d]));
    Relisted(w3, 4.0, 5.0, d);
    AttemptGranted(w5, 6.0, 2, 2, d);
    LegalCons(w5, Timed(6.0, Attempt(2)), []);
    LegalCons(w4, Timed(5.0, SetLists([], [], [d])), [Timed(6.0, Attempt(2))] + []);
    LegalCons(w3, Timed(4.0, SetLists([], [], [])),
              [Timed(5.0, SetLists([], [], [d]))] + ([Timed(6.0, Attempt(2))] + []));
    LegalCons(w, Timed(3.0, Attempt(1)),
              [Timed(4.0, SetLists([], [], []))]
                + ([Timed(5.0, SetLists([], [], [d]))] + ([Timed(6.0, Attempt(2))] + [])));
    steps := [Timed(3.0, Attempt(1))]
             + ([Timed(4.0, SetLists([], [], []))]
                + ([Timed(5.0, SetLists([], [], [d]))] + ([Timed(6.0, Attempt(2))] + [])));
  }
}
