/**
 A call that nobody disturbs: in the machine of interleaved calls (CfConnector.dfy) it makes exactly
 the runs that its loop describes (CfCall.dfy).
 */
module CfAlone {
  import opened ByteStreams
  import opened CfPool
  import opened CfSelection
  import opened CfConnector
  import opened CfCall

  /** The call is about to look at candidate i, having come as far as `a`. */
  ghost predicate AtTurn(w: World, id: nat, dc: int, candidates: seq<Candidate>, i: nat, a: Attempts) {
    id in w.calls && w.calls[id] == Call(dc, candidates, i, a.skipCached, Scanning) && w.pool == a.pool && !a.over
  }

  ghost predicate Ended(w: World, id: nat) {
    id in w.calls && w.calls[id].phase == Over
  }

  /** A step of this call after its beginning. */
  predicate OfCall(s: Step, id: nat) {
    match s
    case Begin(_, _) => false
    case SetLists(_, _, _) => false
    case ResetAll => false
    case _ => s.id == id
  }

  predicate AllOfCall(steps: seq<Timed>, id: nat) {
    steps == [] || (OfCall(steps[0].step, id) && AllOfCall(steps[1..], id))
  }

  /** These steps of the call lead to `end`. */
  ghost predicate Leads(w: World, id: nat, steps: seq<Timed>, end: World) {
    AllOfCall(steps, id) && Legal(w, steps) && After(w, steps) == end
  }

  // ---------------------------------------------------------------------------
  // Whatever the loop does, the machine can do
  // ---------------------------------------------------------------------------

  /** One step, and then the others. */
  lemma StepThen(w: World, id: nat, first: Timed, w1: World, later: seq<Timed>, end: World)
    returns (steps: seq<Timed>)
    requires OfCall(first.step, id) && Enabled(w, first.step) && w1 == Do(w, first.now, first.step)
    requires Leads(w1, id, later, end)
    ensures Leads(w, id, steps, end)
  {
    LegalCons(w, first, later);
    steps := [first] + later;
  }

  /** The call between its turns, or at its end. */
  function TurnDone(w: World, id: nat, dc: int, candidates: seq<Candidate>, i: nat, b: Attempts): World {
    WithCall(w, b.pool, id, if b.over then Call(dc, candidates, i, b.skipCached, Over)
                            else Call(dc, candidates, i + 1, b.skipCached, Scanning))
  }

  lemma SetTwice(w: World, p: Pool, q: Pool, id: nat, c: Call, d: Call)
    ensures WithCall(WithCall(w, p, id, c), q, id, d) == WithCall(w, q, id, d)
  {
    assert w.calls[id := c][id := d] == w.calls[id := d];
  }

  /** The candidate streams: its success is recorded, and its reservation given back after that. */
  lemma StreamRuns(w: World, w1: World, id: nat, held: Call, later: Time, next: World, more: seq<Timed>, end: World)
    returns (steps: seq<Timed>)
    requires held.phase.Holding? && w1 == WithCall(w, w1.pool, id, held)
    requires next == WithCall(w, Release(MarkSuccess(w1.pool, later, held.phase.key, 0), held.phase.key), id,
                              held.(phase := Over))
    requires Leads(next, id, more, end)
    ensures Leads(w1, id, steps, end)
  {
    var w2 := Do(w1, later, Connected(id));
    var releasing := held.(phase := Releasing(held.phase.key));
    SetTwice(w, w1.pool, w2.pool, id, held, releasing);
    SetTwice(w, w2.pool, next.pool, id, releasing, held.(phase := Over));
    steps := StepThen(w2, id, Timed(later, Finish(id)), next, more, end);
    steps := StepThen(w1, id, Timed(later, Connected(id)), w2, steps, end);
  }

  /** The call after its turn, by what became of the candidate. */
  function CallAfter(c: Call, tried: Tried): Call
    requires c.next < |c.candidates|
  {
    match tried
    case NotReserved => c.(next := c.next + 1)
    case Broken(kind, splitter) =>
      c.(next := c.next + 1,
         skipCached := c.skipCached || (!splitter && Current(c).source == CachedUpstream && kind == Dns))
    case _ => c.(phase := Over)
  }

  /** The candidate has been reserved. */
  lemma HeldRuns(w: World, id: nat, c: Call, now: Time, later: Time, x: Weather, q: Pool, tried: Tried, w1: World,
                 more: seq<Timed>, end: World) returns (steps: seq<Timed>)
    requires c.phase == Scanning && c.next < |c.candidates|
    requires (q, tried) == Try(w.pool, Key(c.dc, Current(c).domain), now, later, x) && tried != NotReserved
    requires w1 == WithCall(w, TryReserve(w.pool, now, Key(c.dc, Current(c).domain)).0, id,
                            c.(phase := Holding(Key(c.dc, Current(c).domain))))
    requires Leads(WithCall(w, q, id, CallAfter(c, tried)), id, more, end)
    ensures Leads(w1, id, steps, end)
  {
    var held := w1.calls[id];
    var next := WithCall(w, q, id, CallAfter(c, tried));
    SetTwice(w, w1.pool, q, id, held, CallAfter(c, tried));
    match tried
    case Stopped => steps := StepThen(w1, id, Timed(later, Cancel(id)), next, more, end);
    case Streaming => steps := StreamRuns(w, w1, id, held, later, next, more, end);
    case Broken(kind, splitter) =>
      if splitter {
        steps := StepThen(w1, id, Timed(later, SplitterFailed(id)), next, more, end);
      } else {
        steps := StepThen(w1, id, Timed(later, DialFailed(id, kind)), next, more, end);
      }
  }

  lemma TryRuns(w: World, id: nat, c: Call, now: Time, later: Time, x: Weather, q: Pool, tried: Tried,
                more: seq<Timed>, end: World) returns (steps: seq<Timed>)
    requires id in w.calls && w.calls[id] == c && c.phase == Scanning && c.next < |c.candidates|
    requires !(c.skipCached && Current(c).source == CachedUpstream)
    requires (q, tried) == Try(w.pool, Key(c.dc, Current(c).domain), now, later, x)
    requires Leads(WithCall(w, q, id, CallAfter(c, tried)), id, more, end)
    ensures Leads(w, id, steps, end)
  {
    var w1 := Do(w, now, Attempt(id));
    steps := more;
    if tried != NotReserved {
      steps := HeldRuns(w, id, c, now, later, x, q, tried, w1, more, end);
    }
    steps := StepThen(w, id, Timed(now, Attempt(id)), w1, steps, end);
  }

  lemma VisitTries(w: World, id: nat, dc: int, candidates: seq<Candidate>, i: nat, a: Attempts, now: Time, later: Time,
                   x: Weather)
    requires AtTurn(w, id, dc, candidates, i, a) && i < |candidates|
    requires !x.cancelledBefore && !(a.skipCached && candidates[i].source == CachedUpstream)
    ensures var (q, tried) := Try(w.pool, Key(dc, candidates[i].domain), now, later, x);
            TurnDone(w, id, dc, candidates, i, Visit(a, dc, candidates, i, now, later, x))
            == WithCall(w, q, id, CallAfter(w.calls[id], tried))
  {
  }

  lemma TurnRuns(w: World, id: nat, dc: int, candidates: seq<Candidate>, i: nat, a: Attempts, now: Time, later: Time,
                 x: Weather, next: World, more: seq<Timed>, end: World) returns (steps: seq<Timed>)
    requires AtTurn(w, id, dc, candidates, i, a) && i < |candidates|
    requires next == TurnDone(w, id, dc, candidates, i, Visit(a, dc, candidates, i, now, later, x))
    requires Leads(next, id, more, end)
    ensures Leads(w, id, steps, end)
  {
    if x.cancelledBefore {
      steps := StepThen(w, id, Timed(now, Cancel(id)), next, more, end);
    } else if a.skipCached && candidates[i].source == CachedUpstream {
      steps := StepThen(w, id, Timed(now, Skip(id)), next, more, end);
    } else {
      VisitTries(w, id, dc, candidates, i, a, now, later, x);
      var (q, tried) := Try(w.pool, Key(dc, candidates[i].domain), now, later, x);
      steps := TryRuns(w, id, w.calls[id], now, later, x, q, tried, more, end);
    }
  }

  /** Whatever happens outside, the machine has a run of this call that leaves the pool as its loop does. */
  lemma {:induction false} LoopRuns(w: World, id: nat, dc: int, candidates: seq<Candidate>, i: nat, a: Attempts,
                                    o: Outside) returns (steps: seq<Timed>, end: World)
    requires AtTurn(w, id, dc, candidates, i, a) && i <= |candidates|
    ensures Leads(w, id, steps, end) && Ended(end, id) && end.pool == VisitAll(a, dc, candidates, i, o).pool
    decreases |candidates| - i
  {
    if i == |candidates| {
      end := Do(w, 0.0, Exhausted(id));
      steps := StepThen(w, id, Timed(0.0, Exhausted(id)), end, [], end);
      return;
    }
    VisitFirst(a, dc, candidates, i, o);
    var b := Visit(a, dc, candidates, i, o.now(i), o.later(i), o.weather(i));
    var next := TurnDone(w, id, dc, candidates, i, b);
    steps, end := [], next;
    if !b.over {
      steps, end := LoopRuns(next, id, dc, candidates, i + 1, b, o);
    }
    steps := TurnRuns(w, id, dc, candidates, i, a, o.now(i), o.later(i), o.weather(i), next, steps, end);
  }

  lemma Peel(w: World, steps: seq<Timed>) returns (w1: World)
    requires Legal(w, steps) && steps != []
    ensures Enabled(w, steps[0].step) && w1 == Do(w, steps[0].now, steps[0].step)
    ensures Legal(w1, steps[1..]) && After(w, steps) == After(w1, steps[1..])
  {
    w1 := Do(w, steps[0].now, steps[0].step);
  }

  // ---------------------------------------------------------------------------
  // Whatever the machine does, the loop describes
  // ---------------------------------------------------------------------------

  lemma NothingAfterTheEnd(w: World, id: nat, steps: seq<Timed>)
    requires Ended(w, id) && Legal(w, steps) && AllOfCall(steps, id)
    ensures steps == []
  {
  }

  const CALM := Weather(false, false, false, None, false, false)

  /** What remains to be done after a turn that ended in `b`. */
  ghost predicate TurnOver(w: World, id: nat, dc: int, candidates: seq<Candidate>, i: nat, steps: seq<Timed>,
                           b: Attempts, rest: seq<Timed>, mid: World)
    requires Legal(w, steps)
  {
    && |rest| < |steps| && AllOfCall(rest, id) && Legal(mid, rest) && After(mid, rest) == After(w, steps)
    && if b.over then Ended(mid, id) && mid.pool == b.pool else AtTurn(mid, id, dc, candidates, i + 1, b)
  }

  /** The call holds the candidate it reserved. */
  lemma HeldTurn(w: World, id: nat, dc: int, candidates: seq<Candidate>, i: nat, a: Attempts, now: Time, w1: World,
                 steps: seq<Timed>) returns (later: Time, x: Weather, rest: seq<Timed>, mid: World)
    requires AtTurn(w, id, dc, candidates, i, a) && i < |candidates|
    requires !(a.skipCached && candidates[i].source == CachedUpstream)
    requires TryReserve(w.pool, now, Key(dc, candidates[i].domain)).1 && w1 == Do(w, now, Attempt(id))
    requires Legal(w1, steps) && AllOfCall(steps, id) && Ended(After(w1, steps), id)
    ensures TurnOver(w1, id, dc, candidates, i, steps, Visit(a, dc, candidates, i, now, later, x), rest, mid)
  {
    assert w1.calls[id] == Call(dc, candidates, i, a.skipCached, Holding(Key(dc, candidates[i].domain)));
    mid := Peel(w1, steps);
    later, x, rest := steps[0].now, CALM, steps[1..];
    match steps[0].step
    case Cancel(_) => x := x.(cancelledReserved := true);
    case DialFailed(_, kind) => x := x.(dialError := Some(kind));
    case SplitterFailed(_) => x := x.(splitterFails := true);
    case Connected(_) =>
      mid := Peel(mid, rest);
      rest := rest[1..];
  }

  /** One turn of the call, found in a run of its own. */
  lemma TurnFound(w: World, id: nat, dc: int, candidates: seq<Candidate>, i: nat, a: Attempts, steps: seq<Timed>)
    returns (now: Time, later: Time, x: Weather, rest: seq<Timed>, mid: World)
    requires AtTurn(w, id, dc, candidates, i, a) && i < |candidates|
    requires Legal(w, steps) && AllOfCall(steps, id) && Ended(After(w, steps), id)
    ensures TurnOver(w, id, dc, candidates, i, steps, Visit(a, dc, candidates, i, now, later, x), rest, mid)
  {
    mid := Peel(w, steps);
    now, later, x, rest := steps[0].now, steps[0].now, CALM, steps[1..];
    match steps[0].step
    case Cancel(_) => x := x.(cancelledBefore := true);
    case Skip(_) =>
    case Attempt(_) =>
      if TryReserve(w.pool, now, Key(dc, candidates[i].domain)).1 {
        later, x, rest, mid := HeldTurn(w, id, dc, candidates, i, a, now, mid, rest);
      }
  }

  function Changed<T>(f: nat -> T, i: nat, v: T): nat -> T {
    (k: nat) => if k == i then v else f(k)
  }

  function Told(o: Outside, i: nat, now: Time, later: Time, x: Weather): Outside {
    Outside(Changed(o.now, i, now), Changed(o.later, i, later), Changed(o.weather, i, x))
  }

  lemma {:induction false} LaterTurnsSame(a: Attempts, dc: int, candidates: seq<Candidate>, j: nat, o: Outside,
                                          o': Outside)
    requires j <= |candidates|
    requires forall k :: j <= k < |candidates| ==>
               o.now(k) == o'.now(k) && o.later(k) == o'.later(k) && o.weather(k) == o'.weather(k)
    ensures VisitAll(a, dc, candidates, j, o) == VisitAll(a, dc, candidates, j, o')
    decreases |candidates| - j
  {
    if !a.over && j < |candidates| {
      LaterTurnsSame(Visit(a, dc, candidates, j, o.now(j), o.later(j), o.weather(j)), dc, candidates, j + 1, o, o');
    }
  }

  /** Every run of this call alone to its end leaves the pool as its loop does, for some course of events
      outside. */
  lemma {:induction false} RunIsLoop(w: World, id: nat, dc: int, candidates: seq<Candidate>, i: nat, a: Attempts,
                                     steps: seq<Timed>) returns (o: Outside)
    requires AtTurn(w, id, dc, candidates, i, a) && i <= |candidates|
    requires Legal(w, steps) && AllOfCall(steps, id) && Ended(After(w, steps), id)
    ensures After(w, steps).pool == VisitAll(a, dc, candidates, i, o).pool
    decreases |steps|
  {
    o := Outside(k => 0.0, k => 0.0, k => CALM);
    if i == |candidates| {
      var mid := Peel(w, steps);
      NothingAfterTheEnd(mid, id, steps[1..]);
    } else {
      var now, later, x, rest, mid := TurnFound(w, id, dc, candidates, i, a, steps);
      var b := Visit(a, dc, candidates, i, now, later, x);
      if b.over {
        NothingAfterTheEnd(mid, id, rest);
      } else {
        o := RunIsLoop(mid, id, dc, candidates, i + 1, b, rest);
      }
      var o' := Told(o, i, now, later, x);
      LaterTurnsSame(b, dc, candidates, i + 1, o, o');
      VisitFirst(a, dc, candidates, i, o');
      o := o';
    }
  }

  lemma BeginsAtTurn(w: World, now: Time, id: nat, dc: int)
    requires id !in w.calls
    ensures var w', candidates := Do(w, now, Begin(id, dc)), SelectionFor(w.pool, now, dc).candidates;
            if candidates == [] then Ended(w', id) && w'.pool == Selected(w.pool, dc)
            else AtTurn(w', id, dc, candidates, 0, Untried(Selected(w.pool, dc)))
  {
  }

  ghost predicate LoopLeaves(p: Pool, now: Time, dc: int, o: Outside, q: Pool) {
    VisitAll(Untried(Selected(p, dc)), dc, SelectionFor(p, now, dc).candidates, 0, o).pool == q
  }

  /** From its beginning, a call that nobody disturbs can leave the pool in just those states in which its
      loop, for some course of events outside, leaves it. */
  lemma AloneIff(w: World, now: Time, id: nat, dc: int, q: Pool)
    requires id !in w.calls && SelectionFor(w.pool, now, dc).candidates != []
    ensures (exists steps, end :: Leads(Do(w, now, Begin(id, dc)), id, steps, end) && Ended(end, id) && end.pool == q)
       <==> (exists o :: LoopLeaves(w.pool, now, dc, o, q))
  {
    var w1, candidates := Do(w, now, Begin(id, dc)), SelectionFor(w.pool, now, dc).candidates;
    var a := Untried(Selected(w.pool, dc));
    BeginsAtTurn(w, now, id, dc);
    if steps, end :| Leads(w1, id, steps, end) && Ended(end, id) && end.pool == q {
      var o := RunIsLoop(w1, id, dc, candidates, 0, a, steps);
      assert LoopLeaves(w.pool, now, dc, o, q);
    }
    if o :| LoopLeaves(w.pool, now, dc, o, q) {
      var steps, end := LoopRuns(w1, id, dc, candidates, 0, a, o);
    }
  }
}
