/**
 Runs of the MTProto front end (`Runtime.Start`, `Stop`, the counting of `acceptLoop`, the deferred
 decrement of `handleConnection`, `updateRouteTruthFor`,
 native/tgwsproxy/mtproxyfrontend/runtime.go), over all interleavings of these steps.

 A run is named by the number of the successful Start that began it; it stands for the run's context.
 */
module Lifecycle {
  import opened ByteStreams

  /** The fields that say which route is in use. */
  datatype Truth = Truth(selected: string, actual: string, fallbackUsed: bool, reason: string)

  datatype State = State(runCtx: Option<nat>, truth: Truth, active: int, total: int, starts: nat)

  datatype StartError = AlreadyRunning | Invalid | ListenFailed

  function Awaiting(selected: string): Truth {
    Truth(selected, "", false, "awaiting_connection")
  }

  /** `Start`: `valid` is the outcome of validation, `selected` the connector's backend ("" without a
      connector), `listens` whether the socket can be opened. */
  function Started(s: State, valid: bool, selected: string, listens: bool): (State, Option<StartError>) {
    if !valid then (s, Some(Invalid))
    else if s.runCtx.Some? then (s, Some(AlreadyRunning))
    else
      var reset := s.(truth := Awaiting(selected), active := 0, total := 0);
      if listens then (reset.(runCtx := Some(s.starts), starts := s.starts + 1), None) else (reset, Some(ListenFailed))
  }

  function Stopped(s: State): (State, bool) {
    if s.runCtx.None? then (s, false) else (s.(runCtx := None, active := 0), true)
  }

  function Updated(s: State, run: nat, cancelled: bool, truth: Truth): State {
    if s.runCtx != Some(run) || cancelled then s else s.(truth := truth)
  }

  function Finished(s: State, run: nat): State {
    if s.runCtx == Some(run) then s.(active := s.active - 1) else s
  }

  /** Why a Start fails, and what it leaves: nothing changed if it is refused, and otherwise counters at zero and
      a route nobody has used; the number of the run it begins is a new one. */
  lemma StartIff(s: State, valid: bool, selected: string, listens: bool)
    ensures var (s', err) := Started(s, valid, selected, listens);
            && (err == Some(Invalid) <==> !valid)
            && (err == Some(AlreadyRunning) <==> valid && s.runCtx.Some?)
            && (err == Some(ListenFailed) <==> valid && s.runCtx.None? && !listens)
            && (!valid || s.runCtx.Some? ==> s' == s)
            && (valid && s.runCtx.None? ==>
                  && s'.active == 0 && s'.total == 0 && s'.truth == Truth(selected, "", false, "awaiting_connection")
                  && (s'.runCtx.Some? <==> listens) && (listens ==> s'.runCtx.value == s.starts < s'.starts)
                  && s'.starts - s.starts == if listens then 1 else 0)
  {
  }

  /** Whatever was running, nothing runs after a Stop; it fails exactly when nothing ran before. */
  lemma StopIff(s: State)
    ensures var (s', ok) := Stopped(s);
            && (ok <==> s.runCtx.Some?) && s'.runCtx.None?
            && s'.active == (if ok then 0 else s.active)
            && s'.truth == s.truth && s'.total == s.total && s'.starts == s.starts
  {
  }

  // ---------------------------------------------------------------------------
  // The object
  // ---------------------------------------------------------------------------

  /** Every method is one critical section, or one atomic counter operation. */
  class Runtime {
    var runCtx: Option<nat>
    var selectedBackend: string
    var actualBackend: string
    var fallbackUsed: bool
    var routeReason: string
    var activeConnections: int
    var totalConnections: int
    var starts: nat

    function Value(): State reads this {
      State(runCtx, Truth(selectedBackend, actualBackend, fallbackUsed, routeReason), activeConnections,
            totalConnections, starts)
    }

    constructor ()
      ensures Value() == State(None, Truth("", "", false, ""), 0, 0, 0)
    {
      runCtx, selectedBackend, actualBackend, fallbackUsed, routeReason := None, "", "", false, "";
      activeConnections, totalConnections, starts := 0, 0, 0;
    }

    method Start(valid: bool, connector: Option<string>, listens: bool) returns (err: Option<StartError>)
      modifies this
      ensures (Value(), err) == Started(old(Value()), valid, if connector.Some? then connector.value else "", listens)
    {
      if !valid {
        return Some(Invalid);
      }
      if runCtx.Some? {
        return Some(AlreadyRunning);
      }
      actualBackend, fallbackUsed, routeReason := "", false, "awaiting_connection";
      activeConnections, totalConnections := 0, 0;
      selectedBackend := "";
      if connector.Some? {
        selectedBackend := connector.value;
      }
      if !listens {
        return Some(ListenFailed);
      }
      runCtx := Some(starts);
      starts := starts + 1;
      err := None;
    }

    method Stop() returns (ok: bool)
      modifies this
      ensures (Value(), ok) == Stopped(old(Value()))
    {
      if runCtx.None? {
        return false;
      }
      runCtx := None;
      activeConnections := 0;
      ok := true;
    }

    method CountTotal()
      modifies `totalConnections
      ensures Value() == old(Value()).(total := old(Value()).total + 1)
    {
      totalConnections := totalConnections + 1;
    }

    method CountActive()
      modifies `activeConnections
      ensures Value() == old(Value()).(active := old(Value()).active + 1)
    {
      activeConnections := activeConnections + 1;
    }

    method UpdateRouteTruthFor(run: nat, cancelled: bool, truth: Truth)
      modifies this
      ensures Value() == Updated(old(Value()), run, cancelled, truth)
    {
      if runCtx != Some(run) || cancelled {
        return;
      }
      selectedBackend := truth.selected;
      actualBackend := truth.actual;
      fallbackUsed := truth.fallbackUsed;
      routeReason := truth.reason;
    }

    method FinishConnection(run: nat)
      modifies this
      ensures Value() == Finished(old(Value()), run)
    {
      if runCtx == Some(run) {
        activeConnections := activeConnections - 1;
      }
    }
  }

  // ---------------------------------------------------------------------------
  // Interleavings
  // ---------------------------------------------------------------------------

  /** Where the accept loop of a run is: waiting, past its check of the context, or past counting the
      connection in the total. The two counters are incremented outside the lock. */
  datatype Loop = Waiting | Checked | Counted

  /** `live`: connections of a run that were counted and have not finished. `stale`: connections counted
      for a run that was not the current one, since the counter was last set to zero. */
  datatype World = World(r: State, loops: map<nat, Loop>, live: map<nat, nat>, cancelled: set<nat>, stale: nat)

  datatype Step =
    | StartCall(valid: bool, selected: string, listens: bool)
    | StopCall
    | CancelRun(run: nat)
    | Accept(run: nat)
    | AddTotal(run: nat)
    | AddActive(run: nat)
    | Update(run: nat, truth: Truth)
    | Finish(run: nat)

  function LiveOf(w: World, run: nat): nat {
    if run in w.live then w.live[run] else 0
  }

  /** Connections of the current run that have been counted and are not finished. */
  function LiveNow(w: World): nat {
    match w.r.runCtx case None => 0 case Some(run) => LiveOf(w, run)
  }

  predicate LoopAt(w: World, run: nat, at: Loop) {
    run in w.loops && w.loops[run] == at
  }

  predicate Enabled(w: World, step: Step) {
    match step
    case CancelRun(run) => run < w.r.starts && w.r.runCtx != Some(run)
    case Accept(run) => LoopAt(w, run, Waiting) && run !in w.cancelled
    case AddTotal(run) => LoopAt(w, run, Checked)
    case AddActive(run) => LoopAt(w, run, Counted)
    case Update(run, _) => LiveOf(w, run) > 0
    case Finish(run) => LiveOf(w, run) > 0
    case _ => true
  }

  function Do(w: World, step: Step): World
    requires Enabled(w, step)
  {
    match step
    case StartCall(valid, selected, listens) =>
      var (r, err) := Started(w.r, valid, selected, listens);
      match err {
        case None => World(r, w.loops[w.r.starts := Waiting], w.live[w.r.starts := 0], w.cancelled, 0)
        case Some(ListenFailed) => w.(r := r, stale := 0)
        case Some(_) => w.(r := r)
      }
    case StopCall =>
      var (r, ok) := Stopped(w.r);
      if ok then w.(r := r, stale := 0) else w
    case CancelRun(run) => w.(cancelled := w.cancelled + {run})
    case Accept(run) => w.(loops := w.loops[run := Checked])
    case AddTotal(run) => w.(r := w.r.(total := w.r.total + 1), loops := w.loops[run := Counted])
    case AddActive(run) =>
      World(w.r.(active := w.r.active + 1), w.loops[run := Waiting], w.live[run := LiveOf(w, run) + 1], w.cancelled,
            if w.r.runCtx == Some(run) then w.stale else w.stale + 1)
    case Update(run, truth) => w.(r := Updated(w.r, run, run in w.cancelled, truth))
    case Finish(run) => w.(r := Finished(w.r, run), live := w.live[run := LiveOf(w, run) - 1])
  }

  function Fresh(): World {
    World(State(None, Truth("", "", false, ""), 0, 0, 0), map[], map[], {}, 0)
  }

  /** The counter is the live connections of the current run and the stale ones, so never negative and
      never below the live ones; a run is not cancelled while it is current, and its number is used once. */
  ghost predicate Inv(w: World) {
    && w.r.active == LiveNow(w) + w.stale
    && (w.r.runCtx.Some? ==> w.r.runCtx.value < w.r.starts && w.r.runCtx.value !in w.cancelled)
    && (forall run :: run in w.loops || run in w.live || run in w.cancelled ==> run < w.r.starts)
  }

  lemma StepInv(w: World, step: Step)
    requires Inv(w) && Enabled(w, step)
    ensures Inv(Do(w, step))
  {
  }

  /** Every live connection may report its route and may end, whatever its run has come to. */
  lemma LiveMayAct(w: World, run: nat, truth: Truth)
    ensures Enabled(w, Update(run, truth)) <==> LiveOf(w, run) > 0
    ensures Enabled(w, Finish(run)) <==> LiveOf(w, run) > 0
  {
  }

  ghost predicate Legal(w: World, steps: seq<Step>)
    decreases |steps|
  {
    steps == [] || (Enabled(w, steps[0]) && Legal(Do(w, steps[0]), steps[1..]))
  }

  ghost function After(w: World, steps: seq<Step>): World
    requires Legal(w, steps)
    decreases |steps|
  {
    if steps == [] then w else After(Do(w, steps[0]), steps[1..])
  }

  /** In every reachable state the count of active connections is the live ones and the stale ones. */
  lemma {:induction false} ActiveNeverBelowLive(w: World, steps: seq<Step>)
    requires Inv(w) && Legal(w, steps)
    ensures Inv(After(w, steps))
    ensures After(w, steps).r.active >= LiveNow(After(w, steps)) >= 0
    decreases |steps|
  {
    if steps != [] {
      StepInv(w, steps[0]);
      ActiveNeverBelowLive(Do(w, steps[0]), steps[1..]);
    }
  }

  /** A program starts with nothing running, counted or shown. */
  lemma FreshInv()
    ensures Inv(Fresh())
    ensures Fresh().r == State(None, Truth("", "", false, ""), 0, 0, 0)
  {
  }

  function Totals(steps: seq<Step>): nat {
    if steps == [] then 0 else (if steps[0].AddTotal? then 1 else 0) + Totals(steps[1..])
  }

  /** The total counts every connection accepted since the last Start, stale ones included; no Stop, report
      or end of a connection changes it. */
  lemma {:induction false} TotalCounts(w: World, steps: seq<Step>)
    requires Legal(w, steps) && (forall i :: 0 <= i < |steps| ==> !steps[i].StartCall?)
    ensures After(w, steps).r.total == w.r.total + Totals(steps)
    decreases |steps|
  {
    if steps != [] {
      TotalCounts(Do(w, steps[0]), steps[1..]);
    }
  }

  /** The same from the start of the program. */
  lemma CountFromFresh(steps: seq<Step>)
    requires Legal(Fresh(), steps)
    ensures After(Fresh(), steps).r.active >= LiveNow(After(Fresh(), steps)) >= 0
  {
    FreshInv();
    ActiveNeverBelowLive(Fresh(), steps);
  }

  /** A step makes the count and the live connections differ exactly when it counts a connection that a
      stopped run had accepted; nothing but the next Start or Stop brings them together again. */
  lemma DriftIff(w: World, step: Step)
    requires Inv(w) && Enabled(w, step)
    ensures var w' := Do(w, step);
            w.r.active == LiveNow(w) ==>
              (w'.r.active != LiveNow(w') <==> step.AddActive? && w.r.runCtx != Some(step.run))
    ensures var w' := Do(w, step);
            w.r.active != LiveNow(w) && w'.r.active == LiveNow(w') ==> step.StartCall? || step.StopCall?
  {
    StepInv(w, step);
  }

  lemma LegalCons(w: World, step: Step, later: seq<Step>)
    requires Enabled(w, step) && Legal(Do(w, step), later)
    ensures Legal(w, [step] + later) && After(w, [step] + later) == After(Do(w, step), later)
  {
    assert ([step] + later)[1..] == later;
  }

  lemma {:induction false} LegalAppend(w: World, a: seq<Step>, b: seq<Step>)
    requires Legal(w, a) && Legal(After(w, a), b)
    ensures Legal(w, a + b) && After(w, a + b) == After(After(w, a), b)
    decreases |a|
  {
    if a == [] {
      assert a + b == b;
    } else {
      LegalAppend(Do(w, a[0]), a[1..], b);
      assert (a + b)[1..] == a[1..] + b;
    }
  }

  const START := StartCall(true, "", true)

  /** The first run has been stopped while its loop held an accepted connection it had not counted. */
  ghost function Halted(): World {
    World(State(None, Awaiting(""), 0, 0, 1), map[0 := Checked], map[0 := 0], {}, 0)
  }

  lemma StopWhileAccepting() returns (steps: seq<Step>)
    ensures Legal(Fresh(), steps) && After(Fresh(), steps) == Halted()
  {
    var w1 := World(State(Some(0), Awaiting(""), 0, 0, 1), map[0 := Waiting], map[0 := 0], {}, 0);
    var w2 := w1.(loops := map[0 := Checked]);
    assert Do(Fresh(), START) == w1;
    assert Do(w1, Accept(0)) == w2;
    assert Do(w2, StopCall) == Halted();
    LegalCons(w2, StopCall, []);
    LegalCons(w1, Accept(0), [StopCall] + []);
    LegalCons(Fresh(), START, [Accept(0)] + ([StopCall] + []));
    steps := [START] + ([Accept(0)] + ([StopCall] + []));
  }

  /** The second run, in which the first one's connection is counted, and ends. */
  ghost function Drifted(): World {
    World(State(Some(1), Awaiting(""), 1, 1, 2), map[0 := Waiting, 1 := Waiting], map[0 := 0, 1 := 0], {}, 1)
  }

  lemma CountInNextRun() returns (steps: seq<Step>)
    ensures Legal(Halted(), steps) && After(Halted(), steps) == Drifted()
  {
    var w4 := World(State(Some(1), Awaiting(""), 0, 0, 2), map[0 := Checked, 1 := Waiting], map[0 := 0, 1 := 0], {}, 0);
    var w5 := w4.(r := w4.r.(total := 1), loops := map[0 := Counted, 1 := Waiting]);
    var w6 := World(State(Some(1), Awaiting(""), 1, 1, 2), map[0 := Waiting, 1 := Waiting], map[0 := 1, 1 := 0], {}, 1);
    assert Do(Halted(), START) == w4;
    assert Do(w4, AddTotal(0)) == w5;
    assert Do(w5, AddActive(0)) == w6;
    assert Do(w6, Finish(0)) == Drifted();
    LegalCons(w6, Finish(0), []);
    LegalCons(w5, AddActive(0), [Finish(0)] + []);
    LegalCons(w4, AddTotal(0), [AddActive(0)] + ([Finish(0)] + []));
    LegalCons(Halted(), START, [AddTotal(0)] + ([AddActive(0)] + ([Finish(0)] + [])));
    steps := [START] + ([AddTotal(0)] + ([AddActive(0)] + ([Finish(0)] + [])));
  }

  /** How it happens: the loop of the first run passes its check, the run is stopped and another started,
      and the connection is counted then. It stays counted when it has ended. */
  lemma StaleAccept()
    ensures exists steps :: Legal(Fresh(), steps) && After(Fresh(), steps).r.runCtx == Some(1)
                            && After(Fresh(), steps).r.active == 1 && LiveNow(After(Fresh(), steps)) == 0
  {
    var before := StopWhileAccepting();
    var after := CountInNextRun();
    LegalAppend(Fresh(), before, after);
    assert Legal(Fresh(), before + after);
  }

  // ---------------------------------------------------------------------------
  // Isolation of runs
  // ---------------------------------------------------------------------------

  /** What the connections of one run alone make of the route: their reports up to the Stop, in order. */
  function OwnReports(truth: Truth, run: nat, steps: seq<Step>): Truth
    decreases |steps|
  {
    if steps == [] || steps[0] == StopCall then truth
    else OwnReports(if steps[0].Update? && steps[0].run == run then steps[0].truth else truth, run, steps[1..])
  }

  /** No Start takes effect: each is invalid, or comes while the runtime is running. */
  predicate NoStart(running: bool, steps: seq<Step>)
    decreases |steps|
  {
    steps == [] ||
    ((steps[0].StartCall? && steps[0].valid ==> running) && NoStart(running && steps[0] != StopCall, steps[1..]))
  }

  lemma {:induction false} FrozenWhileStopped(w: World, steps: seq<Step>)
    requires Inv(w) && Legal(w, steps) && w.r.runCtx == None && NoStart(false, steps)
    ensures After(w, steps).r.truth == w.r.truth
    decreases |steps|
  {
    if steps != [] {
      StepInv(w, steps[0]);
      FrozenWhileStopped(Do(w, steps[0]), steps[1..]);
    }
  }

  /** Until the next Start, the route fields show what the current run's own connections reported before
      the Stop; connections of older runs, whenever they end or report, change nothing. */
  lemma {:induction false} RunsAreIsolated(w: World, run: nat, steps: seq<Step>)
    requires Inv(w) && Legal(w, steps) && w.r.runCtx == Some(run) && NoStart(true, steps)
    ensures After(w, steps).r.truth == OwnReports(w.r.truth, run, steps)
    decreases |steps|
  {
    if steps != [] {
      StepInv(w, steps[0]);
      if steps[0] == StopCall {
        FrozenWhileStopped(Do(w, steps[0]), steps[1..]);
      } else {
        RunsAreIsolated(Do(w, steps[0]), run, steps[1..]);
      }
    }
  }

  /** A Start that gets as far as listening shows nothing of any run before it, whether or not it succeeds. */
  lemma StartForgets(w: World, selected: string, listens: bool)
    requires Inv(w) && w.r.runCtx == None
    ensures var w' := Do(w, StartCall(true, selected, listens));
            && w'.r.truth == Awaiting(selected) && w'.r.active == w'.r.total == LiveNow(w') == 0
            && (w'.r.runCtx == if listens then Some(w.r.starts) else None)
  {
  }
}
