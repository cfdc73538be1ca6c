/**
 Every Write comes to an end: the steps of its goroutines and of its loop are bounded by the number of
 chunks, and while it is writing one of them can be taken
 (native/tgwsproxy/mtproto_chunk_relay_pipeline.go).
 */
module UploadProgress {
  import opened ByteStreams
  import opened RelayStatus
  import opened HeadTracker
  import opened UploadWindow
  import opened UploadSession

  // ---------------------------------------------------------------------------
  // What is left to do
  // ---------------------------------------------------------------------------

  const ROUND_STEPS: nat := 10
  const CHUNK_STEPS: nat := 40

  /** Steps a round may still take: its legs' answers, the hedge, the delay. */
  function RoundSteps(r: Round): nat {
    (if r.primaryPending then 1 else 0) + (if r.hedgePending then 1 else 0)
    + (if r.hedged then 0 else if r.wantHedge then 2 else 3) + (if r.delayElapsed then 0 else 1)
  }

  function TaskSteps(t: Task): nat {
    var rounds := if t.attempt <= MAX_RETRIES then (MAX_RETRIES - t.attempt) * ROUND_STEPS else 0;
    match t.stage
    case Ready => rounds + 9
    case InRound(r) => rounds + 3 + RoundSteps(r)
    case Settled(_) => 2
    case Reported(_) => 1
    case Consumed(_) => 0
  }

  function TasksSteps(s: Session, k: nat): nat {
    if k == 0 then 0
    else TasksSteps(s, k - 1) + (if s.base + k in s.tasks then TaskSteps(s.tasks[s.base + k]) else 0)
  }

  /** Steps the session's Write may still take. */
  function StepsLeft(s: Session): nat {
    TasksSteps(s, s.loop.nextLaunch)
    + (if s.loop.nextLaunch <= Count(s) then (Count(s) - s.loop.nextLaunch) * CHUNK_STEPS else 0)
  }

  /** A step of the Write: not a new Write, not an arrival at the Worker, not a look at a head that is another. */
  predicate Works(s: Session, a: Action) {
    match a
    case Begin(_) => false
    case Deliver(_) => false
    case RoundEvent(n, LookAtHead) => n == s.tracker.head
    case _ => true
  }

  lemma {:induction false} SameTasksSteps(s: Session, t: Session, k: nat)
    requires s.base == t.base
    requires forall n :: s.base < n <= s.base + k ==>
               (n in s.tasks <==> n in t.tasks) && (n in s.tasks ==> s.tasks[n] == t.tasks[n])
    ensures TasksSteps(s, k) == TasksSteps(t, k)
  {
    if k > 0 {
      SameTasksSteps(s, t, k - 1);
    }
  }

  /** One task moves on, the others stay. */
  lemma {:induction false} OneTaskSteps(s: Session, t: Session, k: nat, n: int)
    requires s.base == t.base && s.base < n <= s.base + k
    requires n in s.tasks && n in t.tasks && TaskSteps(t.tasks[n]) < TaskSteps(s.tasks[n])
    requires forall m :: s.base < m <= s.base + k && m != n ==>
               (m in s.tasks <==> m in t.tasks) && (m in s.tasks ==> s.tasks[m] == t.tasks[m])
    ensures TasksSteps(t, k) < TasksSteps(s, k)
    decreases k
  {
    if n == s.base + k {
      SameTasksSteps(s, t, k - 1);
    } else {
      OneTaskSteps(s, t, k - 1, n);
    }
  }

  lemma TaskMoves(s: Session, t: Session, n: int)
    requires TasksOk(s) && n in s.tasks && n in t.tasks && TaskSteps(t.tasks[n]) < TaskSteps(s.tasks[n])
    requires t.chunks == s.chunks && t.base == s.base && t.loop == s.loop && t.tasks == s.tasks[n := t.tasks[n]]
    ensures StepsLeft(t) < StepsLeft(s)
  {
    OneTaskSteps(s, t, s.loop.nextLaunch, n);
  }

  lemma RoundMoves(n: int, t: Task, event: Event, head: int)
    requires TaskOk(t) && t.stage.InRound? && CanTake(t.stage.round, event) && (event == LookAtHead ==> n == head)
    ensures match TakeEvent(n, t.stage.round, event, head)
            case Live(r) => RoundSteps(r) < RoundSteps(t.stage.round)
            case Over(reply) => TaskSteps(AfterRound(t, reply)) < TaskSteps(t)
  {
  }

  lemma ReceiveLaunches(count: nat, base: int, l: Loop, r: UploadResult)
    ensures var next := Receive(count, base, l, r).nextLaunch;
            next == l.nextLaunch || (next == l.nextLaunch + 1 && l.nextLaunch < count)
  {
  }

  lemma ConsumeMoves(s: Session, n: int)
    requires Inv(s) && Enabled(s, Consume(n))
    ensures StepsLeft(Apply(s, Consume(n))) < StepsLeft(s)
  {
    var k := s.loop.nextLaunch;
    assert TasksOk(s) && s.base < n <= s.base + k;
    ReceiveLaunches(Count(s), s.base, s.loop, UploadResult(n, s.tasks[n].stage.reply));
    ConsumedSteps(s, Apply(s, Consume(n)), n, k);
  }

  lemma ConsumedSteps(s: Session, t: Session, n: int, k: nat)
    requires k == s.loop.nextLaunch && s.base < n <= s.base + k && n in s.tasks && s.tasks[n].stage.Reported?
    requires t.base == s.base && t.chunks == s.chunks && n in t.tasks && t.tasks[n].stage.Consumed?
    requires forall m :: s.base < m <= s.base + k && m != n ==>
               (m in s.tasks <==> m in t.tasks) && (m in s.tasks ==> s.tasks[m] == t.tasks[m])
    requires t.loop.nextLaunch == k
             || (t.loop.nextLaunch == k + 1 && k < Count(s)
                 && s.base + k + 1 in t.tasks && t.tasks[s.base + k + 1] == Task(0, 0, Ready))
    ensures StepsLeft(t) < StepsLeft(s)
  {
    OneTaskSteps(s, t, k, n);
  }

  /** Every step of a Write brings it nearer to its end. */
  lemma WorkDecreases(s: Session, a: Action)
    requires Inv(s) && Enabled(s, a) && Works(s, a)
    ensures StepsLeft(Apply(s, a)) < StepsLeft(s)
  {
    match a
    case StartRound(n) => TaskMoves(s, Apply(s, a), n);
    case RoundEvent(n, event) =>
      RoundMoves(n, s.tasks[n], event, s.tracker.head);
      TaskMoves(s, Apply(s, a), n);
    case Abort(n) => TaskMoves(s, Apply(s, a), n);
    case Report(n) => TaskMoves(s, Apply(s, a), n);
    case Consume(n) => ConsumeMoves(s, n);
  }

  lemma IdleKeeps(s: Session, a: Action)
    requires Inv(s) && Enabled(s, a) && !Works(s, a) && !a.Begin?
    ensures StepsLeft(Apply(s, a)) == StepsLeft(s)
  {
    var t := Apply(s, a);
    assert t.tasks == s.tasks;
    SameTasksSteps(s, t, s.loop.nextLaunch);
  }

  /** How many steps of a run work on the Write. */
  function Working(s: Session, actions: seq<Action>): nat
    requires Possible(s, actions)
    decreases |actions|
  {
    if actions == [] then 0
    else (if Works(s, actions[0]) then 1 else 0) + Working(Apply(s, actions[0]), actions[1..])
  }

  /** However requests, answers and time-outs fall, a Write takes a bounded number of steps. */
  lemma {:induction false} WriteIsBounded(s: Session, actions: seq<Action>)
    requires Inv(s) && Possible(s, actions) && NoBegin(actions)
    ensures Working(s, actions) + StepsLeft(Run(s, actions)) <= StepsLeft(s)
    decreases |actions|
  {
    if actions != [] {
      var a, rest := actions[0], actions[1..];
      assert !a.Begin? && forall k :: 0 <= k < |rest| ==> rest[k] == actions[k + 1];
      if Works(s, a) {
        WorkDecreases(s, a);
      } else {
        IdleKeeps(s, a);
      }
      StepInv(s, a);
      WriteIsBounded(Apply(s, a), rest);
    }
  }

  lemma {:induction false} ReadySteps(s: Session, k: nat)
    requires forall n :: s.base < n <= s.base + k ==> n in s.tasks && s.tasks[n] == Task(0, 0, Ready)
    ensures TasksSteps(s, k) == k * (MAX_RETRIES * ROUND_STEPS + 9)
  {
    if k > 0 {
      ReadySteps(s, k - 1);
    }
  }

  /** At most forty steps a chunk. */
  lemma BeginSteps(s: Session, data: Bytes)
    requires Inv(s) && Enabled(s, Begin(data))
    ensures StepsLeft(Apply(s, Begin(data))) <= |Chop(data)| * CHUNK_STEPS
  {
    var t := Apply(s, Begin(data));
    BeginInv(s, data);
    ReadySteps(t, t.loop.nextLaunch);
  }

  // ---------------------------------------------------------------------------
  // There is always something to do
  // ---------------------------------------------------------------------------

  /** The window is kept full. */
  ghost predicate Flowing(s: Session) {
    s.loop.error == NoError ==> exists answered: nat :: Window(Count(s), s.loop, answered)
  }

  lemma LoopFlows(count: nat, base: int, l: Loop, r: UploadResult, answered: nat)
    requires Partition(count, base, l) && Window(count, l, answered) && r.n in l.inFlight
    ensures Receive(count, base, l, r).error == NoError ==> Window(count, Receive(count, base, l, r), answered + 1)
  {
    if Verdict(r) == NoError {
      ReceiveWindow(count, base, l, answered, r);
    }
  }

  lemma ConsumeFlows(s: Session, n: int)
    requires Inv(s) && Flowing(s) && Enabled(s, Consume(n))
    ensures Flowing(Apply(s, Consume(n)))
  {
    var r := UploadResult(n, s.tasks[n].stage.reply);
    var l := Receive(Count(s), s.base, s.loop, r);
    var answered: nat :| Window(Count(s), s.loop, answered);
    LoopFlows(Count(s), s.base, s.loop, r, answered);
    assert Apply(s, Consume(n)).loop == l && Count(Apply(s, Consume(n))) == Count(s);
    assert l.error == NoError ==> Window(Count(s), l, answered + 1);
  }

  lemma FlowingStep(s: Session, a: Action)
    requires Inv(s) && Flowing(s) && Enabled(s, a)
    ensures Flowing(Apply(s, a))
  {
    match a
    case Begin(data) =>
      StartInv(|Chop(data)|, UpSeq(s));
      assert Window(Count(Apply(s, a)), Apply(s, a).loop, 0);
    case Consume(n) => ConsumeFlows(s, n);
    case _ => assert Apply(s, a).loop == s.loop && Count(Apply(s, a)) == Count(s);
  }

  lemma {:induction false} FlowingRun(s: Session, actions: seq<Action>)
    requires Inv(s) && Flowing(s) && Possible(s, actions)
    ensures Inv(Run(s, actions)) && Flowing(Run(s, actions))
    decreases |actions|
  {
    if actions != [] {
      StepInv(s, actions[0]);
      FlowingStep(s, actions[0]);
      FlowingRun(Apply(s, actions[0]), actions[1..]);
    }
  }

  lemma InitFlows()
    ensures Inv(Init) && Flowing(Init)
  {
    InitOk();
    assert Window(0, Init.loop, 0);
  }

  /** In every reachable session that is writing, a step of the Write can be taken without any help from the
      network: a round is begun or one of its legs times out, a hedge is launched, a result is reported or
      received. */
  lemma {:induction false} NeverStuck(start: Session, actions: seq<Action>, s: Session) returns (a: Action)
    requires start == Init && Possible(start, actions) && s == Run(start, actions) && PhaseOf(s) == Writing
    ensures Inv(s) && Enabled(s, a) && Works(s, a)
  {
    InitFlows();
    a := StepFrom(start, actions, s);
  }

  lemma {:induction false} StepFrom(start: Session, actions: seq<Action>, s: Session) returns (a: Action)
    requires Inv(start) && Flowing(start) && Possible(start, actions) && s == Run(start, actions)
    requires PhaseOf(s) == Writing
    ensures Inv(s) && Enabled(s, a) && Works(s, a)
  {
    FlowingRun(start, actions);
    var n := Unfinished(s);
    a := NextOf(s, n);
  }

  lemma NextOf(s: Session, n: int) returns (a: Action)
    requires Inv(s) && PhaseOf(s) == Writing
    requires n in s.tasks && !s.tasks[n].stage.Consumed? && 1 <= n <= |s.chunks|
    ensures Enabled(s, a) && Works(s, a)
  {
    var t := s.tasks[n];
    match t.stage
    case Ready => a := StartRound(n);
    case InRound(r) =>
      assert RoundOk(r) by { assert TaskOk(t); }
      a := RoundEvent(n, if r.wantHedge then LaunchHedge
                         else LegAnswered(if r.primaryPending then Primary else Hedge, ABORTED));
    case Settled(_) => a := Report(n);
    case Reported(_) => a := Consume(n);
  }

  lemma CommitsBehindLaunches(count: nat, base: int, l: Loop)
    requires Partition(count, base, l)
    ensures l.nextCommit == l.nextLaunch ==> l.inFlight == {}
  {
    if l.nextCommit == l.nextLaunch {
      assert forall n :: n !in l.inFlight;
    }
  }

  lemma Unfinished(s: Session) returns (n: int)
    requires Inv(s) && Flowing(s) && PhaseOf(s) == Writing
    ensures n in s.tasks && !s.tasks[n].stage.Consumed? && 1 <= n <= |s.chunks|
  {
    var answered: nat :| Window(Count(s), s.loop, answered);
    assert Partition(Count(s), s.base, s.loop) by { assert LoopOk(s); }
    NeverWaitsOnNothing(Count(s), s.base, s.loop, answered);
    CommitsBehindLaunches(Count(s), s.base, s.loop);
    n := s.base + s.loop.nextCommit + 1;
    assert n in s.loop.inFlight;
  }
}
