/**
 The upload protocol end to end: request goroutines, hedged rounds, the network and the Worker
 (native/tgwsproxy/mtproto_chunk_relay_pipeline.go) as one state machine.

 The Worker is not part of the repository; its contract is the only assumption. It keeps the
 first body it receives for a sequence number, acknowledges a number only when it holds a body
 for it, and forwards the contiguous prefix of what it holds. The network may lose a request,
 delay it past the end of its round or Write, and deliver it any number of times.
 */
module UploadSession {
  import opened ByteStreams
  import opened RelayStatus
  import opened HeadTracker
  import opened UploadWindow

  // ---------------------------------------------------------------------------
  // One hedged round (requestPipelinedUploadRound)
  // ---------------------------------------------------------------------------

  /** `wantHedge`: the round has seen itself at the head and its next action launches the hedge. */
  datatype Round = Round(primaryPending: bool, hedgePending: bool, hedged: bool, wantHedge: bool,
                         delayElapsed: bool, answered: nat)

  datatype Event = LegAnswered(leg: Leg, reply: Reply) | DelayElapsed | LookAtHead | LaunchHedge

  datatype RoundResult = Live(round: Round) | Over(reply: Reply)

  const NewRound := Round(true, false, false, false, false, 0)

  predicate CanTake(r: Round, event: Event) {
    match event
    case LegAnswered(Primary, _) => r.primaryPending && !r.wantHedge
    case LegAnswered(Hedge, _) => r.hedgePending && !r.wantHedge
    case DelayElapsed => !r.delayElapsed && !r.wantHedge
    case LookAtHead => r.delayElapsed && !r.hedged && !r.wantHedge
    case LaunchHedge => r.wantHedge
  }

  function TakeEvent(n: int, r: Round, event: Event, head: int): RoundResult {
    match event
    case LegAnswered(leg, raw) =>
      var reply := Checked(Up, raw);
      var left := if leg == Primary then r.(primaryPending := false) else r.(hedgePending := false);
      var r' := left.(answered := r.answered + 1);
      if reply.err == None || !Retryable(reply.err) then Over(reply)
      else if !r.hedged then (if n == head then Live(r'.(wantHedge := true)) else Over(reply))
      else if r'.answered >= 2 then Over(reply)
      else Live(r')
    case DelayElapsed => Live(r.(delayElapsed := true))
    case LookAtHead => if n == head then Live(r.(wantHedge := true)) else Live(r)
    case LaunchHedge => Live(r.(hedged := true, hedgePending := true, wantHedge := false))
  }

  // ---------------------------------------------------------------------------
  // The session
  // ---------------------------------------------------------------------------

  datatype Request = Request(n: int, body: Bytes)

  /** Ready: waiting for a slot or a back-off; Settled: the retry loop has returned;
      Reported: marked if acknowledged, and sent to the write loop. */
  datatype Stage =
    | Ready
    | InRound(round: Round)
    | Settled(reply: Reply)
    | Reported(reply: Reply)
    | Consumed(reply: Reply)

  datatype Task = Task(attempt: nat, requests: nat, stage: Stage)

  /** `chunks[n - 1]` is the body of sequence number n: the committed chunks followed by those of the
      latest Write, whose first number is `base + 1`. `wire` holds every request ever launched. */
  datatype Session = Session(chunks: seq<Bytes>, base: nat, loop: Loop, tracker: State,
                             tasks: map<int, Task>, wire: set<Request>, store: map<int, Bytes>)

  datatype Phase = Idle | Writing | Failed

  datatype Action =
    | Begin(data: Bytes)
    | StartRound(n: int)
    | RoundEvent(n: int, event: Event)
    | Abort(n: int)
    | Report(n: int)
    | Consume(n: int)
    | Deliver(request: Request)

  const Init := Session([], 0, Loop(0, 0, {}, {}, NoError), New(1), map[], {}, map[])

  function Count(s: Session): nat {
    if s.base <= |s.chunks| then |s.chunks| - s.base else 0
  }

  function UpSeq(s: Session): nat {
    s.base + s.loop.nextCommit
  }

  function PhaseOf(s: Session): Phase {
    if s.loop.error != NoError then Failed
    else if s.loop.nextCommit < Count(s) then Writing
    else Idle
  }

  predicate Acknowledged(n: int, reply: Reply) {
    reply.err == None && reply.status == 204 && reply.ack == Some(n)
  }

  /** The Worker answers 204 with the right acknowledgement only for a number it holds. */
  predicate WorkerMaySay(s: Session, n: int, reply: Reply) {
    Acknowledged(n, reply) ==> n in s.store
  }

  predicate Enabled(s: Session, a: Action) {
    match a
    case Begin(data) => PhaseOf(s) != Writing && data != [] && UpSeq(s) <= |s.chunks|
    case StartRound(n) => n in s.tasks && s.tasks[n].stage == Ready && 1 <= n <= |s.chunks|
    case RoundEvent(n, event) =>
      && n in s.tasks && s.tasks[n].stage.InRound? && 1 <= n <= |s.chunks|
      && CanTake(s.tasks[n].stage.round, event)
      && (event.LegAnswered? ==> WorkerMaySay(s, n, event.reply))
    case Abort(n) =>
      && n in s.tasks
      && (s.tasks[n].stage == Ready || (s.tasks[n].stage.InRound? && !s.tasks[n].stage.round.wantHedge))
    case Report(n) => n in s.tasks && s.tasks[n].stage.Settled?
    case Consume(n) => PhaseOf(s) == Writing && n in s.tasks && s.tasks[n].stage.Reported?
    case Deliver(request) => request in s.wire
  }

  /** What the goroutines of a failed Write may still put on the wire. */
  function Leftover(s: Session): set<Request> {
    set n | n in s.tasks && 1 <= n <= |s.chunks| && !s.tasks[n].stage.Consumed? :: Request(n, s.chunks[n - 1])
  }

  /** The retry loop's reaction to a round that is over. */
  function AfterRound(t: Task, reply: Reply): Task {
    if Retryable(reply.err) && t.attempt < MAX_RETRIES
    then t.(attempt := t.attempt + 1, stage := Ready)
    else t.(stage := Settled(reply))
  }

  function SetTask(s: Session, n: int, t: Task): Session {
    s.(tasks := s.tasks[n := t])
  }

  function Send(s: Session, n: int): Session
    requires 1 <= n <= |s.chunks|
  {
    s.(wire := s.wire + {Request(n, s.chunks[n - 1])})
  }

  function Apply(s: Session, a: Action): Session
    requires Enabled(s, a)
  {
    match a
    case Begin(data) => ApplyBegin(s, data)
    case StartRound(n) =>
      var t := s.tasks[n];
      SetTask(Send(s, n), n, t.(requests := t.requests + 1, stage := InRound(NewRound)))
    case RoundEvent(n, event) => ApplyRoundEvent(s, n, event)
    case Abort(n) => SetTask(s, n, s.tasks[n].(stage := Settled(ABORTED)))
    case Report(n) =>
      var reply := s.tasks[n].stage.reply;
      var s' := SetTask(s, n, s.tasks[n].(stage := Reported(reply)));
      if Acknowledged(n, reply) then s'.(tracker := Mark(s.tracker, n)) else s'
    case Consume(n) => ApplyConsume(s, n)
    case Deliver(request) =>
      if request.n in s.store then s else s.(store := s.store[request.n := request.body])
  }

  function ApplyBegin(s: Session, data: Bytes): Session
    requires UpSeq(s) <= |s.chunks|
  {
    var base := UpSeq(s);
    var chunks := s.chunks[..base] + Chop(data);
    var loop := Start(|Chop(data)|, base);
    Session(chunks, base, loop, New(base + 1), map n | n in loop.inFlight :: Task(0, 0, Ready),
            s.wire + Leftover(s), s.store)
  }

  function ApplyRoundEvent(s: Session, n: int, event: Event): Session
    requires n in s.tasks && s.tasks[n].stage.InRound? && 1 <= n <= |s.chunks|
  {
    var t := s.tasks[n];
    match TakeEvent(n, t.stage.round, event, s.tracker.head)
    case Over(reply) => SetTask(s, n, AfterRound(t, reply))
    case Live(round) =>
      if event == LaunchHedge
      then SetTask(Send(s, n), n, t.(requests := t.requests + 1, stage := InRound(round)))
      else SetTask(s, n, t.(stage := InRound(round)))
  }

  function ApplyConsume(s: Session, n: int): Session
    requires n in s.tasks && s.tasks[n].stage.Reported?
  {
    var t := s.tasks[n];
    var loop := Receive(Count(s), s.base, s.loop, UploadResult(n, t.stage.reply));
    var tasks := s.tasks[n := t.(stage := Consumed(t.stage.reply))];
    s.(loop := loop,
       tasks := if loop.nextLaunch > s.loop.nextLaunch
                then tasks[s.base + loop.nextLaunch := Task(0, 0, Ready)] else tasks)
  }

  // ---------------------------------------------------------------------------
  // The invariant
  // ---------------------------------------------------------------------------

  /** A round waits for a leg that runs, or is about to launch one. */
  ghost predicate RoundOk(r: Round) {
    && (r.primaryPending || r.hedgePending || r.wantHedge)
    && !(r.hedged && r.wantHedge)
    && (r.hedgePending ==> r.hedged)
    && r.answered + (if r.primaryPending then 1 else 0) + (if r.hedgePending then 1 else 0)
       == (if r.hedged then 2 else 1)
  }

  ghost predicate AtHead(r: Round) {
    r.hedged || r.wantHedge
  }

  /** A retry loop ends with a 204, with an error that must not be retried, with what its fourth round
      came to, or because it was given up. */
  ghost predicate ReplyOk(attempt: nat, reply: Reply) {
    && (reply.err == None ==> reply.status == 204)
    && (Retryable(reply.err) ==> attempt == MAX_RETRIES || reply == ABORTED)
  }

  /** One or two requests a round. */
  ghost predicate TaskOk(t: Task) {
    && t.attempt <= MAX_RETRIES && t.attempt <= t.requests
    && match t.stage
       case Ready => t.requests <= 2 * t.attempt
       case InRound(r) =>
         RoundOk(r) && var legs := if r.hedged then 2 else 1; t.attempt + legs <= t.requests <= 2 * t.attempt + legs
       case Settled(reply) => t.requests <= 2 * t.attempt + 2 && Concluded(t, reply)
       case Reported(reply) => t.requests <= 2 * t.attempt + 2 && Concluded(t, reply)
       case Consumed(reply) => t.requests <= 2 * t.attempt + 2 && Concluded(t, reply)
  }

  ghost predicate Concluded(t: Task, reply: Reply) {
    ReplyOk(t.attempt, reply) && (reply != ABORTED ==> t.attempt < t.requests)
  }

  ghost predicate HasReply(t: Task) {
    t.stage.Settled? || t.stage.Reported? || t.stage.Consumed?
  }

  ghost predicate IsMarked(s: Session, n: int) {
    n in s.tasks && (s.tasks[n].stage.Reported? || s.tasks[n].stage.Consumed?)
    && Acknowledged(n, s.tasks[n].stage.reply)
  }

  ghost function Marked(s: Session): set<int> {
    set n | n in s.tasks && IsMarked(s, n)
  }

  ghost predicate TasksOk(s: Session) {
    && (forall n :: n in s.tasks <==> s.base < n <= s.base + s.loop.nextLaunch)
    && (forall n :: n in s.tasks ==> TaskOk(s.tasks[n]))
  }

  /** An acknowledgement means the Worker holds the number. */
  ghost predicate AcksOk(s: Session) {
    forall n :: n in s.tasks && HasReply(s.tasks[n]) && Acknowledged(n, s.tasks[n].stage.reply) ==> n in s.store
  }

  /** Only the tracker's head is ever hedged. */
  ghost predicate HedgeOk(s: Session) {
    forall n :: n in s.tasks && s.tasks[n].stage.InRound? && AtHead(s.tasks[n].stage.round) ==> n == s.tracker.head
  }

  ghost predicate LoopOk(s: Session) {
    && s.loop.nextCommit <= s.loop.nextLaunch <= |s.chunks| - s.base
    && (s.loop.error == NoError ==> Partition(Count(s), s.base, s.loop))
    && (forall n :: n in s.loop.inFlight <==> n in s.tasks && !s.tasks[n].stage.Consumed?)
    && (forall n :: s.base < n <= s.base + s.loop.nextCommit || n in s.loop.completed ==> IsMarked(s, n))
  }

  ghost predicate StoreOk(s: Session) {
    forall n :: 1 <= n <= s.base ==> n in s.store
  }

  ghost predicate Inv(s: Session) {
    && TasksOk(s)
    && AcksOk(s)
    && HedgeOk(s)
    && LoopOk(s)
    && StoreOk(s)
    && Represents(s.tracker, s.base + 1, Marked(s))
  }

  lemma InitOk()
    ensures Inv(Init) && Clean(Init) && CutOk(Init) && PhaseOf(Init) == Idle
  {
    assert Init.chunks[Init.base..] == Chop([]);
  }

  /** The committed prefix is at the Worker, and the commit point trails the tracker. */
  lemma CommittedIsStored(s: Session)
    requires Inv(s)
    ensures forall n :: 1 <= n <= UpSeq(s) ==> n in s.store
    ensures UpSeq(s) < s.tracker.head
    ensures UpSeq(s) <= |s.chunks|
  {
    forall n | 1 <= n <= UpSeq(s)
      ensures n in s.store
    {
      if n > s.base {
        assert IsMarked(s, n);
      }
    }
    assert forall n :: IsMarked(s, n) <==> n in Marked(s);
  }

  lemma BeginInv(s: Session, data: Bytes)
    requires Inv(s) && Enabled(s, Begin(data))
    ensures Inv(ApplyBegin(s, data))
  {
    var s' := ApplyBegin(s, data);
    ChopShape(data);
    StartInv(|Chop(data)|, UpSeq(s));
    CommittedIsStored(s);
    assert Marked(s') == {};
  }

  /** A task that has not reported may move to any sound state that is not a report. */
  lemma ReplaceInv(s: Session, n: int, t: Task, wire: set<Request>)
    requires Inv(s) && n in s.tasks
    requires !s.tasks[n].stage.Reported? && !s.tasks[n].stage.Consumed?
    requires !t.stage.Reported? && !t.stage.Consumed? && TaskOk(t)
    requires t.stage.InRound? && AtHead(t.stage.round) ==> n == s.tracker.head
    requires t.stage.Settled? && Acknowledged(n, t.stage.reply) ==> n in s.store
    ensures Inv(s.(tasks := s.tasks[n := t], wire := wire))
  {
    var s' := s.(tasks := s.tasks[n := t], wire := wire);
    assert forall m :: IsMarked(s', m) <==> IsMarked(s, m);
    assert Marked(s') == Marked(s);
  }

  lemma StartRoundInv(s: Session, n: int)
    requires Inv(s) && Enabled(s, StartRound(n))
    ensures Inv(Apply(s, StartRound(n)))
  {
    ReplaceInv(s, n, s.tasks[n].(requests := s.tasks[n].requests + 1, stage := InRound(NewRound)), Send(s, n).wire);
  }

  lemma TakeEventOk(n: int, t: Task, event: Event, head: int)
    requires TaskOk(t) && t.stage.InRound? && CanTake(t.stage.round, event)
    ensures match TakeEvent(n, t.stage.round, event, head)
            case Live(r) => RoundOk(r) && (AtHead(r) ==> AtHead(t.stage.round) || n == head)
            case Over(reply) => event.LegAnswered? && reply == Checked(Up, event.reply)
                                && TaskOk(AfterRound(t, reply))
    ensures event != LaunchHedge && TakeEvent(n, t.stage.round, event, head).Live? ==>
              TakeEvent(n, t.stage.round, event, head).round.hedged == t.stage.round.hedged
  {
  }

  lemma RoundEventInv(s: Session, n: int, event: Event)
    requires Inv(s) && Enabled(s, RoundEvent(n, event))
    ensures Inv(Apply(s, RoundEvent(n, event)))
  {
    var t := s.tasks[n];
    TakeEventOk(n, t, event, s.tracker.head);
    match TakeEvent(n, t.stage.round, event, s.tracker.head)
    case Over(reply) => ReplaceInv(s, n, AfterRound(t, reply), s.wire);
    case Live(round) =>
      if event == LaunchHedge {
        ReplaceInv(s, n, t.(requests := t.requests + 1, stage := InRound(round)), Send(s, n).wire);
      } else {
        ReplaceInv(s, n, t.(stage := InRound(round)), s.wire);
      }
  }

  lemma AbortInv(s: Session, n: int)
    requires Inv(s) && Enabled(s, Abort(n))
    ensures Inv(Apply(s, Abort(n)))
  {
    ReplaceInv(s, n, s.tasks[n].(stage := Settled(ABORTED)), s.wire);
  }

  lemma ReportInv(s: Session, n: int)
    requires Inv(s) && Enabled(s, Report(n))
    ensures Inv(Apply(s, Report(n)))
  {
    var s' := Apply(s, Report(n));
    var reply := s.tasks[n].stage.reply;
    MarkRepresents(s.tracker, s.base + 1, Marked(s), n);
    forall m
      ensures IsMarked(s', m) <==> IsMarked(s, m) || (m == n && Acknowledged(n, reply))
    {
    }
    assert Marked(s') == if Acknowledged(n, reply) then Marked(s) + {n} else Marked(s);
  }

  lemma ConsumeMarks(s: Session, n: int)
    requires Inv(s) && Enabled(s, Consume(n))
    ensures forall m :: IsMarked(Apply(s, Consume(n)), m) <==> IsMarked(s, m)
    ensures Marked(Apply(s, Consume(n))) == Marked(s)
  {
    var s' := Apply(s, Consume(n));
    assert forall m :: IsMarked(s', m) <==> IsMarked(s, m);
  }

  lemma ConsumeTasks(s: Session, n: int)
    requires Inv(s) && Enabled(s, Consume(n))
    ensures var s' := Apply(s, Consume(n));
            && TasksOk(s') && AcksOk(s') && HedgeOk(s')
            && (forall m :: m in s'.loop.inFlight <==> m in s'.tasks && !s'.tasks[m].stage.Consumed?)
  {
  }

  lemma ConsumeCommits(s: Session, n: int)
    requires Inv(s) && Enabled(s, Consume(n))
    ensures var l := Apply(s, Consume(n)).loop;
            forall m :: s.base < m <= s.base + l.nextCommit || m in l.completed ==> IsMarked(s, m)
  {
    var r := UploadResult(n, s.tasks[n].stage.reply);
    if Verdict(r) == NoError {
      AdvanceConsumesRun(s.base + s.loop.nextCommit + 1, s.loop.completed + {n});
      assert IsMarked(s, n);
    }
  }

  /** The write loop takes one result: a failed one freezes it, an acknowledged one moves it on. */
  lemma ConsumeLoop(s: Session, n: int)
    requires Inv(s) && Enabled(s, Consume(n))
    ensures LoopOk(Apply(s, Consume(n)))
  {
    var r := UploadResult(n, s.tasks[n].stage.reply);
    ConsumeTasks(s, n);
    ConsumeMarks(s, n);
    ConsumeCommits(s, n);
    if Verdict(r) == NoError {
      ReceivePartition(Count(s), s.base, s.loop, r);
    }
  }

  lemma ConsumeInv(s: Session, n: int)
    requires Inv(s) && Enabled(s, Consume(n))
    ensures Inv(Apply(s, Consume(n)))
  {
    ConsumeTasks(s, n);
    ConsumeMarks(s, n);
    ConsumeLoop(s, n);
  }

  lemma DeliverInv(s: Session, request: Request)
    requires Inv(s) && Enabled(s, Deliver(request))
    ensures Inv(Apply(s, Deliver(request)))
  {
    var s' := Apply(s, Deliver(request));
    assert forall m :: IsMarked(s', m) <==> IsMarked(s, m);
    assert Marked(s') == Marked(s);
  }

  lemma StepInv(s: Session, a: Action)
    requires Inv(s) && Enabled(s, a)
    ensures Inv(Apply(s, a))
  {
    match a
    case Begin(data) => BeginInv(s, data);
    case StartRound(n) => StartRoundInv(s, n);
    case RoundEvent(n, event) => RoundEventInv(s, n, event);
    case Abort(n) => AbortInv(s, n);
    case Report(n) => ReportInv(s, n);
    case Consume(n) => ConsumeInv(s, n);
    case Deliver(request) => DeliverInv(s, request);
  }

  // ---------------------------------------------------------------------------
  // Hedging
  // ---------------------------------------------------------------------------

  /** At most one hedged round is live: two of them would both be the tracker's head. */
  lemma AtMostOneHedgedRound(s: Session, n: int, m: int)
    requires Inv(s)
    requires n in s.tasks && s.tasks[n].stage.InRound? && AtHead(s.tasks[n].stage.round)
    requires m in s.tasks && s.tasks[m].stage.InRound? && AtHead(s.tasks[m].stage.round)
    ensures n == m == s.tracker.head && UpSeq(s) < n
  {
    CommittedIsStored(s);
  }

  /** The head moves only when the head's own retry loop has settled on an acknowledged 204. */
  lemma HeadStable(s: Session, a: Action)
    requires Inv(s) && Enabled(s, a) && !a.Begin?
    requires Apply(s, a).tracker.head != s.tracker.head
    ensures a == Report(s.tracker.head)
    ensures s.tasks[s.tracker.head].stage.Settled? && Acknowledged(s.tracker.head, s.tasks[s.tracker.head].stage.reply)
  {
    if a.Report? {
      MarkRepresents(s.tracker, s.base + 1, Marked(s), a.n);
    }
  }

  /** At most four rounds of at most two requests; and unless it is given up, a chunk's retry loop reports an
      error that may be retried only after four rounds, each of which made a request. */
  lemma RequestBudget(s: Session, n: int)
    requires Inv(s) && n in s.tasks
    ensures s.tasks[n].requests <= 8
    ensures s.tasks[n].stage.InRound? ==> s.tasks[n].requests <= 2 * s.tasks[n].attempt + 2
    ensures HasReply(s.tasks[n]) && s.tasks[n].stage.reply != ABORTED && Retryable(s.tasks[n].stage.reply.err)
            ==> s.tasks[n].attempt == MAX_RETRIES && s.tasks[n].requests >= 4
  {
    assert TaskOk(s.tasks[n]);
  }

  // ---------------------------------------------------------------------------
  // Exactly-once delivery
  // ---------------------------------------------------------------------------

  ghost predicate Agrees(chunks: seq<Bytes>, n: int, body: Bytes) {
    1 <= n <= |chunks| && chunks[n - 1] == body
  }

  /** Every body the Worker holds is the chunk its number stands for. */
  ghost predicate Held(s: Session) {
    forall n :: n in s.store ==> Agrees(s.chunks, n, s.store[n])
  }

  /** ... and so is every request that could still be the first of its number to arrive. */
  ghost predicate Clean(s: Session) {
    Held(s) && forall q :: q in s.wire ==> q.n in s.store || Agrees(s.chunks, q.n, q.body)
  }

  /** The condition a caller must meet to start a Write: what may still arrive for a number the
      Worker does not hold, and what it already holds, is what the new Write sends under it. */
  ghost predicate ResumeSafe(s: Session, data: Bytes)
    requires UpSeq(s) <= |s.chunks|
  {
    var chunks := s.chunks[..UpSeq(s)] + Chop(data);
    && (forall n :: n in s.store ==> Agrees(chunks, n, s.store[n]))
    && (forall q :: q in s.wire || q in Leftover(s) ==> q.n in s.store || Agrees(chunks, q.n, q.body))
  }

  /** The number of the last chunk the Worker can forward. */
  function Contiguous(s: Session): nat {
    Advance(1, s.store.Keys).0 - 1
  }

  function Bodies(store: map<int, Bytes>, k: nat): seq<Bytes> {
    if k == 0 then [] else Bodies(store, k - 1) + [if k in store then store[k] else []]
  }

  /** The bytes the Worker forwards upstream. */
  function Forwarded(s: Session): Bytes {
    Flatten(Bodies(s.store, Contiguous(s)))
  }

  lemma {:induction false} BodiesAreChunks(s: Session, k: nat)
    requires Held(s) && forall n :: 1 <= n <= k ==> n in s.store
    ensures k <= |s.chunks|
    ensures Bodies(s.store, k) == s.chunks[..k]
  {
    if k > 0 {
      BodiesAreChunks(s, k - 1);
      assert Agrees(s.chunks, k, s.store[k]);
      assert s.chunks[..k] == s.chunks[..k - 1] + [s.chunks[k - 1]];
    }
  }

  /** Forwarded bytes are a prefix of the bytes written, no shorter than the committed ones. */
  lemma ForwardedIsPrefix(s: Session)
    requires Inv(s) && Held(s)
    ensures UpSeq(s) <= Contiguous(s) <= |s.chunks|
    ensures Flatten(s.chunks[..UpSeq(s)]) <= Forwarded(s) <= Flatten(s.chunks)
  {
    AdvanceConsumesRun(1, s.store.Keys);
    CommittedIsStored(s);
    BodiesAreChunks(s, Contiguous(s));
    FlattenPrefix(s.chunks, UpSeq(s), Contiguous(s));
    FlattenPrefix(s.chunks, Contiguous(s), |s.chunks|);
    assert s.chunks[..|s.chunks|] == s.chunks;
  }

  lemma StepClean(s: Session, a: Action)
    requires Clean(s) && Enabled(s, a) && !a.Begin?
    ensures Clean(Apply(s, a))
  {
  }

  lemma BeginClean(s: Session, data: Bytes)
    requires Enabled(s, Begin(data)) && ResumeSafe(s, data)
    ensures Clean(Apply(s, Begin(data)))
  {
  }

  function Run(s: Session, actions: seq<Action>): Session
    requires Possible(s, actions)
    decreases |actions|
  {
    if actions == [] then s else Run(Apply(s, actions[0]), actions[1..])
  }

  predicate Possible(s: Session, actions: seq<Action>)
    decreases |actions|
  {
    actions == [] || (Enabled(s, actions[0]) && Possible(Apply(s, actions[0]), actions[1..]))
  }

  /** Every Write of the run meets the condition for starting one. */
  ghost predicate Careful(s: Session, actions: seq<Action>)
    requires Possible(s, actions)
    decreases |actions|
  {
    actions == [] ||
    (&& (actions[0].Begin? ==> ResumeSafe(s, actions[0].data))
     && Careful(Apply(s, actions[0]), actions[1..]))
  }

  /** No Write follows a failed one, as the session's only caller guarantees. */
  ghost predicate StopsAtFailure(s: Session, actions: seq<Action>)
    requires Possible(s, actions)
    decreases |actions|
  {
    actions == [] ||
    (&& (actions[0].Begin? ==> PhaseOf(s) == Idle)
     && StopsAtFailure(Apply(s, actions[0]), actions[1..]))
  }

  /** All the data handed to Write, in order. */
  function Offered(actions: seq<Action>): Bytes {
    if actions == [] then []
    else OfferedBy(actions[0]) + Offered(actions[1..])
  }

  lemma {:induction false} RunInv(s: Session, actions: seq<Action>)
    requires Inv(s) && Possible(s, actions)
    ensures Inv(Run(s, actions))
    decreases |actions|
  {
    if actions != [] {
      StepInv(s, actions[0]);
      RunInv(Apply(s, actions[0]), actions[1..]);
    }
  }

  lemma {:induction false} RunClean(s: Session, actions: seq<Action>)
    requires Clean(s) && Possible(s, actions) && Careful(s, actions)
    ensures Clean(Run(s, actions))
    decreases |actions|
  {
    if actions != [] {
      if actions[0].Begin? {
        BeginClean(s, actions[0].data);
      } else {
        StepClean(s, actions[0]);
      }
      RunClean(Apply(s, actions[0]), actions[1..]);
    }
  }

  /** A successful session may always be continued: nothing is left under an uncommitted number. */
  lemma IdleIsResumeSafe(s: Session, data: Bytes)
    requires Inv(s) && Clean(s) && PhaseOf(s) == Idle
    ensures ResumeSafe(s, data)
    ensures ApplyBegin(s, data).chunks == s.chunks + Chop(data)
  {
    assert s.chunks[..UpSeq(s)] == s.chunks;
    var chunks := s.chunks + Chop(data);
    assert forall n, body :: Agrees(s.chunks, n, body) ==> Agrees(chunks, n, body);
  }

  function OfferedBy(a: Action): Bytes {
    if a.Begin? then a.data else []
  }

  lemma StopStep(s: Session, a: Action)
    requires Inv(s) && Clean(s) && Enabled(s, a) && (a.Begin? ==> PhaseOf(s) == Idle)
    ensures a.Begin? ==> ResumeSafe(s, a.data)
    ensures Clean(Apply(s, a))
    ensures Flatten(Apply(s, a).chunks) == Flatten(s.chunks) + OfferedBy(a)
  {
    if a.Begin? {
      IdleIsResumeSafe(s, a.data);
      BeginClean(s, a.data);
      ChopShape(a.data);
      FlattenAppend(s.chunks, Chop(a.data));
    } else {
      StepClean(s, a);
      assert Apply(s, a).chunks == s.chunks;
    }
  }

  lemma {:induction false} StopsIsClean(s: Session, actions: seq<Action>)
    requires Inv(s) && Clean(s) && Possible(s, actions) && StopsAtFailure(s, actions)
    ensures Inv(Run(s, actions)) && Clean(Run(s, actions))
    decreases |actions|
  {
    if actions != [] {
      StepInv(s, actions[0]);
      StopStep(s, actions[0]);
      StopsIsClean(Apply(s, actions[0]), actions[1..]);
    }
  }

  lemma {:induction false} ChunksAreOffered(s: Session, actions: seq<Action>)
    requires Inv(s) && Clean(s) && Possible(s, actions) && StopsAtFailure(s, actions)
    ensures Flatten(Run(s, actions).chunks) == Flatten(s.chunks) + Offered(actions)
    decreases |actions|
  {
    if actions != [] {
      var s' := Apply(s, actions[0]);
      StepInv(s, actions[0]);
      StopStep(s, actions[0]);
      ChunksAreOffered(s', actions[1..]);
      ConcatAssoc(Flatten(s.chunks), OfferedBy(actions[0]), Offered(actions[1..]));
    }
  }

  lemma DeliversOffered(start: Session, actions: seq<Action>, end: Session)
    requires Inv(start) && Clean(start) && Flatten(start.chunks) == []
    requires Possible(start, actions) && StopsAtFailure(start, actions) && end == Run(start, actions)
    ensures Inv(end) && Clean(end) && UpSeq(end) <= |end.chunks|
    ensures Flatten(end.chunks[..UpSeq(end)]) <= Forwarded(end) <= Offered(actions)
    ensures PhaseOf(end) == Idle ==> Forwarded(end) == Offered(actions)
  {
    StopsIsClean(start, actions);
    ChunksAreOffered(start, actions);
    assert Flatten(end.chunks) == Offered(actions);
    IdleForwardsAll(end);
  }

  /** Exactly-once upload. Whatever is lost, delayed, duplicated, hedged or reordered, the Worker
      forwards a prefix of the data written that covers everything committed; when the session
      is idle, everything offered has been forwarded. */
  lemma ExactlyOnce(start: Session, actions: seq<Action>, end: Session)
    requires start == Init && Possible(start, actions) && StopsAtFailure(start, actions) && end == Run(start, actions)
    ensures Inv(end) && UpSeq(end) <= |end.chunks|
    ensures Flatten(end.chunks[..UpSeq(end)]) <= Forwarded(end) <= Offered(actions)
    ensures PhaseOf(end) == Idle ==> Forwarded(end) == Offered(actions)
  {
    InitOk();
    DeliversOffered(start, actions, end);
  }

  lemma IdleForwardsAll(s: Session)
    requires Inv(s) && Clean(s)
    ensures UpSeq(s) <= |s.chunks|
    ensures Flatten(s.chunks[..UpSeq(s)]) <= Forwarded(s) <= Flatten(s.chunks)
    ensures PhaseOf(s) == Idle ==> Forwarded(s) == Flatten(s.chunks)
  {
    ForwardedIsPrefix(s);
    if PhaseOf(s) == Idle {
      assert s.chunks[..UpSeq(s)] == s.chunks;
    }
  }

  // ---------------------------------------------------------------------------
  // Writing again after a failure
  // ---------------------------------------------------------------------------

  ghost predicate NoBegin(actions: seq<Action>) {
    forall k :: 0 <= k < |actions| ==> !actions[k].Begin?
  }

  lemma {:induction false} NoBeginIsCareful(s: Session, actions: seq<Action>)
    requires Possible(s, actions) && NoBegin(actions)
    ensures Careful(s, actions)
    decreases |actions|
  {
    if actions != [] {
      assert !actions[0].Begin?;
      assert forall k :: 0 <= k < |actions[1..]| ==> actions[1..][k] == actions[k + 1];
      NoBeginIsCareful(Apply(s, actions[0]), actions[1..]);
    }
  }

  /** Starting a Write is harmless in every continuation exactly when it is resume-safe. */
  lemma ResumeIff(s: Session, data: Bytes)
    requires Enabled(s, Begin(data))
    ensures ResumeSafe(s, data) <==>
              (forall actions | Possible(Apply(s, Begin(data)), actions) && NoBegin(actions) ::
                 Held(Run(Apply(s, Begin(data)), actions)))
  {
    var s' := Apply(s, Begin(data));
    if ResumeSafe(s, data) {
      BeginClean(s, data);
      forall actions | Possible(s', actions) && NoBegin(actions)
        ensures Held(Run(s', actions))
      {
        NoBeginIsCareful(s', actions);
        RunClean(s', actions);
      }
    } else if Held(s') {
      assert exists q :: q in s'.wire && q.n !in s'.store && !Agrees(s'.chunks, q.n, q.body);
      var q :| q in s'.wire && q.n !in s'.store && !Agrees(s'.chunks, q.n, q.body);
      var late := [Deliver(q)];
      assert late[1..] == [];
      assert Possible(s', late) && NoBegin(late);
      assert Run(s', late) == Apply(s', Deliver(q));
      assert q.n in Run(s', late).store && Run(s', late).store[q.n] == q.body;
      assert !Held(Run(s', late));
    } else {
      assert Possible(s', []) && NoBegin([]) && Run(s', []) == s';
    }
  }

  /** The cut of the latest Write is the cut of its own bytes; only Begin changes it. */
  ghost predicate CutOk(s: Session) {
    s.base <= |s.chunks| && exists d: Bytes :: s.chunks[s.base..] == Chop(d)
  }

  lemma StepCut(s: Session, a: Action)
    requires Inv(s) && CutOk(s) && Enabled(s, a)
    ensures CutOk(Apply(s, a))
  {
    if a.Begin? {
      CommittedIsStored(s);
      var s' := ApplyBegin(s, a.data);
      assert s'.chunks[s'.base..] == Chop(a.data);
    }
  }

  lemma {:induction false} RunCut(s: Session, actions: seq<Action>)
    requires Inv(s) && CutOk(s) && Possible(s, actions)
    ensures CutOk(Run(s, actions))
    decreases |actions|
  {
    if actions != [] {
      StepCut(s, actions[0]);
      StepInv(s, actions[0]);
      RunCut(Apply(s, actions[0]), actions[1..]);
    }
  }

  lemma SuffixCut(chunks: seq<Bytes>, base: nat, d: Bytes, k: nat)
    requires base + k <= |chunks| && chunks[base..] == Chop(d)
    ensures chunks[..base + k] + Chop(Flatten(chunks[base + k..])) == chunks
  {
    DropDrop(chunks, base, k);
    ChopOfSuffix(d, k);
  }

  lemma RestCut(s: Session, rest: Bytes)
    requires Inv(s) && CutOk(s) && UpSeq(s) <= |s.chunks|
    requires rest == Flatten(s.chunks[UpSeq(s)..])
    ensures s.chunks[..UpSeq(s)] + Chop(rest) == s.chunks
  {
    var d :| s.chunks[s.base..] == Chop(d);
    SuffixCut(s.chunks, s.base, d, s.loop.nextCommit);
  }

  /** Retrying exactly the unwritten rest of a failed Write is resume-safe: it cuts the same chunks. */
  lemma RetryRestIsResumeSafe(s: Session, rest: Bytes)
    requires Inv(s) && Clean(s) && CutOk(s) && UpSeq(s) <= |s.chunks|
    requires rest == Flatten(s.chunks[UpSeq(s)..])
    ensures ResumeSafe(s, rest)
    ensures ApplyBegin(s, rest).chunks == s.chunks
  {
    RestCut(s, rest);
    forall q | q in Leftover(s)
      ensures Agrees(s.chunks, q.n, q.body)
    {
    }
  }

  /** Over whole sessions: after any run whose Writes were started safely, retrying exactly the unwritten
      rest of a failed Write is safe again, and cuts the same chunks. */
  lemma {:induction false} RetryRest(start: Session, actions: seq<Action>, end: Session, rest: Bytes)
    requires start == Init && Possible(start, actions) && Careful(start, actions) && end == Run(start, actions)
    requires UpSeq(end) <= |end.chunks| ==> rest == Flatten(end.chunks[UpSeq(end)..])
    ensures UpSeq(end) <= |end.chunks| && ResumeSafe(end, rest) && ApplyBegin(end, rest).chunks == end.chunks
  {
    InitOk();
    RunInv(start, actions);
    RunClean(start, actions);
    RunCut(start, actions);
    CommittedIsStored(end);
    RetryRestIsResumeSafe(end, rest);
  }

  lemma RunCons(s: Session, a: Action, rest: seq<Action>)
    requires Enabled(s, a) && Possible(Apply(s, a), rest)
    ensures Possible(s, [a] + rest) && Run(s, [a] + rest) == Run(Apply(s, a), rest)
  {
    assert ([a] + rest)[1..] == rest;
  }

  // A Write of [1] whose only request is abandoned, then a Write of [2].
  const LATE := Request(1, [1])

  ghost function Attempt(body: Bytes, wire: set<Request>, stage: Stage, requests: nat): Session {
    Session([body], 0, Loop(1, 0, {}, {1}, NoError), New(1), map[1 := Task(0, requests, stage)], wire, map[])
  }

  ghost function GivenUp(): Session {
    Session([[1]], 0, Loop(1, 0, {}, {}, RequestFailed(Transport)), New(1),
            map[1 := Task(0, 1, Consumed(ABORTED))], {LATE}, map[])
  }

  lemma BeginOne(s: Session, x: bv8)
    requires PhaseOf(s) != Writing && UpSeq(s) == 0 && s.store == map[]
    ensures Apply(s, Begin([x])) == Attempt([x], s.wire + Leftover(s), Ready, 0)
  {
    assert Chop([x]) == [[x]];
    assert FirstLaunches(0, 1) == FirstLaunches(0, 0) + {1} == {1};
    assert s.chunks[..0] + [[x]] == [[x]];
  }

  lemma FirstAttemptFails() returns (abandon: seq<Action>)
    ensures Possible(Attempt([1], {}, Ready, 0), abandon)
    ensures Run(Attempt([1], {}, Ready, 0), abandon) == GivenUp()
  {
    var s1 := Attempt([1], {}, Ready, 0);
    var s2 := Attempt([1], {LATE}, InRound(NewRound), 1);
    var s3 := Attempt([1], {LATE}, Settled(ABORTED), 1);
    var s4 := Attempt([1], {LATE}, Reported(ABORTED), 1);
    assert Apply(s1, StartRound(1)) == s2;
    assert Apply(s2, Abort(1)) == s3;
    assert Apply(s3, Report(1)) == s4;
    assert Apply(s4, Consume(1)) == GivenUp();
    RunCons(s4, Consume(1), []);
    RunCons(s3, Report(1), [Consume(1)]);
    RunCons(s2, Abort(1), [Report(1), Consume(1)]);
    RunCons(s1, StartRound(1), [Abort(1), Report(1), Consume(1)]);
    assert [StartRound(1)] + [Abort(1), Report(1), Consume(1)] == [StartRound(1), Abort(1), Report(1), Consume(1)];
    assert [Abort(1)] + [Report(1), Consume(1)] == [Abort(1), Report(1), Consume(1)];
    assert [Report(1)] + [Consume(1)] == [Report(1), Consume(1)];
    assert [Consume(1)] + [] == [Consume(1)];
    abandon := [StartRound(1), Abort(1), Report(1), Consume(1)];
  }

  lemma {:induction false} RunAppend(s: Session, a: seq<Action>, b: seq<Action>)
    requires Possible(s, a) && Possible(Run(s, a), b)
    ensures Possible(s, a + b) && Run(s, a + b) == Run(Run(s, a), b)
    decreases |a|
  {
    if a == [] {
      assert a + b == b;
    } else {
      RunAppend(Apply(s, a[0]), a[1..], b);
      assert (a + b)[1..] == a[1..] + b;
    }
  }

  lemma LateArrival() returns (reuse: seq<Action>)
    ensures Possible(GivenUp(), reuse)
    ensures Run(GivenUp(), reuse).chunks == [[2]]
    ensures Forwarded(Run(GivenUp(), reuse)) == [1]
  {
    BeginOne(GivenUp(), 2);
    var s6 := Attempt([2], {LATE}, Ready, 0);
    assert Leftover(GivenUp()) == {};
    var s7 := s6.(store := map[1 := [1]]);
    assert Apply(s6, Deliver(LATE)) == s7;
    RunCons(s6, Deliver(LATE), []);
    RunCons(GivenUp(), Begin([2]), [Deliver(LATE)]);
    assert [Begin([2])] + [Deliver(LATE)] == [Begin([2]), Deliver(LATE)];
    assert [Deliver(LATE)] + [] == [Deliver(LATE)];
    AdvanceConsumesRun(1, s7.store.Keys);
    assert Contiguous(s7) == 1;
    assert Bodies(s7.store, 1) == Bodies(s7.store, 0) + [[1]] == [[1]];
    FlattenSnoc<bv8>([], [1]);
    assert [] + [[1 as bv8]] == [[1 as bv8]];
    reuse := [Begin([2]), Deliver(LATE)];
  }

  lemma RunThrough(s0: Session, a: Action, s1: Session, b: seq<Action>, s2: Session, c: seq<Action>)
    returns (actions: seq<Action>)
    requires Enabled(s0, a) && Apply(s0, a) == s1
    requires Possible(s1, b) && Run(s1, b) == s2
    requires Possible(s2, c)
    ensures actions == [a] + (b + c) && Possible(s0, actions) && Run(s0, actions) == Run(s2, c)
  {
    RunAppend(s1, b, c);
    RunCons(s0, a, b + c);
    actions := [a] + (b + c);
  }

  // A Write of [1] whose first round fails on both legs, and whose second round is acknowledged.
  ghost function Trying(attempt: nat, requests: nat, stage: Stage, store: map<int, Bytes>): Session {
    Session([[1]], 0, Loop(1, 0, {}, {1}, NoError), New(1), map[1 := Task(attempt, requests, stage)], {LATE}, store)
  }

  ghost predicate Completed(s: Session) {
    PhaseOf(s) == Idle && s.chunks == [[1]]
  }

  ghost function LegFails(leg: Leg, status: int): Action {
    RoundEvent(1, LegAnswered(leg, Reply(status, None, None)))
  }

  lemma FirstRoundFails(status: int) returns (actions: seq<Action>)
    requires status >= 500
    ensures Possible(Attempt([1], {}, Ready, 0), actions)
    ensures Run(Attempt([1], {}, Ready, 0), actions) == Trying(1, 2, Ready, map[])
    ensures LegFails(Primary, status) in actions && LegFails(Hedge, status) in actions
  {
    var s1 := Attempt([1], {}, Ready, 0);
    var s2 := Trying(0, 1, InRound(NewRound), map[]);
    var s3 := Trying(0, 1, InRound(Round(false, false, false, true, false, 1)), map[]);
    var s4 := Trying(0, 2, InRound(Round(false, true, true, false, false, 1)), map[]);
    assert Apply(s1, StartRound(1)) == s2;
    assert Apply(s2, LegFails(Primary, status)) == s3;
    assert Apply(s3, RoundEvent(1, LaunchHedge)) == s4;
    assert Apply(s4, LegFails(Hedge, status)) == Trying(1, 2, Ready, map[]);
    RunCons(s4, LegFails(Hedge, status), []);
    RunCons(s3, RoundEvent(1, LaunchHedge), [LegFails(Hedge, status)] + []);
    RunCons(s2, LegFails(Primary, status), [RoundEvent(1, LaunchHedge)] + ([LegFails(Hedge, status)] + []));
    actions := [LegFails(Primary, status)] + ([RoundEvent(1, LaunchHedge)] + ([LegFails(Hedge, status)] + []));
    RunCons(s1, StartRound(1), actions);
    actions := [StartRound(1)] + actions;
  }

  lemma SecondRoundSucceeds() returns (actions: seq<Action>)
    ensures Possible(Trying(1, 2, Ready, map[]), actions)
    ensures Completed(Run(Trying(1, 2, Ready, map[]), actions))
  {
    var reply := Reply(204, Some(1), None);
    var held := map[1 := [1 as bv8]];
    var s5 := Trying(1, 2, Ready, map[]);
    var s6 := Trying(1, 3, InRound(NewRound), map[]);
    var s7 := Trying(1, 3, InRound(NewRound), held);
    var s8 := Trying(1, 3, Settled(reply), held);
    assert Apply(s5, StartRound(1)) == s6;
    assert Apply(s6, Deliver(LATE)) == s7;
    var answer := RoundEvent(1, LegAnswered(Primary, reply));
    assert Apply(s7, answer) == s8;
    actions := ReportAndConsume(s8, reply);
    RunCons(s7, answer, actions);
    RunCons(s6, Deliver(LATE), [answer] + actions);
    RunCons(s5, StartRound(1), [Deliver(LATE)] + ([answer] + actions));
    actions := [StartRound(1)] + ([Deliver(LATE)] + ([answer] + actions));
  }

  lemma ReportAndConsume(s: Session, reply: Reply) returns (actions: seq<Action>)
    requires reply == Reply(204, Some(1), None) && s == Trying(1, 3, Settled(reply), map[1 := [1]])
    ensures Possible(s, actions) && Completed(Run(s, actions))
  {
    var s1, s2 := Apply(s, Report(1)), Apply(Apply(s, Report(1)), Consume(1));
    AdvanceConsumesRun(1, {1});
    RunCons(s1, Consume(1), []);
    RunCons(s, Report(1), [Consume(1)] + []);
    actions := [Report(1)] + ([Consume(1)] + []);
  }

  /** A Write survives a failed round: after both legs of the first one came back with a server error, the
      second round's acknowledgement completes it without an error. */
  lemma FailedRoundIsRetried(status: int)
    requires status >= 500
    ensures exists actions :: RetriedRun(actions, status)
  {
    BeginOne(Init, 1);
    assert Leftover(Init) == {};
    var failing := FirstRoundFails(status);
    var succeeding := SecondRoundSucceeds();
    var actions := RunThrough(Init, Begin([1]), Attempt([1], {}, Ready, 0), failing, Trying(1, 2, Ready, map[]),
                              succeeding);
    StillIn(LegFails(Primary, status), Begin([1]), failing, succeeding);
    StillIn(LegFails(Hedge, status), Begin([1]), failing, succeeding);
    assert RetriedRun(actions, status);
  }

  ghost predicate RetriedRun(actions: seq<Action>, status: int) {
    && LegFails(Primary, status) in actions && LegFails(Hedge, status) in actions
    && Possible(Init, actions) && Completed(Run(Init, actions))
  }

  lemma StillIn<T>(x: T, a: T, b: seq<T>, c: seq<T>)
    requires x in b
    ensures x in [a] + (b + c)
  {
    assert x in b + c;
  }

  /** Sending other data after a failure can put the abandoned bytes upstream: the first Write's
      request for number 1 arrives during the second Write, whose only chunk is [2]. */
  lemma ReuseAfterFailureCounterexample()
    ensures exists actions ::
              Possible(Init, actions) && Run(Init, actions).chunks == [[2]] && Forwarded(Run(Init, actions)) == [1]
  {
    BeginOne(Init, 1);
    assert Leftover(Init) == {};
    var abandon := FirstAttemptFails();
    var reuse := LateArrival();
    var actions := RunThrough(Init, Begin([1]), Attempt([1], {}, Ready, 0), abandon, GivenUp(), reuse);
  }
}
