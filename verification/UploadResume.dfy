/**
 When a Write may follow a failed one, judged by what the client itself knows
 (native/tgwsproxy/mtproto_chunk_relay_pipeline.go).

 The write loop sees the data it is given and the results it receives; from these alone it knows its
 chunks, its commit point and the highest number it has launched. What the Worker holds, and which
 requests are still under way, it does not know.
 */
module UploadResume {
  import opened ByteStreams
  import opened RelayStatus
  import opened HeadTracker
  import opened UploadWindow
  import opened UploadSession

  // ---------------------------------------------------------------------------
  // What the client knows
  // ---------------------------------------------------------------------------

  /** An event the write loop sees: a Write begins, or a result comes in. */
  datatype Seen = Begun(data: Bytes) | Got(n: int, reply: Reply)

  /** `launched`: the highest number ever launched. */
  datatype View = View(chunks: seq<Bytes>, base: nat, loop: Loop, launched: nat)

  const Blank := View([], 0, Loop(0, 0, {}, {}, NoError), 0)

  function Max(a: nat, b: nat): nat {
    if a < b then b else a
  }

  function ViewUp(v: View): nat {
    v.base + v.loop.nextCommit
  }

  function Prefix(chunks: seq<Bytes>, k: nat): seq<Bytes> {
    if k <= |chunks| then chunks[..k] else chunks
  }

  function See(v: View, e: Seen): View {
    match e
    case Begun(data) =>
      var loop := Start(|Chop(data)|, ViewUp(v));
      View(Prefix(v.chunks, ViewUp(v)) + Chop(data), ViewUp(v), loop, Max(v.launched, ViewUp(v) + loop.nextLaunch))
    case Got(n, reply) =>
      var count := if v.base <= |v.chunks| then |v.chunks| - v.base else 0;
      var loop := Receive(count, v.base, v.loop, UploadResult(n, reply));
      v.(loop := loop, launched := Max(v.launched, v.base + loop.nextLaunch))
  }

  function SeeAll(v: View, h: seq<Seen>): View
    decreases |h|
  {
    if h == [] then v else SeeAll(See(v, h[0]), h[1..])
  }

  /** What the write loop sees of one action, and of a run. */
  function Shown(s: Session, a: Action): seq<Seen>
    requires Enabled(s, a)
  {
    match a
    case Begin(data) => [Begun(data)]
    case Consume(n) => [Got(n, s.tasks[n].stage.reply)]
    case _ => []
  }

  function History(s: Session, actions: seq<Action>): seq<Seen>
    requires Possible(s, actions)
    decreases |actions|
  {
    if actions == [] then [] else Shown(s, actions[0]) + History(Apply(s, actions[0]), actions[1..])
  }

  /** The new Write sends, under every launched number above the commit point, the chunk sent before. */
  ghost predicate AgreesAt(v: View, data: Bytes, n: int) {
    && ViewUp(v) < n <= |v.chunks| && n - ViewUp(v) <= |Chop(data)|
    && Chop(data)[n - ViewUp(v) - 1] == v.chunks[n - 1]
  }

  ghost predicate Agreeing(v: View, data: Bytes) {
    forall n :: ViewUp(v) < n <= v.launched ==> AgreesAt(v, data, n)
  }

  /** Every Write of the history met that condition when it began. */
  ghost predicate Prudent(v: View, h: seq<Seen>)
    decreases |h|
  {
    h == [] || ((h[0].Begun? ==> Agreeing(v, h[0].data)) && Prudent(See(v, h[0]), h[1..]))
  }

  ghost predicate ViewIs(v: View, s: Session) {
    v.chunks == s.chunks && v.base == s.base && v.loop == s.loop
  }

  /** Everything stored or ever sent is the chunk its number stands for, and has been launched. */
  ghost predicate Sound(s: Session, v: View) {
    && ViewIs(v, s) && s.base + s.loop.nextLaunch <= v.launched <= |s.chunks|
    && (forall n :: n in s.store ==> n <= v.launched && Agrees(s.chunks, n, s.store[n]))
    && (forall q :: q in s.wire ==> q.n <= v.launched && Agrees(s.chunks, q.n, q.body))
  }

  lemma SeeOne(v: View, e: Seen)
    ensures SeeAll(v, [e]) == See(v, e)
    ensures Prudent(v, [e]) <==> (e.Begun? ==> Agreeing(v, e.data))
  {
    assert [e][1..] == [];
  }

  // ---------------------------------------------------------------------------
  // Prudent runs stay sound
  // ---------------------------------------------------------------------------

  lemma AgreesAfterBegin(s: Session, v: View, data: Bytes, n: int, body: Bytes)
    requires Sound(s, v) && UpSeq(s) <= |s.chunks| && Agreeing(v, data)
    requires n <= v.launched && Agrees(s.chunks, n, body)
    ensures Agrees(s.chunks[..UpSeq(s)] + Chop(data), n, body)
  {
    if n > UpSeq(s) {
      assert AgreesAt(v, data, n);
    }
  }

  lemma SoundBegin(s: Session, v: View, data: Bytes)
    requires Inv(s) && Sound(s, v) && Enabled(s, Begin(data)) && Agreeing(v, data)
    ensures Sound(Apply(s, Begin(data)), See(v, Begun(data))) && ResumeSafe(s, data)
  {
    var s' := ApplyBegin(s, data);
    var chunks := s.chunks[..UpSeq(s)] + Chop(data);
    assert s'.chunks == chunks;
    forall n | n in s.store
      ensures Agrees(chunks, n, s.store[n])
    {
      AgreesAfterBegin(s, v, data, n, s.store[n]);
    }
    forall q | q in s.wire || q in Leftover(s)
      ensures q.n <= v.launched && Agrees(chunks, q.n, q.body)
    {
      AgreesAfterBegin(s, v, data, q.n, q.body);
    }
    if v.launched > UpSeq(s) {
      assert AgreesAt(v, data, v.launched);
    }
  }

  lemma SoundConsume(s: Session, v: View, n: int)
    requires Inv(s) && Sound(s, v) && Enabled(s, Consume(n))
    ensures Sound(Apply(s, Consume(n)), See(v, Got(n, s.tasks[n].stage.reply)))
  {
    ConsumeLoop(s, n);
  }

  lemma SoundOther(s: Session, v: View, a: Action)
    requires Inv(s) && Sound(s, v) && Enabled(s, a) && !a.Begin? && !a.Consume?
    ensures Sound(Apply(s, a), v)
  {
  }

  lemma SoundStep(s: Session, v: View, a: Action)
    requires Inv(s) && Sound(s, v) && Enabled(s, a) && Prudent(v, Shown(s, a))
    ensures Sound(Apply(s, a), SeeAll(v, Shown(s, a)))
  {
    match a
    case Begin(data) =>
      SeeOne(v, Begun(data));
      SoundBegin(s, v, data);
    case Consume(n) =>
      SeeOne(v, Got(n, s.tasks[n].stage.reply));
      SoundConsume(s, v, n);
    case _ => SoundOther(s, v, a);
  }

  lemma {:induction false} SeeAppend(v: View, a: seq<Seen>, b: seq<Seen>)
    ensures SeeAll(v, a + b) == SeeAll(SeeAll(v, a), b)
    ensures Prudent(v, a + b) <==> Prudent(v, a) && Prudent(SeeAll(v, a), b)
    decreases |a|
  {
    if a == [] {
      assert a + b == b;
    } else {
      SeeAppend(See(v, a[0]), a[1..], b);
      assert (a + b)[1..] == a[1..] + b;
    }
  }

  /** The client's view is a function of its history, and along prudent histories it is sound. */
  lemma {:induction false} SoundRun(s: Session, v: View, actions: seq<Action>)
    requires Inv(s) && Sound(s, v) && Possible(s, actions) && Prudent(v, History(s, actions))
    ensures Inv(Run(s, actions)) && Sound(Run(s, actions), SeeAll(v, History(s, actions)))
    decreases |actions|
  {
    if actions != [] {
      SeeAppend(v, Shown(s, actions[0]), History(Apply(s, actions[0]), actions[1..]));
      SoundStep(s, v, actions[0]);
      StepInv(s, actions[0]);
      SoundRun(Apply(s, actions[0]), SeeAll(v, Shown(s, actions[0])), actions[1..]);
    }
  }

  // ---------------------------------------------------------------------------
  // Every launched request may have been sent
  // ---------------------------------------------------------------------------

  /** Equal but for requests that one of them has sent in addition. */
  ghost predicate Twin(s: Session, t: Session) {
    && s.chunks == t.chunks && s.base == t.base && s.loop == t.loop && s.tracker == t.tracker && s.store == t.store
    && s.tasks.Keys == t.tasks.Keys && s.wire <= t.wire
    && (forall n :: n in s.tasks ==> s.tasks[n].stage == t.tasks[n].stage && s.tasks[n].attempt == t.tasks[n].attempt)
  }

  /** The request for n has been sent, or its goroutine has still to send it. */
  ghost predicate Pending(t: Session, n: int) {
    1 <= n <= |t.chunks| && (Request(n, t.chunks[n - 1]) in t.wire || (n in t.tasks && t.tasks[n].stage == Ready))
  }

  ghost predicate Eager(t: Session, launched: nat) {
    forall n :: UpSeq(t) < n <= launched ==> Pending(t, n)
  }

  lemma TwinLeftover(s: Session, t: Session)
    requires Twin(s, t)
    ensures Leftover(s) == Leftover(t)
  {
  }

  lemma EagerBegin(t: Session, v: View, data: Bytes)
    requires Inv(t) && Sound(t, v) && Eager(t, v.launched) && Enabled(t, Begin(data)) && Agreeing(v, data)
    ensures Eager(Apply(t, Begin(data)), See(v, Begun(data)).launched)
  {
    var t', v' := Apply(t, Begin(data)), See(v, Begun(data));
    BeginInv(t, data);
    forall n | UpSeq(t') < n <= v'.launched
      ensures Pending(t', n)
    {
      if n <= t'.base + t'.loop.nextLaunch {
        assert n in t'.tasks;
      } else {
        assert Pending(t, n) && AgreesAt(v, data, n);
        assert Request(n, t.chunks[n - 1]) in t.wire + Leftover(t);
      }
    }
  }

  lemma TwinBegin(s: Session, t: Session, data: Bytes)
    requires Twin(s, t) && Enabled(s, Begin(data))
    ensures Enabled(t, Begin(data)) && Twin(Apply(s, Begin(data)), Apply(t, Begin(data)))
  {
    TwinLeftover(s, t);
  }

  lemma TwinStep(s: Session, t: Session, a: Action)
    requires Twin(s, t) && Enabled(s, a) && !a.Begin?
    ensures Enabled(t, a) && Shown(s, a) == Shown(t, a)
    ensures Twin(Apply(s, a), Apply(t, a))
  {
  }

  lemma EagerStep(t: Session, v: View, a: Action)
    requires Inv(t) && Sound(t, v) && Eager(t, v.launched) && Enabled(t, a) && !a.Begin? && !a.Consume?
    requires a.Abort? ==> t.tasks[a.n].stage != Ready
    ensures Eager(Apply(t, a), v.launched)
  {
    var t' := Apply(t, a);
    forall n | UpSeq(t') < n <= v.launched
      ensures Pending(t', n)
    {
      assert Pending(t, n);
    }
  }

  lemma EagerConsume(t: Session, v: View, n: int)
    requires Inv(t) && Sound(t, v) && Eager(t, v.launched) && Enabled(t, Consume(n))
    ensures Eager(Apply(t, Consume(n)), See(v, Got(n, t.tasks[n].stage.reply)).launched)
  {
    var t', v' := Apply(t, Consume(n)), See(v, Got(n, t.tasks[n].stage.reply));
    ConsumeLoop(t, n);
    forall m | UpSeq(t') < m <= v'.launched
      ensures Pending(t', m)
    {
      if m <= v.launched {
        assert Pending(t, m);
      }
    }
  }

  lemma PossibleOne(s: Session, a: Action)
    requires Enabled(s, a)
    ensures Possible(s, [a]) && Run(s, [a]) == Apply(s, a) && History(s, [a]) == Shown(s, a)
  {
    assert [a][1..] == [];
    assert Shown(s, a) + [] == Shown(s, a);
  }

  lemma PossibleTwo(s: Session, a: Action, b: Action)
    requires Enabled(s, a) && Enabled(Apply(s, a), b)
    ensures Possible(s, [a, b]) && Run(s, [a, b]) == Apply(Apply(s, a), b)
    ensures History(s, [a, b]) == Shown(s, a) + Shown(Apply(s, a), b)
  {
    PossibleOne(Apply(s, a), b);
    assert [a, b][1..] == [b];
  }

  /** The twin of a goroutine that gives up before it has sent anything sends its request first. */
  lemma EagerAbort(s: Session, t: Session, v: View, n: int) returns (actions: seq<Action>)
    requires Inv(t) && Twin(s, t) && Sound(t, v) && Eager(t, v.launched)
    requires Enabled(s, Abort(n)) && s.tasks[n].stage == Ready
    ensures Possible(t, actions) && Twin(Apply(s, Abort(n)), Run(t, actions)) && History(t, actions) == []
    ensures Eager(Run(t, actions), v.launched)
  {
    assert Enabled(t, StartRound(n));
    var t1 := Apply(t, StartRound(n));
    StartRoundInv(t, n);
    EagerStep(t, v, StartRound(n));
    SoundOther(t, v, StartRound(n));
    assert Enabled(t1, Abort(n));
    EagerStep(t1, v, Abort(n));
    PossibleTwo(t, StartRound(n), Abort(n));
    actions := [StartRound(n), Abort(n)];
    TwinAbort(s, t, t1, n);
  }

  lemma TwinAbort(s: Session, t: Session, t1: Session, n: int)
    requires Twin(s, t) && Enabled(s, Abort(n)) && Enabled(t, StartRound(n)) && t1 == Apply(t, StartRound(n))
    ensures Enabled(t1, Abort(n)) && Twin(Apply(s, Abort(n)), Apply(t1, Abort(n)))
  {
  }

  /** What the twin does for one action of the original. */
  lemma EagerAction(s: Session, t: Session, v: View, a: Action) returns (actions: seq<Action>)
    requires Inv(t) && Twin(s, t) && Sound(t, v) && Eager(t, v.launched)
    requires Enabled(s, a) && Prudent(v, Shown(s, a))
    ensures Possible(t, actions) && Twin(Apply(s, a), Run(t, actions)) && History(t, actions) == Shown(s, a)
    ensures Eager(Run(t, actions), SeeAll(v, Shown(s, a)).launched)
  {
    match a
    case Begin(data) =>
      SeeOne(v, Begun(data));
      TwinBegin(s, t, data);
      EagerBegin(t, v, data);
      PossibleOne(t, a);
      actions := [a];
    case Consume(n) =>
      SeeOne(v, Got(n, s.tasks[n].stage.reply));
      TwinStep(s, t, a);
      EagerConsume(t, v, n);
      PossibleOne(t, a);
      actions := [a];
    case Abort(n) =>
      if s.tasks[n].stage == Ready {
        actions := EagerAbort(s, t, v, n);
      } else {
        actions := EagerSame(s, t, v, a);
      }
    case _ => actions := EagerSame(s, t, v, a);
  }

  lemma EagerSame(s: Session, t: Session, v: View, a: Action) returns (actions: seq<Action>)
    requires Inv(t) && Twin(s, t) && Sound(t, v) && Eager(t, v.launched)
    requires Enabled(s, a) && !a.Begin? && !a.Consume? && (a.Abort? ==> s.tasks[a.n].stage != Ready)
    ensures Possible(t, actions) && Twin(Apply(s, a), Run(t, actions)) && History(t, actions) == []
    ensures Eager(Run(t, actions), v.launched)
  {
    TwinStep(s, t, a);
    EagerStep(t, v, a);
    PossibleOne(t, a);
    actions := [a];
  }

  lemma {:induction false} HistoryAppend(s: Session, a: seq<Action>, b: seq<Action>)
    requires Possible(s, a) && Possible(Run(s, a), b) && Possible(s, a + b)
    ensures History(s, a + b) == History(s, a) + History(Run(s, a), b)
    decreases |a|
  {
    if a == [] {
      assert a + b == b;
    } else {
      assert (a + b)[1..] == a[1..] + b;
      HistoryAppend(Apply(s, a[0]), a[1..], b);
      ConcatAssoc(Shown(s, a[0]), History(Apply(s, a[0]), a[1..]), History(Run(Apply(s, a[0]), a[1..]), b));
    }
  }

  lemma RunTwoParts(s: Session, a: seq<Action>, b: seq<Action>)
    requires Possible(s, a) && Possible(Run(s, a), b)
    ensures Possible(s, a + b) && Run(s, a + b) == Run(Run(s, a), b)
    ensures History(s, a + b) == History(s, a) + History(Run(s, a), b)
  {
    RunAppend(s, a, b);
    HistoryAppend(s, a, b);
  }

  /** For every prudent run there is one with the same history in which every launched number above the
      commit point has been sent or is about to be. */
  lemma {:induction false} EagerRun(s: Session, t: Session, v: View, actions: seq<Action>) returns (eager: seq<Action>)
    requires Inv(t) && Twin(s, t) && Sound(t, v) && Eager(t, v.launched)
    requires Possible(s, actions) && Prudent(v, History(s, actions))
    ensures Possible(t, eager) && History(t, eager) == History(s, actions)
    ensures Eager(Run(t, eager), SeeAll(v, History(s, actions)).launched)
    decreases |actions|
  {
    if actions == [] {
      eager := [];
    } else {
      var a, rest := actions[0], actions[1..];
      SeeAppend(v, Shown(s, a), History(Apply(s, a), rest));
      var first := EagerAction(s, t, v, a);
      SoundRun(t, v, first);
      var later := EagerRun(Apply(s, a), Run(t, first), SeeAll(v, Shown(s, a)), rest);
      RunTwoParts(t, first, later);
      eager := first + later;
    }
  }

  // ---------------------------------------------------------------------------
  // The condition
  // ---------------------------------------------------------------------------

  /** A run the client cannot tell from its own, after which the new Write goes wrong. */
  ghost predicate GoesWrong(start: Session, h: seq<Seen>, data: Bytes, actions: seq<Action>, later: seq<Action>) {
    && Possible(start, actions) && History(start, actions) == h && Enabled(Run(start, actions), Begin(data))
    && Possible(Apply(Run(start, actions), Begin(data)), later) && NoBegin(later)
    && !Held(Run(Apply(Run(start, actions), Begin(data)), later))
  }

  /** The new Write is safe in every environment that the client cannot rule out. */
  ghost predicate SafeEverywhere(start: Session, h: seq<Seen>, data: Bytes) {
    forall mine, later :: !GoesWrong(start, h, data, mine, later)
  }

  lemma SoundWriteIsHarmless(s: Session, v: View, data: Bytes, later: seq<Action>)
    requires Inv(s) && Sound(s, v) && Enabled(s, Begin(data)) && Agreeing(v, data)
    requires Possible(Apply(s, Begin(data)), later) && NoBegin(later)
    ensures Held(Run(Apply(s, Begin(data)), later))
  {
    SoundBegin(s, v, data);
    BeginClean(s, data);
    NoBeginIsCareful(Apply(s, Begin(data)), later);
    RunClean(Apply(s, Begin(data)), later);
  }

  /** The old request for n is stored, or can still arrive first. */
  lemma OldBodyArrives(t: Session, v: View, data: Bytes, n: int) returns (later: seq<Action>)
    requires Inv(t) && Sound(t, v) && Pending(t, n) && Enabled(t, Begin(data))
    requires UpSeq(t) < n && !AgreesAt(v, data, n)
    ensures Possible(Apply(t, Begin(data)), later) && NoBegin(later)
    ensures !Held(Run(Apply(t, Begin(data)), later))
  {
    var t', sent := Apply(t, Begin(data)), Request(n, t.chunks[n - 1]);
    assert sent in t.wire + Leftover(t);
    assert !Agrees(t'.chunks, n, sent.body);
    if n in t.store {
      later := [];
      assert t'.store[n] == sent.body;
    } else {
      later := [Deliver(sent)];
      PossibleOne(t', Deliver(sent));
      assert Run(t', later).store[n] == sent.body;
    }
  }

  lemma BlankSound(start: Session, blank: View)
    requires start == Init && blank == Blank
    ensures Inv(start) && Sound(start, blank) && Eager(start, blank.launched) && Twin(start, start) && CutOk(start)
  {
    InitOk();
  }

  /** After any session whose Writes were all begun prudently, beginning another one is safe in every
      environment the client cannot rule out exactly when it sends, under every launched number that is
      not committed, the chunk sent before. */
  lemma {:induction false} ClientResumeIff(start: Session, blank: View, actions: seq<Action>, h: seq<Seen>,
                                           data: Bytes, v: View)
    requires start == Init && blank == Blank
    requires Possible(start, actions) && h == History(start, actions) && Prudent(blank, h)
    requires Enabled(Run(start, actions), Begin(data))
    requires v == SeeAll(blank, h)
    ensures Agreeing(v, data) <==> SafeEverywhere(start, h, data)
  {
    BlankSound(start, blank);
    ResumeFrom(start, blank, actions, h, data, v);
  }

  lemma {:induction false} ResumeFrom(start: Session, v0: View, actions: seq<Action>, h: seq<Seen>,
                                      data: Bytes, v: View)
    requires Inv(start) && Sound(start, v0) && Eager(start, v0.launched) && Twin(start, start)
    requires Possible(start, actions) && h == History(start, actions) && Prudent(v0, h) && v == SeeAll(v0, h)
    requires Enabled(Run(start, actions), Begin(data))
    ensures Agreeing(v, data) <==> SafeEverywhere(start, h, data)
  {
    if Agreeing(v, data) {
      forall mine, later
        ensures !GoesWrong(start, h, data, mine, later)
      {
        HarmlessRun(start, v0, h, data, v, mine, later);
      }
    } else {
      var n :| ViewUp(v) < n <= v.launched && !AgreesAt(v, data, n);
      var mine, later := HarmfulRun(start, v0, actions, h, data, v, n);
    }
  }

  lemma {:induction false} HarmlessRun(start: Session, v0: View, h: seq<Seen>, data: Bytes, v: View,
                                       mine: seq<Action>, later: seq<Action>)
    requires Inv(start) && Sound(start, v0) && Prudent(v0, h) && v == SeeAll(v0, h) && Agreeing(v, data)
    ensures !GoesWrong(start, h, data, mine, later)
  {
    if GoesWrong(start, h, data, mine, later) {
      SoundRun(start, v0, mine);
      SoundWriteIsHarmless(Run(start, mine), v, data, later);
    }
  }

  lemma {:induction false} HarmfulRun(start: Session, v0: View, actions: seq<Action>, h: seq<Seen>,
                                      data: Bytes, v: View, n: int)
    returns (mine: seq<Action>, later: seq<Action>)
    requires Inv(start) && Sound(start, v0) && Eager(start, v0.launched) && Twin(start, start)
    requires Possible(start, actions) && h == History(start, actions) && Prudent(v0, h) && v == SeeAll(v0, h)
    requires Enabled(Run(start, actions), Begin(data))
    requires ViewUp(v) < n <= v.launched && !AgreesAt(v, data, n)
    ensures GoesWrong(start, h, data, mine, later)
  {
    mine := EagerRun(start, start, v0, actions);
    SoundRun(start, v0, actions);
    SoundRun(start, v0, mine);
    EnabledByView(Run(start, actions), Run(start, mine), v, data);
    later := PendingGoesWrong(Run(start, mine), v, data, n);
  }

  lemma PendingGoesWrong(t: Session, v: View, data: Bytes, n: int) returns (later: seq<Action>)
    requires Inv(t) && Sound(t, v) && Eager(t, v.launched) && Enabled(t, Begin(data))
    requires ViewUp(v) < n <= v.launched && !AgreesAt(v, data, n)
    ensures Possible(Apply(t, Begin(data)), later) && NoBegin(later)
    ensures !Held(Run(Apply(t, Begin(data)), later))
  {
    assert Pending(t, n);
    later := OldBodyArrives(t, v, data, n);
  }

  lemma EnabledByView(s: Session, t: Session, v: View, data: Bytes)
    requires Sound(s, v) && Sound(t, v) && Enabled(s, Begin(data))
    ensures Enabled(t, Begin(data))
  {
  }

  /** From session s on, where the client has seen h, every Write was safe when it began. */
  ghost predicate EverySafe(start: Session, h: seq<Seen>, s: Session, actions: seq<Action>)
    requires Possible(s, actions)
    decreases |actions|
  {
    actions == [] ||
    (&& (actions[0].Begin? ==> SafeEverywhere(start, h, actions[0].data))
     && EverySafe(start, h + Shown(s, actions[0]), Apply(s, actions[0]), actions[1..]))
  }

  /** Over all runs, whatever their Writes: each Write was safe when it began exactly when each met the
      condition. */
  lemma {:induction false} PrudentIff(start: Session, blank: View, actions: seq<Action>)
    requires start == Init && blank == Blank && Possible(start, actions)
    ensures Prudent(blank, History(start, actions)) <==> EverySafe(start, [], start, actions)
  {
    PrudentFrom(start, blank, [], [], blank, start, actions);
  }

  lemma {:induction false} PrudentFrom(start: Session, blank: View, past: seq<Action>, h: seq<Seen>,
                                       v: View, s: Session, actions: seq<Action>)
    requires start == Init && blank == Blank
    requires Possible(start, past) && h == History(start, past) && s == Run(start, past)
    requires Prudent(blank, h) && v == SeeAll(blank, h) && Possible(s, actions)
    ensures Prudent(v, History(s, actions)) <==> EverySafe(start, h, s, actions)
    decreases |actions|
  {
    if actions != [] {
      var a, rest := actions[0], actions[1..];
      PossibleOne(s, a);
      RunTwoParts(start, past, [a]);
      SeeAppend(v, Shown(s, a), History(Apply(s, a), rest));
      SeeAppend(blank, h, Shown(s, a));
      if a.Begin? {
        SeeOne(v, Begun(a.data));
        ClientResumeIff(start, blank, past, h, a.data, v);
      } else if a.Consume? {
        SeeOne(v, Got(a.n, s.tasks[a.n].stage.reply));
      }
      if Prudent(v, Shown(s, a)) {
        PrudentFrom(start, blank, past + [a], h + Shown(s, a), SeeAll(v, Shown(s, a)), Apply(s, a), rest);
      }
    }
  }

  // ---------------------------------------------------------------------------
  // Two ways to be prudent
  // ---------------------------------------------------------------------------

  /** After a successful Write everything launched is committed, so any data may follow. */
  lemma IdleAgrees(s: Session, v: View, data: Bytes)
    requires Sound(s, v) && PhaseOf(s) == Idle
    ensures Agreeing(v, data)
  {
  }

  /** A session that stops at the first failed Write is prudent, as the only caller is: from its start, and
      from every sound state. */
  lemma {:induction false} StopsIsPrudent(s: Session, v: View, actions: seq<Action>)
    requires (s == Init && v == Blank) || (Inv(s) && Sound(s, v))
    requires Possible(s, actions) && StopsAtFailure(s, actions)
    ensures Prudent(v, History(s, actions))
    decreases |actions|
  {
    if s == Init && v == Blank {
      BlankSound(s, v);
    }
    if actions != [] {
      var a, rest := actions[0], actions[1..];
      match a {
        case Begin(data) =>
          IdleAgrees(s, v, data);
          SeeOne(v, Begun(data));
        case Consume(n) => SeeOne(v, Got(n, s.tasks[n].stage.reply));
        case _ =>
      }
      SoundStep(s, v, a);
      StepInv(s, a);
      StopsIsPrudent(Apply(s, a), SeeAll(v, Shown(s, a)), rest);
      SeeAppend(v, Shown(s, a), History(Apply(s, a), rest));
    }
  }

  /** Retrying exactly the unwritten rest of a failed Write is prudent, after any prudent session. */
  lemma {:induction false} RetryIsPrudent(start: Session, blank: View, actions: seq<Action>, end: Session, rest: Bytes)
    requires start == Init && blank == Blank && Possible(start, actions) && end == Run(start, actions)
    requires Prudent(blank, History(start, actions))
    requires UpSeq(end) <= |end.chunks| ==> rest == Flatten(end.chunks[UpSeq(end)..])
    ensures Agreeing(SeeAll(blank, History(start, actions)), rest)
  {
    BlankSound(start, blank);
    SoundRun(start, blank, actions);
    RunCut(start, actions);
    CommittedIsStored(end);
    RestCut(end, rest);
    RestAgrees(end, SeeAll(blank, History(start, actions)), rest);
  }

  lemma RestAgrees(s: Session, v: View, rest: Bytes)
    requires Sound(s, v) && UpSeq(s) <= |s.chunks| && s.chunks[..UpSeq(s)] + Chop(rest) == s.chunks
    ensures Agreeing(v, rest)
  {
    forall n | ViewUp(v) < n <= v.launched
      ensures AgreesAt(v, rest, n)
    {
      assert (s.chunks[..UpSeq(s)] + Chop(rest))[n - 1] == Chop(rest)[n - UpSeq(s) - 1];
    }
  }
}
