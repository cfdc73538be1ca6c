/**
 The loop of one hedged round (`requestPipelinedUploadRound`,
 native/tgwsproxy/mtproto_chunk_relay_pipeline.go), proved to take only the steps of the round in
 UploadSession.dfy.
 */
module UploadRound {
  import opened ByteStreams
  import opened RelayStatus
  import opened UploadSession

  /** An event of the round, and the tracker's head when it was handled. */
  datatype Seen = Seen(event: Event, head: int)

  /** What the `select` yields: the answer of a leg, the timer, or a wake-up by the tracker. `headBefore`
      and `headAfter` are the tracker's head when the loop looks before it waits, and when it handles an answer. */
  datatype Selected = Answered(leg: Leg, reply: Reply) | TimerFired | HeadChanged

  datatype Input = Input(headBefore: int, selected: Selected, headAfter: int)

  function Play(n: int, trace: seq<Seen>): RoundResult {
    if trace == [] then Live(NewRound)
    else
      match Play(n, trace[..|trace| - 1])
      case Over(reply) => Over(reply)
      case Live(r) => TakeEvent(n, r, trace[|trace| - 1].event, trace[|trace| - 1].head)
  }

  /** Every event is one the round could take when it took it. */
  ghost predicate Playable(n: int, trace: seq<Seen>) {
    trace == [] ||
    (Playable(n, trace[..|trace| - 1]) && Play(n, trace[..|trace| - 1]).Live?
     && CanTake(Play(n, trace[..|trace| - 1]).round, trace[|trace| - 1].event))
  }

  lemma PlaySnoc(n: int, trace: seq<Seen>, r: Round, last: Seen)
    requires Playable(n, trace) && Play(n, trace) == Live(r) && CanTake(r, last.event)
    ensures Playable(n, trace + [last]) && Play(n, trace + [last]) == TakeEvent(n, r, last.event, last.head)
  {
    assert (trace + [last])[..|trace|] == trace;
  }

  /** What a round that follows its steps may do, however its events come: it has launched a second leg
      only as the head; it ends in a success, in an error that must not be retried, or in a retryable one
      after the answers of all the legs it launched. */
  lemma {:induction false} RoundOutcome(n: int, trace: seq<Seen>)
    requires Playable(n, trace)
    ensures match Play(n, trace)
            case Live(r) => RoundOk(r) && (AtHead(r) ==> SawHead(n, trace))
            case Over(reply) =>
              && trace != [] && trace[|trace| - 1].event.LegAnswered?
              && reply == Checked(Up, trace[|trace| - 1].event.reply)
              && (reply.err == None ==> reply.status == 204)
              && (Retryable(reply.err) ==> Answers(trace) == Launches(trace))
    ensures Play(n, trace).Live? ==> Answers(trace) == Play(n, trace).round.answered
    ensures Play(n, trace).Live? ==> Launches(trace) == if Play(n, trace).round.hedged then 2 else 1
    ensures Answers(trace) <= Launches(trace) <= 2
  {
    if trace != [] {
      RoundOutcome(n, trace[..|trace| - 1]);
    }
  }

  function Answers(trace: seq<Seen>): nat {
    if trace == [] then 0 else Answers(trace[..|trace| - 1]) + if trace[|trace| - 1].event.LegAnswered? then 1 else 0
  }

  function Launches(trace: seq<Seen>): nat {
    if trace == [] then 1 else Launches(trace[..|trace| - 1]) + if trace[|trace| - 1].event.LaunchHedge? then 1 else 0
  }

  /** When an answer ends the round: at once if it must not be retried; otherwise when it is the last of the
      legs launched, and no second leg can be launched for it, because there is one or the number is not
      the head. In that last case the round launches it next. */
  lemma AnswerDecides(n: int, trace: seq<Seen>, last: Seen)
    requires Playable(n, trace + [last]) && last.event.LegAnswered?
    ensures var reply := Checked(Up, last.event.reply);
            var lastLeg := Answers(trace + [last]) == Launches(trace + [last]);
            match Play(n, trace + [last])
            case Over(final) =>
              final == reply && (!Retryable(reply.err) || (lastLeg && (Launches(trace) == 2 || last.head != n)))
            case Live(r) =>
              && Retryable(reply.err) && !(lastLeg && (Launches(trace) == 2 || last.head != n))
              && r.wantHedge == lastLeg
  {
    assert (trace + [last])[..|trace|] == trace;
    RoundOutcome(n, trace);
  }

  predicate SawHead(n: int, trace: seq<Seen>) {
    trace != [] && (trace[|trace| - 1].head == n || SawHead(n, trace[..|trace| - 1]))
  }

  /** The steps of a serial round, taken as those of a round whose number is the head and whose delay, once
      over, is noticed at once. */
  function AsHead(n: int, picks: seq<Pick>): seq<Seen> {
    if picks == [] then []
    else
      var before := AsHead(n, picks[..|picks| - 1]);
      match Play(n, before)
      case Over(_) => before
      case Live(r) => before + HeadSteps(n, r, picks[|picks| - 1])
  }

  function HeadSteps(n: int, r: Round, pick: Pick): seq<Seen> {
    match pick
    case ContextDone => []
    case DelayOver =>
      if r.hedged then []
      else [Seen(DelayElapsed, n), Seen(LookAtHead, n), Seen(LaunchHedge, n)]
    case LegReplied(leg, reply) =>
      if !(if leg == Primary then r.primaryPending else r.hedgePending) then []
      else if r.hedged || !Retryable(Checked(Up, reply).err) then [Seen(LegAnswered(leg, reply), n)]
      else [Seen(LegAnswered(leg, reply), n), Seen(LaunchHedge, n)]
  }

  ghost predicate Reaches(n: int, trace: seq<Seen>, result: RoundResult) {
    Playable(n, trace) && Play(n, trace) == result
  }

  lemma DelayAtHead(n: int, trace: seq<Seen>, r: Round)
    requires Reaches(n, trace, Live(r)) && !r.wantHedge && !r.hedged && !r.delayElapsed
    ensures Reaches(n, trace + HeadSteps(n, r, DelayOver),
                    Live(r.(delayElapsed := true, hedged := true, hedgePending := true)))
  {
    var first, second, third := Seen(DelayElapsed, n), Seen(LookAtHead, n), Seen(LaunchHedge, n);
    PlaySnoc(n, trace, r, first);
    PlaySnoc(n, trace + [first], r.(delayElapsed := true), second);
    PlaySnoc(n, trace + [first] + [second], r.(delayElapsed := true, wantHedge := true), third);
    assert trace + [first] + [second] + [third] == trace + [first, second, third];
  }

  lemma AnswerAtHead(n: int, trace: seq<Seen>, r: Round, leg: Leg, reply: Reply)
    requires Reaches(n, trace, Live(r)) && RoundOk(r) && !r.wantHedge
    requires if leg == Primary then r.primaryPending else r.hedgePending
    ensures var trace' := trace + HeadSteps(n, r, LegReplied(leg, reply));
            var s := OnPick(Waiting(r.hedged, r.primaryPending, r.hedgePending, r.answered), LegReplied(leg, reply));
            match s
            case Done(result) => Reaches(n, trace', Over(result))
            case Waiting(h, p, g, a) => Reaches(n, trace', Live(Round(p, g, h, false, r.delayElapsed, a)))
  {
    var first, second := Seen(LegAnswered(leg, reply), n), Seen(LaunchHedge, n);
    PlaySnoc(n, trace, r, first);
    if !r.hedged && Retryable(Checked(Up, reply).err) {
      PlaySnoc(n, trace + [first], Play(n, trace + [first]).round, second);
      assert trace + [first] + [second] == trace + [first, second];
    }
  }

  /** The serial path hedges as the pipelined one does for the oldest number: until its context ends, a
      serial round is a run of the round machine whose number is the head throughout. So what RoundOutcome
      says of the one holds of the other. */
  lemma {:induction false} SerialIsHeadRound(n: int, picks: seq<Pick>)
    requires ContextDone !in picks
    ensures Playable(n, AsHead(n, picks))
    ensures match Play(n, AsHead(n, picks))
            case Over(reply) => Hedging(picks) == Done(reply)
            case Live(r) =>
              && !r.wantHedge && (r.delayElapsed ==> r.hedged)
              && Hedging(picks) == Waiting(r.hedged, r.primaryPending, r.hedgePending, r.answered)
  {
    if picks != [] {
      var init, pick := picks[..|picks| - 1], picks[|picks| - 1];
      SerialIsHeadRound(n, init);
      var trace := AsHead(n, init);
      if Play(n, trace).Live? {
        var r := Play(n, trace).round;
        RoundOutcome(n, trace);
        if pick == DelayOver && !r.hedged {
          DelayAtHead(n, trace, r);
        } else if pick.LegReplied? && (if pick.leg == Primary then r.primaryPending else r.hedgePending) {
          AnswerAtHead(n, trace, r, pick.leg, pick.reply);
        } else {
          assert trace + [] == trace;
        }
      }
    }
  }

  /** The steps one turn of the loop takes: a look at the head once the delay is over, the launch if it is
      the head, and what was selected. The answer of a leg that is not running, or a second firing of the
      timer, cannot be selected; it is passed over. */
  function Turn(n: int, r: Round, input: Input): seq<Seen> {
    Look(n, r, input) + Select(n, Looked(n, r, input), input)
  }

  function Look(n: int, r: Round, input: Input): seq<Seen> {
    if !r.delayElapsed || r.hedged then []
    else if n == input.headBefore then [Seen(LookAtHead, input.headBefore)] + [Seen(LaunchHedge, input.headBefore)]
    else [Seen(LookAtHead, input.headBefore)]
  }

  function Looked(n: int, r: Round, input: Input): Round {
    if r.delayElapsed && !r.hedged && n == input.headBefore then r.(hedged := true, hedgePending := true) else r
  }

  function Select(n: int, r: Round, input: Input): seq<Seen> {
    match input.selected
    case HeadChanged => []
    case TimerFired => if r.delayElapsed then [] else [Seen(DelayElapsed, input.headAfter)]
    case Answered(leg, reply) =>
      if !(if leg == Primary then r.primaryPending else r.hedgePending) then []
      else
        [Seen(LegAnswered(leg, reply), input.headAfter)]
        + match TakeEvent(n, r, LegAnswered(leg, reply), input.headAfter)
          case Live(r') => if r'.wantHedge then [Seen(LaunchHedge, input.headAfter)] else []
          case Over(_) => []
  }

  /** The steps of a round over all its turns, up to the one that ends it. */
  function Steps(n: int, inputs: seq<Input>): seq<Seen> {
    if inputs == [] then []
    else
      var before := Steps(n, inputs[..|inputs| - 1]);
      match Play(n, before)
      case Over(_) => before
      case Live(r) => before + Turn(n, r, inputs[|inputs| - 1])
  }

  lemma StepsSnoc(n: int, inputs: seq<Input>, i: nat, r: Round)
    requires i < |inputs| && Play(n, Steps(n, inputs[..i])) == Live(r)
    ensures Steps(n, inputs[..i + 1]) == Steps(n, inputs[..i]) + Turn(n, r, inputs[i])
  {
    assert inputs[..i + 1][..i] == inputs[..i];
  }

  lemma PlayOne(n: int, trace: seq<Seen>, r: Round, last: Seen)
    requires Play(n, trace) == Live(r)
    ensures Play(n, trace + [last]) == TakeEvent(n, r, last.event, last.head)
  {
    assert (trace + [last])[..|trace|] == trace;
  }

  lemma LookPlays(n: int, trace: seq<Seen>, r: Round, input: Input)
    requires Play(n, trace) == Live(r) && !r.wantHedge
    ensures Play(n, trace + Look(n, r, input)) == Live(Looked(n, r, input))
  {
    var looked := Seen(LookAtHead, input.headBefore);
    if !r.delayElapsed || r.hedged {
      assert trace + [] == trace;
    } else {
      PlayOne(n, trace, r, looked);
      if n == input.headBefore {
        PlayOne(n, trace + [looked], r.(wantHedge := true), Seen(LaunchHedge, input.headBefore));
        ConcatAssoc(trace, [looked], [Seen(LaunchHedge, input.headBefore)]);
      }
    }
  }

  lemma SelectPlays(n: int, trace: seq<Seen>, r: Round, input: Input)
    requires Play(n, trace) == Live(r) && !r.wantHedge
    ensures match Play(n, trace + Select(n, r, input))
            case Over(_) => input.selected.Answered?
            case Live(r') =>
              && !r'.wantHedge && (r.hedged ==> r'.hedged)
              && r'.delayElapsed == (r.delayElapsed || input.selected == TimerFired)
  {
    match input.selected
    case HeadChanged => assert trace + [] == trace;
    case TimerFired =>
      if r.delayElapsed {
        assert trace + [] == trace;
      } else {
        PlayOne(n, trace, r, Seen(DelayElapsed, input.headAfter));
      }
    case Answered(leg, reply) =>
      if if leg == Primary then r.primaryPending else r.hedgePending {
        var answered := Seen(LegAnswered(leg, reply), input.headAfter);
        PlayOne(n, trace, r, answered);
        match Play(n, trace + [answered])
        case Live(r') =>
          if r'.wantHedge {
            PlayOne(n, trace + [answered], r', Seen(LaunchHedge, input.headAfter));
            ConcatAssoc(trace, [answered], [Seen(LaunchHedge, input.headAfter)]);
          } else {
            assert [answered] + [] == [answered];
          }
        case Over(_) => assert [answered] + [] == [answered];
      } else {
        assert trace + [] == trace;
      }
  }

  lemma TurnPlays(n: int, trace: seq<Seen>, r: Round, input: Input)
    requires Play(n, trace) == Live(r) && !r.wantHedge && Play(n, trace + Turn(n, r, input)).Live?
    ensures var r' := Play(n, trace + Turn(n, r, input)).round;
            && !r'.wantHedge
            && r'.delayElapsed == (r.delayElapsed || input.selected == TimerFired)
            && (r.hedged || (r.delayElapsed && n == input.headBefore) ==> r'.hedged)
  {
    LookPlays(n, trace, r, input);
    SelectPlays(n, trace + Look(n, r, input), Looked(n, r, input), input);
    ConcatAssoc(trace, Look(n, r, input), Select(n, Looked(n, r, input), input));
  }

  /** The delay is over exactly when the timer has fired, and a number that is the head when the loop next
      looks then has its second leg. */
  lemma {:induction false} HedgeWhenDue(n: int, inputs: seq<Input>)
    requires Play(n, Steps(n, inputs)).Live?
    ensures var r := Play(n, Steps(n, inputs)).round;
            && !r.wantHedge
            && (r.delayElapsed <==> Fired(inputs))
            && (Due(n, inputs) ==> r.hedged)
  {
    if inputs != [] {
      var before, last := inputs[..|inputs| - 1], inputs[|inputs| - 1];
      HedgeWhenDue(n, before);
      var trace := Steps(n, before);
      TurnPlays(n, trace, Play(n, trace).round, last);
    }
  }

  predicate Fired(inputs: seq<Input>) {
    inputs != [] && (inputs[|inputs| - 1].selected == TimerFired || Fired(inputs[..|inputs| - 1]))
  }

  /** The loop has looked, after the timer, while its number was the head. */
  predicate Due(n: int, inputs: seq<Input>) {
    inputs != [] && (Due(n, inputs[..|inputs| - 1])
                     || (Fired(inputs[..|inputs| - 1]) && inputs[|inputs| - 1].headBefore == n))
  }

  lemma {:induction false} StepsAfterOver(n: int, inputs: seq<Input>, i: nat)
    requires i <= |inputs| && Play(n, Steps(n, inputs[..i])).Over?
    ensures Steps(n, inputs) == Steps(n, inputs[..i])
    decreases |inputs| - i
  {
    if i == |inputs| {
      assert inputs[..i] == inputs;
    } else {
      assert inputs[..i + 1][..i] == inputs[..i];
      StepsAfterOver(n, inputs, i + 1);
    }
  }

  /** The loop: its steps are the specified ones, all of them are steps of the round machine, and its result
      is what that machine ends with. `reply` is None when the inputs end first (the round is cancelled). */
  method RequestRound(n: int, inputs: seq<Input>)
    returns (reply: Option<Reply>, hedgeLaunched: bool, completed: nat, trace: seq<Seen>)
    ensures trace == Steps(n, inputs) && Playable(n, trace)
    ensures match Play(n, trace)
            case Live(r) => reply == None && completed == r.answered && hedgeLaunched == r.hedged
            case Over(last) => reply == Some(last)
  {
    var delayElapsed, primary, hedge := false, true, false;
    reply, hedgeLaunched, completed, trace := None, false, 0, [];
    assert inputs[..0] == [];
    for i := 0 to |inputs|
      invariant trace == Steps(n, inputs[..i]) && Playable(n, trace) && reply == None
      invariant Play(n, trace) == Live(Round(primary, hedge, hedgeLaunched, false, delayElapsed, completed))
      invariant hedge ==> hedgeLaunched
    {
      ghost var r := Round(primary, hedge, hedgeLaunched, false, delayElapsed, completed);
      StepsSnoc(n, inputs, i, r);
      ghost var before := trace;
      hedgeLaunched, hedge, trace := LookAtTracker(n, inputs[i], r, hedgeLaunched, hedge, delayElapsed, trace);
      reply, hedgeLaunched, hedge, primary, delayElapsed, completed, trace :=
        Handle(n, inputs[i], Looked(n, r, inputs[i]), hedgeLaunched, hedge, primary, delayElapsed, completed, trace);
      ConcatAssoc(before, Look(n, r, inputs[i]), Select(n, Looked(n, r, inputs[i]), inputs[i]));
      if reply.Some? {
        StepsAfterOver(n, inputs, i + 1);
        return;
      }
    }
    assert inputs[..|inputs|] == inputs;
  }

  /** Before it waits the loop looks whether its number has become the oldest one. */
  method LookAtTracker(n: int, input: Input, ghost r: Round, hedgeLaunched0: bool, hedge0: bool,
                       delayElapsed: bool, trace0: seq<Seen>)
    returns (hedgeLaunched: bool, hedge: bool, trace: seq<Seen>)
    requires Playable(n, trace0) && Play(n, trace0) == Live(r) && !r.wantHedge
    requires r.hedged == hedgeLaunched0 && r.hedgePending == hedge0 && r.delayElapsed == delayElapsed
    ensures trace == trace0 + Look(n, r, input) && Playable(n, trace) && Play(n, trace) == Live(Looked(n, r, input))
    ensures hedgeLaunched == Looked(n, r, input).hedged && hedge == Looked(n, r, input).hedgePending
  {
    hedgeLaunched, hedge, trace := hedgeLaunched0, hedge0, trace0;
    if delayElapsed && !hedgeLaunched {
      trace := Took(n, trace, Seen(LookAtHead, input.headBefore));
      if n == input.headBefore {
        trace := Took(n, trace, Seen(LaunchHedge, input.headBefore));
        hedgeLaunched, hedge := true, true;
      }
    }
  }

  /** What the loop does with what it selected. */
  method Handle(n: int, input: Input, ghost r: Round, hedgeLaunched0: bool, hedge0: bool, primary0: bool,
                delayElapsed0: bool, completed0: nat, trace0: seq<Seen>)
    returns (reply: Option<Reply>, hedgeLaunched: bool, hedge: bool, primary: bool, delayElapsed: bool,
             completed: nat, trace: seq<Seen>)
    requires r == Round(primary0, hedge0, hedgeLaunched0, false, delayElapsed0, completed0)
    requires Playable(n, trace0) && Play(n, trace0) == Live(r) && (hedge0 ==> hedgeLaunched0)
    ensures trace == trace0 + Select(n, r, input) && Playable(n, trace)
    ensures match Play(n, trace)
            case Live(r') => reply == None && r' == Round(primary, hedge, hedgeLaunched, false, delayElapsed, completed)
            case Over(last) => reply == Some(last)
    ensures hedge ==> hedgeLaunched
  {
    reply, hedgeLaunched, hedge, primary, delayElapsed, completed, trace :=
      None, hedgeLaunched0, hedge0, primary0, delayElapsed0, completed0, trace0;
    match input.selected
    case HeadChanged =>
    case TimerFired =>
      if !delayElapsed {
        trace := Took(n, trace, Seen(DelayElapsed, input.headAfter));
        delayElapsed := true;
      }
    case Answered(leg, raw) =>
      if if leg == Primary then primary else hedge {
        if leg == Primary {
          primary := false;
        } else {
          hedge := false;
        }
        completed := completed + 1;
        reply, hedgeLaunched, hedge, trace :=
          HandleAnswer(n, input, leg, raw, r, Round(primary, hedge, hedgeLaunched, false, delayElapsed, completed),
                       hedgeLaunched, hedge, completed, trace);
      }
  }

  /** The answer of a leg that runs; `counted` is the round without that leg. */
  method HandleAnswer(n: int, input: Input, leg: Leg, raw: Reply, ghost r: Round, ghost counted: Round,
                      hedgeLaunched0: bool, hedge0: bool, completed: nat, trace0: seq<Seen>)
    returns (reply: Option<Reply>, hedgeLaunched: bool, hedge: bool, trace: seq<Seen>)
    requires input.selected == Answered(leg, raw) && Playable(n, trace0) && Play(n, trace0) == Live(r) && !r.wantHedge
    requires if leg == Primary then r.primaryPending else r.hedgePending
    requires counted == Round(r.primaryPending && leg != Primary, r.hedgePending && leg != Hedge, r.hedged, false,
                              r.delayElapsed, r.answered + 1)
    requires hedgeLaunched0 == r.hedged && hedge0 == counted.hedgePending && completed == counted.answered
    ensures trace == trace0 + Select(n, r, input) && Playable(n, trace)
    ensures match Play(n, trace)
            case Live(r') => reply == None && r' == counted.(hedged := hedgeLaunched, hedgePending := hedge)
            case Over(last) => reply == Some(last)
    ensures hedgeLaunched0 ==> hedgeLaunched && hedge == hedge0
    ensures !hedgeLaunched0 && !hedgeLaunched ==> hedge == hedge0
  {
    reply, hedgeLaunched, hedge := None, hedgeLaunched0, hedge0;
    trace := Took(n, trace0, Seen(LegAnswered(leg, raw), input.headAfter));
    var result := Checked(Up, raw);
    if result.err == None || result.err == Some(CircuitOpen) || !Retryable(result.err) {
      reply := Some(result);
    } else if !hedgeLaunched {
      if n == input.headAfter {
        trace := Took(n, trace, Seen(LaunchHedge, input.headAfter));
        hedgeLaunched, hedge := true, true;
      } else {
        reply := Some(result);
      }
    } else if completed >= 2 {
      reply := Some(result);
    }
  }

  method Took(n: int, trace: seq<Seen>, last: Seen) returns (longer: seq<Seen>)
    requires Playable(n, trace) && Play(n, trace).Live? && CanTake(Play(n, trace).round, last.event)
    ensures longer == trace + [last] && Playable(n, longer)
    ensures Play(n, longer) == TakeEvent(n, Play(n, trace).round, last.event, last.head)
  {
    PlaySnoc(n, trace, Play(n, trace).round, last);
    longer := trace + [last];
  }
}
