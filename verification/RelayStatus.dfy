/**
 Classification of chunk-relay replies (native/tgwsproxy/mtproto_chunk_relay_status.go)
 and the bounded retry loop that acts on it.
 */
module RelayStatus {
  import opened ByteStreams

  datatype RelayAction = Open | Up | Close | Down | Other

  /** An error value as the Go code tells errors apart: a tripped worker circuit, an
      unexpected HTTP status, or anything else (network, TLS, timeout, cancellation). */
  datatype RelayError = CircuitOpen | Http(status: int) | Transport

  datatype Decision = Success | Circuit | Terminal | Reject | Fail | Retry

  const MAX_RETRIES: nat := 3

  predicate ExpectedStatus(action: RelayAction, status: int) {
    match action
    case Open | Up | Close => status == 204
    case Down => status == 200 || status == 204
    case Other => 200 <= status < 300
  }

  function ResponseError(action: RelayAction, status: int): Option<RelayError> {
    if ExpectedStatus(action, status) then None else Some(Http(status))
  }

  predicate Retryable(err: Option<RelayError>) {
    match err
    case None => false
    case Some(CircuitOpen) => false
    case Some(Http(status)) => status >= 500
    case Some(Transport) => true
  }

  predicate TerminalSession(err: Option<RelayError>) {
    err == Some(Http(410))
  }

  function RetryDecision(err: Option<RelayError>, attempt: nat): Decision {
    if err == None then Success
    else if err == Some(CircuitOpen) then Circuit
    else if TerminalSession(err) then Terminal
    else if !Retryable(err) then Reject
    else if attempt >= MAX_RETRIES then Fail
    else Retry
  }

  /** Which replies are no error, by what was asked for. */
  lemma AcceptedIff(action: RelayAction, status: int)
    ensures ResponseError(action, status) == None <==>
              match action
              case Down => status in {200, 204}
              case Other => status / 100 == 2
              case _ => status == 204
    ensures ResponseError(action, status) in {None, Some(Http(status))}
  {
  }

  /** The table of decisions: each outcome of an attempt falls into exactly one row. */
  lemma DecisionIff(err: Option<RelayError>, attempt: nat)
    ensures RetryDecision(err, attempt) == Success <==> err == None
    ensures RetryDecision(err, attempt) == Circuit <==> err == Some(CircuitOpen)
    ensures RetryDecision(err, attempt) == Terminal <==> err == Some(Http(410))
    ensures RetryDecision(err, attempt) == Reject
            <==> err.Some? && err.value.Http? && err.value.status != 410 && err.value.status < 500
    ensures RetryDecision(err, attempt) == Retry <==> attempt < 3 && Temporary(err)
    ensures RetryDecision(err, attempt) == Fail <==> attempt >= 3 && Temporary(err)
  {
    if err.Some? && err.value.Http? {
      var status := err.value.status;
      assert TerminalSession(err) <==> status == 410;
    }
  }

  /** The Worker failed, or nothing that can be told apart came from it. */
  ghost predicate Temporary(err: Option<RelayError>) {
    err == Some(Transport) || exists status :: err == Some(Http(status)) && 500 <= status
  }

  /** A reply as `c.request` returns it; `ack` is the parsed acknowledgement header. */
  datatype Reply = Reply(status: int, ack: Option<int>, err: Option<RelayError>)

  /** The status check every caller of `c.request` adds to a reply without an error. */
  function Checked(action: RelayAction, reply: Reply): Reply {
    if reply.err == None then reply.(err := ResponseError(action, reply.status)) else reply
  }

  /** What a caller may conclude from a checked upload reply, in both directions. */
  lemma UploadReplyClasses(reply: Reply)
    requires reply.err == None
    ensures Checked(Up, reply).err == None <==> reply.status == 204
    ensures Retryable(Checked(Up, reply).err) <==> reply.status >= 500
    ensures TerminalSession(Checked(Up, reply).err) <==> reply.status == 410
  {
  }

  /** What a call returns when its connection is closed or its context is done. */
  const ABORTED := Reply(0, None, Some(Transport))

  // ---------------------------------------------------------------------------
  // A hedged round of the serial path
  // ---------------------------------------------------------------------------

  datatype Leg = Primary | Hedge

  /** What the `select` of the round yields: an answer, the timer, or the end of a context. */
  datatype Pick = LegReplied(leg: Leg, reply: Reply) | DelayOver | ContextDone

  /** The legs that run; `answered` is how many have answered. */
  datatype Serial = Waiting(hedged: bool, primary: bool, hedge: bool, answered: nat) | Done(reply: Reply)

  /** One pick. A leg that does not run cannot answer; that pick is passed over. */
  function OnPick(s: Serial, pick: Pick): Serial
    requires s.Waiting?
  {
    match pick
    case ContextDone => Done(ABORTED)
    case DelayOver => if s.hedged then s else s.(hedged := true, hedge := true)
    case LegReplied(leg, raw) =>
      var reply := Checked(Up, raw);
      if !(if leg == Primary then s.primary else s.hedge) then s
      else if !Retryable(reply.err) || s.answered >= 1 then Done(reply)
      else Waiting(true, leg != Primary && s.primary, leg != Hedge && (s.hedge || !s.hedged), s.answered + 1)
  }

  function Hedging(picks: seq<Pick>): Serial {
    if picks == [] then Waiting(false, true, false, 0)
    else
      match Hedging(picks[..|picks| - 1])
      case Done(reply) => Done(reply)
      case s => OnPick(s, picks[|picks| - 1])
  }

  /** A round whose contexts end at the latest after the picks. */
  function RoundReply(picks: seq<Pick>): Reply {
    match Hedging(picks)
    case Done(reply) => reply
    case Waiting(_, _, _, _) => ABORTED
  }

  lemma {:induction false} HedgingAfterDone(picks: seq<Pick>, i: nat)
    requires i <= |picks| && Hedging(picks[..i]).Done?
    ensures Hedging(picks) == Hedging(picks[..i])
    decreases |picks| - i
  {
    if i == |picks| {
      assert picks[..i] == picks;
    } else {
      assert picks[..i + 1][..i] == picks[..i];
      HedgingAfterDone(picks, i + 1);
    }
  }

  /** `requestUpHedgeRound`: the second leg starts when the delay is over or the first leg fails in a way
      that may be retried. */
  method RequestUpHedgeRound(picks: seq<Pick>) returns (reply: Reply, legs: nat)
    ensures reply == RoundReply(picks) && 1 <= legs <= 2
    ensures Hedging(picks).Waiting? ==> legs == if Hedging(picks).hedged then 2 else 1
  {
    var hedgeLaunched, completed := false, 0;
    var primary, hedge := true, false;
    legs := 1;
    assert picks[..0] == [];
    for i := 0 to |picks|
      invariant Hedging(picks[..i]) == Waiting(hedgeLaunched, primary, hedge, completed)
      invariant legs == if hedgeLaunched then 2 else 1
      invariant if hedgeLaunched then completed <= 1 else completed == 0 && primary && !hedge
    {
      assert picks[..i + 1][..i] == picks[..i];
      match picks[i]
      case ContextDone =>
        HedgingAfterDone(picks, i + 1);
        return ABORTED, legs;
      case DelayOver =>
        if !hedgeLaunched {
          hedgeLaunched, hedge, legs := true, true, legs + 1;
        }
      case LegReplied(leg, raw) =>
        if if leg == Primary then primary else hedge {
          if leg == Primary {
            primary := false;
          } else {
            hedge := false;
          }
          completed := completed + 1;
          var result := Checked(Up, raw);
          if result.err == None || result.err == Some(CircuitOpen) || !Retryable(result.err) {
            HedgingAfterDone(picks, i + 1);
            return result, legs;
          }
          if !hedgeLaunched {
            hedgeLaunched, hedge, legs := true, true, legs + 1;
          }
          if completed >= 2 {
            HedgingAfterDone(picks, i + 1);
            return result, legs;
          }
        }
    }
    assert picks[..|picks|] == picks;
    reply := ABORTED;
  }

  // ---------------------------------------------------------------------------
  // The retry loop
  // ---------------------------------------------------------------------------

  /** One attempt: a plain request, or a hedged round for an upload. */
  datatype Call = Plain(reply: Reply) | Hedged(picks: seq<Pick>)

  function Answer(action: RelayAction, call: Call): Reply {
    match call
    case Plain(reply) => Checked(action, reply)
    case Hedged(picks) => RoundReply(picks)
  }

  /** The attempts a `requestWithRetry` would make; `waits(k)` says that the back-off after attempt k
      ends by its timer, and not because the connection is closed or the caller gone. */
  datatype Calls = Calls(action: RelayAction, attempts: nat -> Call, waits: nat -> bool)

  predicate MayRetry(calls: Calls, attempt: nat) {
    RetryDecision(Answer(calls.action, calls.attempts(attempt)).err, attempt) == Retry
  }

  /** The last attempt made. */
  function LastAttempt(calls: Calls, attempt: nat): nat
    requires attempt <= MAX_RETRIES
    decreases MAX_RETRIES - attempt
  {
    if MayRetry(calls, attempt) && calls.waits(attempt) then LastAttempt(calls, attempt + 1) else attempt
  }

  function Outcome(calls: Calls): Reply {
    var last := LastAttempt(calls, 0);
    if MayRetry(calls, last) then ABORTED else Answer(calls.action, calls.attempts(last))
  }

  /** Only the first of these attempts can decide: every one before it failed in a way that may be retried
      and its back-off ran out; it is itself final, or the fourth, or its back-off was cut short. */
  lemma {:induction false} DecidingAttempt(calls: Calls, attempt: nat)
    requires attempt <= MAX_RETRIES
    ensures attempt <= LastAttempt(calls, attempt) <= MAX_RETRIES
    ensures forall k :: attempt <= k < LastAttempt(calls, attempt)
                        ==> Retryable(Answer(calls.action, calls.attempts(k)).err) && calls.waits(k)
    ensures var last := LastAttempt(calls, attempt);
            || !Retryable(Answer(calls.action, calls.attempts(last)).err)
            || last == MAX_RETRIES
            || !calls.waits(last)
    decreases MAX_RETRIES - attempt
  {
    if MayRetry(calls, attempt) && calls.waits(attempt) {
      DecidingAttempt(calls, attempt + 1);
    }
  }

  /** Attempt `last` ends the loop: those before it failed in a way that may be retried and were waited
      for. Its own answer is returned, unless it may be retried and the back-off after it was cut short. */
  ghost predicate Decides(calls: Calls, last: nat, reply: Reply) {
    && last <= 3
    && (forall k :: 0 <= k < last ==> Temporary(Answer(calls.action, calls.attempts(k)).err) && calls.waits(k))
    && var answer := Answer(calls.action, calls.attempts(last));
       if last < 3 && Temporary(answer.err) then !calls.waits(last) && reply == ABORTED else reply == answer
  }

  lemma OutcomeDecided(calls: Calls)
    ensures Decides(calls, LastAttempt(calls, 0), Outcome(calls))
  {
    var last := LastAttempt(calls, 0);
    DecidingAttempt(calls, 0);
    DecisionIff(Answer(calls.action, calls.attempts(last)).err, last);
    forall k | 0 <= k < last
      ensures Temporary(Answer(calls.action, calls.attempts(k)).err)
    {
      TemporaryIsRetryable(Answer(calls.action, calls.attempts(k)).err);
    }
    TemporaryIsRetryable(Answer(calls.action, calls.attempts(last)).err);
  }

  lemma TemporaryIsRetryable(err: Option<RelayError>)
    ensures Temporary(err) <==> Retryable(err)
  {
    if err.Some? && err.value.Http? && err.value.status >= 500 {
      var status := err.value.status;
      assert err == Some(Http(status));
    }
  }

  /** There is no choice in it: one attempt and one reply. */
  lemma DecidedOnce(calls: Calls, last: nat, reply: Reply)
    requires Decides(calls, last, reply)
    ensures last == LastAttempt(calls, 0) && reply == Outcome(calls)
  {
    OutcomeDecided(calls);
  }

  /** The retry loop: at most four attempts, the first not retryable one deciding; a back-off that is cut
      short ends it without a reply. */
  method RequestWithRetry(calls: Calls) returns (reply: Reply, requests: nat)
    ensures reply == Outcome(calls) && requests == LastAttempt(calls, 0) + 1 <= 4
    ensures Decides(calls, requests - 1, reply)
  {
    DecidingAttempt(calls, 0);
    OutcomeDecided(calls);
    requests := 0;
    reply := ABORTED;
    for attempt := 0 to MAX_RETRIES + 1
      invariant requests == attempt
      invariant attempt <= MAX_RETRIES ==> LastAttempt(calls, 0) == LastAttempt(calls, attempt)
      invariant attempt <= LastAttempt(calls, 0)
    {
      match calls.attempts(attempt) {
        case Plain(raw) =>
          reply := Checked(calls.action, raw);
        case Hedged(picks) =>
          var legs;
          reply, legs := RequestUpHedgeRound(picks);
      }
      requests := requests + 1;
      if reply.err == None {
        return;
      }
      if reply.err == Some(CircuitOpen) || !Retryable(reply.err) || attempt >= MAX_RETRIES {
        return;
      }
      if !calls.waits(attempt) {
        return ABORTED, requests;
      }
    }
  }
}
