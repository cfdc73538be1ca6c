/**
 Message reassembly over WebSocket frames (RFC 6455, section 5.4), and writing frames out:
 `Recv`, `writeFull` and `writeFlowsealShapedFullCount`
 (native/tgwsproxy/mtproto_websocket_frames.go, native/tgwsproxy/flowseal_websocket_frames.go).
 */
module WebSocketMessages {
  import opened ByteStreams
  import opened WebSocketFrames

  /** `input` is what the peer has still to say; `pongs` are the payloads of the pongs written. */
  datatype Socket = Socket(input: Bytes, frag: Bytes, closed: bool, pongs: seq<Bytes>)

  datatype Outcome =
    | Message(data: Bytes)
    | EndOfStream
    | ReadError
    | FrameTooLarge(length: nat)
    | MessageTooLarge(size: nat)
    | WriteError

  /** Which pong writes fail, by their number on the connection. */
  type Failures = nat -> bool

  datatype Step = Next(socket: Socket) | Return(end: Socket, outcome: Outcome)

  predicate IsData(opcode: bv8) {
    opcode == OP_CONTINUATION || opcode == OP_TEXT || opcode == OP_BINARY
  }

  /** What `Recv` does with a frame it has read. */
  function OnFrame(limit: nat, fails: Failures, s: Socket, f: Frame): (r: Step)
    ensures r.Next? ==> r.socket.input == s.input
  {
    if f.opcode == OP_CLOSE then Return(s.(closed := true), EndOfStream)
    else if f.opcode == OP_PING then
      if fails(|s.pongs|) then Return(s.(closed := true), WriteError) else Next(s.(pongs := s.pongs + [f.payload]))
    else if IsData(f.opcode) then
      var frag := s.frag + f.payload;
      if f.fin && s.frag == [] then Return(s, Message(f.payload))
      else if |frag| > limit then Return(s.(frag := frag, closed := true), MessageTooLarge(|frag|))
      else if f.fin then Return(s.(frag := []), Message(frag))
      else Next(s.(frag := frag))
    else Next(s)
  }

  function Recv(limit: nat, fails: Failures, s: Socket): (Socket, Outcome)
    decreases |s.input|
  {
    if s.closed then (s, EndOfStream)
    else
      match ReadFrame(limit, s.input)
      case Short => (s.(closed := true), ReadError)
      case TooLarge(n) => (s.(closed := true), FrameTooLarge(n))
      case Got(f, rest) =>
        match OnFrame(limit, fails, s.(input := rest), f)
        case Return(end, outcome) => (end, outcome)
        case Next(next) => Recv(limit, fails, next)
  }

  /** Whatever the peer sends, no message over the limit comes out, and a message leaves no fragment behind. */
  lemma {:induction false} MessagesWithinLimit(limit: nat, fails: Failures, s: Socket)
    requires |s.frag| <= limit
    ensures var (s', outcome) := Recv(limit, fails, s);
            match outcome
            case Message(data) => |data| <= limit && s'.frag == [] && !s'.closed
            case _ => s'.closed
    decreases |s.input|
  {
    if !s.closed {
      match ReadFrame(limit, s.input)
      case Got(f, rest) =>
        match OnFrame(limit, fails, s.(input := rest), f) {
          case Next(next) => MessagesWithinLimit(limit, fails, next);
          case Return(_, _) => GotWithinLimit(limit, s.input);
        }
      case _ =>
    }
  }

  lemma GotWithinLimit(limit: nat, input: Bytes)
    ensures ReadFrame(limit, input).Got? ==> |ReadFrame(limit, input).frame.payload| <= limit
  {
  }

  // ---------------------------------------------------------------------------
  // What a sequence of frames means
  // ---------------------------------------------------------------------------

  datatype Sent = Sent(frame: Frame, mask: Mask)

  function Stream(sent: seq<Sent>): Bytes {
    if sent == [] then [] else Encode(sent[0].frame, sent[0].mask) + Stream(sent[1..])
  }

  /** The payloads of the data frames, one after the other. */
  function Data(sent: seq<Sent>): Bytes {
    if sent == [] then []
    else (if IsData(sent[0].frame.opcode) then sent[0].frame.payload else []) + Data(sent[1..])
  }

  function Pings(sent: seq<Sent>): seq<Bytes> {
    if sent == [] then []
    else (if sent[0].frame.opcode == OP_PING then [sent[0].frame.payload] else []) + Pings(sent[1..])
  }

  predicate Final(f: Frame) {
    IsData(f.opcode) && f.fin
  }

  ghost predicate Sendable(limit: nat, sent: seq<Sent>) {
    sent == [] ||
    (sent[0].frame.opcode < 16 && |sent[0].frame.payload| <= limit && sent[0].frame.opcode != OP_CLOSE
     && Sendable(limit, sent[1..]))
  }

  /** Frames up to and including the first final data frame. */
  predicate IsGroup(sent: seq<Sent>) {
    sent != [] && (if Final(sent[0].frame) then |sent| == 1 else IsGroup(sent[1..]))
  }

  ghost predicate PongsSucceed(fails: Failures, from: nat, count: nat) {
    forall k :: from <= k < from + count ==> !fails(k)
  }

  /** The first frame of a stream is what `Recv` sees first. */
  lemma ReadsFirst(limit: nat, sent: seq<Sent>, rest: Bytes)
    requires sent != [] && sent[0].frame.opcode < 16 && |sent[0].frame.payload| <= limit < Pow256(8)
    ensures ReadFrame(limit, Stream(sent) + rest) == Got(sent[0].frame, Stream(sent[1..]) + rest)
  {
    ConcatAssoc(Encode(sent[0].frame, sent[0].mask), Stream(sent[1..]), rest);
    FrameRoundTrip(limit, sent[0].frame, sent[0].mask, Stream(sent[1..]) + rest);
  }

  /** One Recv over one message: its data fragments in order, however control frames are mixed in;
      or, exactly when they add up to more than the limit, an error that closes the socket. */
  lemma {:induction false} RecvMessage(limit: nat, fails: Failures, s: Socket, sent: seq<Sent>, rest: Bytes)
    requires limit < Pow256(8) && !s.closed && s.input == Stream(sent) + rest
    requires IsGroup(sent) && Sendable(limit, sent) && PongsSucceed(fails, |s.pongs|, |Pings(sent)|)
    ensures if |s.frag + Data(sent)| <= limit
            then Recv(limit, fails, s)
              == (Socket(rest, [], false, s.pongs + Pings(sent)), Message(s.frag + Data(sent)))
            else Recv(limit, fails, s).0.closed && Recv(limit, fails, s).1.MessageTooLarge?
    decreases |sent|
  {
    ReadsFirst(limit, sent, rest);
    var s1 := s.(input := Stream(sent[1..]) + rest);
    if Final(sent[0].frame) {
      FinalFrame(limit, fails, s, sent, rest);
    } else {
      MiddleFrame(limit, fails, s1, sent);
      match OnFrame(limit, fails, s1, sent[0].frame)
      case Next(next) => RecvMessage(limit, fails, next, sent[1..], rest);
      case Return(_, _) =>
    }
  }

  /** A frame before the final one adds its part to the fragment or the pongs, and reading goes on. */
  lemma MiddleFrame(limit: nat, fails: Failures, s: Socket, sent: seq<Sent>)
    requires sent != [] && !Final(sent[0].frame) && sent[0].frame.opcode != OP_CLOSE
    requires PongsSucceed(fails, |s.pongs|, |Pings(sent)|)
    ensures match OnFrame(limit, fails, s, sent[0].frame)
            case Next(next) =>
              && next.input == s.input && next.closed == s.closed
              && next.frag + Data(sent[1..]) == s.frag + Data(sent)
              && next.pongs + Pings(sent[1..]) == s.pongs + Pings(sent)
              && PongsSucceed(fails, |next.pongs|, |Pings(sent[1..])|)
            case Return(end, outcome) => end.closed && outcome.MessageTooLarge? && |s.frag + Data(sent)| > limit
  {
    var f := sent[0].frame;
    if f.opcode == OP_PING {
      assert !fails(|s.pongs|);
      ConcatAssoc(s.pongs, [f.payload], Pings(sent[1..]));
      assert Data(sent) == Data(sent[1..]);
    } else if IsData(f.opcode) {
      assert Pings(sent) == Pings(sent[1..]);
      ConcatAssoc(s.frag, f.payload, Data(sent[1..]));
    } else {
      assert Pings(sent) == Pings(sent[1..]) && Data(sent) == Data(sent[1..]);
    }
  }

  lemma FinalFrame(limit: nat, fails: Failures, s: Socket, sent: seq<Sent>, rest: Bytes)
    requires |sent| == 1 && Final(sent[0].frame) && |sent[0].frame.payload| <= limit && !s.closed
    requires ReadFrame(limit, s.input) == Got(sent[0].frame, Stream(sent[1..]) + rest)
    ensures if |s.frag + Data(sent)| <= limit
            then Recv(limit, fails, s)
              == (Socket(rest, [], false, s.pongs + Pings(sent)), Message(s.frag + Data(sent)))
            else Recv(limit, fails, s).0.closed && Recv(limit, fails, s).1.MessageTooLarge?
  {
    assert Stream(sent[1..]) + rest == rest;
    assert Data(sent) == sent[0].frame.payload;
    assert s.pongs + Pings(sent) == s.pongs;
    assert [] + sent[0].frame.payload == sent[0].frame.payload;
  }

  // ---------------------------------------------------------------------------
  // Whole connections
  // ---------------------------------------------------------------------------

  /** Successive Recv calls, at most n, stopping at the first that returns no message. */
  function RecvMany(limit: nat, fails: Failures, s: Socket, n: nat): (Socket, seq<Bytes>)
    decreases n
  {
    if n == 0 then (s, [])
    else
      var (s1, outcome) := Recv(limit, fails, s);
      if outcome.Message? then var (s2, more) := RecvMany(limit, fails, s1, n - 1); (s2, [outcome.data] + more)
      else (s1, [])
  }

  function FirstFinal(sent: seq<Sent>): (k: nat)
    ensures k <= |sent|
    ensures k < |sent| ==> IsGroup(sent[..k + 1])
  {
    if sent == [] then 0
    else if Final(sent[0].frame) then 0
    else
      var k := FirstFinal(sent[1..]);
      assert k < |sent| - 1 ==> sent[..k + 2][1..] == sent[1..][..k + 1];
      k + 1
  }

  /** The frames of each complete message, and those of a message not complete. */
  function Groups(sent: seq<Sent>): seq<seq<Sent>>
    decreases |sent|
  {
    var k := FirstFinal(sent);
    if k == |sent| then [] else [sent[..k + 1]] + Groups(sent[k + 1..])
  }

  function Unfinished(sent: seq<Sent>): seq<Sent>
    decreases |sent|
  {
    var k := FirstFinal(sent);
    if k == |sent| then sent else Unfinished(sent[k + 1..])
  }

  function Messages(groups: seq<seq<Sent>>): seq<Bytes> {
    if groups == [] then [] else [Data(groups[0])] + Messages(groups[1..])
  }

  lemma {:induction false} StreamAppend(a: seq<Sent>, b: seq<Sent>)
    ensures Stream(a + b) == Stream(a) + Stream(b)
  {
    if a == [] {
      assert a + b == b;
    } else {
      StreamAppend(a[1..], b);
      assert (a + b)[0] == a[0] && (a + b)[1..] == a[1..] + b;
      ConcatAssoc(Encode(a[0].frame, a[0].mask), Stream(a[1..]), Stream(b));
    }
  }

  lemma {:induction false} PingsAppend(a: seq<Sent>, b: seq<Sent>)
    ensures Pings(a + b) == Pings(a) + Pings(b)
  {
    if a == [] {
      assert a + b == b;
    } else {
      PingsAppend(a[1..], b);
      assert (a + b)[0] == a[0] && (a + b)[1..] == a[1..] + b;
      ConcatAssoc(if a[0].frame.opcode == OP_PING then [a[0].frame.payload] else [], Pings(a[1..]), Pings(b));
    }
  }

  lemma {:induction false} SendableParts(limit: nat, sent: seq<Sent>, k: nat)
    requires Sendable(limit, sent) && k <= |sent|
    ensures Sendable(limit, sent[..k]) && Sendable(limit, sent[k..])
  {
    if k > 0 {
      SendableParts(limit, sent[1..], k - 1);
      assert sent[..k][1..] == sent[1..][..k - 1] && sent[k..] == sent[1..][k - 1..];
    }
  }

  ghost predicate AllWithin(limit: nat, messages: seq<Bytes>) {
    messages == [] || (|messages[0]| <= limit && AllWithin(limit, messages[1..]))
  }

  /** Any sequence of frames without a close: Recv returns exactly its messages, answers every ping
      of them in order, and leaves the unfinished frames unread. */
  lemma {:induction false} Reassembly(limit: nat, fails: Failures, s: Socket, sent: seq<Sent>, rest: Bytes)
    requires limit < Pow256(8) && !s.closed && s.frag == [] && s.input == Stream(sent) + rest
    requires Sendable(limit, sent) && AllWithin(limit, Messages(Groups(sent)))
    requires PongsSucceed(fails, |s.pongs|, |Pings(sent)|)
    ensures var (end, messages) := RecvMany(limit, fails, s, |Groups(sent)|);
            && messages == Messages(Groups(sent))
            && end.input == Stream(Unfinished(sent)) + rest && end.frag == [] && !end.closed
            && end.pongs + Pings(Unfinished(sent)) == s.pongs + Pings(sent)
    decreases |sent|
  {
    var k := FirstFinal(sent);
    if k < |sent| {
      var first, later := sent[..k + 1], sent[k + 1..];
      assert sent == first + later;
      StreamAppend(first, later);
      PingsAppend(first, later);
      SendableParts(limit, sent, k + 1);
      ConcatAssoc(Stream(first), Stream(later), rest);
      RecvMessage(limit, fails, s, first, Stream(later) + rest);
      assert s.frag + Data(first) == Data(first);
      assert Groups(sent)[1..] == Groups(later);
      assert Messages(Groups(sent))[1..] == Messages(Groups(later));
      var s1 := Socket(Stream(later) + rest, [], false, s.pongs + Pings(first));
      Reassembly(limit, fails, s1, later, rest);
      ConcatAssoc(s.pongs, Pings(first), Pings(later));
    }
  }

  /** Groups and unfinished frames make up the whole sequence; every group ends with its only final
      data frame, and the unfinished frames have none. */
  lemma {:induction false} GroupsPartition(sent: seq<Sent>)
    ensures Flatten(Groups(sent)) + Unfinished(sent) == sent
    ensures forall i :: 0 <= i < |Groups(sent)| ==> IsGroup(Groups(sent)[i])
    ensures FirstFinal(Unfinished(sent)) == |Unfinished(sent)|
    decreases |sent|
  {
    var k := FirstFinal(sent);
    if k < |sent| {
      GroupsPartition(sent[k + 1..]);
      var groups := Groups(sent[k + 1..]);
      assert Groups(sent)[1..] == groups;
      ConcatAssoc(sent[..k + 1], Flatten(groups), Unfinished(sent[k + 1..]));
    }
  }

  /** A close frame ends the stream after the pings before it are answered; a message not complete is lost. */
  lemma {:induction false} RecvClose(limit: nat, fails: Failures, s: Socket, sent: seq<Sent>, close: Sent, rest: Bytes)
    requires limit < Pow256(8) && !s.closed && s.input == Stream(sent) + (Encode(close.frame, close.mask) + rest)
    requires close.frame.opcode == OP_CLOSE && |close.frame.payload| <= limit
    requires FirstFinal(sent) == |sent| && Sendable(limit, sent) && PongsSucceed(fails, |s.pongs|, |Pings(sent)|)
    requires |s.frag + Data(sent)| <= limit
    ensures Recv(limit, fails, s)
         == (Socket(rest, s.frag + Data(sent), true, s.pongs + Pings(sent)), EndOfStream)
    decreases |sent|
  {
    if sent == [] {
      FrameRoundTrip(limit, close.frame, close.mask, rest);
      assert s.input == Encode(close.frame, close.mask) + rest;
      assert s.frag + Data(sent) == s.frag && s.pongs + Pings(sent) == s.pongs;
    } else {
      var after := Encode(close.frame, close.mask) + rest;
      ReadsFirst(limit, sent, after);
      var s1 := s.(input := Stream(sent[1..]) + after);
      MiddleFrame(limit, fails, s1, sent);
      match OnFrame(limit, fails, s1, sent[0].frame)
      case Next(next) => RecvClose(limit, fails, next, sent[1..], close, rest);
    }
  }

  /** A socket closed by an error, by a close frame or by its owner returns nothing any more. */
  lemma ClosedForGood(limit: nat, fails: Failures, s: Socket, n: nat)
    requires |s.frag| <= limit && !Recv(limit, fails, s).1.Message?
    ensures RecvMany(limit, fails, Recv(limit, fails, s).0, n) == (Recv(limit, fails, s).0, [])
  {
    MessagesWithinLimit(limit, fails, s);
  }

  // ---------------------------------------------------------------------------
  // The socket
  // ---------------------------------------------------------------------------

  class FrameSocket {
    var input: Bytes
    var frag: Bytes
    var closed: bool
    var pongs: seq<Bytes>
    const limit: nat

    function Value(): Socket reads this {
      Socket(input, frag, closed, pongs)
    }

    constructor (input: Bytes, maxMessageLen: nat)
      ensures Value() == Socket(input, [], false, [])
      ensures limit == if maxMessageLen > 0 then maxMessageLen else MAX_MESSAGE
    {
      this.input, frag, closed, pongs := input, [], false, [];
      limit := if maxMessageLen > 0 then maxMessageLen else MAX_MESSAGE;
    }

    /** `Recv`; the i-th pong written on this socket fails if `fails(i)`. */
    method Receive(fails: Failures) returns (outcome: Outcome)
      modifies this
      ensures Recv(limit, fails, old(Value())) == (Value(), outcome)
    {
      while !closed
        invariant Recv(limit, fails, old(Value())) == Recv(limit, fails, Value())
        decreases |input|
      {
        var next := ReadNextFrame(limit, input);
        match next {
          case Short =>
            closed := true;
            return ReadError;
          case TooLarge(length) =>
            closed := true;
            return FrameTooLarge(length);
          case Got(frame, rest) =>
            input := rest;
            if frame.opcode == OP_CLOSE {
              closed := true;
              return EndOfStream;
            } else if frame.opcode == OP_PING {
              if fails(|pongs|) {
                closed := true;
                return WriteError;
              }
              pongs := pongs + [frame.payload];
            } else if IsData(frame.opcode) {
              if frame.fin && frag == [] {
                return Message(frame.payload);
              }
              frag := frag + frame.payload;
              if |frag| > limit {
                closed := true;
                return MessageTooLarge(|frag|);
              }
              if frame.fin {
                outcome := Message(frag);
                frag := [];
                return;
              }
            }
        }
      }
      outcome := EndOfStream;
    }
  }

  // ---------------------------------------------------------------------------
  // Writing all of a frame
  // ---------------------------------------------------------------------------

  /** What a `Write` call of the connection does: it takes some of the bytes and may fail. */
  datatype Response = Response(written: nat, failed: bool)

  datatype WriteResult = Written | Failed | ShortWrite

  /** What writing n bytes comes to when `total` of them are written, from the k-th response on. */
  function WriteAll(n: nat, responses: nat -> Response, k: nat, total: nat): (r: (nat, WriteResult))
    requires total <= n
    ensures total <= r.0 <= n && (r.1 == Written ==> r.0 == n) && (r.1 == ShortWrite ==> r.0 < n)
    decreases n - total
  {
    if total == n then (n, Written)
    else
      var taken := if responses(k).written < n - total then responses(k).written else n - total;
      if responses(k).failed then (total + taken, Failed)
      else if taken == 0 then (total, ShortWrite)
      else WriteAll(n, responses, k + 1, total + taken)
  }

  /** What the responses from the i-th up to the j-th would take. */
  function Takes(responses: nat -> Response, i: nat, j: nat): nat
    requires i <= j
    decreases j - i
  {
    if i == j then 0 else responses(i).written + Takes(responses, i + 1, j)
  }

  /** Writing goes on through the calls that take something and do not fail, until all is written; the first
      other call before that ends it, for its own reason, and what it took counts. */
  lemma {:induction false} WriteAllEnds(n: nat, responses: nat -> Response, k: nat, total: nat) returns (end: nat)
    requires total <= n
    ensures k <= end && forall i :: k <= i < end ==> !responses(i).failed && responses(i).written > 0
    ensures forall i :: k <= i < end ==> total + Takes(responses, k, i) < n
    ensures var (written, result) := WriteAll(n, responses, k, total);
            var before := total + Takes(responses, k, end);
            if result == Written then written == n <= before
            else
              && before < n
              && written == (if before + responses(end).written < n then before + responses(end).written else n)
              && (if responses(end).failed then result == Failed
                  else result == ShortWrite && responses(end).written == 0)
    decreases n - total
  {
    end := k;
    if total < n && !responses(k).failed && responses(k).written > 0 {
      var taken := if responses(k).written < n - total then responses(k).written else n - total;
      end := WriteAllEnds(n, responses, k + 1, total + taken);
      forall i | k <= i < end
        ensures total + Takes(responses, k, i) < n
      {
        if i > k {
          assert total + taken + Takes(responses, k + 1, i) < n;
        }
      }
    }
  }

  /** The same for pieces of at most `chunk` bytes, the j-th piece meeting `responses(j)`. */
  function WriteShaped(n: nat, chunk: nat, responses: nat -> nat -> Response, j: nat, total: nat)
    : (r: (nat, WriteResult))
    requires chunk > 0 && total <= n
    ensures total <= r.0 <= n && (r.1 == Written ==> r.0 == n) && (r.1 == ShortWrite ==> r.0 < n)
    decreases n - total
  {
    if total == n then (n, Written)
    else
      var (taken, result) := WriteAll(if chunk < n - total then chunk else n - total, responses(j), 0, 0);
      if result != Written then (total + taken, result) else WriteShaped(n, chunk, responses, j + 1, total + taken)
  }

  /** A connection whose Write keeps to the contract of Go's io.Writer: it takes a prefix of what it
      is offered. `wire` is all it has taken; `largest` the most bytes it was offered at once. */
  class Connection {
    var wire: Bytes
    var largest: nat

    method Write(data: Bytes, response: Response) returns (written: nat, failed: bool)
      modifies this
      ensures written <= |data| && wire == old(wire) + data[..written]
      ensures written == (if response.written < |data| then response.written else |data|) && failed == response.failed
      ensures largest == if |data| > old(largest) then |data| else old(largest)
    {
      written := if response.written < |data| then response.written else |data|;
      failed := response.failed;
      wire := wire + data[..written];
      largest := if |data| > largest then |data| else largest;
    }

    /** `writeFlowsealFullCount`: everything is written, or an error says how much was. */
    method WriteFullCount(data: Bytes, responses: nat -> Response) returns (total: nat, result: WriteResult)
      modifies this
      ensures (total, result) == WriteAll(|data|, responses, 0, 0)
      ensures total <= |data| && wire == old(wire) + data[..total]
      ensures largest <= if |data| > old(largest) then |data| else old(largest)
    {
      total := 0;
      var calls := 0;
      while total < |data|
        invariant total <= |data| && wire == old(wire) + data[..total]
        invariant largest <= if |data| > old(largest) then |data| else old(largest)
        invariant WriteAll(|data|, responses, calls, total) == WriteAll(|data|, responses, 0, 0)
      {
        ghost var before := total;
        var written, failed := Write(data[total..], responses(calls));
        calls := calls + 1;
        total := total + written;
        TakeDrop(data, before, written);
        ConcatAssoc(old(wire), data[..before], data[before..][..written]);
        if failed {
          return total, Failed;
        }
        if written == 0 {
          return total, ShortWrite;
        }
      }
      result := Written;
    }

    /** `writeFlowsealShapedFullCount`: the same contract, no call being offered more than `chunkBytes`. */
    method WriteShapedFullCount(data: Bytes, chunkBytes: int, responses: nat -> nat -> Response)
      returns (total: nat, result: WriteResult)
      modifies this
      ensures (total, result) == if chunkBytes <= 0 || chunkBytes >= |data| then WriteAll(|data|, responses(0), 0, 0)
                                 else WriteShaped(|data|, chunkBytes, responses, 0, 0)
      ensures total <= |data| && wire == old(wire) + data[..total]
      ensures chunkBytes > 0 ==> largest <= if chunkBytes > old(largest) then chunkBytes else old(largest)
    {
      if chunkBytes <= 0 || chunkBytes >= |data| {
        total, result := WriteFullCount(data, responses(0));
        return;
      }
      total, result := WritePieces(data, chunkBytes, responses);
    }

    method WritePieces(data: Bytes, chunk: nat, responses: nat -> nat -> Response)
      returns (total: nat, result: WriteResult)
      requires chunk > 0
      modifies this
      ensures (total, result) == WriteShaped(|data|, chunk, responses, 0, 0)
      ensures total <= |data| && wire == old(wire) + data[..total]
      ensures largest <= if chunk > old(largest) then chunk else old(largest)
    {
      total := 0;
      var chunks := 0;
      while total < |data|
        invariant total <= |data| && wire == old(wire) + data[..total]
        invariant largest <= if chunk > old(largest) then chunk else old(largest)
        invariant WriteShaped(|data|, chunk, responses, chunks, total) == WriteShaped(|data|, chunk, responses, 0, 0)
      {
        total, result := WritePiece(data, total, chunk, responses, chunks, old(wire));
        chunks := chunks + 1;
        if result != Written {
          return;
        }
      }
      result := Written;
    }

    method WritePiece(data: Bytes, start: nat, chunk: nat, responses: nat -> nat -> Response, j: nat,
                      ghost before: Bytes)
      returns (total: nat, result: WriteResult)
      requires chunk > 0 && start < |data| && wire == before + data[..start]
      modifies this
      ensures start <= total <= |data| && (result == Written ==> start < total)
      ensures WriteShaped(|data|, chunk, responses, j, start)
           == if result == Written then WriteShaped(|data|, chunk, responses, j + 1, total) else (total, result)
      ensures wire == before + data[..total]
      ensures largest <= if chunk > old(largest) then chunk else old(largest)
    {
      var end := if start + chunk > |data| then |data| else start + chunk;
      var written;
      written, result := WriteFullCount(data[start..end], responses(j));
      total := start + written;
      assert data[start..end][..written] == data[start..][..written];
      TakeDrop(data, start, written);
      ConcatAssoc(before, data[..start], data[start..][..written]);
    }
  }
}
