/**
 The stop-and-wait download reader (`mtProtoChunkRelayConn.Read`,
 native/tgwsproxy/mtproto_chunk_relay.go).

 A poll is one `requestWithRetry("down", ...)`; its outcome comes from the Worker and the
 network and is an input here. `Read` is described by a function over values and proved to be
 that function; the properties are then proved over runs of Reads.
 */
module DownRelay {
  import opened ByteStreams

  const DOWN_BYTES: nat := 12 * 1024

  /** A poll either fails (`terminal` for HTTP 410), or returns a status, the parsed sequence
      header and a body. `closed` is what `isClosed` says before the poll. */
  datatype Poll =
    | Closed
    | Failure(terminal: bool)
    | Reply(status: int, n: Option<int>, body: Bytes)

  datatype Outcome =
    | Data(bytes: Bytes)
    | Eof
    | NetClosed
    | RequestError
    | BadStatus(status: int)
    | BadSeq(n: Option<int>)
    | BadSize(size: nat)
    | Waiting          // every poll given has been used and Read is still polling

  datatype Down = Down(readBuf: Bytes, pendingSeq: int, ackSeq: int)

  /** What one poll does to a reader with an empty buffer. */
  datatype PollEffect = Stop(outcome: Outcome) | Again | Accept(n: int, body: Bytes)

  function Judge(ackSeq: int, poll: Poll): PollEffect {
    match poll
    case Closed => Stop(NetClosed)
    case Failure(terminal) => Stop(if terminal then Eof else RequestError)
    case Reply(status, n, body) =>
      if status == 204 then Again
      else if status == 410 then Stop(Eof)
      else if status != 200 then Stop(BadStatus(status))
      else if n == None || n.value <= 0 then Stop(BadSeq(n))
      else if |body| == 0 || |body| > DOWN_BYTES then Stop(BadSize(|body|))
      else if n.value <= ackSeq then Again
      else Accept(n.value, body)
  }

  /** Hand over what the destination holds, and acknowledge a chunk only when it is used up. */
  function Take(d: Down, capacity: nat): (Down, Bytes) {
    var k := if |d.readBuf| < capacity then |d.readBuf| else capacity;
    var rest := d.readBuf[k..];
    (if rest == [] && d.pendingSeq > 0 then Down(rest, 0, d.pendingSeq) else d.(readBuf := rest), d.readBuf[..k])
  }

  /** The result of a Read, with the number of polls it used. */
  datatype ReadResult = ReadResult(down: Down, outcome: Outcome, used: nat)

  function ReadFrom(d: Down, capacity: nat, polls: seq<Poll>): ReadResult {
    if capacity == 0 then ReadResult(d, Data([]), 0)
    else if d.readBuf != [] then ReadResult(Take(d, capacity).0, Data(Take(d, capacity).1), 0)
    else Polling(d, capacity, polls)
  }

  function Polling(d: Down, capacity: nat, polls: seq<Poll>): ReadResult
    decreases |polls|
  {
    if polls == [] then ReadResult(d, Waiting, 0)
    else
      match Judge(d.ackSeq, polls[0])
      case Stop(outcome) => ReadResult(d, outcome, 1)
      case Again => var r := Polling(d, capacity, polls[1..]); r.(used := r.used + 1)
      case Accept(n, body) =>
        var (down, bytes) := Take(Down(body, n, d.ackSeq), capacity);
        ReadResult(down, Data(bytes), 1)
  }

  /** What a poll is taken for, by what it carries: a chunk is news exactly when it is whole, numbered, within
      the limit and after the acknowledged one; an empty answer or an old chunk means asking again; a gone
      session is the end of the stream; everything else is an error that names what is wrong. */
  lemma JudgedIff(ackSeq: int, poll: Poll)
    ensures forall n, body :: Judge(ackSeq, poll) == Accept(n, body) <==>
              poll == Reply(200, Some(n), body) && n > 0 && n > ackSeq && 1 <= |body| <= 12288
    ensures Judge(ackSeq, poll) == Again <==>
              && poll.Reply?
              && (poll.status == 204
                  || (poll.status == 200 && poll.n.Some? && 0 < poll.n.value <= ackSeq && 1 <= |poll.body| <= 12288))
    ensures Judge(ackSeq, poll) == Stop(Eof) <==> poll == Failure(true) || (poll.Reply? && poll.status == 410)
    ensures Judge(ackSeq, poll) == Stop(NetClosed) <==> poll == Closed
    ensures Judge(ackSeq, poll) == Stop(RequestError) <==> poll == Failure(false)
    ensures forall status :: Judge(ackSeq, poll) == Stop(BadStatus(status)) <==>
              poll.Reply? && poll.status == status && status !in {200, 204, 410}
    ensures forall n :: Judge(ackSeq, poll) == Stop(BadSeq(n)) <==>
              poll.Reply? && poll.status == 200 && poll.n == n && (n == None || n.value <= 0)
    ensures forall size :: Judge(ackSeq, poll) == Stop(BadSize(size)) <==>
              && poll.Reply? && poll.status == 200 && poll.n.Some? && poll.n.value > 0
              && |poll.body| == size && (size == 0 || size > 12288)
  {
  }

  /** A Read hands out as much of the buffer as fits; with an empty buffer the first poll that is not asked
      again decides it, and a new chunk fills the buffer and as much of the destination as it can. */
  lemma {:induction false} ReadDecides(d: Down, capacity: nat, polls: seq<Poll>)
    requires capacity > 0 && d.readBuf == []
    ensures var r := ReadFrom(d, capacity, polls);
            && r.used <= |polls|
            && (forall k :: 0 <= k < r.used - 1 ==> Judge(d.ackSeq, polls[k]) == Again)
            && (r.outcome == Waiting ==> r.used == |polls| && r.down == d
                                         && forall k :: 0 <= k < r.used ==> Judge(d.ackSeq, polls[k]) == Again)
            && (r.outcome != Waiting ==> r.used > 0)
            && (r.outcome != Waiting ==>
                  match Judge(d.ackSeq, polls[r.used - 1])
                  case Again => false
                  case Stop(outcome) => r.outcome == outcome && r.down == d
                  case Accept(n, body) =>
                    && r.outcome == Data(body[..Least(|body|, capacity)])
                    && r.down.readBuf == body[Least(|body|, capacity)..]
                    && if |body| <= capacity then r.down.ackSeq == n && r.down.pendingSeq == 0
                       else r.down.ackSeq == d.ackSeq && r.down.pendingSeq == n)
    decreases |polls|
  {
    if polls != [] && Judge(d.ackSeq, polls[0]) == Again {
      ReadDecides(d, capacity, polls[1..]);
    }
  }

  lemma BufferedFirst(d: Down, capacity: nat, polls: seq<Poll>)
    requires capacity > 0 && d.readBuf != [] && d.pendingSeq > 0
    ensures var r := ReadFrom(d, capacity, polls);
            var k := Least(|d.readBuf|, capacity);
            && r.used == 0 && r.outcome == Data(d.readBuf[..k]) && r.down.readBuf == d.readBuf[k..]
            && if k == |d.readBuf| then r.down.ackSeq == d.pendingSeq && r.down.pendingSeq == 0
               else r.down.ackSeq == d.ackSeq && r.down.pendingSeq == d.pendingSeq
  {
  }

  function Least(a: nat, b: nat): (m: nat)
    ensures m <= a && m <= b && (m == a || m == b)
  {
    if a < b then a else b
  }

  /** What the run so far has accepted and handed out. */
  datatype History = History(numbers: seq<int>, bodies: seq<Bytes>, delivered: Bytes)

  /** The chunk accepted by the polls of one Read, if any. */
  function AcceptedBy(d: Down, polls: seq<Poll>): Option<(int, Bytes)>
    decreases |polls|
  {
    if polls == [] then None
    else
      match Judge(d.ackSeq, polls[0])
      case Stop(_) => None
      case Again => AcceptedBy(d, polls[1..])
      case Accept(n, body) => Some((n, body))
  }

  function Record(h: History, d: Down, capacity: nat, polls: seq<Poll>): History {
    var r := ReadFrom(d, capacity, polls);
    var out := if r.outcome.Data? then r.outcome.bytes else [];
    var got := if capacity == 0 || d.readBuf != [] then None else AcceptedBy(d, polls);
    match got
    case None => h.(delivered := h.delivered + out)
    case Some(chunk) => History(h.numbers + [chunk.0], h.bodies + [chunk.1], h.delivered + out)
  }

  function Last(numbers: seq<int>): int {
    if numbers == [] then 0 else numbers[|numbers| - 1]
  }

  ghost predicate Increasing(numbers: seq<int>) {
    (forall i :: 0 <= i < |numbers| ==> numbers[i] > 0)
    && (forall i, j :: 0 <= i < j < |numbers| ==> numbers[i] < numbers[j])
  }

  /** Delivered bytes followed by the buffer are the accepted bodies; the acknowledged number is the
      last accepted one exactly when none of its bytes is still buffered. */
  ghost predicate Inv(h: History, d: Down) {
    && |h.numbers| == |h.bodies|
    && Increasing(h.numbers)
    && (forall k :: 0 <= k < |h.bodies| ==> 1 <= |h.bodies[k]| <= DOWN_BYTES)
    && h.delivered + d.readBuf == Flatten(h.bodies)
    && d.ackSeq >= 0
    && (d.readBuf == [] ==> d.pendingSeq == 0 && d.ackSeq == Last(h.numbers))
    && (d.readBuf != [] ==> d.pendingSeq == Last(h.numbers) > d.ackSeq
                            && h.numbers != [] && d.ackSeq == Last(h.numbers[..|h.numbers| - 1])
                            && |d.readBuf| <= |h.bodies[|h.bodies| - 1]|)
  }

  lemma TakeInv(h: History, d: Down, capacity: nat)
    requires Inv(h, d) && d.readBuf != []
    ensures Inv(h.(delivered := h.delivered + Take(d, capacity).1), Take(d, capacity).0)
  {
    var (d', bytes) := Take(d, capacity);
    assert d.readBuf == bytes + d'.readBuf;
    assert h.delivered + bytes + d'.readBuf == h.delivered + d.readBuf;
  }

  lemma AcceptInv(h: History, d: Down, poll: Poll, n: int, body: Bytes)
    requires Inv(h, d) && d.readBuf == [] && Judge(d.ackSeq, poll) == Accept(n, body)
    ensures Inv(History(h.numbers + [n], h.bodies + [body], h.delivered), Down(body, n, d.ackSeq))
  {
    FlattenSnoc(h.bodies, body);
    var numbers := h.numbers + [n];
    assert numbers[..|numbers| - 1] == h.numbers;
    IncreasingSnoc(h.numbers, n);
    assert h.delivered + [] == h.delivered;
  }

  lemma IncreasingSnoc(numbers: seq<int>, n: int)
    requires Increasing(numbers) && n > 0 && n > Last(numbers)
    ensures Increasing(numbers + [n]) && Last(numbers + [n]) == n
  {
    assert forall i :: 0 <= i < |numbers| ==> numbers[i] <= Last(numbers);
  }

  lemma {:induction false} PollingInv(h: History, d: Down, capacity: nat, polls: seq<Poll>)
    requires Inv(h, d) && d.readBuf == [] && capacity > 0
    ensures var r := Polling(d, capacity, polls);
            var out := if r.outcome.Data? then r.outcome.bytes else [];
            match AcceptedBy(d, polls)
            case None => r.down == d && out == []
            case Some(chunk) =>
              out != [] && Inv(History(h.numbers + [chunk.0], h.bodies + [chunk.1], h.delivered + out), r.down)
    decreases |polls|
  {
    if polls != [] {
      match Judge(d.ackSeq, polls[0])
      case Stop(_) =>
      case Again => PollingInv(h, d, capacity, polls[1..]);
      case Accept(n, body) =>
        AcceptInv(h, d, polls[0], n, body);
        TakeInv(History(h.numbers + [n], h.bodies + [body], h.delivered), Down(body, n, d.ackSeq), capacity);
    }
  }

  /** One Read keeps the invariant, whatever the buffer size and the polls. */
  lemma ReadInv(h: History, d: Down, capacity: nat, polls: seq<Poll>)
    requires Inv(h, d)
    ensures Inv(Record(h, d, capacity, polls), ReadFrom(d, capacity, polls).down)
  {
    if capacity > 0 {
      if d.readBuf != [] {
        TakeInv(h, d, capacity);
      } else {
        PollingInv(h, d, capacity, polls);
        assert h.delivered + [] == h.delivered;
      }
    } else {
      assert h.delivered + [] == h.delivered;
    }
  }

  datatype Call = Call(capacity: nat, polls: seq<Poll>)

  /** A run of Reads on a fresh connection. */
  function Run(calls: seq<Call>): (History, Down) {
    if calls == [] then (History([], [], []), Down([], 0, 0))
    else
      var (h, d) := Run(calls[..|calls| - 1]);
      var c := calls[|calls| - 1];
      (Record(h, d, c.capacity, c.polls), ReadFrom(d, c.capacity, c.polls).down)
  }

  /** Downstream exactly-once, for any Worker: nothing accepted is lost, repeated or reordered,
      and an acknowledgement never covers a byte that has not been handed out. */
  lemma {:induction false} DeliveredOnce(calls: seq<Call>)
    ensures Inv(Run(calls).0, Run(calls).1)
  {
    if calls != [] {
      DeliveredOnce(calls[..|calls| - 1]);
      var (h, d) := Run(calls[..|calls| - 1]);
      ReadInv(h, d, calls[|calls| - 1].capacity, calls[|calls| - 1].polls);
    }
  }

  /** The history grows by what each Read hands out, and by the chunk that decided it, if a chunk did. */
  lemma OneMoreRead(calls: seq<Call>, c: Call)
    ensures Run([]) == (History([], [], []), Down([], 0, 0))
    ensures var (h, d) := Run(calls);
            var (h', d') := Run(calls + [c]);
            var r := ReadFrom(d, c.capacity, c.polls);
            && d' == r.down && h'.delivered == h.delivered + (if r.outcome.Data? then r.outcome.bytes else [])
            && if c.capacity > 0 && d.readBuf == [] && 0 < r.used <= |c.polls|
                  && Judge(d.ackSeq, c.polls[r.used - 1]).Accept?
               then
                 var news := Judge(d.ackSeq, c.polls[r.used - 1]);
                 h'.numbers == h.numbers + [news.n] && h'.bodies == h.bodies + [news.body]
               else h'.numbers == h.numbers && h'.bodies == h.bodies
  {
    assert (calls + [c])[..|calls|] == calls;
    var d := Run(calls).1;
    if c.capacity > 0 && d.readBuf == [] {
      AcceptedIs(d, c.capacity, c.polls);
    }
  }

  lemma {:induction false} AcceptedIs(d: Down, capacity: nat, polls: seq<Poll>)
    requires capacity > 0 && d.readBuf == []
    ensures var used := ReadFrom(d, capacity, polls).used;
            match AcceptedBy(d, polls)
            case None => used == 0 || (used <= |polls| && !Judge(d.ackSeq, polls[used - 1]).Accept?)
            case Some(chunk) =>
              0 < used <= |polls| && Judge(d.ackSeq, polls[used - 1]) == Accept(chunk.0, chunk.1)
    decreases |polls|
  {
    if polls != [] && Judge(d.ackSeq, polls[0]) == Again {
      AcceptedIs(d, capacity, polls[1..]);
    }
  }

  lemma ShorterPrefix(a: Bytes, b: Bytes, c: Bytes, e: Bytes)
    requires a + b == c + e && |e| <= |b|
    ensures a <= c
  {
    assert a == (a + b)[..|a|];
    assert (c + e)[..|a|] == c[..|a|];
  }

  /** The acknowledgement sent with the next poll covers whole delivered chunks only. */
  lemma AckCoversDelivered(h: History, d: Down)
    requires Inv(h, d)
    ensures exists k ::
              0 <= k <= |h.bodies| && d.ackSeq == Last(h.numbers[..k]) && Flatten(h.bodies[..k]) <= h.delivered
                        && (k < |h.bodies| ==> h.numbers[k] > d.ackSeq && !(Flatten(h.bodies[..k + 1]) <= h.delivered))
  {
    if d.readBuf == [] {
      assert h.numbers[..|h.bodies|] == h.numbers && h.bodies[..|h.bodies|] == h.bodies;
      assert h.delivered + [] == h.delivered;
    } else {
      var k := |h.bodies| - 1;
      assert h.bodies == h.bodies[..k] + [h.bodies[k]];
      FlattenSnoc(h.bodies[..k], h.bodies[k]);
      ShorterPrefix(Flatten(h.bodies[..k]), h.bodies[k], h.delivered, d.readBuf);
      assert h.bodies[..k + 1] == h.bodies;
    }
  }

  // ---------------------------------------------------------------------------
  // With a stop-and-wait Worker
  // ---------------------------------------------------------------------------

  /** The Worker's contract: asked with acknowledgement `ack`, it offers chunk ack + 1 of its
      stream, or (a late duplicate) an earlier one, or nothing. */
  ghost predicate Offers(stream: seq<Bytes>, ack: int, poll: Poll) {
    poll.Reply? && poll.status == 200 && poll.n.Some? && poll.n.value > 0 ==>
      poll.n.value <= ack + 1 && poll.n.value <= |stream| && poll.body == stream[poll.n.value - 1]
  }

  ghost predicate AllOffers(stream: seq<Bytes>, ack: int, polls: seq<Poll>) {
    forall k :: 0 <= k < |polls| ==> Offers(stream, ack, polls[k])
  }

  ghost predicate StopAndWait(stream: seq<Bytes>, calls: seq<Call>) {
    calls == [] ||
    (&& StopAndWait(stream, calls[..|calls| - 1])
     && AllOffers(stream, Run(calls[..|calls| - 1]).1.ackSeq, calls[|calls| - 1].polls))
  }

  lemma {:induction false} AcceptsNext(stream: seq<Bytes>, d: Down, polls: seq<Poll>)
    requires d.ackSeq >= 0 && AllOffers(stream, d.ackSeq, polls)
    ensures match AcceptedBy(d, polls)
            case None => true
            case Some(chunk) => chunk.0 == d.ackSeq + 1 <= |stream| && chunk.1 == stream[d.ackSeq]
    decreases |polls|
  {
    if polls != [] {
      assert Offers(stream, d.ackSeq, polls[0]);
      assert forall k :: 0 <= k < |polls[1..]| ==> polls[1..][k] == polls[k + 1];
      if Judge(d.ackSeq, polls[0]) == Again {
        AcceptsNext(stream, d, polls[1..]);
      }
    }
  }

  /** The accepted chunks are the first chunks of the Worker's stream, numbered without a gap. */
  lemma {:induction false} AcceptedIsPrefix(stream: seq<Bytes>, calls: seq<Call>)
    requires StopAndWait(stream, calls)
    ensures var h := Run(calls).0;
            && |h.bodies| == |h.numbers| <= |stream|
            && h.bodies == stream[..|h.bodies|]
            && Last(h.numbers) == |h.numbers|
  {
    if calls != [] {
      var init, c := calls[..|calls| - 1], calls[|calls| - 1];
      AcceptedIsPrefix(stream, init);
      DeliveredOnce(init);
      var (h, d) := Run(init);
      AcceptsNext(stream, d, c.polls);
      if c.capacity > 0 && d.readBuf == [] && AcceptedBy(d, c.polls).Some? {
        assert stream[..|h.bodies| + 1] == stream[..|h.bodies|] + [stream[|h.bodies|]];
      }
    }
  }

  /** What the application has read is a prefix of what the Worker's stream says. */
  lemma ReadsPrefixOfStream(stream: seq<Bytes>, calls: seq<Call>)
    requires StopAndWait(stream, calls)
    ensures Run(calls).0.delivered <= Flatten(stream)
    ensures 0 <= Run(calls).1.ackSeq <= |stream|
    ensures Run(calls).1.readBuf == [] ==> Run(calls).0.delivered == Flatten(stream[..Run(calls).1.ackSeq])
  {
    DeliveredOnce(calls);
    AcceptedIsPrefix(stream, calls);
    var (h, d) := Run(calls);
    FlattenPrefix(stream, |h.bodies|, |stream|);
    assert stream[..|stream|] == stream;
    assert h.delivered <= h.delivered + d.readBuf;
  }

  // ---------------------------------------------------------------------------
  // The reader
  // ---------------------------------------------------------------------------

  class ChunkRelayReader {
    var readBuf: Bytes
    var pendingSeq: int
    var ackSeq: int
    var downBytes: int

    function Value(): Down reads this {
      Down(readBuf, pendingSeq, ackSeq)
    }

    constructor ()
      ensures Value() == Down([], 0, 0) && downBytes == 0
    {
      readBuf, pendingSeq, ackSeq, downBytes := [], 0, 0, 0;
    }

    method Read(dst: array<bv8>, polls: seq<Poll>) returns (n: nat, outcome: Outcome)
      modifies this, dst
      ensures ReadFrom(old(Value()), dst.Length, polls).down == Value()
      ensures n <= dst.Length
      ensures var expected := ReadFrom(old(Value()), dst.Length, polls).outcome;
              if expected.Data? then outcome == Data(dst[..n]) == expected else outcome == expected && n == 0
      ensures dst[n..] == old(dst[..])[n..]
    {
      n := 0;
      if dst.Length == 0 {
        return 0, Data([]);
      }
      ghost var start := Value();
      ghost var before := dst[..];
      var next := 0;
      while true
        invariant next <= |polls| && dst[..] == before
        invariant readBuf != [] && next == 0 ==> Value() == start
        invariant readBuf != [] && next > 0 ==>
                    Polling(start, dst.Length, polls).down == Take(Value(), dst.Length).0
                    && Polling(start, dst.Length, polls).outcome == Data(Take(Value(), dst.Length).1)
                    && start.readBuf == []
        invariant readBuf == [] ==>
                    Value() == start
                    && Polling(start, dst.Length, polls).down == Polling(start, dst.Length, polls[next..]).down
                    && Polling(start, dst.Length, polls).outcome == Polling(start, dst.Length, polls[next..]).outcome
        decreases |polls| - next, readBuf == []
      {
        if readBuf != [] {
          n := Copy(dst, readBuf);
          ghost var buffered := Value();
          readBuf := readBuf[n..];
          if readBuf == [] && pendingSeq > 0 {
            ackSeq := pendingSeq;
            pendingSeq := 0;
          }
          assert Value() == Take(buffered, dst.Length).0 && dst[..n] == Take(buffered, dst.Length).1;
          return n, Data(dst[..n]);
        }
        if next == |polls| {
          return 0, Waiting;
        }
        var poll := polls[next];
        assert polls[next..][1..] == polls[next + 1..];
        next := next + 1;
        match poll {
          case Closed => return 0, NetClosed;
          case Failure(terminal) => return 0, if terminal then Eof else RequestError;
          case Reply(status, seqHeader, body) =>
            if status == 204 {
              continue;
            }
            if status == 410 {
              return 0, Eof;
            }
            if status != 200 {
              return 0, BadStatus(status);
            }
            if seqHeader == None || seqHeader.value <= 0 {
              return 0, BadSeq(seqHeader);
            }
            if |body| == 0 || |body| > DOWN_BYTES {
              return 0, BadSize(|body|);
            }
            if seqHeader.value <= ackSeq {
              continue;
            }
            pendingSeq := seqHeader.value;
            readBuf := body;
            downBytes := downBytes + |body|;
        }
      }
    }

    /** Go's `copy`. */
    static method Copy(dst: array<bv8>, src: Bytes) returns (n: nat)
      modifies dst
      ensures n == if |src| < dst.Length then |src| else dst.Length
      ensures dst[..n] == src[..n] && dst[n..] == old(dst[..])[n..]
    {
      n := if |src| < dst.Length then |src| else dst.Length;
      forall i | 0 <= i < n {
        dst[i] := src[i];
      }
    }
  }
}
