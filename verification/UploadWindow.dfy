/**
 The sliding upload window of one Write
 (`writePipelinedMtProtoChunkRelay`, native/tgwsproxy/mtproto_chunk_relay_pipeline.go).

 The write loop is a fold of `Receive` over the results in the order the channel hands
 them out; `ChunkRelayConn.WritePipelined` is that loop with an arbitrary order.
 */
module UploadWindow {
  import opened ByteStreams
  import opened RelayStatus
  import opened HeadTracker

  const UPLOAD_BYTES: nat := 12 * 1024
  const UP_WINDOW: nat := 3

  // ---------------------------------------------------------------------------
  // Cutting the data into chunks
  // ---------------------------------------------------------------------------

  datatype UploadSpec = UploadSpec(n: int, start: nat, end: nat)

  function Chop(data: Bytes): seq<Bytes> {
    if data == [] then []
    else if |data| <= UPLOAD_BYTES then [data]
    else [data[..UPLOAD_BYTES]] + Chop(data[UPLOAD_BYTES..])
  }

  lemma {:induction false} ChopShape(data: Bytes)
    ensures Flatten(Chop(data)) == data
    ensures data != [] ==> Chop(data) != []
    ensures forall k :: 0 <= k < |Chop(data)| ==> 1 <= |Chop(data)[k]| <= 12288
    ensures forall k :: 0 <= k < |Chop(data)| - 1 ==> |Chop(data)[k]| == 12288
  {
    if data != [] {
      if |data| <= UPLOAD_BYTES {
        assert Flatten([data]) == data + Flatten<bv8>([]);
      } else {
        ChopShape(data[UPLOAD_BYTES..]);
        var rest := Chop(data[UPLOAD_BYTES..]);
        assert Chop(data) == [data[..UPLOAD_BYTES]] + rest;
        assert Chop(data)[1..] == rest;
        assert forall k :: 1 <= k < |Chop(data)| ==> Chop(data)[k] == rest[k - 1];
      }
    }
  }

  /** Cutting is stable: what is left after k chunks is cut exactly where it was cut before. */
  lemma {:induction false} ChopOfSuffix(data: Bytes, k: nat)
    requires k <= |Chop(data)|
    ensures Chop(Flatten(Chop(data)[k..])) == Chop(data)[k..]
  {
    ChopShape(data);
    if k == 0 {
      assert Chop(data)[0..] == Chop(data);
    } else if |data| <= UPLOAD_BYTES {
      assert Chop(data)[k..] == [];
    } else {
      ChopOfSuffix(data[UPLOAD_BYTES..], k - 1);
      assert Chop(data)[k..] == Chop(data[UPLOAD_BYTES..])[k - 1..];
    }
  }

  /** Chunk k is the slice `data[start:end]` that every request for its sequence number carries. */
  lemma {:induction false} ChunkIsSlice(data: Bytes, k: nat)
    requires k < |Chop(data)|
    ensures k * UPLOAD_BYTES < |data|
    ensures Chop(data)[k] == data[k * UPLOAD_BYTES..ChunkEnd(|data|, k)]
    ensures k + 1 == |Chop(data)| <==> ChunkEnd(|data|, k) == |data|
  {
    if |data| > UPLOAD_BYTES {
      ChopShape(data[UPLOAD_BYTES..]);
      if k > 0 {
        var rest := data[UPLOAD_BYTES..];
        ChunkIsSlice(rest, k - 1);
        assert Chop(data)[k] == Chop(rest)[k - 1];
        assert ChunkEnd(|rest|, k - 1) + UPLOAD_BYTES == ChunkEnd(|data|, k);
        assert rest[(k - 1) * UPLOAD_BYTES..ChunkEnd(|rest|, k - 1)]
            == data[k * UPLOAD_BYTES..ChunkEnd(|data|, k)];
      }
    }
  }

  function ChunkEnd(length: nat, k: nat): nat {
    if (k + 1) * UPLOAD_BYTES > length then length else (k + 1) * UPLOAD_BYTES
  }

  // ---------------------------------------------------------------------------
  // The loop state
  // ---------------------------------------------------------------------------

  datatype WriteError =
    | NoError
    | Eof
    | Closed
    | RequestFailed(err: RelayError)
    | BadStatus(n: int, status: int)
    | BadAck(n: int, ack: Option<int>)

  datatype UploadResult = UploadResult(n: int, reply: Reply)

  /** `inFlight`: requests launched whose result has not been received. */
  datatype Loop = Loop(nextLaunch: nat, nextCommit: nat, completed: set<int>, inFlight: set<int>, error: WriteError)

  /** The error the loop returns for one result, if any. */
  function Verdict(r: UploadResult): WriteError {
    match r.reply.err
    case Some(err) => if TerminalSession(r.reply.err) then Eof else RequestFailed(err)
    case None =>
      if r.reply.status == 410 then Eof
      else if r.reply.status != 204 then BadStatus(r.n, r.reply.status)
      else if r.reply.ack != Some(r.n) then BadAck(r.n, r.reply.ack)
      else NoError
  }

  /** A result is good exactly when it is a 204 that acknowledges its own number; a gone session ends the
      stream; everything else is an error that names what is wrong. */
  lemma VerdictIff(r: UploadResult)
    ensures Verdict(r) == NoError <==> r.reply == Reply(204, Some(r.n), None)
    ensures Verdict(r) == Eof <==> r.reply.err == Some(Http(410)) || (r.reply.err == None && r.reply.status == 410)
    ensures forall err :: Verdict(r) == RequestFailed(err) <==> r.reply.err == Some(err) && err != Http(410)
    ensures forall n, status :: Verdict(r) == BadStatus(n, status) <==>
              r.reply.err == None && n == r.n && status == r.reply.status && status != 204 && status != 410
    ensures forall n, ack :: Verdict(r) == BadAck(n, ack) <==>
              r.reply.err == None && n == r.n && r.reply.status == 204 && ack == r.reply.ack && ack != Some(n)
  {
  }

  function FirstLaunches(base: int, k: nat): set<int> {
    if k == 0 then {} else FirstLaunches(base, k - 1) + {base + k}
  }

  function Start(count: nat, base: int): Loop {
    var k := if count < UP_WINDOW then count else UP_WINDOW;
    Loop(k, 0, {}, FirstLaunches(base, k), NoError)
  }

  function LaunchNext(count: nat, base: int, nextLaunch: nat, inFlight: set<int>): (nat, set<int>) {
    if nextLaunch < count then (nextLaunch + 1, inFlight + {base + nextLaunch + 1}) else (nextLaunch, inFlight)
  }

  function Receive(count: nat, base: int, l: Loop, r: UploadResult): Loop {
    if Verdict(r) != NoError then l.(inFlight := l.inFlight - {r.n}, error := Verdict(r))
    else
      var (head, completed) := Advance(base + l.nextCommit + 1, l.completed + {r.n});
      var (nextLaunch, inFlight) := LaunchNext(count, base, l.nextLaunch, l.inFlight - {r.n});
      Loop(nextLaunch, head - base - 1, completed, inFlight, NoError)
  }

  function ReceiveAll(count: nat, base: int, log: seq<UploadResult>): Loop {
    if log == [] then Start(count, base)
    else Receive(count, base, ReceiveAll(count, base, log[..|log| - 1]), log[|log| - 1])
  }

  ghost predicate Running(count: nat, l: Loop) {
    l.error == NoError && l.nextCommit < count
  }

  /** The channel's contract: each received result answers a request launched and not yet answered. */
  ghost predicate Legal(count: nat, base: int, log: seq<UploadResult>) {
    log == [] ||
    var init, last := log[..|log| - 1], log[|log| - 1];
    && Legal(count, base, init)
    && Running(count, ReceiveAll(count, base, init))
    && last.n in ReceiveAll(count, base, init).inFlight
  }

  ghost function Received(log: seq<UploadResult>): set<int> {
    if log == [] then {} else Received(log[..|log| - 1]) + {log[|log| - 1].n}
  }

  // ---------------------------------------------------------------------------
  // The window invariant
  // ---------------------------------------------------------------------------

  /** Every launched number is committed, completed out of order, or in flight, and just one of these. */
  ghost predicate Partition(count: nat, base: int, l: Loop) {
    && l.nextCommit <= l.nextLaunch <= count
    && base + l.nextCommit + 1 !in l.completed
    && (forall n :: n in l.completed ==> base + l.nextCommit < n <= base + l.nextLaunch)
    && (forall n :: n in l.inFlight <==> base + l.nextCommit < n <= base + l.nextLaunch && n !in l.completed)
  }

  /** The window bounds outstanding requests, not the span between commit and launch. */
  ghost predicate Window(count: nat, l: Loop, answered: nat) {
    && l.nextLaunch == (if count < UP_WINDOW + answered then count else UP_WINDOW + answered)
    && |l.inFlight| == l.nextLaunch - answered
  }

  ghost predicate Acked(base: int, l: Loop, acked: set<int>) {
    forall n :: n in acked <==> base < n <= base + l.nextCommit || n in l.completed
  }

  lemma StartInv(count: nat, base: int)
    ensures Partition(count, base, Start(count, base)) && Window(count, Start(count, base), 0)
  {
    assert FirstLaunches(base, 0) == {};
    assert FirstLaunches(base, 1) == {base + 1};
    assert FirstLaunches(base, 2) == {base + 1, base + 2};
    assert FirstLaunches(base, 3) == {base + 1, base + 2, base + 3};
  }

  lemma LegalSnoc(count: nat, base: int, log: seq<UploadResult>, r: UploadResult)
    requires Legal(count, base, log)
    requires Running(count, ReceiveAll(count, base, log)) && r.n in ReceiveAll(count, base, log).inFlight
    ensures Legal(count, base, log + [r])
    ensures ReceiveAll(count, base, log + [r]) == Receive(count, base, ReceiveAll(count, base, log), r)
  {
    var log' := log + [r];
    assert log'[..|log'| - 1] == log && log'[|log'| - 1] == r;
  }

  /** The loop state after an accepted result, field by field. */
  lemma Accepted(count: nat, base: int, log: seq<UploadResult>, l: Loop, r: UploadResult, l': Loop)
    requires Legal(count, base, log) && l == ReceiveAll(count, base, log)
    requires Running(count, l) && r.n in l.inFlight && Verdict(r) == NoError
    requires base + l'.nextCommit + 1 == Advance(base + l.nextCommit + 1, l.completed + {r.n}).0
    requires l'.completed == Advance(base + l.nextCommit + 1, l.completed + {r.n}).1
    requires (l'.nextLaunch, l'.inFlight) == LaunchNext(count, base, l.nextLaunch, l.inFlight - {r.n})
    requires l'.error == NoError
    ensures Legal(count, base, log + [r]) && ReceiveAll(count, base, log + [r]) == l'
  {
    LegalSnoc(count, base, log, r);
  }

  lemma ReceivePartition(count: nat, base: int, l: Loop, r: UploadResult)
    requires Partition(count, base, l)
    requires r.n in l.inFlight && Verdict(r) == NoError
    ensures Partition(count, base, Receive(count, base, l, r))
  {
    AdvanceConsumesRun(base + l.nextCommit + 1, l.completed + {r.n});
    var l' := Receive(count, base, l, r);
    assert l'.nextCommit > l.nextCommit ==> base + l'.nextCommit in l.completed + {r.n};
  }

  lemma ReceiveAcked(count: nat, base: int, l: Loop, acked: set<int>, r: UploadResult)
    requires Partition(count, base, l) && Acked(base, l, acked)
    requires r.n in l.inFlight && Verdict(r) == NoError
    ensures Acked(base, Receive(count, base, l, r), acked + {r.n})
  {
    AdvanceConsumesRun(base + l.nextCommit + 1, l.completed + {r.n});
  }

  lemma ReceiveWindow(count: nat, base: int, l: Loop, answered: nat, r: UploadResult)
    requires Partition(count, base, l) && Window(count, l, answered)
    requires r.n in l.inFlight && Verdict(r) == NoError
    ensures Window(count, Receive(count, base, l, r), answered + 1)
  {
    assert |l.inFlight - {r.n}| == |l.inFlight| - 1;
    assert base + l.nextLaunch + 1 !in l.inFlight;
  }

  /** For every order of results: a chunk is committed exactly when it and all before it are answered,
      and exactly min(3, unanswered) requests are in flight. */
  lemma {:induction false} LoopAfter(count: nat, base: int, log: seq<UploadResult>)
    requires Legal(count, base, log)
    requires ReceiveAll(count, base, log).error == NoError
    ensures Partition(count, base, ReceiveAll(count, base, log))
    ensures Window(count, ReceiveAll(count, base, log), |log|)
    ensures Acked(base, ReceiveAll(count, base, log), Received(log))
  {
    if log == [] {
      StartInv(count, base);
    } else {
      var init, last := log[..|log| - 1], log[|log| - 1];
      LoopAfter(count, base, init);
      var l := ReceiveAll(count, base, init);
      ReceivePartition(count, base, l, last);
      ReceiveWindow(count, base, l, |init|, last);
      ReceiveAcked(count, base, l, Received(init), last);
    }
  }

  /** No deadlock: a loop that is still running has a request to wait for. */
  lemma NeverWaitsOnNothing(count: nat, base: int, l: Loop, answered: nat)
    requires Partition(count, base, l) && Window(count, l, answered)
    ensures answered <= count
    ensures |l.inFlight| == if count - answered < UP_WINDOW then count - answered else UP_WINDOW
    ensures l.nextCommit < count ==> l.inFlight != {} && answered < count
    ensures l.nextCommit == count ==> answered == count
  {
    if l.nextCommit < count && l.nextLaunch == count {
      assert base + l.nextCommit + 1 in l.inFlight;
    }
    if l.nextCommit == count {
      assert l.inFlight == {} by {
        assert forall n :: n !in l.inFlight;
      }
    }
  }

  lemma CanReceive(count: nat, base: int, log: seq<UploadResult>, l: Loop)
    requires Legal(count, base, log) && l == ReceiveAll(count, base, log) && Running(count, l)
    ensures |log| < count && exists n :: n in l.inFlight
    ensures forall n :: n in l.inFlight || n in l.completed ==> n <= base + count
  {
    LoopAfter(count, base, log);
    NeverWaitsOnNothing(count, base, l, |log|);
  }

  /** A failed result freezes the commit point at the answered prefix. */
  lemma CommittedAtFailure(count: nat, base: int, log: seq<UploadResult>, r: UploadResult)
    requires Legal(count, base, log) && ReceiveAll(count, base, log).error == NoError
    requires Verdict(r) != NoError
    ensures ReceiveAll(count, base, log + [r]).error == Verdict(r)
    ensures Acked(base, ReceiveAll(count, base, log + [r]), Received(log))
  {
    LoopAfter(count, base, log);
    var log' := log + [r];
    assert log'[..|log'| - 1] == log && log'[|log'| - 1] == r;
  }

  ghost predicate SpecsOf(data: Bytes, base: int, specs: seq<UploadSpec>) {
    && |specs| == |Chop(data)|
    && forall k :: 0 <= k < |specs| ==>
         specs[k] == UploadSpec(base + k + 1, k * UPLOAD_BYTES, ChunkEnd(|data|, k))
  }

  /** `written` is exactly the byte length of the first k chunks, and all of the data once k is all chunks. */
  ghost predicate Committed(data: Bytes, k: nat, written: nat) {
    && k <= |Chop(data)|
    && written <= |data|
    && data[..written] == Flatten(Chop(data)[..k])
    && (k == |Chop(data)| <==> written == |data|)
  }

  // ---------------------------------------------------------------------------
  // The serial path
  // ---------------------------------------------------------------------------

  const SERIAL_BYTES: nat := 8 * 1024

  datatype Post = Post(n: int, body: Bytes)

  /** `posts` are the first chunks of the data in order, under consecutive numbers, and `written` bytes
      is exactly what they carry; each is full unless it ends the data. */
  ghost predicate SerialDone(data: Bytes, base: int, posts: seq<Post>, written: nat) {
    && written <= |data|
    && if posts == [] then written == 0
       else
         var before, last := posts[..|posts| - 1], posts[|posts| - 1];
         && |last.body| <= written && SerialDone(data, base, before, written - |last.body|)
         && last.n == base + |posts| && last.body == data[written - |last.body|..written]
         && 0 < |last.body| <= 8192 && (|last.body| == 8192 || written == |data|)
  }

  lemma SerialNext(data: Bytes, base: int, posts: seq<Post>, written: nat)
    requires SerialDone(data, base, posts, written) && written < |data|
    ensures var end := if written + SERIAL_BYTES > |data| then |data| else written + SERIAL_BYTES;
            SerialDone(data, base, posts + [Post(base + |posts| + 1, data[written..end])], end)
  {
    var end := if written + SERIAL_BYTES > |data| then |data| else written + SERIAL_BYTES;
    var longer := posts + [Post(base + |posts| + 1, data[written..end])];
    assert longer[..|longer| - 1] == posts;
  }

  /** The acknowledged chunks join up to the bytes counted as written. */
  lemma {:induction false} SerialCarries(data: Bytes, base: int, posts: seq<Post>, written: nat)
    requires SerialDone(data, base, posts, written)
    ensures Carried(posts) == data[..written]
  {
    if posts != [] {
      var last := posts[|posts| - 1];
      SerialCarries(data, base, posts[..|posts| - 1], written - |last.body|);
      assert data[..written] == data[..written - |last.body|] + data[written - |last.body|..written];
    }
  }

  function Carried(posts: seq<Post>): Bytes {
    if posts == [] then [] else Carried(posts[..|posts| - 1]) + posts[|posts| - 1].body
  }

  /** What the requests for a sequence number meet: the picks of its rounds and the end of its back-offs. */
  datatype Outside = Outside(rounds: int -> nat -> seq<Pick>, waits: int -> nat -> bool)

  function SerialCalls(o: Outside, n: int): Calls {
    Calls(Up, (k: nat) => Hedged(o.rounds(n)(k)), o.waits(n))
  }

  function SerialVerdict(o: Outside, n: int): WriteError {
    Verdict(UploadResult(n, Outcome(SerialCalls(o, n))))
  }

  // ---------------------------------------------------------------------------
  // The write loop
  // ---------------------------------------------------------------------------

  class ChunkRelayConn {
    var upSeq: int
    var upBytes: int
    var closed: bool

    constructor ()
      ensures upSeq == 0 && upBytes == 0 && !closed
    {
      upSeq, upBytes, closed := 0, 0, false;
    }

    /** One Write. `log` is the results received, in order; the request goroutines and the
        Worker choose which inFlight result comes next and what it says. */
    method WritePipelined(data: Bytes) returns (written: nat, error: WriteError, log: seq<UploadResult>)
      modifies this`upSeq, this`upBytes
      ensures written <= |data|
      ensures data == [] || closed ==>
                && written == 0 && log == [] && upSeq == old(upSeq) && upBytes == old(upBytes)
                && error == if data == [] then NoError else Closed
      ensures data != [] && !closed ==>
                && Legal(|Chop(data)|, old(upSeq), log)
                && error == ReceiveAll(|Chop(data)|, old(upSeq), log).error
                && Committed(data, ReceiveAll(|Chop(data)|, old(upSeq), log).nextCommit, written)
                && upSeq == old(upSeq) + ReceiveAll(|Chop(data)|, old(upSeq), log).nextCommit
                && upBytes == old(upBytes) + written
      ensures error == NoError ==> written == |data|
    {
      written, error, log := 0, NoError, [];
      if data == [] {
        return;
      }
      if closed {
        error := Closed;
        return;
      }
      written, error, log := Pipeline(data);
    }

    /** The loop that receives results, in whatever order they come. */
    method Pipeline(data: Bytes) returns (written: nat, error: WriteError, log: seq<UploadResult>)
      requires data != []
      modifies this`upSeq, this`upBytes
      ensures Legal(|Chop(data)|, old(upSeq), log)
      ensures error == ReceiveAll(|Chop(data)|, old(upSeq), log).error
      ensures Committed(data, ReceiveAll(|Chop(data)|, old(upSeq), log).nextCommit, written)
      ensures upSeq == old(upSeq) + ReceiveAll(|Chop(data)|, old(upSeq), log).nextCommit
      ensures upBytes == old(upBytes) + written
      ensures error == NoError ==> written == |data|
    {
      written, error, log := 0, NoError, [];
      ghost var count := |Chop(data)|;
      var baseSeq := upSeq;
      var specs := SpecsFor(data, baseSeq);
      var nextLaunch: nat, inFlight: set<int> := LaunchFirst(baseSeq, specs);
      var completed: set<int> := {};
      var nextCommit: nat := 0;
      while nextCommit < |specs|
        invariant Legal(count, baseSeq, log)
        invariant ReceiveAll(count, baseSeq, log) == Loop(nextLaunch, nextCommit, completed, inFlight, NoError)
        invariant upSeq == baseSeq + nextCommit && upBytes == old(upBytes) + written
        invariant Committed(data, nextCommit, written)
        invariant error == NoError
        decreases count - |log|
      {
        ghost var before := Loop(nextLaunch, nextCommit, completed, inFlight, NoError);
        ghost var log0 := log;
        CanReceive(count, baseSeq, log, before);
        var n :| n in inFlight;
        var reply: Reply := *;
        log := log + [UploadResult(n, reply)];

        error := Judge(n, reply);
        if error != NoError {
          LegalSnoc(count, baseSeq, log0, UploadResult(n, reply));
          return;
        }
        written, nextLaunch, nextCommit, completed, inFlight :=
          TakeAccepted(data, baseSeq, specs, log0, before, UploadResult(n, reply), written, nextLaunch, nextCommit,
                       completed, inFlight);
      }
    }

    /** An accepted result: the next chunk is launched, and what is contiguous now is committed. */
    method TakeAccepted(data: Bytes, baseSeq: int, specs: seq<UploadSpec>, ghost log: seq<UploadResult>,
                        ghost before: Loop, r: UploadResult, written0: nat, nextLaunch0: nat, nextCommit0: nat,
                        completed0: set<int>, inFlight0: set<int>)
      returns (written: nat, nextLaunch: nat, nextCommit: nat, completed: set<int>, inFlight: set<int>)
      requires SpecsOf(data, baseSeq, specs) && Committed(data, nextCommit0, written0)
      requires upSeq == baseSeq + nextCommit0
      requires before == Loop(nextLaunch0, nextCommit0, completed0, inFlight0, NoError)
      requires Legal(|specs|, baseSeq, log) && ReceiveAll(|specs|, baseSeq, log) == before
      requires Running(|specs|, before) && r.n in inFlight0 && Verdict(r) == NoError
      modifies this`upSeq, this`upBytes
      ensures Legal(|specs|, baseSeq, log + [r])
      ensures ReceiveAll(|specs|, baseSeq, log + [r]) == Loop(nextLaunch, nextCommit, completed, inFlight, NoError)
      ensures Committed(data, nextCommit, written) && upSeq == baseSeq + nextCommit
      ensures upBytes == old(upBytes) + written - written0
    {
      CanReceive(|specs|, baseSeq, log, before);
      completed := completed0 + {r.n};
      nextLaunch, inFlight := Refill(baseSeq, specs, nextLaunch0, inFlight0 - {r.n});
      written, nextCommit, completed := CommitReady(data, baseSeq, specs, written0, nextCommit0, completed);
      Accepted(|specs|, baseSeq, log, before, r, Loop(nextLaunch, nextCommit, completed, inFlight, NoError));
    }

    /** `Write`, the serial path: one chunk at a time, each acknowledged before the next is sent. `posts`
        are the chunks acknowledged. */
    method WriteSerial(data: Bytes, o: Outside) returns (written: nat, error: WriteError, ghost posts: seq<Post>)
      modifies this`upSeq, this`upBytes
      ensures SerialDone(data, old(upSeq), posts, written)
      ensures upSeq == old(upSeq) + |posts| && upBytes == old(upBytes) + written
      ensures forall n :: old(upSeq) < n <= upSeq ==> SerialVerdict(o, n) == NoError
      ensures data == [] || closed ==> posts == [] && error == if data == [] then NoError else Closed
      ensures data != [] && !closed ==>
                error == if written < |data| then SerialVerdict(o, upSeq + 1) else NoError
      ensures error == NoError <==> written == |data|
    {
      written, error, posts := 0, NoError, [];
      if data == [] {
        return;
      }
      if closed {
        error := Closed;
        return;
      }
      written, error, posts := SerialLoop(data, o);
    }

    method SerialLoop(data: Bytes, o: Outside) returns (written: nat, error: WriteError, ghost posts: seq<Post>)
      modifies this`upSeq, this`upBytes
      ensures SerialDone(data, old(upSeq), posts, written)
      ensures upSeq == old(upSeq) + |posts| && upBytes == old(upBytes) + written
      ensures forall n :: old(upSeq) < n <= upSeq ==> SerialVerdict(o, n) == NoError
      ensures error == if written < |data| then SerialVerdict(o, upSeq + 1) else NoError
      ensures error == NoError <==> written == |data|
    {
      written, error, posts := 0, NoError, [];
      while written < |data|
        invariant SerialDone(data, old(upSeq), posts, written)
        invariant upSeq == old(upSeq) + |posts| && upBytes == old(upBytes) + written
        invariant forall n :: old(upSeq) < n <= upSeq ==> SerialVerdict(o, n) == NoError
        invariant written <= |data| && error == NoError
        decreases |data| - written
      {
        error := RequestSerial(upSeq + 1, o);
        if error != NoError {
          return;
        }
        written, posts := CommitSerial(data, old(upSeq), posts, written);
      }
    }

    /** The retry loop of one chunk, and what its reply is worth. */
    method RequestSerial(n: int, o: Outside) returns (error: WriteError)
      ensures error == SerialVerdict(o, n)
    {
      var reply, requests := RequestWithRetry(SerialCalls(o, n));
      error := Judge(n, reply);
    }

    /** Count the chunk just acknowledged. */
    method CommitSerial(data: Bytes, ghost base: int, ghost posts: seq<Post>, written0: nat)
      returns (written: nat, ghost more: seq<Post>)
      requires SerialDone(data, base, posts, written0) && written0 < |data| && upSeq == base + |posts|
      modifies this`upSeq, this`upBytes
      ensures SerialDone(data, base, more, written) && |more| == |posts| + 1
      ensures written0 < written <= |data|
      ensures upSeq == old(upSeq) + 1 && upBytes == old(upBytes) + (written - written0)
    {
      var end := written0 + SERIAL_BYTES;
      if end > |data| {
        end := |data|;
      }
      SerialNext(data, base, posts, written0);
      upSeq := upSeq + 1;
      upBytes := upBytes + (end - written0);
      written, more := end, posts + [Post(upSeq, data[written0..end])];
    }

    /** Fill the window. */
    method LaunchFirst(baseSeq: int, specs: seq<UploadSpec>) returns (nextLaunch: nat, inFlight: set<int>)
      requires forall k :: 0 <= k < |specs| ==> specs[k].n == baseSeq + k + 1
      ensures Loop(nextLaunch, 0, {}, inFlight, NoError) == Start(|specs|, baseSeq)
    {
      nextLaunch, inFlight := 0, {};
      while nextLaunch < |specs| && nextLaunch < UP_WINDOW
        invariant nextLaunch <= |specs| && nextLaunch <= UP_WINDOW
        invariant inFlight == FirstLaunches(baseSeq, nextLaunch)
      {
        inFlight := inFlight + {specs[nextLaunch].n};
        nextLaunch := nextLaunch + 1;
      }
    }

    /** Put the next chunk in flight as soon as any answer arrives. */
    method Refill(baseSeq: int, specs: seq<UploadSpec>, nextLaunch0: nat, inFlight0: set<int>)
      returns (nextLaunch: nat, inFlight: set<int>)
      requires forall k :: 0 <= k < |specs| ==> specs[k].n == baseSeq + k + 1
      ensures (nextLaunch, inFlight) == LaunchNext(|specs|, baseSeq, nextLaunch0, inFlight0)
    {
      nextLaunch, inFlight := nextLaunch0, inFlight0;
      if nextLaunch < |specs| {
        inFlight := inFlight + {specs[nextLaunch].n};
        nextLaunch := nextLaunch + 1;
      }
    }

    method Judge(n: int, reply: Reply) returns (error: WriteError)
      ensures error == Verdict(UploadResult(n, reply))
    {
      if reply.err.Some? {
        return if TerminalSession(reply.err) then Eof else RequestFailed(reply.err.value);
      }
      if reply.status == 410 {
        return Eof;
      }
      if reply.status != 204 {
        return BadStatus(n, reply.status);
      }
      if reply.ack != Some(n) {
        return BadAck(n, reply.ack);
      }
      return NoError;
    }

    /** Commit every chunk that is now contiguous with the committed prefix. */
    method CommitReady(data: Bytes, baseSeq: int, specs: seq<UploadSpec>, written0: nat, nextCommit0: nat,
                       completed0: set<int>)
      returns (written: nat, nextCommit: nat, completed: set<int>)
      requires SpecsOf(data, baseSeq, specs)
      requires Committed(data, nextCommit0, written0)
      requires upSeq == baseSeq + nextCommit0
      requires forall m :: m in completed0 ==> m <= baseSeq + |specs|
      modifies this`upSeq, this`upBytes
      ensures baseSeq + nextCommit + 1 == Advance(baseSeq + nextCommit0 + 1, completed0).0
      ensures completed == Advance(baseSeq + nextCommit0 + 1, completed0).1
      ensures Committed(data, nextCommit, written)
      ensures upSeq == baseSeq + nextCommit
      ensures upBytes == old(upBytes) + written - written0
    {
      written, nextCommit, completed := written0, nextCommit0, completed0;
      while nextCommit < |specs|
        invariant nextCommit0 <= nextCommit <= |specs|
        invariant Advance(baseSeq + nextCommit + 1, completed) == Advance(baseSeq + nextCommit0 + 1, completed0)
        invariant forall m :: m in completed ==> m <= baseSeq + |specs|
        invariant upSeq == baseSeq + nextCommit
        invariant upBytes == old(upBytes) + written - written0
        invariant Committed(data, nextCommit, written)
      {
        var spec := specs[nextCommit];
        if spec.n !in completed {
          break;
        }
        completed := completed - {spec.n};
        CommitOne(data, nextCommit, written);
        upSeq := spec.n;
        upBytes := upBytes + (spec.end - spec.start);
        written := spec.end;
        nextCommit := nextCommit + 1;
      }
    }

    method SpecsFor(data: Bytes, baseSeq: int) returns (specs: seq<UploadSpec>)
      ensures SpecsOf(data, baseSeq, specs)
    {
      specs := [];
      var start := 0;
      while start < |data|
        invariant start == |specs| * UPLOAD_BYTES
        invariant |specs| <= |Chop(data)|
        invariant |specs| == |Chop(data)| <==> start >= |data|
        invariant forall k :: 0 <= k < |specs| ==>
                    specs[k] == UploadSpec(baseSeq + k + 1, k * UPLOAD_BYTES, ChunkEnd(|data|, k))
        decreases |data| - start
      {
        ChunkIsSlice(data, |specs|);
        var end := start + UPLOAD_BYTES;
        if end > |data| {
          end := |data|;
        }
        specs := specs + [UploadSpec(baseSeq + |specs| + 1, start, end)];
        start := start + UPLOAD_BYTES;
      }
    }
  }

  lemma CommitOne(data: Bytes, k: nat, written: nat)
    requires k < |Chop(data)|
    requires Committed(data, k, written)
    ensures written == k * UPLOAD_BYTES
    ensures Committed(data, k + 1, ChunkEnd(|data|, k))
  {
    ChunkIsSlice(data, k);
    PrefixBytes(data, k);
    assert Chop(data)[..k + 1] == Chop(data)[..k] + [Chop(data)[k]];
    FlattenSnoc(Chop(data)[..k], Chop(data)[k]);
    assert data[..written] + data[k * UPLOAD_BYTES..ChunkEnd(|data|, k)] == data[..ChunkEnd(|data|, k)];
  }

  lemma {:induction false} PrefixBytes(data: Bytes, k: nat)
    requires k < |Chop(data)|
    ensures |Flatten(Chop(data)[..k])| == k * UPLOAD_BYTES
  {
    if k > 0 {
      PrefixBytes(data, k - 1);
      ChopShape(data);
      assert Chop(data)[..k] == Chop(data)[..k - 1] + [Chop(data)[k - 1]];
      FlattenSnoc(Chop(data)[..k - 1], Chop(data)[k - 1]);
    }
  }
}
