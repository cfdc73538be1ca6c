/**
 Re-encryption of an obfuscated connection between a client and the relay
 (`prepareOutboundRequest`, `generateRelayInit`, `chainStreams`,
 native/tgwsproxy/mtproxyfrontend/session.go; native/tgwsproxy/worker_reencrypt.go).

 The block cipher and the hash are arbitrary functions, random bytes are an input: each element of
 `random` is what one read of the random source returns, and reading fails when they are used up.
 */
module Reencryption {
  import opened ByteStreams
  import opened CtrStream
  import opened ObfuscatedInit

  type Hash = Bytes -> Bytes

  const ATTEMPTS: nat := 1024

  // ---------------------------------------------------------------------------
  // Generating the init for the relay
  // ---------------------------------------------------------------------------

  type Candidate = c: Bytes | |c| == INIT_LENGTH witness Zeros(INIT_LENGTH)

  type Free = b: Bytes | |b| == 2 witness [0, 0]

  function FirstAllowed(random: seq<Candidate>, attempts: nat): Option<Candidate> {
    if attempts == 0 || random == [] then None
    else if Forbidden(random[0]) then FirstAllowed(random[1..], attempts - 1)
    else Some(random[0])
  }

  function FirstUnreserved(random: seq<Candidate>): Option<Candidate> {
    if random == [] then None
    else if Reserved(random[0]) then FirstUnreserved(random[1..])
    else Some(random[0])
  }

  /** Generation fails exactly when every candidate it may look at is forbidden. */
  lemma {:induction false} FirstAllowedIs(random: seq<Candidate>, attempts: nat)
    ensures match FirstAllowed(random, attempts)
            case None => forall k :: 0 <= k < |random| && k < attempts ==> Forbidden(random[k])
            case Some(c) => exists k :: 0 <= k < |random| && k < attempts && c == random[k] && !Forbidden(c)
                                        && forall j :: 0 <= j < k ==> Forbidden(random[j])
    decreases |random|
  {
    if attempts > 0 && random != [] && Forbidden(random[0]) {
      FirstAllowedIs(random[1..], attempts - 1);
      match FirstAllowed(random[1..], attempts - 1)
      case None => assert forall k :: 1 <= k < |random| && k < attempts ==> random[k] == random[1..][k - 1];
      case Some(c) =>
        var k :| 0 <= k < |random[1..]| && k < attempts - 1 && c == random[1..][k] && !Forbidden(c)
                 && forall j :: 0 <= j < k ==> Forbidden(random[1..][j]);
        assert forall j :: 1 <= j < k + 1 ==> random[j] == random[1..][j - 1];
        assert random[k + 1] == c;
    }
  }

  /** The worker's generator looks on until there is a start that is not reserved. */
  lemma {:induction false} FirstUnreservedIs(random: seq<Candidate>)
    ensures match FirstUnreserved(random)
            case None => forall k :: 0 <= k < |random| ==> Reserved(random[k])
            case Some(c) => exists k :: 0 <= k < |random| && c == random[k] && !Reserved(c)
                                        && forall j :: 0 <= j < k ==> Reserved(random[j])
    decreases |random|
  {
    if random != [] && Reserved(random[0]) {
      FirstUnreservedIs(random[1..]);
      match FirstUnreserved(random[1..])
      case None => assert forall k :: 1 <= k < |random| ==> random[k] == random[1..][k - 1];
      case Some(c) =>
        var k :| 0 <= k < |random[1..]| && c == random[1..][k] && !Reserved(c)
                 && forall j :: 0 <= j < k ==> Reserved(random[1..][j]);
        assert forall j :: 1 <= j < k + 1 ==> random[j] == random[1..][j - 1];
        assert random[k + 1] == c;
    }
  }

  function RelayInit(cipher: Cipher, candidate: Candidate, proto: nat, dc: int, free: Free): (init: Bytes)
    ensures |init| == INIT_LENGTH
  {
    Seal(cipher, candidate[..56], MakeTail(proto, dc, free))
  }

  /** The relay reads back the protocol and the data centre, and sees the random start it was given. */
  lemma RelayInitDecodes(cipher: Cipher, candidate: Candidate, proto: nat, dc: int, free: Free)
    requires ValidProto(proto) && -32768 <= dc < 32768
    ensures var init := RelayInit(cipher, candidate, proto, dc, free);
            && init[..56] == candidate[..56]
            && TailProto(Open(cipher, init)) == proto && TailDC(Open(cipher, init)) == dc
            && DecodedDC(cipher, init) == DecodeTail(proto, dc)
            && DecodedProto(cipher, init) == Some(proto)
            && (Forbidden(init) <==> Forbidden(candidate))
  {
    var init := RelayInit(cipher, candidate, proto, dc, free);
    OpenSeal(cipher, candidate[..56], MakeTail(proto, dc, free));
    assert Pow256(4) == 0x1_0000_0000;
    MakeTailRoundTrip(proto, dc, free);
    DecodedIs(cipher, init, proto, dc);
    SameStart(init, candidate);
  }

  lemma SameStart(a: Bytes, b: Bytes)
    requires |a| >= 56 && |b| >= 56 && a[..56] == b[..56]
    ensures Forbidden(a) <==> Forbidden(b)
  {
    assert a[..4] == a[..56][..4] == b[..56][..4] == b[..4];
    assert a[4..8] == a[..56][4..8] == b[..56][4..8] == b[4..8];
    assert a[0] == a[..56][0] == b[..56][0] == b[0];
  }

  /** The init as it is on the wire is the plain one with its last eight bytes encrypted in place. */
  lemma SealedInPlace(cipher: Cipher, plain: Bytes)
    requires |plain| == INIT_LENGTH
    ensures plain[..56] + Xor(SenderStream(cipher, plain), 0, plain)[56..64] == Seal(cipher, plain[..56], plain[56..])
  {
    var ks := SenderStream(cipher, plain);
    SenderOfPrefix(cipher, plain, plain[..56]);
    XorCut(ks, 0, plain, 56);
    assert Xor(ks, 0, plain)[56..64] == Xor(ks, 0, plain)[56..];
  }

  method GenerateRelayInit(cipher: Cipher, random: seq<Candidate>, proto: nat, signedDC: int)
    returns (wire: Option<Bytes>, encryptor: Stream?, decryptor: Stream?)
    ensures match FirstAllowed(random, 1024)
            case None => wire == None
            case Some(c) => wire == Some(RelayInit(cipher, c, proto, signedDC, c[62..64]))
    ensures wire.Some? ==>
              && |wire.value| == INIT_LENGTH
              && encryptor != null && fresh(encryptor) && decryptor != null && fresh(decryptor)
              && encryptor != decryptor
              && encryptor.ks == SenderStream(cipher, wire.value) && encryptor.pos == 64
              && decryptor.ks == ReceiverStream(cipher, wire.value) && decryptor.pos == 0
  {
    encryptor, decryptor := null, null;
    var attempt := 0;
    while attempt < ATTEMPTS && attempt < |random| && Forbidden(random[attempt])
      invariant attempt <= ATTEMPTS && attempt <= |random|
      invariant FirstAllowed(random, ATTEMPTS) == FirstAllowed(random[attempt..], ATTEMPTS - attempt)
    {
      attempt := attempt + 1;
    }
    if attempt == ATTEMPTS || attempt == |random| {
      return None, null, null;
    }
    ghost var candidate := random[attempt];
    var relayPlain := PutTail(random[attempt], proto, signedDC);
    encryptor := new Stream(cipher(relayPlain[8..40], relayPlain[40..56]));
    var reversedRelay := ReverseCopy(relayPlain[8..56]);
    decryptor := new Stream(cipher(reversedRelay[..32], reversedRelay[32..]));
    var encrypted := encryptor.XORKeyStream(relayPlain);
    SealedInPlace(cipher, relayPlain);
    wire := Some(relayPlain[..56] + encrypted[56..64]);
    SenderOfPrefix(cipher, wire.value, relayPlain);
  }

  method PutTail(candidate: Candidate, proto: nat, signedDC: int) returns (plain: Bytes)
    ensures |plain| == INIT_LENGTH && plain[..56] == candidate[..56]
    ensures plain[56..] == MakeTail(proto, signedDC, candidate[62..64])
  {
    plain := candidate[..56] + ToLE(proto, 4) + candidate[60..];
    plain := plain[..60] + ToLE(Unsigned16(signedDC), 2) + plain[62..];
  }

  method ReverseCopy(value: Bytes) returns (out: Bytes)
    ensures out == Reverse(value)
  {
    out := [];
    for i := 0 to |value|
      invariant out == Reverse(value)[..i]
    {
      out := out + [value[|value| - 1 - i]];
    }
  }

  /** The worker's generator: its own list of reserved starts, as many candidates as it takes, and two
      more random bytes for the free part of the tail. */
  method GenerateRelayObfsInit(cipher: Cipher, random: seq<Candidate>, free: Option<Free>, proto: nat, signedDC: int)
    returns (r: Option<Bytes>)
    ensures r == if !ValidProto(proto) || FirstUnreserved(random) == None || free == None then None
                 else Some(RelayInit(cipher, FirstUnreserved(random).value, proto, signedDC, free.value))
  {
    if !ValidProto(proto) {
      return None;
    }
    var k := 0;
    while k < |random| && Reserved(random[k])
      invariant k <= |random|
      invariant FirstUnreserved(random) == FirstUnreserved(random[k..])
    {
      k := k + 1;
    }
    if k == |random| || free == None {
      return None;
    }
    var init := SealTail(cipher, random[k], MakeTail(proto, signedDC, free.value));
    r := Some(init);
  }

  method SealTail(cipher: Cipher, random: Candidate, plainTail: Bytes) returns (init: Bytes)
    requires |plainTail| == 8
    ensures init == Seal(cipher, random[..56], plainTail)
  {
    ghost var ks := SenderStream(cipher, random);
    SenderOfPrefix(cipher, random, random[..56]);
    var stream := new Stream(cipher(random[8..40], random[40..56]));
    var keystream := stream.XORKeyStream(Zeros(INIT_LENGTH));
    var sealed := [];
    for i := 0 to 8
      invariant sealed == Xor(ks, 56, plainTail)[..i]
    {
      KeystreamByte(ks, INIT_LENGTH, 56 + i);
      XorSwap(keystream[56 + i], plainTail[i]);
      sealed := sealed + [keystream[56 + i] ^ plainTail[i]];
    }
    init := random[..56] + sealed;
  }

  // ---------------------------------------------------------------------------
  // Re-encrypting a stream
  // ---------------------------------------------------------------------------

  /** One chunk through a decryptor and an encryptor that have come to the given positions. */
  function Recrypt(ksIn: Keystream, posIn: nat, ksOut: Keystream, posOut: nat, chunk: Bytes): (out: Bytes)
    ensures |out| == |chunk|
  {
    Xor(ksOut, posOut, Xor(ksIn, posIn, chunk))
  }

  function RecryptAll(ksIn: Keystream, posIn: nat, ksOut: Keystream, posOut: nat, chunks: seq<Bytes>): seq<Bytes>
    decreases |chunks|
  {
    if chunks == [] then []
    else
      [Recrypt(ksIn, posIn, ksOut, posOut, chunks[0])]
      + RecryptAll(ksIn, posIn + |chunks[0]|, ksOut, posOut + |chunks[0]|, chunks[1..])
  }

  /** However the stream is cut, the chunks re-encrypted one by one are the stream re-encrypted. */
  lemma {:induction false} AnyCut(ksIn: Keystream, posIn: nat, ksOut: Keystream, posOut: nat, chunks: seq<Bytes>)
    ensures Flatten(RecryptAll(ksIn, posIn, ksOut, posOut, chunks))
         == Recrypt(ksIn, posIn, ksOut, posOut, Flatten(chunks))
    decreases |chunks|
  {
    if chunks != [] {
      var first, rest := chunks[0], Flatten(chunks[1..]);
      AnyCut(ksIn, posIn + |first|, ksOut, posOut + |first|, chunks[1..]);
      XorAppend(ksIn, posIn, first, rest);
      XorAppend(ksOut, posOut, Xor(ksIn, posIn, first), Xor(ksIn, posIn + |first|, rest));
      var out := RecryptAll(ksIn, posIn, ksOut, posOut, chunks);
      assert out[1..] == RecryptAll(ksIn, posIn + |first|, ksOut, posOut + |first|, chunks[1..]);
    }
  }

  /** What the sender encrypted, the receiver decrypts. */
  lemma PlaintextPreserved(ksIn: Keystream, posIn: nat, ksOut: Keystream, posOut: nat, plain: Bytes, chunks: seq<Bytes>)
    requires Flatten(chunks) == Xor(ksIn, posIn, plain)
    ensures Xor(ksOut, posOut, Flatten(RecryptAll(ksIn, posIn, ksOut, posOut, chunks))) == plain
  {
    AnyCut(ksIn, posIn, ksOut, posOut, chunks);
    XorTwice(ksIn, posIn, plain);
    XorTwice(ksOut, posOut, plain);
  }

  // ---------------------------------------------------------------------------
  // The copy loop of a bridge
  // ---------------------------------------------------------------------------

  datatype ReadEnd = More | AtEof | Failed

  /** One turn of the loop: what Read returned, and how many bytes the destination takes before a write
      fails, if one does; `cancelled` is whether the bridge was over by then. */
  datatype Turn = Turn(data: Bytes, end: ReadEnd, accepts: Option<nat>, cancelled: bool)

  datatype Ending = Ongoing | Eof | Cancelled | WriteError | ReadError

  predicate WriteFails(turn: Turn) {
    turn.data != [] && turn.accepts.Some?
  }

  function Accepted(turn: Turn): (n: nat)
    requires WriteFails(turn)
    ensures n <= |turn.data|
  {
    if turn.accepts.value < |turn.data| then turn.accepts.value else |turn.data|
  }

  function EndOf(turn: Turn): Ending {
    if WriteFails(turn) then (if turn.cancelled then Cancelled else WriteError)
    else match turn.end
         case More => Ongoing
         case AtEof => Eof
         case Failed => if turn.cancelled then Cancelled else ReadError
  }

  /** What the destination got, the bytes and chunks counted, and why the loop ended. */
  datatype Copy = Copy(sent: Bytes, bytes: nat, chunks: nat, reason: Ending)

  /** One turn, given its data re-encrypted. */
  function CopyOne(done: Copy, turn: Turn, out: Bytes): Copy
    requires |out| == |turn.data|
  {
    if WriteFails(turn) then Copy(done.sent + out[..Accepted(turn)], done.bytes, done.chunks, EndOf(turn))
    else
      Copy(done.sent + out, done.bytes + |out|, done.chunks + (if out == [] then 0 else 1), EndOf(turn))
  }

  /** The loop from turn k on. */
  function CopyFrom(ksIn: Keystream, posIn: nat, ksOut: Keystream, posOut: nat, turns: seq<Turn>, k: nat, done: Copy)
    : Copy
    requires k <= |turns|
    decreases |turns| - k
  {
    if k == |turns| then done
    else
      var n := |turns[k].data|;
      var next := CopyOne(done, turns[k], Recrypt(ksIn, posIn, ksOut, posOut, turns[k].data));
      if next.reason != Ongoing then next else CopyFrom(ksIn, posIn + n, ksOut, posOut + n, turns, k + 1, next)
  }

  const NothingCopied := Copy([], 0, 0, Ongoing)

  /** What is read until a turn ends the loop, and whether that turn is a failed write. */
  function ReadFrom(turns: seq<Turn>, k: nat): Bytes
    requires k <= |turns|
    decreases |turns| - k
  {
    if k == |turns| then []
    else if EndOf(turns[k]) != Ongoing then turns[k].data
    else turns[k].data + ReadFrom(turns, k + 1)
  }

  predicate EndsInWrite(turns: seq<Turn>, k: nat)
    requires k <= |turns|
    decreases |turns| - k
  {
    k < |turns| && if EndOf(turns[k]) != Ongoing then WriteFails(turns[k]) else EndsInWrite(turns, k + 1)
  }

  lemma RecryptAppend(ksIn: Keystream, posIn: nat, ksOut: Keystream, posOut: nat, a: Bytes, b: Bytes)
    ensures Recrypt(ksIn, posIn, ksOut, posOut, a + b)
         == Recrypt(ksIn, posIn, ksOut, posOut, a) + Recrypt(ksIn, posIn + |a|, ksOut, posOut + |a|, b)
  {
    XorAppend(ksIn, posIn, a, b);
    XorAppend(ksOut, posOut, Xor(ksIn, posIn, a), Xor(ksIn, posIn + |a|, b));
  }

  /** `more` bytes were to arrive behind what had arrived: a prefix of them did, at least those counted, and
      all of them were counted unless a write failed. */
  ghost predicate Arrives(done: Copy, more: Bytes, c: Copy, failed: bool) {
    && c.sent <= done.sent + more && done.bytes <= c.bytes && c.bytes - done.bytes <= |c.sent| - |done.sent|
    && (!failed ==> c.sent == done.sent + more && c.bytes - done.bytes == |more|)
  }

  lemma OneArrives(done: Copy, turn: Turn, out: Bytes)
    requires |out| == |turn.data|
    ensures Arrives(done, out, CopyOne(done, turn, out), WriteFails(turn))
  {
  }

  lemma ArrivesThen(done: Copy, out: Bytes, next: Copy, rest: Bytes, c: Copy, failed: bool)
    requires Arrives(done, out, next, false) && Arrives(next, rest, c, failed)
    ensures Arrives(done, out + rest, c, failed)
  {
    ConcatAssoc(done.sent, out, rest);
  }

  /** However reads and writes go, what arrives is a prefix of what was read, re-encrypted, and holds all that
      was counted; unless a write failed it is all of it. */
  lemma {:induction false} CopyArrives(ksIn: Keystream, posIn: nat, ksOut: Keystream, posOut: nat,
                                       turns: seq<Turn>, k: nat, done: Copy)
    requires k <= |turns|
    ensures Arrives(done, Recrypt(ksIn, posIn, ksOut, posOut, ReadFrom(turns, k)),
                    CopyFrom(ksIn, posIn, ksOut, posOut, turns, k, done), EndsInWrite(turns, k))
    decreases |turns| - k
  {
    if k < |turns| {
      var turn, n := turns[k], |turns[k].data|;
      var out := Recrypt(ksIn, posIn, ksOut, posOut, turn.data);
      var next := CopyOne(done, turn, out);
      OneArrives(done, turn, out);
      if EndOf(turn) == Ongoing {
        var rest := ReadFrom(turns, k + 1);
        CopyArrives(ksIn, posIn + n, ksOut, posOut + n, turns, k + 1, next);
        RecryptAppend(ksIn, posIn, ksOut, posOut, turn.data, rest);
        ArrivesThen(done, out, next, Recrypt(ksIn, posIn + n, ksOut, posOut + n, rest),
                    CopyFrom(ksIn, posIn + n, ksOut, posOut + n, turns, k + 1, next), EndsInWrite(turns, k + 1));
      }
    }
  }

  /** So what the other side decrypts is a prefix of the plaintext, and all that was read of it unless a write
      failed. */
  lemma CopyDecrypts(ksIn: Keystream, posIn: nat, ksOut: Keystream, posOut: nat, plain: Bytes, turns: seq<Turn>)
    requires ReadFrom(turns, 0) <= Xor(ksIn, posIn, plain)
    ensures var c := CopyFrom(ksIn, posIn, ksOut, posOut, turns, 0, NothingCopied);
            && c.bytes <= |c.sent| <= |plain| && Xor(ksOut, posOut, c.sent) == plain[..|c.sent|]
            && (!EndsInWrite(turns, 0) ==> c.bytes == |c.sent| == |ReadFrom(turns, 0)|)
  {
    var read, c := ReadFrom(turns, 0), CopyFrom(ksIn, posIn, ksOut, posOut, turns, 0, NothingCopied);
    CopyArrives(ksIn, posIn, ksOut, posOut, turns, 0, NothingCopied);
    assert NothingCopied.sent + Recrypt(ksIn, posIn, ksOut, posOut, read) == Recrypt(ksIn, posIn, ksOut, posOut, read);
    PrefixDecrypts(ksIn, posIn, ksOut, posOut, plain, read, c.sent);
  }

  lemma PrefixDecrypts(ksIn: Keystream, posIn: nat, ksOut: Keystream, posOut: nat, plain: Bytes,
                       read: Bytes, sent: Bytes)
    requires read <= Xor(ksIn, posIn, plain) && sent <= Recrypt(ksIn, posIn, ksOut, posOut, read)
    ensures |sent| <= |plain| && Xor(ksOut, posOut, sent) == plain[..|sent|]
  {
    var stream := Recrypt(ksIn, posIn, ksOut, posOut, read);
    XorCut(ksIn, posIn, plain, |read|);
    XorTwice(ksIn, posIn, plain[..|read|]);
    XorTwice(ksOut, posOut, plain[..|read|]);
    XorCut(ksOut, posOut, stream, |sent|);
    assert sent == stream[..|sent|];
  }

  /** A turn after which the loop goes on: its data, if any, is written, and its read did not end the source. */
  ghost predicate GoesOn(turn: Turn) {
    turn.end == More && (turn.data == [] || turn.accepts == None)
  }

  /** How a turn ends the loop; the end of the source is no error even if the bridge is over, and a failed
      write comes before whatever ended the read. */
  ghost predicate EndsLoop(turn: Turn, reason: Ending) {
    if turn.data != [] && turn.accepts.Some? then reason == if turn.cancelled then Cancelled else WriteError
    else if turn.end == AtEof then reason == Eof
    else turn.end == Failed && reason == if turn.cancelled then Cancelled else ReadError
  }

  function Filled(turns: seq<Turn>): nat {
    if turns == [] then 0 else (if turns[0].data == [] then 0 else 1) + Filled(turns[1..])
  }

  /** The first turn that does not go on ends the loop, for its own reason, and each chunk before it that was
      not empty counts; the chunk of that turn counts if it was written. */
  lemma {:induction false} CopyEnds(ksIn: Keystream, posIn: nat, ksOut: Keystream, posOut: nat,
                                    turns: seq<Turn>, k: nat, done: Copy) returns (end: nat)
    requires k <= |turns| && done.reason == Ongoing
    ensures k <= end <= |turns| && forall i :: k <= i < end ==> GoesOn(turns[i])
    ensures var c := CopyFrom(ksIn, posIn, ksOut, posOut, turns, k, done);
            if end == |turns| then c.reason == Ongoing && c.chunks == done.chunks + Filled(turns[k..])
            else
              && EndsLoop(turns[end], c.reason)
              && c.chunks == done.chunks + Filled(turns[k..end])
                             + (if turns[end].data == [] || turns[end].accepts.Some? then 0 else 1)
    decreases |turns| - k
  {
    end := k;
    if k < |turns| {
      var n := |turns[k].data|;
      var next := CopyOne(done, turns[k], Recrypt(ksIn, posIn, ksOut, posOut, turns[k].data));
      if GoesOn(turns[k]) {
        end := CopyEnds(ksIn, posIn + n, ksOut, posOut + n, turns, k + 1, next);
        assert turns[k..][1..] == turns[k + 1..];
        assert turns[k..end][1..] == turns[k + 1..end];
      }
    }
  }

  /** `chainStreams`: a transform owns a decrypting and an encrypting stream. */
  class StreamTransform {
    const decryptor: Stream
    const encryptor: Stream

    constructor (decryptor: Stream, encryptor: Stream)
      ensures this.decryptor == decryptor && this.encryptor == encryptor
    {
      this.decryptor, this.encryptor := decryptor, encryptor;
    }

    method Apply(chunk: Bytes) returns (out: Bytes)
      requires decryptor != encryptor
      modifies decryptor`pos, encryptor`pos
      ensures out == Recrypt(decryptor.ks, old(decryptor.pos), encryptor.ks, old(encryptor.pos), chunk)
      ensures decryptor.pos == old(decryptor.pos) + |chunk| && encryptor.pos == old(encryptor.pos) + |chunk|
    {
      var plain := decryptor.XORKeyStream(chunk);
      out := encryptor.XORKeyStream(plain);
    }

    /** The copy loop of a bridge. */
    method CopyTransformed(turns: seq<Turn>) returns (sent: Bytes, bytes: nat, chunks: nat, reason: Ending)
      requires decryptor != encryptor
      modifies decryptor`pos, encryptor`pos
      ensures Copy(sent, bytes, chunks, reason)
           == CopyFrom(decryptor.ks, old(decryptor.pos), encryptor.ks, old(encryptor.pos), turns, 0,
                       Copy([], 0, 0, Ongoing))
    {
      sent, bytes, chunks, reason := [], 0, 0, Ongoing;
      ghost var whole := CopyFrom(decryptor.ks, decryptor.pos, encryptor.ks, encryptor.pos, turns, 0, NothingCopied);
      for k := 0 to |turns|
        invariant reason == Ongoing
        invariant CopyFrom(decryptor.ks, decryptor.pos, encryptor.ks, encryptor.pos, turns, k,
                           Copy(sent, bytes, chunks, Ongoing)) == whole
      {
        var turn := turns[k];
        if |turn.data| > 0 {
          var out := Apply(turn.data);
          if turn.accepts.Some? {
            sent := sent + out[..Accepted(turn)];
            reason := if turn.cancelled then Cancelled else WriteError;
            return;
          }
          sent, bytes, chunks := sent + out, bytes + |out|, chunks + 1;
        } else {
          assert sent + Recrypt(decryptor.ks, decryptor.pos, encryptor.ks, encryptor.pos, turn.data) == sent;
        }
        if turn.end != More {
          reason := if turn.end == AtEof then Eof else if turn.cancelled then Cancelled else ReadError;
          return;
        }
      }
    }
  }

  // ---------------------------------------------------------------------------
  // Admitting a client
  // ---------------------------------------------------------------------------

  datatype Error = InvalidSecret | HandshakeRead | HttpTransport | UnsupportedTransport | InvalidDC
    | RelayInitGeneration

  /** `dc`: the data centre; `relayDC`: the number the relay is told; `signedDC`: the client's own. */
  datatype Target = Target(proto: nat, dc: int, relayDC: int, signedDC: int, isTest: bool)

  datatype Admission = Refused(error: Error) | Admitted(target: Target)

  predicate IsHTTP(data: Bytes) {
    |data| >= 4 && (data[..4] == GET || data[..4] == POST || data[..4] == HEAD || data[..4] == OPTI)
  }

  /** The keys of the front end's clients are mixed with the shared secret. */
  function Keyed(cipher: Cipher, hash: Hash, secret: Bytes): (keyed: Cipher)
    ensures forall key, iv :: keyed(key, iv) == cipher(hash(key + secret), iv)
  {
    (prekey: Bytes, iv: Bytes) => cipher(hash(prekey + secret), iv)
  }

  function Admit(keyed: Cipher, secret: Option<Bytes>, handshake: Option<Candidate>, forceTest: bool): Admission {
    if secret == None || |secret.value| != 16 then Refused(InvalidSecret)
    else if handshake == None then Refused(HandshakeRead)
    else if IsHTTP(handshake.value) then Refused(HttpTransport)
    else AdmitTail(Open(keyed, handshake.value), forceTest)
  }

  function AdmitTail(tail: Bytes, forceTest: bool): Admission
    requires |tail| == 8
  {
    if !ValidProto(TailProto(tail)) then Refused(UnsupportedTransport)
    else AdmitDC(TailProto(tail), TailDC(tail), forceTest)
  }

  function AdmitDC(proto: nat, signedDC: int, forceTest: bool): Admission {
    var dc := if signedDC < 0 then -signedDC else signedDC;
    var test := dc >= 10000;
    var number := if test then dc - 10000 else dc;
    var relayDC := if !test then signedDC else if signedDC < 0 then -number else number;
    if ValidDC(number) then Admitted(Target(proto, number, relayDC, signedDC, forceTest || test))
    else Refused(InvalidDC)
  }

  /** A client is admitted for exactly the numbers +-n and +-(10000 + n) of the known data centres n;
      the relay is told n with the sign the client gave. */
  lemma Normalised(proto: nat, signedDC: int, forceTest: bool)
    ensures var a := AdmitDC(proto, signedDC, forceTest);
            && (a.Admitted? <==> exists n :: ValidDC(n) && (signedDC == n || signedDC == -n
                                             || signedDC == 10000 + n || signedDC == -(10000 + n)))
            && (a.Admitted? ==>
                  && ValidDC(a.target.dc)
                  && a.target.relayDC == (if signedDC < 0 then -a.target.dc else a.target.dc)
                  && (signedDC == a.target.relayDC
                      || signedDC == a.target.relayDC + (if signedDC < 0 then -10000 else 10000))
                  && (a.target.isTest <==> forceTest || signedDC != a.target.relayDC))
  {
    var dc := if signedDC < 0 then -signedDC else signedDC;
    assert ValidDC(dc) || !ValidDC(dc);
    assert ValidDC(dc - 10000) || !ValidDC(dc - 10000);
  }

  /** "GET ", "POST", "HEAD" or "OPTI": the start of a request that is no handshake. */
  ghost predicate StartsHTTP(data: Bytes) {
    |data| >= 4 && data[..4] in {[0x47, 0x45, 0x54, 0x20], [0x50, 0x4F, 0x53, 0x54], [0x48, 0x45, 0x41, 0x44],
                                 [0x4F, 0x50, 0x54, 0x49]}
  }

  ghost predicate KnownNumber(signedDC: int) {
    (if signedDC < 0 then -signedDC else signedDC) in {1, 2, 3, 4, 5, 203, 10001, 10002, 10003, 10004, 10005, 10203}
  }

  lemma KnownAdmitted(proto: nat, signedDC: int, forceTest: bool)
    ensures var a := AdmitDC(proto, signedDC, forceTest);
            && (a.Admitted? <==> KnownNumber(signedDC)) && (a == Refused(InvalidDC) <==> !KnownNumber(signedDC))
            && (a.Admitted? ==> a.target.proto == proto && a.target.signedDC == signedDC)
  {
  }

  /** Which clients are refused, why, and what an admitted one gets: `tail` is what its handshake opens to.
      An earlier reason hides the later ones. */
  ghost predicate RightAdmission(a: Admission, secret: Option<Bytes>, handshake: Option<Candidate>, tail: Bytes)
    requires |tail| == 8
  {
    var secretOk := secret.Some? && |secret.value| == 16;
    var isRead := secretOk && handshake.Some?;
    var noHttp := isRead && !StartsHTTP(handshake.value);
    var protoOk := noHttp && TailProto(tail) in {0xEFEFEFEF, 0xEEEEEEEE, 0xDDDDDDDD};
    && (a == Refused(InvalidSecret) <==> !secretOk)
    && (a == Refused(HandshakeRead) <==> secretOk && !isRead)
    && (a == Refused(HttpTransport) <==> isRead && !noHttp)
    && (a == Refused(UnsupportedTransport) <==> noHttp && !protoOk)
    && (a == Refused(InvalidDC) <==> protoOk && !KnownNumber(TailDC(tail)))
    && (a.Admitted? <==> protoOk && KnownNumber(TailDC(tail)))
    && (a.Admitted? ==> a.target.proto == TailProto(tail) && a.target.signedDC == TailDC(tail))
  }

  lemma AdmitIff(keyed: Cipher, secret: Option<Bytes>, handshake: Option<Candidate>, forceTest: bool)
    ensures var tail := if handshake.Some? then Open(keyed, handshake.value) else seq(8, _ => 0);
            RightAdmission(Admit(keyed, secret, handshake, forceTest), secret, handshake, tail)
  {
    if handshake.Some? {
      var tail := Open(keyed, handshake.value);
      KnownAdmitted(TailProto(tail), TailDC(tail), forceTest);
    }
  }

  datatype Prepared =
    | Error(error: Error)
    | Ready(target: Target, relayInit: Bytes, up: StreamTransform, down: StreamTransform)

  /** `prepareOutboundRequest` after its reads: `secret` is the decoded secret, `handshake` what
      `readClientInit` returned. */
  method PrepareOutboundRequest(cipher: Cipher, hash: Hash, secret: Option<Bytes>, handshake: Option<Candidate>,
                                forceTest: bool, random: seq<Candidate>)
    returns (r: Prepared)
    ensures var keyed := Keyed(cipher, hash, if secret.Some? then secret.value else []);
            match Admit(keyed, secret, handshake, forceTest)
            case Refused(e) => r == Error(e)
            case Admitted(target) =>
              match FirstAllowed(random, 1024)
              case None => r == Error(RelayInitGeneration)
              case Some(c) =>
                && r.Ready? && r.target == target
                && r.relayInit == RelayInit(cipher, c, target.proto, target.relayDC, c[62..64])
                && Transforms(r.up, SenderStream(keyed, handshake.value), 64, SenderStream(cipher, r.relayInit), 64)
                && Transforms(r.down, ReceiverStream(cipher, r.relayInit), 0, ReceiverStream(keyed, handshake.value), 0)
                && FourKeys(keyed, handshake.value, cipher, r.relayInit, r.up, r.down)
  {
    if secret == None || |secret.value| != 16 {
      return Error(InvalidSecret);
    }
    if handshake == None {
      return Error(HandshakeRead);
    }
    var init := handshake.value;
    if IsHTTP(init) {
      return Error(HttpTransport);
    }
    var keyed := Keyed(cipher, hash, secret.value);
    var tail, clientDecryptor := DecryptHandshake(keyed, init);
    var admission := AdmitTail(tail, forceTest);
    if admission.Refused? {
      return Error(admission.error);
    }
    var reversedClient := ReverseCopy(init[8..56]);
    var clientEncryptor := new Stream(keyed(reversedClient[..32], reversedClient[32..]));
    var wire, encryptor, decryptor := GenerateRelayInit(cipher, random, admission.target.proto,
                                                        admission.target.relayDC);
    if wire == None {
      return Error(RelayInitGeneration);
    }
    var up := new StreamTransform(clientDecryptor, encryptor);
    var down := new StreamTransform(decryptor, clientEncryptor);
    StreamsKeyed(keyed, init);
    StreamsKeyed(cipher, wire.value);
    r := Ready(admission.target, wire.value, up, down);
  }

  method DecryptHandshake(keyed: Cipher, init: Candidate) returns (tail: Bytes, decryptor: Stream)
    ensures tail == Open(keyed, init)
    ensures fresh(decryptor) && decryptor.ks == SenderStream(keyed, init) && decryptor.pos == 64
  {
    decryptor := new Stream(keyed(init[8..40], init[40..56]));
    var decrypted := decryptor.XORKeyStream(init);
    XorCut(decryptor.ks, 0, init, 56);
    assert decrypted[56..64] == decrypted[56..] && init[56..64] == init[56..];
    tail := decrypted[56..64];
  }

  /** The four keys: towards the relay both inits are read forwards, towards the client backwards. */
  ghost predicate FourKeys(keyed: Cipher, clientInit: Bytes, cipher: Cipher, relayInit: Bytes,
                         up: StreamTransform, down: StreamTransform)
    reads up.decryptor, up.encryptor, down.decryptor, down.encryptor
  {
    && KeyedForwards(keyed, clientInit, up.decryptor.ks) && KeyedForwards(cipher, relayInit, up.encryptor.ks)
    && KeyedBackwards(cipher, relayInit, down.decryptor.ks) && KeyedBackwards(keyed, clientInit, down.encryptor.ks)
  }

  ghost predicate Transforms(t: StreamTransform, ksIn: Keystream, posIn: nat, ksOut: Keystream, posOut: nat)
    reads t.decryptor, t.encryptor
  {
    && t.decryptor != t.encryptor
    && t.decryptor.ks == ksIn && t.decryptor.pos == posIn
    && t.encryptor.ks == ksOut && t.encryptor.pos == posOut
  }

  /** The init made for an admitted client names its protocol, and its data centre with its sign. */
  lemma InitNamesTarget(cipher: Cipher, tail: Bytes, forceTest: bool, candidate: Candidate)
    requires |tail| == 8 && AdmitTail(tail, forceTest).Admitted? && !Forbidden(candidate)
    ensures var target := AdmitTail(tail, forceTest).target;
            var init := RelayInit(cipher, candidate, target.proto, target.relayDC, candidate[62..64]);
            && DecodedDC(cipher, init) == Some(InitDC(target.dc, TailDC(tail) < 0))
            && DecodedProto(cipher, init) == Some(TailProto(tail))
            && init[..56] == candidate[..56] && !Forbidden(init)
  {
    var target := AdmitTail(tail, forceTest).target;
    Normalised(target.proto, target.signedDC, forceTest);
    RelayInitDecodes(cipher, candidate, target.proto, target.relayDC, candidate[62..64]);
    NamedDC(TailProto(tail), TailDC(tail), forceTest);
  }

  lemma NamedDC(proto: nat, signedDC: int, forceTest: bool)
    requires ValidProto(proto) && AdmitDC(proto, signedDC, forceTest).Admitted?
    ensures var target := AdmitDC(proto, signedDC, forceTest).target;
            DecodeTail(proto, target.relayDC) == Some(InitDC(target.dc, signedDC < 0))
  {
  }

  /** End to end: with keys from the init it was sent, the relay reads the plaintext the client
      encrypted, and the client reads the plaintext the relay encrypted, however the bytes are cut. */
  lemma EndToEnd(cipher: Cipher, keyed: Cipher, handshake: Candidate, init: Candidate,
                 up: Bytes, upChunks: seq<Bytes>, down: Bytes, downChunks: seq<Bytes>)
    requires Flatten(upChunks) == Xor(SenderStream(keyed, handshake), 64, up)
    requires Flatten(downChunks) == Xor(ReceiverStream(cipher, init), 0, down)
    ensures Xor(SenderStream(cipher, init), 64,
                Flatten(RecryptAll(SenderStream(keyed, handshake), 64, SenderStream(cipher, init), 64, upChunks))) == up
    ensures Xor(ReceiverStream(keyed, handshake), 0,
                Flatten(RecryptAll(ReceiverStream(cipher, init), 0,
                                   ReceiverStream(keyed, handshake), 0, downChunks))) == down
  {
    PlaintextPreserved(SenderStream(keyed, handshake), 64, SenderStream(cipher, init), 64, up, upChunks);
    PlaintextPreserved(ReceiverStream(cipher, init), 0, ReceiverStream(keyed, handshake), 0, down, downChunks);
  }

  // ---------------------------------------------------------------------------
  // The worker's context
  // ---------------------------------------------------------------------------

  datatype Context = ContextError
    | Context(relayInit: Bytes, clientToRelay: StreamTransform, relayToClient: StreamTransform)

  /** `newWorkerReencryptContext`: no secret is mixed in, and the two streams that follow an init skip it. */
  method NewWorkerReencryptContext(cipher: Cipher, clientInit: Bytes, dc: int, isMedia: bool,
                                   random: seq<Candidate>, free: Option<Free>)
    returns (r: Context)
    ensures r.ContextError? <==>
              DecodedProto(cipher, clientInit) == None || dc <= 0 || dc > 32767
              || FirstUnreserved(random) == None || free == None
    ensures r.Context? ==>
              && |clientInit| >= INIT_LENGTH
              && r.relayInit == RelayInit(cipher, FirstUnreserved(random).value, DecodedProto(cipher, clientInit).value,
                                          if isMedia then -dc else dc, free.value)
              && Transforms(r.clientToRelay, SenderStream(cipher, clientInit), 64,
                            SenderStream(cipher, r.relayInit), 64)
              && Transforms(r.relayToClient, ReceiverStream(cipher, r.relayInit), 0,
                            ReceiverStream(cipher, clientInit), 0)
              && FourKeys(cipher, clientInit, cipher, r.relayInit, r.clientToRelay, r.relayToClient)
  {
    if |clientInit| < INIT_LENGTH || dc <= 0 || dc > 32767 {
      return ContextError;
    }
    var proto := InitProtoFromObfsInit(cipher, clientInit);
    if proto == None {
      return ContextError;
    }
    var signedDC := dc;
    if isMedia {
      signedDC := -signedDC;
    }
    var relayInit := GenerateRelayObfsInit(cipher, random, free, proto.value, signedDC);
    if relayInit == None {
      return ContextError;
    }
    var clientDec := SkipInit(cipher, clientInit);
    var clientEnc := Backwards(cipher, clientInit);
    var relayEnc := SkipInit(cipher, relayInit.value);
    var relayDec := Backwards(cipher, relayInit.value);
    var up := new StreamTransform(clientDec, relayEnc);
    var down := new StreamTransform(relayDec, clientEnc);
    StreamsKeyed(cipher, clientInit);
    StreamsKeyed(cipher, relayInit.value);
    r := Context(relayInit.value, up, down);
  }

  method SkipInit(cipher: Cipher, init: Bytes) returns (stream: Stream)
    requires |init| >= INIT_LENGTH
    ensures fresh(stream) && stream.ks == SenderStream(cipher, init) && stream.pos == 64
  {
    stream := new Stream(cipher(init[8..40], init[40..56]));
    var _ := stream.XORKeyStream(Zeros(INIT_LENGTH));
  }

  method Backwards(cipher: Cipher, init: Bytes) returns (stream: Stream)
    requires |init| >= INIT_LENGTH
    ensures fresh(stream) && stream.ks == ReceiverStream(cipher, init) && stream.pos == 0
  {
    var keyIV := ReverseCopy(init[8..56]);
    stream := new Stream(cipher(keyIV[..32], keyIV[32..]));
  }
}
