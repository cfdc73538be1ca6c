/**
 The 64-byte init packet of the obfuscated transport: reading, patching and generating it
 (native/tgwsproxy/mtproxyfrontend/session.go, native/tgwsproxy/worker_reencrypt.go and
 native/tgwsproxy/tg-ws-proxy.go).

 Bytes 8 to 55 carry the key and the initial vector in the clear. Bytes 56 to 63 carry, encrypted at
 that place of the keystream, the protocol tag, the signed data centre number and two free bytes.
 */
module ObfuscatedInit {
  import opened ByteStreams
  import opened CtrStream

  const INIT_LENGTH: nat := 64
  const ABRIDGED: nat := 0xEFEFEFEF
  const INTERMEDIATE: nat := 0xEEEEEEEE
  const PADDED: nat := 0xDDDDDDDD

  predicate ValidProto(proto: nat) {
    proto == ABRIDGED || proto == INTERMEDIATE || proto == PADDED
  }

  predicate ValidDC(dc: int) {
    1 <= dc <= 5 || dc == 203
  }

  // ---------------------------------------------------------------------------
  // Sixteen-bit integers
  // ---------------------------------------------------------------------------

  /** Go's int16 conversion of a uint16, and uint16 conversion of an integer. */
  function Signed16(n: nat): (i: int)
    requires n < 65536
    ensures -32768 <= i < 32768
  {
    if n < 32768 then n else n - 65536
  }

  function Unsigned16(i: int): (n: nat)
    ensures n < 65536
  {
    i % 65536
  }

  lemma SignedUnsigned(i: int)
    requires -32768 <= i < 32768
    ensures Signed16(Unsigned16(i)) == i
  {
  }

  // ---------------------------------------------------------------------------
  // Sealing and opening
  // ---------------------------------------------------------------------------

  /** The sender's keystream, keyed by the init itself. */
  function SenderStream(cipher: Cipher, init: Bytes): Keystream
    requires |init| >= 56
  {
    cipher(init[8..40], init[40..56])
  }

  function Reverse(b: Bytes): (r: Bytes)
    ensures |r| == |b|
  {
    seq(|b|, i requires 0 <= i < |b| => b[|b| - 1 - i])
  }

  /** The receiver's keystream, keyed by the same bytes read backwards. */
  function ReceiverStream(cipher: Cipher, init: Bytes): Keystream
    requires |init| >= 56
  {
    var reversed := Reverse(init[8..56]);
    cipher(reversed[..32], reversed[32..])
  }

  /** The keystream is keyed by 32 bytes and their initial vector by 16, read forwards from byte 8 on. */
  ghost predicate KeyedForwards(cipher: Cipher, init: Bytes, ks: Keystream) {
    |init| >= 56 && exists key: Bytes, iv: Bytes ::
      && |key| == 32 && |iv| == 16 && ks == cipher(key, iv)
      && (forall i :: 0 <= i < 32 ==> key[i] == init[8 + i])
      && (forall i :: 0 <= i < 16 ==> iv[i] == init[40 + i])
  }

  /** The same bytes read backwards, from byte 55 on. */
  ghost predicate KeyedBackwards(cipher: Cipher, init: Bytes, ks: Keystream) {
    |init| >= 56 && exists key: Bytes, iv: Bytes ::
      && |key| == 32 && |iv| == 16 && ks == cipher(key, iv)
      && (forall i :: 0 <= i < 32 ==> key[i] == init[55 - i])
      && (forall i :: 0 <= i < 16 ==> iv[i] == init[23 - i])
  }

  lemma StreamsKeyed(cipher: Cipher, init: Bytes)
    requires |init| >= 56
    ensures KeyedForwards(cipher, init, SenderStream(cipher, init))
    ensures KeyedBackwards(cipher, init, ReceiverStream(cipher, init))
  {
    var key, iv := init[8..40], init[40..56];
    assert SenderStream(cipher, init) == cipher(key, iv);
    var reversed := Reverse(init[8..56]);
    var key', iv' := reversed[..32], reversed[32..];
    assert ReceiverStream(cipher, init) == cipher(key', iv');
  }

  ghost predicate Mirrors(m: Bytes, init: Bytes) {
    |m| >= 56 && |init| >= 56 && forall i :: 8 <= i < 56 ==> m[i] == init[63 - i]
  }

  /** What is received on one init is what a sender keyed by the mirrored init sends. */
  lemma ReceiverIsMirroredSender(cipher: Cipher, init: Bytes, m: Bytes)
    requires Mirrors(m, init)
    ensures ReceiverStream(cipher, init) == SenderStream(cipher, m)
  {
    var reversed := Reverse(init[8..56]);
    assert reversed[..32] == m[8..40];
    assert reversed[32..] == m[40..56];
  }

  function Seal(cipher: Cipher, prefix: Bytes, tail: Bytes): (init: Bytes)
    requires |prefix| == 56 && |tail| == 8
    ensures |init| == INIT_LENGTH && init[..56] == prefix
  {
    prefix + Xor(SenderStream(cipher, prefix), 56, tail)
  }

  function Open(cipher: Cipher, init: Bytes): (tail: Bytes)
    requires |init| >= INIT_LENGTH
    ensures |tail| == 8
  {
    Xor(SenderStream(cipher, init), 56, init[56..64])
  }

  lemma SenderOfPrefix(cipher: Cipher, init: Bytes, prefix: Bytes)
    requires |init| >= 56 && |prefix| >= 56 && init[..56] == prefix[..56]
    ensures SenderStream(cipher, init) == SenderStream(cipher, prefix)
    ensures ReceiverStream(cipher, init) == ReceiverStream(cipher, prefix)
  {
    assert init[8..40] == init[..56][8..40] == prefix[..56][8..40] == prefix[8..40];
    assert init[40..56] == init[..56][40..56] == prefix[..56][40..56] == prefix[40..56];
    assert init[8..56] == init[..56][8..56] == prefix[..56][8..56] == prefix[8..56];
  }

  lemma OpenSeal(cipher: Cipher, prefix: Bytes, tail: Bytes)
    requires |prefix| == 56 && |tail| == 8
    ensures Open(cipher, Seal(cipher, prefix, tail)) == tail
  {
    var init := Seal(cipher, prefix, tail);
    assert prefix[..56] == prefix;
    SenderOfPrefix(cipher, init, prefix);
    assert init[56..64] == Xor(SenderStream(cipher, prefix), 56, tail);
    XorTwice(SenderStream(cipher, prefix), 56, tail);
  }

  function TailProto(tail: Bytes): nat
    requires |tail| == 8
  {
    FromLE(tail[0..4])
  }

  function TailDC(tail: Bytes): int
    requires |tail| == 8
  {
    LESmall(tail[4..6]);
    assert Pow256(2) == 65536;
    Signed16(FromLE(tail[4..6]))
  }

  /** The protocol is the first four bytes of a tail and the data centre the next two, least significant byte
      first, the data centre signed. */
  lemma TailLayout(tail: Bytes)
    requires |tail| == 8
    ensures TailProto(tail) == tail[0] as int + 0x100 * tail[1] as int + 0x10000 * tail[2] as int
                               + 0x1000000 * tail[3] as int
    ensures var n := tail[4] as int + 0x100 * tail[5] as int;
            TailDC(tail) == if n < 0x8000 then n else n - 0x10000
  {
    FourBytesLE(tail[0..4]);
    TwoBytesLE(tail[4..6]);
  }

  lemma TwoBytesLE(b: Bytes)
    requires |b| == 2
    ensures FromLE(b) == b[0] as int + 0x100 * b[1] as int
  {
    FromLEAt(b, 0);
    FromLEAt(b, 1);
    assert b[0..] == b && b[2..] == [];
  }

  function MakeTail(proto: nat, dc: int, free: Bytes): (tail: Bytes)
    requires |free| == 2
    ensures |tail| == 8
  {
    ToLE(proto, 4) + ToLE(Unsigned16(dc), 2) + free
  }

  lemma MakeTailRoundTrip(proto: nat, dc: int, free: Bytes)
    requires proto < Pow256(4) && -32768 <= dc < 32768 && |free| == 2
    ensures TailProto(MakeTail(proto, dc, free)) == proto && TailDC(MakeTail(proto, dc, free)) == dc
  {
    var tail := MakeTail(proto, dc, free);
    assert tail[0..4] == ToLE(proto, 4) && tail[4..6] == ToLE(Unsigned16(dc), 2);
    assert Pow256(2) == 65536;
    LERoundTrip(proto, 4);
    LERoundTrip(Unsigned16(dc), 2);
    SignedUnsigned(dc);
  }

  // ---------------------------------------------------------------------------
  // Reading
  // ---------------------------------------------------------------------------

  datatype InitDC = InitDC(dc: int, media: bool)

  function DecodeTail(proto: nat, signed: int): Option<InitDC> {
    var dc := if signed < 0 then -signed else signed;
    if ValidProto(proto) && ValidDC(dc) then Some(InitDC(dc, signed < 0)) else None
  }

  /** What an init says: nothing unless it is complete, of a known protocol and for a known data centre. */
  function DecodedDC(cipher: Cipher, data: Bytes): Option<InitDC> {
    if |data| < INIT_LENGTH then None
    else
      var tail := Open(cipher, data);
      DecodeTail(TailProto(tail), TailDC(tail))
  }

  function DecodedProto(cipher: Cipher, data: Bytes): Option<nat> {
    if |data| < INIT_LENGTH then None
    else
      var proto := TailProto(Open(cipher, data));
      if ValidProto(proto) then Some(proto) else None
  }

  /** An init names a data centre and a sign exactly when it is complete, of a known protocol, and carries the
      number of a known data centre with that sign. */
  lemma DecodedIff(cipher: Cipher, data: Bytes, dc: int, negative: bool)
    ensures DecodedDC(cipher, data) == Some(InitDC(dc, negative)) <==>
              && |data| >= 64 && dc in {1, 2, 3, 4, 5, 203}
              && TailProto(Open(cipher, data)) in {0xEFEFEFEF, 0xEEEEEEEE, 0xDDDDDDDD}
              && TailDC(Open(cipher, data)) == if negative then -dc else dc
    ensures DecodedProto(cipher, data).Some? <==>
              |data| >= 64 && TailProto(Open(cipher, data)) in {0xEFEFEFEF, 0xEEEEEEEE, 0xDDDDDDDD}
    ensures DecodedProto(cipher, data).Some? ==> DecodedProto(cipher, data).value == TailProto(Open(cipher, data))
  {
  }

  function Zeros(n: nat): (z: Bytes)
    ensures |z| == n
  {
    seq(n, i => 0)
  }

  lemma XorZero(b: bv8)
    ensures 0 ^ b == b
  {
  }

  /** Encrypting zero bytes gives the keystream. */
  lemma KeystreamByte(ks: Keystream, n: nat, i: nat)
    requires i < n
    ensures Xor(ks, 0, Zeros(n))[i] == ks(i)
  {
    XorZero(ks(i));
    assert Zeros(n)[i] == 0;
    assert Xor(ks, 0, Zeros(n))[i] == Zeros(n)[i] ^ ks(0 + i);
  }

  lemma OpenByte(cipher: Cipher, data: Bytes, i: nat)
    requires |data| >= INIT_LENGTH && i < 8
    ensures Open(cipher, data)[i] == data[56 + i] ^ SenderStream(cipher, data)(56 + i)
  {
    assert data[56..64][i] == data[56 + i];
  }

  /** The loop that `dcFromInit` and `initProtoFromObfsInit` share. */
  method OpenTail(cipher: Cipher, data: Bytes) returns (plain: Bytes)
    requires |data| >= INIT_LENGTH
    ensures plain == Open(cipher, data)
  {
    var stream := new Stream(cipher(data[8..40], data[40..56]));
    var keystream := stream.XORKeyStream(Zeros(INIT_LENGTH));
    plain := [];
    for i := 0 to 8
      invariant plain == Open(cipher, data)[..i]
    {
      KeystreamByte(SenderStream(cipher, data), INIT_LENGTH, 56 + i);
      OpenByte(cipher, data, i);
      plain := plain + [data[56 + i] ^ keystream[56 + i]];
    }
  }

  method DcFromInit(cipher: Cipher, data: Bytes) returns (r: Option<InitDC>)
    ensures r == DecodedDC(cipher, data)
  {
    if |data| < INIT_LENGTH {
      return None;
    }
    var plain := OpenTail(cipher, data);
    var proto := FromLE(plain[0..4]);
    var dcRaw := TailDC(plain);
    if !ValidProto(proto) {
      return None;
    }
    var dcAbs := dcRaw;
    if dcAbs < 0 {
      dcAbs := -dcAbs;
    }
    if ValidDC(dcAbs) {
      return Some(InitDC(dcAbs, dcRaw < 0));
    }
    r := None;
  }

  method InitProtoFromObfsInit(cipher: Cipher, init: Bytes) returns (r: Option<nat>)
    ensures r == DecodedProto(cipher, init)
  {
    if |init| < INIT_LENGTH {
      return None;
    }
    var plain := OpenTail(cipher, init);
    var proto := FromLE(plain[0..4]);
    if !ValidProto(proto) {
      return None;
    }
    r := Some(proto);
  }

  // ---------------------------------------------------------------------------
  // Patching the data centre
  // ---------------------------------------------------------------------------

  /** The same packet with another data centre in its tail; a short packet is left alone. */
  function Patched(cipher: Cipher, data: Bytes, dc: int): (r: Bytes)
    ensures |r| == |data|
  {
    if |data| < INIT_LENGTH then data
    else data[..60] + Xor(SenderStream(cipher, data), 60, ToLE(Unsigned16(dc), 2)) + data[62..]
  }

  method PatchInitDC(cipher: Cipher, data: Bytes, dc: int) returns (patched: Bytes)
    ensures patched == Patched(cipher, data, dc)
  {
    if |data| < INIT_LENGTH {
      return data;
    }
    var newDC := ToLE(Unsigned16(dc), 2);
    var stream := new Stream(cipher(data[8..40], data[40..56]));
    var ks := stream.XORKeyStream(Zeros(INIT_LENGTH));
    KeystreamByte(SenderStream(cipher, data), INIT_LENGTH, 60);
    KeystreamByte(SenderStream(cipher, data), INIT_LENGTH, 61);
    XorSwap(ks[60], newDC[0]);
    XorSwap(ks[61], newDC[1]);
    patched := data[60 := ks[60] ^ newDC[0]];
    patched := patched[61 := ks[61] ^ newDC[1]];
  }

  lemma XorSwap(a: bv8, b: bv8)
    ensures a ^ b == b ^ a
  {
  }

  /** Patching changes the two data centre bytes and nothing else, and the packet then decodes to the
      new number (as Go's int16 conversion leaves it) under the same protocol. */
  lemma PatchedDecodes(cipher: Cipher, data: Bytes, dc: int)
    requires |data| >= INIT_LENGTH
    ensures var p := Patched(cipher, data, dc);
            && p[..60] == data[..60] && p[62..] == data[62..]
            && TailProto(Open(cipher, p)) == TailProto(Open(cipher, data))
            && TailDC(Open(cipher, p)) == Signed16(Unsigned16(dc))
            && Open(cipher, p)[6..] == Open(cipher, data)[6..]
  {
    var p, ks := Patched(cipher, data, dc), SenderStream(cipher, data);
    var number := ToLE(Unsigned16(dc), 2);
    assert p[..56] == p[..60][..56] == data[..60][..56] == data[..56];
    SenderOfPrefix(cipher, p, data);
    assert p[56..64] == data[56..60] + Xor(ks, 60, number) + data[62..64];
    XorAppend(ks, 56, data[56..60] + Xor(ks, 60, number), data[62..64]);
    XorAppend(ks, 56, data[56..60], Xor(ks, 60, number));
    XorTwice(ks, 60, number);
    OpenParts(cipher, data);
    assert Open(cipher, p) == Xor(ks, 56, data[56..60]) + number + Xor(ks, 62, data[62..64]);
    assert Open(cipher, p)[0..4] == Open(cipher, data)[0..4] && Open(cipher, p)[4..6] == number;
    assert Pow256(2) == 65536;
    LERoundTrip(Unsigned16(dc), 2);
  }

  lemma OpenParts(cipher: Cipher, data: Bytes)
    requires |data| >= INIT_LENGTH
    ensures var ks := SenderStream(cipher, data);
            && Open(cipher, data)[0..4] == Xor(ks, 56, data[56..60])
            && Open(cipher, data)[6..] == Xor(ks, 62, data[62..64])
  {
  }

  /** A packet for a known protocol, patched to a known data centre, is read as that data centre. */
  lemma PatchedReadsBack(cipher: Cipher, data: Bytes, dc: int)
    requires |data| >= INIT_LENGTH && ValidProto(TailProto(Open(cipher, data)))
    ensures ValidDC(dc) ==> DecodedDC(cipher, Patched(cipher, data, dc)) == Some(InitDC(dc, false))
    ensures ValidDC(-dc) ==> DecodedDC(cipher, Patched(cipher, data, dc)) == Some(InitDC(-dc, true))
  {
    var p := Patched(cipher, data, dc);
    PatchedDecodes(cipher, data, dc);
    DecodedIs(cipher, p, TailProto(Open(cipher, data)), Signed16(Unsigned16(dc)));
    KnownNumbersSurvive(TailProto(Open(cipher, data)), dc);
  }

  lemma DecodedIs(cipher: Cipher, p: Bytes, proto: nat, signed: int)
    requires |p| >= INIT_LENGTH && TailProto(Open(cipher, p)) == proto && TailDC(Open(cipher, p)) == signed
    ensures DecodedDC(cipher, p) == DecodeTail(proto, signed)
  {
  }

  lemma KnownNumbersSurvive(proto: nat, dc: int)
    requires ValidProto(proto)
    ensures ValidDC(dc) ==> DecodeTail(proto, Signed16(Unsigned16(dc))) == Some(InitDC(dc, false))
    ensures ValidDC(-dc) ==> DecodeTail(proto, Signed16(Unsigned16(dc))) == Some(InitDC(-dc, true))
  {
  }

  // ---------------------------------------------------------------------------
  // Which random prefixes may start an init
  // ---------------------------------------------------------------------------

  const HEAD: Bytes := [0x48, 0x45, 0x41, 0x44]
  const POST: Bytes := [0x50, 0x4F, 0x53, 0x54]
  const GET: Bytes := [0x47, 0x45, 0x54, 0x20]
  const OPTI: Bytes := [0x4F, 0x50, 0x54, 0x49]
  const CLIENT_HELLO: Bytes := [0x16, 0x03, 0x01, 0x02]
  const EE: Bytes := [0xEE, 0xEE, 0xEE, 0xEE]
  const DD: Bytes := [0xDD, 0xDD, 0xDD, 0xDD]
  const EF: Bytes := [0xEF, 0xEF, 0xEF, 0xEF]

  /** `forbiddenInitPrefix`: by the number the first four bytes make. */
  predicate Forbidden(init: Bytes) {
    |init| < 8 || init[0] == 0xEF || init[4..8] == [0, 0, 0, 0] ||
    (var start := FromLE(init[..4]);
     start == 0x44414548 || start == 0x54534f50 || start == 0x20544547 || start == 0x4954504f || start == 0x02010316
     || start == ABRIDGED || start == INTERMEDIATE || start == PADDED)
  }

  /** The test of `generateRelayObfsInit`: by the bytes themselves. */
  predicate Reserved(init: Bytes)
    requires |init| >= 8
  {
    init[0] == 0xEF || init[4..8] == [0, 0, 0, 0]
    || init[..4] == HEAD || init[..4] == POST || init[..4] == GET
    || init[..4] == EE || init[..4] == DD || init[..4] == CLIENT_HELLO
  }

  lemma FromLEAt(b: Bytes, k: nat)
    requires k < |b|
    ensures FromLE(b[k..]) == b[k] as int + 256 * FromLE(b[k + 1..])
  {
    assert b[k..][1..] == b[k + 1..];
  }

  lemma FourBytesLE(b: Bytes)
    requires |b| == 4
    ensures FromLE(b) == b[0] as int + 0x100 * b[1] as int + 0x10000 * b[2] as int + 0x1000000 * b[3] as int
  {
    FromLEAt(b, 0);
    FromLEAt(b, 1);
    FromLEAt(b, 2);
    FromLEAt(b, 3);
    assert b[0..] == b && b[4..] == [];
  }

  lemma WordNumbers()
    ensures FromLE(HEAD) == 0x44414548 && FromLE(POST) == 0x54534f50 && FromLE(GET) == 0x20544547
    ensures FromLE(OPTI) == 0x4954504f && FromLE(CLIENT_HELLO) == 0x02010316
    ensures FromLE(EF) == ABRIDGED && FromLE(EE) == INTERMEDIATE && FromLE(DD) == PADDED
  {
    FourBytesLE(HEAD);
    FourBytesLE(POST);
    FourBytesLE(GET);
    FourBytesLE(OPTI);
    FourBytesLE(CLIENT_HELLO);
    FourBytesLE(EF);
    FourBytesLE(EE);
    FourBytesLE(DD);
  }

  /** The two generators refuse the same starts but one: the worker's lets "OPTI" through. */
  lemma ForbiddenIsReservedOrOptions(init: Bytes)
    requires |init| >= 8
    ensures Forbidden(init) <==> Reserved(init) || init[..4] == OPTI
  {
    WordNumbers();
    LEInjective(init[..4], HEAD);
    LEInjective(init[..4], POST);
    LEInjective(init[..4], GET);
    LEInjective(init[..4], OPTI);
    LEInjective(init[..4], CLIENT_HELLO);
    LEInjective(init[..4], EE);
    LEInjective(init[..4], DD);
    LEInjective(init[..4], EF);
    assert init[..4] == EF ==> init[0] == init[..4][0] == 0xEF;
  }

  /** A start only the front end refuses. */
  lemma OptionsNotReserved()
    ensures var init := OPTI + [1, 1, 1, 1]; Forbidden(init) && !Reserved(init)
  {
    var init := OPTI + [1, 1, 1, 1];
    assert init[..4] == OPTI && init[4..8] == [1, 1, 1, 1];
    ForbiddenIsReservedOrOptions(init);
    assert OPTI[0] == 0x4F;
  }
}
