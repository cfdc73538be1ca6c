/**
 The packet splitter of the outbound obfuscated stream (`MsgSplitter`,
 native/tgwsproxy/tg-ws-proxy.go).

 It decrypts a shadow copy of what passes through, finds packet boundaries in it, and cuts
 the cipher stream there. A header it cannot frame makes it pass everything on unsplit.
 */
module PacketSplitter {
  import opened ByteStreams
  import opened CtrStream
  import opened ObfuscatedInit

  datatype Next = NeedMore | Packet(length: nat) | Disable

  /** `nextPacketLen` on the plain bytes from the current offset on. */
  function NextPacket(proto: nat, plain: Bytes): (r: Next)
    ensures r.Packet? ==> 0 < r.length <= |plain|
  {
    if plain == [] then NeedMore
    else if proto == ABRIDGED then NextAbridged(plain)
    else if proto == INTERMEDIATE || proto == PADDED then NextIntermediate(plain)
    else Disable
  }

  function Framed(header: nat, payload: nat, available: nat): Next {
    if payload == 0 then Disable
    else if available < header + payload then NeedMore
    else Packet(header + payload)
  }

  function NextAbridged(plain: Bytes): Next
    requires plain != []
  {
    if plain[0] == 0x7f || plain[0] == 0xff then
      if |plain| < 4 then NeedMore
      else Framed(4, FromLE(plain[1..4]) * 4, |plain|)
    else Framed(1, (plain[0] & 0x7f) as int * 4, |plain|)
  }

  function NextIntermediate(plain: Bytes): Next {
    if |plain| < 4 then NeedMore
    else Framed(4, FromLE(plain[..4]) % 0x8000_0000, |plain|)
  }

  /** Batch parse: the packet lengths, and whether the parse stopped at a header it cannot frame. */
  datatype Parsed = Parsed(lengths: seq<nat>, disabled: bool)

  function Parse(proto: nat, plain: Bytes): Parsed
    decreases |plain|
  {
    match NextPacket(proto, plain)
    case NeedMore => Parsed([], false)
    case Disable => Parsed([], true)
    case Packet(n) => var rest := Parse(proto, plain[n..]); Parsed([n] + rest.lengths, rest.disabled)
  }

  function Sum(lengths: seq<nat>): nat {
    if lengths == [] then 0 else lengths[0] + Sum(lengths[1..])
  }

  function Cut(lengths: seq<nat>, data: Bytes): (cuts: seq<Bytes>)
    requires Sum(lengths) <= |data|
    ensures |cuts| == |lengths|
  {
    if lengths == [] then [] else [data[..lengths[0]]] + Cut(lengths[1..], data[lengths[0]..])
  }

  lemma {:induction false} ParseFits(proto: nat, plain: Bytes)
    ensures Sum(Parse(proto, plain).lengths) <= |plain|
    decreases |plain|
  {
    match NextPacket(proto, plain)
    case Packet(n) =>
      ParseFits(proto, plain[n..]);
      var r := Parse(proto, plain);
      assert r.lengths[1..] == Parse(proto, plain[n..]).lengths;
    case _ =>
  }

  // ---------------------------------------------------------------------------
  // The splitter on values
  // ---------------------------------------------------------------------------

  datatype Splitter = Splitter(pos: nat, cipherBuf: Bytes, plainBuf: Bytes, disabled: bool)

  /** The parts cut out of a buffer, the unframed rest being one part if the parse gave up. */
  function Emit(r: Parsed, cipher: Bytes): seq<Bytes>
    requires Sum(r.lengths) <= |cipher|
  {
    if r.disabled then Cut(r.lengths, cipher) + [cipher[Sum(r.lengths)..]] else Cut(r.lengths, cipher)
  }

  function SplitChunk(ks: Keystream, proto: nat, s: Splitter, chunk: Bytes): (r: (Splitter, seq<Bytes>))
    requires |s.plainBuf| == |s.cipherBuf|
    ensures |r.0.plainBuf| == |r.0.cipherBuf|
  {
    if chunk == [] then (s, [])
    else if s.disabled then (s, [chunk])
    else
      var cipher, plain := s.cipherBuf + chunk, s.plainBuf + Xor(ks, s.pos, chunk);
      ParseFits(proto, plain);
      SplitBuffer(Parse(proto, plain), s.pos + |chunk|, cipher, plain)
  }

  function SplitBuffer(r: Parsed, pos: nat, cipher: Bytes, plain: Bytes): (Splitter, seq<Bytes>)
    requires Sum(r.lengths) <= |cipher| == |plain|
  {
    var k := Sum(r.lengths);
    (if r.disabled then Splitter(pos, [], [], true) else Splitter(pos, cipher[k..], plain[k..], false), Emit(r, cipher))
  }

  /** A run of Split calls on a new splitter: the 64 bytes of the init packet are behind it. */
  function Run(ks: Keystream, proto: nat, chunks: seq<Bytes>): (r: (Splitter, seq<Bytes>))
    ensures |r.0.plainBuf| == |r.0.cipherBuf|
  {
    if chunks == [] then (Splitter(64, [], [], false), [])
    else
      var (s, parts) := Run(ks, proto, chunks[..|chunks| - 1]);
      var (s', more) := SplitChunk(ks, proto, s, chunks[|chunks| - 1]);
      (s', parts + more)
  }

  // ---------------------------------------------------------------------------
  // Parsing does not depend on how much has arrived
  // ---------------------------------------------------------------------------

  lemma NextExtends(proto: nat, p: Bytes, q: Bytes)
    requires NextPacket(proto, p) != NeedMore
    ensures NextPacket(proto, p + q) == NextPacket(proto, p)
  {
    if |p| >= 4 {
      assert (p + q)[1..4] == p[1..4] && (p + q)[..4] == p[..4];
    }
  }

  lemma NextExact(proto: nat, p: Bytes, n: nat)
    requires NextPacket(proto, p) == Packet(n)
    ensures NextPacket(proto, p[..n]) == Packet(n)
  {
    if n >= 4 {
      assert p[..n][1..4] == p[1..4] && p[..n][..4] == p[..4];
    }
  }

  function Join(a: seq<nat>, rest: Parsed): Parsed {
    Parsed(a + rest.lengths, rest.disabled)
  }

  lemma ParseStep(proto: nat, p: Bytes, n: nat)
    requires NextPacket(proto, p) == Packet(n)
    ensures Parse(proto, p) == Join([n], Parse(proto, p[n..]))
    ensures Sum(Parse(proto, p).lengths) == n + Sum(Parse(proto, p[n..]).lengths) <= |p|
  {
    ParseFits(proto, p);
    assert Parse(proto, p).lengths[1..] == Parse(proto, p[n..]).lengths;
  }

  /** A parse that gave up stays given up, whatever arrives. */
  lemma {:induction false} ParseStaysDisabled(proto: nat, p: Bytes, q: Bytes)
    requires Parse(proto, p).disabled
    ensures Parse(proto, p + q) == Parse(proto, p)
    decreases |p|
  {
    NextExtends(proto, p, q);
    match NextPacket(proto, p)
    case Packet(n) =>
      ParseStep(proto, p, n);
      ParseStep(proto, p + q, n);
      ParseStaysDisabled(proto, p[n..], q);
      assert (p + q)[n..] == p[n..] + q;
    case Disable =>
  }

  lemma JoinAssoc(a: seq<nat>, b: seq<nat>, r: Parsed)
    ensures Join(a, Join(b, r)) == Join(a + b, r)
  {
    assert a + (b + r.lengths) == (a + b) + r.lengths;
  }

  lemma ResumeStep(proto: nat, p: Bytes, q: Bytes, n: nat, done: seq<nat>, rest: Parsed)
    requires NextPacket(proto, p) == Packet(n)
    requires Parse(proto, p[n..]) == Parsed(done, false)
    requires Parse(proto, p[n..] + q) == Join(done, rest)
    ensures Parse(proto, p) == Parsed([n] + done, false)
    ensures Parse(proto, p + q) == Join([n] + done, rest)
  {
    NextExtends(proto, p, q);
    assert (p + q)[n..] == p[n..] + q;
    JoinAssoc([n], done, rest);
  }

  /** A parse that ran out of bytes resumes where it stopped. */
  lemma {:induction false} ParseResumes(proto: nat, p: Bytes, q: Bytes)
    requires !Parse(proto, p).disabled
    ensures Sum(Parse(proto, p).lengths) <= |p|
    ensures Parse(proto, p + q) == Join(Parse(proto, p).lengths, Parse(proto, p[Sum(Parse(proto, p).lengths)..] + q))
    decreases |p|
  {
    match NextPacket(proto, p)
    case NeedMore =>
      assert p[0..] + q == p + q;
    case Packet(n) =>
      ParseResumes(proto, p[n..], q);
      ParseStep(proto, p, n);
      var done := Parse(proto, p[n..]).lengths;
      DropDrop(p, n, Sum(done));
      ResumeStep(proto, p, q, n, done, Parse(proto, p[n + Sum(done)..] + q));
  }

  lemma {:induction false} SumAppend(a: seq<nat>, b: seq<nat>)
    ensures Sum(a + b) == Sum(a) + Sum(b)
  {
    if a == [] {
      assert a + b == b;
    } else {
      assert (a + b)[1..] == a[1..] + b;
      SumAppend(a[1..], b);
    }
  }

  lemma {:induction false} CutAppend(a: seq<nat>, b: seq<nat>, data: Bytes)
    requires Sum(a) + Sum(b) <= |data|
    ensures Sum(a + b) == Sum(a) + Sum(b)
    ensures Cut(a + b, data) == Cut(a, data) + Cut(b, data[Sum(a)..])
    decreases |a|
  {
    SumAppend(a, b);
    if a == [] {
      assert a + b == b && data[0..] == data;
    } else {
      var n, rest := a[0], data[a[0]..];
      assert (a + b)[1..] == a[1..] + b;
      CutAppend(a[1..], b, rest);
      DropDrop(data, n, Sum(a[1..]));
      ConcatAssoc([data[..n]], Cut(a[1..], rest), Cut(b, data[Sum(a)..]));
    }
  }

  lemma {:induction false} CutIgnoresTail(lengths: seq<nat>, data: Bytes, tail: Bytes)
    requires Sum(lengths) <= |data|
    ensures Cut(lengths, data + tail) == Cut(lengths, data)
    ensures Flatten(Cut(lengths, data)) == data[..Sum(lengths)]
  {
    if lengths != [] {
      var n := lengths[0];
      CutIgnoresTail(lengths[1..], data[n..], tail);
      assert (data + tail)[n..] == data[n..] + tail && (data + tail)[..n] == data[..n];
      assert data[..n] + data[n..][..Sum(lengths[1..])] == data[..Sum(lengths)];
    }
  }

  // ---------------------------------------------------------------------------
  // Chunking independence
  // ---------------------------------------------------------------------------

  /** What a run over `all` must look like when the batch parse cuts `cuts` off its first k bytes. */
  ghost predicate Agrees(cuts: seq<Bytes>, k: nat, disabled: bool, all: Bytes, plain: Bytes, s: Splitter,
                         parts: seq<Bytes>) {
    && k <= |all| == |plain|
    && |cuts| <= |parts| && parts[..|cuts|] == cuts
    && s.disabled == disabled
    && (disabled ==> s.cipherBuf == [] == s.plainBuf && Flatten(parts[|cuts|..]) == all[k..])
    && (!disabled ==> parts == cuts && s.pos == 64 + |all| && s.cipherBuf == all[k..] && s.plainBuf == plain[k..])
  }

  ghost predicate Matches(ks: Keystream, proto: nat, all: Bytes, s: Splitter, parts: seq<Bytes>) {
    MatchesPlain(proto, all, Xor(ks, 64, all), s, parts)
  }

  ghost predicate MatchesPlain(proto: nat, all: Bytes, plain: Bytes, s: Splitter, parts: seq<Bytes>) {
    var batch := Parse(proto, plain);
    && Sum(batch.lengths) <= |all|
    && Agrees(Cut(batch.lengths, all), Sum(batch.lengths), batch.disabled, all, plain, s, parts)
  }

  lemma PassOn(cuts: seq<Bytes>, k: nat, all: Bytes, plain: Bytes, s: Splitter, parts: seq<Bytes>, chunk: Bytes,
               more: Bytes)
    requires Agrees(cuts, k, true, all, plain, s, parts) && |chunk| == |more|
    ensures Agrees(cuts, k, true, all + chunk, plain + more, s, parts + [chunk])
  {
    assert (parts + [chunk])[|cuts|..] == parts[|cuts|..] + [chunk];
    FlattenSnoc(parts[|cuts|..], chunk);
    assert (all + chunk)[k..] == all[k..] + chunk;
  }

  lemma CutOnAndStop(cuts: seq<Bytes>, k: nat, all: Bytes, plain: Bytes, s: Splitter, parts: seq<Bytes>,
                     more: seq<Bytes>, j: nat, all': Bytes, plain': Bytes, cipher: Bytes, pos: nat)
    requires Agrees(cuts, k, false, all, plain, s, parts)
    requires k + j <= |all'| == |plain'| && cipher == all'[k..]
    ensures Agrees(cuts + more, k + j, true, all', plain', Splitter(pos, [], [], true), parts + (more + [cipher[j..]]))
  {
    var emitted := parts + (more + [cipher[j..]]);
    assert emitted[|cuts + more|..] == [] + [cipher[j..]];
    FlattenSnoc([], cipher[j..]);
    DropDrop(all', k, j);
  }

  lemma CutOnAndWait(cuts: seq<Bytes>, k: nat, all: Bytes, plain: Bytes, s: Splitter, parts: seq<Bytes>,
                     more: seq<Bytes>, j: nat, all': Bytes, plain': Bytes)
    requires Agrees(cuts, k, false, all, plain, s, parts)
    requires k + j <= |all'| == |plain'|
    ensures Agrees(cuts + more, k + j, false, all', plain',
                   Splitter(64 + |all'|, all'[k..][j..], plain'[k..][j..], false), parts + more)
  {
    DropDrop(all', k, j);
    DropDrop(plain', k, j);
  }

  lemma SplitWhileDisabled(ks: Keystream, proto: nat, all: Bytes, s: Splitter, parts: seq<Bytes>, chunk: Bytes)
    requires Matches(ks, proto, all, s, parts) && s.disabled
    ensures Matches(ks, proto, all + chunk, s, parts + [chunk])
  {
    var plain, more := Xor(ks, 64, all), Xor(ks, 64 + |all|, chunk);
    var batch := Parse(proto, plain);
    XorAppend(ks, 64, all, chunk);
    CutIgnoresTail(batch.lengths, all, chunk);
    ParseStaysDisabled(proto, plain, more);
    PassOn(Cut(batch.lengths, all), Sum(batch.lengths), all, plain, s, parts, chunk, more);
  }

  /** The batch parse of a longer stream, cut where the buffer begins. */
  lemma ExtendedParse(proto: nat, all: Bytes, plain: Bytes, chunk: Bytes, more: Bytes)
    requires |all| == |plain| && |chunk| == |more| && !Parse(proto, plain).disabled
    ensures Sum(Parse(proto, plain).lengths) <= |all|
    ensures var batch, whole := Parse(proto, plain), Parse(proto, plain + more);
            var k := Sum(batch.lengths);
            var rest := Parse(proto, plain[k..] + more);
            && Sum(rest.lengths) <= |all[k..] + chunk|
            && whole.disabled == rest.disabled
            && Sum(whole.lengths) == k + Sum(rest.lengths) <= |all + chunk|
            && Cut(whole.lengths, all + chunk) == Cut(batch.lengths, all) + Cut(rest.lengths, all[k..] + chunk)
  {
    var batch := Parse(proto, plain);
    ParseResumes(proto, plain, more);
    var k := Sum(batch.lengths);
    DropConcat(all, chunk, k);
    var rest := Parse(proto, plain[k..] + more);
    ParseFits(proto, plain[k..] + more);
    CutAppend(batch.lengths, rest.lengths, all + chunk);
    CutIgnoresTail(batch.lengths, all, chunk);
  }

  lemma SplitWhileEnabled(ks: Keystream, proto: nat, all: Bytes, s: Splitter, parts: seq<Bytes>, chunk: Bytes)
    requires Matches(ks, proto, all, s, parts) && !s.disabled && chunk != []
    ensures |s.plainBuf| == |s.cipherBuf|
    ensures Matches(ks, proto, all + chunk, SplitChunk(ks, proto, s, chunk).0,
                    parts + SplitChunk(ks, proto, s, chunk).1)
  {
    var more := Xor(ks, 64 + |all|, chunk);
    XorAppend(ks, 64, all, chunk);
    CutMore(proto, all, Xor(ks, 64, all), s, parts, chunk, more);
  }

  lemma CutMore(proto: nat, all: Bytes, plain: Bytes, s: Splitter, parts: seq<Bytes>, chunk: Bytes, more: Bytes)
    requires MatchesPlain(proto, all, plain, s, parts) && !s.disabled && |chunk| == |more|
    ensures Sum(Parse(proto, s.plainBuf + more).lengths) <= |s.cipherBuf + chunk| == |s.plainBuf + more|
    ensures var (s', out) := SplitBuffer(Parse(proto, s.plainBuf + more), s.pos + |chunk|,
                                         s.cipherBuf + chunk, s.plainBuf + more);
            MatchesPlain(proto, all + chunk, plain + more, s', parts + out)
  {
    var batch, whole := Parse(proto, plain), Parse(proto, plain + more);
    var k := Sum(batch.lengths);
    ExtendedParse(proto, all, plain, chunk, more);
    DropConcat(all, chunk, k);
    DropConcat(plain, more, k);
    CutOn(Cut(batch.lengths, all), k, all, plain, s, parts, Parse(proto, s.plainBuf + more),
          all + chunk, plain + more, s.cipherBuf + chunk, s.plainBuf + more, whole);
  }

  lemma CutOn(cuts: seq<Bytes>, k: nat, all: Bytes, plain: Bytes, s: Splitter, parts: seq<Bytes>, rest: Parsed,
              all': Bytes, plain': Bytes, cipher: Bytes, buffer: Bytes, whole: Parsed)
    requires Agrees(cuts, k, false, all, plain, s, parts)
    requires k <= |all'| == |plain'| && cipher == all'[k..] && buffer == plain'[k..]
    requires Sum(rest.lengths) <= |cipher| && Sum(whole.lengths) == k + Sum(rest.lengths)
    requires whole.disabled == rest.disabled && Cut(whole.lengths, all') == cuts + Cut(rest.lengths, cipher)
    ensures var (s', out) := SplitBuffer(rest, 64 + |all'|, cipher, buffer);
            Agrees(Cut(whole.lengths, all'), Sum(whole.lengths), whole.disabled, all', plain', s', parts + out)
  {
    var more, j := Cut(rest.lengths, cipher), Sum(rest.lengths);
    var (s', out) := SplitBuffer(rest, 64 + |all'|, cipher, buffer);
    if rest.disabled {
      assert s' == Splitter(64 + |all'|, [], [], true) && out == more + [cipher[j..]];
      CutOnAndStop(cuts, k, all, plain, s, parts, more, j, all', plain', cipher, 64 + |all'|);
    } else {
      assert s' == Splitter(64 + |all'|, cipher[j..], buffer[j..], false) && out == more;
      CutOnAndWait(cuts, k, all, plain, s, parts, more, j, all', plain');
    }
  }

  lemma DropConcat<T>(a: seq<T>, b: seq<T>, k: nat)
    requires k <= |a|
    ensures a[k..] + b == (a + b)[k..]
  {
  }

  /** For every way of cutting a stream into Split calls, the parts up to a disable are those of one
      batch parse of the whole stream, and after a disable the parts join up to the remainder. */
  lemma {:induction false} ChunkingIndependence(ks: Keystream, proto: nat, chunks: seq<Bytes>)
    ensures Matches(ks, proto, Flatten(chunks), Run(ks, proto, chunks).0, Run(ks, proto, chunks).1)
  {
    if chunks != [] {
      var init, chunk := chunks[..|chunks| - 1], chunks[|chunks| - 1];
      ChunkingIndependence(ks, proto, init);
      assert chunks == init + [chunk];
      FlattenSnoc(init, chunk);
      var (s, parts) := Run(ks, proto, init);
      var all := Flatten(init);
      if chunk == [] {
        assert all + chunk == all && parts + [] == parts;
      } else if s.disabled {
        SplitWhileDisabled(ks, proto, all, s, parts, chunk);
      } else {
        SplitWhileEnabled(ks, proto, all, s, parts, chunk);
      }
    }
  }

  /** Conservation: everything emitted followed by the buffer is everything put in. */
  lemma Conservation(ks: Keystream, proto: nat, chunks: seq<Bytes>)
    ensures Flatten(Run(ks, proto, chunks).1) + Run(ks, proto, chunks).0.cipherBuf == Flatten(chunks)
  {
    ChunkingIndependence(ks, proto, chunks);
    var all := Flatten(chunks);
    var batch := Parse(proto, Xor(ks, 64, all));
    CutIgnoresTail(batch.lengths, all, []);
    AgreesConserves(Cut(batch.lengths, all), Sum(batch.lengths), batch.disabled, all, Xor(ks, 64, all),
                    Run(ks, proto, chunks).0, Run(ks, proto, chunks).1);
  }

  lemma AgreesConserves(cuts: seq<Bytes>, k: nat, disabled: bool, all: Bytes, plain: Bytes, s: Splitter,
                        parts: seq<Bytes>)
    requires Agrees(cuts, k, disabled, all, plain, s, parts) && Flatten(cuts) == all[..k]
    ensures Flatten(parts) + s.cipherBuf == all
  {
    assert all[..k] + all[k..] == all;
    if disabled {
      FlattenAppend(parts[..|cuts|], parts[|cuts|..]);
      assert parts == parts[..|cuts|] + parts[|cuts|..];
    }
  }

  lemma {:induction false} PlainCutsAreWhole(proto: nat, plain: Bytes, j: nat)
    requires j < |Parse(proto, plain).lengths|
    ensures var lengths := Parse(proto, plain).lengths;
            && Sum(lengths) <= |plain|
            && NextPacket(proto, Cut(lengths, plain)[j]) == Packet(lengths[j]) && |Cut(lengths, plain)[j]| == lengths[j]
    decreases |plain|
  {
    var lengths := Parse(proto, plain).lengths;
    var n := lengths[0];
    ParseStep(proto, plain, n);
    CutIgnoresTail(lengths, plain, []);
    assert lengths[1..] == Parse(proto, plain[n..]).lengths;
    if j > 0 {
      PlainCutsAreWhole(proto, plain[n..], j - 1);
    } else {
      NextExact(proto, plain, n);
    }
  }

  lemma {:induction false} CutOfXor(ks: Keystream, pos: nat, lengths: seq<nat>, data: Bytes, j: nat)
    requires Sum(lengths) <= |data| && j < |lengths|
    ensures Cut(lengths, Xor(ks, pos, data))[j] == Xor(ks, pos + Sum(lengths[..j]), Cut(lengths, data)[j])
    decreases |lengths|
  {
    var n := lengths[0];
    XorCut(ks, pos, data, n);
    if j > 0 {
      CutOfXor(ks, pos + n, lengths[1..], data[n..], j - 1);
      SumFront(lengths, j);
      assert Cut(lengths, data)[j] == Cut(lengths[1..], data[n..])[j - 1];
    } else {
      assert lengths[..0] == [];
    }
  }

  lemma SumFront(lengths: seq<nat>, j: nat)
    requires 0 < j <= |lengths|
    ensures Sum(lengths[..j]) == lengths[0] + Sum(lengths[1..][..j - 1])
  {
    assert lengths[..j][1..] == lengths[1..][..j - 1];
  }

  lemma CutBefore(lengths: seq<nat>, all: Bytes, j: nat)
    requires Sum(lengths) <= |all| && j < |lengths|
    ensures |Flatten(Cut(lengths, all)[..j])| == Sum(lengths[..j])
  {
    CutIgnoresTail(lengths, all, []);
    assert lengths[..j] + lengths[j..] == lengths;
    SumAppend(lengths[..j], lengths[j..]);
    CutAppend(lengths[..j], lengths[j..], all);
    CutIgnoresTail(lengths[..j], all, []);
    assert Cut(lengths, all)[..j] == Cut(lengths[..j], all);
  }

  // ---------------------------------------------------------------------------
  // The printer
  // ---------------------------------------------------------------------------

  /** An abridged packet counts its payload in words of four bytes, in one byte or, after a marker, in
      three; `quickAck` sets the high bit of the first byte. */
  predicate Printable(payload: Bytes, long: bool) {
    |payload| % 4 == 0 && 0 < |payload| / 4 < (if long then 0x100_0000 else 0x7f)
  }

  function PrintAbridged(payload: Bytes, quickAck: bool, long: bool): Bytes
    requires Printable(payload, long)
  {
    var words := |payload| / 4;
    var flag: bv8 := if quickAck then 0x80 else 0;
    if long then [flag | 0x7f] + ToLE(words, 3) + payload else [flag | Byte(words)] + payload
  }

  ghost predicate IsAbridged(packet: Bytes) {
    exists payload, quickAck, long :: Printable(payload, long) && packet == PrintAbridged(payload, quickAck, long)
  }

  function EncodeIntermediate(payload: Bytes, quickAck: bool): Bytes
    requires 0 < |payload| < 0x8000_0000
  {
    ToLE(|payload| + (if quickAck then 0x8000_0000 else 0), 4) + payload
  }

  lemma LowBits(words: int, flag: bv8)
    requires 0 < words < 0x7f && (flag == 0 || flag == 0x80)
    ensures ((flag | Byte(words)) & 0x7f) as int == words
    ensures flag | Byte(words) != 0x7f && flag | Byte(words) != 0xff
  {
    var b := Byte(words);
    assert b < 0x7f;
    assert (flag | b) & 0x7f == b;
  }

  lemma PrintedIsWhole(payload: Bytes, quickAck: bool, long: bool)
    requires Printable(payload, long)
    ensures var packet := PrintAbridged(payload, quickAck, long); NextPacket(ABRIDGED, packet) == Packet(|packet|)
  {
    var words := |payload| / 4;
    var packet := PrintAbridged(payload, quickAck, long);
    if long {
      assert Pow256(3) == 0x100_0000 by { assert Pow256(1) == 256 && Pow256(2) == 65536; }
      LERoundTrip(words, 3);
      assert packet[1..4] == ToLE(words, 3);
    } else {
      LowBits(words, if quickAck then 0x80 else 0);
    }
  }

  lemma FirstByteParts(b: bv8)
    ensures b == (if b & 0x80 != 0 then 0x80 else 0) | (b & 0x7f)
    ensures b == 0x7f || b == 0xff <==> b & 0x7f == 0x7f
    ensures b == 0xff <==> b & 0x80 != 0 && b & 0x7f == 0x7f
  {
  }

  /** The reader accepts a whole abridged packet exactly when one of the two forms prints it. */
  lemma AbridgedExact(packet: Bytes)
    ensures NextPacket(ABRIDGED, packet) == Packet(|packet|) <==> IsAbridged(packet)
  {
    if NextPacket(ABRIDGED, packet) == Packet(|packet|) {
      if packet[0] == 0x7f || packet[0] == 0xff {
        LongForm(packet);
      } else {
        ShortForm(packet);
      }
    }
    if IsAbridged(packet) {
      var payload, quickAck, long :| Printable(payload, long) && packet == PrintAbridged(payload, quickAck, long);
      PrintedIsWhole(payload, quickAck, long);
    }
  }

  lemma LongPrinted(first: bv8, header: Bytes, payload: Bytes)
    requires (first == 0x7f || first == 0xff) && |header| == 3 && 0 < |payload| == FromLE(header) * 4
    ensures Printable(payload, true) && [first] + header + payload == PrintAbridged(payload, first == 0xff, true)
  {
    LEBytes(header);
    LESmall(header);
    assert Pow256(3) == 0x100_0000 by { assert Pow256(1) == 256 && Pow256(2) == 65536; }
    assert |payload| / 4 == FromLE(header);
    FirstByteParts(first);
  }

  lemma LongForm(packet: Bytes)
    requires NextPacket(ABRIDGED, packet) == Packet(|packet|) && (packet[0] == 0x7f || packet[0] == 0xff)
    ensures IsAbridged(packet)
  {
    LongPrinted(packet[0], packet[1..4], packet[4..]);
    assert packet == [packet[0]] + packet[1..4] + packet[4..];
  }

  lemma LowValue(first: bv8)
    requires first & 0x7f != 0x7f
    ensures (first & 0x7f) as int < 0x7f
  {
    var low := first & 0x7f;
    assert low < 0x7f;
  }

  lemma ShortPrinted(first: bv8, payload: Bytes, words: nat)
    requires first & 0x7f != 0x7f && words == (first & 0x7f) as int && 0 < |payload| == words * 4
    ensures Printable(payload, false) && [first] + payload == PrintAbridged(payload, first & 0x80 != 0, false)
  {
    LowValue(first);
    ByteOfValue(first & 0x7f);
    FirstByteParts(first);
    assert |payload| / 4 == words;
  }

  lemma ShortForm(packet: Bytes)
    requires NextPacket(ABRIDGED, packet) == Packet(|packet|) && packet[0] != 0x7f && packet[0] != 0xff
    ensures IsAbridged(packet)
  {
    FirstByteParts(packet[0]);
    ShortPrinted(packet[0], packet[1..], (packet[0] & 0x7f) as int);
    assert packet == [packet[0]] + packet[1..];
  }

  ghost predicate IsIntermediate(packet: Bytes) {
    exists payload, quickAck :: 0 < |payload| < 0x8000_0000 && packet == EncodeIntermediate(payload, quickAck)
  }

  lemma IntermediateIsWhole(proto: nat, payload: Bytes, quickAck: bool)
    requires proto == INTERMEDIATE || proto == PADDED
    requires 0 < |payload| < 0x8000_0000
    ensures NextPacket(proto, EncodeIntermediate(payload, quickAck)) == Packet(|EncodeIntermediate(payload, quickAck)|)
  {
    var n := |payload| + (if quickAck then 0x8000_0000 else 0);
    assert Pow256(4) == 0x1_0000_0000 by { assert Pow256(2) == 65536; }
    LERoundTrip(n, 4);
    var packet := EncodeIntermediate(payload, quickAck);
    assert packet[..4] == ToLE(n, 4);
    assert |packet| == 4 + |payload| && n % 0x8000_0000 == |payload|;
    assert NextPacket(proto, packet) == NextIntermediate(packet);
  }

  lemma HighBitParts(n: nat)
    requires n < 0x1_0000_0000
    ensures n == n % 0x8000_0000 + (if n >= 0x8000_0000 then 0x8000_0000 else 0)
  {
  }

  lemma IntermediateForm(packet: Bytes)
    requires NextIntermediate(packet) == Packet(|packet|)
    ensures IsIntermediate(packet)
  {
    var header, payload := packet[..4], packet[4..];
    var n := FromLE(header);
    LEBytes(header);
    LESmall(header);
    assert Pow256(4) == 0x1_0000_0000 by { assert Pow256(2) == 65536; }
    HighBitParts(n);
    assert |payload| == n % 0x8000_0000;
    assert packet == header + payload;
    assert header == ToLE(|payload| + (if n >= 0x8000_0000 then 0x8000_0000 else 0), 4);
    assert packet == EncodeIntermediate(payload, n >= 0x8000_0000);
  }

  /** The reader accepts a whole intermediate packet exactly when the printer writes it. */
  lemma IntermediateExact(proto: nat, packet: Bytes)
    requires proto == INTERMEDIATE || proto == PADDED
    ensures NextPacket(proto, packet) == Packet(|packet|) <==> IsIntermediate(packet)
  {
    if packet != [] && NextIntermediate(packet) == Packet(|packet|) {
      IntermediateForm(packet);
    }
    if IsIntermediate(packet) {
      var payload, quickAck :| 0 < |payload| < 0x8000_0000 && packet == EncodeIntermediate(payload, quickAck);
      IntermediateIsWhole(proto, payload, quickAck);
    }
  }

  /** What a packet is, by what its transport prints. */
  ghost predicate IsPacket(proto: nat, packet: Bytes) {
    if proto == ABRIDGED then IsAbridged(packet)
    else (proto == INTERMEDIATE || proto == PADDED) && IsIntermediate(packet)
  }

  lemma PacketExact(proto: nat, packet: Bytes)
    ensures NextPacket(proto, packet) == Packet(|packet|) <==> IsPacket(proto, packet)
  {
    if proto == ABRIDGED {
      AbridgedExact(packet);
    } else if proto == INTERMEDIATE || proto == PADDED {
      IntermediateExact(proto, packet);
    }
  }

  ghost predicate StartsPacket(proto: nat, plain: Bytes) {
    exists packet :: IsPacket(proto, packet) && packet <= plain
  }

  ghost predicate InsidePacket(proto: nat, plain: Bytes) {
    exists packet :: IsPacket(proto, packet) && plain < packet
  }

  /** A header that has arrived with a payload to come can be completed. */
  lemma Completed(proto: nat, plain: Bytes)
    requires ValidProto(proto) && |plain| >= 4 && NextPacket(proto, plain) == NeedMore
    ensures InsidePacket(proto, plain)
  {
    var header, payload :=
      if proto != ABRIDGED then 4 else if plain[0] == 0x7f || plain[0] == 0xff then 4 else 1,
      if proto != ABRIDGED then FromLE(plain[..4]) % 0x8000_0000
      else if plain[0] == 0x7f || plain[0] == 0xff then FromLE(plain[1..4]) * 4
      else (plain[0] & 0x7f) as int * 4;
    var packet := plain + Zeros(header + payload - |plain|);
    assert packet[..4] == plain[..4] && packet[1..4] == plain[1..4];
    PacketExact(proto, packet);
    assert plain < packet;
  }

  lemma {:induction false} LastIsOne(b: Bytes)
    requires b != [] && b[|b| - 1] == 1
    ensures Pow256(|b| - 1) <= FromLE(b) < 2 * Pow256(|b| - 1)
  {
    if |b| == 1 {
      assert FromLE(b[1..]) == 0;
    } else {
      LastIsOne(b[1..]);
    }
  }

  lemma OnesNotZero(b: Bytes)
    requires b != [] && b[|b| - 1] == 1
    ensures FromLE(b) > 0 && (|b| == 4 ==> FromLE(b) % 0x8000_0000 > 0)
  {
    LastIsOne(b);
    assert |b| == 4 ==> Pow256(|b| - 1) == 0x100_0000 by { assert Pow256(1) == 256 && Pow256(2) == 65536; }
  }

  /** A header that has not arrived completely can be continued to that of a nonempty packet. */
  lemma HeaderContinued(proto: nat, plain: Bytes)
    requires ValidProto(proto) && |plain| < 4 && NextPacket(proto, plain) == NeedMore
    ensures exists longer :: plain < longer && |longer| >= 4 && NextPacket(proto, longer) == NeedMore
  {
    var longer := Padded(plain);
    assert longer[..4] == longer && longer[1..4][2] == 1;
    OnesNotZero(longer[..4]);
    OnesNotZero(longer[1..4]);
    ShortHeader(proto, plain, longer);
  }

  function Padded(plain: Bytes): (longer: Bytes)
    requires |plain| < 4
    ensures |longer| == 4 && plain < longer && longer[3] == 1 && (plain == [] ==> longer[0] == 0x7f)
  {
    if plain == [] then [0x7f, 1, 1, 1]
    else if |plain| == 1 then [plain[0], 1, 1, 1]
    else if |plain| == 2 then [plain[0], plain[1], 1, 1]
    else [plain[0], plain[1], plain[2], 1]
  }

  lemma ShortHeader(proto: nat, plain: Bytes, longer: Bytes)
    requires ValidProto(proto) && |plain| < 4 == |longer| && plain < longer && NextPacket(proto, plain) == NeedMore
    requires FromLE(longer[..4]) % 0x8000_0000 > 0 && FromLE(longer[1..4]) > 0
    requires plain == [] ==> longer[0] == 0x7f
    ensures NextPacket(proto, longer) == NeedMore
  {
  }

  lemma NeedMoreIsInside(proto: nat, plain: Bytes)
    requires ValidProto(proto) && NextPacket(proto, plain) == NeedMore
    ensures InsidePacket(proto, plain)
  {
    if |plain| >= 4 {
      Completed(proto, plain);
    } else {
      HeaderContinued(proto, plain);
      var longer :| plain < longer && |longer| >= 4 && NextPacket(proto, longer) == NeedMore;
      Completed(proto, longer);
      var packet :| IsPacket(proto, packet) && longer < packet;
      assert plain < packet;
    }
  }

  lemma InsideNeedsMore(proto: nat, plain: Bytes, packet: Bytes)
    requires IsPacket(proto, packet) && plain < packet
    ensures NextPacket(proto, plain) == NeedMore
  {
    PacketExact(proto, packet);
    var rest := packet[|plain|..];
    assert plain + rest == packet;
    if NextPacket(proto, plain) != NeedMore {
      NextExtends(proto, plain, rest);
    }
  }

  lemma PacketAtStart(proto: nat, plain: Bytes, n: nat)
    ensures NextPacket(proto, plain) == Packet(n) <==> n <= |plain| && IsPacket(proto, plain[..n])
  {
    if NextPacket(proto, plain) == Packet(n) {
      NextExact(proto, plain, n);
    }
    if n <= |plain| {
      PacketExact(proto, plain[..n]);
      if IsPacket(proto, plain[..n]) {
        NextExtends(proto, plain[..n], plain[n..]);
        assert plain[..n] + plain[n..] == plain;
      }
    }
  }

  lemma StartsIff(proto: nat, plain: Bytes)
    ensures StartsPacket(proto, plain) <==> NextPacket(proto, plain).Packet?
  {
    if NextPacket(proto, plain).Packet? {
      var n := NextPacket(proto, plain).length;
      NextExact(proto, plain, n);
      PacketExact(proto, plain[..n]);
      assert plain[..n] <= plain;
    }
    if StartsPacket(proto, plain) {
      var packet :| IsPacket(proto, packet) && packet <= plain;
      PacketExact(proto, packet);
      NextExtends(proto, packet, plain[|packet|..]);
      assert packet + plain[|packet|..] == plain;
    }
  }

  /** What the reader says, in terms of packets alone: it cuts off the one whole packet the bytes start with,
      waits while they are the beginning of one, and gives up exactly when they are neither. */
  lemma NextPacketIff(proto: nat, plain: Bytes)
    requires ValidProto(proto)
    ensures forall n: nat :: NextPacket(proto, plain) == Packet(n) <==> n <= |plain| && IsPacket(proto, plain[..n])
    ensures NextPacket(proto, plain) == NeedMore <==> InsidePacket(proto, plain)
    ensures NextPacket(proto, plain) == Disable <==> !StartsPacket(proto, plain) && !InsidePacket(proto, plain)
  {
    forall n: nat
      ensures NextPacket(proto, plain) == Packet(n) <==> n <= |plain| && IsPacket(proto, plain[..n])
    {
      PacketAtStart(proto, plain, n);
    }
    if NextPacket(proto, plain) == NeedMore {
      NeedMoreIsInside(proto, plain);
    }
    if InsidePacket(proto, plain) {
      var packet :| IsPacket(proto, packet) && plain < packet;
      InsideNeedsMore(proto, plain, packet);
    }
    StartsIff(proto, plain);
  }

  /** Bytes of an unknown protocol are given up as soon as there are any. */
  lemma UnknownIsGivenUp(proto: nat, plain: Bytes)
    requires !ValidProto(proto)
    ensures NextPacket(proto, plain) == if plain == [] then NeedMore else Disable
  {
  }

  /** Alignment: in any run, each part emitted before a disable decrypts, at its own place in the
      keystream, to exactly one whole packet. */
  lemma PartsAreWholePackets(ks: Keystream, proto: nat, chunks: seq<Bytes>, j: nat)
    requires j < |Parse(proto, Xor(ks, 64, Flatten(chunks))).lengths|
    ensures |Parse(proto, Xor(ks, 64, Flatten(chunks))).lengths| <= |Run(ks, proto, chunks).1|
    ensures IsPacket(proto, Xor(ks, 64 + |Flatten(Run(ks, proto, chunks).1[..j])|, Run(ks, proto, chunks).1[j]))
  {
    ChunkingIndependence(ks, proto, chunks);
    CutDecrypts(ks, proto, Flatten(chunks), Run(ks, proto, chunks).1, j);
    PacketExact(proto, Xor(ks, 64 + |Flatten(Run(ks, proto, chunks).1[..j])|, Run(ks, proto, chunks).1[j]));
  }

  lemma CutDecrypts(ks: Keystream, proto: nat, all: Bytes, parts: seq<Bytes>, j: nat)
    requires j < |Parse(proto, Xor(ks, 64, all)).lengths| <= |parts|
    requires Sum(Parse(proto, Xor(ks, 64, all)).lengths) <= |all|
    requires parts[..|Parse(proto, Xor(ks, 64, all)).lengths|] == Cut(Parse(proto, Xor(ks, 64, all)).lengths, all)
    ensures NextPacket(proto, Xor(ks, 64 + |Flatten(parts[..j])|, parts[j])) == Packet(|parts[j]|)
  {
    var lengths := Parse(proto, Xor(ks, 64, all)).lengths;
    CutBefore(lengths, all, j);
    assert parts[..|lengths|][..j] == parts[..j] && parts[..|lengths|][j] == parts[j];
    PlainCutsAreWhole(proto, Xor(ks, 64, all), j);
    CutOfXor(ks, 64, lengths, all, j);
  }

  /** The batch parse stops inside a packet, or at bytes that are neither a packet nor the beginning of one. */
  lemma {:induction false} ParseRest(proto: nat, plain: Bytes)
    requires ValidProto(proto)
    ensures var r := Parse(proto, plain);
            && Sum(r.lengths) <= |plain|
            && (!r.disabled ==> InsidePacket(proto, plain[Sum(r.lengths)..]))
            && (r.disabled ==> !StartsPacket(proto, plain[Sum(r.lengths)..])
                               && !InsidePacket(proto, plain[Sum(r.lengths)..]))
    decreases |plain|
  {
    NextPacketIff(proto, plain);
    match NextPacket(proto, plain)
    case Packet(n) =>
      ParseStep(proto, plain, n);
      ParseRest(proto, plain[n..]);
      DropDrop(plain, n, Sum(Parse(proto, plain[n..]).lengths));
    case _ => assert plain[0..] == plain;
  }

  /** After the first j parts comes something that is neither a packet nor the beginning of one. */
  ghost predicate GivenUpAt(proto: nat, plain: Bytes, parts: seq<Bytes>, j: nat) {
    && j <= |parts| && |Flatten(parts[..j])| <= |plain|
    && !StartsPacket(proto, plain[|Flatten(parts[..j])|..]) && !InsidePacket(proto, plain[|Flatten(parts[..j])|..])
  }

  ghost predicate HeldBack(proto: nat, plain: Bytes, s: Splitter, parts: seq<Bytes>) {
    if s.disabled then exists j :: GivenUpAt(proto, plain, parts, j)
    else |Flatten(parts)| <= |plain| && s.plainBuf == plain[|Flatten(parts)|..] && InsidePacket(proto, s.plainBuf)
  }

  lemma HeldBackBy(proto: nat, all: Bytes, plain: Bytes, s: Splitter, parts: seq<Bytes>, lengths: seq<nat>)
    requires ValidProto(proto) && MatchesPlain(proto, all, plain, s, parts) && lengths == Parse(proto, plain).lengths
    ensures HeldBack(proto, plain, s, parts)
  {
    ParseRest(proto, plain);
    CutIgnoresTail(lengths, all, []);
    assert parts[..|lengths|] == Cut(lengths, all);
    assert |Flatten(parts[..|lengths|])| == Sum(lengths);
    if s.disabled {
      assert GivenUpAt(proto, plain, parts, |lengths|);
    } else {
      assert parts[..|lengths|] == parts;
    }
  }

  /** What a run holds back is always the beginning of a packet, decrypted at its place; it stops splitting
      exactly at what is neither a packet nor the beginning of one. */
  lemma HeldBackIsInside(ks: Keystream, proto: nat, chunks: seq<Bytes>)
    requires ValidProto(proto)
    ensures HeldBack(proto, Xor(ks, 64, Flatten(chunks)), Run(ks, proto, chunks).0, Run(ks, proto, chunks).1)
  {
    var plain := Xor(ks, 64, Flatten(chunks));
    ChunkingIndependence(ks, proto, chunks);
    HeldBackBy(proto, Flatten(chunks), plain, Run(ks, proto, chunks).0, Run(ks, proto, chunks).1,
               Parse(proto, plain).lengths);
  }

  ghost predicate WholePackets(proto: nat, packets: seq<Bytes>) {
    forall k :: 0 <= k < |packets| ==> IsPacket(proto, packets[k])
  }

  function Lengths(packets: seq<Bytes>): (r: seq<nat>) {
    if packets == [] then [] else [|packets[0]|] + Lengths(packets[1..])
  }

  lemma {:induction false} ParseOfPackets(proto: nat, packets: seq<Bytes>)
    requires WholePackets(proto, packets)
    ensures Parse(proto, Flatten(packets)) == Parsed(Lengths(packets), false)
  {
    if packets != [] {
      PacketExact(proto, packets[0]);
      NextExtends(proto, packets[0], Flatten(packets[1..]));
      assert Flatten(packets)[|packets[0]|..] == Flatten(packets[1..]);
      ParseOfPackets(proto, packets[1..]);
    }
  }

  function EncryptEach(ks: Keystream, pos: nat, packets: seq<Bytes>): seq<Bytes>
    decreases |packets|
  {
    if packets == [] then [] else [Xor(ks, pos, packets[0])] + EncryptEach(ks, pos + |packets[0]|, packets[1..])
  }

  lemma {:induction false} CutOfEncrypted(ks: Keystream, pos: nat, packets: seq<Bytes>)
    ensures Sum(Lengths(packets)) == |Flatten(packets)|
    ensures Cut(Lengths(packets), Xor(ks, pos, Flatten(packets))) == EncryptEach(ks, pos, packets)
    decreases |packets|
  {
    if packets != [] {
      var first, rest := packets[0], Flatten(packets[1..]);
      CutOfEncrypted(ks, pos + |first|, packets[1..]);
      XorAppend(ks, pos, first, rest);
      var c := Xor(ks, pos, first + rest);
      assert c[..|first|] == Xor(ks, pos, first) && c[|first|..] == Xor(ks, pos + |first|, rest);
      assert Lengths(packets)[1..] == Lengths(packets[1..]);
    }
  }

  /** End to end: encrypt any list of whole packets, deliver the ciphertext in any pieces, and the
      splitter emits exactly the encrypted packets, one part each, and holds nothing back. */
  lemma SplitRecoversPackets(ks: Keystream, proto: nat, packets: seq<Bytes>, chunks: seq<Bytes>)
    requires WholePackets(proto, packets)
    requires Flatten(chunks) == Xor(ks, 64, Flatten(packets))
    ensures Run(ks, proto, chunks).1 == EncryptEach(ks, 64, packets)
    ensures Run(ks, proto, chunks).0.cipherBuf == [] && !Run(ks, proto, chunks).0.disabled
  {
    ChunkingIndependence(ks, proto, chunks);
    XorTwice(ks, 64, Flatten(packets));
    ParseOfPackets(proto, packets);
    CutOfEncrypted(ks, 64, packets);
    var all := Flatten(chunks);
    RecoveredAll(EncryptEach(ks, 64, packets), all, Xor(ks, 64, all), Run(ks, proto, chunks).0,
                 Run(ks, proto, chunks).1);
  }

  lemma RecoveredAll(cuts: seq<Bytes>, all: Bytes, plain: Bytes, s: Splitter, parts: seq<Bytes>)
    requires Agrees(cuts, |all|, false, all, plain, s, parts)
    ensures parts == cuts && s.cipherBuf == [] && !s.disabled
  {
  }

  // ---------------------------------------------------------------------------
  // The splitter
  // ---------------------------------------------------------------------------

  class MsgSplitter {
    const stream: Stream
    const proto: nat
    var cipherBuf: Bytes
    var plainBuf: Bytes
    var disabled: bool

    function Value(): Splitter reads this, stream {
      Splitter(stream.pos, cipherBuf, plainBuf, disabled)
    }

    /** `newMsgSplitter`, given the keystream and the protocol decoded from the init packet. */
    constructor (ks: Keystream, proto: nat)
      ensures Value() == Run(ks, proto, []).0 && this.proto == proto && stream.ks == ks && fresh(stream)
    {
      var s := new Stream(ks);
      var skipped := s.XORKeyStream(seq(64, _ => 0));
      stream := s;
      this.proto := proto;
      cipherBuf, plainBuf, disabled := [], [], false;
    }

    method NextPacketLen(offset: nat, avail: nat) returns (packetLen: nat, complete: bool, disable: bool)
      requires offset + avail == |plainBuf|
      ensures match NextPacket(proto, plainBuf[offset..])
              case NeedMore => !complete && !disable
              case Disable => complete && disable
              case Packet(n) => complete && !disable && packetLen == n
    {
      if avail <= 0 {
        return 0, false, false;
      }
      ghost var rest := plainBuf[offset..];
      var headerLen, payloadLen;
      if proto == ABRIDGED {
        var first := plainBuf[offset];
        headerLen, payloadLen := 1, (first & 0x7f) as int * 4;
        if first == 0x7f || first == 0xff {
          if avail < 4 {
            return 0, false, false;
          }
          assert plainBuf[offset + 1..offset + 4] == rest[1..4];
          headerLen, payloadLen := 4, FromLE(plainBuf[offset + 1..offset + 4]) * 4;
        }
      } else if proto == INTERMEDIATE || proto == PADDED {
        if avail < 4 {
          return 0, false, false;
        }
        assert plainBuf[offset..offset + 4] == rest[..4];
        headerLen, payloadLen := 4, FromLE(plainBuf[offset..offset + 4]) % 0x8000_0000;
      } else {
        return 0, true, true;
      }
      if payloadLen <= 0 {
        return 0, true, true;
      }
      packetLen := headerLen + payloadLen;
      if avail < packetLen {
        return 0, false, false;
      }
      return packetLen, true, false;
    }

    method Split(chunk: Bytes) returns (parts: seq<Bytes>)
      requires |plainBuf| == |cipherBuf|
      modifies this, stream
      ensures |plainBuf| == |cipherBuf|
      ensures (Value(), parts) == SplitChunk(stream.ks, proto, old(Value()), chunk)
    {
      parts := [];
      if |chunk| == 0 {
        return;
      }
      if disabled {
        return [chunk];
      }
      var plain := stream.XORKeyStream(chunk);
      cipherBuf := cipherBuf + chunk;
      plainBuf := plainBuf + plain;
      ghost var cipher0, plain0 := cipherBuf, plainBuf;
      var offset;
      parts, offset, disabled := CutReady();
      assert SplitChunk(stream.ks, proto, old(Value()), chunk)
          == SplitBuffer(Parse(proto, plain0), stream.pos, cipher0, plain0);
      if offset > 0 {
        cipherBuf := cipherBuf[offset..];
        plainBuf := plainBuf[offset..];
      }
    }

    /** The cutting loop: the parts ready in the buffer and how much of it they use. */
    method CutReady() returns (parts: seq<Bytes>, offset: nat, disable: bool)
      requires |plainBuf| == |cipherBuf|
      ensures disable == Parse(proto, plainBuf).disabled
      ensures Sum(Parse(proto, plainBuf).lengths) <= |cipherBuf|
      ensures parts == Emit(Parse(proto, plainBuf), cipherBuf)
      ensures offset == if disable then |cipherBuf| else Sum(Parse(proto, plainBuf).lengths)
    {
      parts, offset, disable := [], 0, false;
      ghost var lengths: seq<nat> := [];
      var bufLen := |cipherBuf|;
      while offset < bufLen
        invariant offset <= bufLen
        invariant Found(proto, plainBuf, lengths) && Sum(lengths) == offset
        invariant parts == Cut(lengths, cipherBuf)
        invariant !disable
      {
        var packetLen, complete, stop := NextPacketLen(offset, bufLen - offset);
        if !complete {
          break;
        }
        if stop {
          FoundAll(proto, plainBuf, lengths);
          parts := parts + [cipherBuf[offset..]];
          offset := bufLen;
          disable := true;
          return;
        }
        FoundNext(proto, plainBuf, cipherBuf, lengths, packetLen);
        lengths := lengths + [packetLen];
        parts := parts + [cipherBuf[offset..offset + packetLen]];
        offset := offset + packetLen;
      }
      FoundAll(proto, plainBuf, lengths);
    }

    /** Give up what is buffered as one part. */
    method Flush() returns (parts: seq<Bytes>)
      requires |plainBuf| == |cipherBuf|
      modifies this
      ensures parts == if old(cipherBuf) == [] then [] else [old(cipherBuf)]
      ensures cipherBuf == [] == plainBuf && disabled == old(disabled)
    {
      parts := [];
      if |cipherBuf| == 0 {
        return;
      }
      parts := [cipherBuf];
      cipherBuf, plainBuf := [], [];
    }
  }

  /** The packets found so far, one after the other from the start of the buffer. */
  ghost predicate Found(proto: nat, plain: Bytes, lengths: seq<nat>) {
    lengths == [] ||
    (&& Found(proto, plain, lengths[..|lengths| - 1])
     && Sum(lengths[..|lengths| - 1]) <= |plain|
     && NextPacket(proto, plain[Sum(lengths[..|lengths| - 1])..]) == Packet(lengths[|lengths| - 1]))
  }

  lemma FoundNext(proto: nat, plain: Bytes, cipher: Bytes, lengths: seq<nat>, n: nat)
    requires Found(proto, plain, lengths) && Sum(lengths) <= |plain| == |cipher|
    requires NextPacket(proto, plain[Sum(lengths)..]) == Packet(n)
    ensures Found(proto, plain, lengths + [n]) && Sum(lengths + [n]) == Sum(lengths) + n <= |plain|
    ensures Cut(lengths + [n], cipher) == Cut(lengths, cipher) + [cipher[Sum(lengths)..Sum(lengths) + n]]
  {
    assert (lengths + [n])[..|lengths|] == lengths;
    CutAppend(lengths, [n], cipher);
    assert cipher[Sum(lengths)..][..n] == cipher[Sum(lengths)..Sum(lengths) + n];
  }

  /** Where the search stops, the batch parse has found the same packets. */
  lemma {:induction false} FoundThenParse(proto: nat, plain: Bytes, lengths: seq<nat>)
    requires Found(proto, plain, lengths)
    ensures Sum(lengths) <= |plain|
    ensures Parse(proto, plain) == Join(lengths, Parse(proto, plain[Sum(lengths)..]))
  {
    if lengths == [] {
      assert plain[0..] == plain;
    } else {
      var init, n := lengths[..|lengths| - 1], lengths[|lengths| - 1];
      var rest := plain[Sum(init)..];
      FoundThenParse(proto, plain, init);
      SumAppend(init, [n]);
      assert lengths == init + [n];
      DropDrop(plain, Sum(init), n);
      ParseStep(proto, rest, n);
      JoinAssoc(init, [n], Parse(proto, rest[n..]));
    }
  }

  lemma FoundAll(proto: nat, plain: Bytes, lengths: seq<nat>)
    requires Found(proto, plain, lengths) && Sum(lengths) <= |plain|
    requires !NextPacket(proto, plain[Sum(lengths)..]).Packet?
    ensures Parse(proto, plain) == Parsed(lengths, NextPacket(proto, plain[Sum(lengths)..]) == Disable)
  {
    FoundThenParse(proto, plain, lengths);
    assert lengths + [] == lengths;
  }
}
