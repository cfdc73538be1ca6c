/**
 WebSocket frames and message reassembly (RFC 6455, sections 5.2 to 5.5):
 native/tgwsproxy/flowseal_websocket_frames.go and
 native/tgwsproxy/mtproto_websocket_frames.go.
 */
module WebSocketFrames {
  import opened ByteStreams
  import opened WebSocketMask

  const MAX_MESSAGE: nat := 16 * 1024 * 1024

  const OP_CONTINUATION: bv8 := 0x0
  const OP_TEXT: bv8 := 0x1
  const OP_BINARY: bv8 := 0x2
  const OP_CLOSE: bv8 := 0x8
  const OP_PING: bv8 := 0x9

  datatype Frame = Frame(fin: bool, opcode: bv8, payload: Bytes)

  type Mask = m: Option<Bytes> | m.Some? ==> |m.value| == 4 witness None

  // ---------------------------------------------------------------------------
  // Writing
  // ---------------------------------------------------------------------------

  function FirstByte(fin: bool, opcode: bv8): bv8 {
    if fin then 0x80 | opcode else opcode
  }

  function SecondByte(masked: bool, code: bv8): bv8 {
    if masked then 0x80 | code else code
  }

  function LengthField(masked: bool, n: nat): Bytes {
    if n < 126 then [SecondByte(masked, Byte(n))]
    else if n < 65536 then [SecondByte(masked, 126)] + ToBE(n, 2)
    else [SecondByte(masked, 127)] + ToBE(n, 8)
  }

  function Header(fin: bool, opcode: bv8, masked: bool, n: nat): Bytes {
    [FirstByte(fin, opcode)] + LengthField(masked, n)
  }

  function Body(payload: Bytes, mask: Mask): Bytes {
    match mask
    case None => payload
    case Some(key) => key + Masked(payload, key)
  }

  function Encode(f: Frame, mask: Mask): Bytes {
    Header(f.fin, f.opcode, mask.Some?, |f.payload|) + Body(f.payload, mask)
  }

  // ---------------------------------------------------------------------------
  // Reading
  // ---------------------------------------------------------------------------

  /** `Short` stands for any read error before the frame is complete. */
  datatype Read = Got(frame: Frame, rest: Bytes) | Short | TooLarge(length: nat)

  function ExtendedWidth(code: bv8): nat {
    if code == 126 then 2 else if code == 127 then 8 else 0
  }

  /** What the first two bytes say; `code` is the seven-bit length. */
  datatype Flags = Flags(fin: bool, opcode: bv8, masked: bool, code: bv8)

  function ReadFlags(first: bv8, second: bv8): Flags {
    Flags(first & 0x80 != 0, first & 0x0F, second & 0x80 != 0, second & 0x7F)
  }

  /** The flags, the payload length and the size of a complete header (without the key). */
  datatype Head = Head(flags: Flags, length: nat, size: nat)

  function ReadHead(input: Bytes): (r: Option<Head>)
    ensures r.Some? ==> 2 <= r.value.size <= |input|
  {
    if |input| < 2 then None else ReadLength(ReadFlags(input[0], input[1]), input[2..])
  }

  function ReadLength(flags: Flags, after: Bytes): (r: Option<Head>)
    ensures r.Some? ==> 2 <= r.value.size <= 2 + |after|
  {
    var width := ExtendedWidth(flags.code);
    if |after| < width then None
    else Some(Head(flags, if width == 0 then flags.code as int else FromBE(after[..width]), 2 + width))
  }

  function ReadFrame(limit: nat, input: Bytes): (r: Read)
    ensures r.Got? ==> |r.rest| < |input|
  {
    match ReadHead(input)
    case None => Short
    case Some(head) =>
      if head.length > limit then TooLarge(head.length)
      else ReadBody(head.flags.fin, head.flags.opcode, head.length, head.flags.masked, input[head.size..])
  }

  function ReadBody(fin: bool, opcode: bv8, length: nat, masked: bool, input: Bytes): (r: Read)
    ensures r.Got? ==> |r.rest| <= |input|
  {
    var keyLength := if masked then 4 else 0;
    if |input| < keyLength + length then Short
    else
      var payload := input[keyLength..keyLength + length];
      Got(Frame(fin, opcode, if masked then Masked(payload, input[..4]) else payload), input[keyLength + length..])
  }

  // ---------------------------------------------------------------------------
  // Reading back what was written
  // ---------------------------------------------------------------------------

  lemma FlagsRoundTrip(f: Flags)
    requires f.opcode < 16 && f.code < 0x80
    ensures ReadFlags(FirstByte(f.fin, f.opcode), SecondByte(f.masked, f.code)) == f
  {
    FirstByteBits(f.fin, f.opcode);
    SecondByteBits(f.masked, f.code);
  }

  lemma FirstByteBits(fin: bool, opcode: bv8)
    requires opcode < 16
    ensures FirstByte(fin, opcode) & 0x80 != 0 <==> fin
    ensures FirstByte(fin, opcode) & 0x0F == opcode
  {
  }

  lemma SecondByteBits(masked: bool, code: bv8)
    requires code < 0x80
    ensures SecondByte(masked, code) & 0x80 != 0 <==> masked
    ensures SecondByte(masked, code) & 0x7F == code
  {
  }

  function Code(n: nat): (code: bv8)
    ensures code < 0x80
  {
    if n < 126 then Byte(n) else if n < 65536 then 126 else 127
  }

  lemma HeaderShape(fin: bool, opcode: bv8, masked: bool, n: nat)
    ensures var h, width := Header(fin, opcode, masked, n), ExtendedWidth(Code(n));
            && |h| == 2 + width
            && h[0] == FirstByte(fin, opcode) && h[1] == SecondByte(masked, Code(n))
            && h[2..] == ToBE(n, width)
  {
    if n < 126 {
      assert Code(n) as int == n;
      assert Code(n) < 126;
    }
  }

  lemma LengthRead(flags: Flags, n: nat, tail: Bytes)
    requires n < Pow256(8) && flags.code == Code(n)
    ensures var width := ExtendedWidth(Code(n));
            ReadLength(flags, ToBE(n, width) + tail) == Some(Head(flags, n, 2 + width))
  {
    var width := ExtendedWidth(Code(n));
    if n < 126 {
      assert Code(n) as int == n;
      assert Code(n) < 126;
    } else {
      assert Pow256(2) == 65536;
      BERoundTrip(n, width);
    }
    assert (ToBE(n, width) + tail)[..width] == ToBE(n, width);
  }

  lemma HeadRead(fin: bool, opcode: bv8, masked: bool, n: nat, tail: Bytes)
    requires opcode < 16 && n < Pow256(8)
    ensures var h := Header(fin, opcode, masked, n);
            ReadHead(h + tail) == Some(Head(Flags(fin, opcode, masked, Code(n)), n, |h|))
  {
    var h := Header(fin, opcode, masked, n);
    var flags := Flags(fin, opcode, masked, Code(n));
    HeaderShape(fin, opcode, masked, n);
    FlagsRoundTrip(flags);
    assert (h + tail)[2..] == h[2..] + tail;
    LengthRead(flags, n, tail);
  }

  lemma HeaderRead(limit: nat, fin: bool, opcode: bv8, masked: bool, n: nat, tail: Bytes)
    requires opcode < 16 && n < Pow256(8)
    ensures ReadFrame(limit, Header(fin, opcode, masked, n) + tail)
         == if n > limit then TooLarge(n) else ReadBody(fin, opcode, n, masked, tail)
  {
    var h := Header(fin, opcode, masked, n);
    HeadRead(fin, opcode, masked, n, tail);
    assert (h + tail)[|h|..] == tail;
  }

  lemma BodyRead(fin: bool, opcode: bv8, payload: Bytes, mask: Mask, rest: Bytes)
    ensures ReadBody(fin, opcode, |payload|, mask.Some?, Body(payload, mask) + rest)
         == Got(Frame(fin, opcode, payload), rest)
  {
    var input := Body(payload, mask) + rest;
    match mask
    case None =>
      assert input[0..|payload|] == payload && input[|payload|..] == rest;
    case Some(key) =>
      assert input[..4] == key && input[4..4 + |payload|] == Masked(payload, key);
      assert input[4 + |payload|..] == rest;
      MaskedTwice(payload, key);
  }

  /** What `build` writes, the reader reads back, whatever follows; a payload over the limit is refused. */
  lemma FrameRoundTrip(limit: nat, f: Frame, mask: Mask, rest: Bytes)
    requires f.opcode < 16 && |f.payload| < Pow256(8)
    ensures ReadFrame(limit, Encode(f, mask) + rest)
         == if |f.payload| > limit then TooLarge(|f.payload|) else Got(f, rest)
  {
    var h, body := Header(f.fin, f.opcode, mask.Some?, |f.payload|), Body(f.payload, mask);
    assert Encode(f, mask) + rest == h + (body + rest);
    HeaderRead(limit, f.fin, f.opcode, mask.Some?, |f.payload|, body + rest);
    BodyRead(f.fin, f.opcode, f.payload, mask, rest);
  }

  /** A frame that has not arrived completely is never taken for another frame. */
  lemma NoFrameFromPrefix(limit: nat, f: Frame, mask: Mask, k: nat)
    requires f.opcode < 16 && |f.payload| <= limit && |f.payload| < Pow256(8)
    requires k < |Encode(f, mask)|
    ensures ReadFrame(limit, Encode(f, mask)[..k]) == Short
  {
    var all := Encode(f, mask);
    FrameRoundTrip(limit, f, mask, []);
    assert all + [] == all == all[..k] + all[k..];
    NothingLeft(limit, all[..k], all[k..], f);
  }

  lemma NothingLeft(limit: nat, part: Bytes, more: Bytes, f: Frame)
    requires ReadFrame(limit, part + more) == Got(f, []) && more != []
    ensures ReadFrame(limit, part) == Short
  {
    ReadExtends(limit, part, more);
  }

  lemma LengthExtends(flags: Flags, after: Bytes, more: Bytes)
    ensures ReadLength(flags, after).Some? ==> ReadLength(flags, after + more) == ReadLength(flags, after)
  {
    var width := ExtendedWidth(flags.code);
    if |after| >= width {
      assert (after + more)[..width] == after[..width];
    }
  }

  lemma HeadExtends(input: Bytes, more: Bytes)
    ensures ReadHead(input).Some? ==> ReadHead(input + more) == ReadHead(input)
  {
    if |input| >= 2 {
      assert (input + more)[2..] == input[2..] + more;
      LengthExtends(ReadFlags(input[0], input[1]), input[2..], more);
    }
  }

  /** More input changes the answer only where the answer was that input is missing. */
  lemma ReadExtends(limit: nat, input: Bytes, more: Bytes)
    ensures match ReadFrame(limit, input)
            case Got(f, rest) => ReadFrame(limit, input + more) == Got(f, rest + more)
            case TooLarge(n) => ReadFrame(limit, input + more) == TooLarge(n)
            case Short => true
  {
    HeadExtends(input, more);
    match ReadHead(input)
    case None =>
    case Some(head) =>
      assert (input + more)[head.size..] == input[head.size..] + more;
      BodyExtends(head.flags.fin, head.flags.opcode, head.length, head.flags.masked, input[head.size..], more);
  }

  lemma BodyExtends(fin: bool, opcode: bv8, length: nat, masked: bool, input: Bytes, more: Bytes)
    ensures match ReadBody(fin, opcode, length, masked, input)
            case Got(f, rest) => ReadBody(fin, opcode, length, masked, input + more) == Got(f, rest + more)
            case _ => true
  {
    var keyLength := if masked then 4 else 0;
    if |input| >= keyLength + length {
      assert (input + more)[keyLength..keyLength + length] == input[keyLength..keyLength + length];
      assert (input + more)[keyLength + length..] == input[keyLength + length..] + more;
      if masked {
        assert (input + more)[..4] == input[..4];
      }
    }
  }

  // ---------------------------------------------------------------------------
  // The examples of RFC 6455, section 5.7
  // ---------------------------------------------------------------------------

  const HELLO: Bytes := [0x48, 0x65, 0x6c, 0x6c, 0x6f]
  const EXAMPLE_KEY: Bytes := [0x37, 0xfa, 0x21, 0x3d]

  /** A whole message, its two fragments, a ping and a close frame, none of them masked. */
  lemma UnmaskedExamples()
    ensures Encode(Frame(true, OP_TEXT, HELLO), None) == [0x81, 0x05, 0x48, 0x65, 0x6c, 0x6c, 0x6f]
    ensures Encode(Frame(false, OP_TEXT, HELLO[..3]), None) == [0x01, 0x03, 0x48, 0x65, 0x6c]
    ensures Encode(Frame(true, OP_CONTINUATION, HELLO[3..]), None) == [0x80, 0x02, 0x6c, 0x6f]
    ensures Encode(Frame(true, OP_PING, HELLO), None) == [0x89, 0x05, 0x48, 0x65, 0x6c, 0x6c, 0x6f]
    ensures Encode(Frame(true, OP_CLOSE, []), None) == [0x88, 0x00]
  {
    ShortLength(false, 0);
    ShortLength(false, 2);
    ShortLength(false, 3);
    ShortLength(false, 5);
  }

  lemma ShortLength(masked: bool, n: nat)
    requires n < 126
    ensures LengthField(masked, n) == [if masked then 0x80 | (n as bv8) else n as bv8]
  {
    ByteValue(n);
    assert Byte(n) == n as bv8;
  }

  /** The same message masked with the key of the example. */
  lemma MaskedExample()
    ensures Encode(Frame(true, OP_TEXT, HELLO), Some(EXAMPLE_KEY))
         == [0x81, 0x85, 0x37, 0xfa, 0x21, 0x3d, 0x7f, 0x9f, 0x4d, 0x51, 0x58]
  {
    ShortLength(true, 5);
    assert Masked(HELLO, EXAMPLE_KEY) == [0x7f, 0x9f, 0x4d, 0x51, 0x58];
  }

  /** 256 bytes and 64 KiB of binary data: the two longer length fields. */
  lemma LongExamples()
    ensures Header(true, OP_BINARY, false, 256) == [0x82, 0x7E, 0x01, 0x00]
    ensures Header(true, OP_BINARY, false, 65536) == [0x82, 0x7F, 0x00, 0x00, 0x00, 0x00, 0x00, 0x01, 0x00, 0x00]
    ensures MAX_MESSAGE == 0x100_0000
  {
    LowByte(256, 1, 1, 0);
    LowByte(1, 0, 0, 1);
    Zeros(5);
    LowByte(1, 5, 0, 1);
    LowByte(256, 6, 1, 0);
    LowByte(65536, 7, 256, 0);
  }

  lemma LowByte(n: nat, width: nat, high: nat, low: nat)
    requires low < 256 && n == 256 * high + low
    ensures ToBE(n, width + 1) == ToBE(high, width) + [low as bv8]
  {
    ByteValue(low);
    assert n / 256 == high && n % 256 == low;
    assert Byte(low) == low as bv8;
  }

  lemma {:induction false} Zeros(width: nat)
    ensures ToBE(0, width) == seq(width, _ => 0)
  {
    if width > 0 {
      LowByte(0, width - 1, 0, 0);
      Zeros(width - 1);
    }
  }

  // ---------------------------------------------------------------------------
  // The buffers
  // ---------------------------------------------------------------------------

  /** `copy(frame[at:], bytes)`, and with `ToBE` for `bytes` also `binary.BigEndian.PutUint16/64`. */
  method Put(frame: array<bv8>, at: nat, bytes: Bytes)
    requires at + |bytes| <= frame.Length
    modifies frame
    ensures frame[..at + |bytes|] == old(frame[..at]) + bytes
    ensures frame[at + |bytes|..] == old(frame[at + |bytes|..])
  {
    forall k | 0 <= k < |bytes| {
      frame[at + k] := bytes[k];
    }
  }

  method BuildHeader(frame: array<bv8>, fin: bool, opcode: bv8, masked: bool, length: nat) returns (position: nat)
    requires frame.Length >= |Header(fin, opcode, masked, length)|
    modifies frame
    ensures position == |Header(fin, opcode, masked, length)|
    ensures frame[..position] == Header(fin, opcode, masked, length)
  {
    if fin {
      frame[0] := 0x80 | opcode;
    } else {
      frame[0] := opcode;
    }
    position := 1;
    if length < 126 {
      Put(frame, position, [SecondByte(masked, Byte(length))]);
      position := position + 1;
    } else if length < 65536 {
      Put(frame, position, [SecondByte(masked, 126)]);
      position := position + 1;
      Put(frame, position, ToBE(length, 2));
      position := position + 2;
    } else {
      Put(frame, position, [SecondByte(masked, 127)]);
      position := position + 1;
      Put(frame, position, ToBE(length, 8));
      position := position + 8;
    }
  }

  function HeaderLength(masked: bool, length: nat): nat {
    2 + (if 126 <= length < 65536 then 2 else if length >= 65536 then 8 else 0) + (if masked then 4 else 0)
  }

  /** `buildFlowsealSingleFrame`; the random key is an argument. */
  method BuildSingleFrame(opcode: bv8, payload: Bytes, mask: Mask, fin: bool) returns (frame: array<bv8>)
    ensures fresh(frame) && frame[..] == Encode(Frame(fin, opcode, payload), mask)
  {
    var length := |payload|;
    frame := new bv8[HeaderLength(mask.Some?, length) + length];
    var position := BuildHeader(frame, fin, opcode, mask.Some?, length);
    BuildBody(frame, position, payload, mask);
    assert frame[..] == frame[..position] + frame[position..];
  }

  method BuildBody(frame: array<bv8>, position: nat, payload: Bytes, mask: Mask)
    requires position + |Body(payload, mask)| == frame.Length
    modifies frame
    ensures frame[..position] == old(frame[..position]) && frame[position..] == Body(payload, mask)
  {
    if mask == None {
      Put(frame, position, payload);
      return;
    }
    Put(frame, position, mask.value);
    PutMasked(frame, position + 4, payload, mask.value);
    assert frame[position..] == frame[..position + 4][position..] + frame[position + 4..];
  }

  method PutMasked(frame: array<bv8>, position: nat, payload: Bytes, key: Bytes)
    requires position + |payload| == frame.Length && |key| == 4
    modifies frame
    ensures frame[..position] == old(frame[..position]) && frame[position..] == Masked(payload, key)
  {
    Put(frame, position, payload);
    assert frame[position..frame.Length] == payload;
    XorMaskInPlace(frame, position, frame.Length, key);
    assert frame[position..frame.Length] == frame[position..];
  }

  /** `readFrame`: the payload is unmasked in the buffer it was read into. */
  method ReadNextFrame(limit: nat, input: Bytes) returns (r: Read)
    ensures r == ReadFrame(limit, input)
  {
    if |input| < 2 {
      return Short;
    }
    var fin := input[0] & 0x80 != 0;
    var opcode := input[0] & 0x0F;
    var code := input[1] & 0x7F;
    var length: nat := code as int;
    var at := 2;
    if code == 126 {
      if |input| < at + 2 {
        return Short;
      }
      assert input[2..][..2] == input[2..4];
      length := FromBE(input[at..at + 2]);
      at := at + 2;
    } else if code == 127 {
      if |input| < at + 8 {
        return Short;
      }
      assert input[2..][..8] == input[2..10];
      length := FromBE(input[at..at + 8]);
      at := at + 8;
    }
    if length > limit {
      return TooLarge(length);
    }
    r := ReadPayload(fin, opcode, length, input[1] & 0x80 != 0, input[at..]);
  }

  method ReadPayload(fin: bool, opcode: bv8, length: nat, hasMask: bool, input: Bytes) returns (r: Read)
    ensures r == ReadBody(fin, opcode, length, hasMask, input)
  {
    var at := 0;
    var mask := [0, 0, 0, 0];
    if hasMask {
      if |input| < 4 {
        return Short;
      }
      mask := input[..4];
      at := 4;
    }
    if |input| < at + length {
      return Short;
    }
    var payload := new bv8[length];
    Put(payload, 0, input[at..at + length]);
    assert payload[..length] == payload[0..length] == input[at..at + length];
    if hasMask {
      XorMaskInPlace(payload, 0, length, mask);
    }
    r := Got(Frame(fin, opcode, payload[..]), input[at + length..]);
    assert payload[..] == payload[0..length];
  }
}
