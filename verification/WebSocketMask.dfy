/**
 WebSocket payload masking (RFC 6455, section 5.3), eight bytes at a time
 (`xorMaskInPlace`, native/tgwsproxy/tg-ws-proxy.go).
 */
module WebSocketMask {
  import opened ByteStreams

  /** The definition of masking: byte i is combined with key byte i mod 4. */
  function Masked(data: Bytes, mask: Bytes): (r: Bytes)
    requires |mask| == 4
    ensures |r| == |data|
  {
    seq(|data|, i requires 0 <= i < |data| => data[i] ^ mask[i % 4])
  }

  lemma MaskedTwice(data: Bytes, mask: Bytes)
    requires |mask| == 4
    ensures Masked(Masked(data, mask), mask) == data
  {
    forall i | 0 <= i < |data|
      ensures (data[i] ^ mask[i % 4]) ^ mask[i % 4] == data[i]
    {
      XorTwice(data[i], mask[i % 4]);
    }
  }

  lemma XorTwice(a: bv8, b: bv8)
    ensures (a ^ b) ^ b == a
  {
  }

  // ---------------------------------------------------------------------------
  // Little-endian words
  // ---------------------------------------------------------------------------

  /** Eight bytes as a little-endian word. */
  function Word(b0: bv8, b1: bv8, b2: bv8, b3: bv8, b4: bv8, b5: bv8, b6: bv8, b7: bv8): bv64 {
    (b0 as bv64) | ((b1 as bv64) << (8 as bv6)) | ((b2 as bv64) << (16 as bv6)) | ((b3 as bv64) << (24 as bv6)) |
    ((b4 as bv64) << (32 as bv6)) | ((b5 as bv64) << (40 as bv6)) | ((b6 as bv64) << (48 as bv6)) |
    ((b7 as bv64) << (56 as bv6))
  }

  function Low(w: bv64): bv8 {
    (w & 0xFF) as bv8
  }

  /** The word operation on the first four bytes is four byte operations ... */
  lemma MaskedLowHalf(b0: bv8, b1: bv8, b2: bv8, b3: bv8, b4: bv8, b5: bv8, b6: bv8, b7: bv8,
                      m0: bv8, m1: bv8, m2: bv8, m3: bv8)
    ensures Low(Word(b0, b1, b2, b3, b4, b5, b6, b7) ^ Word(m0, m1, m2, m3, m0, m1, m2, m3)) == b0 ^ m0
    ensures Low((Word(b0, b1, b2, b3, b4, b5, b6, b7) ^ Word(m0, m1, m2, m3, m0, m1, m2, m3)) >> (8 as bv6)) == b1 ^ m1
    ensures Low((Word(b0, b1, b2, b3, b4, b5, b6, b7) ^ Word(m0, m1, m2, m3, m0, m1, m2, m3)) >> (16 as bv6)) == b2 ^ m2
    ensures Low((Word(b0, b1, b2, b3, b4, b5, b6, b7) ^ Word(m0, m1, m2, m3, m0, m1, m2, m3)) >> (24 as bv6)) == b3 ^ m3
  {
  }

  /** ... and on the last four, with the same four key bytes. */
  lemma MaskedHighHalf(b0: bv8, b1: bv8, b2: bv8, b3: bv8, b4: bv8, b5: bv8, b6: bv8, b7: bv8,
                       m0: bv8, m1: bv8, m2: bv8, m3: bv8)
    ensures Low((Word(b0, b1, b2, b3, b4, b5, b6, b7) ^ Word(m0, m1, m2, m3, m0, m1, m2, m3)) >> (32 as bv6)) == b4 ^ m0
    ensures Low((Word(b0, b1, b2, b3, b4, b5, b6, b7) ^ Word(m0, m1, m2, m3, m0, m1, m2, m3)) >> (40 as bv6)) == b5 ^ m1
    ensures Low((Word(b0, b1, b2, b3, b4, b5, b6, b7) ^ Word(m0, m1, m2, m3, m0, m1, m2, m3)) >> (48 as bv6)) == b6 ^ m2
    ensures Low((Word(b0, b1, b2, b3, b4, b5, b6, b7) ^ Word(m0, m1, m2, m3, m0, m1, m2, m3)) >> (56 as bv6)) == b7 ^ m3
  {
  }

  /** One exclusive-or of words, and the bytes it puts back. */
  method XorWords(b0: bv8, b1: bv8, b2: bv8, b3: bv8, b4: bv8, b5: bv8, b6: bv8, b7: bv8,
                  m0: bv8, m1: bv8, m2: bv8, m3: bv8)
    returns (r0: bv8, r1: bv8, r2: bv8, r3: bv8, r4: bv8, r5: bv8, r6: bv8, r7: bv8)
    ensures r0 == b0 ^ m0 && r1 == b1 ^ m1 && r2 == b2 ^ m2 && r3 == b3 ^ m3
    ensures r4 == b4 ^ m0 && r5 == b5 ^ m1 && r6 == b6 ^ m2 && r7 == b7 ^ m3
  {
    var w := Word(b0, b1, b2, b3, b4, b5, b6, b7) ^ Word(m0, m1, m2, m3, m0, m1, m2, m3);
    r0, r1, r2, r3 := Low(w), Low(w >> (8 as bv6)), Low(w >> (16 as bv6)), Low(w >> (24 as bv6));
    r4, r5, r6, r7 := Low(w >> (32 as bv6)), Low(w >> (40 as bv6)), Low(w >> (48 as bv6)), Low(w >> (56 as bv6));
    MaskedLowHalf(b0, b1, b2, b3, b4, b5, b6, b7, m0, m1, m2, m3);
    MaskedHighHalf(b0, b1, b2, b3, b4, b5, b6, b7, m0, m1, m2, m3);
  }

  ghost predicate FourMasked(r0: bv8, r1: bv8, r2: bv8, r3: bv8, b0: bv8, b1: bv8, b2: bv8, b3: bv8,
                             m0: bv8, m1: bv8, m2: bv8, m3: bv8) {
    r0 == b0 ^ m0 && r1 == b1 ^ m1 && r2 == b2 ^ m2 && r3 == b3 ^ m3
  }

  method PutMaskedWord(b0: bv8, b1: bv8, b2: bv8, b3: bv8, b4: bv8, b5: bv8, b6: bv8, b7: bv8,
                       m0: bv8, m1: bv8, m2: bv8, m3: bv8)
    returns (r0: bv8, r1: bv8, r2: bv8, r3: bv8, r4: bv8, r5: bv8, r6: bv8, r7: bv8)
    ensures FourMasked(r0, r1, r2, r3, b0, b1, b2, b3, m0, m1, m2, m3)
    ensures FourMasked(r4, r5, r6, r7, b4, b5, b6, b7, m0, m1, m2, m3)
  {
    r0, r1, r2, r3, r4, r5, r6, r7 := XorWords(b0, b1, b2, b3, b4, b5, b6, b7, m0, m1, m2, m3);
  }

  ghost predicate EightMasked(r: Bytes, b: Bytes, mask: Bytes)
    requires |r| == |b| == 8 && |mask| == 4
  {
    && FourMasked(r[0], r[1], r[2], r[3], b[0], b[1], b[2], b[3], mask[0], mask[1], mask[2], mask[3])
    && FourMasked(r[4], r[5], r[6], r[7], b[4], b[5], b[6], b[7], mask[0], mask[1], mask[2], mask[3])
  }

  method MaskWord(b: Bytes, mask: Bytes) returns (r: Bytes)
    requires |b| == 8 && |mask| == 4
    ensures |r| == 8 && EightMasked(r, b, mask)
  {
    var r0, r1, r2, r3, r4, r5, r6, r7 :=
      PutMaskedWord(b[0], b[1], b[2], b[3], b[4], b[5], b[6], b[7], mask[0], mask[1], mask[2], mask[3]);
    r := [r0, r1, r2, r3, r4, r5, r6, r7];
  }

  ghost predicate MaskedByte(b: Bytes, mask: Bytes, k: nat, x: bv8)
    requires k < |b| && |mask| == 4
  {
    x == b[k] ^ mask[k % 4]
  }

  /** Four bytes that start at a multiple of four meet the key from its first byte. */
  lemma FourBytes(src: Bytes, mask: Bytes, i: nat, r: seq<bv8>, b: seq<bv8>)
    requires |mask| == |r| == |b| == 4 && i % 4 == 0 && i + 4 <= |src| && b == src[i..i + 4]
    requires FourMasked(r[0], r[1], r[2], r[3], b[0], b[1], b[2], b[3], mask[0], mask[1], mask[2], mask[3])
    ensures MaskedByte(src, mask, i, r[0]) && MaskedByte(src, mask, i + 1, r[1])
    ensures MaskedByte(src, mask, i + 2, r[2]) && MaskedByte(src, mask, i + 3, r[3])
  {
    FourScalars(r[0], r[1], r[2], r[3], b[0], b[1], b[2], b[3], mask[0], mask[1], mask[2], mask[3], src, mask, i);
  }

  lemma FourScalars(r0: bv8, r1: bv8, r2: bv8, r3: bv8, b0: bv8, b1: bv8, b2: bv8, b3: bv8,
                    m0: bv8, m1: bv8, m2: bv8, m3: bv8, src: Bytes, mask: Bytes, i: nat)
    requires FourMasked(r0, r1, r2, r3, b0, b1, b2, b3, m0, m1, m2, m3)
    requires |mask| == 4 && i % 4 == 0 && i + 4 <= |src|
    requires b0 == src[i] && b1 == src[i + 1] && b2 == src[i + 2] && b3 == src[i + 3]
    requires m0 == mask[0] && m1 == mask[1] && m2 == mask[2] && m3 == mask[3]
    ensures MaskedByte(src, mask, i, r0) && MaskedByte(src, mask, i + 1, r1)
    ensures MaskedByte(src, mask, i + 2, r2) && MaskedByte(src, mask, i + 3, r3)
  {
    OneByte(src, mask, i, r0, b0, m0);
    OneByte(src, mask, i + 1, r1, b1, m1);
    OneByte(src, mask, i + 2, r2, b2, m2);
    OneByte(src, mask, i + 3, r3, b3, m3);
  }

  lemma OneByte(src: Bytes, mask: Bytes, k: nat, x: bv8, b: bv8, m: bv8)
    requires |mask| == 4 && k < |src| && b == src[k] && m == mask[k % 4] && x == b ^ m
    ensures MaskedByte(src, mask, k, x)
  {
  }

  // ---------------------------------------------------------------------------
  // Masking in place
  // ---------------------------------------------------------------------------

  /** Mask `data[from:to]` in place: whole words first, then the remaining bytes. */
  method XorMaskInPlace(data: array<bv8>, from: nat, to: nat, mask: Bytes)
    requires from <= to <= data.Length && |mask| == 4
    modifies data
    ensures data[..from] == old(data[..from]) && data[to..] == old(data[to..])
    ensures data[from..to] == Masked(old(data[from..to]), mask)
  {
    var n := to - from;
    if n == 0 {
      return;
    }
    ghost var src := data[from..to];
    var i := 0;
    while i + 8 <= n
      invariant i <= n && i % 4 == 0
      invariant MaskedUpTo(data[from..to], src, mask, i)
      invariant data[..from] == old(data[..from]) && data[to..] == old(data[to..])
    {
      XorWord(data, from, to, i, mask, src);
      i := i + 8;
    }
    while i < n
      invariant i <= n
      invariant MaskedUpTo(data[from..to], src, mask, i)
      invariant data[..from] == old(data[..from]) && data[to..] == old(data[to..])
    {
      ghost var before := data[from..to];
      data[from + i] := data[from + i] ^ mask[i % 4];
      assert data[from..to] == before[i := before[i] ^ mask[i % 4]];
      MaskedOne(before, src, mask, i);
      i := i + 1;
    }
    MaskedAll(data[from..to], src, mask);
  }

  /** The first i bytes are masked, the rest are as they were. */
  ghost predicate MaskedUpTo(now: Bytes, src: Bytes, mask: Bytes, i: nat)
    requires |mask| == 4
  {
    && i <= |now| == |src|
    && (forall k :: 0 <= k < i ==> MaskedByte(src, mask, k, now[k]))
    && now[i..] == src[i..]
  }

  lemma MaskedOne(now: Bytes, src: Bytes, mask: Bytes, i: nat)
    requires |mask| == 4 && i < |now| && MaskedUpTo(now, src, mask, i)
    ensures MaskedUpTo(now[i := now[i] ^ mask[i % 4]], src, mask, i + 1)
  {
    assert now[i] == now[i..][0] == src[i];
    assert now[i..][1..] == src[i..][1..];
  }

  lemma MaskedAll(now: Bytes, src: Bytes, mask: Bytes)
    requires |mask| == 4 && MaskedUpTo(now, src, mask, |now|)
    ensures now == Masked(src, mask)
  {
    forall k | 0 <= k < |now|
      ensures now[k] == Masked(src, mask)[k]
    {
      assert MaskedByte(src, mask, k, now[k]);
    }
  }

  lemma MaskedFour(now: Bytes, src: Bytes, mask: Bytes, i: nat, r: Bytes, b: Bytes)
    requires |mask| == |r| == |b| == 4 && i % 4 == 0 && i + 4 <= |now| && MaskedUpTo(now, src, mask, i)
    requires b == now[i..i + 4]
    requires FourMasked(r[0], r[1], r[2], r[3], b[0], b[1], b[2], b[3], mask[0], mask[1], mask[2], mask[3])
    ensures MaskedUpTo(now[..i] + r + now[i + 4..], src, mask, i + 4)
  {
    var after := now[..i] + r + now[i + 4..];
    assert src[i..i + 4] == src[i..][..4] == now[i..][..4] == now[i..i + 4];
    FourBytes(src, mask, i, r, b);
    forall k | 0 <= k < i + 4
      ensures MaskedByte(src, mask, k, after[k])
    {
      if k < i {
        assert MaskedByte(src, mask, k, now[k]);
      } else {
        assert after[k] == r[k - i];
        assert k == i || k == i + 1 || k == i + 2 || k == i + 3;
      }
    }
    assert after[i + 4..] == now[i..][4..] == src[i..][4..] == src[i + 4..];
  }

  /** `PutUint64(data[i:], Uint64(data[i:]) ^ mask8)` in the slice `data[from:to]`, the word `mask8`
      being the key bytes twice. */
  method XorWord(data: array<bv8>, from: nat, to: nat, i: nat, mask: Bytes, ghost src: Bytes)
    requires from <= to <= data.Length && from + i + 8 <= to && |mask| == 4 && i % 4 == 0
    requires MaskedUpTo(data[from..to], src, mask, i)
    modifies data
    ensures MaskedUpTo(data[from..to], src, mask, i + 8)
    ensures data[..from] == old(data[..from]) && data[to..] == old(data[to..])
  {
    ghost var now := data[from..to];
    var b := data[from + i..from + i + 8];
    var r := MaskWord(b, mask);
    Store(data, from, to, i, r);
    MaskedEight(now, src, mask, i, b, r);
  }

  /** Write eight bytes into the slice `data[from:to]` at i. */
  method Store(data: array<bv8>, from: nat, to: nat, i: nat, word: Bytes)
    requires from <= to <= data.Length && from + i + 8 <= to && |word| == 8
    modifies data
    ensures data[from..to] == old(data[from..to])[..i] + word + old(data[from..to])[i + 8..]
    ensures data[..from] == old(data[..from]) && data[to..] == old(data[to..])
  {
    forall k | 0 <= k < 8 {
      data[from + i + k] := word[k];
    }
  }

  lemma MaskedEight(now: Bytes, src: Bytes, mask: Bytes, i: nat, b: Bytes, r: Bytes)
    requires |mask| == 4 && i % 4 == 0 && i + 8 <= |now| && MaskedUpTo(now, src, mask, i)
    requires |b| == |r| == 8 && b == now[i..i + 8] && EightMasked(r, b, mask)
    ensures MaskedUpTo(now[..i] + r + now[i + 8..], src, mask, i + 8)
  {
    var half := now[..i] + r[..4] + now[i + 4..];
    MaskedFour(now, src, mask, i, r[..4], b[..4]);
    MaskedFour(half, src, mask, i + 4, r[4..], b[4..]);
    assert half[..i + 4] + r[4..] + half[i + 8..] == now[..i] + r + now[i + 8..];
  }
}
