/**
 A CTR-mode cipher stream. The block cipher stays abstract: a keystream is a function from
 positions to bytes, and a cipher is a function from key and initial vector to a keystream.
 */
module CtrStream {
  import opened ByteStreams

  type Keystream = nat -> bv8
  type Cipher = (Bytes, Bytes) -> Keystream

  /** `XORKeyStream` starting at a stream position. */
  function Xor(ks: Keystream, pos: nat, data: Bytes): (out: Bytes)
    ensures |out| == |data|
  {
    seq(|data|, i requires 0 <= i < |data| => data[i] ^ ks(pos + i))
  }

  lemma XorTwice(ks: Keystream, pos: nat, data: Bytes)
    ensures Xor(ks, pos, Xor(ks, pos, data)) == data
  {
    forall i | 0 <= i < |data|
      ensures (data[i] ^ ks(pos + i)) ^ ks(pos + i) == data[i]
    {
      XorByteTwice(data[i], ks(pos + i));
    }
  }

  lemma XorByteTwice(a: bv8, b: bv8)
    ensures (a ^ b) ^ b == a
  {
  }

  /** A stream keeps its place: two calls are one call on the concatenation. */
  lemma XorAppend(ks: Keystream, pos: nat, a: Bytes, b: Bytes)
    ensures Xor(ks, pos, a + b) == Xor(ks, pos, a) + Xor(ks, pos + |a|, b)
  {
  }

  lemma XorCut(ks: Keystream, pos: nat, data: Bytes, n: nat)
    requires n <= |data|
    ensures Xor(ks, pos, data)[..n] == Xor(ks, pos, data[..n])
    ensures Xor(ks, pos, data)[n..] == Xor(ks, pos + n, data[n..])
  {
  }

  class Stream {
    const ks: Keystream
    var pos: nat

    constructor (ks: Keystream)
      ensures this.ks == ks && pos == 0
    {
      this.ks := ks;
      pos := 0;
    }

    method XORKeyStream(src: Bytes) returns (dst: Bytes)
      modifies this`pos
      ensures dst == Xor(ks, old(pos), src) && pos == old(pos) + |src|
    {
      dst := [];
      while |dst| < |src|
        invariant |dst| <= |src| && pos == old(pos) + |dst|
        invariant dst == Xor(ks, old(pos), src)[..|dst|]
      {
        dst := dst + [src[|dst|] ^ ks(pos)];
        pos := pos + 1;
      }
    }
  }
}
