/** Byte strings, their concatenation, and the few collection facts every component shares. */
module ByteStreams {

  type Bytes = seq<bv8>

  datatype Option<+T> = None | Some(value: T)

  /** The parts one after the other. */
  function Flatten<T>(parts: seq<seq<T>>): seq<T> {
    if parts == [] then [] else parts[0] + Flatten(parts[1..])
  }

  lemma {:induction false} FlattenAppend<T>(a: seq<seq<T>>, b: seq<seq<T>>)
    ensures Flatten(a + b) == Flatten(a) + Flatten(b)
  {
    if a == [] {
      assert a + b == b;
    } else {
      FlattenAppend(a[1..], b);
      assert (a + b)[0] == a[0] && (a + b)[1..] == a[1..] + b;
      ConcatAssoc(a[0], Flatten(a[1..]), Flatten(b));
    }
  }

  lemma FlattenSnoc<T>(a: seq<seq<T>>, last: seq<T>)
    ensures Flatten(a + [last]) == Flatten(a) + last
  {
    FlattenAppend(a, [last]);
    assert Flatten([last]) == last + Flatten<T>([]);
  }

  /** Flattening a longer prefix of the parts only extends the result. */
  lemma FlattenPrefix<T>(parts: seq<seq<T>>, k: nat, m: nat)
    requires k <= m <= |parts|
    ensures Flatten(parts[..k]) <= Flatten(parts[..m])
  {
    FlattenAppend(parts[..k], parts[k..m]);
    assert parts[..m] == parts[..k] + parts[k..m];
  }

  lemma DropDrop<T>(s: seq<T>, i: nat, j: nat)
    requires i + j <= |s|
    ensures s[i..][j..] == s[i + j..]
  {
  }

  lemma TakeDrop<T>(s: seq<T>, i: nat, j: nat)
    requires i + j <= |s|
    ensures s[..i] + s[i..][..j] == s[..i + j]
  {
  }

  lemma ConcatAssoc<T>(a: seq<T>, b: seq<T>, c: seq<T>)
    ensures (a + b) + c == a + (b + c)
  {
  }

  // ---------------------------------------------------------------------------
  // Fixed-width integers
  // ---------------------------------------------------------------------------

  function Byte(n: int): (b: bv8)
    requires 0 <= n < 256
    ensures b as int == n
  {
    ByteValue(n);
    n as bv8
  }

  /** The byte that stands for n, counted up so that its value is known by induction. */
  ghost function CountedByte(n: int): (b: bv8)
    requires 0 <= n < 256
    ensures b as int == n
  {
    if n == 0 then 0 else 1 + CountedByte(n - 1)
  }

  lemma ByteValue(n: int)
    requires 0 <= n < 256
    ensures (n as bv8) as int == n
  {
    var b := CountedByte(n);
    assert n as bv8 == b;
  }

  function Pow256(width: nat): (p: nat)
    ensures p > 0
  {
    if width == 0 then 1 else 256 * Pow256(width - 1)
  }

  function FromLE(b: Bytes): (n: nat) {
    if b == [] then 0 else b[0] as int + 256 * FromLE(b[1..])
  }

  /** The low `width` bytes of n, least significant first. */
  function ToLE(n: nat, width: nat): (b: Bytes)
    ensures |b| == width
  {
    if width == 0 then [] else [Byte(n % 256)] + ToLE(n / 256, width - 1)
  }

  lemma {:induction false} LERoundTrip(n: nat, width: nat)
    requires n < Pow256(width)
    ensures FromLE(ToLE(n, width)) == n
  {
    if width > 0 {
      LERoundTrip(n / 256, width - 1);
      assert ToLE(n, width)[1..] == ToLE(n / 256, width - 1);
    }
  }

  lemma {:induction false} LESmall(b: Bytes)
    ensures FromLE(b) < Pow256(|b|)
  {
    if b != [] {
      LESmall(b[1..]);
    }
  }

  lemma ByteOfValue(b: bv8)
    ensures Byte(b as int) == b
  {
  }

  /** The bytes of the number that bytes make are those bytes. */
  lemma {:induction false} LEBytes(b: Bytes)
    ensures ToLE(FromLE(b), |b|) == b
  {
    if b != [] {
      LEBytes(b[1..]);
      ByteOfValue(b[0]);
      assert FromLE(b) % 256 == b[0] as int && FromLE(b) / 256 == FromLE(b[1..]);
      assert b == [b[0]] + b[1..];
    }
  }

  /** Byte strings of one length are equal exactly when their numbers are. */
  lemma LEInjective(a: Bytes, b: Bytes)
    requires |a| == |b|
    ensures FromLE(a) == FromLE(b) <==> a == b
  {
    LEBytes(a);
    LEBytes(b);
  }

  function FromBE(b: Bytes): (n: nat) {
    if b == [] then 0 else 256 * FromBE(b[..|b| - 1]) + b[|b| - 1] as int
  }

  /** The low `width` bytes of n, most significant first. */
  function ToBE(n: nat, width: nat): (b: Bytes)
    ensures |b| == width
  {
    if width == 0 then [] else ToBE(n / 256, width - 1) + [Byte(n % 256)]
  }

  lemma {:induction false} BERoundTrip(n: nat, width: nat)
    requires n < Pow256(width)
    ensures FromBE(ToBE(n, width)) == n
  {
    if width > 0 {
      BERoundTrip(n / 256, width - 1);
      assert ToBE(n, width)[..width - 1] == ToBE(n / 256, width - 1);
    }
  }
}
