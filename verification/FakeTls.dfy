/**
 The record layer of a fake TLS connection (`wrapFakeTLSRecords`, `fakeTLSStream`,
 native/tgwsproxy/mtproxyfrontend/fake_tls.go; record format of RFC 8446, section 5.1).
 */
module FakeTls {
  import opened ByteStreams

  const CHANGE_CIPHER_SPEC: bv8 := 0x14
  const APPLICATION_DATA: bv8 := 0x17
  const APP_DATA_MAX: nat := 16384

  function Min(a: nat, b: nat): nat {
    if a < b then a else b
  }

  datatype Record = Record(kind: bv8, major: bv8, minor: bv8, body: Bytes)

  function EncodeRecord(r: Record): Bytes {
    [r.kind, r.major, r.minor] + ToBE(|r.body|, 2) + r.body
  }

  function Stream(records: seq<Record>): Bytes {
    if records == [] then [] else EncodeRecord(records[0]) + Stream(records[1..])
  }

  // ---------------------------------------------------------------------------
  // Writing
  // ---------------------------------------------------------------------------

  /** The records one Write puts on the wire. */
  function Wrap(data: Bytes): seq<Record>
    decreases |data|
  {
    if data == [] then []
    else
      var n := if |data| > APP_DATA_MAX then APP_DATA_MAX else |data|;
      [Record(APPLICATION_DATA, 0x03, 0x03, data[..n])] + Wrap(data[n..])
  }

  lemma StreamCons(done: Bytes, record: Record, rest: seq<Record>)
    ensures done + Stream([record] + rest) == done + EncodeRecord(record) + Stream(rest)
  {
    assert ([record] + rest)[1..] == rest;
    ConcatAssoc(done, EncodeRecord(record), Stream(rest));
  }

  lemma NextChunk(data: Bytes, offset: nat, end: nat)
    requires offset < |data| && end == Min(offset + APP_DATA_MAX, |data|)
    ensures Wrap(data[offset..]) == [Record(APPLICATION_DATA, 0x03, 0x03, data[offset..end])] + Wrap(data[end..])
  {
    assert data[offset..][..end - offset] == data[offset..end];
    assert data[offset..][end - offset..] == data[end..];
  }

  /** One record: a header with an empty length, the length put into it, the body. */
  method AppendChunk(out: Bytes, chunk: Bytes) returns (longer: Bytes)
    ensures longer == out + EncodeRecord(Record(APPLICATION_DATA, 0x03, 0x03, chunk))
  {
    longer := out + [APPLICATION_DATA, 0x03, 0x03, 0, 0];
    longer := longer[..|longer| - 2] + ToBE(|chunk|, 2);
    longer := longer + chunk;
  }

  method WrapFakeTLSRecords(data: Bytes) returns (out: Bytes)
    ensures out == Stream(Wrap(data))
  {
    out := [];
    var offset := 0;
    while offset < |data|
      invariant offset <= |data|
      invariant out + Stream(Wrap(data[offset..])) == Stream(Wrap(data))
    {
      var end := offset + APP_DATA_MAX;
      if end > |data| {
        end := |data|;
      }
      var chunk := data[offset..end];
      ghost var done := out;
      out := AppendChunk(out, chunk);
      NextChunk(data, offset, end);
      StreamCons(done, Record(APPLICATION_DATA, 0x03, 0x03, chunk), Wrap(data[end..]));
      offset := end;
    }
  }

  // ---------------------------------------------------------------------------
  // Reading
  // ---------------------------------------------------------------------------

  /** `input`: what the connection has still to deliver; `readLeft`: unread bytes of the current record. */
  datatype Reader = Reader(input: Bytes, readLeft: nat)

  datatype Outcome = Data(bytes: Bytes) | EndOfStream | ReadError

  /** `Read` into a buffer of the given size. `io.ReadFull` fails after consuming what there is, and
      its error is dropped when it has read at least one byte. */
  function Read(r: Reader, capacity: nat): (Reader, Outcome)
    decreases |r.input|
  {
    if capacity == 0 then (r, Data([]))
    else if r.readLeft > 0 then
      var n := Min(Min(capacity, r.readLeft), |r.input|);
      if n > 0 then (Reader(r.input[n..], r.readLeft - n), Data(r.input[..n])) else (r, ReadError)
    else if |r.input| < 5 then (Reader([], 0), ReadError)
    else
      var length, rest := FromBE(r.input[3..5]), r.input[5..];
      if r.input[0] == CHANGE_CIPHER_SPEC then
        if length > |rest| then (Reader([], 0), ReadError) else Read(Reader(rest[length..], 0), capacity)
      else if r.input[0] == APPLICATION_DATA then Read(Reader(rest, length), capacity)
      else (Reader(rest[Min(length, |rest|)..], 0), EndOfStream)
  }

  /** The body length fits the two bytes that carry it. */
  ghost predicate WellFormed(records: seq<Record>) {
    records == [] || (|records[0].body| < 65536 && WellFormed(records[1..]))
  }

  /** The application data up to the first record that ends the stream. */
  function Plain(records: seq<Record>): Bytes {
    if records == [] then []
    else if records[0].kind == CHANGE_CIPHER_SPEC then Plain(records[1..])
    else if records[0].kind == APPLICATION_DATA then records[0].body + Plain(records[1..])
    else []
  }

  /** The reader is `unread` bytes before the end of a record, and `records` follow. */
  ghost predicate At(r: Reader, unread: Bytes, records: seq<Record>) {
    r.input == unread + Stream(records) && r.readLeft == |unread| && WellFormed(records)
  }

  lemma HeaderOf(record: Record, after: Bytes)
    requires |record.body| < 65536
    ensures var input := EncodeRecord(record) + after;
            && |input| >= 5 && input[0] == record.kind
            && FromBE(input[3..5]) == |record.body|
            && input[5..] == record.body + after
  {
    var input := EncodeRecord(record) + after;
    assert Pow256(2) == 65536;
    BERoundTrip(|record.body|, 2);
    assert input[3..5] == ToBE(|record.body|, 2);
  }

  lemma TakeSplit(unread: Bytes, after: Bytes, n: nat)
    requires n <= |unread|
    ensures (unread + after)[..n] == unread[..n] && (unread + after)[n..] == unread[n..] + after
  {
  }

  /** What Read makes of the header of the next record. */
  lemma ReadRecord(record: Record, after: Bytes, capacity: nat)
    requires |record.body| < 65536 && capacity > 0
    ensures var result := Read(Reader(EncodeRecord(record) + after, 0), capacity);
            if record.kind == CHANGE_CIPHER_SPEC then result == Read(Reader(after, 0), capacity)
            else if record.kind == APPLICATION_DATA
            then result == Read(Reader(record.body + after, |record.body|), capacity)
            else result.1 == EndOfStream
  {
    HeaderOf(record, after);
    TakeSplit(record.body, after, |record.body|);
    assert [] + after == after;
  }

  /** A record of another kind, an alert for example, ends the stream. */
  ghost predicate Alerted(records: seq<Record>) {
    exists k :: 0 <= k < |records| && records[k].kind != CHANGE_CIPHER_SPEC && records[k].kind != APPLICATION_DATA
  }

  /** One Read with `before` still to come: it returns a nonempty piece of that and leaves the rest;
      with nothing to come it ends cleanly if the stream is `alerted`, and fails if it just breaks off. */
  ghost predicate ReadsFrom(r: Reader, before: Bytes, alerted: bool, capacity: nat, unread': Bytes,
                            records': seq<Record>)
    requires capacity > 0
  {
    var (r', outcome) := Read(r, capacity);
    if before == [] then outcome == if alerted then EndOfStream else ReadError
    else
      && outcome.Data? && 1 <= |outcome.bytes| <= capacity
      && At(r', unread', records')
      && outcome.bytes + (unread' + Plain(records')) == before
  }

  lemma ReadUnread(r: Reader, unread: Bytes, records: seq<Record>, capacity: nat)
    requires At(r, unread, records) && capacity > 0 && unread != []
    ensures ReadsFrom(r, unread + Plain(records), Alerted(records), capacity, unread[Min(capacity, |unread|)..],
                      records)
  {
    var n := Min(capacity, |unread|);
    TakeSplit(unread, Stream(records), n);
    assert unread[..n] + (unread[n..] + Plain(records)) == unread + Plain(records);
  }

  lemma AlertedTail(records: seq<Record>)
    requires records != []
    ensures records[0].kind == CHANGE_CIPHER_SPEC || records[0].kind == APPLICATION_DATA
            ==> Alerted(records) == Alerted(records[1..])
  {
    if Alerted(records[1..]) {
      var k :| 0 <= k < |records[1..]|
               && records[1..][k].kind != CHANGE_CIPHER_SPEC && records[1..][k].kind != APPLICATION_DATA;
      assert records[k + 1] == records[1..][k];
    }
    if Alerted(records) {
      var k :| 0 <= k < |records|
               && records[k].kind != CHANGE_CIPHER_SPEC && records[k].kind != APPLICATION_DATA;
      assert k > 0 ==> records[k] == records[1..][k - 1];
    }
  }

  /** Where one Read leaves the reader. */
  lemma {:induction false} ReadStep(r: Reader, unread: Bytes, records: seq<Record>, capacity: nat)
    returns (unread': Bytes, records': seq<Record>)
    requires At(r, unread, records) && capacity > 0
    ensures ReadsFrom(r, unread + Plain(records), Alerted(records), capacity, unread', records')
    decreases |records|
  {
    unread', records' := unread, records;
    if unread != [] {
      ReadUnread(r, unread, records, capacity);
      unread' := unread[Min(capacity, |unread|)..];
    } else {
      assert unread + Stream(records) == Stream(records);
      if records != [] {
        var first, rest := records[0], records[1..];
        ReadRecord(first, Stream(rest), capacity);
        AlertedTail(records);
        if first.kind == CHANGE_CIPHER_SPEC {
          assert [] + Stream(rest) == Stream(rest) && [] + Plain(rest) == Plain(rest) == unread + Plain(records);
          unread', records' := ReadStep(Reader(Stream(rest), 0), [], rest, capacity);
        } else if first.kind == APPLICATION_DATA {
          assert unread + Plain(records) == first.body + Plain(rest);
          unread', records' := ReadStep(Reader(first.body + Stream(rest), |first.body|), first.body, rest, capacity);
        }
      }
    }
  }

  /** Data is what stands just before the rest of the input and is never empty, a Read fails only at the end of
      the input, and the stream ends only with a header of another kind. */
  ghost predicate Sensible(input: Bytes, capacity: nat, rest: Bytes, outcome: Outcome) {
    && EndsWith(input, (if outcome.Data? then outcome.bytes else []) + rest)
    && (outcome.Data? ==> 1 <= |outcome.bytes| <= capacity)
    && (outcome == ReadError ==> rest == [])
    && (outcome == EndOfStream ==> exists h :: OtherHeader(input, h) && |rest| <= |input| - h - 5)
  }

  ghost predicate OtherHeader(input: Bytes, h: nat) {
    h + 5 <= |input| && input[h] != 0x14 && input[h] != 0x17
  }

  ghost predicate EndsWith(input: Bytes, tail: Bytes) {
    |tail| <= |input| && input[|input| - |tail|..] == tail
  }

  lemma SensibleDrop(input: Bytes, n: nat, capacity: nat, rest: Bytes, outcome: Outcome)
    requires n <= |input| && Sensible(input[n..], capacity, rest, outcome)
    ensures Sensible(input, capacity, rest, outcome)
  {
    var tail := (if outcome.Data? then outcome.bytes else []) + rest;
    DropDrop(input, n, |input| - n - |tail|);
    if outcome == EndOfStream {
      var h: nat :| OtherHeader(input[n..], h) && |rest| <= |input[n..]| - h - 5;
      assert OtherHeader(input, n + h);
    }
  }

  lemma SensibleSplit(input: Bytes, n: nat, capacity: nat)
    requires 1 <= n <= |input| && n <= capacity
    ensures Sensible(input, capacity, input[n..], Data(input[..n]))
  {
    assert input[..n] + input[n..] == input == input[0..];
  }

  lemma SensibleEnd(input: Bytes, n: nat, capacity: nat)
    requires n <= |input|
    ensures OtherHeader(input, 0) && n >= 5 ==> Sensible(input, capacity, input[n..], EndOfStream)
    ensures n == |input| ==> Sensible(input, capacity, [], ReadError)
  {
    assert [] + input[n..] == input[n..];
  }

  /** One Read on any input at all, well formed or not. */
  lemma {:induction false} ReadAnything(r: Reader, capacity: nat)
    requires capacity > 0
    ensures Sensible(r.input, capacity, Read(r, capacity).0.input, Read(r, capacity).1)
    decreases |r.input|
  {
    var input := r.input;
    var result := Read(r, capacity);
    SensibleEnd(input, |input|, capacity);
    if r.readLeft > 0 {
      if input != [] {
        SensibleSplit(input, Min(Min(capacity, r.readLeft), |input|), capacity);
      }
    } else if |input| >= 5 {
      var length, rest := FromBE(input[3..5]), input[5..];
      if input[0] == CHANGE_CIPHER_SPEC {
        if length <= |rest| {
          ReadAnything(Reader(rest[length..], 0), capacity);
          SensibleDrop(rest, length, capacity, result.0.input, result.1);
          SensibleDrop(input, 5, capacity, result.0.input, result.1);
        }
      } else if input[0] == APPLICATION_DATA {
        ReadAnything(Reader(rest, length), capacity);
        SensibleDrop(input, 5, capacity, result.0.input, result.1);
      } else {
        DropDrop(input, 5, Min(length, |rest|));
        SensibleEnd(input, 5 + Min(length, |rest|), capacity);
      }
    }
  }

  /** Reads one after the other, until one returns no data. */
  function ReadMany(r: Reader, capacities: seq<nat>): (Reader, seq<Bytes>)
    decreases |capacities|
  {
    if capacities == [] then (r, [])
    else
      var (r1, outcome) := Read(r, capacities[0]);
      if outcome.Data? then var (r2, more) := ReadMany(r1, capacities[1..]); (r2, [outcome.bytes] + more)
      else (r1, [])
  }

  /** Reads into nonempty buffers, whatever their sizes, return the application data in order, and
      all of it once there were enough of them; `readLeft` is always the unread rest of a record. */
  lemma {:induction false} ReadsReturnPlain(r: Reader, unread: Bytes, records: seq<Record>, capacities: seq<nat>)
    returns (left: Bytes)
    requires At(r, unread, records) && (forall k :: 0 <= k < |capacities| ==> capacities[k] > 0)
    ensures Flatten(ReadMany(r, capacities).1) + left == unread + Plain(records)
    ensures |capacities| >= |unread + Plain(records)| ==> left == []
    decreases |capacities|
  {
    left := unread + Plain(records);
    if capacities == [] {
      assert [] + left == left;
    } else {
      var unread', records' := ReadStep(r, unread, records, capacities[0]);
      if left != [] {
        var (r1, outcome) := Read(r, capacities[0]);
        var more := ReadMany(r1, capacities[1..]).1;
        assert ReadMany(r, capacities).1[1..] == more;
        var left' := ReadsReturnPlain(r1, unread', records', capacities[1..]);
        ConcatAssoc(outcome.bytes, Flatten(more), left');
        left := left';
      }
    }
  }

  // ---------------------------------------------------------------------------
  // Round trip
  // ---------------------------------------------------------------------------

  /** Every record of a Write is full but the last, and none is empty. */
  lemma {:induction false} WrapShape(data: Bytes)
    ensures WellFormed(Wrap(data)) && Plain(Wrap(data)) == data
    ensures forall k :: 0 <= k < |Wrap(data)| ==>
              Wrap(data)[k].kind == APPLICATION_DATA && 1 <= |Wrap(data)[k].body| <= APP_DATA_MAX
    ensures forall k :: 0 <= k < |Wrap(data)| - 1 ==> |Wrap(data)[k].body| == APP_DATA_MAX
    decreases |data|
  {
    if data != [] {
      var n := Min(APP_DATA_MAX, |data|);
      WrapShape(data[n..]);
      var rest := Wrap(data[n..]);
      assert Wrap(data)[1..] == rest;
      assert forall k :: 1 <= k < |Wrap(data)| ==> Wrap(data)[k] == rest[k - 1];
    }
  }

  /** Two bytes on the wire, and the largest body of RFC 8446, section 5.1. */
  lemma SmallExample(a: bv8, b: bv8)
    ensures Stream(Wrap([a, b])) == [0x17, 0x03, 0x03, 0x00, 0x02, a, b]
    ensures EncodeRecord(Record(CHANGE_CIPHER_SPEC, 0x03, 0x03, [a])) == [0x14, 0x03, 0x03, 0x00, 0x01, a]
    ensures APP_DATA_MAX == 0x4000
  {
    var data := [a, b];
    ByteValue(1);
    ByteValue(2);
    assert ToBE(1, 2) == [0x00, 0x01] && ToBE(2, 2) == [0x00, 0x02];
    assert data[..2] == data && data[2..] == [];
    assert Wrap(data) == [Record(APPLICATION_DATA, 0x03, 0x03, data)];
  }

  /** What two peers write: data, with records between the writes that carry none. */
  datatype Item = Written(data: Bytes) | ChangeCipherSpec(body: Bytes)

  function Records(items: seq<Item>): seq<Record> {
    if items == [] then []
    else
      (match items[0]
       case Written(data) => Wrap(data)
       case ChangeCipherSpec(body) => [Record(CHANGE_CIPHER_SPEC, 0x03, 0x03, body)]) + Records(items[1..])
  }

  function WrittenBytes(items: seq<Item>): Bytes {
    if items == [] then [] else (if items[0].Written? then items[0].data else []) + WrittenBytes(items[1..])
  }

  lemma {:induction false} PlainAppend(a: seq<Record>, b: seq<Record>)
    requires forall k :: 0 <= k < |a| ==> a[k].kind == CHANGE_CIPHER_SPEC || a[k].kind == APPLICATION_DATA
    requires WellFormed(a) && WellFormed(b)
    ensures Plain(a + b) == Plain(a) + Plain(b) && WellFormed(a + b)
  {
    if a == [] {
      assert a + b == b;
    } else {
      PlainAppend(a[1..], b);
      assert (a + b)[0] == a[0] && (a + b)[1..] == a[1..] + b;
      if a[0].kind == APPLICATION_DATA {
        ConcatAssoc(a[0].body, Plain(a[1..]), Plain(b));
      }
    }
  }

  lemma {:induction false} StreamAppend(a: seq<Record>, b: seq<Record>)
    ensures Stream(a + b) == Stream(a) + Stream(b)
  {
    if a == [] {
      assert a + b == b;
    } else {
      StreamAppend(a[1..], b);
      assert (a + b)[0] == a[0] && (a + b)[1..] == a[1..] + b;
      ConcatAssoc(EncodeRecord(a[0]), Stream(a[1..]), Stream(b));
    }
  }

  /** The bytes on the wire, each Write wrapping its data on its own. */
  function Wire(items: seq<Item>): Bytes {
    if items == [] then []
    else
      (match items[0]
       case Written(data) => Stream(Wrap(data))
       case ChangeCipherSpec(body) => EncodeRecord(Record(CHANGE_CIPHER_SPEC, 0x03, 0x03, body))) + Wire(items[1..])
  }

  lemma {:induction false} WireIsStream(items: seq<Item>)
    ensures Wire(items) == Stream(Records(items))
  {
    if items != [] {
      WireIsStream(items[1..]);
      match items[0]
      case Written(data) => StreamAppend(Wrap(data), Records(items[1..]));
      case ChangeCipherSpec(body) =>
        var spec := [Record(CHANGE_CIPHER_SPEC, 0x03, 0x03, body)];
        assert (spec + Records(items[1..]))[1..] == Records(items[1..]);
    }
  }

  ghost predicate SmallSpecs(items: seq<Item>) {
    forall k :: 0 <= k < |items| ==> items[k].ChangeCipherSpec? ==> |items[k].body| < 65536
  }

  lemma {:induction false} PlainOfRecords(items: seq<Item>)
    requires SmallSpecs(items)
    ensures WellFormed(Records(items)) && Plain(Records(items)) == WrittenBytes(items)
  {
    if items != [] {
      PlainOfRecords(items[1..]);
      match items[0]
      case Written(data) =>
        WrapShape(data);
        PlainAppend(Wrap(data), Records(items[1..]));
      case ChangeCipherSpec(body) =>
        var spec := [Record(CHANGE_CIPHER_SPEC, 0x03, 0x03, body)];
        assert (spec + Records(items[1..]))[1..] == Records(items[1..]);
        assert [] + WrittenBytes(items[1..]) == WrittenBytes(items[1..]);
    }
  }

  /** The stream round trip: reading what was wrapped gives back what was written. */
  lemma RoundTrip(items: seq<Item>, capacities: seq<nat>)
    requires SmallSpecs(items) && (forall k :: 0 <= k < |capacities| ==> capacities[k] > 0)
    ensures var got := Flatten(ReadMany(Reader(Wire(items), 0), capacities).1);
            got <= WrittenBytes(items) && (|capacities| >= |WrittenBytes(items)| ==> got == WrittenBytes(items))
  {
    PlainOfRecords(items);
    WireIsStream(items);
    var r, records := Reader(Stream(Records(items)), 0), Records(items);
    assert [] + Stream(records) == Stream(records) && [] + Plain(records) == Plain(records);
    var left := ReadsReturnPlain(r, [], records, capacities);
  }

  // ---------------------------------------------------------------------------
  // The stream
  // ---------------------------------------------------------------------------

  class FakeTLSStream {
    var input: Bytes
    var readLeft: nat

    function Value(): Reader reads this {
      Reader(input, readLeft)
    }

    constructor (input: Bytes)
      ensures Value() == Reader(input, 0)
    {
      this.input, readLeft := input, 0;
    }

    /** `fakeTLSStream.Read` into `dst`. */
    method ReadInto(dst: array<bv8>) returns (n: nat, outcome: Outcome)
      modifies this, dst
      ensures Read(old(Value()), dst.Length) == (Value(), outcome)
      ensures n <= dst.Length && dst[n..] == old(dst[..])[n..]
      ensures if outcome.Data? then outcome.bytes == dst[..n] else n == 0
    {
      if dst.Length == 0 {
        return 0, Data([]);
      }
      while true
        invariant dst[..] == old(dst[..])
        invariant Read(old(Value()), dst.Length) == Read(Value(), dst.Length)
        decreases |input|
      {
        if readLeft > 0 {
          var limit := dst.Length;
          if readLeft < limit {
            limit := readLeft;
          }
          n := ReadFull(dst, limit);
          readLeft := readLeft - n;
          return n, if n > 0 then Data(dst[..n]) else ReadError;
        }
        if |input| < 5 {
          input := [];
          return 0, ReadError;
        }
        var header, recordLen := input[..5], FromBE(input[3..5]);
        input := input[5..];
        if header[0] == CHANGE_CIPHER_SPEC {
          if recordLen > |input| {
            input := [];
            return 0, ReadError;
          }
          input := input[recordLen..];
        } else if header[0] == APPLICATION_DATA {
          readLeft := recordLen;
        } else {
          input := input[Min(recordLen, |input|)..];
          return 0, EndOfStream;
        }
      }
    }

    /** `io.ReadFull(conn, dst[:limit])`: the bytes read, fewer than asked only at the end of the input. */
    method ReadFull(dst: array<bv8>, limit: nat) returns (n: nat)
      requires limit <= dst.Length
      modifies `input, dst
      ensures n == Min(limit, |old(input)|)
      ensures dst[..n] == old(input)[..n] && dst[n..] == old(dst[..])[n..] && input == old(input)[n..]
    {
      n := Min(limit, |input|);
      forall k | 0 <= k < n {
        dst[k] := input[k];
      }
      input := input[n..];
    }
  }
}
