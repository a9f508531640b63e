/** A cell of a matrix block (`org.apache.hama.io.BlockEntry`): parallel
    arrays of values and timestamps, the Writable layout they are stored in,
    and the iterator over them. The byte-array encoder (HBase
    `Bytes.writeByteArray` / `readByteArray`) is a parameter; the properties
    below hold for any encoder that is `Sound`. */
module BlockEntries {
  import opened Wrappers
  import opened DataIO

  datatype BlockError =
    | NullArrays              // the arrays of a `BlockEntry()` not yet read
    | NullValue               // `Bytes.writeByteArray` on a null value
    | NegativeArraySize       // a negative count in the input
    | ReadFailed              // the `IOException` of a truncated or malformed record
    | IndexOutOfBounds        // `next` past the last element
    | UnsupportedOperation    // `remove`

  /** A Java `byte[]` reference held in the values array: `None` is null. */
  type Value = Option<ByteArray>

  /** An HBase cell: its value and its timestamp. */
  datatype Cell = Cell(value: Value, timestamp: Int64)

  /** Byte arrays as the non-null references to them. */
  function Somes(vs: seq<ByteArray>): (r: seq<Value>)
    ensures |r| == |vs| && forall i :: 0 <= i < |vs| ==> r[i] == Some(vs[i])
  {
    seq(|vs|, i requires 0 <= i < |vs| => Some(vs[i]))
  }

  /** The index of the first null value, or the length when there is none. */
  function FirstNull(vs: seq<Value>): (k: nat)
    ensures k <= |vs|
    ensures forall i :: 0 <= i < k ==> vs[i].Some?
    ensures k < |vs| ==> vs[k].None?
  {
    if vs == [] || vs[0].None? then 0 else 1 + FirstNull(vs[1..])
  }

  /** The byte arrays a run of non-null values refers to. */
  function Present(vs: seq<Value>): (r: seq<ByteArray>)
    requires forall i :: 0 <= i < |vs| ==> vs[i].Some?
    ensures Somes(r) == vs
  {
    seq(|vs|, i requires 0 <= i < |vs| => vs[i].value)
  }

  /** The byte-array encoder applied to a reference: a null one is never
      passed to it (`write` stops first), and what it reads is never null. */
  function NullableCodec(bc: Codec<ByteArray>): Codec<Value>
  {
    Codec((v: Value) => if v.Some? then bc.write(v.value) else [],
          (s: seq<Byte>) => match bc.read(s)
                            case None => None
                            case Some((x, tail)) => Some((Some(x), tail)))
  }

  lemma SomesCons(x: ByteArray, vs: seq<ByteArray>)
    ensures Somes([x] + vs) == [Some(x)] + Somes(vs)
  {
    assert Somes([x] + vs)[1..] == Somes(vs);
  }

  /** Reading references reads the byte arrays and keeps them all non-null. */
  lemma {:induction false} ReadNNullable(bc: Codec<ByteArray>, s: seq<Byte>, n: nat)
    ensures var d := ReadN(bc, s, n);
      ReadN(NullableCodec(bc), s, n) == Decoded(Somes(d.items), d.unread, d.ok)
    decreases n
  {
    if n > 0 {
      match bc.read(s)
      case None =>
        assert NullableCodec(bc).read(s) == None;
      case Some((x, tail)) =>
        var d := ReadN(bc, tail, n - 1);
        assert ReadN(bc, s, n) == Decoded([x] + d.items, d.unread, d.ok);
        assert ReadN(NullableCodec(bc), tail, n - 1) == Decoded(Somes(d.items), d.unread, d.ok) by {
          ReadNNullable(bc, tail, n - 1);
        }
        assert ReadN(NullableCodec(bc), s, n) == Decoded([Some(x)] + Somes(d.items), d.unread, d.ok) by {
          assert NullableCodec(bc).read(s) == Some((Some(x), tail));
        }
        SomesCons(x, d.items);
    }
  }

  /** The bytes `write` emits for non-null values: the count taken from the
      values, every timestamp as a long, then every value through the
      byte-array encoder. */
  function BlockBytes(bc: Codec<ByteArray>, ts: seq<Int64>, vs: seq<ByteArray>): seq<Byte>
    requires |vs| <= INT_MAX
  {
    EncodeInt32(|vs|) + WriteAll(Int64Codec(), ts) + WriteAll(bc, vs)
  }

  /** The bytes `write` emits before it stops: all of `BlockBytes` when no
      value is null, otherwise everything up to the first null value, where
      `Bytes.writeByteArray` throws. */
  function WrittenBytes(bc: Codec<ByteArray>, ts: seq<Int64>, vs: seq<Value>): seq<Byte>
    requires |vs| <= INT_MAX
  {
    EncodeInt32(|vs|) + WriteAll(Int64Codec(), ts) + WriteAll(bc, Present(vs[..FirstNull(vs)]))
  }

  /** With no null value, `write` emits the whole record. */
  lemma WrittenBytesComplete(bc: Codec<ByteArray>, ts: seq<Int64>, vs: seq<ByteArray>)
    requires |vs| <= INT_MAX
    ensures FirstNull(Somes(vs)) == |vs|
    ensures WrittenBytes(bc, ts, Somes(vs)) == BlockBytes(bc, ts, vs)
  {
    assert Somes(vs)[..|vs|] == Somes(vs);
    assert Present(Somes(vs)) == vs;
  }

  /** The arrays after `readFields` (`None` when they were not reallocated),
      what is left of the stream, and the outcome. */
  datatype BlockRead = BlockRead(arrays: Option<(seq<Int64>, seq<Value>)>, unread: seq<Byte>, outcome: Result<(), BlockError>)

  /** `readFields`: a count n, two new arrays of length n, n longs, then n
      byte arrays. A failed read leaves the new arrays in place with the
      entries not yet read at their defaults: 0 timestamps and null values. */
  function ReadBlock(bc: Codec<ByteArray>, s: seq<Byte>): BlockRead
  {
    match DecodeInt32(s)
    case None => BlockRead(None, [], Err(ReadFailed))
    case Some((n, s1)) =>
      if n < 0 then BlockRead(None, s1, Err(NegativeArraySize))
      else ReadArrays(bc, s1, n)
  }

  /** What `readFields` does after a count n >= 0: n longs, then n byte
      arrays, into new arrays whose entries not yet read keep their
      defaults. */
  function ReadArrays(bc: Codec<ByteArray>, s: seq<Byte>, n: nat): BlockRead
  {
    var ts := ReadN(Int64Codec(), s, n);
    if !ts.ok then
      BlockRead(Some((ts.items + seq(n - |ts.items|, _ => 0), seq(n, _ => None))), [], Err(ReadFailed))
    else
      var vs := ReadN(bc, ts.unread, n);
      BlockRead(Some((ts.items, Somes(vs.items) + seq(n - |vs.items|, _ => None))), vs.unread,
                if vs.ok then Ok(()) else Err(ReadFailed))
  }

  /** `ReadBlock` when the count and every read succeed: the values read,
      all non-null. */
  lemma ReadBlockComplete(bc: Codec<ByteArray>, s: seq<Byte>, n: Int32, s1: seq<Byte>)
    requires DecodeInt32(s) == Some((n, s1)) && n >= 0
    requires ReadN(Int64Codec(), s1, n).ok
    requires ReadN(bc, ReadN(Int64Codec(), s1, n).unread, n).ok
    ensures var ts := ReadN(Int64Codec(), s1, n);
      var vs := ReadN(bc, ts.unread, n);
      ReadBlock(bc, s) == BlockRead(Some((ts.items, Somes(vs.items))), vs.unread, Ok(()))
  {
    var vs := ReadN(bc, ReadN(Int64Codec(), s1, n).unread, n);
    assert Somes(vs.items) + seq(0, _ => None) == Somes(vs.items);
  }

  /** Writing arrays of equal length and reading the result back gives the
      same arrays, all values non-null, and leaves the bytes that followed. */
  lemma BlockRoundTrip(bc: Codec<ByteArray>, ts: seq<Int64>, vs: seq<ByteArray>, rest: seq<Byte>)
    requires Sound(bc)
    requires |ts| == |vs| <= INT_MAX
    ensures ReadBlock(bc, BlockBytes(bc, ts, vs) + rest) == BlockRead(Some((ts, Somes(vs))), rest, Ok(()))
  {
    var el, ev := WriteAll(Int64Codec(), ts), WriteAll(bc, vs);
    var tail := el + (ev + rest);
    assert BlockBytes(bc, ts, vs) + rest == EncodeInt32(|vs|) + tail;
    assert DecodeInt32(EncodeInt32(|vs|) + tail) == Some((|vs|, tail)) by {
      Int32CodecSound();
    }
    assert ReadN(Int64Codec(), tail, |vs|) == Decoded(ts, ev + rest, true) by {
      Int64CodecSound();
      ReadWriteAll(Int64Codec(), ts, ev + rest);
    }
    assert ReadN(bc, ev + rest, |vs|) == Decoded(vs, rest, true) by {
      ReadWriteAll(bc, vs, rest);
    }
    ReadBlockComplete(bc, BlockBytes(bc, ts, vs) + rest, |vs|, tail);
  }

  /** Why the lengths must agree: with fewer timestamps than values the
      count promises timestamps that are not there, and what is read back
      is not what was written. */
  lemma MismatchedLengthsBreakRoundTrip(bc: Codec<ByteArray>, ts: seq<Int64>, vs: seq<ByteArray>, rest: seq<Byte>)
    requires Sound(bc)
    requires |ts| != |vs| && |vs| <= INT_MAX
    ensures ReadBlock(bc, BlockBytes(bc, ts, vs) + rest) != BlockRead(Some((ts, Somes(vs))), rest, Ok(()))
  {
    Int32CodecSound();
    var tail := WriteAll(Int64Codec(), ts) + WriteAll(bc, vs) + rest;
    assert BlockBytes(bc, ts, vs) + rest == EncodeInt32(|vs|) + tail;
    assert Int32Codec().read(EncodeInt32(|vs|) + tail) == Some((|vs|, tail));
  }

  /** A `readFields` that allocated the arrays and then failed leaves a null
      value behind, so a later `write` of the entry stops at it. */
  lemma FailedReadLeavesNull(bc: Codec<ByteArray>, s: seq<Byte>)
    requires ReadBlock(bc, s).arrays.Some? && ReadBlock(bc, s).outcome.Err?
    ensures FirstNull(ReadBlock(bc, s).arrays.value.1) < |ReadBlock(bc, s).arrays.value.1|
  {
    var (n, s1) := DecodeInt32(s).value;
    var ts := ReadN(Int64Codec(), s1, n);
    var vals := ReadBlock(bc, s).arrays.value.1;
    if ts.ok {
      var vs := ReadN(bc, ts.unread, n);
      assert !vs.ok;
      assert vals[|vs.items|] == None;
    } else {
      assert vals[0] == None;
    }
  }

  /** The loop of `write` over the values: each one through the byte-array
      encoder, in index order, stopping at the first null one. Returns how
      many were written. */
  method WriteValues(out: DataOutput, bc: Codec<ByteArray>, values: array<Value>) returns (k: nat)
    modifies out
    ensures k == FirstNull(values[..])
    ensures out.written == old(out.written) + WriteAll(bc, Present(values[..k]))
  {
    ghost var w0 := out.written;
    for i := 0 to values.Length
      invariant forall j :: 0 <= j < i ==> values[j].Some?
      invariant out.written == w0 + WriteAll(bc, Present(values[..i]))
    {
      if values[i].None? {
        assert FirstNull(values[..]) == i;
        return i;
      }
      out.Write(bc, values[i].value);
      WriteAllSnoc(bc, Present(values[..i]), values[i].value);
      assert Present(values[..i + 1]) == Present(values[..i]) + [values[i].value];
    }
    assert values[..values.Length] == values[..];
    k := values.Length;
  }

  /** The body of `write` on the two arrays: the count, every timestamp,
      then the values up to the first null one. Returns how many values
      were written. */
  method WriteBlock(out: DataOutput, bc: Codec<ByteArray>, timestamps: array<Int64>, values: array<Value>) returns (k: nat)
    requires values.Length <= INT_MAX
    modifies out
    ensures k == FirstNull(values[..])
    ensures out.written == old(out.written) + WrittenBytes(bc, timestamps[..], values[..])
  {
    ghost var vs, ts := values[..], timestamps[..];
    ghost var header := EncodeInt32(|vs|) + WriteAll(Int64Codec(), ts);
    out.Write(Int32Codec(), values.Length);
    out.WriteArray(Int64Codec(), timestamps);
    assert out.written == old(out.written) + header;
    k := WriteValues(out, bc, values);
    assert vs[..k] == values[..k];
  }

  class BlockEntry {
    var values: array?<Value>
    var timestamps: array?<Int64>

    /** Both arrays are present or both null, they have the same length, and
        that length is a Java `int`. */
    ghost predicate Valid()
      reads this
    {
      && (values == null <==> timestamps == null)
      && (values != null ==> values.Length == timestamps.Length <= INT_MAX)
    }

    /** The no-argument constructor Writable needs: no arrays yet. */
    constructor Empty()
      ensures Valid() && values == null && timestamps == null
    {
      values := null;
      timestamps := null;
    }

    /** One value (which may be null) with its timestamp. */
    constructor (value: Value, timestamp: Int64)
      ensures Valid() && values != null && timestamps != null
      ensures values[..] == [value] && timestamps[..] == [timestamp]
      ensures GetTimestamp() == Ok(timestamp)
    {
      values := new Value[1](_ => value);
      timestamps := new Int64[1](_ => timestamp);
    }

    /** The value and timestamp of an HBase cell. */
    constructor FromCell(c: Cell)
      ensures Valid() && values != null && timestamps != null
      ensures values[..] == [c.value] && timestamps[..] == [c.timestamp]
      ensures GetTimestamp() == Ok(c.timestamp)
    {
      values := new Value[1](_ => c.value);
      timestamps := new Int64[1](_ => c.timestamp);
    }

    /** `getTimestamp`: the first timestamp; null arrays and empty arrays
        make it fail. */
    function GetTimestamp(): (r: Result<Int64, BlockError>)
      reads this, timestamps
      ensures r.Ok? <==> timestamps != null && timestamps.Length > 0
      ensures r.Ok? ==> r.value == timestamps[0]
    {
      if timestamps == null then Err(NullArrays)
      else if timestamps.Length == 0 then Err(IndexOutOfBounds)
      else Ok(timestamps[0])
    }

    /** `write`: the count, the timestamps, then the values; it stops with
        an exception at the first null value. */
    method Write(out: DataOutput, bc: Codec<ByteArray>) returns (r: Result<(), BlockError>)
      requires Valid()
      modifies out
      ensures values == null ==> r == Err(NullArrays) && out.written == old(out.written)
      ensures values != null ==>
        && r == (if FirstNull(values[..]) < values.Length then Err(NullValue) else Ok(()))
        && out.written == old(out.written) + WrittenBytes(bc, timestamps[..], values[..])
    {
      if values == null {
        return Err(NullArrays);
      }
      var k := WriteBlock(out, bc, timestamps, values);
      if k < values.Length {
        return Err(NullValue);
      }
      r := Ok(());
    }

    method ReadFields(input: DataInput, bc: Codec<ByteArray>) returns (r: Result<(), BlockError>)
      requires Valid()
      modifies this, input
      ensures Valid()
      ensures r == ReadBlock(bc, old(input.unread)).outcome
      ensures input.unread == ReadBlock(bc, old(input.unread)).unread
      ensures ReadBlock(bc, old(input.unread)).arrays.None? ==>
        values == old(values) && timestamps == old(timestamps)
      ensures ReadBlock(bc, old(input.unread)).arrays.Some? ==>
        && values != null && timestamps != null && fresh(values) && fresh(timestamps)
        && timestamps[..] == ReadBlock(bc, old(input.unread)).arrays.value.0
        && values[..] == ReadBlock(bc, old(input.unread)).arrays.value.1
    {
      var count := input.Read(Int32Codec());
      if count.None? {
        return Err(ReadFailed);
      }
      var n := count.value;
      if n < 0 {
        return Err(NegativeArraySize);
      }
      var ts := new Int64[n](_ => 0);
      var vs := new Value[n](_ => None);
      timestamps, values := ts, vs;
      r := ReadInto(input, bc, ts, vs);
    }
  }

  /** The two reads of `readFields`, into arrays just allocated with their
      default entries; a failed read stops both. */
  method ReadInto(input: DataInput, bc: Codec<ByteArray>, ts: array<Int64>, vs: array<Value>)
    returns (r: Result<(), BlockError>)
    requires ts.Length == vs.Length
    requires ts[..] == seq(ts.Length, _ => 0) && vs[..] == seq(vs.Length, _ => None)
    modifies input, ts, vs
    ensures var b := ReadArrays(bc, old(input.unread), ts.Length);
      && r == b.outcome && input.unread == b.unread
      && ts[..] == b.arrays.value.0 && vs[..] == b.arrays.value.1
  {
    var ok := input.ReadArray(Int64Codec(), ts);
    if !ok {
      return Err(ReadFailed);
    }
    ReadNNullable(bc, input.unread, vs.Length);
    ok := input.ReadArray(NullableCodec(bc), vs);
    if !ok {
      return Err(ReadFailed);
    }
    r := Ok(());
  }

  /** Whether `next`, from cursor `current`, moves to an index it can read. */
  predicate NextInBounds(current: int, length: nat)
  {
    0 <= current + 1 < length
  }

  /** `hasNext` as written: the cursor is below the length. */
  function HasNextAsWritten(current: int, length: nat): bool
  {
    current < length
  }

  /** `hasNext` as evidently intended: the index `next` moves to is below
      the length. */
  function HasNextCorrected(current: int, length: nat): (r: bool)
    requires current >= -1
    ensures r <==> NextInBounds(current, length)
  {
    current + 1 < length
  }

  /** The as-written `hasNext` agrees with `next` everywhere except once the
      last element has been returned (the cursor at length - 1; for an
      empty entry, at the start): there it still answers true and the
      `next` it invites indexes past the end. */
  lemma AsWrittenHasNextOverreports(current: int, length: nat)
    requires -1 <= current < length
    ensures HasNextAsWritten(current, length)
    ensures NextInBounds(current, length) <==> current != length - 1
  {
  }

  /** The values paired with their timestamps, index by index. */
  function Pairs(vs: seq<Value>, ts: seq<Int64>): (ps: seq<(Value, Int64)>)
    requires |vs| == |ts|
    ensures |ps| == |vs|
    ensures forall i :: 0 <= i < |ps| ==> ps[i] == (vs[i], ts[i])
  {
    seq(|vs|, i requires 0 <= i < |vs| => (vs[i], ts[i]))
  }

  /** The iterator of a `BlockEntry`: a cursor over the entry's arrays,
      starting before the first element. */
  class BlockEntryIterator {
    const entry: BlockEntry
    var currentValue: int

    ghost predicate Valid()
      reads this, entry
    {
      entry.Valid() && currentValue >= -1
    }

    constructor (entry: BlockEntry)
      requires entry.Valid()
      ensures this.entry == entry && currentValue == -1 && Valid()
    {
      this.entry := entry;
      currentValue := -1;
    }

    /** `hasNext` as written; fails on an entry whose arrays are null. */
    method HasNext() returns (r: Result<bool, BlockError>)
      requires Valid()
      ensures entry.values == null ==> r == Err(NullArrays)
      ensures entry.values != null ==> r == Ok(HasNextAsWritten(currentValue, entry.values.Length))
    {
      if entry.values == null {
        return Err(NullArrays);
      }
      r := Ok(currentValue < entry.values.Length);
    }

    /** `hasNext` corrected: true exactly when `next` will return an element. */
    method HasNextFixed() returns (r: Result<bool, BlockError>)
      requires Valid()
      ensures entry.values == null ==> r == Err(NullArrays)
      ensures entry.values != null ==> r.Ok? && (r.value <==> NextInBounds(currentValue, entry.values.Length))
    {
      if entry.values == null {
        return Err(NullArrays);
      }
      r := Ok(HasNextCorrected(currentValue, entry.values.Length));
    }

    /** `next`: moves the cursor first, then returns the value and timestamp
        there as a new single-element entry; the cursor has moved even when
        the index is out of bounds. */
    method Next() returns (r: Result<BlockEntry, BlockError>)
      requires Valid()
      modifies this
      ensures Valid() && currentValue == old(currentValue) + 1
      ensures r.Ok? <==> entry.values != null && NextInBounds(old(currentValue), entry.values.Length)
      ensures r.Err? ==> r.error == if entry.values == null then NullArrays else IndexOutOfBounds
      ensures r.Ok? ==>
        && fresh(r.value) && r.value.Valid()
        && r.value.values != null && r.value.timestamps != null
        && r.value.values[..] == [entry.values[currentValue]]
        && r.value.timestamps[..] == [entry.timestamps[currentValue]]
    {
      currentValue := currentValue + 1;
      if entry.values == null {
        return Err(NullArrays);
      }
      if currentValue >= entry.values.Length {
        return Err(IndexOutOfBounds);
      }
      var e := new BlockEntry(entry.values[currentValue], entry.timestamps[currentValue]);
      r := Ok(e);
    }

    /** `remove` is not supported. */
    method Remove() returns (r: Result<(), BlockError>)
      ensures r == Err(UnsupportedOperation)
    {
      r := Err(UnsupportedOperation);
    }

    /** The client loop `while (hasNext()) next()` with the corrected
        `hasNext`: it returns every value with its timestamp, in index order,
        and no `next` fails. */
    method Drain() returns (items: seq<(Value, Int64)>)
      requires Valid() && currentValue == -1 && entry.values != null
      modifies this
      ensures items == Pairs(entry.values[..], entry.timestamps[..])
    {
      items := [];
      var more := HasNextFixed();
      while more.value
        invariant Valid() && entry.values != null
        invariant more.Ok? && (more.value <==> NextInBounds(currentValue, entry.values.Length))
        invariant |items| == currentValue + 1 <= entry.values.Length
        invariant items == Pairs(entry.values[..], entry.timestamps[..])[..|items|]
        decreases entry.values.Length - currentValue
      {
        var e := Next();
        items := items + [(e.value.values[0], e.value.timestamps[0])];
        more := HasNextFixed();
      }
    }
  }
}
