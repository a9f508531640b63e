/** The `java.io.DataOutput` / `java.io.DataInput` contract the Writable
    classes rely on: fixed-width big-endian two's-complement integers, and
    encoders that are only known through their round-trip property. */
module DataIO {
  import opened Wrappers

  type Byte = b: int | 0 <= b < 256

  const INT_MIN: int := -0x8000_0000
  const INT_MAX: int := 0x7fff_ffff
  const LONG_MIN: int := -0x8000_0000_0000_0000
  const LONG_MAX: int := 0x7fff_ffff_ffff_ffff

  /** Java `int` and `long`. */
  type Int32 = x: int | INT_MIN <= x <= INT_MAX
  type Int64 = x: int | LONG_MIN <= x <= LONG_MAX

  function Pow256(n: nat): (r: nat)
    ensures r >= 1
  {
    if n == 0 then 1 else 256 * Pow256(n - 1)
  }

  /** The n-byte big-endian form of an unsigned value. */
  function EncodeUnsigned(u: nat, n: nat): (s: seq<Byte>)
    requires u < Pow256(n)
    ensures |s| == n
  {
    if n == 0 then [] else EncodeUnsigned(u / 256, n - 1) + [u % 256]
  }

  /** The unsigned value of a big-endian byte string. */
  function DecodeUnsigned(s: seq<Byte>): (u: nat)
    ensures u < Pow256(|s|)
  {
    if |s| == 0 then 0 else DecodeUnsigned(s[..|s| - 1]) * 256 + s[|s| - 1]
  }

  lemma {:induction false} DecodeEncodeUnsigned(u: nat, n: nat)
    requires u < Pow256(n)
    ensures DecodeUnsigned(EncodeUnsigned(u, n)) == u
  {
    if n > 0 {
      var s := EncodeUnsigned(u, n);
      DecodeEncodeUnsigned(u / 256, n - 1);
      assert s[..n - 1] == EncodeUnsigned(u / 256, n - 1);
    }
  }

  lemma Pow256Widths()
    ensures Pow256(4) == 0x1_0000_0000
    ensures Pow256(8) == 0x1_0000_0000_0000_0000
  {
    assert Pow256(2) == 0x1_0000;
    assert Pow256(4) == 0x1_0000_0000;
    assert Pow256(6) == 0x1_0000_0000_0000;
  }

  /** The bytes `DataOutput.writeInt` emits: four bytes, high byte first, of
      the two's-complement value. */
  function EncodeInt32(x: Int32): (s: seq<Byte>)
    ensures |s| == 4
  {
    Pow256Widths();
    EncodeUnsigned(if x < 0 then x + 0x1_0000_0000 else x, 4)
  }

  /** `DataInput.readInt`: four bytes, or end of file when fewer remain. */
  function DecodeInt32(s: seq<Byte>): Option<(Int32, seq<Byte>)>
  {
    if |s| < 4 then None
    else
      var u := DecodeUnsigned(s[..4]);
      Pow256Widths();
      Some((if u > INT_MAX then u - 0x1_0000_0000 else u, s[4..]))
  }

  /** The bytes `DataOutput.writeLong` emits: eight bytes, high byte first. */
  function EncodeInt64(x: Int64): (s: seq<Byte>)
    ensures |s| == 8
  {
    Pow256Widths();
    EncodeUnsigned(if x < 0 then x + 0x1_0000_0000_0000_0000 else x, 8)
  }

  /** `DataInput.readLong`: eight bytes, or end of file when fewer remain. */
  function DecodeInt64(s: seq<Byte>): Option<(Int64, seq<Byte>)>
  {
    if |s| < 8 then None
    else
      var u := DecodeUnsigned(s[..8]);
      Pow256Widths();
      Some((if u > LONG_MAX then u - 0x1_0000_0000_0000_0000 else u, s[8..]))
  }

  /** A pair of an encoder and a decoder for values of type T. The decoder
      consumes a prefix of its input and hands back what it left unread;
      `None` is the `IOException` (usually `EOFException`) of a failed read. */
  datatype Codec<!T> = Codec(write: T -> seq<Byte>, read: seq<Byte> -> Option<(T, seq<Byte>)>)

  /** What the Writable contract promises of an encoder: reading back what
      was written yields the value and leaves whatever followed it untouched,
      and a strict prefix of an encoding (a truncated record) is rejected. */
  ghost predicate Sound<T(!new)>(c: Codec<T>)
  {
    && (forall x, rest :: c.read(c.write(x) + rest) == Some((x, rest)))
    && (forall x, k :: 0 <= k < |c.write(x)| ==> c.read(c.write(x)[..k]) == None)
  }

  function Int32Codec(): Codec<Int32>
  {
    Codec(EncodeInt32, DecodeInt32)
  }

  function Int64Codec(): Codec<Int64>
  {
    Codec(EncodeInt64, DecodeInt64)
  }

  lemma Int32CodecSound()
    ensures Sound(Int32Codec())
  {
    Pow256Widths();
    forall x: Int32, rest: seq<Byte>
      ensures DecodeInt32(EncodeInt32(x) + rest) == Some((x, rest))
    {
      var u := if x < 0 then x + 0x1_0000_0000 else x;
      DecodeEncodeUnsigned(u, 4);
      assert (EncodeInt32(x) + rest)[..4] == EncodeInt32(x);
      assert (EncodeInt32(x) + rest)[4..] == rest;
    }
  }

  lemma Int64CodecSound()
    ensures Sound(Int64Codec())
  {
    Pow256Widths();
    forall x: Int64, rest: seq<Byte>
      ensures DecodeInt64(EncodeInt64(x) + rest) == Some((x, rest))
    {
      var u := if x < 0 then x + 0x1_0000_0000_0000_0000 else x;
      DecodeEncodeUnsigned(u, 8);
      assert (EncodeInt64(x) + rest)[..8] == EncodeInt64(x);
      assert (EncodeInt64(x) + rest)[8..] == rest;
    }
  }

  /** A byte array that fits a Java array: its length is an `int`. */
  type ByteArray = s: seq<Byte> | |s| <= INT_MAX

  /** A length-prefixed byte-array encoding: a 4-byte length, then the bytes.
      It meets `Sound`, so the assumption made of the byte-array encoder can
      be met; HBase's own encoding uses a variable-length prefix instead, and
      no encoder of identifiers or strings is given here. */
  function LengthPrefixedCodec(): Codec<ByteArray>
  {
    Codec(WriteByteArray, ReadByteArray)
  }

  function WriteByteArray(b: ByteArray): seq<Byte>
  {
    EncodeInt32(|b|) + b
  }

  function ReadByteArray(s: seq<Byte>): Option<(ByteArray, seq<Byte>)>
  {
    match DecodeInt32(s)
    case None => None
    case Some((n, tail)) =>
      if n < 0 || |tail| < n then None else Some((tail[..n], tail[n..]))
  }

  lemma LengthPrefixedCodecSound()
    ensures Sound(LengthPrefixedCodec())
  {
    Int32CodecSound();
    forall b: ByteArray, rest: seq<Byte>
      ensures ReadByteArray(WriteByteArray(b) + rest) == Some((b, rest))
    {
      assert WriteByteArray(b) + rest == EncodeInt32(|b|) + (b + rest);
      assert (b + rest)[..|b|] == b;
      assert (b + rest)[|b|..] == rest;
    }
    forall b: ByteArray, k | 0 <= k < |WriteByteArray(b)|
      ensures ReadByteArray(WriteByteArray(b)[..k]) == None
    {
      var w := WriteByteArray(b);
      if k >= 4 {
        assert w[..k] == EncodeInt32(|b|) + b[..k - 4];
        assert Int32Codec().read(Int32Codec().write(|b|) + b[..k - 4]) == Some((|b|, b[..k - 4]));
      } else {
        assert |w[..k]| < 4;
      }
    }
  }

  /** The values written one after the other with encoder `c`. */
  function WriteAll<T>(c: Codec<T>, xs: seq<T>): seq<Byte>
  {
    if xs == [] then [] else c.write(xs[0]) + WriteAll(c, xs[1..])
  }

  /** What `n` successive reads with `c` produced: the values read (fewer
      than `n` when one failed), the bytes left, and whether all succeeded. */
  datatype Decoded<T> = Decoded(items: seq<T>, unread: seq<Byte>, ok: bool)

  function ReadN<T>(c: Codec<T>, s: seq<Byte>, n: nat): (d: Decoded<T>)
    decreases n
    ensures |d.items| <= n
    ensures d.ok ==> |d.items| == n
    ensures !d.ok ==> d.unread == [] && |d.items| < n
  {
    if n == 0 then Decoded([], s, true)
    else
      match c.read(s)
      case None => Decoded([], [], false)
      case Some((x, tail)) =>
        var d := ReadN(c, tail, n - 1);
        Decoded([x] + d.items, d.unread, d.ok)
  }

  lemma {:induction false} WriteAllSnoc<T>(c: Codec<T>, xs: seq<T>, x: T)
    ensures WriteAll(c, xs + [x]) == WriteAll(c, xs) + c.write(x)
  {
    if xs != [] {
      assert (xs + [x])[1..] == xs[1..] + [x];
      WriteAllSnoc(c, xs[1..], x);
    }
  }

  /** Reading back |xs| values of what `WriteAll` emitted gives xs and
      leaves what followed. */
  lemma {:induction false} ReadWriteAll<T(!new)>(c: Codec<T>, xs: seq<T>, rest: seq<Byte>)
    requires Sound(c)
    ensures ReadN(c, WriteAll(c, xs) + rest, |xs|) == Decoded(xs, rest, true)
  {
    if xs != [] {
      assert WriteAll(c, xs) + rest == c.write(xs[0]) + (WriteAll(c, xs[1..]) + rest);
      ReadWriteAll(c, xs[1..], rest);
      assert [xs[0]] + xs[1..] == xs;
    }
  }

  /** `ReadN` as a loop runs it: `got` are the values already read, `u`
      the bytes still to read and `k` the reads still to make. */
  function ReadFrom<T>(c: Codec<T>, u: seq<Byte>, k: nat, got: seq<T>): Decoded<T>
    decreases k
  {
    if k == 0 then Decoded(got, u, true)
    else
      match c.read(u)
      case None => Decoded(got, [], false)
      case Some((x, tail)) => ReadFrom(c, tail, k - 1, got + [x])
  }

  lemma {:induction false} ReadFromReadN<T>(c: Codec<T>, u: seq<Byte>, k: nat, got: seq<T>)
    ensures var d := ReadN(c, u, k);
      ReadFrom(c, u, k, got) == Decoded(got + d.items, d.unread, d.ok)
    decreases k
  {
    if k == 0 {
      assert got + [] == got;
    } else if c.read(u).Some? {
      var (x, tail) := c.read(u).value;
      ReadFromReadN(c, tail, k - 1, got + [x]);
      assert got + ([x] + ReadN(c, tail, k - 1).items) == (got + [x]) + ReadN(c, tail, k - 1).items;
    } else {
      assert got + [] == got;
    }
  }

  /** A `DataOutput` sink: everything written so far, in order. */
  class DataOutput {
    var written: seq<Byte>

    constructor ()
      ensures written == []
    {
      written := [];
    }

    /** Emits one value with the given encoder. */
    method Write<T>(c: Codec<T>, x: T)
      modifies this
      ensures written == old(written) + c.write(x)
    {
      written := written + c.write(x);
    }

    /** Emits every element of an array, in index order. */
    method WriteArray<T>(c: Codec<T>, a: array<T>)
      modifies this
      ensures written == old(written) + WriteAll(c, a[..])
    {
      ghost var start := written;
      for i := 0 to a.Length
        invariant written == start + WriteAll(c, a[..i])
      {
        Write(c, a[i]);
        WriteAllSnoc(c, a[..i], a[i]);
        assert a[..i + 1] == a[..i] + [a[i]];
      }
      assert a[..a.Length] == a[..];
    }
  }

  /** A `DataInput` source: the bytes not read yet. */
  class DataInput {
    var unread: seq<Byte>

    constructor (data: seq<Byte>)
      ensures unread == data
    {
      unread := data;
    }

    /** Reads one value with the given decoder; a failed read leaves the
        stream exhausted, as `readFully` does at end of file. */
    method Read<T>(c: Codec<T>) returns (r: Option<T>)
      modifies this
      ensures r == (if c.read(old(unread)).Some? then Some(c.read(old(unread)).value.0) else None)
      ensures unread == (if c.read(old(unread)).Some? then c.read(old(unread)).value.1 else [])
    {
      match c.read(unread)
      case Some((x, tail)) =>
        r := Some(x);
        unread := tail;
      case None =>
        r := None;
        unread := [];
    }

    /** Fills an array from index 0 on, one read per element, and stops at
        the first failed read; the elements not reached keep their values. */
    method ReadArray<T>(c: Codec<T>, a: array<T>) returns (ok: bool)
      modifies this, a
      ensures var d := ReadN(c, old(unread), a.Length);
        ok == d.ok && unread == d.unread && a[..] == d.items + old(a[..])[|d.items|..]
    {
      ghost var a0 := a[..];
      ghost var got: seq<T> := [];
      var n := a.Length;
      ghost var d := ReadN(c, unread, n);
      ReadFromReadN(c, unread, n, []);
      assert [] + d.items == d.items;
      for i := 0 to n
        invariant |got| == i
        invariant forall j :: 0 <= j < i ==> a[j] == got[j]
        invariant forall j :: i <= j < n ==> a[j] == a0[j]
        invariant d == ReadFrom(c, unread, n - i, got)
      {
        var x := Read(c);
        if x.None? {
          assert a[..] == got + a0[i..];
          return false;
        }
        a[i] := x.value;
        got := got + [x.value];
      }
      assert a[..] == got;
      ok := true;
    }
  }
}
