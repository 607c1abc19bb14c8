/** The byte-stream primitives of `BoxDataReadStream` and `BoxDataWriteStream`.

    A write stream only ever appends, so every writer is a pure function from a
    value to the bytes it appends.  A read stream only ever moves forward, so
    every reader takes the unread bytes and returns the value together with the
    bytes still unread; `bytesAvailable` is the length of that remainder, and
    "the offset advances by N" is "the remainder is the input without its first
    N bytes".  Multi-byte values are big-endian, whatever the host order.
 */
module DataStream {
  import opened Results

  /** A byte as its unsigned value. */
  type byte = b: int | 0 <= b < 0x100
  type Bytes = seq<byte>

  /** Float and Double payloads are kept as opaque bit patterns. */
  type bits32 = x: nat | x < 0x1_0000_0000
  type bits64 = x: nat | x < 0x1_0000_0000_0000_0000

  type int8 = x: int | -0x80 <= x < 0x80
  type int16 = x: int | -0x8000 <= x < 0x8000
  type int32 = x: int | -0x8000_0000 <= x < 0x8000_0000
  type int64 = x: int | -0x8000_0000_0000_0000 <= x < 0x8000_0000_0000_0000

  /** `UInt8(data.count)` traps above this. */
  const MaxStringBytes: nat := 0xff
  /** `UInt32(value.count)` traps at or above this. */
  const CountLimit: nat := 0x1_0000_0000

  function Pow256(n: nat): (p: nat)
    ensures p >= 1
  {
    if n == 0 then 1 else 256 * Pow256(n - 1)
  }

  lemma Pow256Widths()
    ensures Pow256(1) == 0x100
    ensures Pow256(2) == 0x1_0000
    ensures Pow256(4) == 0x1_0000_0000
    ensures Pow256(8) == 0x1_0000_0000_0000_0000
  {
    assert Pow256(1) == 256 * Pow256(0);
    assert Pow256(2) == 256 * Pow256(1);
    assert Pow256(3) == 256 * Pow256(2);
    assert Pow256(4) == 256 * Pow256(3);
    assert Pow256(5) == 256 * Pow256(4);
    assert Pow256(6) == 256 * Pow256(5);
    assert Pow256(7) == 256 * Pow256(6);
    assert Pow256(8) == 256 * Pow256(7);
  }

  lemma DivBound(x: nat, n: nat)
    requires n > 0 && x < Pow256(n)
    ensures x / 256 < Pow256(n - 1)
  {
  }

  lemma MulAddBound(hi: nat, lo: nat, n: nat)
    requires hi < Pow256(n) && lo < 256
    ensures hi * 256 + lo < Pow256(n + 1)
  {
    assert hi * 256 <= (Pow256(n) - 1) * 256;
  }

  /** The `n`-byte big-endian representation of `x`, most significant first. */
  function BigEndian(x: nat, n: nat): (r: Bytes)
    requires x < Pow256(n)
    ensures |r| == n
    decreases n
  {
    if n == 0 then []
    else
      DivBound(x, n);
      BigEndian(x / 256, n - 1) + [x % 256]
  }

  /** The unsigned value whose big-endian representation is `b`. */
  function FromBigEndian(b: Bytes): (x: nat)
    ensures x < Pow256(|b|)
    decreases |b|
  {
    if |b| == 0 then 0
    else
      var hi := FromBigEndian(b[..|b| - 1]);
      MulAddBound(hi, b[|b| - 1], |b| - 1);
      hi * 256 + b[|b| - 1]
  }

  lemma {:induction false} BigEndianRoundTrip(x: nat, n: nat)
    requires x < Pow256(n)
    ensures FromBigEndian(BigEndian(x, n)) == x
    decreases n
  {
    if n > 0 {
      var b := BigEndian(x, n);
      DivBound(x, n);
      assert b[..n - 1] == BigEndian(x / 256, n - 1);
      BigEndianRoundTrip(x / 256, n - 1);
    }
  }

  lemma {:induction false} FromBigEndianRoundTrip(b: Bytes)
    ensures BigEndian(FromBigEndian(b), |b|) == b
    decreases |b|
  {
    if |b| > 0 {
      var init := b[..|b| - 1];
      var hi := FromBigEndian(init);
      var x := FromBigEndian(b);
      assert x == hi * 256 + b[|b| - 1];
      assert x / 256 == hi && x % 256 == b[|b| - 1];
      FromBigEndianRoundTrip(init);
      assert b == init + [b[|b| - 1]];
    }
  }

  lemma DivUnique(x: int, d: int, q: int, r: int)
    requires d > 0 && x == d * q + r && 0 <= r < d
    ensures x / d == q
  {
    var q', r' := x / d, x % d;
    var k := q' - q;
    assert d * q' + r' == d * q + r;
    assert d * k == d * q' - d * q;
    assert d * k == r - r';
    assert -d < d * k < d;
  }

  lemma DivDiv(x: nat, p: nat)
    requires p > 0
    ensures x / 256 / p == x / (256 * p)
  {
    var q1, r1 := x / 256, x % 256;
    var q2, r2 := q1 / p, q1 % p;
    assert x == 256 * q1 + r1;
    assert q1 == p * q2 + r2;
    assert 256 * r2 + r1 < 256 * p by {
      assert r2 <= p - 1;
      assert 256 * r2 <= 256 * (p - 1);
    }
    assert x == (256 * p) * q2 + (256 * r2 + r1);
    DivUnique(x, 256 * p, q2, 256 * r2 + r1);
  }

  /** Byte `i` of the representation is the base-256 digit of weight
      `256^(n-1-i)`: the most significant digit comes first. */
  lemma {:induction false} BigEndianDigits(x: nat, n: nat, i: nat)
    requires x < Pow256(n) && i < n
    ensures BigEndian(x, n)[i] == (x / Pow256(n - 1 - i)) % 256
    decreases n
  {
    DivBound(x, n);
    if i < n - 1 {
      BigEndianDigits(x / 256, n - 1, i);
      DivDiv(x, Pow256(n - 2 - i));
      assert 256 * Pow256(n - 2 - i) == Pow256(n - 1 - i);
    }
  }

  // ----- two's complement -----

  /** `x` fits an `n`-byte two's-complement integer. */
  predicate IsSigned(x: int, n: nat)
  {
    -(Pow256(n) / 2) <= x < Pow256(n) / 2
  }

  /** `UIntN(bitPattern: x)`: the unsigned integer with the same bits. */
  function BitPattern(x: int, n: nat): (u: nat)
    requires n > 0 && IsSigned(x, n)
    ensures u < Pow256(n)
    ensures u == x || u == x + Pow256(n)
    ensures x < 0 <==> u >= Pow256(n) / 2
  {
    if x < 0 then x + Pow256(n) else x
  }

  /** `IntN(bitPattern: u)`: the signed integer with the same bits. */
  function FromBitPattern(u: nat, n: nat): (x: int)
    requires n > 0 && u < Pow256(n)
    ensures IsSigned(x, n)
    ensures BitPattern(x, n) == u
  {
    if u >= Pow256(n) / 2 then u - Pow256(n) else u
  }

  // ----- writers (`BoxDataWriteStream.write` overloads) -----

  /** `write(UInt8)`, `write(UInt16)`, `write(UInt32)`, `write(UInt64)`. */
  function WriteUnsigned(x: nat, n: nat): (r: Bytes)
    requires x < Pow256(n)
    ensures |r| == n && FromBigEndian(r) == x
  {
    BigEndianRoundTrip(x, n);
    BigEndian(x, n)
  }

  /** A byte-sized value is that byte, after leading zero bytes. */
  lemma SmallUnsigned(x: nat)
    requires x < 256
    ensures WriteUnsigned(x, 1) == [x]
    ensures WriteUnsigned(x, 4) == [0, 0, 0, x]
  {
    Pow256Widths();
    assert BigEndian(x, 1) == [] + [x];
    assert BigEndian(0, 1) == [] + [0];
    assert BigEndian(0, 2) == [0] + [0];
    assert BigEndian(0, 3) == [0, 0] + [0];
    assert BigEndian(x, 2) == [0] + [x];
    assert BigEndian(x, 3) == [0, 0] + [x];
    assert BigEndian(x, 4) == [0, 0, 0] + [x];
  }

  /** `write(Int8)`, `write(Int16)`, `write(Int32)`, `write(Int64)`: the bit
      pattern, big-endian. */
  function WriteSigned(x: int, n: nat): (r: Bytes)
    requires n > 0 && IsSigned(x, n)
    ensures |r| == n
    ensures FromBitPattern(FromBigEndian(r), n) == x
  {
    WriteUnsigned(BitPattern(x, n), n)
  }

  /** `write(Float32)`: an opaque 32-bit pattern, big-endian. */
  function WriteFloat(f: bits32): (r: Bytes)
    ensures |r| == 4 && FromBigEndian(r) == f
  {
    Pow256Widths();
    WriteUnsigned(f, 4)
  }

  /** `write(Float64)`: an opaque 64-bit pattern, big-endian. */
  function WriteDouble(d: bits64): (r: Bytes)
    ensures |r| == 8 && FromBigEndian(r) == d
  {
    Pow256Widths();
    WriteUnsigned(d, 8)
  }

  /** `write(String)`: nothing at all for the empty string, otherwise a
      one-byte length and the bytes; a length above 255 traps in
      `UInt8(data.count)`. */
  function WriteString(text: Bytes): (r: Result<Bytes>)
    ensures r.Err? <==> |text| > MaxStringBytes
    ensures r.Err? ==> r.error == Trap(Overflow)
    ensures r.Ok? ==> |r.value| == if |text| == 0 then 0 else |text| + 1
  {
    if |text| == 0 then Ok([])
    else if |text| > MaxStringBytes then Err(Trap(Overflow))
    else Ok([|text|] + text)
  }

  /** `write(Bool)`. */
  function WriteBool(b: bool): (r: Bytes)
    ensures |r| == 1 && (r[0] != 0 <==> b)
    ensures b ==> r == [0xff]
    ensures !b ==> r == [0]
  {
    [if b then 0xff else 0x00]
  }

  /** `UInt32(count)` followed by `write(UInt32)`: the 4-byte element count of
      arrays and lists, trapping when the count does not fit. */
  function WriteCount(count: nat): (r: Result<Bytes>)
    ensures r.Ok? <==> count < CountLimit
    ensures r.Err? ==> r.error == Trap(Overflow)
    ensures r.Ok? ==> |r.value| == 4 && FromBigEndian(r.value) == count
  {
    Pow256Widths();
    if count < CountLimit then Ok(WriteUnsigned(count, 4)) else Err(Trap(Overflow))
  }

  /** The element loops of the array tags: each element as an `n`-byte
      signed value, back to back. */
  function WriteSignedRun(xs: seq<int>, n: nat): (r: Bytes)
    requires n > 0 && forall i :: 0 <= i < |xs| ==> IsSigned(xs[i], n)
    ensures |r| == n * |xs|
    decreases |xs|
  {
    if |xs| == 0 then []
    else WriteSigned(xs[0], n) + WriteSignedRun(xs[1..], n)
  }

  /** An array tag's value: `write(UInt32(value.count))`, then every element
      as an `n`-byte signed value. */
  function WriteArray(xs: seq<int>, n: nat): (r: Result<Bytes>)
    requires n > 0 && forall i :: 0 <= i < |xs| ==> IsSigned(xs[i], n)
    ensures r.Ok? <==> |xs| < CountLimit
    ensures r.Err? ==> r.error == Trap(Overflow)
    ensures r.Ok? ==> |r.value| == 4 + n * |xs|
  {
    var count :- WriteCount(|xs|);
    Ok(count + WriteSignedRun(xs, n))
  }

  // ----- readers (`BoxDataReadStream`) -----

  /** `readBytes` / `data(count:)`: exactly `n` bytes, or a read error when
      fewer remain. */
  function ReadBytes(s: Bytes, n: nat): (r: Result<(Bytes, Bytes)>)
    ensures r.Ok? <==> n <= |s|
    ensures r.Err? ==> r.error == ReadError
    ensures r.Ok? ==> |r.value.0| == n && r.value.0 + r.value.1 == s
  {
    if |s| < n then Err(ReadError) else Ok((s[..n], s[n..]))
  }

  /** `uInt8()`. */
  function ReadUInt8(s: Bytes): (r: Result<(byte, Bytes)>)
    ensures r.Ok? <==> |s| >= 1
    ensures r.Err? ==> r.error == ReadError
    ensures r.Ok? ==> [r.value.0] + r.value.1 == s
  {
    var p :- ReadBytes(s, 1);
    Ok((p.0[0], p.1))
  }

  /** `uInt8()`, `uint16()`, `uInt32()`, `uInt64()` for `n` = 1, 2, 4, 8. */
  function ReadUnsigned(s: Bytes, n: nat): (r: Result<(nat, Bytes)>)
    ensures r.Ok? <==> n <= |s|
    ensures r.Err? ==> r.error == ReadError
    ensures r.Ok? ==> r.value.0 < Pow256(n) && BigEndian(r.value.0, n) + r.value.1 == s
  {
    var p :- ReadBytes(s, n);
    FromBigEndianRoundTrip(p.0);
    Ok((FromBigEndian(p.0), p.1))
  }

  /** `int8()`, `int16()`, `int32()`, `int64()` for `n` = 1, 2, 4, 8. */
  function ReadSigned(s: Bytes, n: nat): (r: Result<(int, Bytes)>)
    requires n > 0
    ensures r.Ok? <==> n <= |s|
    ensures r.Err? ==> r.error == ReadError
    ensures r.Ok? ==> IsSigned(r.value.0, n) && WriteSigned(r.value.0, n) + r.value.1 == s
  {
    var p :- ReadUnsigned(s, n);
    Ok((FromBitPattern(p.0, n), p.1))
  }

  /** `float()`: four bytes taken as an opaque bit pattern. */
  function ReadFloat(s: Bytes): (r: Result<(bits32, Bytes)>)
    ensures r.Ok? <==> 4 <= |s|
    ensures r.Err? ==> r.error == ReadError
    ensures r.Ok? ==> WriteFloat(r.value.0) + r.value.1 == s
  {
    Pow256Widths();
    var p :- ReadUnsigned(s, 4);
    Ok((p.0, p.1))
  }

  /** `double()`: eight bytes taken as an opaque bit pattern. */
  function ReadDouble(s: Bytes): (r: Result<(bits64, Bytes)>)
    ensures r.Ok? <==> 8 <= |s|
    ensures r.Err? ==> r.error == ReadError
    ensures r.Ok? ==> WriteDouble(r.value.0) + r.value.1 == s
  {
    Pow256Widths();
    var p :- ReadUnsigned(s, 8);
    Ok((p.0, p.1))
  }

  /** `string()`: a one-byte length `L`, then exactly `L` bytes. */
  function ReadString(s: Bytes): (r: Result<(Bytes, Bytes)>)
    ensures r.Ok? <==> |s| >= 1 && 1 + s[0] <= |s|
    ensures r.Err? ==> r.error == ReadError
    ensures r.Ok? ==> |r.value.0| == s[0] && [s[0]] + r.value.0 + r.value.1 == s
  {
    var p :- ReadUInt8(s);
    var q :- ReadBytes(p.1, p.0);
    assert s == [p.0] + q.0 + q.1;
    Ok(q)
  }

  /** `bit()`: any non-zero byte is true. */
  function ReadBool(s: Bytes): (r: Result<(bool, Bytes)>)
    ensures r.Ok? <==> |s| >= 1
    ensures r.Err? ==> r.error == ReadError
    ensures r.Ok? ==> (r.value.0 <==> s[0] != 0) && r.value.1 == s[1..]
  {
    var p :- ReadUInt8(s);
    Ok((p.0 != 0, p.1))
  }

  /** The element loops of the array tags: `count` signed `n`-byte values. */
  function ReadSignedRun(s: Bytes, count: nat, n: nat): (r: Result<(seq<int>, Bytes)>)
    requires n > 0
    ensures r.Ok? <==> count * n <= |s|
    ensures r.Err? ==> r.error == ReadError
    ensures r.Ok? ==> |r.value.0| == count
    ensures r.Ok? ==> forall i :: 0 <= i < |r.value.0| ==> IsSigned(r.value.0[i], n)
    ensures r.Ok? ==> WriteSignedRun(r.value.0, n) + r.value.1 == s
    decreases count
  {
    if count == 0 then Ok(([], s))
    else
      assert count * n == (count - 1) * n + n;
      assert (count - 1) * n >= 0;
      var p :- ReadSigned(s, n);
      var q :- ReadSignedRun(p.1, count - 1, n);
      assert (count - 1) * n + n == count * n;
      assert WriteSignedRun([p.0] + q.0, n) == WriteSigned(p.0, n) + WriteSignedRun(q.0, n) by {
        assert ([p.0] + q.0)[1..] == q.0;
      }
      Ok(([p.0] + q.0, q.1))
  }

  /** An array tag's value: `uInt32()`, then that many `n`-byte signed
      values. */
  function ReadArray(s: Bytes, n: nat): (r: Result<(seq<int>, Bytes)>)
    requires n > 0
    ensures r.Ok? <==> |s| >= 4 && 4 + FromBigEndian(s[..4]) * n <= |s|
    ensures r.Err? ==> r.error == ReadError
    ensures r.Ok? ==> |r.value.1| < |s|
    ensures r.Ok? ==> |r.value.0| < CountLimit
    ensures r.Ok? ==> forall i :: 0 <= i < |r.value.0| ==> IsSigned(r.value.0[i], n)
    ensures r.Ok? ==> WriteUnsigned(|r.value.0|, 4) + WriteSignedRun(r.value.0, n) + r.value.1 == s
  {
    Pow256Widths();
    var count :- ReadUnsigned(s, 4);
    assert s[..4] == BigEndian(count.0, 4) && count.1 == s[4..];
    BigEndianRoundTrip(count.0, 4);
    ReadSignedRun(count.1, count.0, n)
  }

  // ----- round trips -----

  lemma UnsignedRoundTrip(x: nat, n: nat, rest: Bytes)
    requires x < Pow256(n)
    ensures ReadUnsigned(WriteUnsigned(x, n) + rest, n) == Ok((x, rest))
  {
    var s := WriteUnsigned(x, n) + rest;
    var r := ReadUnsigned(s, n);
    assert r.Ok?;
    var v := r.value.0;
    assert BigEndian(v, n) == s[..n] == BigEndian(x, n);
    BigEndianRoundTrip(v, n);
    BigEndianRoundTrip(x, n);
  }

  lemma SignedRoundTrip(x: int, n: nat, rest: Bytes)
    requires n > 0 && IsSigned(x, n)
    ensures ReadSigned(WriteSigned(x, n) + rest, n) == Ok((x, rest))
  {
    UnsignedRoundTrip(BitPattern(x, n), n, rest);
  }

  lemma FloatRoundTrip(f: bits32, rest: Bytes)
    ensures ReadFloat(WriteFloat(f) + rest) == Ok((f, rest))
  {
    Pow256Widths();
    UnsignedRoundTrip(f, 4, rest);
  }

  lemma DoubleRoundTrip(d: bits64, rest: Bytes)
    ensures ReadDouble(WriteDouble(d) + rest) == Ok((d, rest))
  {
    Pow256Widths();
    UnsignedRoundTrip(d, 8, rest);
  }

  lemma SignedRunStep(s: Bytes, count: nat, n: nat, x: int, t: Bytes, ys: seq<int>, u: Bytes)
    requires n > 0 && count > 0
    requires ReadSigned(s, n) == Ok((x, t))
    requires ReadSignedRun(t, count - 1, n) == Ok((ys, u))
    ensures ReadSignedRun(s, count, n) == Ok(([x] + ys, u))
  {
  }

  lemma {:induction false} SignedRunRoundTrip(xs: seq<int>, n: nat, rest: Bytes)
    requires n > 0 && forall i :: 0 <= i < |xs| ==> IsSigned(xs[i], n)
    ensures ReadSignedRun(WriteSignedRun(xs, n) + rest, |xs|, n) == Ok((xs, rest))
    decreases |xs|
  {
    if |xs| > 0 {
      var tail := WriteSignedRun(xs[1..], n) + rest;
      assert WriteSignedRun(xs, n) + rest == WriteSigned(xs[0], n) + tail;
      SignedRoundTrip(xs[0], n, tail);
      assert ReadSigned(WriteSignedRun(xs, n) + rest, n) == Ok((xs[0], tail));
      SignedRunRoundTrip(xs[1..], n, rest);
      SignedRunStep(WriteSignedRun(xs, n) + rest, |xs|, n, xs[0], tail, xs[1..], rest);
      assert [xs[0]] + xs[1..] == xs;
    } else {
      assert WriteSignedRun(xs, n) + rest == rest;
      assert xs == [];
    }
  }

  /** An array of fewer than 2^32 elements, each fitting `n` bytes, reads
      back as itself, and the read stops where the write ended. */
  lemma {:induction false} ArrayRoundTrip(xs: seq<int>, n: nat, rest: Bytes)
    requires n > 0 && forall i :: 0 <= i < |xs| ==> IsSigned(xs[i], n)
    requires |xs| < CountLimit
    ensures WriteArray(xs, n).Ok?
    ensures ReadArray(WriteArray(xs, n).value + rest, n) == Ok((xs, rest))
  {
    Pow256Widths();
    var count := WriteUnsigned(|xs|, 4);
    var run := WriteSignedRun(xs, n);
    var tail := run + rest;
    assert WriteArray(xs, n) == Ok(count + run);
    Assoc3(WriteArray(xs, n).value, count, run, rest);
    UnsignedRoundTrip(|xs|, 4, tail);
    SignedRunRoundTrip(xs, n, rest);
    ArrayStep(count + tail, n, |xs|, tail, xs, rest);
  }

  lemma ArrayStep(s: Bytes, n: nat, count: nat, t: Bytes, xs: seq<int>, rest: Bytes)
    requires n > 0
    requires ReadUnsigned(s, 4) == Ok((count, t))
    requires ReadSignedRun(t, count, n) == Ok((xs, rest))
    ensures ReadArray(s, n) == Ok((xs, rest))
  {
  }

  /** A non-empty string of at most 255 bytes reads back as itself, and the
      read stops exactly where the write ended. */
  lemma StringRoundTrip(text: Bytes, rest: Bytes)
    requires 0 < |text| <= MaxStringBytes
    ensures WriteString(text).Ok?
    ensures ReadString(WriteString(text).value + rest) == Ok((text, rest))
  {
    var s := WriteString(text).value + rest;
    assert s == [|text|] + text + rest;
    assert s[1..1 + |text|] == text;
  }

  /** The empty string writes no bytes, so the reader takes whatever byte
      follows as a length: it never yields the empty string while leaving the
      following bytes unread. */
  lemma EmptyStringNotRecovered(rest: Bytes)
    requires |rest| > 0
    ensures WriteString([]) == Ok([])
    ensures ReadString(WriteString([]).value + rest) != Ok(([], rest))
  {
  }

  lemma BoolRoundTrip(b: bool, rest: Bytes)
    ensures ReadBool(WriteBool(b) + rest) == Ok((b, rest))
  {
    assert (WriteBool(b) + rest)[1..] == rest;
  }

  /** A read of a width-`n` value with fewer than `n` bytes left is a read
      error, whatever the bytes are. */
  lemma ShortReadFails(s: Bytes, n: nat)
    requires 0 < n && |s| < n
    ensures ReadSigned(s, n) == Err(ReadError)
    ensures ReadUnsigned(s, n) == Err(ReadError)
  {
  }

  // ----- regrouping concatenations -----

  lemma {:induction false} Assoc3(whole: Bytes, x: Bytes, y: Bytes, rest: Bytes)
    requires whole == x + y
    ensures whole + rest == x + (y + rest)
  {
  }

  lemma {:induction false} Assoc4(whole: Bytes, x: Bytes, y: Bytes, z: Bytes, rest: Bytes)
    requires whole == x + y + z
    ensures whole + rest == x + (y + (z + rest))
  {
  }

  lemma {:induction false} Assoc5(whole: Bytes, w: Bytes, x: Bytes, y: Bytes, z: Bytes, rest: Bytes)
    requires whole == w + x + y + z
    ensures whole + rest == w + (x + (y + (z + rest)))
  {
  }

  /** A suffix of a list is its first element followed by the rest. */
  lemma {:induction false} SuffixCons<T>(s: seq<T>, i: nat)
    requires i < |s|
    ensures s[i..] == [s[i]] + s[i + 1..]
  {
  }

  /** Regrouping an entry `[id] + name + nested + more` followed by the `0`
      terminator, so that each read sees the bytes after the previous one. */
  lemma {:induction false} Regroup(whole: Bytes, b: byte, x: Bytes, y: Bytes, z: Bytes, rest: Bytes)
    requires whole == [b] + x + y + z
    ensures whole + [0] + rest == [b] + (x + (y + (z + [0] + rest)))
  {
  }

  /** The reads a named entry starts with: its id byte, then its name. */
  lemma {:induction false} NameHeader(b: byte, k: Bytes, tail: Bytes)
    requires 0 < |k| <= MaxStringBytes
    ensures WriteString(k).Ok?
    ensures ReadUInt8([b] + (WriteString(k).value + tail)) == Ok((b, WriteString(k).value + tail))
    ensures ReadString(WriteString(k).value + tail) == Ok((k, tail))
  {
    StringRoundTrip(k, tail);
  }
}
