/** The byte array of the envelope codec.  `ByteArrayTag.tagID()` answers
    `.longArray`, so a byte array goes out under id 12 and comes back, when it
    comes back at all, as a long array.  With `tagID()` answering
    `.byteArray` the byte array reads back as itself. */
module EnvelopeByteArray {
  import opened Results
  import opened DataStream
  import opened KeyOrder
  import opened EnvelopeTag
  import opened EnvelopeCodec
  import opened EnvelopeProofs
  import opened EnvelopeRoot

  // ----- as written -----

  /** Whatever id 12 reads is a long array. */
  lemma LongArrayIdReadsLongArray(s: Bytes, d: int)
    ensures DecodeValue(LongArrayId, s, d).Ok? ==> DecodeValue(LongArrayId, s, d).value.0.LongArray?
  {
  }

  /** As written, no byte array reads back as itself at the root: its bytes
      either fail to read or read as a long array. */
  lemma ByteArrayNeverRecovered(xs: seq<int8>, d: int, d': int, iter: Iter, rest: Bytes)
    requires Enumerates(iter)
    ensures Serialize(ByteArray(xs), d, AsWritten, iter).Ok? ==>
              Deserialize(Serialize(ByteArray(xs), d, AsWritten, iter).value + rest, d') != Ok((ByteArray(xs), rest))
  {
    var t := ByteArray(xs);
    var out := Serialize(t, d, AsWritten, iter);
    RootFrame(t, d, AsWritten, iter);
    if out.Ok? {
      var value := SerializeValue(t, d, AsWritten, iter).value;
      var body := value + rest;
      Assoc3(out.value, [Magic, Version, Code(LongArrayId)], value, rest);
      RootRead(LongArrayId, body, d');
      LongArrayIdReadsLongArray(body, d');
    }
  }

  /** As written, the one-byte array `[5]` is the header, id 12, a count of
      one and the byte itself; read back, the count asks for an 8-byte
      element and the input ends first. */
  lemma ByteArrayReadsPastEnd(d: int, d': int, iter: Iter)
    requires Enumerates(iter)
    ensures Serialize(ByteArray([5]), d, AsWritten, iter) == Ok([0x42, 1, 12, 0, 0, 0, 1, 5])
    ensures Deserialize([0x42, 1, 12, 0, 0, 0, 1, 5], d') == Err(ReadError)
  {
    OneByteArrayWrites(d, iter);
    OneByteArrayRead(d');
  }

  lemma OneByteArrayWrites(d: int, iter: Iter)
    requires Enumerates(iter)
    ensures Serialize(ByteArray([5]), d, AsWritten, iter) == Ok([0x42, 1, 12, 0, 0, 0, 1, 5])
  {
    Pow256Widths();
    var xs: seq<int8> := [5];
    SmallUnsigned(1);
    SmallUnsigned(5);
    assert xs[1..] == [];
    assert WriteSigned(5, 1) == [5];
    assert WriteSignedRun(xs, 1) == WriteSigned(5, 1) + WriteSignedRun(xs[1..], 1);
    assert WriteSignedRun(xs, 1) == [5];
    assert WriteCount(1) == Ok([0, 0, 0, 1]);
    assert WriteArray(xs, 1) == Ok([0, 0, 0, 1] + [5]);
    var value: Bytes := [0, 0, 0, 1, 5];
    assert [0, 0, 0, 1] + [5] == value;
    assert SerializeValue(ByteArray(xs), d, AsWritten, iter) == WriteArray(xs, 1);
    assert SerializeValue(ByteArray(xs), d, AsWritten, iter) == Ok(value);
    RootFrame(ByteArray(xs), d, AsWritten, iter);
    assert [Magic, Version, 12] + [0, 0, 0, 1, 5] == [0x42, 1, 12, 0, 0, 0, 1, 5];
  }

  lemma OneByteArrayRead(d: int)
    ensures Deserialize([0x42, 1, 12, 0, 0, 0, 1, 5], d) == Err(ReadError)
  {
    Pow256Widths();
    SmallUnsigned(1);
    var body: Bytes := [0, 0, 0, 1, 5];
    RootRead(LongArrayId, body, d);
    assert [Magic, Version, Code(LongArrayId)] + body == [0x42, 1, 12, 0, 0, 0, 1, 5];
    assert ReadUnsigned(body, 4) == Ok((1, [5]));
    assert ReadArray(body, 8) == Err(ReadError);
  }

  /** As written, the empty byte array reads back as the empty long array. */
  lemma EmptyByteArrayReadsAsLongArray(d: int, d': int, iter: Iter, rest: Bytes)
    requires Enumerates(iter)
    ensures Serialize(ByteArray([]), d, AsWritten, iter) == Ok([0x42, 1, 12, 0, 0, 0, 0])
    ensures Deserialize([0x42, 1, 12, 0, 0, 0, 0] + rest, d') == Ok((LongArray([]), rest))
  {
    EmptyByteArrayWrites(d, iter);
    EmptyLongArrayRead(d', rest);
  }

  lemma EmptyLongArrayRead(d: int, rest: Bytes)
    ensures Deserialize([0x42, 1, 12, 0, 0, 0, 0] + rest, d) == Ok((LongArray([]), rest))
  {
    var zeros: Bytes := [0, 0, 0, 0];
    var body: Bytes := zeros + rest;
    var longs: seq<int64> := [];
    EmptyArray(longs, 8);
    Pow256Widths();
    ArrayRoundTrip(longs, 8, rest);
    LongArrayStep(body, longs, d, rest);
    RootRead(LongArrayId, body, d);
    Assoc3([0x42, 1, 12] + zeros, [0x42, 1, 12], zeros, rest);
    assert [0x42, 1, 12] + zeros == [0x42, 1, 12, 0, 0, 0, 0];
  }

  lemma EmptyByteArrayWrites(d: int, iter: Iter)
    requires Enumerates(iter)
    ensures Serialize(ByteArray([]), d, AsWritten, iter) == Ok([0x42, 1, 12, 0, 0, 0, 0])
  {
    var xs: seq<int8> := [];
    var value: Bytes := [0, 0, 0, 0];
    EmptyArray(xs, 1);
    assert SerializeValue(ByteArray(xs), d, AsWritten, iter) == WriteArray(xs, 1);
    RootFrame(ByteArray(xs), d, AsWritten, iter);
    assert [Magic, Version, 12] + value == [0x42, 1, 12, 0, 0, 0, 0];
  }

  /** An empty array is a zero count alone. */
  lemma EmptyArray(xs: seq<int>, n: nat)
    requires n > 0 && xs == []
    ensures WriteArray(xs, n) == Ok([0, 0, 0, 0])
  {
    Pow256Widths();
    SmallUnsigned(0);
    assert WriteArray(xs, n) == Ok([0, 0, 0, 0] + []);
    assert [0, 0, 0, 0] + [] == [0, 0, 0, 0];
  }

  // ----- fixed -----

  /** With `tagID()` answering `.byteArray`, every byte array of fewer than
      2^32 elements is written under id 7 and reads back as itself. */
  lemma ByteArrayFixed(xs: seq<int8>, d: int, d': int, iter: Iter, rest: Bytes)
    requires Enumerates(iter) && |xs| < CountLimit && d <= d'
    ensures Serialize(ByteArray(xs), d, Fixed, iter).Ok?
    ensures Serialize(ByteArray(xs), d, Fixed, iter).value[2] == Code(ByteArrayId)
    ensures Deserialize(Serialize(ByteArray(xs), d, Fixed, iter).value + rest, d') == Ok((ByteArray(xs), rest))
  {
    Pow256Widths();
    ByteArrayRoundTrip(xs, d, d', iter, rest);
    RoundTrip(ByteArray(xs), d, d', Fixed, iter, rest);
  }
}
