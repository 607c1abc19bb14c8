/** The building blocks of the envelope codec's round trip: every value
    without children reads back as itself, one step of each reader, and what
    each writer produced. */
module EnvelopeProofs {
  import opened Results
  import opened DataStream
  import opened KeyOrder
  import opened MaxDepth
  import opened EnvelopeTag
  import opened EnvelopeCodec

  // ----- the codec's functions under non-recursive names -----
  // The lemmas below are stated over these one-line wrappers, so that the
  // conclusion of one step is, term for term, the premise of the next.

  ghost function EncValue(t: Tag, d: int, rev: Revision, iter: Iter): Result<Bytes>
    requires Enumerates(iter)
  {
    SerializeValue(t, d, rev, iter)
  }

  ghost function EncFields(t: Tag, keys: seq<Key>, d: int, rev: Revision, iter: Iter): Result<Bytes>
    requires Enumerates(iter) && t.Compound?
    requires KeysIn(keys, t.fields)
  {
    SerializeFields(t, keys, d, rev, iter)
  }

  ghost function EncElements(t: Tag, i: nat, d: int, rev: Revision, iter: Iter): Result<Bytes>
    requires Enumerates(iter) && t.List? && i <= |t.items|
  {
    SerializeElements(t, i, d, rev, iter)
  }

  ghost function DecValue(id: TagId, s: Bytes, d: int): Result<(Tag, Bytes)>
  {
    DecodeValue(id, s, d)
  }

  ghost function DecFields(s: Bytes, d: int): Result<(map<Key, Tag>, Bytes)>
  {
    DecodeFields(s, d)
  }

  ghost function DecElements(ty: byte, count: nat, s: Bytes, d: int): Result<(seq<Tag>, Bytes)>
  {
    DecodeElements(ty, count, s, d)
  }

  // ----- values without children -----

  lemma {:induction false} ByteRoundTrip(x: int8, d: int, d': int, rev: Revision, iter: Iter, rest: Bytes)
    requires Enumerates(iter)
    ensures SerializeValue(Byte(x), d, rev, iter) == Ok(WriteSigned(x, 1))
    ensures DecodeValue(ByteId, WriteSigned(x, 1) + rest, d') == Ok((Byte(x), rest))
  {
    Pow256Widths();
    SignedRoundTrip(x, 1, rest);
  }

  lemma {:induction false} ShortRoundTrip(x: int16, d: int, d': int, rev: Revision, iter: Iter, rest: Bytes)
    requires Enumerates(iter)
    ensures SerializeValue(Short(x), d, rev, iter) == Ok(WriteSigned(x, 2))
    ensures DecodeValue(ShortId, WriteSigned(x, 2) + rest, d') == Ok((Short(x), rest))
  {
    Pow256Widths();
    SignedRoundTrip(x, 2, rest);
  }

  lemma {:induction false} IntRoundTrip(x: int32, d: int, d': int, rev: Revision, iter: Iter, rest: Bytes)
    requires Enumerates(iter)
    ensures SerializeValue(Int(x), d, rev, iter) == Ok(WriteSigned(x, 4))
    ensures DecodeValue(IntId, WriteSigned(x, 4) + rest, d') == Ok((Int(x), rest))
  {
    Pow256Widths();
    SignedRoundTrip(x, 4, rest);
  }

  lemma {:induction false} LongRoundTrip(x: int64, d: int, d': int, rev: Revision, iter: Iter, rest: Bytes)
    requires Enumerates(iter)
    ensures SerializeValue(Long(x), d, rev, iter) == Ok(WriteSigned(x, 8))
    ensures DecodeValue(LongId, WriteSigned(x, 8) + rest, d') == Ok((Long(x), rest))
  {
    Pow256Widths();
    SignedRoundTrip(x, 8, rest);
  }

  lemma {:induction false} FloatTagRoundTrip(f: bits32, d: int, d': int, rev: Revision, iter: Iter, rest: Bytes)
    requires Enumerates(iter)
    ensures SerializeValue(Float(f), d, rev, iter) == Ok(WriteFloat(f))
    ensures DecodeValue(FloatId, WriteFloat(f) + rest, d') == Ok((Float(f), rest))
  {
    FloatRoundTrip(f, rest);
  }

  lemma {:induction false} DoubleTagRoundTrip(x: bits64, d: int, d': int, rev: Revision, iter: Iter, rest: Bytes)
    requires Enumerates(iter)
    ensures SerializeValue(Double(x), d, rev, iter) == Ok(WriteDouble(x))
    ensures DecodeValue(DoubleId, WriteDouble(x) + rest, d') == Ok((Double(x), rest))
  {
    DoubleRoundTrip(x, rest);
  }

  lemma {:induction false} StrRoundTrip(text: Bytes, d: int, d': int, rev: Revision, iter: Iter, rest: Bytes)
    requires Enumerates(iter) && |text| > 0
    ensures SerializeValue(Str(text), d, rev, iter) == WriteString(text)
    ensures WriteString(text).Ok? ==>
              DecodeValue(StringId, WriteString(text).value + rest, d') == Ok((Str(text), rest))
  {
    if |text| <= MaxStringBytes {
      StringRoundTrip(text, rest);
    }
  }

  // ----- the array tags -----

  /** A byte array reads back through the byte-array reader. */
  lemma {:induction false} ByteArrayRoundTrip(xs: seq<int8>, d: int, d': int, iter: Iter, rest: Bytes)
    requires Enumerates(iter)
    ensures SerializeValue(ByteArray(xs), d, Fixed, iter) == WriteArray(xs, 1)
    ensures WriteArray(xs, 1).Ok? ==>
              DecodeValue(ByteArrayId, WriteArray(xs, 1).value + rest, d') == Ok((ByteArray(xs), rest))
  {
    ByteArrayWrites(xs, d, iter);
    if |xs| < CountLimit {
      var s := WriteArray(xs, 1).value + rest;
      Pow256Widths();
      ArrayRoundTrip(xs, 1, rest);
      ByteArrayStep(s, xs, d', rest);
    }
  }

  lemma {:induction false} ByteArrayWrites(xs: seq<int8>, d: int, iter: Iter)
    requires Enumerates(iter)
    ensures SerializeValue(ByteArray(xs), d, Fixed, iter) == WriteArray(xs, 1)
  {
  }

  lemma {:induction false} ByteArrayStep(s: Bytes, xs: seq<int8>, d: int, rest: Bytes)
    requires ReadArray(s, 1) == Ok((xs, rest))
    ensures DecodeValue(ByteArrayId, s, d) == Ok((ByteArray(xs), rest))
  {
    var p := ReadArray(s, 1);
    assert p.Ok? && p.value == (xs, rest);
    assert DecodeValue(ByteArrayId, s, d) == Ok((ByteArray(p.value.0), p.value.1));
  }

  lemma {:induction false} IntArrayRoundTrip(xs: seq<int32>, d: int, d': int, rev: Revision, iter: Iter, rest: Bytes)
    requires Enumerates(iter)
    ensures SerializeValue(IntArray(xs), d, rev, iter) == WriteArray(xs, 4)
    ensures WriteArray(xs, 4).Ok? ==>
              DecodeValue(IntArrayId, WriteArray(xs, 4).value + rest, d') == Ok((IntArray(xs), rest))
  {
    IntArrayWrites(xs, d, rev, iter);
    if |xs| < CountLimit {
      var s := WriteArray(xs, 4).value + rest;
      Pow256Widths();
      ArrayRoundTrip(xs, 4, rest);
      IntArrayStep(s, xs, d', rest);
    }
  }

  lemma {:induction false} IntArrayWrites(xs: seq<int32>, d: int, rev: Revision, iter: Iter)
    requires Enumerates(iter)
    ensures SerializeValue(IntArray(xs), d, rev, iter) == WriteArray(xs, 4)
  {
  }

  lemma {:induction false} IntArrayStep(s: Bytes, xs: seq<int32>, d: int, rest: Bytes)
    requires ReadArray(s, 4) == Ok((xs, rest))
    ensures DecodeValue(IntArrayId, s, d) == Ok((IntArray(xs), rest))
  {
    var p := ReadArray(s, 4);
    assert p.Ok? && p.value == (xs, rest);
    assert DecodeValue(IntArrayId, s, d) == Ok((IntArray(p.value.0), p.value.1));
  }

  lemma {:induction false} LongArrayRoundTrip(xs: seq<int64>, d: int, d': int, rev: Revision, iter: Iter, rest: Bytes)
    requires Enumerates(iter)
    ensures SerializeValue(LongArray(xs), d, rev, iter) == WriteArray(xs, 8)
    ensures WriteArray(xs, 8).Ok? ==>
              DecodeValue(LongArrayId, WriteArray(xs, 8).value + rest, d') == Ok((LongArray(xs), rest))
  {
    LongArrayWrites(xs, d, rev, iter);
    if |xs| < CountLimit {
      var s := WriteArray(xs, 8).value + rest;
      Pow256Widths();
      ArrayRoundTrip(xs, 8, rest);
      LongArrayStep(s, xs, d', rest);
    }
  }

  lemma {:induction false} LongArrayWrites(xs: seq<int64>, d: int, rev: Revision, iter: Iter)
    requires Enumerates(iter)
    ensures SerializeValue(LongArray(xs), d, rev, iter) == WriteArray(xs, 8)
  {
  }

  lemma {:induction false} LongArrayStep(s: Bytes, xs: seq<int64>, d: int, rest: Bytes)
    requires ReadArray(s, 8) == Ok((xs, rest))
    ensures DecodeValue(LongArrayId, s, d) == Ok((LongArray(xs), rest))
  {
    var p := ReadArray(s, 8);
    assert p.Ok? && p.value == (xs, rest);
    assert DecodeValue(LongArrayId, s, d) == Ok((LongArray(p.value.0), p.value.1));
  }

  /** A number, a string or an array reads back as itself, and the read stops
      where the write ended. */
  lemma {:induction false} ScalarRoundTrip(t: Tag, d: int, d': int, rev: Revision, iter: Iter, rest: Bytes)
    requires Enumerates(iter) && ValueOk(t, rev)
    requires !t.List? && !t.Compound?
    ensures EncValue(t, d, rev, iter).Ok? ==>
              DecValue(IdOf(t, rev), EncValue(t, d, rev, iter).value + rest, d') == Ok((t, rest))
  {
    match t
    case Byte(x) => ByteRoundTrip(x, d, d', rev, iter, rest);
    case Short(x) => ShortRoundTrip(x, d, d', rev, iter, rest);
    case Int(x) => IntRoundTrip(x, d, d', rev, iter, rest);
    case Long(x) => LongRoundTrip(x, d, d', rev, iter, rest);
    case Float(f) => FloatTagRoundTrip(f, d, d', rev, iter, rest);
    case Double(x) => DoubleTagRoundTrip(x, d, d', rev, iter, rest);
    case Str(text) => StrRoundTrip(text, d, d', rev, iter, rest);
    case ByteArray(xs) => ByteArrayRoundTrip(xs, d, d', iter, rest);
    case IntArray(xs) => IntArrayRoundTrip(xs, d, d', rev, iter, rest);
    case LongArray(xs) => LongArrayRoundTrip(xs, d, d', rev, iter, rest);
  }

  // ----- one step of each reader -----

  /** One `(id, name, value)` child of a compound. */
  lemma {:induction false} FieldsStep(s: Bytes, b: byte, a: Bytes, k: Key, c: Bytes, tid: TagId, d: int,
                   v: Tag, e: Bytes, m: map<Key, Tag>, rest: Bytes)
    requires ReadUInt8(s) == Ok((b, a)) && b != 0 && ReadString(a) == Ok((k, c))
    requires FromId(b) == Ok(tid) && Decrement(d) == Ok(d - 1)
    requires DecValue(tid, c, d - 1) == Ok((v, e))
    requires DecFields(e, d) == Ok((m, rest))
    ensures DecFields(s, d) == Ok((map[k := v] + m, rest))
  {
  }

  /** A named child as bytes: its id, its name, its value, then the children
      after it. */
  lemma {:induction false} FieldEntryBytes(tid: TagId, k: Key, value: Bytes, tail: Bytes, v: Tag, m: map<Key, Tag>,
                        rest: Bytes, d: int)
    requires 0 < |k| <= MaxStringBytes && tid != EndId && d > 0
    requires DecValue(tid, value + tail, d - 1) == Ok((v, tail))
    requires DecFields(tail, d) == Ok((m, rest))
    ensures WriteString(k).Ok?
    ensures DecFields([Code(tid)] + (WriteString(k).value + (value + tail)), d) == Ok((map[k := v] + m, rest))
  {
    FromIdOfCode(tid);
    assert Decrement(d) == Ok(d - 1);
    NameHeader(Code(tid), k, value + tail);
    var name := WriteString(k).value;
    FieldsStep([Code(tid)] + (name + (value + tail)), Code(tid), name + (value + tail), k, value + tail,
               tid, d, v, tail, m, rest);
  }

  lemma {:induction false} ElementsStep(ty: byte, count: nat, s: Bytes, d: int, tid: TagId,
                     x: Tag, a: Bytes, xs: seq<Tag>, rest: Bytes)
    requires count > 0 && FromId(ty) == Ok(tid) && Decrement(d) == Ok(d - 1)
    requires DecValue(tid, s, d - 1) == Ok((x, a))
    requires DecElements(ty, count - 1, a, d) == Ok((xs, rest))
    ensures DecElements(ty, count, s, d) == Ok(([x] + xs, rest))
  {
  }

  lemma {:induction false} CompoundStep(s: Bytes, d: int, m: map<Key, Tag>, rest: Bytes)
    requires DecFields(s, d) == Ok((m, rest))
    ensures DecValue(CompoundId, s, d) == Ok((Compound(m), rest))
  {
  }

  /** A non-empty list: count, element id, values. */
  lemma {:induction false} ListBytes(n: nat, ty: byte, values: Bytes, rest: Bytes, items: seq<Tag>, d: int)
    requires 0 < n < CountLimit
    requires DecElements(ty, n, values + rest, d) == Ok((items, rest))
    ensures n < Pow256(4)
    ensures DecValue(ListId, WriteUnsigned(n, 4) + ([ty] + (values + rest)), d) == Ok((List(items), rest))
  {
    Pow256Widths();
    UnsignedRoundTrip(n, 4, [ty] + (values + rest));
  }

  // ----- what each writer produced -----

  lemma {:induction false} FieldsSplit(t: Tag, keys: seq<Key>, d: int, rev: Revision, iter: Iter)
    requires Enumerates(iter) && t.Compound? && |keys| > 0
    requires KeysIn(keys, t.fields)
    requires IdOf(t.fields[keys[0]], rev) != EndId
    requires EncFields(t, keys, d, rev, iter).Ok?
    ensures d > 0 && WriteString(keys[0]).Ok? && EncFields(t, keys[1..], d, rev, iter).Ok?
    ensures EncValue(t.fields[keys[0]], d - 1, rev, iter).Ok?
    ensures EncFields(t, keys, d, rev, iter).value
         == [Code(IdOf(t.fields[keys[0]], rev))] + WriteString(keys[0]).value
            + EncValue(t.fields[keys[0]], d - 1, rev, iter).value
            + EncFields(t, keys[1..], d, rev, iter).value
  {
    assert d > 0;
    var named := SerializeNamed(t.fields[keys[0]], keys[0], d - 1, rev, iter);
    assert named.Ok?;
  }

  lemma {:induction false} ElementsSplit(t: Tag, i: nat, d: int, rev: Revision, iter: Iter)
    requires Enumerates(iter) && t.List? && i < |t.items|
    requires EncElements(t, i, d, rev, iter).Ok?
    ensures d > 0 && EncValue(t.items[i], d - 1, rev, iter).Ok?
    ensures EncElements(t, i + 1, d, rev, iter).Ok?
    ensures EncElements(t, i, d, rev, iter).value
         == EncValue(t.items[i], d - 1, rev, iter).value + EncElements(t, i + 1, d, rev, iter).value
  {
  }

  lemma {:induction false} CompoundSplit(t: Tag, d: int, rev: Revision, iter: Iter)
    requires Enumerates(iter) && t.Compound?
    requires EncValue(t, d, rev, iter).Ok?
    ensures EncFields(t, DictKeys(iter, t.fields), d, rev, iter).Ok?
    ensures EncValue(t, d, rev, iter).value == EncFields(t, DictKeys(iter, t.fields), d, rev, iter).value + [0]
  {
  }

  lemma {:induction false} ListSplit(t: Tag, d: int, rev: Revision, iter: Iter)
    requires Enumerates(iter) && t.List? && |t.items| > 0
    requires EncValue(t, d, rev, iter).Ok?
    ensures |t.items| < CountLimit && |t.items| < Pow256(4)
    ensures EncElements(t, 0, d, rev, iter).Ok?
    ensures EncValue(t, d, rev, iter).value
         == WriteUnsigned(|t.items|, 4) + [Code(IdOf(t.items[0], rev))] + EncElements(t, 0, d, rev, iter).value
  {
    Pow256Widths();
  }
}
