/** What the structure-cached codec promises: every tag it accepts reads back
    as itself, and the bytes do not depend on dictionary iteration order. */
module CachedProofs {
  import opened Results
  import opened DataStream
  import opened KeyOrder
  import opened MaxDepth
  import opened CachedTag
  import opened CachedCodec

  // ----- values without children -----

  lemma {:induction false} IntegerRoundTrip(t: Tag, d: int, d': int, cache: bool, iter: Iter, rest: Bytes)
    requires Enumerates(iter)
    requires t.Byte? || t.Short? || t.Int? || t.Long?
    ensures SerializeValue(t, d, cache, iter).Ok?
    ensures DecodeValue(IdOf(t), SerializeValue(t, d, cache, iter).value + rest, d', cache) == Ok((t, rest))
  {
    match t
    case Byte(x) => ByteRoundTrip(x, d, d', cache, iter, rest);
    case Short(x) => ShortRoundTrip(x, d, d', cache, iter, rest);
    case Int(x) => IntRoundTrip(x, d, d', cache, iter, rest);
    case Long(x) => LongRoundTrip(x, d, d', cache, iter, rest);
  }

  lemma {:induction false} ByteRoundTrip(x: int8, d: int, d': int, cache: bool, iter: Iter, rest: Bytes)
    requires Enumerates(iter)
    ensures SerializeValue(Byte(x), d, cache, iter) == Ok(WriteSigned(x, 1))
    ensures DecodeValue(ByteId, WriteSigned(x, 1) + rest, d', cache) == Ok((Byte(x), rest))
  {
    Pow256Widths();
    SignedRoundTrip(x, 1, rest);
  }

  lemma {:induction false} ShortRoundTrip(x: int16, d: int, d': int, cache: bool, iter: Iter, rest: Bytes)
    requires Enumerates(iter)
    ensures SerializeValue(Short(x), d, cache, iter) == Ok(WriteSigned(x, 2))
    ensures DecodeValue(ShortId, WriteSigned(x, 2) + rest, d', cache) == Ok((Short(x), rest))
  {
    Pow256Widths();
    SignedRoundTrip(x, 2, rest);
  }

  lemma {:induction false} IntRoundTrip(x: int32, d: int, d': int, cache: bool, iter: Iter, rest: Bytes)
    requires Enumerates(iter)
    ensures SerializeValue(Int(x), d, cache, iter) == Ok(WriteSigned(x, 4))
    ensures DecodeValue(IntId, WriteSigned(x, 4) + rest, d', cache) == Ok((Int(x), rest))
  {
    Pow256Widths();
    SignedRoundTrip(x, 4, rest);
  }

  lemma {:induction false} LongRoundTrip(x: int64, d: int, d': int, cache: bool, iter: Iter, rest: Bytes)
    requires Enumerates(iter)
    ensures SerializeValue(Long(x), d, cache, iter) == Ok(WriteSigned(x, 8))
    ensures DecodeValue(LongId, WriteSigned(x, 8) + rest, d', cache) == Ok((Long(x), rest))
  {
    Pow256Widths();
    SignedRoundTrip(x, 8, rest);
  }

  lemma {:induction false} BitsRoundTrip(t: Tag, d: int, d': int, cache: bool, iter: Iter, rest: Bytes)
    requires Enumerates(iter)
    requires t.Float? || t.Double?
    ensures SerializeValue(t, d, cache, iter).Ok?
    ensures DecodeValue(IdOf(t), SerializeValue(t, d, cache, iter).value + rest, d', cache) == Ok((t, rest))
  {
    match t
    case Float(f) => FloatTagRoundTrip(f, d, d', cache, iter, rest);
    case Double(x) => DoubleTagRoundTrip(x, d, d', cache, iter, rest);
  }

  lemma {:induction false} FloatTagRoundTrip(f: bits32, d: int, d': int, cache: bool, iter: Iter, rest: Bytes)
    requires Enumerates(iter)
    ensures SerializeValue(Float(f), d, cache, iter) == Ok(WriteFloat(f))
    ensures DecodeValue(FloatId, WriteFloat(f) + rest, d', cache) == Ok((Float(f), rest))
  {
    FloatRoundTrip(f, rest);
  }

  lemma {:induction false} DoubleTagRoundTrip(x: bits64, d: int, d': int, cache: bool, iter: Iter, rest: Bytes)
    requires Enumerates(iter)
    ensures SerializeValue(Double(x), d, cache, iter) == Ok(WriteDouble(x))
    ensures DecodeValue(DoubleId, WriteDouble(x) + rest, d', cache) == Ok((Double(x), rest))
  {
    DoubleRoundTrip(x, rest);
  }

  lemma {:induction false} StrRoundTrip(t: Tag, d: int, d': int, cache: bool, iter: Iter, rest: Bytes)
    requires Enumerates(iter) && t.Str? && |t.text| > 0
    ensures SerializeValue(t, d, cache, iter).Ok? ==>
              DecodeValue(IdOf(t), SerializeValue(t, d, cache, iter).value + rest, d', cache) == Ok((t, rest))
  {
    if |t.text| <= MaxStringBytes {
      StringRoundTrip(t.text, rest);
    }
  }

  /** A byte array is its count, then one byte per element. */
  lemma {:induction false} ByteArrayRoundTrip(t: Tag, d: int, d': int, cache: bool, iter: Iter, rest: Bytes)
    requires Enumerates(iter) && t.ByteArray?
    ensures SerializeValue(t, d, cache, iter) == WriteArray(t.bytes, 1)
    ensures SerializeValue(t, d, cache, iter).Ok? ==>
              DecodeValue(IdOf(t), SerializeValue(t, d, cache, iter).value + rest, d', cache) == Ok((t, rest))
  {
    Pow256Widths();
    var xs := t.bytes;
    if |xs| < CountLimit {
      ArrayRoundTrip(xs, 1, rest);
      ByteArrayStep(WriteArray(xs, 1).value + rest, xs, d', cache, rest);
    }
  }

  lemma {:induction false} ByteArrayStep(s: Bytes, xs: seq<int8>, d: int, cache: bool, rest: Bytes)
    requires ReadArray(s, 1) == Ok((xs, rest))
    ensures DecodeValue(ByteArrayId, s, d, cache) == Ok((ByteArray(xs), rest))
  {
    var p := ReadArray(s, 1);
    assert p.Ok? && p.value == (xs, rest);
    assert DecodeValue(ByteArrayId, s, d, cache) == Ok((ByteArray(p.value.0), p.value.1));
  }

  /** A number, a string or a byte array reads back as itself, and the read
      stops where the write ended. */
  lemma {:induction false} ScalarRoundTrip(t: Tag, d: int, d': int, cache: bool, iter: Iter, rest: Bytes)
    requires Enumerates(iter) && ValueOk(t, cache)
    requires !t.List? && !t.Compound?
    ensures SerializeValue(t, d, cache, iter).Ok? ==>
              DecodeValue(IdOf(t), SerializeValue(t, d, cache, iter).value + rest, d', cache) == Ok((t, rest))
  {
    if t.Byte? || t.Short? || t.Int? || t.Long? {
      IntegerRoundTrip(t, d, d', cache, iter, rest);
    } else if t.Float? || t.Double? {
      BitsRoundTrip(t, d, d', cache, iter, rest);
    } else if t.Str? {
      StrRoundTrip(t, d, d', cache, iter, rest);
    } else {
      ByteArrayRoundTrip(t, d, d', cache, iter, rest);
    }
  }

  // ----- the cached structure -----

  /** `deserializeFixCompoundStructure` reads back exactly the structure
      `serializeDataStructure` wrote for the compound `f`. */
  lemma {:induction false} StructureRoundTrip(f: Tag, d: int, cache: bool, iter: Iter, rest: Bytes)
    requires Enumerates(iter) && f.Compound? && ValueOk(f, cache)
    ensures SerializeStructure(f, d, iter).Ok? ==>
              DecodeSchema(SerializeStructure(f, d, iter).value + rest) == Ok((SchemaOf(f, iter), rest))
    decreases f, 1
  {
    if SerializeStructure(f, d, iter).Ok? {
      var keys := SortedKeys(iter, f.fields);
      StructureFieldsRoundTrip(f, keys, d, cache, iter, rest);
      assert SerializeStructure(f, d, iter).value + rest
          == StructureFields(f, keys, d, iter).value + [0] + rest;
    }
  }

  /** One `(id, name)` pair of a structure, for a non-compound field. */
  lemma {:induction false} SchemaLeafStep(s: Bytes, b: byte, k: Key, a: Bytes, c: Bytes, fs: seq<Field>, rest: Bytes)
    requires b != 0 && b != CompoundCode
    requires ReadUInt8(s) == Ok((b, a)) && ReadString(a) == Ok((k, c))
    requires DecodeSchema(c) == Ok((fs, rest))
    ensures DecodeSchema(s) == Ok(([Field(k, Leaf(b))] + fs, rest))
  {
  }

  /** One `(id, name)` pair of a structure, for a compound field, followed by
      the field's own structure. */
  lemma {:induction false} SchemaNestedStep(s: Bytes, k: Key, a: Bytes, b: Bytes, c: Bytes, sub: seq<Field>, fs: seq<Field>, rest: Bytes)
    requires ReadUInt8(s) == Ok((CompoundCode, a)) && ReadString(a) == Ok((k, b))
    requires DecodeSchema(b) == Ok((sub, c))
    requires DecodeSchema(c) == Ok((fs, rest))
    ensures DecodeSchema(s) == Ok(([Field(k, Nested(sub))] + fs, rest))
  {
  }

  lemma {:induction false} StructureFieldsSplit(f: Tag, keys: seq<Key>, d: int, iter: Iter)
    requires Enumerates(iter) && f.Compound? && |keys| > 0
    requires KeysIn(keys, f.fields)
    requires StructureFields(f, keys, d, iter).Ok?
    ensures WriteString(keys[0]).Ok? && StructureFields(f, keys[1..], d, iter).Ok?
    ensures f.fields[keys[0]].Compound? ==> NestedStructure(f.fields[keys[0]], d, iter).Ok?
    ensures StructureFields(f, keys, d, iter).value
         == [Code(IdOf(f.fields[keys[0]]))] + WriteString(keys[0]).value
            + (if f.fields[keys[0]].Compound? then NestedStructure(f.fields[keys[0]], d, iter).value else [])
            + StructureFields(f, keys[1..], d, iter).value
  {
  }

  /** `StructureFieldsSplit` for a compound first field. */
  lemma {:induction false} StructureNestedSplit(f: Tag, keys: seq<Key>, d: int, iter: Iter)
    requires Enumerates(iter) && f.Compound? && |keys| > 0
    requires KeysIn(keys, f.fields)
    requires f.fields[keys[0]].Compound?
    requires StructureFields(f, keys, d, iter).Ok?
    ensures d > 0 && WriteString(keys[0]).Ok? && StructureFields(f, keys[1..], d, iter).Ok?
    ensures SerializeStructure(f.fields[keys[0]], d - 1, iter).Ok?
    ensures StructureFields(f, keys, d, iter).value
         == [CompoundCode] + WriteString(keys[0]).value + SerializeStructure(f.fields[keys[0]], d - 1, iter).value
            + StructureFields(f, keys[1..], d, iter).value
  {
    FromIdOfCode(CompoundId);
  }

  lemma {:induction false} SchemaFieldsHead(f: Tag, keys: seq<Key>, iter: Iter)
    requires Enumerates(iter) && f.Compound? && |keys| > 0
    requires KeysIn(keys, f.fields)
    ensures SchemaFields(f, keys, iter)
         == [Field(keys[0], if f.fields[keys[0]].Compound? then Nested(SchemaOf(f.fields[keys[0]], iter))
                            else Leaf(Code(IdOf(f.fields[keys[0]]))))]
            + SchemaFields(f, keys[1..], iter)
  {
  }

  /** The first entry of a structure, for a non-compound field. */
  lemma {:induction false} StructureLeafEntry(f: Tag, keys: seq<Key>, d: int, iter: Iter, rest: Bytes)
    requires Enumerates(iter) && f.Compound? && |keys| > 0
    requires KeysIn(keys, f.fields)
    requires |keys[0]| > 0 && !f.fields[keys[0]].Compound? && !f.fields[keys[0]].End?
    requires StructureFields(f, keys, d, iter).Ok?
    requires DecodeSchema(StructureFields(f, keys[1..], d, iter).value + [0] + rest)
          == Ok((SchemaFields(f, keys[1..], iter), rest))
    ensures DecodeSchema(StructureFields(f, keys, d, iter).value + [0] + rest)
         == Ok((SchemaFields(f, keys, iter), rest))
  {
    var k := keys[0];
    var v := f.fields[k];
    var c := Code(IdOf(v));
    FromIdOfCode(IdOf(v));
    StructureFieldsSplit(f, keys, d, iter);
    var name := WriteString(k).value;
    var tail := StructureFields(f, keys[1..], d, iter).value + [0] + rest;
    Regroup(StructureFields(f, keys, d, iter).value, c, name, [], StructureFields(f, keys[1..], d, iter).value, rest);
    assert [] + tail == tail;
    NameHeader(c, k, tail);
    SchemaLeafStep([c] + (name + tail), c, k, name + tail, tail, SchemaFields(f, keys[1..], iter), rest);
    SchemaFieldsHead(f, keys, iter);
  }

  /** The bytes of a compound field's entry: its id and name, its own
      structure, then the entries after it. */
  lemma {:induction false} NestedEntryBytes(k: Key, nested: Bytes, tail: Bytes, sub: seq<Field>, fs: seq<Field>, rest: Bytes)
    requires 0 < |k| <= MaxStringBytes
    requires DecodeSchema(nested + tail) == Ok((sub, tail))
    requires DecodeSchema(tail) == Ok((fs, rest))
    ensures WriteString(k).Ok?
    ensures DecodeSchema([CompoundCode] + (WriteString(k).value + (nested + tail)))
         == Ok(([Field(k, Nested(sub))] + fs, rest))
  {
    NameHeader(CompoundCode, k, nested + tail);
    var name := WriteString(k).value;
    SchemaNestedStep([CompoundCode] + (name + (nested + tail)), k, name + (nested + tail), nested + tail, tail, sub, fs, rest);
  }

  /** The first entry of a structure, for a compound field: its id and name,
      then its own structure. */
  lemma {:induction false} StructureNestedEntry(f: Tag, keys: seq<Key>, d: int, iter: Iter, rest: Bytes)
    requires Enumerates(iter) && f.Compound? && |keys| > 0
    requires KeysIn(keys, f.fields)
    requires |keys[0]| > 0 && f.fields[keys[0]].Compound?
    requires StructureFields(f, keys, d, iter).Ok?
    requires DecodeSchema(StructureFields(f, keys[1..], d, iter).value + [0] + rest)
          == Ok((SchemaFields(f, keys[1..], iter), rest))
    requires SerializeStructure(f.fields[keys[0]], d - 1, iter).Ok? ==>
               DecodeSchema(SerializeStructure(f.fields[keys[0]], d - 1, iter).value
                            + (StructureFields(f, keys[1..], d, iter).value + [0] + rest))
               == Ok((SchemaOf(f.fields[keys[0]], iter), StructureFields(f, keys[1..], d, iter).value + [0] + rest))
    ensures DecodeSchema(StructureFields(f, keys, d, iter).value + [0] + rest)
         == Ok((SchemaFields(f, keys, iter), rest))
  {
    var k := keys[0];
    var v := f.fields[k];
    StructureNestedSplit(f, keys, d, iter);
    var nested := SerializeStructure(v, d - 1, iter).value;
    var more := StructureFields(f, keys[1..], d, iter).value;
    var tail := more + [0] + rest;
    NestedEntryBytes(k, nested, tail, SchemaOf(v, iter), SchemaFields(f, keys[1..], iter), rest);
    Regroup(StructureFields(f, keys, d, iter).value, CompoundCode, WriteString(k).value, nested, more, rest);
    SchemaFieldsHead(f, keys, iter);
  }

  lemma {:induction false} StructureFieldsRoundTrip(f: Tag, keys: seq<Key>, d: int, cache: bool, iter: Iter, rest: Bytes)
    requires Enumerates(iter) && f.Compound? && ValueOk(f, cache)
    requires KeysIn(keys, f.fields)
    requires StructureFields(f, keys, d, iter).Ok?
    ensures DecodeSchema(StructureFields(f, keys, d, iter).value + [0] + rest)
         == Ok((SchemaFields(f, keys, iter), rest))
    decreases f, 0, |keys|, 1
  {
    if |keys| == 0 {
      assert StructureFields(f, keys, d, iter).value + [0] + rest == [0] + rest;
    } else if f.fields[keys[0]].Compound? {
      NestedFieldRoundTrip(f, keys, d, cache, iter, rest);
    } else {
      FieldOk(f, keys[0], cache);
      StructureFieldsSplit(f, keys, d, iter);
      StructureFieldsRoundTrip(f, keys[1..], d, cache, iter, rest);
      StructureLeafEntry(f, keys, d, iter, rest);
    }
  }

  lemma {:induction false} NestedFieldRoundTrip(f: Tag, keys: seq<Key>, d: int, cache: bool, iter: Iter, rest: Bytes)
    requires Enumerates(iter) && f.Compound? && ValueOk(f, cache)
    requires |keys| > 0 && KeysIn(keys, f.fields)
    requires f.fields[keys[0]].Compound?
    requires StructureFields(f, keys, d, iter).Ok?
    ensures DecodeSchema(StructureFields(f, keys, d, iter).value + [0] + rest)
         == Ok((SchemaFields(f, keys, iter), rest))
    decreases f, 0, |keys|, 0
  {
    var v := f.fields[keys[0]];
    FieldOk(f, keys[0], cache);
    ChildBelow(f, keys[0]);
    StructureRoundTrip(v, d - 1, cache, iter, StructureFields(f, keys[1..], d, iter).value + [0] + rest);
    StructureFieldsRoundTrip(f, keys[1..], d, cache, iter, rest);
    StructureNestedEntry(f, keys, d, iter, rest);
  }
}
