/** The versioned-envelope tag codec (`BoxData/BoxData/BoxTag.swift`).

    The output starts with the magic byte `0x42` and the version `1`, then the
    root as `[id][value]` (it is named "", which writes no bytes).  A named
    tag is `[id][name][value]`.  The id comes from the tag's `tagID()`, which
    `EndTag` does not override, so an End written as a named tag or as a
    list's first element traps; `EndTag.serializeValue` alone writes the `0`
    that ends a compound, and later list elements reach it.  Compound children
    follow in the dictionary's own iteration order, each one level down, and
    a `0` byte ends the compound.  A list is a 4-byte count, then, when it is
    not empty, the first element's id once and every element's value, one
    level down.  There is no structure cache.

    The nesting budget is `d`, the dictionary iteration order is `iter`, and
    `rev` picks the id a byte array reports.  Encoders return the bytes they
    append; decoders return the decoded value and the bytes they leave
    unread.
 */
module EnvelopeCodec {
  import opened Results
  import opened DataStream
  import opened KeyOrder
  import opened MaxDepth
  import opened EnvelopeTag

  /** The file tag `'B'`. */
  const Magic: byte := 0x42
  /** The format version. */
  const Version: byte := 1

  // ----- encoding -----

  /** `Tag.serialize(into:maxDepth:)`: magic, version, then the root named "". */
  function Serialize(t: Tag, d: int, rev: Revision, iter: Iter): (r: Result<Bytes>)
    requires Enumerates(iter)
    ensures t.End? ==> r == Err(Trap(MissingOverride))
    ensures r.Ok? ==> |r.value| > 2 && r.value[0] == Magic && r.value[1] == Version
    ensures r.Ok? ==> r.value[2] == Code(IdOf(t, rev))
  {
    var root :- SerializeNamed(t, [], d, rev, iter);
    Ok([Magic, Version] + root)
  }

  /** `_serialize(into:named:maxDepth:)`.  Its first step asks the tag for
      its `tagID()`, which `EndTag` does not override: an End traps, so the
      name is always written. */
  function SerializeNamed(t: Tag, name: Key, d: int, rev: Revision, iter: Iter): (r: Result<Bytes>)
    requires Enumerates(iter)
    ensures t.End? ==> r == Err(Trap(MissingOverride))
    ensures r.Ok? ==> |r.value| > 0 && r.value[0] == Code(IdOf(t, rev))
    decreases t, 2, 0
  {
    if t.End? then Err(Trap(MissingOverride))
    else
      var id := IdOf(t, rev);
      var nameBytes :- WriteString(name);
      var value :- SerializeValue(t, d, rev, iter);
      Ok([Code(id)] + nameBytes + value)
  }

  /** `serializeValue(into:maxDepth:)` of every tag class. */
  function SerializeValue(t: Tag, d: int, rev: Revision, iter: Iter): (r: Result<Bytes>)
    requires Enumerates(iter)
    ensures r.Err? ==> t.Str? || t.ByteArray? || t.IntArray? || t.LongArray? || t.List? || t.Compound?
    ensures t.List? && 0 < |t.items| < CountLimit && t.items[0].End? ==> r == Err(Trap(MissingOverride))
    ensures r.Ok? && t.Compound? ==> |r.value| > 0 && r.value[|r.value| - 1] == 0
    decreases t, 1, 0
  {
    Pow256Widths();
    match t
    case End => Ok([Code(EndId)])
    case Byte(x) => Ok(WriteSigned(x, 1))
    case Short(x) => Ok(WriteSigned(x, 2))
    case Int(x) => Ok(WriteSigned(x, 4))
    case Long(x) => Ok(WriteSigned(x, 8))
    case Float(f) => Ok(WriteFloat(f))
    case Double(x) => Ok(WriteDouble(x))
    case ByteArray(xs) => WriteArray(xs, 1)
    case Str(text) => WriteString(text)
    case List(items) =>
      var count :- WriteCount(|items|);
      if |items| == 0 then Ok(count)
      else if items[0].End? then Err(Trap(MissingOverride))
      else
        var values :- SerializeElements(t, 0, d, rev, iter);
        Ok(count + [Code(IdOf(items[0], rev))] + values)
    case Compound(fields) =>
      var children :- SerializeFields(t, DictKeys(iter, fields), d, rev, iter);
      Ok(children + [Code(EndId)])
    case IntArray(xs) => WriteArray(xs, 4)
    case LongArray(xs) => WriteArray(xs, 8)
  }

  /** The child loop of `CompoundTag.serializeValue`: each child named by its
      key, one level down. */
  function SerializeFields(t: Tag, keys: seq<Key>, d: int, rev: Revision, iter: Iter): (r: Result<Bytes>)
    requires Enumerates(iter) && t.Compound?
    requires KeysIn(keys, t.fields)
    ensures |keys| > 0 && d <= 0 ==> r == Err(Trap(DepthExhausted))
    ensures |keys| > 0 && d > 0 && t.fields[keys[0]].End? ==> r == Err(Trap(MissingOverride))
    ensures r.Ok? ==> forall i :: 0 <= i < |keys| ==> keys[i] in t.fields && !t.fields[keys[i]].End?
    ensures r.Ok? && |keys| > 0 ==> |r.value| > 0 && r.value[0] == Code(IdOf(t.fields[keys[0]], rev))
    decreases t, 0, |keys|
  {
    if |keys| == 0 then Ok([])
    else
      var d' :- Decrement(d);
      var child :- SerializeNamed(t.fields[keys[0]], keys[0], d', rev, iter);
      var rest :- SerializeFields(t, keys[1..], d, rev, iter);
      Ok(child + rest)
  }

  /** The element loop of `ListTag.serializeValue`: every element's own
      value, one level down, from index `i` on. */
  function SerializeElements(t: Tag, i: nat, d: int, rev: Revision, iter: Iter): (r: Result<Bytes>)
    requires Enumerates(iter) && t.List? && i <= |t.items|
    ensures i < |t.items| && d <= 0 ==> r == Err(Trap(DepthExhausted))
    decreases t, 0, |t.items| - i
  {
    if i == |t.items| then Ok([])
    else
      var d' :- Decrement(d);
      var value :- SerializeValue(t.items[i], d', rev, iter);
      var rest :- SerializeElements(t, i + 1, d, rev, iter);
      Ok(value + rest)
  }

  // ----- decoding -----

  /** `Tag.deserialize(from:maxDepth:)`: the magic byte and the version, each
      checked by a `precondition` that traps, then an id and, unless the id
      is 0, its value; whatever follows is left unread. */
  function Deserialize(s: Bytes, d: int): (r: Result<(Tag, Bytes)>)
    ensures r.Ok? ==> |r.value.1| < |s|
  {
    var magic :- ReadUInt8(s);
    if magic.0 != Magic then Err(Trap(BadMagic))
    else
      var version :- ReadUInt8(magic.1);
      if version.0 != Version then Err(Trap(BadVersion))
      else
        var id :- ReadUInt8(version.1);
        var tid :- FromId(id.0);
        if id.0 == 0 then Ok((End, id.1))
        else DecodeValue(tid, id.1, d)
  }

  /** `deserializeValue(from:maxDepth:)` of the tag class `id` names.  Every
      value takes at least one byte; End has no reader of its own and traps. */
  function DecodeValue(id: TagId, s: Bytes, d: int): (r: Result<(Tag, Bytes)>)
    ensures r.Ok? ==> |r.value.1| < |s|
    decreases |s|, 1, 0
  {
    Pow256Widths();
    match id
    case EndId => Err(Trap(MissingOverride))
    case ByteId =>
      var p :- ReadSigned(s, 1);
      Ok((Byte(p.0), p.1))
    case ShortId =>
      var p :- ReadSigned(s, 2);
      Ok((Short(p.0), p.1))
    case IntId =>
      var p :- ReadSigned(s, 4);
      Ok((Int(p.0), p.1))
    case LongId =>
      var p :- ReadSigned(s, 8);
      Ok((Long(p.0), p.1))
    case FloatId =>
      var p :- ReadFloat(s);
      Ok((Float(p.0), p.1))
    case DoubleId =>
      var p :- ReadDouble(s);
      Ok((Double(p.0), p.1))
    case ByteArrayId =>
      var p :- ReadArray(s, 1);
      var bytes: seq<int8> := p.0;
      Ok((ByteArray(bytes), p.1))
    case StringId =>
      var p :- ReadString(s);
      Ok((Str(p.0), p.1))
    case ListId =>
      var count :- ReadUnsigned(s, 4);
      if count.0 == 0 then Ok((List([]), count.1))
      else
        var ty :- ReadUInt8(count.1);
        var items :- DecodeElements(ty.0, count.0, ty.1, d);
        Ok((List(items.0), items.1))
    case CompoundId =>
      var p :- DecodeFields(s, d);
      Ok((Compound(p.0), p.1))
    case IntArrayId =>
      var p :- ReadArray(s, 4);
      var ints: seq<int32> := p.0;
      Ok((IntArray(ints), p.1))
    case LongArrayId =>
      var p :- ReadArray(s, 8);
      var longs: seq<int64> := p.0;
      Ok((LongArray(longs), p.1))
  }

  /** The read loop of `CompoundTag.deserializeValue`: `(id, name, value)`
      until a `0` id; a later duplicate name overwrites an earlier one. */
  function DecodeFields(s: Bytes, d: int): (r: Result<(map<Key, Tag>, Bytes)>)
    ensures r.Ok? ==> |r.value.1| < |s|
    decreases |s|, 0, 0
  {
    var id :- ReadUInt8(s);
    if id.0 == 0 then Ok((map[], id.1))
    else
      var name :- ReadString(id.1);
      var tid :- FromId(id.0);
      var d' :- Decrement(d);
      var child :- DecodeValue(tid, name.1, d');
      var rest :- DecodeFields(child.1, d);
      Ok((map[name.0 := child.0] + rest.0, rest.1))
  }

  /** The element loop of `ListTag.deserializeValue`: `count` values of the
      one element id `ty`, one level down. */
  function DecodeElements(ty: byte, count: nat, s: Bytes, d: int): (r: Result<(seq<Tag>, Bytes)>)
    ensures r.Ok? ==> |r.value.0| == count && |r.value.1| <= |s|
    decreases |s|, 2, count
  {
    if count == 0 then Ok(([], s))
    else
      var tid :- FromId(ty);
      var d' :- Decrement(d);
      var head :- DecodeValue(tid, s, d');
      var tail :- DecodeElements(ty, count - 1, head.1, d);
      Ok(([head.0] + tail.0, tail.1))
  }
}
