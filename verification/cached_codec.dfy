/** The structure-cached tag codec (`BoxData/Classes/BoxTag.swift`).

    A named tag is `[id][name][value]`; the root is written with the empty
    name, which writes no bytes, and read back as `[id][value]`.  The id comes
    from the tag's `tagID()`, which `EndTag` does not override, so an End
    written as a named tag, as a list's first element or as a field of a
    cached structure traps; `EndTag.serializeValue` alone writes the `0` that
    ends a compound, and later list elements reach it.  Compound children follow in ascending key order and a `0`
    byte ends the compound.  A list is a 4-byte count, then, when it is not
    empty, the first element's id once and every element's value.  With the
    structure cache on and a compound first element, the first element's
    field layout is written once and every element is written as bare values.

    The process-wide `useStructureCache` flag is the parameter `cache`, the
    nesting budget is `d`, and the dictionary iteration order is `iter`.
    Encoders return the bytes they append; decoders return the decoded value
    and the bytes they leave unread.
 */
module CachedCodec {
  import opened Results
  import opened DataStream
  import opened KeyOrder
  import opened MaxDepth
  import opened CachedTag

  // ----- encoding -----

  /** `Tag.serialize(into:maxDepth:useStructureCache:)`: the root, named "". */
  function Serialize(t: Tag, d: int, cache: bool, iter: Iter): (r: Result<Bytes>)
    requires Enumerates(iter)
    ensures t.End? ==> r == Err(Trap(MissingOverride))
    ensures r.Ok? ==> |r.value| > 0 && r.value[0] == Code(IdOf(t))
  {
    SerializeNamed(t, [], d, cache, iter)
  }

  /** `_serialize(into:named:maxDepth:)`.  Its first step asks the tag for
      its `tagID()`, which `EndTag` does not override: an End traps. */
  function SerializeNamed(t: Tag, name: Key, d: int, cache: bool, iter: Iter): (r: Result<Bytes>)
    requires Enumerates(iter)
    ensures t.End? ==> r == Err(Trap(MissingOverride))
    ensures r.Ok? ==> |r.value| > 0 && r.value[0] == Code(IdOf(t))
    decreases t, 2, 0
  {
    if t.End? then Err(Trap(MissingOverride))
    else
      var nameBytes :- WriteString(name);
      var value :- SerializeValue(t, d, cache, iter);
      Ok([Code(IdOf(t))] + nameBytes + value)
  }

  /** `serializeValue(into:maxDepth:)` of every tag class. */
  function SerializeValue(t: Tag, d: int, cache: bool, iter: Iter): (r: Result<Bytes>)
    requires Enumerates(iter)
    ensures r.Err? ==> t.Str? || t.ByteArray? || t.List? || t.Compound?
    ensures t.List? && 0 < |t.items| < CountLimit && t.items[0].End? ==> r == Err(Trap(MissingOverride))
    ensures r.Ok? && t.Compound? ==> |r.value| > 0 && r.value[|r.value| - 1] == 0
    decreases t, 1, 0
  {
    Pow256Widths();
    match t
    case End => Ok([Code(EndId)])
    case Byte(x) => Ok(WriteSigned(x, 1))
    case Short(x) => Ok(WriteSigned(x, 2))
    case Int(x) => Ok(WriteSigned(x, 4))
    case Long(x) => Ok(WriteSigned(x, 8))
    case Float(f) => Ok(WriteFloat(f))
    case Double(x) => Ok(WriteDouble(x))
    case Str(text) => WriteString(text)
    case ByteArray(xs) => WriteArray(xs, 1)
    case List(items) =>
      var count :- WriteCount(|items|);
      if |items| == 0 then Ok(count)
      else if items[0].End? then Err(Trap(MissingOverride))
      else if cache && IdOf(items[0]) == CompoundId then
        var structure :- SerializeStructure(items[0], d, iter);
        var values :- SerializeFixElements(t, 0, d, cache, iter);
        Ok(count + [Code(CompoundId)] + structure + values)
      else
        var values :- SerializeElements(t, 0, d, cache, iter);
        Ok(count + [Code(IdOf(items[0]))] + values)
    case Compound(fields) =>
      var children :- SerializeFields(t, SortedKeys(iter, fields), d, cache, iter);
      var _ :- Decrement(d);
      Ok(children + [Code(EndId)])
  }

  /** The child loop of `CompoundTag.serializeValue`: each child named by its
      key, one level down. */
  function SerializeFields(t: Tag, keys: seq<Key>, d: int, cache: bool, iter: Iter): (r: Result<Bytes>)
    requires Enumerates(iter) && t.Compound?
    requires KeysIn(keys, t.fields)
    ensures |keys| > 0 && d <= 0 ==> r == Err(Trap(DepthExhausted))
    ensures |keys| > 0 && d > 0 && t.fields[keys[0]].End? ==> r == Err(Trap(MissingOverride))
    ensures r.Ok? ==> forall i :: 0 <= i < |keys| ==> keys[i] in t.fields && !t.fields[keys[i]].End?
    ensures r.Ok? && |keys| > 0 ==> |r.value| > 0 && r.value[0] == Code(IdOf(t.fields[keys[0]]))
    decreases t, 0, |keys|
  {
    if |keys| == 0 then Ok([])
    else
      var d' :- Decrement(d);
      var child :- SerializeNamed(t.fields[keys[0]], keys[0], d', cache, iter);
      var rest :- SerializeFields(t, keys[1..], d, cache, iter);
      Ok(child + rest)
  }

  /** The element loop of `ListTag.serializeValue` without the cache: every
      element's value, one level down, from index `i` on. */
  function SerializeElements(t: Tag, i: nat, d: int, cache: bool, iter: Iter): (r: Result<Bytes>)
    requires Enumerates(iter) && t.List? && i <= |t.items|
    ensures i < |t.items| && d <= 0 ==> r == Err(Trap(DepthExhausted))
    decreases t, 0, |t.items| - i
  {
    if i == |t.items| then Ok([])
    else
      var d' :- Decrement(d);
      var value :- SerializeValue(t.items[i], d', cache, iter);
      var rest :- SerializeElements(t, i + 1, d, cache, iter);
      Ok(value + rest)
  }

  /** The element loop of `serializeFixCompound`: every element must be a
      compound (`as! CompoundTag`) and is written as bare values. */
  function SerializeFixElements(t: Tag, i: nat, d: int, cache: bool, iter: Iter): (r: Result<Bytes>)
    requires Enumerates(iter) && t.List? && i <= |t.items|
    ensures i < |t.items| && !t.items[i].Compound? ==> r == Err(Trap(NotCompound))
    ensures i < |t.items| && t.items[i].Compound? && d <= 0 ==> r == Err(Trap(DepthExhausted))
    ensures r.Ok? ==> forall j :: i <= j < |t.items| ==> t.items[j].Compound?
    decreases t, 0, |t.items| - i
  {
    if i == |t.items| then Ok([])
    else if !t.items[i].Compound? then Err(Trap(NotCompound))
    else
      var d' :- Decrement(d);
      var values :- SerializeFromList(t.items[i], d', cache, iter);
      var rest :- SerializeFixElements(t, i + 1, d, cache, iter);
      Ok(values + rest)
  }

  /** `serializeValueFromList`: the values of a compound in ascending key
      order, with no ids, names or terminator. */
  function SerializeFromList(e: Tag, d: int, cache: bool, iter: Iter): (r: Result<Bytes>)
    requires Enumerates(iter) && e.Compound?
    ensures e.fields == map[] ==> r == Ok([])
    decreases e, 1, 0
  {
    FromListFields(e, SortedKeys(iter, e.fields), d, cache, iter)
  }

  function FromListFields(e: Tag, keys: seq<Key>, d: int, cache: bool, iter: Iter): (r: Result<Bytes>)
    requires Enumerates(iter) && e.Compound?
    requires KeysIn(keys, e.fields)
    ensures |keys| > 0 && d <= 0 ==> r == Err(Trap(DepthExhausted))
    decreases e, 0, |keys|
  {
    if |keys| == 0 then Ok([])
    else
      var v := e.fields[keys[0]];
      var d' :- Decrement(d);
      var value :- if v.Compound? then SerializeFromList(v, d', cache, iter)
                   else SerializeValue(v, d', cache, iter);
      var rest :- FromListFields(e, keys[1..], d, cache, iter);
      Ok(value + rest)
  }

  /** `serializeDataStructure`: `[id][key]` for every field in ascending key
      order, a nested compound's own structure right after its key, then `0`. */
  function SerializeStructure(f: Tag, d: int, iter: Iter): (r: Result<Bytes>)
    requires Enumerates(iter) && f.Compound?
    ensures r.Ok? ==> |r.value| > 0 && r.value[|r.value| - 1] == 0
    ensures f.fields == map[] ==> r == Ok([0])
    decreases f, 1
  {
    var keys := SortedKeys(iter, f.fields);
    assert f.fields == map[] ==> keys == [];
    var body :- StructureFields(f, keys, d, iter);
    assert f.fields == map[] ==> body + [Code(EndId)] == [0];
    Ok(body + [Code(EndId)])
  }

  function StructureFields(f: Tag, keys: seq<Key>, d: int, iter: Iter): (r: Result<Bytes>)
    requires Enumerates(iter) && f.Compound?
    requires KeysIn(keys, f.fields)
    ensures (forall i :: 0 <= i < |keys| ==>
               |keys[i]| <= MaxStringBytes && keys[i] in f.fields && !f.fields[keys[i]].Compound? && !f.fields[keys[i]].End?)
            ==> r.Ok?
    ensures |keys| > 0 && f.fields[keys[0]].End? ==> r == Err(Trap(MissingOverride))
    ensures r.Ok? ==> forall i :: 0 <= i < |keys| ==> keys[i] in f.fields && !f.fields[keys[i]].End?
    ensures r.Ok? && |keys| > 0 ==> |r.value| > 0 && r.value[0] == Code(IdOf(f.fields[keys[0]]))
    decreases f, 0, |keys|
  {
    if |keys| == 0 then Ok([])
    else
      var v := f.fields[keys[0]];
      if v.End? then Err(Trap(MissingOverride))
      else
        var name :- WriteString(keys[0]);
        var nested :- if v.Compound? then NestedStructure(v, d, iter) else Ok([]);
        var rest :- StructureFields(f, keys[1..], d, iter);
        Ok([Code(IdOf(v))] + name + nested + rest)
  }

  /** A nested compound's structure, one level down. */
  function NestedStructure(v: Tag, d: int, iter: Iter): (r: Result<Bytes>)
    requires Enumerates(iter) && v.Compound?
    ensures d <= 0 ==> r == Err(Trap(DepthExhausted))
    ensures r.Ok? ==> |r.value| > 0 && r.value[|r.value| - 1] == 0
    decreases v, 2
  {
    var d' :- Decrement(d);
    SerializeStructure(v, d', iter)
  }

  // ----- decoding -----

  /** `Tag.deserialize(from:maxDepth:useStructureCache:)`: an id, then the value
      unless the id is 0; whatever follows is left unread. */
  function Deserialize(s: Bytes, d: int, cache: bool): (r: Result<(Tag, Bytes)>)
    ensures r.Ok? ==> |r.value.1| < |s|
  {
    var id :- ReadUInt8(s);
    var tid :- FromId(id.0);
    if id.0 == 0 then Ok((End, id.1))
    else DecodeValue(tid, id.1, d, cache)
  }

  /** `deserializeValue(from:maxDepth:)` of the tag class `id` names.  Every
      value takes at least one byte. */
  function DecodeValue(id: TagId, s: Bytes, d: int, cache: bool): (r: Result<(Tag, Bytes)>)
    ensures r.Ok? ==> |r.value.1| < |s|
    decreases |s|, 1, 0
  {
    Pow256Widths();
    match id
    case EndId => Err(Trap(MissingOverride))
    case ByteId =>
      var p :- ReadSigned(s, 1);
      Ok((Byte(p.0), p.1))
    case ShortId =>
      var p :- ReadSigned(s, 2);
      Ok((Short(p.0), p.1))
    case IntId =>
      var p :- ReadSigned(s, 4);
      Ok((Int(p.0), p.1))
    case LongId =>
      var p :- ReadSigned(s, 8);
      Ok((Long(p.0), p.1))
    case FloatId =>
      var p :- ReadFloat(s);
      Ok((Float(p.0), p.1))
    case DoubleId =>
      var p :- ReadDouble(s);
      Ok((Double(p.0), p.1))
    case StringId =>
      var p :- ReadString(s);
      Ok((Str(p.0), p.1))
    case ByteArrayId =>
      var p :- ReadArray(s, 1);
      var bytes: seq<int8> := p.0;
      Ok((ByteArray(bytes), p.1))
    case ListId =>
      var count :- ReadUnsigned(s, 4);
      if count.0 == 0 then Ok((List([]), count.1))
      else
        var ty :- ReadUInt8(count.1);
        if cache && ty.0 == CompoundCode then
          var structure :- DecodeSchema(ty.1);
          var items :- DecodeFixElements(structure.0, count.0, structure.1, d, cache);
          Ok((List(items.0), items.1))
        else
          var items :- DecodeElements(ty.0, count.0, ty.1, d, cache);
          Ok((List(items.0), items.1))
    case CompoundId =>
      var p :- DecodeFields(s, d, cache);
      Ok((Compound(p.0), p.1))
  }

  /** The read loop of `CompoundTag.deserializeValue`: `(id, name, value)`
      until a `0` id; a later duplicate name overwrites an earlier one. */
  function DecodeFields(s: Bytes, d: int, cache: bool): (r: Result<(map<Key, Tag>, Bytes)>)
    ensures r.Ok? ==> |r.value.1| < |s|
    decreases |s|, 0, 0
  {
    var id :- ReadUInt8(s);
    if id.0 == 0 then Ok((map[], id.1))
    else
      var name :- ReadString(id.1);
      var tid :- FromId(id.0);
      var d' :- Decrement(d);
      var child :- DecodeValue(tid, name.1, d', cache);
      var rest :- DecodeFields(child.1, d, cache);
      Ok((map[name.0 := child.0] + rest.0, rest.1))
  }

  /** The element loop of `ListTag.deserializeValue` without the cache:
      `count` values of the one element id `ty`, one level down. */
  function DecodeElements(ty: byte, count: nat, s: Bytes, d: int, cache: bool): (r: Result<(seq<Tag>, Bytes)>)
    ensures r.Ok? ==> |r.value.0| == count && |r.value.1| <= |s|
    decreases |s|, 2, count
  {
    if count == 0 then Ok(([], s))
    else
      var tid :- FromId(ty);
      var d' :- Decrement(d);
      var head :- DecodeValue(tid, s, d', cache);
      var tail :- DecodeElements(ty, count - 1, head.1, d, cache);
      Ok(([head.0] + tail.0, tail.1))
  }

  /** `deserializeFixCompoundStructure`: `(id, name)` pairs until a `0` id,
      reading a nested structure right after every compound id. */
  function DecodeSchema(s: Bytes): (r: Result<(seq<Field>, Bytes)>)
    ensures r.Ok? ==> |r.value.1| < |s|
    decreases |s|
  {
    var id :- ReadUInt8(s);
    if id.0 == 0 then Ok(([], id.1))
    else
      var name :- ReadString(id.1);
      if id.0 == CompoundCode then
        var nested :- DecodeSchema(name.1);
        var rest :- DecodeSchema(nested.1);
        Ok(([Field(name.0, Nested(nested.0))] + rest.0, rest.1))
      else
        var rest :- DecodeSchema(name.1);
        Ok(([Field(name.0, Leaf(id.0))] + rest.0, rest.1))
  }

  /** `CompoundTag.deserializeFixCompound`: one element's values, read by the
      structure.  A leaf throws for an unknown id; neither a leaf nor a nested
      structure checks the depth budget before going one level down. */
  function DecodeFix(fields: seq<Field>, s: Bytes, d: int, cache: bool): (r: Result<(map<Key, Tag>, Bytes)>)
    ensures r.Ok? ==> |r.value.1| <= |s|
    ensures r.Ok? ==> forall i :: 0 <= i < |fields| ==> fields[i].name in r.value.0
    decreases |s|, 2, Size(fields)
  {
    if |fields| == 0 then Ok((map[], s))
    else
      var f := fields[0];
      match f.shape
      case Leaf(b) =>
        var tid :- FromId(b);
        var value :- DecodeValue(tid, s, d - 1, cache);
        var rest :- DecodeFix(fields[1..], value.1, d, cache);
        Ok((map[f.name := value.0] + rest.0, rest.1))
      case Nested(sub) =>
        var nested :- DecodeFix(sub, s, d - 1, cache);
        var rest :- DecodeFix(fields[1..], nested.1, d, cache);
        Ok((map[f.name := Compound(nested.0)] + rest.0, rest.1))
  }

  /** The element loop of `deserializeFixCompound`: `count` compounds, each
      read by the same structure at the list's own depth. */
  function DecodeFixElements(fields: seq<Field>, count: nat, s: Bytes, d: int, cache: bool): (r: Result<(seq<Tag>, Bytes)>)
    ensures r.Ok? ==> |r.value.0| == count && |r.value.1| <= |s|
    ensures r.Ok? ==> forall j :: 0 <= j < count ==> r.value.0[j].Compound?
    decreases |s|, 3, count
  {
    if count == 0 then Ok(([], s))
    else
      var head :- DecodeFix(fields, s, d, cache);
      var tail :- DecodeFixElements(fields, count - 1, head.1, d, cache);
      Ok(([Compound(head.0)] + tail.0, tail.1))
  }
}
