/** The tag tree of the structure-cached codec (`BoxData/Classes/BoxTag.swift`).

    Ids run from 0 to 10, with `string` = 7, `list` = 8, `compound` = 9 and
    `byteArray` = 10.  A Swift `Tag` object whose `value` was filled in by the
    decoder is a `Tag` value here; an `EndTag` has no value.
 */
module CachedTag {
  import opened Results
  import opened DataStream
  import opened KeyOrder

  /** `TagID`. */
  datatype TagId =
    | EndId | ByteId | ShortId | IntId | LongId | FloatId | DoubleId
    | StringId | ListId | CompoundId | ByteArrayId

  /** `TagID.compound.rawValue`, the id the readers branch on. */
  const CompoundCode: byte := 9

  /** `TagID.rawValue`: the byte written for each id. */
  function Code(id: TagId): (b: byte)
    ensures b <= 10
  {
    match id
    case EndId => 0
    case ByteId => 1
    case ShortId => 2
    case IntId => 3
    case LongId => 4
    case FloatId => 5
    case DoubleId => 6
    case StringId => 7
    case ListId => 8
    case CompoundId => 9
    case ByteArrayId => 10
  }

  /** `TagFactory.fromID`: the id written as `b`, or the `dataCorrupted`
      error it throws for every byte that names no id. */
  function FromId(b: byte): (r: Result<TagId>)
    ensures r.Ok? <==> b <= 10
    ensures r.Err? ==> r.error == DataCorrupted(b)
    ensures r.Ok? ==> Code(r.value) == b
  {
    if b == 0 then Ok(EndId)
    else if b == 1 then Ok(ByteId)
    else if b == 2 then Ok(ShortId)
    else if b == 3 then Ok(IntId)
    else if b == 4 then Ok(LongId)
    else if b == 5 then Ok(FloatId)
    else if b == 6 then Ok(DoubleId)
    else if b == 7 then Ok(StringId)
    else if b == 8 then Ok(ListId)
    else if b == 9 then Ok(CompoundId)
    else if b == 10 then Ok(ByteArrayId)
    else Err(DataCorrupted(b))
  }

  /** Reading back the byte written for an id gives the id: the id table is
      one-to-one. */
  lemma FromIdOfCode(id: TagId)
    ensures FromId(Code(id)) == Ok(id)
    ensures Code(id) == 0 <==> id == EndId
    ensures Code(id) == CompoundCode <==> id == CompoundId
  {
  }

  /** The tag tree.  Keys, strings and payload bytes are raw bytes; Float and
      Double payloads are their bit patterns. */
  datatype Tag =
    | End
    | Byte(byteVal: int8)
    | Short(shortVal: int16)
    | Int(intVal: int32)
    | Long(longVal: int64)
    | Float(floatBits: bits32)
    | Double(doubleBits: bits64)
    | Str(text: Bytes)
    | ByteArray(bytes: seq<int8>)
    | List(items: seq<Tag>)
    | Compound(fields: map<Key, Tag>)

  /** The id of each tag class: its `tagID()` override, and for `EndTag`,
      which has none, the `.end` that `idFromType` gives it.  The encoder
      never asks an End for its id: `tagID()` traps there. */
  function IdOf(t: Tag): (r: TagId)
  {
    match t
    case End => EndId
    case Byte(_) => ByteId
    case Short(_) => ShortId
    case Int(_) => IntId
    case Long(_) => LongId
    case Float(_) => FloatId
    case Double(_) => DoubleId
    case Str(_) => StringId
    case ByteArray(_) => ByteArrayId
    case List(_) => ListId
    case Compound(_) => CompoundId
  }

  /** The id names the tag's class: only End reports id 0, and the ids the
      codec branches on, list and compound, belong to lists and compounds
      alone. */
  lemma IdOfKinds(t: Tag)
    ensures IdOf(t) == EndId <==> t.End?
    ensures IdOf(t) == ListId <==> t.List?
    ensures IdOf(t) == CompoundId <==> t.Compound?
    ensures Code(IdOf(t)) == CompoundCode <==> t.Compound?
  {
  }

  /** A child of a compound is smaller than the compound: recursion over
      children terminates. */
  lemma ChildBelow(t: Tag, k: Key)
    requires t.Compound? && k in t.fields
    ensures t.fields[k] < t
  {
    assert t.fields[k] in t.fields.Values;
  }

  /** The order in which a Swift dictionary of children yields its keys. */
  type Iter = map<Key, Tag> -> seq<Key>

  /** `e` has the field layout of `f`: the same keys, the same id under every
      key, and recursively the same layout under every compound field.  Every
      element of a structure-cached list must have the layout of the first. */
  predicate Conforms(e: Tag, f: Tag)
    decreases f, 1
  {
    e.Compound? && f.Compound? && e.fields.Keys == f.fields.Keys && FieldsConform(e, f)
  }

  /** The per-key half of `Conforms`. */
  predicate FieldsConform(e: Tag, f: Tag)
    requires e.Compound? && f.Compound? && e.fields.Keys == f.fields.Keys
    decreases f, 0
  {
    forall k :: k in f.fields ==>
      IdOf(e.fields[k]) == IdOf(f.fields[k])
      && (f.fields[k].Compound? ==> Conforms(e.fields[k], f.fields[k]))
  }

  /** The tags the codec reads back as written: no End anywhere (an End
      child or first element traps on the `tagID()` it lacks, and a later
      End element writes one zero byte that reads back as a value of the
      first element's kind), no empty string or key (the empty string writes
      no bytes), lists of a single id, and, with the cache on, list elements
      with the first element's layout. */
  predicate ValueOk(t: Tag, cache: bool)
    decreases t, 1
  {
    match t
    case End => false
    case Str(text) => |text| > 0
    case List(_) => ItemsOk(t, cache)
    case Compound(_) => FieldsOk(t, cache)
    case _ => true
  }

  /** The list half of `ValueOk`. */
  predicate ItemsOk(t: Tag, cache: bool)
    requires t.List?
    decreases t, 0
  {
    (forall i :: 0 <= i < |t.items| ==> ValueOk(t.items[i], cache) && IdOf(t.items[i]) == IdOf(t.items[0]))
    && (cache && |t.items| > 0 && t.items[0].Compound? ==>
          forall i :: 0 <= i < |t.items| ==> Conforms(t.items[i], t.items[0]))
  }

  /** The compound half of `ValueOk`. */
  predicate FieldsOk(t: Tag, cache: bool)
    requires t.Compound?
    decreases t, 0
  {
    forall k :: k in t.fields ==> |k| > 0 && ValueOk(t.fields[k], cache)
  }

  /** What `ValueOk` says of one child of a compound. */
  lemma FieldOk(t: Tag, k: Key, cache: bool)
    requires t.Compound? && ValueOk(t, cache) && k in t.fields
    ensures |k| > 0 && ValueOk(t.fields[k], cache)
  {
    assert FieldsOk(t, cache);
  }

  /** What `ValueOk` says of one element of a list. */
  lemma ItemOk(t: Tag, i: nat, cache: bool)
    requires t.List? && ValueOk(t, cache) && i < |t.items|
    ensures ValueOk(t.items[i], cache) && IdOf(t.items[i]) == IdOf(t.items[0])
  {
    assert ItemsOk(t, cache);
  }

  /** With the cache on, every element of a list of compounds has the first
      element's layout. */
  lemma ItemConforms(t: Tag, i: nat, cache: bool)
    requires t.List? && ValueOk(t, cache) && i < |t.items| && cache && t.items[0].Compound?
    ensures Conforms(t.items[i], t.items[0])
  {
    assert ItemsOk(t, cache);
  }

  /** What `Conforms` says of one field. */
  lemma FieldConforms(e: Tag, f: Tag, k: Key)
    requires Conforms(e, f) && k in f.fields
    ensures k in e.fields && IdOf(e.fields[k]) == IdOf(f.fields[k])
    ensures f.fields[k].Compound? ==> Conforms(e.fields[k], f.fields[k])
  {
    assert FieldsConform(e, f);
  }

  // ----- the cached structure (`_FixCompoundStructure`) -----

  /** One child of a structure: its name and either the id of a non-compound
      value or the structure of a nested compound. */
  datatype Field = Field(name: Key, shape: Shape)
  datatype Shape = Leaf(id: byte) | Nested(children: seq<Field>)

  /** The number of fields, nested ones included; decoding by a structure
      recurses on it. */
  function Size(fields: seq<Field>): (n: nat)
    ensures |fields| <= n
    ensures |fields| > 0 ==> ShapeSize(fields[0].shape) < n && Size(fields[1..]) < n
    decreases fields
  {
    if |fields| == 0 then 0 else 1 + ShapeSize(fields[0].shape) + Size(fields[1..])
  }

  function ShapeSize(sh: Shape): nat
    decreases sh
  {
    match sh
    case Leaf(_) => 0
    case Nested(sub) => Size(sub)
  }

  /** The structure `serializeDataStructure` describes for the compound `f`:
      its fields in ascending key order, nested compounds expanded. */
  function SchemaOf(f: Tag, iter: Iter): seq<Field>
    requires Enumerates(iter) && f.Compound?
    decreases f, 1
  {
    SchemaFields(f, SortedKeys(iter, f.fields), iter)
  }

  function SchemaFields(f: Tag, keys: seq<Key>, iter: Iter): (r: seq<Field>)
    requires Enumerates(iter) && f.Compound?
    requires KeysIn(keys, f.fields)
    ensures |r| == |keys|
    ensures forall i :: 0 <= i < |r| ==> r[i].name == keys[i]
    decreases f, 0, |keys|
  {
    if |keys| == 0 then []
    else
      var v := f.fields[keys[0]];
      var shape := if v.Compound? then Nested(SchemaOf(v, iter)) else Leaf(Code(IdOf(v)));
      [Field(keys[0], shape)] + SchemaFields(f, keys[1..], iter)
  }
}
