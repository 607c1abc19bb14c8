/** The tag tree of the versioned-envelope codec (`BoxData/BoxData/BoxTag.swift`).

    Ids run from 0 to 12, with `byteArray` = 7, `string` = 8, `list` = 9,
    `compound` = 10, `intArray` = 11 and `longArray` = 12.  `TagFactory.fromID`
    force-unwraps the id, so a byte that names no id traps.

    `ByteArrayTag.tagID()` answers `.longArray`, so the id written for a byte
    array depends on the revision of that one method: `AsWritten` is the code
    as it stands, `Fixed` answers `.byteArray`.
 */
module EnvelopeTag {
  import opened Results
  import opened DataStream
  import opened KeyOrder

  /** `TagID`. */
  datatype TagId =
    | EndId | ByteId | ShortId | IntId | LongId | FloatId | DoubleId
    | ByteArrayId | StringId | ListId | CompoundId | IntArrayId | LongArrayId

  /** `TagID.rawValue`: the byte written for each id. */
  function Code(id: TagId): (b: byte)
    ensures b <= 12
  {
    match id
    case EndId => 0
    case ByteId => 1
    case ShortId => 2
    case IntId => 3
    case LongId => 4
    case FloatId => 5
    case DoubleId => 6
    case ByteArrayId => 7
    case StringId => 8
    case ListId => 9
    case CompoundId => 10
    case IntArrayId => 11
    case LongArrayId => 12
  }

  /** `TagFactory.fromID`: the id written as `b`; `TagID(rawValue:)!` traps
      for every byte that names no id. */
  function FromId(b: byte): (r: Result<TagId>)
    ensures r.Ok? <==> b <= 12
    ensures r.Err? ==> r.error == Trap(UnknownId)
    ensures r.Ok? ==> Code(r.value) == b
  {
    if b == 0 then Ok(EndId)
    else if b == 1 then Ok(ByteId)
    else if b == 2 then Ok(ShortId)
    else if b == 3 then Ok(IntId)
    else if b == 4 then Ok(LongId)
    else if b == 5 then Ok(FloatId)
    else if b == 6 then Ok(DoubleId)
    else if b == 7 then Ok(ByteArrayId)
    else if b == 8 then Ok(StringId)
    else if b == 9 then Ok(ListId)
    else if b == 10 then Ok(CompoundId)
    else if b == 11 then Ok(IntArrayId)
    else if b == 12 then Ok(LongArrayId)
    else Err(Trap(UnknownId))
  }

  /** Reading back the byte written for an id gives the id: the id table is
      one-to-one. */
  lemma FromIdOfCode(id: TagId)
    ensures FromId(Code(id)) == Ok(id)
    ensures Code(id) == 0 <==> id == EndId
  {
  }

  /** The tag tree.  Keys, strings and payload bytes are raw bytes; Float and
      Double payloads are their bit patterns. */
  datatype Tag =
    | End
    | Byte(byteVal: int8)
    | Short(shortVal: int16)
    | Int(intVal: int32)
    | Long(longVal: int64)
    | Float(floatBits: bits32)
    | Double(doubleBits: bits64)
    | ByteArray(bytes: seq<int8>)
    | Str(text: Bytes)
    | List(items: seq<Tag>)
    | Compound(fields: map<Key, Tag>)
    | IntArray(ints: seq<int32>)
    | LongArray(longs: seq<int64>)

  /** Which `ByteArrayTag.tagID()` the codec runs. */
  datatype Revision = AsWritten | Fixed

  /** The id of each tag class: its `tagID()` override, and for `EndTag`,
      which has none, the `.end` that `idFromType` gives it.  The encoder
      never asks an End for its id: `tagID()` traps there. */
  function IdOf(t: Tag, rev: Revision): (r: TagId)
  {
    match t
    case End => EndId
    case Byte(_) => ByteId
    case Short(_) => ShortId
    case Int(_) => IntId
    case Long(_) => LongId
    case Float(_) => FloatId
    case Double(_) => DoubleId
    case ByteArray(_) => if rev == AsWritten then LongArrayId else ByteArrayId
    case Str(_) => StringId
    case List(_) => ListId
    case Compound(_) => CompoundId
    case IntArray(_) => IntArrayId
    case LongArray(_) => LongArrayId
  }

  /** The id names the tag's class: only End reports id 0 and lists and
      compounds alone report theirs; a byte array reports the byte-array id
      only under `Fixed`, and the long-array id under `AsWritten`. */
  lemma IdOfKinds(t: Tag, rev: Revision)
    ensures IdOf(t, rev) == EndId <==> t.End?
    ensures IdOf(t, rev) == ListId <==> t.List?
    ensures IdOf(t, rev) == CompoundId <==> t.Compound?
    ensures IdOf(t, rev) == ByteArrayId <==> t.ByteArray? && rev.Fixed?
    ensures IdOf(t, rev) == LongArrayId <==> t.LongArray? || (t.ByteArray? && rev.AsWritten?)
  {
  }

  /** A child of a compound is smaller than the compound: recursion over
      children terminates. */
  lemma ChildBelow(t: Tag, k: Key)
    requires t.Compound? && k in t.fields
    ensures t.fields[k] < t
  {
    assert t.fields[k] in t.fields.Values;
  }

  /** The order in which a Swift dictionary of children yields its keys. */
  type Iter = map<Key, Tag> -> seq<Key>

  /** The tags the codec of revision `rev` reads back as written: no End
      anywhere (an End child or first element traps on the `tagID()` it
      lacks, and a later End element writes one zero byte that reads back as
      a value of the first element's kind), no empty string or key (the empty
      string writes no bytes),
      lists whose elements all report the first element's id, and, as
      written, no byte array (it is read back as a long array). */
  predicate ValueOk(t: Tag, rev: Revision)
    decreases t, 1
  {
    match t
    case End => false
    case Str(text) => |text| > 0
    case ByteArray(_) => rev == Fixed
    case List(_) => ItemsOk(t, rev)
    case Compound(_) => FieldsOk(t, rev)
    case _ => true
  }

  /** The list half of `ValueOk`. */
  predicate ItemsOk(t: Tag, rev: Revision)
    requires t.List?
    decreases t, 0
  {
    forall i :: 0 <= i < |t.items| ==> ValueOk(t.items[i], rev) && IdOf(t.items[i], rev) == IdOf(t.items[0], rev)
  }

  /** The compound half of `ValueOk`. */
  predicate FieldsOk(t: Tag, rev: Revision)
    requires t.Compound?
    decreases t, 0
  {
    forall k :: k in t.fields ==> |k| > 0 && ValueOk(t.fields[k], rev)
  }

  /** What `ValueOk` says of one child of a compound. */
  lemma FieldOk(t: Tag, k: Key, rev: Revision)
    requires t.Compound? && ValueOk(t, rev) && k in t.fields
    ensures |k| > 0 && ValueOk(t.fields[k], rev)
  {
    assert FieldsOk(t, rev);
  }

  /** What `ValueOk` says of one element of a list. */
  lemma ItemOk(t: Tag, i: nat, rev: Revision)
    requires t.List? && ValueOk(t, rev) && i < |t.items|
    ensures ValueOk(t.items[i], rev) && IdOf(t.items[i], rev) == IdOf(t.items[0], rev)
  {
    assert ItemsOk(t, rev);
  }
}
