/** What the structure-cached codec promises at the root, and the edges of
    that promise: the root frame, the End tag, which has no `tagID()` and so
    traps wherever the writer asks for one, and empty containers. */
module CachedRoot {
  import opened Results
  import opened DataStream
  import opened KeyOrder
  import opened MaxDepth
  import opened CachedTag
  import opened CachedCodec
  import opened CachedRoundTrip

  /** The root is written as its id and its value, with no name, and reads
      back as itself.  Whatever follows the root is left unread. */
  lemma RoundTrip(t: Tag, d: int, d': int, cache: bool, iter: Iter, rest: Bytes)
    requires Enumerates(iter) && ValueOk(t, cache) && d <= d'
    ensures Serialize(t, d, cache, iter).Ok? <==> SerializeValue(t, d, cache, iter).Ok?
    ensures Serialize(t, d, cache, iter).Ok? ==>
              Serialize(t, d, cache, iter).value == [Code(IdOf(t))] + SerializeValue(t, d, cache, iter).value
    ensures Serialize(t, d, cache, iter).Ok? ==>
              Deserialize(Serialize(t, d, cache, iter).value + rest, d', cache) == Ok((t, rest))
  {
    var value := EncValue(t, d, cache, iter);
    assert value == SerializeValue(t, d, cache, iter);
    ValueRoundTrip(t, d, d', cache, iter, rest);
    RootFrame(t, d, cache, iter);
    if value.Ok? {
      var id := IdOf(t);
      var body := value.value + rest;
      Assoc3(Serialize(t, d, cache, iter).value, [Code(id)], value.value, rest);
      RootRead(id, body, d', cache);
    }
  }

  /** The root frame: an id byte, no name, the value. */
  lemma RootFrame(t: Tag, d: int, cache: bool, iter: Iter)
    requires Enumerates(iter) && !t.End?
    ensures Serialize(t, d, cache, iter).Ok? <==> SerializeValue(t, d, cache, iter).Ok?
    ensures Serialize(t, d, cache, iter).Ok? ==>
              Serialize(t, d, cache, iter).value == [Code(IdOf(t))] + SerializeValue(t, d, cache, iter).value
  {
    var c := Code(IdOf(t));
    assert WriteString([]) == Ok([]);
    assert [c] + [] == [c];
  }

  /** Reading a root whose id is not End reads that id's value. */
  lemma RootRead(id: TagId, body: Bytes, d: int, cache: bool)
    requires id != EndId
    ensures Deserialize([Code(id)] + body, d, cache) == DecValue(id, body, d, cache)
  {
    FromIdOfCode(id);
    assert ([Code(id)] + body)[1..] == body;
  }

  /** An End at the root traps: `_serialize` asks it for the `tagID()` it
      does not override.  A lone zero id still reads as End, and the reader
      takes nothing after it. */
  lemma RootEndTraps(d: int, d': int, cache: bool, iter: Iter, rest: Bytes)
    requires Enumerates(iter)
    ensures Serialize(End, d, cache, iter) == Err(Trap(MissingOverride))
    ensures Deserialize([0] + rest, d', cache) == Ok((End, rest))
  {
    assert ([0] + rest)[1..] == rest;
  }

  /** An empty compound is its terminator alone, once the budget allows the
      compound; it reads back from that one byte. */
  lemma EmptyCompound(d: int, d': int, cache: bool, iter: Iter, rest: Bytes)
    requires Enumerates(iter)
    ensures SerializeValue(Compound(map[]), d, cache, iter)
         == if d > 0 then Ok([0]) else Err(Trap(DepthExhausted))
    ensures DecodeValue(CompoundId, [0] + rest, d', cache) == Ok((Compound(map[]), rest))
  {
    var keys := SortedKeys(iter, map[]);
    SortedKeysSpec(iter, map[]);
    assert |multiset(keys)| == 0;
    assert keys == [];
    assert SerializeFields(Compound(map[]), keys, d, cache, iter) == Ok([]);
    assert [] + [Code(EndId)] == [0];
  }

  /** An empty list is a zero count and nothing else, whatever the budget. */
  lemma EmptyList(d: int, d': int, cache: bool, iter: Iter, rest: Bytes)
    requires Enumerates(iter)
    ensures SerializeValue(List([]), d, cache, iter) == Ok([0, 0, 0, 0])
    ensures DecodeValue(ListId, [0, 0, 0, 0] + rest, d', cache) == Ok((List([]), rest))
  {
    Pow256Widths();
    assert BigEndian(0, 1) == [0];
    assert BigEndian(0, 2) == [0, 0];
    assert BigEndian(0, 3) == [0, 0, 0];
    assert BigEndian(0, 4) == [0, 0, 0, 0];
    UnsignedRoundTrip(0, 4, rest);
  }

  /** A compound whose one child is End traps once the budget admits the
      child: the child's `_serialize` asks End for its `tagID()`.  With no
      budget left the budget check comes first. */
  lemma EndChildTraps(k: Key, d: int, cache: bool, iter: Iter)
    requires Enumerates(iter)
    ensures SerializeValue(Compound(map[k := End]), d, cache, iter)
         == if d > 0 then Err(Trap(MissingOverride)) else Err(Trap(DepthExhausted))
  {
    var t := Compound(map[k := End]);
    SingleKey(iter, k, End);
    var keys := SortedKeys(iter, t.fields);
    assert keys == [k] && t.fields[keys[0]] == End;
  }

  /** A compound that writes has no End child, wherever the child sorts. */
  lemma WrittenHasNoEndChild(t: Tag, d: int, cache: bool, iter: Iter)
    requires Enumerates(iter) && t.Compound? && SerializeValue(t, d, cache, iter).Ok?
    ensures forall k :: k in t.fields ==> !t.fields[k].End?
  {
    var keys := SortedKeys(iter, t.fields);
    SortedKeysSpec(iter, t.fields);
    assert SerializeFields(t, keys, d, cache, iter).Ok?;
    forall k | k in t.fields
      ensures !t.fields[k].End?
    {
      assert k in multiset(keys);
      var i :| 0 <= i < |keys| && keys[i] == k;
    }
  }

  /** A structure that writes has no End entry: `serializeDataStructure`
      asks every entry for its `tagID()`. */
  lemma StructureHasNoEnd(f: Tag, d: int, iter: Iter)
    requires Enumerates(iter) && f.Compound? && SerializeStructure(f, d, iter).Ok?
    ensures forall k :: k in f.fields ==> !f.fields[k].End?
  {
    var keys := SortedKeys(iter, f.fields);
    SortedKeysSpec(iter, f.fields);
    assert StructureFields(f, keys, d, iter).Ok?;
    forall k | k in f.fields
      ensures !f.fields[k].End?
    {
      assert k in multiset(keys);
      var i :| 0 <= i < |keys| && keys[i] == k;
    }
  }

  /** Only a list's first element is asked for its id: an End after it is
      written by `EndTag.serializeValue` as one zero byte, which the reader
      takes as a value of the first element's kind. */
  lemma EndLaterElement(d: int, d': int, cache: bool, iter: Iter, rest: Bytes)
    requires Enumerates(iter) && d > 0 && d' > 0
    ensures SerializeValue(List([Byte(0), End]), d, cache, iter) == Ok([0, 0, 0, 2, 1, 0, 0])
    ensures DecodeValue(ListId, [0, 0, 0, 2, 1, 0, 0] + rest, d', cache) == Ok((List([Byte(0), Byte(0)]), rest))
  {
    LaterElementWrite(d, cache, iter);
    LaterElementRead(d', cache, rest);
  }

  lemma LaterElementWrite(d: int, cache: bool, iter: Iter)
    requires Enumerates(iter) && d > 0
    ensures SerializeValue(List([Byte(0), End]), d, cache, iter) == Ok([0, 0, 0, 2, 1, 0, 0])
  {
    var t := List([Byte(0), End]);
    var zeros := LaterElementValues(t, d, cache, iter);
    SmallUnsigned(2);
    assert WriteCount(2) == Ok([0, 0, 0, 2]);
    assert IdOf(t.items[0]) == ByteId && Code(ByteId) == 1;
    assert SerializeValue(t, d, cache, iter) == Ok([0, 0, 0, 2] + [Code(ByteId)] + zeros);
    assert [0, 0, 0, 2] + [Code(ByteId)] + zeros == [0, 0, 0, 2, 1, 0, 0];
  }

  /** The element values of `[Byte(0), End]`: one zero byte each. */
  lemma LaterElementValues(t: Tag, d: int, cache: bool, iter: Iter) returns (zeros: Bytes)
    requires Enumerates(iter) && d > 0 && t == List([Byte(0), End])
    ensures zeros == [0, 0] && SerializeElements(t, 0, d, cache, iter) == Ok(zeros)
  {
    SmallUnsigned(0);
    assert t.items[0] == Byte(0) && t.items[1] == End;
    assert SerializeValue(Byte(0), d - 1, cache, iter) == Ok([0]);
    assert SerializeValue(End, d - 1, cache, iter) == Ok([0]);
    var zero: Bytes := [0];
    assert SerializeElements(t, 2, d, cache, iter) == Ok([]);
    assert SerializeElements(t, 1, d, cache, iter) == Ok(zero + []);
    assert zero + [] == zero;
    zeros := zero + zero;
  }

  lemma LaterElementRead(d: int, cache: bool, rest: Bytes)
    requires d > 0
    ensures DecodeValue(ListId, [0, 0, 0, 2, 1, 0, 0] + rest, d, cache) == Ok((List([Byte(0), Byte(0)]), rest))
  {
    SmallUnsigned(2);
    var s := [0, 0, 0, 2, 1, 0, 0] + rest;
    var body := [0, 0] + rest;
    UnsignedRoundTrip(2, 4, [1] + body);
    assert s == WriteUnsigned(2, 4) + ([1] + body);
    assert ReadUInt8([1] + body) == Ok((1, body));
    ZeroBytesRead(d, cache, rest);
  }

  /** Two zero bytes read as two `Byte(0)` elements. */
  lemma ZeroBytesRead(d: int, cache: bool, rest: Bytes)
    requires d > 0
    ensures DecodeElements(1, 2, [0, 0] + rest, d, cache) == Ok(([Byte(0), Byte(0)], rest))
  {
    var once := [0] + rest;
    assert [0, 0] + rest == [0] + once;
    ZeroByteRead(d - 1, cache, once);
    ZeroByteRead(d - 1, cache, rest);
    assert DecodeElements(1, 0, rest, d, cache) == Ok(([], rest));
    assert DecodeElements(1, 1, once, d, cache) == Ok(([Byte(0)] + [], rest));
    assert [Byte(0)] + ([Byte(0)] + []) == [Byte(0), Byte(0)];
  }

  lemma ZeroByteRead(d: int, cache: bool, rest: Bytes)
    ensures DecodeValue(ByteId, [0] + rest, d, cache) == Ok((Byte(0), rest))
  {
    SmallUnsigned(0);
    assert WriteSigned(0, 1) == [0];
    SignedRoundTrip(0, 1, rest);
  }

  /** A map with one key is written under that key alone. */
  lemma SingleKey(iter: Iter, k: Key, v: Tag)
    requires Enumerates(iter)
    ensures SortedKeys(iter, map[k := v]) == [k]
  {
    var m := map[k := v];
    var keys := SortedKeys(iter, m);
    SortedKeysSpec(iter, m);
    assert m.Keys == {k};
    assert |multiset(keys)| == 1;
    assert keys[0] in multiset(keys);
  }

  /** Every compound, empty or not, and every element of a list without the
      cache goes one level down: with no budget left, neither gets written.
      A list whose first element is End traps on that element's id first. */
  lemma NoBudgetNoChildren(t: Tag, d: int, cache: bool, iter: Iter)
    requires Enumerates(iter) && d <= 0
    requires t.Compound? || (t.List? && 0 < |t.items| < CountLimit && !(cache && t.items[0].Compound?))
    ensures SerializeValue(t, d, cache, iter)
         == if t.List? && t.items[0].End? then Err(Trap(MissingOverride)) else Err(Trap(DepthExhausted))
  {
    if t.Compound? {
      var keys := SortedKeys(iter, t.fields);
      if |keys| > 0 {
        assert SerializeFields(t, keys, d, cache, iter) == Err(Trap(DepthExhausted));
      } else {
        assert SerializeFields(t, keys, d, cache, iter) == Ok([]);
      }
    } else if !t.items[0].End? {
      assert SerializeElements(t, 0, d, cache, iter) == Err(Trap(DepthExhausted));
    }
  }
}
