/** What the envelope codec promises at the root, and the edges of that
    promise: the magic and version header, the End tag, which has no
    `tagID()` and so traps wherever the writer asks for one, empty
    containers, and the depth budget. */
module EnvelopeRoot {
  import opened Results
  import opened DataStream
  import opened KeyOrder
  import opened MaxDepth
  import opened EnvelopeTag
  import opened EnvelopeCodec
  import opened EnvelopeProofs
  import opened EnvelopeRoundTrip

  // ----- the root -----

  /** The output is the magic byte, the version, the root's id and its value;
      it reads back as the root, and whatever follows is left unread. */
  lemma RoundTrip(t: Tag, d: int, d': int, rev: Revision, iter: Iter, rest: Bytes)
    requires Enumerates(iter) && ValueOk(t, rev) && d <= d'
    ensures Serialize(t, d, rev, iter).Ok? <==> SerializeValue(t, d, rev, iter).Ok?
    ensures Serialize(t, d, rev, iter).Ok? ==>
              Serialize(t, d, rev, iter).value == [Magic, Version, Code(IdOf(t, rev))] + SerializeValue(t, d, rev, iter).value
    ensures Serialize(t, d, rev, iter).Ok? ==>
              Deserialize(Serialize(t, d, rev, iter).value + rest, d') == Ok((t, rest))
  {
    var value := EncValue(t, d, rev, iter);
    assert value == SerializeValue(t, d, rev, iter);
    ValueRoundTrip(t, d, d', rev, iter, rest);
    RootFrame(t, d, rev, iter);
    if value.Ok? {
      var id := IdOf(t, rev);
      var body := value.value + rest;
      Assoc3(Serialize(t, d, rev, iter).value, [Magic, Version, Code(id)], value.value, rest);
      RootRead(id, body, d');
    }
  }

  /** The root frame: magic, version, an id byte, no name, the value. */
  lemma RootFrame(t: Tag, d: int, rev: Revision, iter: Iter)
    requires Enumerates(iter) && !t.End?
    ensures Serialize(t, d, rev, iter).Ok? <==> SerializeValue(t, d, rev, iter).Ok?
    ensures Serialize(t, d, rev, iter).Ok? ==>
              Serialize(t, d, rev, iter).value == [Magic, Version, Code(IdOf(t, rev))] + SerializeValue(t, d, rev, iter).value
  {
    var c := Code(IdOf(t, rev));
    var value := SerializeValue(t, d, rev, iter);
    NamedFrame(t, [], [], d, rev, iter, value);
    if value.Ok? {
      assert [Magic, Version] + ([c] + [] + value.value) == [Magic, Version, c] + value.value;
    }
  }

  /** A named tag other than End: its id, its name, its value. */
  lemma NamedFrame(t: Tag, name: Key, nameBytes: Bytes, d: int, rev: Revision, iter: Iter, value: Result<Bytes>)
    requires Enumerates(iter) && !t.End?
    requires WriteString(name) == Ok(nameBytes) && value == SerializeValue(t, d, rev, iter)
    ensures value.Ok? ==> SerializeNamed(t, name, d, rev, iter) == Ok([Code(IdOf(t, rev))] + nameBytes + value.value)
    ensures value.Err? ==> SerializeNamed(t, name, d, rev, iter).Err?
  {
  }

  /** Reading a root whose header is right and whose id is not End reads that
      id's value. */
  lemma RootRead(id: TagId, body: Bytes, d: int)
    requires id != EndId
    ensures Deserialize([Magic, Version, Code(id)] + body, d) == DecValue(id, body, d)
  {
    FromIdOfCode(id);
    var s := [Magic, Version, Code(id)] + body;
    assert s[1..] == [Version, Code(id)] + body;
    assert s[1..][1..] == [Code(id)] + body;
    assert s[1..][1..][1..] == body;
  }

  /** The reader checks the header before anything else: a wrong magic byte
      or version traps, an unknown root id traps, and a read succeeds only
      after a correct header and a known id. */
  lemma HeaderChecked(s: Bytes, d: int)
    ensures |s| == 0 ==> Deserialize(s, d) == Err(ReadError)
    ensures |s| > 0 && s[0] != Magic ==> Deserialize(s, d) == Err(Trap(BadMagic))
    ensures |s| > 1 && s[0] == Magic && s[1] != Version ==> Deserialize(s, d) == Err(Trap(BadVersion))
    ensures |s| > 2 && s[0] == Magic && s[1] == Version && s[2] > 12 ==> Deserialize(s, d) == Err(Trap(UnknownId))
    ensures Deserialize(s, d).Ok? ==> |s| > 2 && s[0] == Magic && s[1] == Version && s[2] <= 12
  {
    if |s| > 1 {
      assert s[1..][0] == s[1];
    }
    if |s| > 2 {
      assert s[1..][1..][0] == s[2];
    }
  }

  // ----- the edges -----

  /** An End at the root traps: `_serialize` asks it for the `tagID()` it
      does not override.  After a correct header a lone zero id still reads
      as End, and the reader takes nothing after it. */
  lemma RootEndTraps(d: int, d': int, rev: Revision, iter: Iter, rest: Bytes)
    requires Enumerates(iter)
    ensures Serialize(End, d, rev, iter) == Err(Trap(MissingOverride))
    ensures Deserialize([Magic, Version, 0] + rest, d') == Ok((End, rest))
  {
    var s := [Magic, Version, 0] + rest;
    assert s[1..][1..][1..] == rest;
  }

  /** An empty compound is its terminator alone, whatever the budget: with no
      child to write, the budget is never taken down. */
  lemma EmptyCompound(d: int, d': int, rev: Revision, iter: Iter, rest: Bytes)
    requires Enumerates(iter)
    ensures SerializeValue(Compound(map[]), d, rev, iter) == Ok([0])
    ensures DecodeValue(CompoundId, [0] + rest, d') == Ok((Compound(map[]), rest))
  {
    var keys := DictKeys(iter, map[]);
    assert |multiset(keys)| == 0;
    assert keys == [];
    assert SerializeFields(Compound(map[]), keys, d, rev, iter) == Ok([]);
    assert [] + [Code(EndId)] == [0];
  }

  /** An empty list is a zero count and nothing else, whatever the budget. */
  lemma EmptyList(d: int, d': int, rev: Revision, iter: Iter, rest: Bytes)
    requires Enumerates(iter)
    ensures SerializeValue(List([]), d, rev, iter) == Ok([0, 0, 0, 0])
    ensures DecodeValue(ListId, [0, 0, 0, 0] + rest, d') == Ok((List([]), rest))
  {
    Pow256Widths();
    assert BigEndian(0, 1) == [0];
    assert BigEndian(0, 2) == [0, 0];
    assert BigEndian(0, 3) == [0, 0, 0];
    assert BigEndian(0, 4) == [0, 0, 0, 0];
    UnsignedRoundTrip(0, 4, rest);
  }

  /** A compound whose one child is End traps once the budget admits the
      child: the child's `_serialize` asks End for its `tagID()`.  With no
      budget left the budget check comes first. */
  lemma EndChildTraps(k: Key, d: int, rev: Revision, iter: Iter)
    requires Enumerates(iter)
    ensures SerializeValue(Compound(map[k := End]), d, rev, iter)
         == if d > 0 then Err(Trap(MissingOverride)) else Err(Trap(DepthExhausted))
  {
    var t := Compound(map[k := End]);
    SingleKey(iter, k, End);
    var keys := DictKeys(iter, t.fields);
    assert keys == [k] && t.fields[keys[0]] == End;
  }

  /** A compound that writes has no End child, wherever the dictionary
      yields it. */
  lemma WrittenHasNoEndChild(t: Tag, d: int, rev: Revision, iter: Iter)
    requires Enumerates(iter) && t.Compound? && SerializeValue(t, d, rev, iter).Ok?
    ensures forall k :: k in t.fields ==> !t.fields[k].End?
  {
    var keys := DictKeys(iter, t.fields);
    assert SerializeFields(t, keys, d, rev, iter).Ok?;
    forall k | k in t.fields
      ensures !t.fields[k].End?
    {
      assert k in multiset(keys);
      var i :| 0 <= i < |keys| && keys[i] == k;
    }
  }

  /** Only a list's first element is asked for its id: an End after it is
      written by `EndTag.serializeValue` as one zero byte, which the reader
      takes as a value of the first element's kind. */
  lemma EndLaterElement(d: int, d': int, rev: Revision, iter: Iter, rest: Bytes)
    requires Enumerates(iter) && d > 0 && d' > 0
    ensures SerializeValue(List([Byte(0), End]), d, rev, iter) == Ok([0, 0, 0, 2, 1, 0, 0])
    ensures DecodeValue(ListId, [0, 0, 0, 2, 1, 0, 0] + rest, d') == Ok((List([Byte(0), Byte(0)]), rest))
  {
    LaterElementWrite(d, rev, iter);
    LaterElementRead(d', rest);
  }

  lemma LaterElementWrite(d: int, rev: Revision, iter: Iter)
    requires Enumerates(iter) && d > 0
    ensures SerializeValue(List([Byte(0), End]), d, rev, iter) == Ok([0, 0, 0, 2, 1, 0, 0])
  {
    var t := List([Byte(0), End]);
    var zeros := LaterElementValues(t, d, rev, iter);
    SmallUnsigned(2);
    assert WriteCount(2) == Ok([0, 0, 0, 2]);
    assert IdOf(t.items[0], rev) == ByteId && Code(ByteId) == 1;
    assert SerializeValue(t, d, rev, iter) == Ok([0, 0, 0, 2] + [Code(ByteId)] + zeros);
    assert [0, 0, 0, 2] + [Code(ByteId)] + zeros == [0, 0, 0, 2, 1, 0, 0];
  }

  /** The element values of `[Byte(0), End]`: one zero byte each. */
  lemma LaterElementValues(t: Tag, d: int, rev: Revision, iter: Iter) returns (zeros: Bytes)
    requires Enumerates(iter) && d > 0 && t == List([Byte(0), End])
    ensures zeros == [0, 0] && SerializeElements(t, 0, d, rev, iter) == Ok(zeros)
  {
    SmallUnsigned(0);
    assert t.items[0] == Byte(0) && t.items[1] == End;
    assert SerializeValue(Byte(0), d - 1, rev, iter) == Ok([0]);
    assert SerializeValue(End, d - 1, rev, iter) == Ok([0]);
    var zero: Bytes := [0];
    assert SerializeElements(t, 2, d, rev, iter) == Ok([]);
    assert SerializeElements(t, 1, d, rev, iter) == Ok(zero + []);
    assert zero + [] == zero;
    zeros := zero + zero;
  }

  lemma LaterElementRead(d: int, rest: Bytes)
    requires d > 0
    ensures DecodeValue(ListId, [0, 0, 0, 2, 1, 0, 0] + rest, d) == Ok((List([Byte(0), Byte(0)]), rest))
  {
    SmallUnsigned(2);
    var s := [0, 0, 0, 2, 1, 0, 0] + rest;
    var body := [0, 0] + rest;
    UnsignedRoundTrip(2, 4, [1] + body);
    assert s == WriteUnsigned(2, 4) + ([1] + body);
    assert ReadUInt8([1] + body) == Ok((1, body));
    ZeroBytesRead(d, rest);
  }

  /** Two zero bytes read as two `Byte(0)` elements. */
  lemma ZeroBytesRead(d: int, rest: Bytes)
    requires d > 0
    ensures DecodeElements(1, 2, [0, 0] + rest, d) == Ok(([Byte(0), Byte(0)], rest))
  {
    var once := [0] + rest;
    assert [0, 0] + rest == [0] + once;
    ZeroByteRead(d - 1, once);
    ZeroByteRead(d - 1, rest);
    assert DecodeElements(1, 0, rest, d) == Ok(([], rest));
    assert DecodeElements(1, 1, once, d) == Ok(([Byte(0)] + [], rest));
    assert [Byte(0)] + ([Byte(0)] + []) == [Byte(0), Byte(0)];
  }

  lemma ZeroByteRead(d: int, rest: Bytes)
    ensures DecodeValue(ByteId, [0] + rest, d) == Ok((Byte(0), rest))
  {
    SmallUnsigned(0);
    assert WriteSigned(0, 1) == [0];
    SignedRoundTrip(0, 1, rest);
  }

  /** A map with one key yields that key alone. */
  lemma SingleKey(iter: Iter, k: Key, v: Tag)
    requires Enumerates(iter)
    ensures DictKeys(iter, map[k := v]) == [k]
  {
    var m := map[k := v];
    var keys := DictKeys(iter, m);
    assert m.Keys == {k};
    assert |multiset(keys)| == 1;
    assert keys[0] in multiset(keys);
  }

  /** Every compound child and every list element goes one level down: with
      no budget left, a compound with a child or a non-empty list does not
      get written.  A list whose first element is End traps on that
      element's id first. */
  lemma NoBudgetNoChildren(t: Tag, d: int, rev: Revision, iter: Iter)
    requires Enumerates(iter) && d <= 0
    requires (t.Compound? && |t.fields| > 0) || (t.List? && 0 < |t.items| < CountLimit)
    ensures SerializeValue(t, d, rev, iter)
         == if t.List? && t.items[0].End? then Err(Trap(MissingOverride)) else Err(Trap(DepthExhausted))
  {
    if t.Compound? {
      var keys := DictKeys(iter, t.fields);
      assert t.fields.Keys != {};
      assert |multiset(keys)| > 0;
      assert SerializeFields(t, keys, d, rev, iter) == Err(Trap(DepthExhausted));
    } else if !t.items[0].End? {
      assert SerializeElements(t, 0, d, rev, iter) == Err(Trap(DepthExhausted));
    }
  }
}
