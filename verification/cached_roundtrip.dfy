/** The round trip of the structure-cached codec: every tag the codec accepts
    (`ValueOk`) and manages to write within its depth budget reads back as
    itself, provided the reader's budget is at least the writer's. */
module CachedRoundTrip {
  import opened Results
  import opened DataStream
  import opened KeyOrder
  import opened MaxDepth
  import opened CachedTag
  import opened CachedCodec
  import opened CachedProofs

  // ----- the codec's functions under non-recursive names -----
  // The lemmas below are stated over these one-line wrappers, so that the
  // conclusion of one step is, term for term, the premise of the next.

  ghost function EncValue(t: Tag, d: int, cache: bool, iter: Iter): Result<Bytes>
    requires Enumerates(iter)
  {
    SerializeValue(t, d, cache, iter)
  }

  ghost function EncFields(t: Tag, keys: seq<Key>, d: int, cache: bool, iter: Iter): Result<Bytes>
    requires Enumerates(iter) && t.Compound?
    requires KeysIn(keys, t.fields)
  {
    SerializeFields(t, keys, d, cache, iter)
  }

  ghost function EncElements(t: Tag, i: nat, d: int, cache: bool, iter: Iter): Result<Bytes>
    requires Enumerates(iter) && t.List? && i <= |t.items|
  {
    SerializeElements(t, i, d, cache, iter)
  }

  ghost function EncFixElements(t: Tag, i: nat, d: int, cache: bool, iter: Iter): Result<Bytes>
    requires Enumerates(iter) && t.List? && i <= |t.items|
  {
    SerializeFixElements(t, i, d, cache, iter)
  }

  ghost function EncFromList(e: Tag, d: int, cache: bool, iter: Iter): Result<Bytes>
    requires Enumerates(iter) && e.Compound?
  {
    SerializeFromList(e, d, cache, iter)
  }

  ghost function EncFromListFields(e: Tag, keys: seq<Key>, d: int, cache: bool, iter: Iter): Result<Bytes>
    requires Enumerates(iter) && e.Compound?
    requires KeysIn(keys, e.fields)
  {
    FromListFields(e, keys, d, cache, iter)
  }

  ghost function EncStructure(f: Tag, d: int, iter: Iter): Result<Bytes>
    requires Enumerates(iter) && f.Compound?
  {
    SerializeStructure(f, d, iter)
  }

  ghost function SchOf(f: Tag, iter: Iter): seq<Field>
    requires Enumerates(iter) && f.Compound?
  {
    SchemaOf(f, iter)
  }

  ghost function SchFields(f: Tag, keys: seq<Key>, iter: Iter): seq<Field>
    requires Enumerates(iter) && f.Compound? && KeysIn(keys, f.fields)
  {
    SchemaFields(f, keys, iter)
  }

  ghost function DecValue(id: TagId, s: Bytes, d: int, cache: bool): Result<(Tag, Bytes)>
  {
    DecodeValue(id, s, d, cache)
  }

  ghost function DecFields(s: Bytes, d: int, cache: bool): Result<(map<Key, Tag>, Bytes)>
  {
    DecodeFields(s, d, cache)
  }

  ghost function DecElements(ty: byte, count: nat, s: Bytes, d: int, cache: bool): Result<(seq<Tag>, Bytes)>
  {
    DecodeElements(ty, count, s, d, cache)
  }

  ghost function DecFixElements(fields: seq<Field>, count: nat, s: Bytes, d: int, cache: bool): Result<(seq<Tag>, Bytes)>
  {
    DecodeFixElements(fields, count, s, d, cache)
  }

  ghost function DecFix(fields: seq<Field>, s: Bytes, d: int, cache: bool): Result<(map<Key, Tag>, Bytes)>
  {
    DecodeFix(fields, s, d, cache)
  }

  ghost function DecSchema(s: Bytes): Result<(seq<Field>, Bytes)>
  {
    DecodeSchema(s)
  }

  // ----- one step of each reader -----

  /** One `(id, name, value)` child of a compound. */
  lemma {:induction false} FieldsStep(s: Bytes, b: byte, a: Bytes, k: Key, c: Bytes, tid: TagId, d: int, cache: bool,
                   v: Tag, e: Bytes, m: map<Key, Tag>, rest: Bytes)
    requires ReadUInt8(s) == Ok((b, a)) && b != 0 && ReadString(a) == Ok((k, c))
    requires FromId(b) == Ok(tid) && Decrement(d) == Ok(d - 1)
    requires DecValue(tid, c, d - 1, cache) == Ok((v, e))
    requires DecFields(e, d, cache) == Ok((m, rest))
    ensures DecFields(s, d, cache) == Ok((map[k := v] + m, rest))
  {
  }

  /** A named child as bytes: its id, its name, its value, then the children
      after it. */
  lemma {:induction false} FieldEntryBytes(tid: TagId, k: Key, value: Bytes, tail: Bytes, v: Tag, m: map<Key, Tag>,
                        rest: Bytes, d: int, cache: bool)
    requires 0 < |k| <= MaxStringBytes && tid != EndId && d > 0
    requires DecValue(tid, value + tail, d - 1, cache) == Ok((v, tail))
    requires DecFields(tail, d, cache) == Ok((m, rest))
    ensures WriteString(k).Ok?
    ensures DecFields([Code(tid)] + (WriteString(k).value + (value + tail)), d, cache)
         == Ok((map[k := v] + m, rest))
  {
    FromIdOfCode(tid);
    assert Decrement(d) == Ok(d - 1);
    NameHeader(Code(tid), k, value + tail);
    var name := WriteString(k).value;
    FieldsStep([Code(tid)] + (name + (value + tail)), Code(tid), name + (value + tail), k, value + tail,
               tid, d, cache, v, tail, m, rest);
  }

  lemma {:induction false} ElementsStep(ty: byte, count: nat, s: Bytes, d: int, cache: bool, tid: TagId,
                     x: Tag, a: Bytes, xs: seq<Tag>, rest: Bytes)
    requires count > 0 && FromId(ty) == Ok(tid) && Decrement(d) == Ok(d - 1)
    requires DecValue(tid, s, d - 1, cache) == Ok((x, a))
    requires DecElements(ty, count - 1, a, d, cache) == Ok((xs, rest))
    ensures DecElements(ty, count, s, d, cache) == Ok(([x] + xs, rest))
  {
  }

  lemma {:induction false} FixElementsStep(fields: seq<Field>, count: nat, s: Bytes, d: int, cache: bool,
                        x: Tag, a: Bytes, xs: seq<Tag>, rest: Bytes)
    requires count > 0 && x.Compound?
    requires DecFix(fields, s, d, cache) == Ok((x.fields, a))
    requires DecFixElements(fields, count - 1, a, d, cache) == Ok((xs, rest))
    ensures DecFixElements(fields, count, s, d, cache) == Ok(([x] + xs, rest))
  {
  }

  lemma {:induction false} FixLeafStep(tail: seq<Field>, s: Bytes, d: int, cache: bool, k: Key, tid: TagId,
                    x: Tag, a: Bytes, m: map<Key, Tag>, rest: Bytes)
    requires DecValue(tid, s, d - 1, cache) == Ok((x, a))
    requires DecFix(tail, a, d, cache) == Ok((m, rest))
    ensures DecFix([Field(k, Leaf(Code(tid)))] + tail, s, d, cache) == Ok((map[k := x] + m, rest))
  {
    FromIdOfCode(tid);
    assert ([Field(k, Leaf(Code(tid)))] + tail)[1..] == tail;
  }

  lemma {:induction false} FixNestedStep(tail: seq<Field>, s: Bytes, d: int, cache: bool, k: Key, sub: seq<Field>,
                      mm: map<Key, Tag>, a: Bytes, m: map<Key, Tag>, rest: Bytes)
    requires DecFix(sub, s, d - 1, cache) == Ok((mm, a))
    requires DecFix(tail, a, d, cache) == Ok((m, rest))
    ensures DecFix([Field(k, Nested(sub))] + tail, s, d, cache) == Ok((map[k := Compound(mm)] + m, rest))
  {
    assert ([Field(k, Nested(sub))] + tail)[1..] == tail;
  }

  /** An empty structure reads nothing. */
  lemma {:induction false} FixEmpty(fields: seq<Field>, s: Bytes, d: int, cache: bool)
    requires |fields| == 0
    ensures DecFix(fields, s, d, cache) == Ok((map[], s))
  {
  }

  lemma {:induction false} CompoundStep(s: Bytes, d: int, cache: bool, m: map<Key, Tag>, rest: Bytes)
    requires DecFields(s, d, cache) == Ok((m, rest))
    ensures DecValue(CompoundId, s, d, cache) == Ok((Compound(m), rest))
  {
  }

  /** A list read without the structure cache: count, element id, values. */
  lemma {:induction false} ListPlainBytes(n: nat, ty: byte, values: Bytes, rest: Bytes, items: seq<Tag>, d: int, cache: bool)
    requires 0 < n < CountLimit && !(cache && ty == CompoundCode)
    requires DecElements(ty, n, values + rest, d, cache) == Ok((items, rest))
    ensures n < Pow256(4)
    ensures DecValue(ListId, WriteUnsigned(n, 4) + ([ty] + (values + rest)), d, cache) == Ok((List(items), rest))
  {
    Pow256Widths();
    UnsignedRoundTrip(n, 4, [ty] + (values + rest));
  }

  /** A list read with the structure cache: count, compound id, the first
      element's structure, values. */
  lemma {:induction false} ListCachedBytes(n: nat, structure: Bytes, values: Bytes, rest: Bytes, sub: seq<Field>,
                        items: seq<Tag>, d: int, cache: bool)
    requires 0 < n < CountLimit && cache
    requires DecSchema(structure + (values + rest)) == Ok((sub, values + rest))
    requires DecFixElements(sub, n, values + rest, d, cache) == Ok((items, rest))
    ensures n < Pow256(4)
    ensures DecValue(ListId, WriteUnsigned(n, 4) + ([CompoundCode] + (structure + (values + rest))), d, cache)
         == Ok((List(items), rest))
  {
    Pow256Widths();
    UnsignedRoundTrip(n, 4, [CompoundCode] + (structure + (values + rest)));
  }

  // ----- what each writer produced -----

  lemma {:induction false} FieldsSplit(t: Tag, keys: seq<Key>, d: int, cache: bool, iter: Iter)
    requires Enumerates(iter) && t.Compound? && |keys| > 0
    requires KeysIn(keys, t.fields)
    requires !t.fields[keys[0]].End?
    requires EncFields(t, keys, d, cache, iter).Ok?
    ensures d > 0 && WriteString(keys[0]).Ok? && EncFields(t, keys[1..], d, cache, iter).Ok?
    ensures EncValue(t.fields[keys[0]], d - 1, cache, iter).Ok?
    ensures EncFields(t, keys, d, cache, iter).value
         == [Code(IdOf(t.fields[keys[0]]))] + WriteString(keys[0]).value
            + EncValue(t.fields[keys[0]], d - 1, cache, iter).value
            + EncFields(t, keys[1..], d, cache, iter).value
  {
    assert d > 0;
    var named := SerializeNamed(t.fields[keys[0]], keys[0], d - 1, cache, iter);
    assert named.Ok?;
  }

  lemma {:induction false} ElementsSplit(t: Tag, i: nat, d: int, cache: bool, iter: Iter)
    requires Enumerates(iter) && t.List? && i < |t.items|
    requires EncElements(t, i, d, cache, iter).Ok?
    ensures d > 0 && EncValue(t.items[i], d - 1, cache, iter).Ok?
    ensures EncElements(t, i + 1, d, cache, iter).Ok?
    ensures EncElements(t, i, d, cache, iter).value
         == EncValue(t.items[i], d - 1, cache, iter).value + EncElements(t, i + 1, d, cache, iter).value
  {
  }

  lemma {:induction false} FixElementsSplit(t: Tag, i: nat, d: int, cache: bool, iter: Iter)
    requires Enumerates(iter) && t.List? && i < |t.items|
    requires EncFixElements(t, i, d, cache, iter).Ok?
    ensures d > 0 && t.items[i].Compound? && EncFromList(t.items[i], d - 1, cache, iter).Ok?
    ensures EncFixElements(t, i + 1, d, cache, iter).Ok?
    ensures EncFixElements(t, i, d, cache, iter).value
         == EncFromList(t.items[i], d - 1, cache, iter).value + EncFixElements(t, i + 1, d, cache, iter).value
  {
  }

  lemma {:induction false} FromListLeafSplit(e: Tag, keys: seq<Key>, d: int, cache: bool, iter: Iter)
    requires Enumerates(iter) && e.Compound? && |keys| > 0
    requires KeysIn(keys, e.fields) && !e.fields[keys[0]].Compound?
    requires EncFromListFields(e, keys, d, cache, iter).Ok?
    ensures d > 0 && EncFromListFields(e, keys[1..], d, cache, iter).Ok?
    ensures EncValue(e.fields[keys[0]], d - 1, cache, iter).Ok?
    ensures EncFromListFields(e, keys, d, cache, iter).value
         == EncValue(e.fields[keys[0]], d - 1, cache, iter).value + EncFromListFields(e, keys[1..], d, cache, iter).value
  {
    assert KeysIn(keys[1..], e.fields);
  }

  lemma {:induction false} FromListNestedSplit(e: Tag, keys: seq<Key>, d: int, cache: bool, iter: Iter)
    requires Enumerates(iter) && e.Compound? && |keys| > 0
    requires KeysIn(keys, e.fields) && e.fields[keys[0]].Compound?
    requires EncFromListFields(e, keys, d, cache, iter).Ok?
    ensures d > 0 && EncFromListFields(e, keys[1..], d, cache, iter).Ok?
    ensures EncFromList(e.fields[keys[0]], d - 1, cache, iter).Ok?
    ensures EncFromListFields(e, keys, d, cache, iter).value
         == EncFromList(e.fields[keys[0]], d - 1, cache, iter).value + EncFromListFields(e, keys[1..], d, cache, iter).value
  {
    assert KeysIn(keys[1..], e.fields);
  }

  lemma {:induction false} SchLeafSplit(f: Tag, keys: seq<Key>, iter: Iter)
    requires Enumerates(iter) && f.Compound? && |keys| > 0
    requires KeysIn(keys, f.fields) && !f.fields[keys[0]].Compound?
    ensures SchFields(f, keys, iter) == [Field(keys[0], Leaf(Code(IdOf(f.fields[keys[0]]))))] + SchFields(f, keys[1..], iter)
  {
    SchemaFieldsHead(f, keys, iter);
  }

  lemma {:induction false} SchNestedSplit(f: Tag, keys: seq<Key>, iter: Iter)
    requires Enumerates(iter) && f.Compound? && |keys| > 0
    requires KeysIn(keys, f.fields) && f.fields[keys[0]].Compound?
    ensures SchFields(f, keys, iter) == [Field(keys[0], Nested(SchOf(f.fields[keys[0]], iter)))] + SchFields(f, keys[1..], iter)
  {
    SchemaFieldsHead(f, keys, iter);
  }

  lemma {:induction false} CompoundSplit(t: Tag, d: int, cache: bool, iter: Iter)
    requires Enumerates(iter) && t.Compound?
    requires EncValue(t, d, cache, iter).Ok?
    ensures EncFields(t, SortedKeys(iter, t.fields), d, cache, iter).Ok?
    ensures EncValue(t, d, cache, iter).value
         == EncFields(t, SortedKeys(iter, t.fields), d, cache, iter).value + [0]
  {
  }

  lemma {:induction false} ListPlainSplit(t: Tag, d: int, cache: bool, iter: Iter)
    requires Enumerates(iter) && t.List? && |t.items| > 0
    requires !(cache && t.items[0].Compound?)
    requires EncValue(t, d, cache, iter).Ok?
    ensures |t.items| < CountLimit && |t.items| < Pow256(4)
    ensures EncElements(t, 0, d, cache, iter).Ok?
    ensures EncValue(t, d, cache, iter).value
         == WriteUnsigned(|t.items|, 4) + [Code(IdOf(t.items[0]))] + EncElements(t, 0, d, cache, iter).value
  {
    Pow256Widths();
  }

  lemma {:induction false} ListCachedSplit(t: Tag, d: int, cache: bool, iter: Iter)
    requires Enumerates(iter) && t.List? && |t.items| > 0
    requires cache && t.items[0].Compound?
    requires EncValue(t, d, cache, iter).Ok?
    ensures |t.items| < CountLimit && |t.items| < Pow256(4)
    ensures EncStructure(t.items[0], d, iter).Ok?
    ensures EncFixElements(t, 0, d, cache, iter).Ok?
    ensures EncValue(t, d, cache, iter).value
         == WriteUnsigned(|t.items|, 4) + [CompoundCode] + EncStructure(t.items[0], d, iter).value
            + EncFixElements(t, 0, d, cache, iter).value
  {
    Pow256Widths();
  }

  /** The structure of a compound reads back as the schema it describes. */
  lemma {:induction false} StructureBack(f: Tag, d: int, cache: bool, iter: Iter, rest: Bytes)
    requires Enumerates(iter) && f.Compound? && ValueOk(f, cache)
    ensures EncStructure(f, d, iter).Ok? ==> DecSchema(EncStructure(f, d, iter).value + rest) == Ok((SchOf(f, iter), rest))
  {
    StructureRoundTrip(f, d, cache, iter, rest);
  }

  // ----- the entries of each loop -----

  /** A field of a compound: its id and name, its value, then the fields
      after it. */
  lemma {:induction false} FieldEntry(t: Tag, keys: seq<Key>, tailKeys: seq<Key>, d: int, d': int, cache: bool, iter: Iter,
                   rest: Bytes, v: Tag, dv: int, ddv: int, tail: Bytes)
    requires Enumerates(iter) && t.Compound? && |keys| > 0 && tailKeys == keys[1..]
    requires KeysIn(keys, t.fields)
    requires v == t.fields[keys[0]] && |keys[0]| > 0 && !v.End? && d <= d' && dv == d - 1 && ddv == d' - 1
    requires EncFields(t, tailKeys, d, cache, iter).Ok? ==> tail == EncFields(t, tailKeys, d, cache, iter).value + [0] + rest
    requires EncFields(t, tailKeys, d, cache, iter).Ok? ==>
               DecFields(EncFields(t, tailKeys, d, cache, iter).value + [0] + rest, d', cache)
               == Ok((Pick(t.fields, tailKeys), rest))
    requires EncValue(v, dv, cache, iter).Ok? ==>
               DecValue(IdOf(v), EncValue(v, dv, cache, iter).value + tail, ddv, cache) == Ok((v, tail))
    ensures EncFields(t, keys, d, cache, iter).Ok? ==>
              DecFields(EncFields(t, keys, d, cache, iter).value + [0] + rest, d', cache)
              == Ok((Pick(t.fields, keys), rest))
  {
    if EncFields(t, keys, d, cache, iter).Ok? {
      var k := keys[0];
      FieldsSplit(t, keys, d, cache, iter);
      var value := EncValue(v, dv, cache, iter).value;
      var more := EncFields(t, tailKeys, d, cache, iter).value;
      FieldEntryBytes(IdOf(v), k, value, tail, v, Pick(t.fields, tailKeys), rest, d', cache);
      Regroup(EncFields(t, keys, d, cache, iter).value, Code(IdOf(v)), WriteString(k).value, value, more, rest);
      PickCons(t.fields, keys);
    }
  }

  /** An element of a plain list: its value, then the elements after it. */
  lemma {:induction false} ElementEntry(t: Tag, i: nat, j: nat, d: int, d': int, cache: bool, iter: Iter, rest: Bytes,
                     x: Tag, dx: int, ddx: int, tail: Bytes)
    requires Enumerates(iter) && t.List? && i < |t.items| && j == i + 1 && d <= d'
    requires x == t.items[i] && IdOf(x) == IdOf(t.items[0]) && !x.End? && dx == d - 1 && ddx == d' - 1
    requires EncElements(t, j, d, cache, iter).Ok? ==> tail == EncElements(t, j, d, cache, iter).value + rest
    requires EncElements(t, j, d, cache, iter).Ok? ==>
               DecElements(Code(IdOf(t.items[0])), |t.items| - j, EncElements(t, j, d, cache, iter).value + rest, d', cache)
               == Ok((t.items[j..], rest))
    requires EncValue(x, dx, cache, iter).Ok? ==>
               DecValue(IdOf(x), EncValue(x, dx, cache, iter).value + tail, ddx, cache) == Ok((x, tail))
    ensures EncElements(t, i, d, cache, iter).Ok? ==>
              DecElements(Code(IdOf(t.items[0])), |t.items| - i, EncElements(t, i, d, cache, iter).value + rest, d', cache)
              == Ok((t.items[i..], rest))
  {
    if EncElements(t, i, d, cache, iter).Ok? {
      ElementsSplit(t, i, d, cache, iter);
      var value := EncValue(x, dx, cache, iter).value;
      var more := EncElements(t, j, d, cache, iter).value;
      FromIdOfCode(IdOf(x));
      assert Decrement(d') == Ok(d' - 1);
      ElementsStep(Code(IdOf(t.items[0])), |t.items| - i, value + tail, d', cache, IdOf(x),
                   x, tail, t.items[j..], rest);
      Assoc3(EncElements(t, i, d, cache, iter).value, value, more, rest);
      SuffixCons(t.items, i);
    }
  }

  /** An element of a structure-cached list: its fields by the first
      element's structure, then the elements after it. */
  lemma {:induction false} FixElementEntry(t: Tag, i: nat, j: nat, d: int, d': int, cache: bool, iter: Iter, rest: Bytes,
                        e: Tag, first: Tag, dx: int, tail: Bytes)
    requires Enumerates(iter) && t.List? && i < |t.items| && j == i + 1 && d <= d'
    requires e == t.items[i] && first == t.items[0] && first.Compound? && e.Compound? && dx == d - 1
    requires EncFixElements(t, j, d, cache, iter).Ok? ==> tail == EncFixElements(t, j, d, cache, iter).value + rest
    requires EncFixElements(t, j, d, cache, iter).Ok? ==>
               DecFixElements(SchOf(t.items[0], iter), |t.items| - j, EncFixElements(t, j, d, cache, iter).value + rest, d', cache)
               == Ok((t.items[j..], rest))
    requires EncFromList(e, dx, cache, iter).Ok? ==>
               DecFix(SchOf(first, iter), EncFromList(e, dx, cache, iter).value + tail, d', cache) == Ok((e.fields, tail))
    ensures EncFixElements(t, i, d, cache, iter).Ok? ==>
              DecFixElements(SchOf(t.items[0], iter), |t.items| - i, EncFixElements(t, i, d, cache, iter).value + rest, d', cache)
              == Ok((t.items[i..], rest))
  {
    if EncFixElements(t, i, d, cache, iter).Ok? {
      FixElementsSplit(t, i, d, cache, iter);
      var value := EncFromList(e, dx, cache, iter).value;
      var more := EncFixElements(t, j, d, cache, iter).value;
      FixElementsStep(SchOf(first, iter), |t.items| - i, value + tail, d', cache, e, tail, t.items[j..], rest);
      Assoc3(EncFixElements(t, i, d, cache, iter).value, value, more, rest);
      SuffixCons(t.items, i);
    }
  }

  /** A plain field of a structure-cached element: its value is read by the
      id the structure records for it, then the remaining fields. */
  lemma {:induction false} FromListLeafEntry(e: Tag, f: Tag, keys: seq<Key>, tailKeys: seq<Key>, de: int, dd: int,
                          cache: bool, iter: Iter, rest: Bytes, v: Tag, dv: int, ddv: int, tail: Bytes)
    requires Enumerates(iter) && e.Compound? && f.Compound? && |keys| > 0 && tailKeys == keys[1..]
    requires KeysIn(keys, e.fields) && KeysIn(keys, f.fields)
    requires v == e.fields[keys[0]] && !v.Compound? && !f.fields[keys[0]].Compound?
    requires IdOf(v) == IdOf(f.fields[keys[0]]) && dv == de - 1 && ddv == dd - 1
    requires EncFromListFields(e, tailKeys, de, cache, iter).Ok? ==>
               tail == EncFromListFields(e, tailKeys, de, cache, iter).value + rest
    requires EncFromListFields(e, tailKeys, de, cache, iter).Ok? ==>
               DecFix(SchFields(f, tailKeys, iter), EncFromListFields(e, tailKeys, de, cache, iter).value + rest, dd, cache)
               == Ok((Pick(e.fields, tailKeys), rest))
    requires EncValue(v, dv, cache, iter).Ok? ==>
               DecValue(IdOf(v), EncValue(v, dv, cache, iter).value + tail, ddv, cache) == Ok((v, tail))
    ensures EncFromListFields(e, keys, de, cache, iter).Ok? ==>
              DecFix(SchFields(f, keys, iter), EncFromListFields(e, keys, de, cache, iter).value + rest, dd, cache)
              == Ok((Pick(e.fields, keys), rest))
  {
    if EncFromListFields(e, keys, de, cache, iter).Ok? {
      var k := keys[0];
      FromListLeafSplit(e, keys, de, cache, iter);
      var value := EncValue(v, dv, cache, iter).value;
      var more := EncFromListFields(e, tailKeys, de, cache, iter).value;
      SchLeafSplit(f, keys, iter);
      FixLeafStep(SchFields(f, tailKeys, iter), value + tail, dd, cache, k, IdOf(v), v, tail, Pick(e.fields, tailKeys), rest);
      Assoc3(EncFromListFields(e, keys, de, cache, iter).value, value, more, rest);
      PickCons(e.fields, keys);
    }
  }

  /** A nested compound field of a structure-cached element: its fields are
      read by the structure recorded for it, then the remaining fields. */
  lemma {:induction false} FromListNestedEntry(e: Tag, f: Tag, keys: seq<Key>, tailKeys: seq<Key>, de: int, dd: int,
                            cache: bool, iter: Iter, rest: Bytes, v: Tag, g: Tag, dv: int, ddv: int, tail: Bytes)
    requires Enumerates(iter) && e.Compound? && f.Compound? && |keys| > 0 && tailKeys == keys[1..]
    requires KeysIn(keys, e.fields) && KeysIn(keys, f.fields)
    requires v == e.fields[keys[0]] && g == f.fields[keys[0]] && v.Compound? && g.Compound?
    requires dv == de - 1 && ddv == dd - 1
    requires EncFromListFields(e, tailKeys, de, cache, iter).Ok? ==>
               tail == EncFromListFields(e, tailKeys, de, cache, iter).value + rest
    requires EncFromListFields(e, tailKeys, de, cache, iter).Ok? ==>
               DecFix(SchFields(f, tailKeys, iter), EncFromListFields(e, tailKeys, de, cache, iter).value + rest, dd, cache)
               == Ok((Pick(e.fields, tailKeys), rest))
    requires EncFromList(v, dv, cache, iter).Ok? ==>
               DecFix(SchOf(g, iter), EncFromList(v, dv, cache, iter).value + tail, ddv, cache) == Ok((v.fields, tail))
    ensures EncFromListFields(e, keys, de, cache, iter).Ok? ==>
              DecFix(SchFields(f, keys, iter), EncFromListFields(e, keys, de, cache, iter).value + rest, dd, cache)
              == Ok((Pick(e.fields, keys), rest))
  {
    if EncFromListFields(e, keys, de, cache, iter).Ok? {
      var k := keys[0];
      FromListNestedSplit(e, keys, de, cache, iter);
      var value := EncFromList(v, dv, cache, iter).value;
      var more := EncFromListFields(e, tailKeys, de, cache, iter).value;
      SchNestedSplit(f, keys, iter);
      FixNestedStep(SchFields(f, tailKeys, iter), value + tail, dd, cache, k, SchOf(g, iter),
                    v.fields, tail, Pick(e.fields, tailKeys), rest);
      Assoc3(EncFromListFields(e, keys, de, cache, iter).value, value, more, rest);
      PickCons(e.fields, keys);
    }
  }

  // ----- the round trip -----

  /** A value the codec accepts reads back as itself when its bytes are read
      with a depth budget at least the writer's. */
  lemma {:induction false} ValueRoundTrip(t: Tag, d: int, d': int, cache: bool, iter: Iter, rest: Bytes)
    requires Enumerates(iter) && ValueOk(t, cache) && d <= d'
    ensures EncValue(t, d, cache, iter).Ok? ==>
              DecValue(IdOf(t), EncValue(t, d, cache, iter).value + rest, d', cache) == Ok((t, rest))
    decreases t, 2, 0
  {
    if t.List? {
      ListRoundTrip(t, d, d', cache, iter, rest);
    } else if t.Compound? {
      CompoundRoundTrip(t, d, d', cache, iter, rest);
    } else {
      ScalarRoundTrip(t, d, d', cache, iter, rest);
    }
  }

  lemma {:induction false} CompoundRoundTrip(t: Tag, d: int, d': int, cache: bool, iter: Iter, rest: Bytes)
    requires Enumerates(iter) && t.Compound? && ValueOk(t, cache) && d <= d'
    ensures EncValue(t, d, cache, iter).Ok? ==>
              DecValue(CompoundId, EncValue(t, d, cache, iter).value + rest, d', cache) == Ok((t, rest))
    decreases t, 1, 0
  {
    var keys := SortedKeys(iter, t.fields);
    FieldsRoundTrip(t, keys, d, d', cache, iter, rest);
    if EncValue(t, d, cache, iter).Ok? {
      CompoundSplit(t, d, cache, iter);
      SortedKeysSpec(iter, t.fields);
      PickAll(t.fields, keys);
      CompoundStep(EncValue(t, d, cache, iter).value + rest, d', cache, t.fields, rest);
    }
  }

  lemma {:induction false} FieldsRoundTrip(t: Tag, keys: seq<Key>, d: int, d': int, cache: bool, iter: Iter, rest: Bytes)
    requires Enumerates(iter) && t.Compound? && ValueOk(t, cache) && d <= d'
    requires KeysIn(keys, t.fields)
    ensures EncFields(t, keys, d, cache, iter).Ok? ==>
              DecFields(EncFields(t, keys, d, cache, iter).value + [0] + rest, d', cache)
              == Ok((Pick(t.fields, keys), rest))
    decreases t, 0, |keys|
  {
    if |keys| == 0 {
      assert Pick(t.fields, keys) == map[];
      assert EncFields(t, keys, d, cache, iter).value + [0] + rest == [0] + rest;
    } else {
      var k := keys[0];
      var tailKeys := keys[1..];
      var v := t.fields[k];
      var dv := d - 1;
      var ddv := d' - 1;
      FieldOk(t, k, cache);
      ChildBelow(t, k);
      FieldsRoundTrip(t, tailKeys, d, d', cache, iter, rest);
      var more := EncFields(t, tailKeys, d, cache, iter);
      var tail := if more.Ok? then more.value + [0] + rest else rest;
      ValueRoundTrip(v, dv, ddv, cache, iter, tail);
      FieldEntry(t, keys, tailKeys, d, d', cache, iter, rest, v, dv, ddv, tail);
    }
  }

  lemma {:induction false} ListRoundTrip(t: Tag, d: int, d': int, cache: bool, iter: Iter, rest: Bytes)
    requires Enumerates(iter) && t.List? && ValueOk(t, cache) && d <= d'
    ensures EncValue(t, d, cache, iter).Ok? ==>
              DecValue(ListId, EncValue(t, d, cache, iter).value + rest, d', cache) == Ok((t, rest))
    decreases t, 1, 1
  {
    if |t.items| == 0 {
      Pow256Widths();
      UnsignedRoundTrip(0, 4, rest);
    } else if cache && t.items[0].Compound? {
      ListCachedRoundTrip(t, d, d', cache, iter, rest);
    } else {
      ListPlainRoundTrip(t, d, d', cache, iter, rest);
    }
  }

  /** A list of compounds under the structure cache: the count, the compound
      id, the first element's structure, then every element's bare values. */
  lemma {:induction false} ListCachedRoundTrip(t: Tag, d: int, d': int, cache: bool, iter: Iter, rest: Bytes)
    requires Enumerates(iter) && t.List? && ValueOk(t, cache) && d <= d'
    requires |t.items| > 0 && cache && t.items[0].Compound?
    ensures EncValue(t, d, cache, iter).Ok? ==>
              DecValue(ListId, EncValue(t, d, cache, iter).value + rest, d', cache) == Ok((t, rest))
    decreases t, 1, 0
  {
    var first := t.items[0];
    var zero := 0;
    ItemOk(t, zero, cache);
    FixElementsRoundTrip(t, zero, d, d', cache, iter, rest);
    var values := EncFixElements(t, zero, d, cache, iter);
    var tail := if values.Ok? then values.value + rest else rest;
    StructureBack(first, d, cache, iter, tail);
    ListCachedEntry(t, first, zero, d, d', cache, iter, rest, tail);
  }

  lemma {:induction false} ListCachedEntry(t: Tag, first: Tag, zero: nat, d: int, d': int, cache: bool, iter: Iter,
                        rest: Bytes, tail: Bytes)
    requires Enumerates(iter) && t.List? && |t.items| > 0 && cache && first == t.items[0] && first.Compound?
    requires zero == 0
    requires EncFixElements(t, zero, d, cache, iter).Ok? ==> tail == EncFixElements(t, zero, d, cache, iter).value + rest
    requires EncFixElements(t, zero, d, cache, iter).Ok? ==>
               DecFixElements(SchOf(t.items[0], iter), |t.items| - zero, EncFixElements(t, zero, d, cache, iter).value + rest, d', cache)
               == Ok((t.items[zero..], rest))
    requires EncStructure(first, d, iter).Ok? ==>
               DecSchema(EncStructure(first, d, iter).value + tail) == Ok((SchOf(first, iter), tail))
    ensures EncValue(t, d, cache, iter).Ok? ==>
              DecValue(ListId, EncValue(t, d, cache, iter).value + rest, d', cache) == Ok((t, rest))
  {
    if EncValue(t, d, cache, iter).Ok? {
      ListCachedSplit(t, d, cache, iter);
      var whole := EncValue(t, d, cache, iter).value;
      var count := WriteUnsigned(|t.items|, 4);
      var structure := EncStructure(first, d, iter).value;
      var values := EncFixElements(t, zero, d, cache, iter).value;
      var sch := SchOf(first, iter);
      var items := t.items;
      assert items[zero..] == items;
      ListCachedBytes(|items|, structure, values, rest, sch, items, d', cache);
      Assoc5(whole, count, [CompoundCode], structure, values, rest);
    }
  }

  /** Any other non-empty list: the count, the element id, then every
      element's value. */
  lemma {:induction false} ListPlainRoundTrip(t: Tag, d: int, d': int, cache: bool, iter: Iter, rest: Bytes)
    requires Enumerates(iter) && t.List? && ValueOk(t, cache) && d <= d'
    requires |t.items| > 0 && !(cache && t.items[0].Compound?)
    ensures EncValue(t, d, cache, iter).Ok? ==>
              DecValue(ListId, EncValue(t, d, cache, iter).value + rest, d', cache) == Ok((t, rest))
    decreases t, 1, 0
  {
    var zero := 0;
    ElementsRoundTrip(t, zero, d, d', cache, iter, rest);
    ListPlainEntry(t, zero, d, d', cache, iter, rest);
  }

  lemma {:induction false} ListPlainEntry(t: Tag, zero: nat, d: int, d': int, cache: bool, iter: Iter, rest: Bytes)
    requires Enumerates(iter) && t.List? && |t.items| > 0 && !(cache && t.items[0].Compound?) && zero == 0
    requires EncElements(t, zero, d, cache, iter).Ok? ==>
               DecElements(Code(IdOf(t.items[0])), |t.items| - zero, EncElements(t, zero, d, cache, iter).value + rest, d', cache)
               == Ok((t.items[zero..], rest))
    ensures EncValue(t, d, cache, iter).Ok? ==>
              DecValue(ListId, EncValue(t, d, cache, iter).value + rest, d', cache) == Ok((t, rest))
  {
    if EncValue(t, d, cache, iter).Ok? {
      ListPlainSplit(t, d, cache, iter);
      var ty := Code(IdOf(t.items[0]));
      var values := EncElements(t, zero, d, cache, iter).value;
      FromIdOfCode(IdOf(t.items[0]));
      assert t.items[zero..] == t.items;
      ListPlainBytes(|t.items|, ty, values, rest, t.items, d', cache);
      Assoc4(EncValue(t, d, cache, iter).value, WriteUnsigned(|t.items|, 4), [ty], values, rest);
    }
  }

  lemma {:induction false} ElementsRoundTrip(t: Tag, i: nat, d: int, d': int, cache: bool, iter: Iter, rest: Bytes)
    requires Enumerates(iter) && t.List? && 0 < |t.items| && i <= |t.items| && ValueOk(t, cache) && d <= d'
    ensures EncElements(t, i, d, cache, iter).Ok? ==>
              DecElements(Code(IdOf(t.items[0])), |t.items| - i, EncElements(t, i, d, cache, iter).value + rest, d', cache)
              == Ok((t.items[i..], rest))
    decreases t, 0, |t.items| - i
  {
    if i == |t.items| {
      assert EncElements(t, i, d, cache, iter).value + rest == rest;
      assert t.items[i..] == [];
    } else {
      var j := i + 1;
      var x := t.items[i];
      var dx := d - 1;
      var ddx := d' - 1;
      ItemOk(t, i, cache);
      ElementsRoundTrip(t, j, d, d', cache, iter, rest);
      var more := EncElements(t, j, d, cache, iter);
      var tail := if more.Ok? then more.value + rest else rest;
      ValueRoundTrip(x, dx, ddx, cache, iter, tail);
      ElementEntry(t, i, j, d, d', cache, iter, rest, x, dx, ddx, tail);
    }
  }

  lemma {:induction false} FixElementsRoundTrip(t: Tag, i: nat, d: int, d': int, cache: bool, iter: Iter, rest: Bytes)
    requires Enumerates(iter) && t.List? && 0 < |t.items| && t.items[0].Compound? && i <= |t.items|
    requires ValueOk(t, cache) && cache && d <= d'
    ensures EncFixElements(t, i, d, cache, iter).Ok? ==>
              DecFixElements(SchOf(t.items[0], iter), |t.items| - i, EncFixElements(t, i, d, cache, iter).value + rest, d', cache)
              == Ok((t.items[i..], rest))
    decreases t, 0, |t.items| - i
  {
    if i == |t.items| {
      assert EncFixElements(t, i, d, cache, iter).value + rest == rest;
      assert t.items[i..] == [];
    } else {
      var j := i + 1;
      var e := t.items[i];
      var first := t.items[0];
      var dx := d - 1;
      ItemOk(t, i, cache);
      ItemConforms(t, i, cache);
      FixElementsRoundTrip(t, j, d, d', cache, iter, rest);
      var more := EncFixElements(t, j, d, cache, iter);
      var tail := if more.Ok? then more.value + rest else rest;
      FromListRoundTrip(e, first, dx, d', cache, iter, tail);
      FixElementEntry(t, i, j, d, d', cache, iter, rest, e, first, dx, tail);
    }
  }

  /** An element of a structure-cached list, written as bare values, reads
      back by the first element's structure as its own fields. */
  lemma {:induction false} FromListRoundTrip(e: Tag, f: Tag, de: int, dd: int, cache: bool, iter: Iter, rest: Bytes)
    requires Enumerates(iter) && f.Compound? && Conforms(e, f) && ValueOk(e, cache) && de <= dd
    ensures e.Compound?
    ensures EncFromList(e, de, cache, iter).Ok? ==>
              DecFix(SchOf(f, iter), EncFromList(e, de, cache, iter).value + rest, dd, cache)
              == Ok((e.fields, rest))
    decreases e, 1, 0
  {
    var keys := SortedKeys(iter, e.fields);
    SameKeysSameOrder(iter, e.fields, f.fields);
    FromListFieldsRoundTrip(e, f, keys, de, dd, cache, iter, rest);
    SortedKeysSpec(iter, e.fields);
    PickAll(e.fields, keys);
  }

  lemma {:induction false} FromListFieldsRoundTrip(e: Tag, f: Tag, keys: seq<Key>, de: int, dd: int, cache: bool, iter: Iter, rest: Bytes)
    requires Enumerates(iter) && f.Compound? && Conforms(e, f) && ValueOk(e, cache) && de <= dd
    requires KeysIn(keys, e.fields) && KeysIn(keys, f.fields)
    ensures EncFromListFields(e, keys, de, cache, iter).Ok? ==>
              DecFix(SchFields(f, keys, iter), EncFromListFields(e, keys, de, cache, iter).value + rest, dd, cache)
              == Ok((Pick(e.fields, keys), rest))
    decreases e, 0, |keys|, 1
  {
    if |keys| == 0 {
      assert Pick(e.fields, keys) == map[];
      assert EncFromListFields(e, keys, de, cache, iter).value + rest == rest;
      FixEmpty(SchFields(f, keys, iter), rest, dd, cache);
    } else {
      var k := keys[0];
      var tailKeys := keys[1..];
      var v := e.fields[k];
      var g := f.fields[k];
      var dv := de - 1;
      var ddv := dd - 1;
      FieldConforms(e, f, k);
      FieldOk(e, k, cache);
      ChildBelow(e, k);
      FromListFieldsRoundTrip(e, f, tailKeys, de, dd, cache, iter, rest);
      var more := EncFromListFields(e, tailKeys, de, cache, iter);
      var tail := if more.Ok? then more.value + rest else rest;
      if v.Compound? {
        FromListRoundTrip(v, g, dv, ddv, cache, iter, tail);
        FromListNestedEntry(e, f, keys, tailKeys, de, dd, cache, iter, rest, v, g, dv, ddv, tail);
      } else {
        ValueRoundTrip(v, dv, ddv, cache, iter, tail);
        FromListLeafEntry(e, f, keys, tailKeys, de, dd, cache, iter, rest, v, dv, ddv, tail);
      }
    }
  }
}
