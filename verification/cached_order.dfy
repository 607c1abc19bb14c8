/** The structure-cached codec sorts every dictionary before writing it, so
    its bytes do not depend on the order in which a dictionary yields its
    keys: any two iteration orders give the same result, error or bytes. */
module CachedOrder {
  import opened Results
  import opened DataStream
  import opened KeyOrder
  import opened MaxDepth
  import opened CachedTag
  import opened CachedCodec

  /** The root is written the same way under any two iteration orders. */
  lemma {:induction false} SerializeSame(t: Tag, d: int, cache: bool, i1: Iter, i2: Iter)
    requires Enumerates(i1) && Enumerates(i2)
    ensures Serialize(t, d, cache, i1) == Serialize(t, d, cache, i2)
  {
    NamedSame(t, [], d, cache, i1, i2);
  }

  lemma {:induction false} NamedSame(t: Tag, name: Key, d: int, cache: bool, i1: Iter, i2: Iter)
    requires Enumerates(i1) && Enumerates(i2)
    ensures SerializeNamed(t, name, d, cache, i1) == SerializeNamed(t, name, d, cache, i2)
    decreases t, 2, 0
  {
    ValueSame(t, d, cache, i1, i2);
  }

  lemma {:induction false} ValueSame(t: Tag, d: int, cache: bool, i1: Iter, i2: Iter)
    requires Enumerates(i1) && Enumerates(i2)
    ensures SerializeValue(t, d, cache, i1) == SerializeValue(t, d, cache, i2)
    decreases t, 1, 1
  {
    match t
    case List(_) => ListSame(t, d, cache, i1, i2);
    case Compound(_) => CompoundSame(t, d, cache, i1, i2);
    case _ =>
  }

  lemma {:induction false} ListSame(t: Tag, d: int, cache: bool, i1: Iter, i2: Iter)
    requires Enumerates(i1) && Enumerates(i2) && t.List?
    ensures SerializeValue(t, d, cache, i1) == SerializeValue(t, d, cache, i2)
    decreases t, 1, 0
  {
    if |t.items| > 0 {
      var zero := 0;
      ElementsSame(t, zero, d, cache, i1, i2);
      if t.items[0].Compound? {
        var first := t.items[0];
        StructureSame(first, d, i1, i2);
        FixElementsSame(t, zero, d, cache, i1, i2);
      }
    }
  }

  lemma {:induction false} CompoundSame(t: Tag, d: int, cache: bool, i1: Iter, i2: Iter)
    requires Enumerates(i1) && Enumerates(i2) && t.Compound?
    ensures SerializeValue(t, d, cache, i1) == SerializeValue(t, d, cache, i2)
    decreases t, 1, 0
  {
    SortedKeysCanonical(i1, i2, t.fields);
    var keys := SortedKeys(i1, t.fields);
    FieldsSame(t, keys, d, cache, i1, i2);
  }

  lemma {:induction false} FieldsSame(t: Tag, keys: seq<Key>, d: int, cache: bool, i1: Iter, i2: Iter)
    requires Enumerates(i1) && Enumerates(i2) && t.Compound? && KeysIn(keys, t.fields)
    ensures SerializeFields(t, keys, d, cache, i1) == SerializeFields(t, keys, d, cache, i2)
    decreases t, 0, |keys|
  {
    if |keys| > 0 {
      var k := keys[0];
      var tailKeys := keys[1..];
      var child := t.fields[k];
      var dc := d - 1;
      NamedSame(child, k, dc, cache, i1, i2);
      FieldsSame(t, tailKeys, d, cache, i1, i2);
    }
  }

  lemma {:induction false} ElementsSame(t: Tag, i: nat, d: int, cache: bool, i1: Iter, i2: Iter)
    requires Enumerates(i1) && Enumerates(i2) && t.List? && i <= |t.items|
    ensures SerializeElements(t, i, d, cache, i1) == SerializeElements(t, i, d, cache, i2)
    decreases t, 0, |t.items| - i
  {
    if i < |t.items| {
      var x := t.items[i];
      var dx := d - 1;
      ValueSame(x, dx, cache, i1, i2);
      ElementsSame(t, i + 1, d, cache, i1, i2);
    }
  }

  lemma {:induction false} FixElementsSame(t: Tag, i: nat, d: int, cache: bool, i1: Iter, i2: Iter)
    requires Enumerates(i1) && Enumerates(i2) && t.List? && i <= |t.items|
    ensures SerializeFixElements(t, i, d, cache, i1) == SerializeFixElements(t, i, d, cache, i2)
    decreases t, 0, |t.items| - i
  {
    if i < |t.items| && t.items[i].Compound? {
      var e := t.items[i];
      var de := d - 1;
      FromListSame(e, de, cache, i1, i2);
      FixElementsSame(t, i + 1, d, cache, i1, i2);
    }
  }

  lemma {:induction false} FromListSame(e: Tag, d: int, cache: bool, i1: Iter, i2: Iter)
    requires Enumerates(i1) && Enumerates(i2) && e.Compound?
    ensures SerializeFromList(e, d, cache, i1) == SerializeFromList(e, d, cache, i2)
    decreases e, 1, 0
  {
    SortedKeysCanonical(i1, i2, e.fields);
    var keys := SortedKeys(i1, e.fields);
    FromListFieldsSame(e, keys, d, cache, i1, i2);
  }

  lemma {:induction false} FromListFieldsSame(e: Tag, keys: seq<Key>, d: int, cache: bool, i1: Iter, i2: Iter)
    requires Enumerates(i1) && Enumerates(i2) && e.Compound? && KeysIn(keys, e.fields)
    ensures FromListFields(e, keys, d, cache, i1) == FromListFields(e, keys, d, cache, i2)
    decreases e, 0, |keys|
  {
    if |keys| > 0 {
      var v := e.fields[keys[0]];
      var tailKeys := keys[1..];
      var dv := d - 1;
      if v.Compound? {
        FromListSame(v, dv, cache, i1, i2);
      } else {
        ValueSame(v, dv, cache, i1, i2);
      }
      FromListFieldsSame(e, tailKeys, d, cache, i1, i2);
    }
  }

  lemma {:induction false} StructureSame(f: Tag, d: int, i1: Iter, i2: Iter)
    requires Enumerates(i1) && Enumerates(i2) && f.Compound?
    ensures SerializeStructure(f, d, i1) == SerializeStructure(f, d, i2)
    decreases f, 1
  {
    SortedKeysCanonical(i1, i2, f.fields);
    var keys := SortedKeys(i1, f.fields);
    StructureFieldsSame(f, keys, d, i1, i2);
  }

  lemma {:induction false} StructureFieldsSame(f: Tag, keys: seq<Key>, d: int, i1: Iter, i2: Iter)
    requires Enumerates(i1) && Enumerates(i2) && f.Compound? && KeysIn(keys, f.fields)
    ensures StructureFields(f, keys, d, i1) == StructureFields(f, keys, d, i2)
    decreases f, 0, |keys|
  {
    if |keys| > 0 {
      var v := f.fields[keys[0]];
      var tailKeys := keys[1..];
      if v.Compound? {
        var dv := d - 1;
        StructureSame(v, dv, i1, i2);
      }
      StructureFieldsSame(f, tailKeys, d, i1, i2);
    }
  }
}
