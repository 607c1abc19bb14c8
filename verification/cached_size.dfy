/** What the structure cache saves.  With the cache on, a list of compounds
    writes the first element's ids and names once, as its structure, and
    every element as bare values; with it off, every element carries its own
    ids, names and terminator.  The cache never makes a tag longer, and a
    list of two or more compounds it makes strictly shorter. */
module CachedSize {
  import opened Results
  import opened DataStream
  import opened KeyOrder
  import opened CachedTag
  import opened CachedCodec
  import opened CachedProofs
  import opened CachedRoundTrip

  /** Whenever a tag the codec reads back writes both with the cache and
      without it, the cached bytes are no longer. */
  lemma {:induction false} ValueNoLonger(t: Tag, m: int, iter: Iter)
    requires Enumerates(iter) && ValueOk(t, true)
    requires EncValue(t, m, true, iter).Ok? && EncValue(t, m, false, iter).Ok?
    ensures |EncValue(t, m, true, iter).value| <= |EncValue(t, m, false, iter).value|
    decreases t, 1, 1
  {
    match t
    case List(_) => ListNoLonger(t, m, iter);
    case Compound(_) => CompoundNoLonger(t, m, iter);
    case _ =>
  }

  lemma {:induction false} CompoundNoLonger(t: Tag, m: int, iter: Iter)
    requires Enumerates(iter) && t.Compound? && ValueOk(t, true)
    requires EncValue(t, m, true, iter).Ok? && EncValue(t, m, false, iter).Ok?
    ensures |EncValue(t, m, true, iter).value| <= |EncValue(t, m, false, iter).value|
    decreases t, 1, 0
  {
    var keys := SortedKeys(iter, t.fields);
    CompoundSplit(t, m, true, iter);
    CompoundSplit(t, m, false, iter);
    FieldsNoLonger(t, keys, m, iter);
  }

  lemma {:induction false} FieldsNoLonger(t: Tag, keys: seq<Key>, m: int, iter: Iter)
    requires Enumerates(iter) && t.Compound? && ValueOk(t, true) && KeysIn(keys, t.fields)
    requires EncFields(t, keys, m, true, iter).Ok? && EncFields(t, keys, m, false, iter).Ok?
    ensures |EncFields(t, keys, m, true, iter).value| <= |EncFields(t, keys, m, false, iter).value|
    decreases t, 0, |keys|
  {
    if |keys| > 0 {
      var k := keys[0];
      var tailKeys := keys[1..];
      var v := t.fields[k];
      var dv := m - 1;
      ChildBelow(t, k);
      FieldOk(t, k, true);
      FieldsSplit(t, keys, m, true, iter);
      FieldsSplit(t, keys, m, false, iter);
      ValueNoLonger(v, dv, iter);
      FieldsNoLonger(t, tailKeys, m, iter);
    }
  }

  lemma {:induction false} ListNoLonger(t: Tag, m: int, iter: Iter)
    requires Enumerates(iter) && t.List? && ValueOk(t, true)
    requires EncValue(t, m, true, iter).Ok? && EncValue(t, m, false, iter).Ok?
    ensures |EncValue(t, m, true, iter).value| <= |EncValue(t, m, false, iter).value|
    ensures 2 <= |t.items| && t.items[0].Compound? ==>
              |EncValue(t, m, true, iter).value| < |EncValue(t, m, false, iter).value|
    decreases t, 1, 0
  {
    var zero := 0;
    if |t.items| == 0 {
      assert EncValue(t, m, true, iter) == EncValue(t, m, false, iter);
    } else if t.items[0].Compound? {
      ListCachedSplit(t, m, true, iter);
      ListPlainSplit(t, m, false, iter);
      var s := |EncStructure(t.items[0], m, iter).value|;
      FixNoLonger(t, zero, m, s, iter);
      var fix := |EncFixElements(t, zero, m, true, iter).value|;
      var plain := |EncElements(t, zero, m, false, iter).value|;
      CopiesOutgrowOne(|t.items|, s, fix, plain);
    } else {
      ListPlainSplit(t, m, true, iter);
      ListPlainSplit(t, m, false, iter);
      ElementsNoLonger(t, zero, m, iter);
    }
  }

  lemma {:induction false} ElementsNoLonger(t: Tag, i: nat, m: int, iter: Iter)
    requires Enumerates(iter) && t.List? && ValueOk(t, true) && i <= |t.items|
    requires EncElements(t, i, m, true, iter).Ok? && EncElements(t, i, m, false, iter).Ok?
    ensures |EncElements(t, i, m, true, iter).value| <= |EncElements(t, i, m, false, iter).value|
    decreases t, 0, |t.items| - i
  {
    if i < |t.items| {
      var j := i + 1;
      var dx := m - 1;
      ItemOk(t, i, true);
      ElementsSplit(t, i, m, true, iter);
      ElementsSplit(t, i, m, false, iter);
      ValueNoLonger(t.items[i], dx, iter);
      ElementsNoLonger(t, j, m, iter);
    }
  }

  /** From index `i` on, the cached elements together with one copy of the
      structure per element take no more bytes than the uncached elements. */
  lemma {:induction false} FixNoLonger(t: Tag, i: nat, m: int, s: nat, iter: Iter)
    requires Enumerates(iter) && t.List? && ValueOk(t, true) && i <= |t.items|
    requires 0 < |t.items| && t.items[0].Compound? && EncStructure(t.items[0], m, iter).Ok?
    requires s == |EncStructure(t.items[0], m, iter).value|
    requires EncFixElements(t, i, m, true, iter).Ok? && EncElements(t, i, m, false, iter).Ok?
    ensures |EncFixElements(t, i, m, true, iter).value| + Copies(|t.items| - i, s) <= |EncElements(t, i, m, false, iter).value|
    decreases t, 0, |t.items| - i, 1
  {
    if i < |t.items| {
      var j := i + 1;
      var k := |t.items| - j;
      FixEntry(t, i, m, s, iter);
      FixNoLonger(t, j, m, s, iter);
      var bare := |EncFixElements(t, i, m, true, iter).value|;
      var whole := |EncElements(t, i, m, false, iter).value|;
      var bareRest := |EncFixElements(t, j, m, true, iter).value|;
      var wholeRest := |EncElements(t, j, m, false, iter).value|;
      OneMoreCopy(k, s, bare - bareRest, whole - wholeRest, bareRest, wholeRest);
    }
  }

  /** One element of each loop: the cached element and one copy of the
      structure take no more bytes than the element written whole. */
  lemma {:induction false} FixEntry(t: Tag, i: nat, m: int, s: nat, iter: Iter)
    requires Enumerates(iter) && t.List? && ValueOk(t, true) && i < |t.items|
    requires t.items[0].Compound? && EncStructure(t.items[0], m, iter).Ok?
    requires s == |EncStructure(t.items[0], m, iter).value|
    requires EncFixElements(t, i, m, true, iter).Ok? && EncElements(t, i, m, false, iter).Ok?
    ensures EncFixElements(t, i + 1, m, true, iter).Ok? && EncElements(t, i + 1, m, false, iter).Ok?
    ensures |EncFixElements(t, i, m, true, iter).value| - |EncFixElements(t, i + 1, m, true, iter).value| + s
         <= |EncElements(t, i, m, false, iter).value| - |EncElements(t, i + 1, m, false, iter).value|
    decreases t, 0, |t.items| - i, 0
  {
    var dx := m - 1;
    var x := t.items[i];
    ItemOk(t, i, true);
    ItemConforms(t, i, true);
    FixElementsSplit(t, i, m, true, iter);
    ElementsSplit(t, i, m, false, iter);
    ElementNoLonger(x, t.items[0], dx, m, iter);
  }

  /** One element of a cached list: its bare values plus the structure of a
      compound it conforms to take no more bytes than the element written
      whole. */
  lemma {:induction false} ElementNoLonger(e: Tag, f: Tag, m: int, ms: int, iter: Iter)
    requires Enumerates(iter) && Conforms(e, f) && ValueOk(e, true)
    requires EncFromList(e, m, true, iter).Ok? && EncValue(e, m, false, iter).Ok? && EncStructure(f, ms, iter).Ok?
    ensures |EncFromList(e, m, true, iter).value| + |EncStructure(f, ms, iter).value| <= |EncValue(e, m, false, iter).value|
    decreases e, 1
  {
    var keys := SortedKeys(iter, e.fields);
    SameKeysSameOrder(iter, e.fields, f.fields);
    CompoundSplit(e, m, false, iter);
    assert EncStructure(f, ms, iter).value == StructureFields(f, keys, ms, iter).value + [0];
    ElementFieldsNoLonger(e, f, keys, m, ms, iter);
  }

  lemma {:induction false} ElementFieldsNoLonger(e: Tag, f: Tag, keys: seq<Key>, m: int, ms: int, iter: Iter)
    requires Enumerates(iter) && Conforms(e, f) && ValueOk(e, true)
    requires KeysIn(keys, e.fields) && KeysIn(keys, f.fields)
    requires EncFromListFields(e, keys, m, true, iter).Ok? && EncFields(e, keys, m, false, iter).Ok?
    requires StructureFields(f, keys, ms, iter).Ok?
    ensures |EncFromListFields(e, keys, m, true, iter).value| + |StructureFields(f, keys, ms, iter).value|
         <= |EncFields(e, keys, m, false, iter).value|
    decreases e, 0, |keys|
  {
    if |keys| > 0 {
      var k := keys[0];
      var tailKeys := keys[1..];
      var v := e.fields[k];
      var vf := f.fields[k];
      var dv := m - 1;
      ChildBelow(e, k);
      FieldOk(e, k, true);
      FieldConforms(e, f, k);
      IdOfKinds(v);
      IdOfKinds(vf);
      FieldsSplit(e, keys, m, false, iter);
      StructureFieldsSplit(f, keys, ms, iter);
      if v.Compound? {
        var dvs := ms - 1;
        FromListNestedSplit(e, keys, m, true, iter);
        StructureNestedSplit(f, keys, ms, iter);
        ElementNoLonger(v, vf, dv, dvs, iter);
      } else {
        FromListLeafSplit(e, keys, m, true, iter);
        ValueNoLonger(v, dv, iter);
      }
      ElementFieldsNoLonger(e, f, tailKeys, m, ms, iter);
    }
  }

  // ----- the arithmetic of the copies -----

  /** `k` copies of something `s` bytes long. */
  function Copies(k: nat, s: nat): (r: nat)
  {
    if k == 0 then 0 else s + Copies(k - 1, s)
  }

  lemma OneMoreCopy(k: nat, s: nat, x: int, y: int, a: int, b: int)
    requires x + s <= y && a + Copies(k, s) <= b
    ensures (x + a) + Copies(k + 1, s) <= y + b
  {
  }

  lemma CopiesOutgrowOne(n: nat, s: nat, fix: int, plain: int)
    requires fix + Copies(n, s) <= plain && s > 0
    ensures n >= 1 ==> s + fix <= plain
    ensures n >= 2 ==> s + fix < plain
  {
    if n >= 2 {
      assert Copies(n, s) == s + s + Copies(n - 2, s);
    }
  }

  /** A list of two or more compounds that writes both with the cache and
      without it is strictly shorter with the cache. */
  lemma CacheShortensList(t: Tag, d: int, iter: Iter)
    requires Enumerates(iter) && t.List? && ValueOk(t, true) && 2 <= |t.items| && t.items[0].Compound?
    requires SerializeValue(t, d, true, iter).Ok? && SerializeValue(t, d, false, iter).Ok?
    ensures |SerializeValue(t, d, true, iter).value| < |SerializeValue(t, d, false, iter).value|
  {
    ListNoLonger(t, d, iter);
  }
}
