/** The round trip of the envelope codec: every tag the codec of revision
    `rev` accepts (`ValueOk`) and manages to write within its depth budget
    reads back as itself, whatever order the dictionaries yield their keys
    in, provided the reader's budget is at least the writer's. */
module EnvelopeRoundTrip {
  import opened Results
  import opened DataStream
  import opened KeyOrder
  import opened MaxDepth
  import opened EnvelopeTag
  import opened EnvelopeCodec
  import opened EnvelopeProofs

  // ----- the entries of each loop -----

  /** A field of a compound: its id and name, its value, then the fields
      after it. */
  lemma {:induction false} FieldEntry(t: Tag, keys: seq<Key>, tailKeys: seq<Key>, d: int, d': int, rev: Revision,
                   iter: Iter, rest: Bytes, v: Tag, dv: int, ddv: int, tail: Bytes)
    requires Enumerates(iter) && t.Compound? && |keys| > 0 && tailKeys == keys[1..]
    requires KeysIn(keys, t.fields)
    requires v == t.fields[keys[0]] && |keys[0]| > 0 && IdOf(v, rev) != EndId
    requires d <= d' && dv == d - 1 && ddv == d' - 1
    requires EncFields(t, tailKeys, d, rev, iter).Ok? ==> tail == EncFields(t, tailKeys, d, rev, iter).value + [0] + rest
    requires EncFields(t, tailKeys, d, rev, iter).Ok? ==>
               DecFields(EncFields(t, tailKeys, d, rev, iter).value + [0] + rest, d')
               == Ok((Pick(t.fields, tailKeys), rest))
    requires EncValue(v, dv, rev, iter).Ok? ==>
               DecValue(IdOf(v, rev), EncValue(v, dv, rev, iter).value + tail, ddv) == Ok((v, tail))
    ensures EncFields(t, keys, d, rev, iter).Ok? ==>
              DecFields(EncFields(t, keys, d, rev, iter).value + [0] + rest, d')
              == Ok((Pick(t.fields, keys), rest))
  {
    if EncFields(t, keys, d, rev, iter).Ok? {
      var k := keys[0];
      FieldsSplit(t, keys, d, rev, iter);
      var value := EncValue(v, dv, rev, iter).value;
      var more := EncFields(t, tailKeys, d, rev, iter).value;
      FieldEntryBytes(IdOf(v, rev), k, value, tail, v, Pick(t.fields, tailKeys), rest, d');
      Regroup(EncFields(t, keys, d, rev, iter).value, Code(IdOf(v, rev)), WriteString(k).value, value, more, rest);
      PickCons(t.fields, keys);
    }
  }

  /** An element of a list: its value, then the elements after it. */
  lemma {:induction false} ElementEntry(t: Tag, i: nat, j: nat, d: int, d': int, rev: Revision, iter: Iter, rest: Bytes,
                     x: Tag, dx: int, ddx: int, tail: Bytes)
    requires Enumerates(iter) && t.List? && i < |t.items| && j == i + 1 && d <= d'
    requires x == t.items[i] && IdOf(x, rev) == IdOf(t.items[0], rev) && IdOf(x, rev) != EndId
    requires dx == d - 1 && ddx == d' - 1
    requires EncElements(t, j, d, rev, iter).Ok? ==> tail == EncElements(t, j, d, rev, iter).value + rest
    requires EncElements(t, j, d, rev, iter).Ok? ==>
               DecElements(Code(IdOf(t.items[0], rev)), |t.items| - j, EncElements(t, j, d, rev, iter).value + rest, d')
               == Ok((t.items[j..], rest))
    requires EncValue(x, dx, rev, iter).Ok? ==>
               DecValue(IdOf(x, rev), EncValue(x, dx, rev, iter).value + tail, ddx) == Ok((x, tail))
    ensures EncElements(t, i, d, rev, iter).Ok? ==>
              DecElements(Code(IdOf(t.items[0], rev)), |t.items| - i, EncElements(t, i, d, rev, iter).value + rest, d')
              == Ok((t.items[i..], rest))
  {
    if EncElements(t, i, d, rev, iter).Ok? {
      ElementsSplit(t, i, d, rev, iter);
      var ty := Code(IdOf(t.items[0], rev));
      var count := |t.items| - i;
      var whole := EncElements(t, i, d, rev, iter).value;
      var value := EncValue(x, dx, rev, iter).value;
      var more := EncElements(t, j, d, rev, iter).value;
      var xs := t.items[j..];
      FromIdOfCode(IdOf(x, rev));
      assert Decrement(d') == Ok(ddx);
      ElementsStep(ty, count, value + tail, d', IdOf(x, rev), x, tail, xs, rest);
      Assoc3(whole, value, more, rest);
      SuffixCons(t.items, i);
    }
  }

  /** A non-empty list: its count, its element id, then its elements. */
  lemma {:induction false} ListEntry(t: Tag, zero: nat, d: int, d': int, rev: Revision, iter: Iter, rest: Bytes)
    requires Enumerates(iter) && t.List? && |t.items| > 0 && zero == 0
    requires EncElements(t, zero, d, rev, iter).Ok? ==>
               DecElements(Code(IdOf(t.items[0], rev)), |t.items| - zero, EncElements(t, zero, d, rev, iter).value + rest, d')
               == Ok((t.items[zero..], rest))
    ensures EncValue(t, d, rev, iter).Ok? ==>
              DecValue(ListId, EncValue(t, d, rev, iter).value + rest, d') == Ok((t, rest))
  {
    if EncValue(t, d, rev, iter).Ok? {
      ListSplit(t, d, rev, iter);
      var ty := Code(IdOf(t.items[0], rev));
      var values := EncElements(t, zero, d, rev, iter).value;
      assert t.items[zero..] == t.items;
      ListBytes(|t.items|, ty, values, rest, t.items, d');
      Assoc4(EncValue(t, d, rev, iter).value, WriteUnsigned(|t.items|, 4), [ty], values, rest);
    }
  }

  // ----- the round trip -----

  /** A value the codec accepts reads back as itself when its bytes are read
      with a depth budget at least the writer's. */
  lemma {:induction false} ValueRoundTrip(t: Tag, d: int, d': int, rev: Revision, iter: Iter, rest: Bytes)
    requires Enumerates(iter) && ValueOk(t, rev) && d <= d'
    ensures EncValue(t, d, rev, iter).Ok? ==>
              DecValue(IdOf(t, rev), EncValue(t, d, rev, iter).value + rest, d') == Ok((t, rest))
    decreases t, 2, 0
  {
    if t.List? {
      ListRoundTrip(t, d, d', rev, iter, rest);
    } else if t.Compound? {
      CompoundRoundTrip(t, d, d', rev, iter, rest);
    } else {
      ScalarRoundTrip(t, d, d', rev, iter, rest);
    }
  }

  /** A compound's children, in the dictionary's own order, then `0`, read
      back as the same map. */
  lemma {:induction false} CompoundRoundTrip(t: Tag, d: int, d': int, rev: Revision, iter: Iter, rest: Bytes)
    requires Enumerates(iter) && t.Compound? && ValueOk(t, rev) && d <= d'
    ensures EncValue(t, d, rev, iter).Ok? ==>
              DecValue(CompoundId, EncValue(t, d, rev, iter).value + rest, d') == Ok((t, rest))
    decreases t, 1, 0
  {
    var keys := DictKeys(iter, t.fields);
    FieldsRoundTrip(t, keys, d, d', rev, iter, rest);
    if EncValue(t, d, rev, iter).Ok? {
      CompoundSplit(t, d, rev, iter);
      PickAll(t.fields, keys);
      CompoundStep(EncValue(t, d, rev, iter).value + rest, d', t.fields, rest);
    }
  }

  lemma {:induction false} FieldsRoundTrip(t: Tag, keys: seq<Key>, d: int, d': int, rev: Revision, iter: Iter, rest: Bytes)
    requires Enumerates(iter) && t.Compound? && ValueOk(t, rev) && d <= d'
    requires KeysIn(keys, t.fields)
    ensures EncFields(t, keys, d, rev, iter).Ok? ==>
              DecFields(EncFields(t, keys, d, rev, iter).value + [0] + rest, d')
              == Ok((Pick(t.fields, keys), rest))
    decreases t, 0, |keys|
  {
    if |keys| == 0 {
      assert Pick(t.fields, keys) == map[];
      assert EncFields(t, keys, d, rev, iter).value + [0] + rest == [0] + rest;
    } else {
      var k := keys[0];
      var tailKeys := keys[1..];
      var v := t.fields[k];
      var dv := d - 1;
      var ddv := d' - 1;
      FieldOk(t, k, rev);
      ChildBelow(t, k);
      FieldsRoundTrip(t, tailKeys, d, d', rev, iter, rest);
      var more := EncFields(t, tailKeys, d, rev, iter);
      var tail := if more.Ok? then more.value + [0] + rest else rest;
      ValueRoundTrip(v, dv, ddv, rev, iter, tail);
      FieldEntry(t, keys, tailKeys, d, d', rev, iter, rest, v, dv, ddv, tail);
    }
  }

  lemma {:induction false} ListRoundTrip(t: Tag, d: int, d': int, rev: Revision, iter: Iter, rest: Bytes)
    requires Enumerates(iter) && t.List? && ValueOk(t, rev) && d <= d'
    ensures EncValue(t, d, rev, iter).Ok? ==>
              DecValue(ListId, EncValue(t, d, rev, iter).value + rest, d') == Ok((t, rest))
    decreases t, 1, 0
  {
    if |t.items| == 0 {
      Pow256Widths();
      UnsignedRoundTrip(0, 4, rest);
    } else {
      var zero := 0;
      ElementsRoundTrip(t, zero, d, d', rev, iter, rest);
      ListEntry(t, zero, d, d', rev, iter, rest);
    }
  }

  lemma {:induction false} ElementsRoundTrip(t: Tag, i: nat, d: int, d': int, rev: Revision, iter: Iter, rest: Bytes)
    requires Enumerates(iter) && t.List? && 0 < |t.items| && i <= |t.items| && ValueOk(t, rev) && d <= d'
    ensures EncElements(t, i, d, rev, iter).Ok? ==>
              DecElements(Code(IdOf(t.items[0], rev)), |t.items| - i, EncElements(t, i, d, rev, iter).value + rest, d')
              == Ok((t.items[i..], rest))
    decreases t, 0, |t.items| - i
  {
    if i == |t.items| {
      assert EncElements(t, i, d, rev, iter).value + rest == rest;
      assert t.items[i..] == [];
    } else {
      var j := i + 1;
      var x := t.items[i];
      var dx := d - 1;
      var ddx := d' - 1;
      ItemOk(t, i, rev);
      ElementsRoundTrip(t, j, d, d', rev, iter, rest);
      var more := EncElements(t, j, d, rev, iter);
      var tail := if more.Ok? then more.value + rest else rest;
      ValueRoundTrip(x, dx, ddx, rev, iter, tail);
      ElementEntry(t, i, j, d, d', rev, iter, rest, x, dx, ddx, tail);
    }
  }
}
