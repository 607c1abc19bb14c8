/** The envelope codec writes a compound's children in the order its
    dictionary yields them, so the bytes depend on that order while what they
    read back as does not. */
module EnvelopeOrder {
  import opened Results
  import opened DataStream
  import opened KeyOrder
  import opened EnvelopeTag
  import opened EnvelopeCodec
  import opened EnvelopeProofs
  import opened EnvelopeRoot

  /** A compound's value opens with its first child's id and then that
      child's name: the length byte and the key. */
  lemma FirstName(t: Tag, d: int, rev: Revision, iter: Iter)
    requires Enumerates(iter) && t.Compound? && ValueOk(t, rev)
    requires |DictKeys(iter, t.fields)| > 0 && EncValue(t, d, rev, iter).Ok?
    ensures var k := DictKeys(iter, t.fields)[0];
            var v := EncValue(t, d, rev, iter).value;
            |v| >= 2 + |k| && v[1] == |k| && v[2..2 + |k|] == k
  {
    var keys := DictKeys(iter, t.fields);
    var k := keys[0];
    FieldOk(t, k, rev);
    var child := t.fields[k];
    assert IdOf(child, rev) != EndId;
    CompoundSplit(t, d, rev, iter);
    FieldsSplit(t, keys, d, rev, iter);
    var fields := EncFields(t, keys, d, rev, iter).value;
    var value := EncValue(child, d - 1, rev, iter).value;
    var more := EncFields(t, keys[1..], d, rev, iter).value;
    NameAt(EncValue(t, d, rev, iter).value, fields, Code(IdOf(child, rev)), k, value, more);
  }

  /** Where a name sits after an id byte. */
  lemma NameAt(x: Bytes, fields: Bytes, c: byte, k: Key, value: Bytes, more: Bytes)
    requires WriteString(k).Ok? && |k| > 0
    requires x == fields + [0] && fields == [c] + WriteString(k).value + value + more
    ensures |x| >= 2 + |k| && x[1] == |k| && x[2..2 + |k|] == k
  {
    assert WriteString(k).value == [|k|] + k;
    assert x == [c] + ([|k|] + (k + (value + more + [0])));
  }

  /** Two iteration orders that put different keys first give different
      bytes for the same compound, and both read back as that compound. */
  lemma OrderShows(m: map<Key, Tag>, i1: Iter, i2: Iter, d: int, d': int, rev: Revision, rest: Bytes)
    requires Enumerates(i1) && Enumerates(i2) && ValueOk(Compound(m), rev) && d <= d'
    requires |DictKeys(i1, m)| > 0 && |DictKeys(i2, m)| > 0
    requires DictKeys(i1, m)[0] != DictKeys(i2, m)[0]
    requires Serialize(Compound(m), d, rev, i1).Ok? && Serialize(Compound(m), d, rev, i2).Ok?
    ensures Serialize(Compound(m), d, rev, i1) != Serialize(Compound(m), d, rev, i2)
    ensures Deserialize(Serialize(Compound(m), d, rev, i1).value + rest, d') == Ok((Compound(m), rest))
    ensures Deserialize(Serialize(Compound(m), d, rev, i2).value + rest, d') == Ok((Compound(m), rest))
  {
    var t := Compound(m);
    RoundTrip(t, d, d', rev, i1, rest);
    RoundTrip(t, d, d', rev, i2, rest);
    var v1 := EncValue(t, d, rev, i1).value;
    var v2 := EncValue(t, d, rev, i2).value;
    FirstName(t, d, rev, i1);
    FirstName(t, d, rev, i2);
    var k1 := DictKeys(i1, m)[0];
    var k2 := DictKeys(i2, m)[0];
    if Serialize(t, d, rev, i1) == Serialize(t, d, rev, i2) {
      var head: Bytes := [Magic, Version, Code(CompoundId)];
      BodyOfSame(head, v1, v2);
      assert false;
    }
  }

  lemma BodyOfSame(head: Bytes, v1: Bytes, v2: Bytes)
    requires head + v1 == head + v2
    ensures v1 == v2
  {
    assert v1 == (head + v1)[|head|..];
    assert v2 == (head + v2)[|head|..];
  }

  /** Whatever order the dictionary yields its keys in, every compound the
      codec accepts and writes reads back as itself: two orders give the same
      tag even where they give different bytes. */
  lemma SameTagAnyOrder(m: map<Key, Tag>, i1: Iter, i2: Iter, d: int, d': int, rev: Revision, rest: Bytes)
    requires Enumerates(i1) && Enumerates(i2) && ValueOk(Compound(m), rev) && d <= d'
    requires Serialize(Compound(m), d, rev, i1).Ok? && Serialize(Compound(m), d, rev, i2).Ok?
    ensures Deserialize(Serialize(Compound(m), d, rev, i1).value + rest, d')
         == Deserialize(Serialize(Compound(m), d, rev, i2).value + rest, d')
  {
    RoundTrip(Compound(m), d, d', rev, i1, rest);
    RoundTrip(Compound(m), d, d', rev, i2, rest);
  }
}
