/** Which tags the structure-cached codec writes.  Every write that fails
    overflows a length field (`UInt8(data.count)` for a name or a string,
    `UInt32(value.count)` for a count), runs out of nesting budget in
    `decrementMaxDepth`, asks an End for the `tagID()` it lacks, or, with the
    cache on, meets a list element that is not a compound.  `Fits` rules out
    the first and third below the root and `DepthAtMost` the second.
    With the cache off the two together are exactly the tags that write;
    with it on they suffice for every tag the codec reads back. */
module CachedBudget {
  import opened Results
  import opened DataStream
  import opened KeyOrder
  import opened MaxDepth
  import opened CachedTag
  import opened CachedCodec
  import CachedRoot

  /** Every length the tree writes fits its field, names and strings in one
      byte and counts in four, and no End stands where its id is asked for:
      as a compound's child or a list's first element. */
  predicate Fits(t: Tag)
    decreases t, 1
  {
    match t
    case Str(text) => |text| <= MaxStringBytes
    case ByteArray(xs) => |xs| < CountLimit
    case List(items) =>
      |items| < CountLimit && (|items| > 0 ==> !items[0].End?)
      && forall i :: 0 <= i < |items| ==> Fits(items[i])
    case Compound(_) => forall k :: k in t.fields ==> ChildFits(t, k)
    case _ => true
  }

  /** What `Fits` asks of one child of a compound. */
  predicate ChildFits(t: Tag, k: Key)
    requires t.Compound?
    decreases t, 0
  {
    k in t.fields && !t.fields[k].End? && |k| <= MaxStringBytes && Fits(t.fields[k])
  }

  /** Every compound, and every child of a list or compound, lies at most
      `n` levels down.  A compound spends one unit of budget on its End
      terminator, so even an empty compound needs a positive budget. */
  predicate DepthAtMost(t: Tag, n: int)
    decreases t, 1
  {
    match t
    case List(items) => forall i :: 0 <= i < |items| ==> n > 0 && DepthAtMost(items[i], n - 1)
    case Compound(_) => n > 0 && forall k :: k in t.fields ==> ChildWithin(t, k, n)
    case _ => true
  }

  /** What `DepthAtMost` asks of one child of a compound. */
  predicate ChildWithin(t: Tag, k: Key, n: int)
    requires t.Compound?
    decreases t, 0
  {
    k in t.fields && n > 0 && DepthAtMost(t.fields[k], n - 1)
  }

  // ----- with the cache off: exactly the tags that fit and are shallow enough -----

  /** With the cache off, a value writes exactly when its lengths fit and its
      nesting is within the budget; a value whose lengths fit fails, if at
      all, for the budget. */
  lemma {:induction false} ValueBudget(t: Tag, d: int, iter: Iter)
    requires Enumerates(iter)
    ensures SerializeValue(t, d, false, iter).Ok? <==> Fits(t) && DepthAtMost(t, d)
    ensures Fits(t) && SerializeValue(t, d, false, iter).Err? ==>
              SerializeValue(t, d, false, iter).error == Trap(DepthExhausted)
    decreases t, 1, 1
  {
    match t
    case List(_) => ListBudget(t, d, iter);
    case Compound(_) => CompoundBudget(t, d, iter);
    case _ =>
  }

  lemma {:induction false} ListBudget(t: Tag, d: int, iter: Iter)
    requires Enumerates(iter) && t.List?
    ensures SerializeValue(t, d, false, iter).Ok? <==> Fits(t) && DepthAtMost(t, d)
    ensures Fits(t) && SerializeValue(t, d, false, iter).Err? ==>
              SerializeValue(t, d, false, iter).error == Trap(DepthExhausted)
    decreases t, 1, 0
  {
    var zero := 0;
    var n := |t.items|;
    var out := SerializeValue(t, d, false, iter);
    var values := SerializeElements(t, zero, d, false, iter);
    ElementsBudget(t, zero, d, iter);
    assert Fits(t) <==> n < CountLimit && (n > 0 ==> !t.items[0].End?) && forall j :: 0 <= j < n ==> Fits(t.items[j]);
    assert DepthAtMost(t, d) <==> forall j :: 0 <= j < n ==> d > 0 && DepthAtMost(t.items[j], d - 1);
    if n == 0 {
      assert out == Ok(WriteCount(n).value);
    } else if n >= CountLimit {
      assert out == Err(WriteCount(n).error);
    } else if t.items[0].End? {
      assert out == Err(Trap(MissingOverride));
    } else {
      var count := WriteCount(n);
      assert out == if values.Err? then values else Ok(count.value + [Code(IdOf(t.items[0]))] + values.value);
    }
  }

  lemma {:induction false} CompoundBudget(t: Tag, d: int, iter: Iter)
    requires Enumerates(iter) && t.Compound?
    ensures SerializeValue(t, d, false, iter).Ok? <==> Fits(t) && DepthAtMost(t, d)
    ensures Fits(t) && SerializeValue(t, d, false, iter).Err? ==>
              SerializeValue(t, d, false, iter).error == Trap(DepthExhausted)
    decreases t, 1, 0
  {
    var keys := SortedKeys(iter, t.fields);
    var out := SerializeValue(t, d, false, iter);
    var children := SerializeFields(t, keys, d, false, iter);
    assert out.Ok? <==> children.Ok? && d > 0;
    assert out.Err? ==> out.error == if children.Err? then children.error else Trap(DepthExhausted);
    SortedKeysSpec(iter, t.fields);
    ListsDistinct(keys, t.fields.Keys);
    FieldsBudget(t, keys, d, iter);
    assert (forall k :: k in keys ==> ChildFits(t, k)) <==> Fits(t);
    assert d > 0 && (forall k :: k in keys ==> ChildWithin(t, k, d)) <==> DepthAtMost(t, d);
  }

  /** With the cache off, the children from `keys` on write exactly when
      each fits and lies within one level less of the budget. */
  lemma {:induction false} FieldsBudget(t: Tag, keys: seq<Key>, d: int, iter: Iter)
    requires Enumerates(iter) && t.Compound? && KeysIn(keys, t.fields)
    ensures SerializeFields(t, keys, d, false, iter).Ok? <==>
              forall k :: k in keys ==> ChildFits(t, k) && ChildWithin(t, k, d)
    ensures (forall k :: k in keys ==> ChildFits(t, k)) && SerializeFields(t, keys, d, false, iter).Err? ==>
              SerializeFields(t, keys, d, false, iter).error == Trap(DepthExhausted)
    decreases t, 0, |keys|
  {
    if |keys| > 0 {
      var k := keys[0];
      var tailKeys := keys[1..];
      var v := t.fields[k];
      var dv := d - 1;
      ChildBelow(t, k);
      FieldsBudget(t, tailKeys, d, iter);
      assert k in keys && forall k' :: k' in keys <==> k' == k || k' in tailKeys;
      if d > 0 {
        var named := SerializeNamed(v, k, dv, false, iter);
        var more := SerializeFields(t, tailKeys, d, false, iter);
        assert SerializeFields(t, keys, d, false, iter) ==
               if named.Err? then named else if more.Err? then more else Ok(named.value + more.value);
        ValueBudget(v, dv, iter);
        assert named.Ok? <==> ChildFits(t, k) && ChildWithin(t, k, d);
        assert (forall k' :: k' in keys ==> ChildFits(t, k') && ChildWithin(t, k', d)) <==>
               named.Ok? && forall k' :: k' in tailKeys ==> ChildFits(t, k') && ChildWithin(t, k', d);
      }
    }
  }

  /** With the cache off, the elements from index `i` on write exactly when
      each fits and lies within one level less of the budget. */
  lemma {:induction false} ElementsBudget(t: Tag, i: nat, d: int, iter: Iter)
    requires Enumerates(iter) && t.List? && i <= |t.items|
    ensures SerializeElements(t, i, d, false, iter).Ok? <==>
              forall j :: i <= j < |t.items| ==> Fits(t.items[j]) && d > 0 && DepthAtMost(t.items[j], d - 1)
    ensures (forall j :: i <= j < |t.items| ==> Fits(t.items[j])) && SerializeElements(t, i, d, false, iter).Err? ==>
              SerializeElements(t, i, d, false, iter).error == Trap(DepthExhausted)
    decreases t, 0, |t.items| - i
  {
    if i < |t.items| {
      var j := i + 1;
      var dx := d - 1;
      var x := t.items[i];
      ElementsBudget(t, j, d, iter);
      if d > 0 {
        var value := SerializeValue(x, dx, false, iter);
        var more := SerializeElements(t, j, d, false, iter);
        assert SerializeElements(t, i, d, false, iter) ==
               if value.Err? then value else if more.Err? then more else Ok(value.value + more.value);
        ValueBudget(x, dx, iter);
        ItemsSplit(t, i, d);
      }
    }
  }

  /** The elements from index `i` on are the element at `i` and those after. */
  lemma ItemsSplit(t: Tag, i: nat, d: int)
    requires t.List? && i < |t.items|
    ensures (forall m :: i <= m < |t.items| ==> Fits(t.items[m]) && d > 0 && DepthAtMost(t.items[m], d - 1)) <==>
            Fits(t.items[i]) && d > 0 && DepthAtMost(t.items[i], d - 1) &&
            forall m :: i + 1 <= m < |t.items| ==> Fits(t.items[m]) && d > 0 && DepthAtMost(t.items[m], d - 1)
    ensures (forall m :: i <= m < |t.items| ==> Fits(t.items[m])) <==>
            Fits(t.items[i]) && forall m :: i + 1 <= m < |t.items| ==> Fits(t.items[m])
  {
  }

  /** With the cache off, the root writes exactly when it is not End, its
      lengths fit and its nesting is within the budget; otherwise, when it is
      not End and the lengths fit, the write stops for the budget. */
  lemma SerializeBudget(t: Tag, d: int, iter: Iter)
    requires Enumerates(iter)
    ensures Serialize(t, d, false, iter).Ok? <==> !t.End? && Fits(t) && DepthAtMost(t, d)
    ensures !t.End? && Fits(t) && Serialize(t, d, false, iter).Err? ==>
              Serialize(t, d, false, iter).error == Trap(DepthExhausted)
  {
    ValueBudget(t, d, iter);
    assert WriteString([]) == Ok([]);
  }

  // ----- with either setting of the cache: the budget suffices -----

  /** A tag the codec reads back writes, with the cache on or off, whenever
      its lengths fit and its nesting is within the budget. */
  lemma {:induction false} ValueWrites(t: Tag, d: int, cache: bool, iter: Iter)
    requires Enumerates(iter) && ValueOk(t, cache) && Fits(t) && DepthAtMost(t, d)
    ensures SerializeValue(t, d, cache, iter).Ok?
    decreases t, 1, 1
  {
    match t
    case List(_) => ListWrites(t, d, cache, iter);
    case Compound(_) => CompoundWrites(t, d, cache, iter);
    case _ =>
  }

  lemma {:induction false} CompoundWrites(t: Tag, d: int, cache: bool, iter: Iter)
    requires Enumerates(iter) && t.Compound? && ValueOk(t, cache) && Fits(t) && DepthAtMost(t, d)
    ensures SerializeValue(t, d, cache, iter).Ok?
    decreases t, 1, 0
  {
    var keys := SortedKeys(iter, t.fields);
    FieldsWrite(t, keys, d, cache, iter);
  }

  lemma {:induction false} FieldsWrite(t: Tag, keys: seq<Key>, d: int, cache: bool, iter: Iter)
    requires Enumerates(iter) && t.Compound? && KeysIn(keys, t.fields)
    requires ValueOk(t, cache) && Fits(t) && DepthAtMost(t, d)
    ensures SerializeFields(t, keys, d, cache, iter).Ok?
    decreases t, 0, |keys|
  {
    if |keys| > 0 {
      var k := keys[0];
      var tailKeys := keys[1..];
      NamedWrites(t, k, d, cache, iter);
      FieldsWrite(t, tailKeys, d, cache, iter);
      FieldsStep(t, keys, d, cache, iter);
    }
  }

  /** The children from `keys` on write when the first does with its name
      and the rest do. */
  lemma FieldsStep(t: Tag, keys: seq<Key>, d: int, cache: bool, iter: Iter)
    requires Enumerates(iter) && t.Compound? && KeysIn(keys, t.fields) && |keys| > 0 && d > 0
    requires SerializeNamed(t.fields[keys[0]], keys[0], d - 1, cache, iter).Ok?
    requires SerializeFields(t, keys[1..], d, cache, iter).Ok?
    ensures SerializeFields(t, keys, d, cache, iter).Ok?
  {
  }

  /** One child of a compound that fits and lies within the budget writes
      with its name. */
  lemma {:induction false} NamedWrites(t: Tag, k: Key, d: int, cache: bool, iter: Iter)
    requires Enumerates(iter) && t.Compound? && k in t.fields
    requires ValueOk(t, cache) && Fits(t) && DepthAtMost(t, d)
    ensures d > 0 && SerializeNamed(t.fields[k], k, d - 1, cache, iter).Ok?
    decreases t, 0, 0, 0
  {
    var v := t.fields[k];
    var dv := d - 1;
    ChildBelow(t, k);
    FieldOk(t, k, cache);
    assert ChildFits(t, k) && ChildWithin(t, k, d);
    ValueWrites(v, dv, cache, iter);
  }

  lemma {:induction false} ListWrites(t: Tag, d: int, cache: bool, iter: Iter)
    requires Enumerates(iter) && t.List? && ValueOk(t, cache) && Fits(t) && DepthAtMost(t, d)
    ensures SerializeValue(t, d, cache, iter).Ok?
    decreases t, 1, 0
  {
    var zero := 0;
    if |t.items| > 0 {
      var first := t.items[0];
      if cache && IdOf(first) == CompoundId {
        IdOfKinds(first);
        ItemOk(t, zero, cache);
        StructureWrites(first, d, cache, iter);
        FixElementsWrite(t, zero, d, cache, iter);
      } else {
        ElementsWrite(t, zero, d, cache, iter);
      }
    }
  }

  lemma {:induction false} ElementsWrite(t: Tag, i: nat, d: int, cache: bool, iter: Iter)
    requires Enumerates(iter) && t.List? && i <= |t.items|
    requires ValueOk(t, cache) && Fits(t) && DepthAtMost(t, d)
    ensures SerializeElements(t, i, d, cache, iter).Ok?
    decreases t, 0, |t.items| - i
  {
    if i < |t.items| {
      var j := i + 1;
      var dx := d - 1;
      ItemOk(t, i, cache);
      ValueWrites(t.items[i], dx, cache, iter);
      ElementsWrite(t, j, d, cache, iter);
    }
  }

  lemma {:induction false} FixElementsWrite(t: Tag, i: nat, d: int, cache: bool, iter: Iter)
    requires Enumerates(iter) && t.List? && i <= |t.items| && 0 < |t.items| && t.items[0].Compound?
    requires ValueOk(t, cache) && Fits(t) && DepthAtMost(t, d)
    ensures SerializeFixElements(t, i, d, cache, iter).Ok?
    decreases t, 0, |t.items| - i
  {
    if i < |t.items| {
      var j := i + 1;
      var dx := d - 1;
      var x := t.items[i];
      ItemOk(t, i, cache);
      IdOfKinds(x);
      IdOfKinds(t.items[0]);
      FromListWrites(x, dx, cache, iter);
      FixElementsWrite(t, j, d, cache, iter);
    }
  }

  /** A list element's bare values write whenever the element's lengths fit
      and its nesting is within the budget. */
  lemma {:induction false} FromListWrites(e: Tag, m: int, cache: bool, iter: Iter)
    requires Enumerates(iter) && e.Compound? && ValueOk(e, cache) && Fits(e) && DepthAtMost(e, m)
    ensures SerializeFromList(e, m, cache, iter).Ok?
    decreases e, 1, 0
  {
    var keys := SortedKeys(iter, e.fields);
    FromListFieldsWrite(e, keys, m, cache, iter);
  }

  lemma {:induction false} FromListFieldsWrite(e: Tag, keys: seq<Key>, m: int, cache: bool, iter: Iter)
    requires Enumerates(iter) && e.Compound? && KeysIn(keys, e.fields)
    requires ValueOk(e, cache) && Fits(e) && DepthAtMost(e, m)
    ensures FromListFields(e, keys, m, cache, iter).Ok?
    decreases e, 0, |keys|
  {
    if |keys| > 0 {
      var k := keys[0];
      var tailKeys := keys[1..];
      var v := e.fields[k];
      var dv := m - 1;
      ChildBelow(e, k);
      FieldOk(e, k, cache);
      assert ChildFits(e, k) && ChildWithin(e, k, m);
      if v.Compound? {
        FromListWrites(v, dv, cache, iter);
      } else {
        ValueWrites(v, dv, cache, iter);
      }
      FromListFieldsWrite(e, tailKeys, m, cache, iter);
    }
  }

  /** The structure of the first element of a list written at budget `m`
      writes: the element lies one level below the list, and every nested
      compound one level below its parent. */
  lemma {:induction false} StructureWrites(f: Tag, m: int, cache: bool, iter: Iter)
    requires Enumerates(iter) && f.Compound? && ValueOk(f, cache) && Fits(f) && DepthAtMost(f, m - 1)
    ensures SerializeStructure(f, m, iter).Ok?
    decreases f, 1
  {
    var keys := SortedKeys(iter, f.fields);
    StructureFieldsWrite(f, keys, m, cache, iter);
  }

  lemma {:induction false} StructureFieldsWrite(f: Tag, keys: seq<Key>, m: int, cache: bool, iter: Iter)
    requires Enumerates(iter) && f.Compound? && KeysIn(keys, f.fields)
    requires ValueOk(f, cache) && Fits(f) && DepthAtMost(f, m - 1)
    ensures StructureFields(f, keys, m, iter).Ok?
    decreases f, 0, |keys|
  {
    if |keys| > 0 {
      var k := keys[0];
      var tailKeys := keys[1..];
      var v := f.fields[k];
      ChildBelow(f, k);
      FieldOk(f, k, cache);
      assert ChildFits(f, k) && ChildWithin(f, k, m - 1);
      if v.Compound? {
        var dv := m - 1;
        StructureWrites(v, dv, cache, iter);
        assert NestedStructure(v, m, iter).Ok?;
      }
      StructureFieldsWrite(f, tailKeys, m, cache, iter);
    }
  }

  /** With the cache on or off, a tag the codec reads back writes whenever
      its lengths fit and its nesting is within the budget. */
  lemma SerializeWrites(t: Tag, d: int, cache: bool, iter: Iter)
    requires Enumerates(iter) && ValueOk(t, cache) && Fits(t) && DepthAtMost(t, d)
    ensures Serialize(t, d, cache, iter).Ok?
  {
    ValueWrites(t, d, cache, iter);
  }

  // ----- a chain of nested compounds -----

  /** `n` compounds, each the only child of the one above, around a byte. */
  function Nest(n: nat): (t: Tag)
    ensures n > 0 <==> t.Compound?
  {
    if n == 0 then Byte(0) else Compound(map[[0x61] := Nest(n - 1)])
  }

  /** A compound with one short-named child writes exactly when the budget
      is positive and the child writes one level down; a failure is the
      budget's or the child's. */
  lemma OneChild(t: Tag, k: Key, v: Tag, d: int, cache: bool, iter: Iter)
    requires Enumerates(iter) && t == Compound(map[k := v]) && 0 < |k| <= MaxStringBytes && !v.End?
    ensures SerializeValue(t, d, cache, iter).Ok? <==> d > 0 && SerializeValue(v, d - 1, cache, iter).Ok?
    ensures SerializeValue(t, d, cache, iter).Err? ==>
              SerializeValue(t, d, cache, iter).error ==
              if d > 0 then SerializeValue(v, d - 1, cache, iter).error else Trap(DepthExhausted)
  {
    CachedRoot.SingleKey(iter, k, v);
    var keys := SortedKeys(iter, t.fields);
    assert keys == [k] && keys[1..] == [];
    var children := SerializeFields(t, keys, d, cache, iter);
    if d > 0 {
      var dv := d - 1;
      var named := SerializeNamed(v, k, dv, cache, iter);
      var value := SerializeValue(v, dv, cache, iter);
      assert named.Ok? <==> value.Ok?;
      assert named.Err? ==> named.error == value.error;
      var more := SerializeFields(t, keys[1..], d, cache, iter);
      assert more == Ok([]);
      assert children == if named.Err? then named else Ok(named.value + []);
    }
  }

  /** With the cache on or off, a chain `n` compounds deep writes exactly
      when the budget is at least `n`; a deeper chain stops for the budget. */
  lemma {:induction false} NestValue(n: nat, d: int, cache: bool, iter: Iter)
    requires Enumerates(iter)
    ensures SerializeValue(Nest(n), d, cache, iter).Ok? <==> n == 0 || n <= d
    ensures n > 0 && n > d ==> SerializeValue(Nest(n), d, cache, iter) == Err(Trap(DepthExhausted))
  {
    if n > 0 {
      var k: Key := [0x61];
      var dv := d - 1;
      OneChild(Nest(n), k, Nest(n - 1), d, cache, iter);
      NestValue(n - 1, dv, cache, iter);
    }
  }

  lemma NestBudget(n: nat, d: int, cache: bool, iter: Iter)
    requires Enumerates(iter)
    ensures Serialize(Nest(n), d, cache, iter).Ok? <==> n == 0 || n <= d
    ensures n > 0 && n > d ==> Serialize(Nest(n), d, cache, iter) == Err(Trap(DepthExhausted))
  {
    NestValue(n, d, cache, iter);
  }
}
