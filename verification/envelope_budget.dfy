/** Which tags the envelope codec writes.  Every write that fails
    overflows a length field (`UInt8(data.count)` for a name or a string,
    `UInt32(value.count)` for a count), asks an End for the `tagID()` it
    lacks, or runs out of nesting budget in `decrementMaxDepth`.  `Fits`
    rules out the first two below the root and `DepthAtMost` the third, and
    with a root other than End they are exactly the tags that write. */
module EnvelopeBudget {
  import opened Results
  import opened DataStream
  import opened KeyOrder
  import opened MaxDepth
  import opened EnvelopeTag
  import opened EnvelopeCodec

  /** Every length the tree writes fits its field, names and strings in one
      byte and counts in four, and no End stands where its id is asked for:
      as a compound's child or a list's first element. */
  predicate Fits(t: Tag)
    decreases t, 1
  {
    match t
    case Str(text) => |text| <= MaxStringBytes
    case ByteArray(xs) => |xs| < CountLimit
    case IntArray(xs) => |xs| < CountLimit
    case LongArray(xs) => |xs| < CountLimit
    case List(items) =>
      |items| < CountLimit && (|items| > 0 ==> !items[0].End?)
      && forall i :: 0 <= i < |items| ==> Fits(items[i])
    case Compound(_) => forall k :: k in t.fields ==> ChildFits(t, k)
    case _ => true
  }

  /** What `Fits` asks of one child of a compound. */
  predicate ChildFits(t: Tag, k: Key)
    requires t.Compound?
    decreases t, 0
  {
    k in t.fields && !t.fields[k].End? && |k| <= MaxStringBytes && Fits(t.fields[k])
  }

  /** Every child of a list or compound lies at most `n` levels down: each
      level down takes one unit of a positive budget. */
  predicate DepthAtMost(t: Tag, n: int)
    decreases t, 1
  {
    match t
    case List(items) => forall i :: 0 <= i < |items| ==> n > 0 && DepthAtMost(items[i], n - 1)
    case Compound(_) => forall k :: k in t.fields ==> ChildWithin(t, k, n)
    case _ => true
  }

  /** What `DepthAtMost` asks of one child of a compound. */
  predicate ChildWithin(t: Tag, k: Key, n: int)
    requires t.Compound?
    decreases t, 0
  {
    k in t.fields && n > 0 && DepthAtMost(t.fields[k], n - 1)
  }

  /** A value writes exactly when its lengths fit and its nesting is within
      the budget; a value whose lengths fit fails, if at all, for the
      budget. */
  lemma {:induction false} ValueBudget(t: Tag, d: int, rev: Revision, iter: Iter)
    requires Enumerates(iter)
    ensures SerializeValue(t, d, rev, iter).Ok? <==> Fits(t) && DepthAtMost(t, d)
    ensures Fits(t) && SerializeValue(t, d, rev, iter).Err? ==>
              SerializeValue(t, d, rev, iter).error == Trap(DepthExhausted)
    decreases t, 1, 1
  {
    match t
    case List(_) => ListBudget(t, d, rev, iter);
    case Compound(_) => CompoundBudget(t, d, rev, iter);
    case _ =>
  }

  lemma {:induction false} ListBudget(t: Tag, d: int, rev: Revision, iter: Iter)
    requires Enumerates(iter) && t.List?
    ensures SerializeValue(t, d, rev, iter).Ok? <==> Fits(t) && DepthAtMost(t, d)
    ensures Fits(t) && SerializeValue(t, d, rev, iter).Err? ==>
              SerializeValue(t, d, rev, iter).error == Trap(DepthExhausted)
    decreases t, 1, 0
  {
    var zero := 0;
    var n := |t.items|;
    var out := SerializeValue(t, d, rev, iter);
    var values := SerializeElements(t, zero, d, rev, iter);
    ElementsBudget(t, zero, d, rev, iter);
    assert Fits(t) <==> n < CountLimit && (n > 0 ==> !t.items[0].End?) && forall j :: 0 <= j < n ==> Fits(t.items[j]);
    assert DepthAtMost(t, d) <==> forall j :: 0 <= j < n ==> d > 0 && DepthAtMost(t.items[j], d - 1);
    if n == 0 {
      assert out == Ok(WriteCount(n).value);
    } else if n >= CountLimit {
      assert out == Err(WriteCount(n).error);
    } else if t.items[0].End? {
      assert out == Err(Trap(MissingOverride));
    } else {
      var count := WriteCount(n);
      assert out == if values.Err? then values else Ok(count.value + [Code(IdOf(t.items[0], rev))] + values.value);
    }
  }

  lemma {:induction false} CompoundBudget(t: Tag, d: int, rev: Revision, iter: Iter)
    requires Enumerates(iter) && t.Compound?
    ensures SerializeValue(t, d, rev, iter).Ok? <==> Fits(t) && DepthAtMost(t, d)
    ensures Fits(t) && SerializeValue(t, d, rev, iter).Err? ==>
              SerializeValue(t, d, rev, iter).error == Trap(DepthExhausted)
    decreases t, 1, 0
  {
    var keys := DictKeys(iter, t.fields);
    var out := SerializeValue(t, d, rev, iter);
    var children := SerializeFields(t, keys, d, rev, iter);
    assert out.Ok? <==> children.Ok?;
    assert out.Err? ==> out.error == children.error;
    ListsDistinct(keys, t.fields.Keys);
    FieldsBudget(t, keys, d, rev, iter);
    assert (forall k :: k in keys ==> ChildFits(t, k)) <==> Fits(t);
    assert (forall k :: k in keys ==> ChildWithin(t, k, d)) <==> DepthAtMost(t, d);
  }

  /** A named tag writes exactly when it is not End, its name fits and its
      value writes. */
  lemma {:induction false} NamedBudget(t: Tag, name: Key, d: int, rev: Revision, iter: Iter)
    requires Enumerates(iter)
    ensures SerializeNamed(t, name, d, rev, iter).Ok? <==>
              !t.End? && |name| <= MaxStringBytes && Fits(t) && DepthAtMost(t, d)
    ensures !t.End? && |name| <= MaxStringBytes && Fits(t) && SerializeNamed(t, name, d, rev, iter).Err? ==>
              SerializeNamed(t, name, d, rev, iter).error == Trap(DepthExhausted)
    decreases t, 2
  {
    IdOfKinds(t, rev);
    ValueBudget(t, d, rev, iter);
  }

  /** The children from `keys` on write exactly when each fits and lies
      within one level less of the budget. */
  lemma {:induction false} FieldsBudget(t: Tag, keys: seq<Key>, d: int, rev: Revision, iter: Iter)
    requires Enumerates(iter) && t.Compound? && KeysIn(keys, t.fields)
    ensures SerializeFields(t, keys, d, rev, iter).Ok? <==>
              forall k :: k in keys ==> ChildFits(t, k) && ChildWithin(t, k, d)
    ensures (forall k :: k in keys ==> ChildFits(t, k)) && SerializeFields(t, keys, d, rev, iter).Err? ==>
              SerializeFields(t, keys, d, rev, iter).error == Trap(DepthExhausted)
    decreases t, 0, |keys|
  {
    if |keys| > 0 {
      var k := keys[0];
      var tailKeys := keys[1..];
      var v := t.fields[k];
      var dv := d - 1;
      ChildBelow(t, k);
      FieldsBudget(t, tailKeys, d, rev, iter);
      assert k in keys && forall k' :: k' in keys <==> k' == k || k' in tailKeys;
      if d > 0 {
        var named := SerializeNamed(v, k, dv, rev, iter);
        var more := SerializeFields(t, tailKeys, d, rev, iter);
        assert SerializeFields(t, keys, d, rev, iter) ==
               if named.Err? then named else if more.Err? then more else Ok(named.value + more.value);
        NamedBudget(v, k, dv, rev, iter);
        assert named.Ok? <==> ChildFits(t, k) && ChildWithin(t, k, d);
        assert (forall k' :: k' in keys ==> ChildFits(t, k') && ChildWithin(t, k', d)) <==>
               named.Ok? && forall k' :: k' in tailKeys ==> ChildFits(t, k') && ChildWithin(t, k', d);
      }
    }
  }

  /** The elements from index `i` on write exactly when each fits and lies
      within one level less of the budget. */
  lemma {:induction false} ElementsBudget(t: Tag, i: nat, d: int, rev: Revision, iter: Iter)
    requires Enumerates(iter) && t.List? && i <= |t.items|
    ensures SerializeElements(t, i, d, rev, iter).Ok? <==>
              forall j :: i <= j < |t.items| ==> Fits(t.items[j]) && d > 0 && DepthAtMost(t.items[j], d - 1)
    ensures (forall j :: i <= j < |t.items| ==> Fits(t.items[j])) && SerializeElements(t, i, d, rev, iter).Err? ==>
              SerializeElements(t, i, d, rev, iter).error == Trap(DepthExhausted)
    decreases t, 0, |t.items| - i
  {
    if i < |t.items| {
      var j := i + 1;
      var dx := d - 1;
      var x := t.items[i];
      ElementsBudget(t, j, d, rev, iter);
      if d > 0 {
        var value := SerializeValue(x, dx, rev, iter);
        var more := SerializeElements(t, j, d, rev, iter);
        assert SerializeElements(t, i, d, rev, iter) ==
               if value.Err? then value else if more.Err? then more else Ok(value.value + more.value);
        ValueBudget(x, dx, rev, iter);
        assert (forall m :: i <= m < |t.items| ==> Fits(t.items[m]) && d > 0 && DepthAtMost(t.items[m], d - 1)) <==>
               value.Ok? && forall m :: j <= m < |t.items| ==> Fits(t.items[m]) && d > 0 && DepthAtMost(t.items[m], d - 1);
      }
    }
  }

  /** The whole output, header and root, writes exactly when the root is
      not End, its lengths fit and its nesting is within the budget;
      otherwise, when it is not End and the lengths fit, the write stops for
      the budget. */
  lemma SerializeBudget(t: Tag, d: int, rev: Revision, iter: Iter)
    requires Enumerates(iter)
    ensures Serialize(t, d, rev, iter).Ok? <==> !t.End? && Fits(t) && DepthAtMost(t, d)
    ensures !t.End? && Fits(t) && Serialize(t, d, rev, iter).Err? ==>
              Serialize(t, d, rev, iter).error == Trap(DepthExhausted)
  {
    var root: Key := [];
    NamedBudget(t, root, d, rev, iter);
  }

  // ----- a chain of nested compounds -----

  /** `n` compounds, each the only child of the one above, around a byte. */
  function Nest(n: nat): (t: Tag)
    ensures n > 0 <==> t.Compound?
  {
    if n == 0 then Byte(0) else Compound(map[[0x61] := Nest(n - 1)])
  }

  lemma {:induction false} NestFits(n: nat)
    ensures Fits(Nest(n))
  {
    if n > 0 {
      NestFits(n - 1);
      assert ChildFits(Nest(n), [0x61]);
    }
  }

  lemma {:induction false} NestDepth(n: nat, d: int)
    ensures DepthAtMost(Nest(n), d) <==> n == 0 || n <= d
  {
    if n > 0 {
      var t := Nest(n);
      var k: Key := [0x61];
      assert t.fields.Keys == {k};
      NestDepth(n - 1, d - 1);
      assert DepthAtMost(t, d) <==> ChildWithin(t, k, d);
    }
  }

  /** A chain `n` compounds deep writes exactly when the budget is at least
      `n`, and any deeper chain stops for the budget. */
  lemma NestBudget(n: nat, d: int, rev: Revision, iter: Iter)
    requires Enumerates(iter)
    ensures Serialize(Nest(n), d, rev, iter).Ok? <==> n == 0 || n <= d
    ensures n > 0 && n > d ==> Serialize(Nest(n), d, rev, iter) == Err(Trap(DepthExhausted))
  {
    NestFits(n);
    NestDepth(n, d);
    SerializeBudget(Nest(n), d, rev, iter);
  }
}
