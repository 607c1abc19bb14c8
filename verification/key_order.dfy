/** Compound keys and the order the structure-cached codec writes them in.

    Keys are the UTF-8 bytes of Swift strings.  `Below` is byte-lexicographic
    order, which agrees with Swift's `<` on the ASCII keys the encoder writes.
    `Sort` stands for `value.sorted(by: { $0.key < $1.key })` applied to a
    dictionary's keys in whatever order the dictionary iterates them.
 */
module KeyOrder {
  import opened DataStream

  type Key = Bytes

  /** Strict byte-lexicographic order; a proper prefix comes first. */
  predicate Below(a: Key, b: Key)
    decreases |a|
  {
    |b| > 0 && (|a| == 0 || a[0] < b[0] || (a[0] == b[0] && Below(a[1..], b[1..])))
  }

  lemma {:induction false} BelowIrreflexive(a: Key)
    ensures !Below(a, a)
    decreases |a|
  {
    if |a| > 0 {
      BelowIrreflexive(a[1..]);
    }
  }

  lemma {:induction false} BelowTransitive(a: Key, b: Key, c: Key)
    requires Below(a, b) && Below(b, c)
    ensures Below(a, c)
    decreases |a|
  {
    if |a| > 0 && a[0] == b[0] && b[0] == c[0] {
      BelowTransitive(a[1..], b[1..], c[1..]);
    }
  }

  lemma {:induction false} BelowTotal(a: Key, b: Key)
    requires a != b
    ensures Below(a, b) || Below(b, a)
    decreases |a|
  {
    if |a| > 0 && |b| > 0 && a[0] == b[0] {
      assert a == [a[0]] + a[1..] && b == [b[0]] + b[1..];
      BelowTotal(a[1..], b[1..]);
    }
  }

  lemma BelowTrichotomy(a: Key, b: Key)
    ensures a == b || Below(a, b) || Below(b, a)
  {
    if a != b {
      BelowTotal(a, b);
    }
  }

  lemma BelowAsymmetric(a: Key, b: Key)
    requires Below(a, b)
    ensures !Below(b, a)
  {
    if Below(b, a) {
      BelowTransitive(a, b, a);
      BelowIrreflexive(a);
    }
  }

  /** Non-decreasing: no later key is below an earlier one. */
  predicate Sorted(ks: seq<Key>)
  {
    forall i, j :: 0 <= i < j < |ks| ==> !Below(ks[j], ks[i])
  }

  /** `ks` lists every key of `keys` exactly once. */
  predicate Lists(ks: seq<Key>, keys: set<Key>)
  {
    multiset(ks) == multiset(keys)
  }

  function Insert(k: Key, ks: seq<Key>): (r: seq<Key>)
    ensures multiset(r) == multiset(ks) + multiset{k}
    decreases |ks|
  {
    if |ks| == 0 || !Below(ks[0], k) then [k] + ks
    else
      assert ks == [ks[0]] + ks[1..];
      [ks[0]] + Insert(k, ks[1..])
  }

  /** Sorting keys: a permutation of its input, and sorted (`SortSorted`). */
  function Sort(ks: seq<Key>): (r: seq<Key>)
    ensures multiset(r) == multiset(ks)
    decreases |ks|
  {
    if |ks| == 0 then []
    else
      assert ks == [ks[0]] + ks[1..];
      Insert(ks[0], Sort(ks[1..]))
  }

  lemma NotBelowTransitive(a: Key, b: Key, c: Key)
    requires !Below(b, a) && !Below(c, b)
    ensures !Below(c, a)
  {
    if Below(c, a) {
      if a == b {
      } else if b == c {
      } else {
        BelowTotal(a, b);
        BelowTotal(b, c);
        BelowTransitive(c, a, b);
      }
    }
  }

  lemma {:induction false} InsertSorted(k: Key, ks: seq<Key>)
    requires Sorted(ks)
    ensures Sorted(Insert(k, ks))
    decreases |ks|
  {
    var r := Insert(k, ks);
    if |ks| == 0 {
    } else if !Below(ks[0], k) {
      forall i, j | 0 <= i < j < |r|
        ensures !Below(r[j], r[i])
      {
        if i == 0 {
          BelowIrreflexive(ks[0]);
          NotBelowTransitive(k, ks[0], r[j]);
        }
      }
    } else {
      InsertSorted(k, ks[1..]);
      var tail := Insert(k, ks[1..]);
      assert r == [ks[0]] + tail;
      forall j | 0 <= j < |tail|
        ensures !Below(tail[j], ks[0])
      {
        assert tail[j] in multiset(ks[1..]) + multiset{k};
        if tail[j] == k {
          BelowAsymmetric(ks[0], k);
        } else {
          assert tail[j] in ks[1..];
        }
      }
    }
  }

  lemma {:induction false} SortSorted(ks: seq<Key>)
    ensures Sorted(Sort(ks))
    decreases |ks|
  {
    if |ks| > 0 {
      SortSorted(ks[1..]);
      InsertSorted(ks[0], Sort(ks[1..]));
    }
  }

  /** The head of a sorted list is not above any key the list holds. */
  lemma HeadNotAbove(a: seq<Key>, b: seq<Key>)
    requires Sorted(a) && multiset(a) == multiset(b) && |b| > 0
    ensures |a| > 0 && !Below(b[0], a[0])
  {
    assert b[0] in multiset(a);
    var i :| 0 <= i < |a| && a[i] == b[0];
    if i == 0 {
      BelowIrreflexive(b[0]);
    } else {
      assert !Below(a[i], a[0]);
    }
  }

  lemma SortedHeads(a: seq<Key>, b: seq<Key>)
    requires Sorted(a) && Sorted(b) && multiset(a) == multiset(b) && |a| > 0
    ensures |b| > 0 && a[0] == b[0]
  {
    assert |multiset(b)| == |a|;
    HeadNotAbove(a, b);
    HeadNotAbove(b, a);
    BelowTrichotomy(a[0], b[0]);
  }

  lemma MultisetTail(a: seq<Key>, b: seq<Key>)
    requires |a| > 0 && |b| > 0 && a[0] == b[0] && multiset(a) == multiset(b)
    ensures multiset(a[1..]) == multiset(b[1..])
  {
    assert a == [a[0]] + a[1..];
    assert b == [b[0]] + b[1..];
    assert multiset(a) == multiset{a[0]} + multiset(a[1..]);
    assert multiset(b) == multiset{a[0]} + multiset(b[1..]);
    assert multiset(a[1..]) == multiset(a) - multiset{a[0]};
    assert multiset(b[1..]) == multiset(b) - multiset{a[0]};
  }

  /** Two sorted lists holding the same keys are the same list: what a sort
      produces does not depend on the order of its input. */
  lemma {:induction false} SortedUnique(a: seq<Key>, b: seq<Key>)
    requires Sorted(a) && Sorted(b) && multiset(a) == multiset(b)
    ensures a == b
    decreases |a|
  {
    assert |a| == |multiset(a)| == |multiset(b)| == |b|;
    if |a| > 0 {
      SortedHeads(a, b);
      MultisetTail(a, b);
      assert Sorted(a[1..]);
      assert Sorted(b[1..]);
      SortedUnique(a[1..], b[1..]);
      assert a == [a[0]] + a[1..] && b == [b[0]] + b[1..];
    }
  }

  /** Whatever order a dictionary enumerates its keys in, sorting gives the
      same list, and that list is sorted and lists every key once. */
  lemma SortCanonical(e1: seq<Key>, e2: seq<Key>, keys: set<Key>)
    requires Lists(e1, keys) && Lists(e2, keys)
    ensures Sort(e1) == Sort(e2)
    ensures Sorted(Sort(e1)) && Lists(Sort(e1), keys)
  {
    SortSorted(e1);
    SortSorted(e2);
    SortedUnique(Sort(e1), Sort(e2));
  }

  lemma ListedOnce(ks: seq<Key>, keys: set<Key>, i: nat, j: nat)
    requires Lists(ks, keys) && i < j < |ks|
    ensures ks[i] != ks[j]
  {
    var x := ks[j];
    assert ks == ks[..j] + [x] + ks[j + 1..];
    assert ks[..j][i] == ks[i];
    assert multiset(ks)[x] == multiset(ks[..j])[x] + 1 + multiset(ks[j + 1..])[x];
    assert multiset(keys)[x] <= 1;
  }

  lemma ListsDistinct(ks: seq<Key>, keys: set<Key>)
    requires Lists(ks, keys)
    ensures forall i, j :: 0 <= i < j < |ks| ==> ks[i] != ks[j]
    ensures forall k :: k in ks <==> k in keys
  {
    forall i, j | 0 <= i < j < |ks|
      ensures ks[i] != ks[j]
    {
      ListedOnce(ks, keys, i, j);
    }
    forall k
      ensures k in ks <==> k in keys
    {
      assert k in ks <==> k in multiset(ks);
    }
  }

  /** A dictionary's iteration order: each call lists every key of the map
      exactly once, in an order the model does not fix. */
  ghost predicate Enumerates<V(!new)>(iter: map<Key, V> -> seq<Key>)
  {
    forall m: map<Key, V> :: Yields(iter, m)
  }

  /** Some list of the keys of `s`, each once, in an order left unspecified. */
  ghost function KeyList(s: set<Key>): (ks: seq<Key>)
    ensures Lists(ks, s)
    decreases s
  {
    if s == {} then []
    else
      var k :| k in s;
      var ks := [k] + KeyList(s - {k});
      assert multiset(s) == multiset{k} + multiset(s - {k});
      ks
  }

  /** The iteration orders `Enumerates` admits exist: listing each
      dictionary's keys by `KeyList` is one. */
  lemma EnumeratesExists<V(!new)>()
    ensures exists iter: map<Key, V> -> seq<Key> :: Enumerates(iter)
  {
    var iter := (m: map<Key, V>) => KeyList(m.Keys);
    assert Enumerates(iter);
  }

  /** One call of `iter` on `m` lists every key of `m` exactly once. */
  ghost predicate Yields<V>(iter: map<Key, V> -> seq<Key>, m: map<Key, V>)
  {
    Lists(iter(m), m.Keys)
  }

  /** `dictionary.sorted(by: { $0.key < $1.key })`, keys only: the keys the
      dictionary yields, sorted (`SortedKeysSpec` states what it gives). */
  function SortedKeys<V(!new)>(iter: map<Key, V> -> seq<Key>, m: map<Key, V>): (ks: seq<Key>)
    requires Enumerates(iter)
    ensures KeysIn(ks, m)
  {
    assert Yields(iter, m);
    ListsDistinct(Sort(iter(m)), m.Keys);
    KeysInAll(Sort(iter(m)), m);
    Sort(iter(m))
  }

  /** Whatever order the dictionary yields its keys in, the sorted keys are
      sorted and list every key exactly once. */
  lemma SortedKeysSpec<V(!new)>(iter: map<Key, V> -> seq<Key>, m: map<Key, V>)
    requires Enumerates(iter)
    ensures Sorted(SortedKeys(iter, m)) && Lists(SortedKeys(iter, m), m.Keys)
  {
    assert Yields(iter, m);
    SortSorted(iter(m));
  }

  /** `for (key, value) in dictionary`, keys only: the keys in the order the
      dictionary yields them, each exactly once. */
  function DictKeys<V(!new)>(iter: map<Key, V> -> seq<Key>, m: map<Key, V>): (ks: seq<Key>)
    requires Enumerates(iter)
    ensures KeysIn(ks, m) && Lists(ks, m.Keys)
  {
    assert Yields(iter, m);
    ListsDistinct(iter(m), m.Keys);
    KeysInAll(iter(m), m);
    iter(m)
  }

  /** Sorting erases every difference between two iteration orders. */
  lemma SortedKeysCanonical<V(!new)>(i1: map<Key, V> -> seq<Key>, i2: map<Key, V> -> seq<Key>, m: map<Key, V>)
    requires Enumerates(i1) && Enumerates(i2)
    ensures SortedKeys(i1, m) == SortedKeys(i2, m)
  {
    assert Yields(i1, m) && Yields(i2, m);
    SortCanonical(i1(m), i2(m), m.Keys);
  }

  /** Two maps with the same keys are written in the same key order, however
      differently their values are laid out. */
  lemma SameKeysSameOrder<V(!new)>(iter: map<Key, V> -> seq<Key>, m1: map<Key, V>, m2: map<Key, V>)
    requires Enumerates(iter) && m1.Keys == m2.Keys
    ensures SortedKeys(iter, m1) == SortedKeys(iter, m2)
  {
    assert Yields(iter, m1) && Yields(iter, m2);
    SortCanonical(iter(m1), iter(m2), m1.Keys);
  }

  /** Every key listed in `ks` is a key of `m`. */
  predicate KeysIn<V>(ks: seq<Key>, m: map<Key, V>)
    decreases |ks|
  {
    |ks| == 0 || (ks[0] in m && KeysIn(ks[1..], m))
  }

  lemma {:induction false} KeysInAll<V>(ks: seq<Key>, m: map<Key, V>)
    ensures KeysIn(ks, m) <==> forall i :: 0 <= i < |ks| ==> ks[i] in m
    decreases |ks|
  {
    if |ks| > 0 {
      KeysInAll(ks[1..], m);
      assert forall i :: 1 <= i < |ks| ==> ks[i] == ks[1..][i - 1];
    }
  }

  /** The entries of `m` whose keys appear in `ks`. */
  function Pick<V>(m: map<Key, V>, ks: seq<Key>): (r: map<Key, V>)
    ensures r.Keys <= m.Keys
  {
    map k | k in ks && k in m :: m[k]
  }

  /** Adding the entries in list order, later ones winning, rebuilds the
      entries picked by the whole list. */
  lemma PickCons<V>(m: map<Key, V>, ks: seq<Key>)
    requires |ks| > 0 && ks[0] in m
    ensures map[ks[0] := m[ks[0]]] + Pick(m, ks[1..]) == Pick(m, ks)
  {
    assert forall k :: k in ks <==> k == ks[0] || k in ks[1..];
  }

  /** Picking by a list of every key takes the whole map. */
  lemma PickAll<V>(m: map<Key, V>, ks: seq<Key>)
    requires Lists(ks, m.Keys)
    ensures KeysIn(ks, m)
    ensures Pick(m, ks) == m
  {
    ListsDistinct(ks, m.Keys);
    KeysInAll(ks, m);
  }
}
