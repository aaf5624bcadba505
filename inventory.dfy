/** The inventory records and the aggregation loop of `!inventory`, which
    counts records per (name, rarity) key in order of first occurrence. */
module Inventory {
  import opened Seqs

  /** One stored roll: `{"name": ..., "rarity": ..., "number": ...}`. */
  datatype Item = Item(name: string, rarity: string, number: int)

  /** The grouping key of the aggregation. */
  datatype Key = Key(name: string, rarity: string)

  function KeyOf(item: Item): Key
  {
    Key(item.name, item.rarity)
  }

  /** The keys of the records, position by position. */
  function KeysOf(inv: seq<Item>): (ks: seq<Key>)
    ensures |ks| == |inv|
  {
    if inv == [] then [] else KeysOf(inv[..|inv| - 1]) + [KeyOf(inv[|inv| - 1])]
  }

  /** How many records carry key `k`. */
  function Occurrences(inv: seq<Item>, k: Key): nat
  {
    multiset(KeysOf(inv))[k]
  }

  /** The distinct keys, in the order in which each first occurs. */
  function FirstKeys(inv: seq<Item>): seq<Key>
  {
    if inv == [] then []
    else
      var keys := FirstKeys(inv[..|inv| - 1]);
      var k := KeyOf(inv[|inv| - 1]);
      if k in keys then keys else keys + [k]
  }

  /** The `counts` loop: `keys` is the dict's insertion order, `counts` its
      contents. */
  method CountByKey(inv: seq<Item>) returns (keys: seq<Key>, counts: map<Key, nat>)
    ensures keys == FirstKeys(inv)
    ensures forall k :: k in counts <==> k in keys
    ensures forall k :: k in counts ==> counts[k] == Occurrences(inv, k)
  {
    keys, counts := [], map[];
    for i := 0 to |inv|
      invariant keys == FirstKeys(inv[..i])
      invariant forall k :: k in counts <==> k in keys
      invariant forall k :: k in counts ==> counts[k] == Occurrences(inv[..i], k)
    {
      assert inv[..i + 1][..i] == inv[..i];
      var key := KeyOf(inv[i]);
      OccurrencesStep(inv, i);
      if key !in counts {
        FirstKeysMembership(inv[..i], key);
        keys := keys + [key];
        counts := counts[key := 1];
      } else {
        counts := counts[key := counts[key] + 1];
      }
    }
    assert inv[..|inv|] == inv;
  }

  /** Extending the scanned prefix by record `i` adds one to its key only. */
  lemma OccurrencesStep(inv: seq<Item>, i: nat)
    requires i < |inv|
    ensures forall k :: Occurrences(inv[..i + 1], k) ==
                          Occurrences(inv[..i], k) + if k == KeyOf(inv[i]) then 1 else 0
  {
    assert inv[..i + 1][..i] == inv[..i];
    assert KeysOf(inv[..i + 1]) == KeysOf(inv[..i]) + [KeyOf(inv[i])];
  }

  lemma {:induction false} FirstKeysMembership(inv: seq<Item>, k: Key)
    ensures k in FirstKeys(inv) <==> k in KeysOf(inv)
    ensures k in FirstKeys(inv) <==> Occurrences(inv, k) > 0
  {
    if inv != [] {
      FirstKeysMembership(inv[..|inv| - 1], k);
    }
  }

  lemma {:induction false} FirstKeysDistinct(inv: seq<Item>)
    ensures NoDuplicates(FirstKeys(inv))
  {
    if inv != [] {
      FirstKeysDistinct(inv[..|inv| - 1]);
    }
  }

  /** Keys only ever get appended: the keys of a prefix of the inventory are
      a prefix of the keys of the whole, so keys keep first-occurrence order. */
  lemma {:induction false} FirstKeysOfPrefix(inv: seq<Item>, n: nat)
    requires n <= |inv|
    ensures FirstKeys(inv[..n]) <= FirstKeys(inv)
  {
    if n < |inv| {
      var p := inv[..|inv| - 1];
      assert p[..n] == inv[..n];
      FirstKeysOfPrefix(p, n);
    } else {
      assert inv[..n] == inv;
    }
  }

  /** Sum of the counts of `keys` in `inv`. */
  function SumCounts(keys: seq<Key>, inv: seq<Item>): nat
  {
    if keys == [] then 0
    else SumCounts(keys[..|keys| - 1], inv) + Occurrences(inv, keys[|keys| - 1])
  }

  lemma {:induction false} SumCountsAppendItem(keys: seq<Key>, p: seq<Item>, x: Item)
    requires NoDuplicates(keys)
    ensures SumCounts(keys, p + [x]) == SumCounts(keys, p) + (if KeyOf(x) in keys then 1 else 0)
  {
    assert (p + [x])[..|p|] == p;
    assert KeysOf(p + [x]) == KeysOf(p) + [KeyOf(x)];
    if keys != [] {
      var ks := keys[..|keys| - 1];
      assert keys == ks + [keys[|keys| - 1]];
      SumCountsAppendItem(ks, p, x);
    }
  }

  lemma {:induction false} SumCountsAppendKey(keys: seq<Key>, k: Key, inv: seq<Item>)
    ensures SumCounts(keys + [k], inv) == SumCounts(keys, inv) + Occurrences(inv, k)
  {
  }

  /** Count conservation: the counts add up to the number of records. */
  lemma {:induction false} CountsSumToLength(inv: seq<Item>)
    ensures SumCounts(FirstKeys(inv), inv) == |inv|
  {
    if inv != [] {
      var p := inv[..|inv| - 1];
      var x := inv[|inv| - 1];
      assert inv == p + [x];
      CountsSumToLength(p);
      FirstKeysDistinct(p);
      SumCountsAppendItem(FirstKeys(p), p, x);
      if KeyOf(x) !in FirstKeys(p) {
        FirstKeysMembership(p, KeyOf(x));
        SumCountsAppendKey(FirstKeys(p), KeyOf(x), inv);
        assert KeysOf(inv) == KeysOf(p) + [KeyOf(x)];
      }
    }
  }

  /** Three Common and two Rare rolls of the same content aggregate to two
      groups, counted 3 and 2. */
  lemma AggregationExample()
    ensures var inv := [Item("Femboy", "Common", 1), Item("Femboy", "Rare", 2),
                        Item("Femboy", "Common", 3), Item("Femboy", "Rare", 4),
                        Item("Femboy", "Common", 5)];
            FirstKeys(inv) == [Key("Femboy", "Common"), Key("Femboy", "Rare")] &&
            Occurrences(inv, Key("Femboy", "Common")) == 3 &&
            Occurrences(inv, Key("Femboy", "Rare")) == 2
  {
    var c, r := Key("Femboy", "Common"), Key("Femboy", "Rare");
    var inv := [Item("Femboy", "Common", 1), Item("Femboy", "Rare", 2),
                Item("Femboy", "Common", 3), Item("Femboy", "Rare", 4),
                Item("Femboy", "Common", 5)];
    assert inv[..1] == [inv[0]];
    assert inv[..2][..1] == inv[..1];
    assert inv[..3][..2] == inv[..2];
    assert inv[..4][..3] == inv[..3];
    assert inv[..5][..4] == inv[..4];
    assert [inv[0]][..0] == [];
    assert KeysOf(inv[..1]) == [c];
    assert KeysOf(inv[..2]) == [c, r];
    assert KeysOf(inv[..3]) == [c, r, c];
    assert KeysOf(inv[..4]) == [c, r, c, r];
    assert KeysOf(inv[..5]) == [c, r, c, r, c];
    assert multiset([c, r, c, r, c])[c] == 3;
    assert FirstKeys(inv[..1]) == [c];
    assert FirstKeys(inv[..2]) == [c, r];
    assert FirstKeys(inv[..3]) == [c, r];
    assert FirstKeys(inv[..4]) == [c, r];
    assert inv[..5] == inv;
  }
}
