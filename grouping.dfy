/**
 * The store's `$group` stage with `count: { $sum: 1 }` and an optional
 * `$sum` of a numeric field: one group per distinct key.
 */
module Grouping {

  /** One output document of `$group`: the key, how many inputs had it, and the sum of their weights. */
  datatype Group<K> = Group(key: K, count: nat, total: int)

  /** Number of items whose key is `k`. */
  function CountKey<K(==)>(items: seq<(K, int)>, k: K): nat {
    if items == [] then 0 else (if items[0].0 == k then 1 else 0) + CountKey(items[1..], k)
  }

  /** Sum of the weights of the items whose key is `k`. */
  function SumKey<K(==)>(items: seq<(K, int)>, k: K): int {
    if items == [] then 0 else (if items[0].0 == k then items[0].1 else 0) + SumKey(items[1..], k)
  }

  function SumCounts<K>(gs: seq<Group<K>>): nat {
    if gs == [] then 0 else gs[0].count + SumCounts(gs[1..])
  }

  /** The keys of the groups, in order. */
  function Keys<K>(gs: seq<Group<K>>): (ks: seq<K>)
    ensures |ks| == |gs|
  {
    if gs == [] then [] else [gs[0].key] + Keys(gs[1..])
  }

  predicate DistinctKeys<K(==)>(gs: seq<Group<K>>) {
    gs == [] || (gs[0].key !in Keys(gs[1..]) && DistinctKeys(gs[1..]))
  }

  /** Adds one item of key `k` and weight `w` to the groups. */
  function AddTo<K(==)>(gs: seq<Group<K>>, k: K, w: int): (r: seq<Group<K>>)
    ensures SumCounts(r) == SumCounts(gs) + 1
  {
    if gs == [] then [Group(k, 1, w)]
    else if gs[0].key == k then [gs[0].(count := gs[0].count + 1, total := gs[0].total + w)] + gs[1..]
    else [gs[0]] + AddTo(gs[1..], k, w)
  }

  /** Groups `items` (pairs of a key and a weight), one group per distinct key. */
  function GroupBy<K(==)>(items: seq<(K, int)>): (r: seq<Group<K>>)
    ensures SumCounts(r) == |items|
  {
    if items == [] then [] else AddTo(GroupBy(items[1..]), items[0].0, items[0].1)
  }

  lemma {:induction false} KeysMember<K>(gs: seq<Group<K>>, g: Group<K>)
    requires g in gs
    ensures g.key in Keys(gs)
  {
    if gs[0] != g {
      KeysMember(gs[1..], g);
    }
  }

  /** What adding one item does to the group of each key. */
  lemma {:induction false} AddToGroups<K>(gs: seq<Group<K>>, k: K, w: int)
    requires DistinctKeys(gs)
    ensures DistinctKeys(AddTo(gs, k, w))
    ensures forall j :: j in Keys(AddTo(gs, k, w)) <==> j in Keys(gs) || j == k
    ensures forall g :: g in AddTo(gs, k, w) && g.key != k ==> g in gs
    ensures forall g :: g in gs && g.key == k ==> Group(k, g.count + 1, g.total + w) in AddTo(gs, k, w)
    ensures k !in Keys(gs) ==> Group(k, 1, w) in AddTo(gs, k, w)
  {
    if gs != [] && gs[0].key != k {
      AddToGroups(gs[1..], k, w);
      forall g | g in gs && g.key == k ensures Group(k, g.count + 1, g.total + w) in AddTo(gs, k, w) {
        assert g in gs[1..];
      }
    } else if gs != [] {
      forall g | g in gs && g.key == k ensures g == gs[0] {
        if g != gs[0] {
          assert g in gs[1..];
          KeysMember(gs[1..], g);
        }
      }
    }
  }

  lemma GroupKeyUnique<K>(gs: seq<Group<K>>, g: Group<K>, h: Group<K>)
    requires DistinctKeys(gs) && g in gs && h in gs && g.key == h.key
    ensures g == h
  {
    if g != h {
      if g == gs[0] {
        KeysMember(gs[1..], h);
      } else if h == gs[0] {
        KeysMember(gs[1..], g);
      } else {
        GroupKeyUnique(gs[1..], g, h);
      }
    }
  }

  lemma {:induction false} CountZeroSumZero<K>(items: seq<(K, int)>, k: K)
    requires CountKey(items, k) == 0
    ensures SumKey(items, k) == 0
  {
    if items != [] {
      CountZeroSumZero(items[1..], k);
    }
  }

  /**
   * Each group of `GroupBy(items)` counts exactly the items of its key and
   * sums exactly their weights; keys are distinct; a key has a group exactly
   * when some item has that key.
   */
  lemma {:induction false} GroupByCorrect<K>(items: seq<(K, int)>)
    ensures DistinctKeys(GroupBy(items))
    ensures forall g :: g in GroupBy(items) ==> g.count == CountKey(items, g.key) && g.total == SumKey(items, g.key)
    ensures forall k :: k in Keys(GroupBy(items)) <==> CountKey(items, k) > 0
  {
    if items != [] {
      var rest := items[1..];
      var gs := GroupBy(rest);
      var k, w := items[0].0, items[0].1;
      GroupByCorrect(rest);
      AddToGroups(gs, k, w);
      var r := AddTo(gs, k, w);
      forall g | g in r ensures g.count == CountKey(items, g.key) && g.total == SumKey(items, g.key) {
        if g.key != k {
          assert g in gs;
        } else if k in Keys(gs) {
          var g' := GroupOf(gs, k);
          assert Group(k, g'.count + 1, g'.total + w) in r;
          GroupKeyUnique(r, g, Group(k, g'.count + 1, g'.total + w));
        } else {
          CountZeroSumZero(rest, k);
          GroupKeyUnique(r, g, Group(k, 1, w));
        }
      }
    }
  }

  /** The group whose key is `k`. */
  ghost function GroupOf<K>(gs: seq<Group<K>>, k: K): (g: Group<K>)
    requires k in Keys(gs)
    ensures g in gs && g.key == k
  {
    if gs[0].key == k then gs[0] else GroupOf(gs[1..], k)
  }

  /** Every item's key has a non-zero count. */
  lemma {:induction false} CountKeyPositive<K>(items: seq<(K, int)>, i: nat)
    requires i < |items|
    ensures CountKey(items, items[i].0) > 0
  {
    if i > 0 {
      CountKeyPositive(items[1..], i - 1);
    }
  }

  /** With distinct keys no group occurs twice. */
  lemma {:induction false} DistinctKeysOnce<K>(gs: seq<Group<K>>, g: Group<K>)
    requires DistinctKeys(gs)
    ensures multiset(gs)[g] <= 1
  {
    if gs != [] {
      assert gs == [gs[0]] + gs[1..];
      DistinctKeysOnce(gs[1..], g);
      if gs[0] == g && g in gs[1..] {
        KeysMember(gs[1..], g);
      }
    }
  }

  /** Reordering groups with distinct keys leaves no two positions with the same key. */
  lemma DistinctKeysReordered<K>(gs: seq<Group<K>>, r: seq<Group<K>>)
    requires DistinctKeys(gs) && multiset(r) == multiset(gs)
    ensures forall i, j :: 0 <= i < j < |r| ==> r[i].key != r[j].key
  {
    forall i, j | 0 <= i < j < |r| ensures r[i].key != r[j].key {
      if r[i].key == r[j].key {
        assert r[i] in multiset(gs) && r[j] in multiset(gs);
        GroupKeyUnique(gs, r[i], r[j]);
        assert r == r[..j] + r[j..];
        assert r[i] in r[..j] && r[j] in r[j..];
        assert multiset(r)[r[i]] == multiset(r[..j])[r[i]] + multiset(r[j..])[r[i]];
        DistinctKeysOnce(gs, r[i]);
        assert false;
      }
    }
  }

  /** A key with a non-zero count belongs to some item. */
  lemma {:induction false} CountKeyWitness<K>(items: seq<(K, int)>, k: K) returns (i: nat)
    requires CountKey(items, k) > 0
    ensures i < |items| && items[i].0 == k
  {
    if items[0].0 == k {
      i := 0;
    } else {
      var j := CountKeyWitness(items[1..], k);
      i := j + 1;
    }
  }
}
