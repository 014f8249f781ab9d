/**
 * Grouping items by a key in first-appearance order, keeping the first item
 * seen for each key and a count per key: the `Map` loop that both the folder
 * list of the folder-filter screen and the album list of a genre are built with.
 */
module Grouping {
  import opened Wrappers

  function KeyList<K>(o: Option<K>): seq<K> {
    match o
    case Some(k) => [k]
    case None => []
  }

  /** The keys of `items` in order, items without a key skipped. */
  function KeysOf<T, K>(items: seq<T>, key: T -> Option<K>): seq<K> {
    if items == [] then [] else KeysOf(items[..|items| - 1], key) + KeyList(key(items[|items| - 1]))
  }

  predicate NoDuplicates<K(==)>(s: seq<K>) {
    forall i, j :: 0 <= i < j < |s| ==> s[i] != s[j]
  }

  /** `Array.from(new Set(s))`: each element once, in order of first appearance. */
  function Distinct<K(==)>(s: seq<K>): (r: seq<K>)
    ensures NoDuplicates(r)
    ensures (set x | x in r) == (set x | x in s)
    ensures |r| <= |s|
  {
    if s == [] then []
    else
      var p, e := s[..|s| - 1], s[|s| - 1];
      var d := Distinct(p);
      assert s == p + [e];
      assert (set x | x in s) == (set x | x in p) + {e};
      if e in d then d
      else
        assert (set x | x in d + [e]) == (set x | x in d) + {e};
        d + [e]
  }

  lemma {:induction false} DistinctOfDistinct<K>(s: seq<K>)
    requires NoDuplicates(s)
    ensures Distinct(s) == s
  {
    if s != [] {
      DistinctOfDistinct(s[..|s| - 1]);
    }
  }

  /** `Distinct` keeps exactly the elements of its input. */
  lemma DistinctMembers<K>(s: seq<K>, x: K)
    ensures x in Distinct(s) <==> x in s
  {
    assert x in (set y | y in Distinct(s)) <==> x in (set y | y in s);
  }

  /** Without repeats, every element occurs at most once. */
  lemma {:induction false} NoDuplicatesCount<K>(s: seq<K>, x: K)
    requires NoDuplicates(s)
    ensures multiset(s)[x] <= 1
  {
    if s != [] {
      var n := |s| - 1;
      assert s == s[..n] + [s[n]];
      NoDuplicatesCount(s[..n], x);
      if x == s[n] {
        assert x !in s[..n];
      }
    }
  }

  /** An element found at two positions occurs at least twice. */
  lemma RepeatCount<K>(s: seq<K>, i: int, j: int)
    requires 0 <= i < j < |s| && s[i] == s[j]
    ensures multiset(s)[s[i]] >= 2
  {
    assert s == s[..j] + [s[j]] + s[j + 1..];
    assert s[i] in s[..j];
  }

  /** Reordering a list without repeats leaves it without repeats. */
  lemma PermutationNoDuplicates<K>(s: seq<K>, t: seq<K>)
    requires NoDuplicates(s) && multiset(s) == multiset(t)
    ensures NoDuplicates(t)
  {
    forall i, j | 0 <= i < j < |t| ensures t[i] != t[j] {
      if t[i] == t[j] {
        RepeatCount(t, i, j);
        NoDuplicatesCount(s, t[i]);
      }
    }
  }

  /** The first item of `items` whose key is `k`. */
  function FirstOf<T, K(==)>(items: seq<T>, key: T -> Option<K>, k: K): (r: T)
    requires k in KeysOf(items, key)
    ensures key(r) == Some(k) && r in items
  {
    var n := |items| - 1;
    if k in KeysOf(items[..n], key) then
      var r := FirstOf(items[..n], key, k);
      assert r in items[..n];
      r
    else items[n]
  }

  /** The sum of `counts` over the keys in `order` (a key without a count adds nothing). */
  function SumCounts<K(==)>(order: seq<K>, counts: map<K, nat>): nat {
    if order == [] then 0
    else
      var k := order[|order| - 1];
      SumCounts(order[..|order| - 1], counts) + (if k in counts then counts[k] else 0)
  }

  lemma {:induction false} SumCountsOutside<K>(order: seq<K>, counts: map<K, nat>, k: K, c: nat)
    requires k !in order
    ensures SumCounts(order, counts[k := c]) == SumCounts(order, counts)
  {
    if order != [] {
      SumCountsOutside(order[..|order| - 1], counts, k, c);
    }
  }

  lemma {:induction false} SumCountsBump<K>(order: seq<K>, counts: map<K, nat>, k: K)
    requires NoDuplicates(order) && k in counts && k in order
    ensures SumCounts(order, counts[k := counts[k] + 1]) == SumCounts(order, counts) + 1
  {
    var n := |order| - 1;
    if order[n] == k {
      assert k !in order[..n];
      SumCountsOutside(order[..n], counts, k, counts[k] + 1);
    } else {
      SumCountsBump(order[..n], counts, k);
    }
  }

  lemma KeysOfSnoc<T, K>(xs: seq<T>, x: T, key: T -> Option<K>)
    ensures KeysOf(xs + [x], key) == KeysOf(xs, key) + KeyList(key(x))
  {
    assert (xs + [x])[..|xs|] == xs;
  }

  lemma FirstOfSnoc<T, K>(xs: seq<T>, x: T, key: T -> Option<K>, k: K)
    requires k in KeysOf(xs + [x], key)
    ensures k in KeysOf(xs, key) ==> FirstOf(xs + [x], key, k) == FirstOf(xs, key, k)
    ensures k !in KeysOf(xs, key) ==> FirstOf(xs + [x], key, k) == x
  {
    assert (xs + [x])[..|xs|] == xs;
  }

  /** What the `Map` holds: the keys in first-appearance order, the first item and the count per key. */
  datatype Groups<T, K> = Groups(order: seq<K>, first: map<K, T>, counts: map<K, nat>)

  /** One step of the loop: an item without a key is skipped, a known key is counted, a new key is added. */
  function AddItem<T, K(==)>(g: Groups<T, K>, x: T, key: T -> Option<K>): Groups<T, K> {
    match key(x)
    case None => g
    case Some(k) =>
      if k in g.counts then g.(counts := g.counts[k := g.counts[k] + 1])
      else Groups(g.order + [k], g.first[k := x], g.counts[k := 1])
  }

  /** The groups of `items`, folded from the left. */
  function GroupAll<T, K(==)>(items: seq<T>, key: T -> Option<K>): Groups<T, K> {
    if items == [] then Groups([], map[], map[])
    else AddItem(GroupAll(items[..|items| - 1], key), items[|items| - 1], key)
  }

  /** The keys of the groups are the distinct keys of the items, in first-appearance order. */
  lemma {:induction false} GroupAllOrder<T, K>(items: seq<T>, key: T -> Option<K>)
    ensures GroupAll(items, key).order == Distinct(KeysOf(items, key))
    ensures GroupAll(items, key).counts.Keys == (set x | x in GroupAll(items, key).order)
    ensures GroupAll(items, key).first.Keys == GroupAll(items, key).counts.Keys
  {
    if items != [] {
      var n := |items| - 1;
      GroupAllOrder(items[..n], key);
      assert items == items[..n] + [items[n]];
      KeysOfSnoc(items[..n], items[n], key);
      AddItemOrder(GroupAll(items[..n], key), items[n], key, KeysOf(items[..n], key));
    }
  }

  /** One step of the loop keeps the keys the distinct keys seen so far. */
  lemma AddItemOrder<T, K>(g: Groups<T, K>, x: T, key: T -> Option<K>, keys: seq<K>)
    requires g.order == Distinct(keys)
    requires g.counts.Keys == (set y | y in g.order) && g.first.Keys == g.counts.Keys
    ensures AddItem(g, x, key).order == Distinct(keys + KeyList(key(x)))
    ensures AddItem(g, x, key).counts.Keys == (set y | y in AddItem(g, x, key).order)
    ensures AddItem(g, x, key).first.Keys == AddItem(g, x, key).counts.Keys
  {
    match key(x) {
      case None =>
        assert keys + [] == keys;
      case Some(k) =>
        var s := keys + [k];
        assert s[..|s| - 1] == keys && s[|s| - 1] == k;
        AddItemKeys(g, x, key, k);
    }
  }

  /** Counting a key keeps the map's keys those of the order, and the first items beside them. */
  lemma AddItemKeys<T, K>(g: Groups<T, K>, x: T, key: T -> Option<K>, k: K)
    requires key(x) == Some(k)
    requires g.counts.Keys == (set y | y in g.order) && g.first.Keys == g.counts.Keys
    ensures k in g.counts <==> k in g.order
    ensures AddItem(g, x, key).counts.Keys == (set y | y in AddItem(g, x, key).order)
    ensures AddItem(g, x, key).first.Keys == AddItem(g, x, key).counts.Keys
  {
    var r := AddItem(g, x, key);
    assert k in g.counts <==> k in (set y | y in g.order);
    if k in g.counts {
      assert r.order == g.order && r.first == g.first;
      assert r.counts.Keys == g.counts.Keys;
    } else {
      assert r.order == g.order + [k];
      assert r.counts.Keys == g.counts.Keys + {k};
      assert r.first.Keys == g.first.Keys + {k};
      assert (set y | y in g.order + [k]) == (set y | y in g.order) + {k};
    }
  }

  /** Each count is the number of items carrying that key. */
  lemma {:induction false} GroupAllCounts<T, K>(items: seq<T>, key: T -> Option<K>, k: K)
    ensures k in GroupAll(items, key).counts <==> k in KeysOf(items, key)
    ensures k in GroupAll(items, key).counts ==> GroupAll(items, key).counts[k] == multiset(KeysOf(items, key))[k]
  {
    if items != [] {
      var n := |items| - 1;
      var g := GroupAll(items[..n], key);
      var keys := KeysOf(items[..n], key);
      GroupAllCounts(items[..n], key, k);
      assert items == items[..n] + [items[n]];
      KeysOfSnoc(items[..n], items[n], key);
      assert GroupAll(items, key) == AddItem(g, items[n], key);
      match key(items[n]) {
        case None =>
          assert KeysOf(items, key) == keys + [] == keys;
        case Some(j) =>
          assert KeysOf(items, key) == keys + [j];
          assert multiset(keys + [j]) == multiset(keys) + multiset{j};
      }
    }
  }

  /** Each group remembers the first item that carries its key. */
  lemma {:induction false} GroupAllFirst<T, K>(items: seq<T>, key: T -> Option<K>, k: K)
    requires k in GroupAll(items, key).first
    ensures k in KeysOf(items, key)
    ensures GroupAll(items, key).first[k] == FirstOf(items, key, k)
  {
    assert items != [];
    var n := |items| - 1;
    var x := items[n];
    var g := GroupAll(items[..n], key);
    assert items == items[..n] + [x];
    assert GroupAll(items, key) == AddItem(g, x, key);
    KeysOfSnoc(items[..n], x, key);
    GroupAllOrder(items[..n], key);
    GroupAllCounts(items[..n], key, k);
    if k in g.first && GroupAll(items, key).first[k] == g.first[k] {
      GroupAllFirst(items[..n], key, k);
      FirstOfSnoc(items[..n], x, key, k);
    } else {
      assert key(x) == Some(k) && k !in g.counts;
      FirstOfSnoc(items[..n], x, key, k);
    }
  }

  /** Adding one item raises the total of the counts by one exactly when the item has a key. */
  lemma AddItemSum<T, K>(g: Groups<T, K>, x: T, key: T -> Option<K>)
    requires g.counts.Keys == (set y | y in g.order) && NoDuplicates(g.order)
    ensures AddItem(g, x, key).counts.Keys == (set y | y in AddItem(g, x, key).order)
    ensures SumCounts(AddItem(g, x, key).order, AddItem(g, x, key).counts) == SumCounts(g.order, g.counts) + |KeyList(key(x))|
  {
    match key(x) {
      case None =>
      case Some(k) =>
        if k in g.counts {
          SumCountsBump(g.order, g.counts, k);
        } else {
          AddNewKeySum(g.order, g.counts, k);
        }
    }
  }

  /** A new key counted once adds one to the total. */
  lemma AddNewKeySum<K>(order: seq<K>, counts: map<K, nat>, k: K)
    requires counts.Keys == (set y | y in order) && k !in counts
    ensures counts[k := 1].Keys == (set y | y in order + [k])
    ensures SumCounts(order + [k], counts[k := 1]) == SumCounts(order, counts) + 1
  {
    var o := order + [k];
    assert o[..|order|] == order;
    assert o[|o| - 1] == k;
    assert SumCounts(o, counts[k := 1]) == SumCounts(order, counts[k := 1]) + 1;
    SumCountsOutside(order, counts, k, 1);
  }

  /** The counts add up to the number of items that have a key. */
  lemma {:induction false} GroupAllSum<T, K>(items: seq<T>, key: T -> Option<K>)
    ensures SumCounts(GroupAll(items, key).order, GroupAll(items, key).counts) == |KeysOf(items, key)|
  {
    if items != [] {
      var n := |items| - 1;
      var prev, x := items[..n], items[n];
      var g := GroupAll(prev, key);
      GroupAllSum(prev, key);
      GroupAllOrder(prev, key);
      assert items == prev + [x];
      assert GroupAll(items, key) == AddItem(g, x, key);
      KeysOfSnoc(prev, x, key);
      AddItemSum(g, x, key);
    }
  }

  /**
   * One pass over `items` building the `Map`: `order` lists the keys in
   * first-appearance order, `first[k]` is the first item with key `k` and
   * `counts[k]` how many items have key `k`.
   */
  method GroupFirst<T, K(==)>(items: seq<T>, key: T -> Option<K>)
    returns (order: seq<K>, first: map<K, T>, counts: map<K, nat>)
    ensures Groups(order, first, counts) == GroupAll(items, key)
  {
    order, first, counts := [], map[], map[];
    var i := 0;
    while i < |items|
      invariant 0 <= i <= |items|
      invariant Groups(order, first, counts) == GroupAll(items[..i], key)
    {
      assert items[..i + 1][..i] == items[..i];
      match key(items[i]) {
        case None =>
        case Some(k) =>
          if k in counts {
            counts := counts[k := counts[k] + 1];
          } else {
            order := order + [k];
            first := first[k := items[i]];
            counts := counts[k := 1];
          }
      }
      i := i + 1;
    }
    assert items[..|items|] == items;
  }
}
