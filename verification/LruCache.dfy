/** The bounded cache of server/water/componet/limited_size_unordered_map_cache.h: a recency list of
    nodes and a map from keys to list nodes. */
module LruCache {
  import opened Wrappers

  // ---------------------------------------------------------------- what the cache means, on values

  /** The list as (key, value) pairs, most recent first. */
  type Items<K, V> = seq<(K, V)>

  ghost predicate Has<K, V>(items: Items<K, V>, k: K) { exists i :: 0 <= i < |items| && items[i].0 == k }

  ghost predicate KeysDistinct<K, V>(items: Items<K, V>) {
    forall i, j | 0 <= i < j < |items| :: items[i].0 != items[j].0
  }

  /** Where key k stands. */
  ghost function Place<K, V>(items: Items<K, V>, k: K): (i: nat)
    requires Has(items, k)
    ensures i < |items| && items[i].0 == k
  {
    if items[0].0 == k then 0
    else
      assert Has(items[1..], k) by {
        var i :| 0 <= i < |items| && items[i].0 == k;
        assert items[1..][i - 1].0 == k;
      }
      1 + Place(items[1..], k)
  }

  ghost function Drop<K, V>(items: Items<K, V>, i: nat): Items<K, V>
    requires i < |items|
  {
    items[..i] + items[i + 1..]
  }

  ghost function Shortened<K, V>(items: Items<K, V>, maxSize: nat): Items<K, V> {
    if |items| > maxSize then items[..|items| - 1] else items
  }

  /** A present key is left alone, value and recency; a new one goes to the front and may push out the last. */
  ghost function Inserted<K, V>(items: Items<K, V>, maxSize: nat, item: (K, V)): Items<K, V> {
    if Has(items, item.0) then items else Shortened([item] + items, maxSize)
  }

  ghost function Found<K, V>(items: Items<K, V>, k: K): Items<K, V> {
    if Has(items, k) then [items[Place(items, k)]] + Drop(items, Place(items, k)) else items
  }

  ghost function Erased<K, V>(items: Items<K, V>, k: K): Items<K, V> {
    if Has(items, k) then Drop(items, Place(items, k)) else items
  }

  /** What is stored under k. */
  ghost function Lookup<K, V>(items: Items<K, V>, k: K): Option<V> {
    if Has(items, k) then Some(items[Place(items, k)].1) else None
  }

  lemma PlaceUnique<K, V>(items: Items<K, V>, k: K, i: nat)
    requires KeysDistinct(items) && i < |items| && items[i].0 == k
    ensures Has(items, k) && Place(items, k) == i
  {}

  // ---------------------------------------------------------------- the class

  /** A list node; list iterators are references to nodes, and stay valid while the node is in the list. */
  class Node<K, V> {
    const key: K
    const value: V

    constructor (key: K, value: V)
      ensures this.key == key && this.value == value
    {
      this.key, this.value := key, value;
    }
  }

  ghost function ItemsOf<K, V>(list: seq<Node<K, V>>): (items: Items<K, V>)
    ensures |items| == |list|
    ensures forall i {:trigger items[i]} | 0 <= i < |list| :: items[i] == (list[i].key, list[i].value)
  {
    seq(|list|, i requires 0 <= i < |list| => (list[i].key, list[i].value))
  }

  ghost predicate NodeOk<K, V>(list: seq<Node<K, V>>, index: map<K, Node<K, V>>, i: nat)
    requires i < |list|
  {
    list[i].key in index && index[list[i].key] == list[i]
  }

  ghost predicate KeyOk<K, V>(list: seq<Node<K, V>>, index: map<K, Node<K, V>>, k: K)
    requires k in index
  {
    index[k] in list && index[k].key == k
  }

  /** List and map are in bijection. */
  ghost predicate Linked<K, V>(list: seq<Node<K, V>>, index: map<K, Node<K, V>>) {
    && |index| == |list|
    && (forall i, j | 0 <= i < j < |list| :: list[i] != list[j])
    && (forall i {:trigger NodeOk(list, index, i)} | 0 <= i < |list| :: NodeOk(list, index, i))
    && (forall k {:trigger KeyOk(list, index, k)} | k in index :: KeyOk(list, index, k))
  }

  lemma LinkedFacts<K, V>(list: seq<Node<K, V>>, index: map<K, Node<K, V>>)
    requires Linked(list, index)
    ensures KeysDistinct(ItemsOf(list))
    ensures forall k :: k in index <==> Has(ItemsOf(list), k)
    ensures forall k | k in index :: index[k] in list && index[k].key == k
  {
    forall i, j | 0 <= i < j < |list| ensures ItemsOf(list)[i].0 != ItemsOf(list)[j].0 {
      assert NodeOk(list, index, i) && NodeOk(list, index, j);
    }
    forall k ensures k in index <==> Has(ItemsOf(list), k) {
      if k in index {
        assert KeyOk(list, index, k);
        var i :| 0 <= i < |list| && list[i] == index[k];
        assert ItemsOf(list)[i].0 == k;
      }
      if Has(ItemsOf(list), k) {
        var i :| 0 <= i < |list| && ItemsOf(list)[i].0 == k;
        assert NodeOk(list, index, i);
      }
    }
    forall k | k in index ensures index[k] in list && index[k].key == k { assert KeyOk(list, index, k); }
  }

  lemma FrontNode<K, V>(list: seq<Node<K, V>>, index: map<K, Node<K, V>>, node: Node<K, V>, i: nat)
    requires Linked(list, index) && node.key !in index && i < |list| + 1
    ensures NodeOk([node] + list, index[node.key := node], i)
  {
    if i > 0 { assert NodeOk(list, index, i - 1); }
  }

  lemma FrontKey<K, V>(list: seq<Node<K, V>>, index: map<K, Node<K, V>>, node: Node<K, V>, k: K)
    requires Linked(list, index) && k in index[node.key := node]
    ensures KeyOk([node] + list, index[node.key := node], k)
  {
    if k == node.key {
      assert ([node] + list)[0] == node;
    } else {
      assert KeyOk(list, index, k);
      var j :| 0 <= j < |list| && list[j] == index[k];
      assert ([node] + list)[j + 1] == index[k];
    }
  }

  lemma LinkFront<K, V>(list: seq<Node<K, V>>, index: map<K, Node<K, V>>, node: Node<K, V>)
    requires Linked(list, index) && node.key !in index
    ensures Linked([node] + list, index[node.key := node])
  {
    hide ItemsOf, NodeOk, KeyOk;
    var l, m := [node] + list, index[node.key := node];
    assert |m| == |l| by { assert m.Keys == index.Keys + {node.key}; }
    FrontDistinct(list, index, node);
    forall i | 0 <= i < |l| ensures NodeOk(l, m, i) { FrontNode(list, index, node, i); }
    forall k | k in m ensures KeyOk(l, m, k) { FrontKey(list, index, node, k); }
  }

  lemma ItemsFront<K, V>(list: seq<Node<K, V>>, node: Node<K, V>)
    ensures ItemsOf([node] + list) == [(node.key, node.value)] + ItemsOf(list)
  {
    assert forall i | 1 <= i < |list| + 1 :: ([node] + list)[i] == list[i - 1];
  }

  lemma FrontDistinct<K, V>(list: seq<Node<K, V>>, index: map<K, Node<K, V>>, node: Node<K, V>)
    requires Linked(list, index) && node.key !in index
    ensures var l := [node] + list; forall i, j | 0 <= i < j < |l| :: l[i] != l[j]
  {
    forall i | 0 <= i < |list| ensures list[i] != node { assert NodeOk(list, index, i); }
  }

  lemma UnlinkNode<K, V>(list: seq<Node<K, V>>, index: map<K, Node<K, V>>, i: nat, j: nat)
    requires Linked(list, index) && i < |list| && j < |list| - 1
    ensures NodeOk(list[..i] + list[i + 1..], index - {list[i].key}, j)
  {
    var j' := if j < i then j else j + 1;
    assert NodeOk(list, index, i) && NodeOk(list, index, j');
    assert list[j'] != list[i];
    hide Linked;
    assert (list[..i] + list[i + 1..])[j] == list[j'];
  }

  lemma UnlinkKey<K, V>(list: seq<Node<K, V>>, index: map<K, Node<K, V>>, i: nat, k: K)
    requires Linked(list, index) && i < |list| && k in index && k != list[i].key
    ensures KeyOk(list[..i] + list[i + 1..], index - {list[i].key}, k)
  {
    assert KeyOk(list, index, k);
    hide Linked;
    var j :| 0 <= j < |list| && list[j] == index[k];
    assert (list[..i] + list[i + 1..])[if j < i then j else j - 1] == list[j];
  }

  lemma UnlinkItems<K, V>(list: seq<Node<K, V>>, i: nat)
    requires i < |list|
    ensures ItemsOf(list[..i] + list[i + 1..]) == Drop(ItemsOf(list), i)
  {}

  lemma UnlinkDistinct<K, V>(list: seq<Node<K, V>>, index: map<K, Node<K, V>>, i: nat)
    requires Linked(list, index) && i < |list|
    ensures list[i].key in index && |index - {list[i].key}| == |list| - 1
    ensures var l := list[..i] + list[i + 1..]; forall a, b | 0 <= a < b < |l| :: l[a] != l[b]
  {
    assert NodeOk(list, index, i);
    assert (index - {list[i].key}).Keys == index.Keys - {list[i].key};
  }

  lemma Unlink<K, V>(list: seq<Node<K, V>>, index: map<K, Node<K, V>>, i: nat)
    requires Linked(list, index) && i < |list|
    ensures list[i].key in index
    ensures Linked(list[..i] + list[i + 1..], index - {list[i].key})
    ensures ItemsOf(list[..i] + list[i + 1..]) == Drop(ItemsOf(list), i)
  {
    hide ItemsOf, NodeOk, KeyOk;
    var l, m := list[..i] + list[i + 1..], index - {list[i].key};
    UnlinkItems(list, i);
    UnlinkDistinct(list, index, i);
    forall j | 0 <= j < |l| ensures NodeOk(l, m, j) { UnlinkNode(list, index, i, j); }
    forall k | k in m ensures KeyOk(l, m, k) { UnlinkKey(list, index, i, k); }
  }

  lemma LinkedSize<K, V>(list: seq<Node<K, V>>, index: map<K, Node<K, V>>)
    requires Linked(list, index)
    ensures |index| == |list|
  {}

  lemma ItemsSize<K, V>(list: seq<Node<K, V>>)
    ensures |ItemsOf(list)| == |list|
  {}

  lemma Spliced<K, V>(list: seq<Node<K, V>>, index: map<K, Node<K, V>>, i: nat)
    requires Linked(list, index) && i < |list|
    ensures var l := [list[i]] + (list[..i] + list[i + 1..]);
      Linked(l, index) && |l| == |list| && ItemsOf(l) == [ItemsOf(list)[i]] + Drop(ItemsOf(list), i)
    ensures index[list[i].key := list[i]] == index
  {
    var node, rest := list[i], list[..i] + list[i + 1..];
    assert NodeOk(list, index, i);
    Unlink(list, index, i);
    LinkFront(rest, index - {node.key}, node);
    ItemsFront(rest, node);
    hide Linked, ItemsOf, NodeOk;
    assert (index - {node.key})[node.key := node] == index;
  }

  lemma Evicted<K, V>(list: seq<Node<K, V>>, index: map<K, Node<K, V>>)
    requires Linked(list, index) && list != []
    ensures var last := |list| - 1;
      Linked(list[..last], index - {list[last].key}) && ItemsOf(list[..last]) == ItemsOf(list)[..last]
  {
    var last := |list| - 1;
    Unlink(list, index, last);
    ItemsSize(list);
    hide Linked, ItemsOf;
    assert list[..last] + list[last + 1..] == list[..last];
    assert Drop(ItemsOf(list), last) == ItemsOf(list)[..last];
  }

  lemma Prepended<K, V>(list: seq<Node<K, V>>, index: map<K, Node<K, V>>, node: Node<K, V>)
    requires Linked(list, index) && node.key !in index
    ensures Linked([node] + list, index[node.key := node]) && |index[node.key := node]| == |list| + 1
    ensures ItemsOf([node] + list) == [(node.key, node.value)] + ItemsOf(list)
  {
    LinkFront(list, index, node);
    ItemsFront(list, node);
    LinkedSize([node] + list, index[node.key := node]);
  }

  /** The new node in front, and the last one out if that is one too many. */
  lemma PrependedWithin<K, V>(list: seq<Node<K, V>>, index: map<K, Node<K, V>>, node: Node<K, V>, maxSize: nat)
    requires Linked(list, index) && node.key !in index && |list| <= maxSize && !Has(ItemsOf(list), node.key)
    ensures var l, m := [node] + list, index[node.key := node];
      var items := Inserted(ItemsOf(list), maxSize, (node.key, node.value));
      if |m| > maxSize then
        && Linked(l[..|l| - 1], m - {l[|l| - 1].key}) && |l| - 1 <= maxSize
        && ItemsOf(l[..|l| - 1]) == items
      else Linked(l, m) && |l| <= maxSize && ItemsOf(l) == items
  {
    var l, m := [node] + list, index[node.key := node];
    Prepended(list, index, node);
    ItemsSize(list);
    hide ItemsOf, Has, Linked;
    if |m| > maxSize { Evicted(l, m); }
  }

  class Cache<K(==), V> {
    const maxSize: nat
    var list: seq<Node<K, V>>
    var index: map<K, Node<K, V>>

    ghost predicate Valid()
      reads this
    {
      |list| <= maxSize && Linked(list, index)
    }

    ghost function Items(): Items<K, V>
      reads this
    {
      ItemsOf(list)
    }

    constructor (maxSize: nat)
      ensures Valid() && this.maxSize == maxSize && Items() == []
    {
      this.maxSize := maxSize;
      list, index := [], map[];
    }

    method Insert(key: K, value: V) returns (ok: bool)
      requires Valid()
      modifies this
      ensures Valid()
      ensures ok <==> !Has(old(Items()), key)
      ensures Items() == Inserted(old(Items()), maxSize, (key, value))
    {
      LinkedFacts(list, index);
      LinkedSize(list, index);
      hide ItemsOf, Has, Linked, Drop;
      var node := new Node(key, value);
      list := [node] + list;
      if key in index {
        list := list[1..];
        return false;
      }
      assert list[1..] == old(list);
      PrependedWithin(list[1..], index, node, maxSize);
      hide *;
      index := index[key := node];
      if |index| > maxSize {
        index := index - {list[|list| - 1].key};
        list := list[..|list| - 1];
      }
      ok := true;
    }

    method Find(key: K) returns (r: Option<V>)
      requires Valid()
      modifies this
      ensures Valid()
      ensures Items() == Found(old(Items()), key)
      ensures r == if Has(old(Items()), key) then Some(old(Items())[Place(old(Items()), key)].1) else None
    {
      LinkedFacts(list, index);
      if key !in index { return None; }
      hide Has, Place, Linked;
      var node := index[key];
      var i := Position(node);
      PlaceUnique(Items(), key, i);
      Spliced(list, index, i);
      hide ItemsOf;
      list := [node] + (list[..i] + list[i + 1..]);
      index := index[key := list[0]];
      r := Some(node.value);
    }

    /** Where a node is linked; the source's iterator knows without looking. */
    method Position(node: Node<K, V>) returns (i: nat)
      requires node in list
      ensures i < |list| && list[i] == node
    {
      i := 0;
      while list[i] != node
        invariant i < |list| && node !in list[..i]
        decreases |list| - i
      {
        i := i + 1;
      }
    }

    /** Erase at an iterator; answers the place of the next element. */
    method EraseNode(node: Node<K, V>) returns (next: nat)
      requires Valid() && node in list
      modifies this
      ensures Valid()
      ensures next < |old(list)| && old(list)[next] == node
      ensures Items() == Drop(old(Items()), next)
    {
      next := Position(node);
      Unlink(list, index, next);
      index := index - {node.key};
      list := list[..next] + list[next + 1..];
    }

    method Erase(key: K)
      requires Valid()
      modifies this
      ensures Valid() && Items() == Erased(old(Items()), key)
    {
      LinkedFacts(list, index);
      if key !in index { return; }
      ghost var items := Items();
      var i := EraseNode(index[key]);
      PlaceUnique(items, key, i);
    }
  }

  // ---------------------------------------------------------------- what survives a trace of operations

  datatype Op<K, V> = Insert(key: K, value: V) | Find(key: K) | Erase(key: K)

  ghost function Apply<K, V>(items: Items<K, V>, maxSize: nat, op: Op<K, V>): Items<K, V> {
    match op
    case Insert(k, v) => Inserted(items, maxSize, (k, v))
    case Find(k) => Found(items, k)
    case Erase(k) => Erased(items, k)
  }

  ghost function Run<K, V>(items: Items<K, V>, maxSize: nat, ops: seq<Op<K, V>>): Items<K, V>
    decreases |ops|
  {
    if ops == [] then items else Run(Apply(items, maxSize, ops[0]), maxSize, ops[1..])
  }

  /** The key that an operation moves or brings to the front. */
  ghost function Touch<K, V>(items: Items<K, V>, op: Op<K, V>): set<K> {
    match op
    case Insert(k, _) => if Has(items, k) then {} else {k}
    case Find(k) => if Has(items, k) then {k} else {}
    case Erase(_) => {}
  }

  /** The distinct keys newly inserted or found during a trace. */
  ghost function Touched<K, V>(items: Items<K, V>, maxSize: nat, ops: seq<Op<K, V>>): set<K>
    decreases |ops|
  {
    if ops == [] then {} else Touch(items, ops[0]) + Touched(Apply(items, maxSize, ops[0]), maxSize, ops[1..])
  }

  ghost predicate WellFormed<K, V>(items: Items<K, V>, maxSize: nat) { KeysDistinct(items) && |items| <= maxSize }

  /** The distinct keys of the first n items. */
  ghost function KeysOf<K(!new), V>(items: Items<K, V>, n: nat): (s: set<K>)
    requires n <= |items|
    ensures forall x :: x in s <==> exists j :: 0 <= j < n && items[j].0 == x
  {
    set j: nat | j < n :: items[j].0
  }

  lemma KeysOfSnoc<K(!new), V>(items: Items<K, V>, n: nat)
    requires KeysDistinct(items) && n < |items|
    ensures KeysOf(items, n + 1) == KeysOf(items, n) + {items[n].0} && items[n].0 !in KeysOf(items, n)
  {
    forall x ensures x in KeysOf(items, n + 1) <==> x in KeysOf(items, n) + {items[n].0} {
      if x in KeysOf(items, n) { var j :| 0 <= j < n && items[j].0 == x; }
    }
  }

  lemma {:induction false} KeysOfSize<K(!new), V>(items: Items<K, V>, n: nat)
    requires KeysDistinct(items) && n <= |items|
    ensures |KeysOf(items, n)| == n
  {
    if n == 0 {
      assert KeysOf(items, 0) == {};
    } else {
      KeysOfSnoc(items, n - 1);
      KeysOfSize(items, n - 1);
    }
  }

  /** k stands at place i of a well-formed list. */
  ghost predicate Stands<K(!new), V>(items: Items<K, V>, maxSize: nat, k: K, i: nat) {
    WellFormed(items, maxSize) && i < |items| && items[i].0 == k
  }

  lemma InsertMoves<K(!new), V>(items: Items<K, V>, maxSize: nat, k: K, i: nat, item: (K, V))
    requires Stands(items, maxSize, k, i) && !Has(items, item.0)
    ensures var after, ahead := Inserted(items, maxSize, item), KeysOf(items, i) + {item.0};
      if i + 1 < maxSize then Stands(after, maxSize, k, i + 1) && KeysOf(after, i + 1) == ahead
      else WellFormed(after, maxSize) && !Has(after, k) && |ahead| == maxSize
  {
    KeysOfSize(items, i);
    var longer := [item] + items;
    assert KeysDistinct(longer) by {
      forall a, b | 0 <= a < b < |longer| ensures longer[a].0 != longer[b].0 {
        assert longer[b] == items[b - 1];
      }
    }
    var after := Inserted(items, maxSize, item);
    if i + 1 < maxSize {
      assert after[i + 1] == items[i];
      forall x ensures x in KeysOf(after, i + 1) <==> x in KeysOf(items, i) + {item.0} {
        if x in KeysOf(items, i) {
          var j :| 0 <= j < i && items[j].0 == x;
          assert after[j + 1].0 == x;
        }
        if x == item.0 { assert after[0].0 == x; }
        if x in KeysOf(after, i + 1) {
          var j :| 0 <= j < i + 1 && after[j].0 == x;
          assert j > 0 ==> items[j - 1].0 == x;
        }
      }
    } else {
      assert |items| == maxSize && i == |items| - 1;
      assert longer[i + 1].0 == k;
    }
  }

  lemma SpliceStands<K(!new), V>(items: Items<K, V>, maxSize: nat, k: K, i: nat, p: nat)
    requires Stands(items, maxSize, k, i) && p < |items| && p != i
    ensures Stands([items[p]] + Drop(items, p), maxSize, k, if p < i then i else i + 1)
  {
    var after := [items[p]] + Drop(items, p);
    forall a, b | 0 <= a < b < |after| ensures after[a].0 != after[b].0 {
      assert after[b] == items[if b <= p then b - 1 else b];
      assert after[a] == items[if a == 0 then p else if a <= p then a - 1 else a];
    }
    assert after[if p < i then i else i + 1] == items[i];
  }

  lemma SpliceKeys<K(!new), V>(items: Items<K, V>, i: nat, p: nat)
    requires i < |items| && p < |items| && p != i
    ensures var i' := if p < i then i else i + 1;
      KeysOf([items[p]] + Drop(items, p), i') == KeysOf(items, i) + {items[p].0}
  {
    var after, i' := [items[p]] + Drop(items, p), if p < i then i else i + 1;
    forall y ensures y in KeysOf(after, i') <==> y in KeysOf(items, i) + {items[p].0} {
      if y in KeysOf(items, i) {
        var j :| 0 <= j < i && items[j].0 == y;
        assert after[if j < p then j + 1 else if j == p then 0 else j] == items[j];
      }
      if y == items[p].0 { assert after[0].0 == y; }
      if y in KeysOf(after, i') {
        var j :| 0 <= j < i' && after[j].0 == y;
        assert j > 0 ==> after[j] == items[if j <= p then j - 1 else j];
      }
    }
  }

  lemma DropStands<K(!new), V>(items: Items<K, V>, maxSize: nat, k: K, i: nat, p: nat)
    requires Stands(items, maxSize, k, i) && p < |items| && p != i
    ensures Stands(Drop(items, p), maxSize, k, if p < i then i - 1 else i)
  {
    var after := Drop(items, p);
    forall a, b | 0 <= a < b < |after| ensures after[a].0 != after[b].0 {
      assert after[a] == items[if a < p then a else a + 1] && after[b] == items[if b < p then b else b + 1];
    }
    assert after[if p < i then i - 1 else i] == items[i];
  }

  lemma DropKeys<K(!new), V>(items: Items<K, V>, i: nat, p: nat)
    requires i < |items| && p < |items| && p != i
    ensures KeysOf(Drop(items, p), if p < i then i - 1 else i) <= KeysOf(items, i)
  {
    var after, i' := Drop(items, p), if p < i then i - 1 else i;
    forall y | y in KeysOf(after, i') ensures y in KeysOf(items, i) {
      var j :| 0 <= j < i' && after[j].0 == y;
      assert after[j] == items[if j < p then j else j + 1];
    }
  }

  /** One insertion or lookup of another key: k moves behind it, unless that pushes k out. */
  lemma OneTouch<K(!new), V>(items: Items<K, V>, maxSize: nat, op: Op<K, V>, k: K, i: nat) returns (i': nat)
    requires Stands(items, maxSize, k, i) && op.key != k && !op.Erase?
    ensures var after, ahead := Apply(items, maxSize, op), KeysOf(items, i) + Touch(items, op);
      if |ahead| < maxSize then Stands(after, maxSize, k, i') && KeysOf(after, i') == ahead
      else !Has(after, k)
  {
    i' := i;
    KeysOfSize(items, i);
    if Has(items, op.key) {
      if op.Find? {
        var p := Place(items, op.key);
        hide Has, Place, WellFormed;
        SpliceStands(items, maxSize, k, i, p);
        SpliceKeys(items, i, p);
        i' := if p < i then i else i + 1;
        StandsSize(Apply(items, maxSize, op), maxSize, k, i');
      } else {
        assert KeysOf(items, i) + {} == KeysOf(items, i);
      }
    } else if op.Insert? {
      InsertMoves(items, maxSize, k, i, (op.key, op.value));
      i' := i + 1;
      hide Has;
      if i + 1 < maxSize { StandsSize(Apply(items, maxSize, op), maxSize, k, i'); }
    } else {
      assert KeysOf(items, i) + {} == KeysOf(items, i);
    }
  }

  lemma StandsSize<K(!new), V>(items: Items<K, V>, maxSize: nat, k: K, i: nat)
    requires Stands(items, maxSize, k, i)
    ensures |KeysOf(items, i)| == i < maxSize
  {
    KeysOfSize(items, i);
  }

  lemma OneErase<K(!new), V>(items: Items<K, V>, maxSize: nat, x: K, k: K, i: nat) returns (i': nat)
    requires Stands(items, maxSize, k, i) && x != k
    ensures Stands(Erased(items, x), maxSize, k, i') && KeysOf(Erased(items, x), i') <= KeysOf(items, i)
  {
    i' := i;
    if Has(items, x) {
      var p := Place(items, x);
      hide Has, Place, WellFormed;
      DropStands(items, maxSize, k, i, p);
      DropKeys(items, i, p);
      i' := if p < i then i - 1 else i;
    }
  }

  /** k is neither found nor erased.  It may be inserted: while it is present that touches nothing. */
  ghost predicate LeavesAlone<K, V>(ops: seq<Op<K, V>>, k: K) { forall op | op in ops && op.key == k :: op.Insert? }

  lemma InsertPresent<K(!new), V>(items: Items<K, V>, maxSize: nat, op: Op<K, V>, k: K, i: nat)
    requires Stands(items, maxSize, k, i) && op.key == k && op.Insert?
    ensures Apply(items, maxSize, op) == items && Touch(items, op) == {}
  {
    assert items[i].0 == k;
  }

  /** Whatever is in the list after an operation was there before or is what the operation inserted. */
  lemma ApplyEntries<K, V>(items: Items<K, V>, maxSize: nat, op: Op<K, V>, i: nat)
    requires i < |Apply(items, maxSize, op)|
    ensures var entry := Apply(items, maxSize, op)[i];
      entry in items || (op.Insert? && !Has(items, op.key) && entry == (op.key, op.value))
  {}

  /** A key's entry may move but not change. */
  lemma EntryStays<K(!new), V>(items: Items<K, V>, maxSize: nat, op: Op<K, V>, k: K, i: nat, i': nat)
    requires Stands(items, maxSize, k, i) && Stands(Apply(items, maxSize, op), maxSize, k, i')
    ensures Apply(items, maxSize, op)[i'] == items[i]
  {
    ApplyEntries(items, maxSize, op, i');
    assert items[i].0 == k;
    hide Apply;
  }

  lemma StandsAt<K(!new), V>(items: Items<K, V>, maxSize: nat, k: K, i: nat)
    requires Stands(items, maxSize, k, i)
    ensures i < |items|
  {}

  lemma StandsValue<K(!new), V>(items: Items<K, V>, maxSize: nat, k: K, i: nat)
    requires Stands(items, maxSize, k, i)
    ensures Lookup(items, k) == Some(items[i].1)
  {
    PlaceUnique(items, k, i);
  }

  /** A key survives, with its value, as long as it is not erased and fewer than maxSize distinct keys, counting
      those ahead of it at the start, are newly inserted or found. */
  lemma {:induction false} Survives<K(!new), V>(items: Items<K, V>, maxSize: nat, ops: seq<Op<K, V>>, k: K, i: nat)
    requires Stands(items, maxSize, k, i) && LeavesAlone(ops, k)
    requires |KeysOf(items, i) + Touched(items, maxSize, ops)| < maxSize
    ensures Lookup(Run(items, maxSize, ops), k) == Some(items[i].1)
    decreases |ops|
  {
    if ops == [] {
      StandsValue(items, maxSize, k, i);
    } else {
      var op, after := ops[0], Apply(items, maxSize, ops[0]);
      var rest, ahead := Touched(after, maxSize, ops[1..]), KeysOf(items, i);
      var all := ahead + Touched(items, maxSize, ops);
      assert all == ahead + Touch(items, op) + rest;
      assert op in ops;
      SubsetSize(ahead + Touch(items, op), all);
      var i';
      if op.key == k {
        InsertPresent(items, maxSize, op, k, i);
        i' := i;
      } else if op.Erase? {
        i' := OneErase(items, maxSize, op.key, k, i);
      } else {
        i' := OneTouch(items, maxSize, op, k, i);
      }
      hide Apply, Touch, Has, Lookup;
      SubsetSize(KeysOf(after, i') + rest, all);
      EntryStays(items, maxSize, op, k, i, i');
      Survives(after, maxSize, ops[1..], k, i');
    }
  }

  lemma SubsetSize<K>(a: set<K>, b: set<K>)
    requires a <= b
    ensures |a| <= |b|
  {
    assert b == a + (b - a);
  }

  // ---------------------------------------------------------------- since the last touch

  ghost predicate NeverErased<K, V>(ops: seq<Op<K, V>>, k: K) { forall op | op in ops && op.Erase? :: op.key != k }

  /** The keys newer than k after an operation: finding k makes it the newest. */
  ghost function NewerStep<K, V>(items: Items<K, V>, op: Op<K, V>, k: K, newer: set<K>): set<K> {
    if op.Find? && op.key == k then {} else newer + Touch(items, op)
  }

  /** The distinct keys newly inserted or found since k was last found, or if it was not, those and `newer`. */
  ghost function Newer<K, V>(items: Items<K, V>, maxSize: nat, ops: seq<Op<K, V>>, k: K, newer: set<K>): set<K>
    decreases |ops|
  {
    if ops == [] then newer
    else Newer(Apply(items, maxSize, ops[0]), maxSize, ops[1..], k, NewerStep(items, ops[0], k, newer))
  }

  /** k is there after every beginning of the trace. */
  ghost predicate AlwaysHas<K, V>(items: Items<K, V>, maxSize: nat, ops: seq<Op<K, V>>, k: K) {
    forall n | 0 <= n <= |ops| :: Has(Run(items, maxSize, ops[..n]), k)
  }

  /** At no time maxSize keys are newer than k. */
  ghost predicate AlwaysFew<K, V>(items: Items<K, V>, maxSize: nat, ops: seq<Op<K, V>>, k: K, newer: set<K>) {
    forall n | 0 <= n <= |ops| :: |Newer(items, maxSize, ops[..n], k, newer)| < maxSize
  }

  lemma AlwaysHasStep<K, V>(items: Items<K, V>, maxSize: nat, ops: seq<Op<K, V>>, k: K)
    requires ops != []
    ensures var after := Apply(items, maxSize, ops[0]);
      AlwaysHas(items, maxSize, ops, k) <==> Has(items, k) && AlwaysHas(after, maxSize, ops[1..], k)
  {
    hide Apply, Has;
    var after := Apply(items, maxSize, ops[0]);
    assert Run(items, maxSize, ops[..0]) == items;
    forall n | 0 < n <= |ops|
      ensures Run(items, maxSize, ops[..n]) == Run(after, maxSize, ops[1..][..n - 1])
    {
      assert ops[..n][1..] == ops[1..][..n - 1];
    }
    if AlwaysHas(items, maxSize, ops, k) {
      forall n | 0 <= n <= |ops| - 1 ensures Has(Run(after, maxSize, ops[1..][..n]), k) {
        assert Has(Run(items, maxSize, ops[..n + 1]), k);
      }
    }
  }

  lemma AlwaysFewStep<K, V>(items: Items<K, V>, maxSize: nat, ops: seq<Op<K, V>>, k: K, newer: set<K>)
    requires ops != []
    ensures var after, next := Apply(items, maxSize, ops[0]), NewerStep(items, ops[0], k, newer);
      AlwaysFew(items, maxSize, ops, k, newer) <==> |newer| < maxSize && AlwaysFew(after, maxSize, ops[1..], k, next)
  {
    hide Apply, NewerStep;
    var after, next := Apply(items, maxSize, ops[0]), NewerStep(items, ops[0], k, newer);
    assert Newer(items, maxSize, ops[..0], k, newer) == newer;
    forall n | 0 < n <= |ops|
      ensures Newer(items, maxSize, ops[..n], k, newer) == Newer(after, maxSize, ops[1..][..n - 1], k, next)
    {
      assert ops[..n][1..] == ops[1..][..n - 1];
    }
    if AlwaysFew(items, maxSize, ops, k, newer) {
      forall n | 0 <= n <= |ops| - 1 ensures |Newer(after, maxSize, ops[1..][..n], k, next)| < maxSize {
        assert |Newer(items, maxSize, ops[..n + 1], k, newer)| < maxSize;
      }
    }
  }

  lemma FoundStands<K(!new), V>(items: Items<K, V>, maxSize: nat, k: K, i: nat)
    requires Stands(items, maxSize, k, i)
    ensures Stands(Found(items, k), maxSize, k, 0) && KeysOf(Found(items, k), 0) == {}
  {
    PlaceUnique(items, k, i);
    var after := [items[i]] + Drop(items, i);
    forall a, b | 0 <= a < b < |after| ensures after[a].0 != after[b].0 {
      assert after[b] == items[if b <= i then b - 1 else b];
      assert after[a] == items[if a == 0 then i else if a <= i then a - 1 else a];
    }
  }

  /** One operation that does not erase k, while fewer than maxSize keys are newer. */
  lemma OneStep<K(!new), V>(items: Items<K, V>, maxSize: nat, op: Op<K, V>, k: K, i: nat, newer: set<K>)
    returns (i': nat)
    requires Stands(items, maxSize, k, i) && KeysOf(items, i) <= newer && (op.Erase? ==> op.key != k)
    requires |NewerStep(items, op, k, newer)| < maxSize
    ensures var after := Apply(items, maxSize, op);
      Stands(after, maxSize, k, i') && KeysOf(after, i') <= NewerStep(items, op, k, newer)
  {
    if op.key == k {
      if op.Find? {
        FoundStands(items, maxSize, k, i);
        i' := 0;
      } else {
        InsertPresent(items, maxSize, op, k, i);
        i' := i;
      }
    } else if op.Erase? {
      i' := OneErase(items, maxSize, op.key, k, i);
    } else {
      SubsetSize(KeysOf(items, i) + Touch(items, op), newer + Touch(items, op));
      i' := OneTouch(items, maxSize, op, k, i);
    }
  }

  /** A key that is never erased stays, with its value, as long as fewer than maxSize distinct keys were newly
      inserted or found since it was last found, whatever else happens. */
  lemma {:induction false} SurvivesFinds<K(!new), V>(items: Items<K, V>, maxSize: nat, ops: seq<Op<K, V>>, k: K,
                                                     i: nat, newer: set<K>)
    requires Stands(items, maxSize, k, i) && KeysOf(items, i) <= newer && NeverErased(ops, k)
    requires AlwaysFew(items, maxSize, ops, k, newer)
    ensures Lookup(Run(items, maxSize, ops), k) == Some(items[i].1)
    decreases |ops|
  {
    if ops == [] {
      StandsValue(items, maxSize, k, i);
    } else {
      var op, after := ops[0], Apply(items, maxSize, ops[0]);
      var next := NewerStep(items, op, k, newer);
      assert op in ops;
      AlwaysFewStep(items, maxSize, ops, k, newer);
      AlwaysFewNow(after, maxSize, ops[1..], k, next);
      StandsAt(items, maxSize, k, i);
      hide Apply, NewerStep, Stands, Has, Lookup, KeysOf, AlwaysFew;
      var i' := OneStep(items, maxSize, op, k, i, newer);
      StandsAt(after, maxSize, k, i');
      EntryStays(items, maxSize, op, k, i, i');
      SurvivesFinds(after, maxSize, ops[1..], k, i', next);
    }
  }

  lemma AlwaysFewNow<K, V>(items: Items<K, V>, maxSize: nat, ops: seq<Op<K, V>>, k: K, newer: set<K>)
    requires AlwaysFew(items, maxSize, ops, k, newer)
    ensures |newer| < maxSize
  {
    assert Newer(items, maxSize, ops[..0], k, newer) == newer;
  }

  lemma OneStepIff<K(!new), V>(items: Items<K, V>, maxSize: nat, op: Op<K, V>, k: K, i: nat) returns (i': nat)
    requires Stands(items, maxSize, k, i) && !op.Erase?
    ensures var after, next := Apply(items, maxSize, op), NewerStep(items, op, k, KeysOf(items, i));
      if |next| < maxSize then Stands(after, maxSize, k, i') && KeysOf(after, i') == next else !Has(after, k)
  {
    i' := i;
    if op.key != k {
      i' := OneTouch(items, maxSize, op, k, i);
    } else if op.Find? {
      FoundStands(items, maxSize, k, i);
      i' := 0;
    } else {
      InsertPresent(items, maxSize, op, k, i);
      StandsSize(items, maxSize, k, i);
      assert KeysOf(items, i) + {} == KeysOf(items, i);
    }
  }

  /** Only an insertion brings a key back, and that touches it. */
  lemma {:induction false} StaysGone<K(!new), V>(items: Items<K, V>, maxSize: nat, ops: seq<Op<K, V>>, k: K)
    requires !Has(items, k) && LeavesAlone(ops, k) && k !in Touched(items, maxSize, ops)
    ensures !Has(Run(items, maxSize, ops), k)
    decreases |ops|
  {
    if ops == [] {
    } else {
      var after := Apply(items, maxSize, ops[0]);
      assert ops[0] in ops;
      assert k !in Touch(items, ops[0]);
      forall j | 0 <= j < |after| ensures after[j].0 != k { assert after[j] in items || after[j].0 == ops[0].key; }
      StaysGone(after, maxSize, ops[1..], k);
    }
  }

  /** Without erasures the bound is exact: a key that is not found, and inserted only while it is there, is evicted
      as soon as maxSize distinct keys, counting those ahead of it at the start, have been newly inserted or found. */
  lemma {:induction false} SurvivesIff<K(!new), V>(items: Items<K, V>, maxSize: nat, ops: seq<Op<K, V>>, k: K, i: nat)
    requires Stands(items, maxSize, k, i) && LeavesAlone(ops, k) && forall op | op in ops :: !op.Erase?
    requires k !in Touched(items, maxSize, ops)
    ensures Has(Run(items, maxSize, ops), k) <==> |KeysOf(items, i) + Touched(items, maxSize, ops)| < maxSize
    decreases |ops|
  {
    if ops == [] {
      assert items[i].0 == k;
      StandsSize(items, maxSize, k, i);
      assert KeysOf(items, i) + {} == KeysOf(items, i);
    } else {
      var op, after := ops[0], Apply(items, maxSize, ops[0]);
      var rest, ahead := Touched(after, maxSize, ops[1..]), KeysOf(items, i) + Touch(items, ops[0]);
      assert KeysOf(items, i) + Touched(items, maxSize, ops) == ahead + rest;
      assert op in ops;
      var i' := OneStepIff(items, maxSize, op, k, i);
      assert NewerStep(items, op, k, KeysOf(items, i)) == ahead;
      hide Apply, Touch, Has;
      if |ahead| < maxSize {
        SurvivesIff(after, maxSize, ops[1..], k, i');
      } else {
        SubsetSize(ahead, ahead + rest);
        StaysGone(after, maxSize, ops[1..], k);
      }
    }
  }

  /** Without erasures that is exact: k has been there all along exactly if at no time maxSize keys were newer. */
  lemma {:induction false} SurvivesFindsIff<K(!new), V>(items: Items<K, V>, maxSize: nat, ops: seq<Op<K, V>>, k: K,
                                                        i: nat)
    requires Stands(items, maxSize, k, i) && forall op | op in ops :: !op.Erase?
    ensures AlwaysHas(items, maxSize, ops, k) <==> AlwaysFew(items, maxSize, ops, k, KeysOf(items, i))
    decreases |ops|
  {
    StandsSize(items, maxSize, k, i);
    assert items[i].0 == k;
    if ops == [] {
      assert ops[..0] == [];
    } else {
      var op, after := ops[0], Apply(items, maxSize, ops[0]);
      var next := NewerStep(items, op, k, KeysOf(items, i));
      assert op in ops;
      AlwaysHasStep(items, maxSize, ops, k);
      AlwaysFewStep(items, maxSize, ops, k, KeysOf(items, i));
      var i' := OneStepIff(items, maxSize, op, k, i);
      if |next| < maxSize {
        hide Apply, NewerStep, Stands, Has, KeysOf, AlwaysHas, AlwaysFew;
        SurvivesFindsIff(after, maxSize, ops[1..], k, i');
      } else {
        hide Apply, NewerStep, Stands, KeysOf;
        assert ops[1..][..0] == [];
        assert Run(after, maxSize, []) == after && Newer(after, maxSize, [], k, next) == next;
      }
    }
  }

  lemma {:induction false} RunInParts<K, V>(items: Items<K, V>, maxSize: nat, a: seq<Op<K, V>>, b: seq<Op<K, V>>)
    ensures Run(items, maxSize, a + b) == Run(Run(items, maxSize, a), maxSize, b)
    decreases |a|
  {
    hide Apply;
    if a == [] {
      assert a + b == b;
    } else {
      assert (a + b)[1..] == a[1..] + b;
      RunInParts(Apply(items, maxSize, a[0]), maxSize, a[1..], b);
    }
  }

  /** Every operation keeps keys distinct and the size bounded. */
  lemma ApplyKeeps<K(!new), V>(items: Items<K, V>, maxSize: nat, op: Op<K, V>)
    requires WellFormed(items, maxSize)
    ensures WellFormed(Apply(items, maxSize, op), maxSize)
  {
    var after := Apply(items, maxSize, op);
    match op
    case Insert(k, v) =>
      forall a, b | 0 <= a < b < |after| ensures after[a].0 != after[b].0 {
        assert !Has(items, k) ==> after[b] == items[b - 1];
      }
    case Find(k) =>
      if Has(items, k) { FoundStands(items, maxSize, k, Place(items, k)); }
    case Erase(k) =>
      if Has(items, k) {
        var p := Place(items, k);
        forall a, b | 0 <= a < b < |after| ensures after[a].0 != after[b].0 {
          assert after[a] == items[if a < p then a else a + 1] && after[b] == items[if b < p then b else b + 1];
        }
      }
  }

  lemma {:induction false} RunKeeps<K(!new), V>(items: Items<K, V>, maxSize: nat, ops: seq<Op<K, V>>)
    requires WellFormed(items, maxSize)
    ensures WellFormed(Run(items, maxSize, ops), maxSize)
    decreases |ops|
  {
    if ops == [] {
    } else {
      ApplyKeeps(items, maxSize, ops[0]);
      RunKeeps(Apply(items, maxSize, ops[0]), maxSize, ops[1..]);
    }
  }

  /** An operation that touches k leaves it at the front. */
  lemma TouchedIsFirst<K(!new), V>(items: Items<K, V>, maxSize: nat, op: Op<K, V>, k: K)
    requires WellFormed(items, maxSize) && maxSize > 0 && k in Touch(items, op)
    ensures Stands(Apply(items, maxSize, op), maxSize, k, 0) && KeysOf(Apply(items, maxSize, op), 0) == {}
    ensures op.Insert? ==> Apply(items, maxSize, op)[0] == (k, op.value)
  {
    ApplyKeeps(items, maxSize, op);
    if op.Find? { FoundStands(items, maxSize, k, Place(items, k)); }
  }

  /** Over any trace from an empty cache: once an operation has inserted or found k, k stays, with its value, through
      whatever follows that does not erase it, as long as fewer than maxSize distinct keys are inserted or found
      between two touches of k. */
  lemma SurvivesSinceTouch<K(!new), V>(maxSize: nat, before: seq<Op<K, V>>, touch: Op<K, V>, ops: seq<Op<K, V>>, k: K)
    requires maxSize > 0 && k in Touch(Run([], maxSize, before), touch) && NeverErased(ops, k)
    requires AlwaysFew(Run([], maxSize, before + [touch]), maxSize, ops, k, {})
    ensures var value := Lookup(Run([], maxSize, before + [touch] + ops), k);
      && value != None && value == Lookup(Run([], maxSize, before + [touch]), k)
      && (touch.Insert? ==> value == Some(touch.value))
  {
    var was := Run([], maxSize, before);
    RunKeeps([], maxSize, before);
    RunInParts([], maxSize, before, [touch]);
    RunInParts([], maxSize, before + [touch], ops);
    TouchedIsFirst(was, maxSize, touch, k);
    assert Run(was, maxSize, [touch]) == Apply(was, maxSize, touch);
    StandsValue(Run([], maxSize, before + [touch]), maxSize, k, 0);
    hide Run, Apply, Stands, WellFormed, KeysOf, Has, AlwaysFew, Touch, NeverErased, Lookup;
    SurvivesFinds(Run([], maxSize, before + [touch]), maxSize, ops, k, 0, {});
  }

  /** What each operation does, key by key: a new key comes in with its value and a found one keeps its own, both in
      front; an erased one goes; and no other key changes its value, or goes, unless an insertion pushes it out. */
  lemma {:induction false} ApplyByKeys<K(!new), V>(items: Items<K, V>, maxSize: nat, op: Op<K, V>, k: K)
    requires WellFormed(items, maxSize) && maxSize > 0
    ensures var after := Apply(items, maxSize, op);
      match op
      case Insert(x, v) =>
        && (Has(items, x) ==> after == items)
        && (!Has(items, x) ==> after[0] == (x, v) && |after| == if |items| < maxSize then |items| + 1 else maxSize)
      case Find(x) => Has(items, x) ==> after[0].0 == x && |after| == |items|
      case Erase(x) => !Has(after, x) && |after| == |items| - if Has(items, x) then 1 else 0
    ensures op.key != k && !op.Insert? ==> Lookup(Apply(items, maxSize, op), k) == Lookup(items, k)
  {
    var after := Apply(items, maxSize, op);
    if Has(items, op.key) {
      var p := Place(items, op.key);
      if op.Erase? {
        assert forall i | 0 <= i < |after| :: after[i] == items[if i < p then i else i + 1];
      }
      if op.key != k && !op.Insert? { OthersStay(items, maxSize, op, k, p); }
    }
  }

  /** Where the entry at place i goes when another one is found or erased. */
  lemma EntryAfter<K(!new), V>(items: Items<K, V>, maxSize: nat, op: Op<K, V>, p: nat, i: nat) returns (i': nat)
    requires Has(items, op.key) && p == Place(items, op.key) && i < |items| && i != p && !op.Insert?
    ensures i' < |Apply(items, maxSize, op)| && Apply(items, maxSize, op)[i'] == items[i]
  {
    i' := if op.Find? then if p < i then i else i + 1 else if p < i then i - 1 else i;
    hide Has, Place;
  }

  lemma OthersStay<K(!new), V>(items: Items<K, V>, maxSize: nat, op: Op<K, V>, k: K, p: nat)
    requires WellFormed(items, maxSize) && Has(items, op.key) && p == Place(items, op.key) && op.key != k && !op.Insert?
    ensures Lookup(Apply(items, maxSize, op), k) == Lookup(items, k)
  {
    var after := Apply(items, maxSize, op);
    ApplyKeeps(items, maxSize, op);
    if Has(items, k) {
      var i := Place(items, k);
      var i' := EntryAfter(items, maxSize, op, p, i);
      hide Apply;
      PlaceUnique(after, k, i');
    } else if Has(after, k) {
      ApplyEntries(items, maxSize, op, Place(after, k));
      hide Apply;
    }
  }

  // ---------------------------------------------------------------- values

  /** What an operation leaves stored under k: what was, or what it inserted in place of nothing. */
  lemma LookupStep<K(!new), V>(items: Items<K, V>, maxSize: nat, op: Op<K, V>, k: K, v: V)
    requires WellFormed(items, maxSize)
    ensures var after := Apply(items, maxSize, op);
      Lookup(after, k) == Some(v) <==>
        Has(after, k) && if Has(items, k) then Lookup(items, k) == Some(v) else op == Insert(k, v)
  {
    var after := Apply(items, maxSize, op);
    if Has(after, k) {
      var i := Place(after, k);
      ApplyEntries(items, maxSize, op, i);
      hide Apply;
      assert after[i].0 == k;
      if Has(items, k) {
        var j := Place(items, k);
        assert after[i] in items;
      }
    }
  }

  /** The j-th operation of the trace inserted v under k, which was not there, and k has been there ever since. */
  ghost predicate InsertedAt<K, V>(maxSize: nat, ops: seq<Op<K, V>>, j: nat, k: K, v: V) {
    && j < |ops| && ops[j] == Insert(k, v) && !Has(Run([], maxSize, ops[..j]), k)
    && forall n | j < n <= |ops| :: Has(Run([], maxSize, ops[..n]), k)
  }

  lemma InsertedAtStep<K, V>(maxSize: nat, ops: seq<Op<K, V>>, op: Op<K, V>, j: nat, k: K, v: V)
    ensures InsertedAt(maxSize, ops + [op], j, k, v) <==>
      && Has(Run([], maxSize, ops + [op]), k)
      && if j < |ops| then InsertedAt(maxSize, ops, j, k, v)
         else j == |ops| && op == Insert(k, v) && !Has(Run([], maxSize, ops), k)
  {
    hide Has, Run;
    var all := ops + [op];
    assert all[..|all|] == all && ops[..|ops|] == ops;
    forall n | 0 <= n <= |ops| ensures all[..n] == ops[..n] {}
  }

  /** Over any trace from an empty cache, what is stored under k is what was inserted when k last came in: never a
      value offered while k was there, and never one from before k was lost. */
  lemma {:induction false} ValueIsTheInserted<K(!new), V>(maxSize: nat, ops: seq<Op<K, V>>, k: K, v: V)
    ensures Lookup(Run([], maxSize, ops), k) == Some(v) <==> exists j: nat :: InsertedAt(maxSize, ops, j, k, v)
    decreases |ops|
  {
    if ops == [] {
    } else {
      var n := |ops| - 1;
      var before, op := ops[..n], ops[n];
      var items := Run([], maxSize, before);
      assert ops == before + [op];
      RunKeeps([], maxSize, before);
      RunInParts([], maxSize, before, [op]);
      assert Run(items, maxSize, [op]) == Apply(items, maxSize, op);
      hide Apply, Run, Has, Lookup, InsertedAt, WellFormed;
      LookupStep(items, maxSize, op, k, v);
      ValueIsTheInserted(maxSize, before, k, v);
      forall j: nat ensures InsertedAt(maxSize, ops, j, k, v) <==>
          && Has(Run([], maxSize, ops), k)
          && if j < n then InsertedAt(maxSize, before, j, k, v)
             else j == n && op == Insert(k, v) && !Has(items, k)
      {
        InsertedAtStep(maxSize, before, op, j, k, v);
      }
      forall j: nat | InsertedAt(maxSize, before, j, k, v) ensures j < n && Has(items, k) {
        InsertedSince(maxSize, before, j, k, v);
      }
      if Lookup(Run([], maxSize, ops), k) == Some(v) {
        if Has(items, k) {
          var j: nat :| InsertedAt(maxSize, before, j, k, v);
          assert InsertedAt(maxSize, ops, j, k, v);
        } else {
          assert InsertedAt(maxSize, ops, n, k, v);
        }
      }
    }
  }

  lemma InsertedSince<K, V>(maxSize: nat, ops: seq<Op<K, V>>, j: nat, k: K, v: V)
    requires InsertedAt(maxSize, ops, j, k, v)
    ensures j < |ops| && Has(Run([], maxSize, ops), k)
  {
    assert ops[..|ops|] == ops;
  }
}
