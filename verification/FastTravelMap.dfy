/** The vector-plus-index container of fast_travel_unordered_map.h: entries lie side by side in `vec`,
    `index` gives the place of each key, and removal moves the last entry into the gap.
    An iterator is a place in `vec`; the end iterator is |vec|. */
module FastTravelMaps {

  /** Every entry's key is indexed to that entry, and nothing else is indexed. */
  ghost predicate Indexed<K, V>(vec: seq<(K, V)>, index: map<K, nat>) {
    && (forall i {:trigger vec[i]} | 0 <= i < |vec| :: vec[i].0 in index && index[vec[i].0] == i)
    && (forall k {:trigger index[k]} | k in index :: index[k] < |vec| && vec[index[k]].0 == k)
  }

  /** The plain map that the container stands for. */
  ghost function View<K, V>(vec: seq<(K, V)>, index: map<K, nat>): map<K, V>
    requires Indexed(vec, index)
  {
    map k | k in index :: vec[index[k]].1
  }

  /** The entries after the one at place i is gone and the last one has taken its place. */
  function SwapRemoved<K, V>(vec: seq<(K, V)>, i: nat): (r: seq<(K, V)>)
    requires i < |vec|
  {
    var last := |vec| - 1;
    if i == last then vec[..last] else vec[..last][i := vec[last]]
  }

  function Reindexed<K, V>(vec: seq<(K, V)>, index: map<K, nat>, i: nat): map<K, nat>
    requires i < |vec|
  {
    var last := |vec| - 1;
    (if i == last then index else index[vec[last].0 := i]) - {vec[i].0}
  }

  /** The entries after the key's own, if there is one, has been swap-removed. */
  function Without<K(==), V>(vec: seq<(K, V)>, index: map<K, nat>, key: K): seq<(K, V)>
    requires key in index ==> index[key] < |vec|
  {
    if key in index then SwapRemoved(vec, index[key]) else vec
  }

  lemma AppendKeeps<K, V>(vec: seq<(K, V)>, index: map<K, nat>, entry: (K, V))
    requires Indexed(vec, index) && entry.0 !in index
    ensures Indexed(vec + [entry], index[entry.0 := |vec|])
    ensures View(vec + [entry], index[entry.0 := |vec|]) == View(vec, index)[entry.0 := entry.1]
  {}

  lemma UpdateKeeps<K, V>(vec: seq<(K, V)>, index: map<K, nat>, i: nat, value: V)
    requires Indexed(vec, index) && i < |vec|
    ensures Indexed(vec[i := (vec[i].0, value)], index)
    ensures View(vec[i := (vec[i].0, value)], index) == View(vec, index)[vec[i].0 := value]
  {
    assert vec[i].0 in index;
  }

  lemma SwapRemoveKeeps<K, V>(vec: seq<(K, V)>, index: map<K, nat>, i: nat)
    requires Indexed(vec, index) && i < |vec|
    ensures Indexed(SwapRemoved(vec, i), Reindexed(vec, index, i))
    ensures View(SwapRemoved(vec, i), Reindexed(vec, index, i)) == View(vec, index) - {vec[i].0}
  {
    var last := |vec| - 1;
    var v, m := SwapRemoved(vec, i), Reindexed(vec, index, i);
    assert index[vec[i].0] == i && index[vec[last].0] == last;
    forall j | 0 <= j < |v| ensures v[j].0 in m && m[v[j].0] == j {
      assert v[j] == vec[if j == i then last else j];
      assert index[vec[j].0] == j;
    }
    forall k | k in m ensures m[k] < |v| && v[m[k]].0 == k && v[m[k]].1 == vec[index[k]].1 {
      assert k in index;
      if k == vec[last].0 { assert v[i] == vec[last]; } else { assert v[index[k]] == vec[index[k]]; }
    }
    assert View(v, m).Keys == (View(vec, index) - {vec[i].0}).Keys;
  }

  lemma {:induction false} SwapRemovedElements<K, V>(vec: seq<(K, V)>, i: nat)
    requires i < |vec|
    ensures |SwapRemoved(vec, i)| == |vec| - 1
    ensures multiset(SwapRemoved(vec, i)[i..]) + multiset{vec[i]} == multiset(vec[i..])
    ensures SwapRemoved(vec, i)[..i] == vec[..i]
  {
    var last := |vec| - 1;
    if i == last {
      assert vec[i..] == [vec[i]];
    } else {
      assert vec[i..] == [vec[i]] + vec[i + 1..last] + [vec[last]];
      assert SwapRemoved(vec, i)[i..] == [vec[last]] + vec[i + 1..last];
    }
  }

  /** Entries whose key and value satisfy p. */
  ghost function Matching<K, V>(m: map<K, V>, p: (K, V) -> bool): set<K> {
    set k | k in m && p(k, m[k])
  }

  class FastTravelMap<K(==), V> {
    var vec: seq<(K, V)>
    var index: map<K, nat>

    ghost predicate Valid()
      reads this
    {
      Indexed(vec, index)
    }

    ghost function Contents(): map<K, V>
      requires Valid()
      reads this
    {
      View(vec, index)
    }

    constructor ()
      ensures Valid() && Contents() == map[] && vec == []
    {
      vec, index := [], map[];
    }

    method Insert(key: K, value: V) returns (ok: bool)
      requires Valid()
      modifies this
      ensures Valid()
      ensures ok <==> key !in old(Contents())
      ensures Contents() == if ok then old(Contents())[key := value] else old(Contents())
      ensures vec == if ok then old(vec) + [(key, value)] else old(vec)
    {
      if key in index { return false; }
      AppendKeeps(vec, index, (key, value));
      index := index[key := |vec|];
      vec := vec + [(key, value)];
      index := index[key := |vec| - 1];
      return true;
    }

    /** Place of the key's entry, or the end. The source throws FTUM_DataCorruption when the index
        points outside the vector; here that branch is proved dead. */
    method Find(key: K) returns (i: nat)
      requires Valid()
      ensures i == |vec| <==> key !in Contents()
      ensures i <= |vec| && (i < |vec| ==> vec[i] == (key, Contents()[key]))
    {
      if key !in index { return |vec|; }
      if index[key] >= |vec| { assert false; }
      return index[key];
    }

    /** operator[]: the place of the key's entry, made with a blank value if it was missing. */
    method Locate(key: K, blank: V) returns (i: nat)
      requires Valid()
      modifies this
      ensures Valid() && i < |vec| && vec[i].0 == key
      ensures Contents() == if key in old(Contents()) then old(Contents()) else old(Contents())[key := blank]
      ensures vec[i].1 == Contents()[key]
      ensures if key in old(Contents()) then vec == old(vec) else vec == old(vec) + [(key, blank)] && i == |old(vec)|
    {
      i := Find(key);
      if i != |vec| { return; }
      AppendKeeps(vec, index, (key, blank));
      index := index[key := |vec|];
      vec := vec + [(key, blank)];
      i := |vec| - 1;
    }

    /** Assignment through the reference that operator[] or an iterator gives. */
    method Store(i: nat, value: V)
      requires Valid() && i < |vec|
      modifies this
      ensures Valid() && vec == old(vec)[i := (old(vec)[i].0, value)]
      ensures Contents() == old(Contents())[old(vec)[i].0 := value]
    {
      UpdateKeeps(vec, index, i, value);
      vec := vec[i := (vec[i].0, value)];
    }

    /** map[key] = value: enters the pair, or gives the key a new value where it stands. */
    method Assign(key: K, value: V, blank: V)
      requires Valid()
      modifies this
      ensures Valid() && Contents() == old(Contents())[key := value]
      ensures if key in old(Contents())
        then |vec| == |old(vec)| && forall i | 0 <= i < |vec| && vec[i].0 != key :: vec[i] == old(vec)[i]
        else vec == old(vec) + [(key, value)]
    {
      hide View, Indexed;
      var i := Locate(key, blank);
      Store(i, value);
      assert key !in old(Contents()) ==> old(Contents())[key := blank][key := value] == old(Contents())[key := value];
    }

    method EraseKey(key: K)
      requires Valid()
      modifies this
      ensures Valid() && Contents() == old(Contents()) - {key}
      ensures vec == Without(old(vec), old(index), key)
    {
      if key !in index { return; }
      if index[key] >= |vec| { assert false; }
      var i := index[key];
      SwapRemoveKeeps(vec, index, i);
      ghost var was := vec;
      if |vec| == 1 {
        assert forall k | k in index :: index[k] == 0;
        assert SwapRemoved(vec, i) == [] && Reindexed(vec, index, i) == map[];
        vec, index := [], map[];
        return;
      }
      if index[key] + 1 != |vec| {
        vec := vec[index[key] := vec[|vec| - 1]];
        index := index[vec[index[key]].0 := index[key]];
      }
      vec := vec[..|vec| - 1];
      index := index - {key};
      assert vec == SwapRemoved(was, i);
    }

    /** Erase at an iterator; answers the iterator to continue with, which is the same place. */
    method EraseAt(i: nat) returns (next: nat)
      requires Valid() && i < |vec|
      modifies this
      ensures Valid() && next == i
      ensures vec == SwapRemoved(old(vec), i) && Contents() == old(Contents()) - {old(vec)[i].0}
    {
      next := index[vec[i].0];
      EraseKey(vec[i].0);
    }

    /** The loop by which the server drops entries while it walks over them: each original entry is
        looked at exactly once, and exactly those that satisfy p are gone afterwards. */
    method Sweep(p: (K, V) -> bool) returns (ghost looked: seq<(K, V)>)
      requires Valid()
      modifies this
      ensures Valid()
      ensures multiset(looked) == multiset(old(vec))
      ensures Contents() == old(Contents()) - Matching(old(Contents()), p)
    {
      looked := [];
      var i := 0;
      assert vec[i..] == vec;
      assert Swept(Contents(), Contents(), p);
      hide Indexed, View, SwapRemoved, Swept;
      while i != |vec|
        invariant Valid() && i <= |vec|
        invariant multiset(looked) + multiset(vec[i..]) == multiset(old(vec))
        invariant Swept(old(Contents()), Contents(), p)
        invariant KeptBefore(vec, p, i)
        decreases |vec| - i
      {
        looked := looked + [vec[i]];
        if p(vec[i].0, vec[i].1) {
          SwapRemovedElements(vec, i);
          KeptPrefix(vec, SwapRemoved(vec, i), p, i);
          SweptMore(old(Contents()), vec, index, p, i);
          i := EraseAt(i);
        } else {
          assert vec[i..] == [vec[i]] + vec[i + 1..];
          i := i + 1;
        }
      }
      SweptAll(old(Contents()), vec, index, p);
    }
  }

  /** None of the first n entries satisfies p. */
  ghost predicate KeptBefore<K, V>(vec: seq<(K, V)>, p: (K, V) -> bool, n: nat)
    requires n <= |vec|
  {
    forall j | 0 <= j < n :: !p(vec[j].0, vec[j].1)
  }

  lemma KeptPrefix<K, V>(vec: seq<(K, V)>, vec': seq<(K, V)>, p: (K, V) -> bool, n: nat)
    requires n <= |vec| && n <= |vec'| && vec[..n] == vec'[..n] && KeptBefore(vec, p, n)
    ensures KeptBefore(vec', p, n)
  {
    forall j | 0 <= j < n ensures !p(vec'[j].0, vec'[j].1) { assert vec'[j] == vec[..n][j]; }
  }

  /** `now` is `before` without some of its entries that satisfy p. */
  ghost predicate Swept<K, V>(before: map<K, V>, now: map<K, V>, p: (K, V) -> bool) {
    && (forall k | k in now :: k in before && now[k] == before[k])
    && (forall k | k in before && k !in now :: p(k, before[k]))
  }

  lemma SweptMore<K, V>(before: map<K, V>, vec: seq<(K, V)>, index: map<K, nat>, p: (K, V) -> bool, i: nat)
    requires Indexed(vec, index) && i < |vec| && p(vec[i].0, vec[i].1) && Swept(before, View(vec, index), p)
    ensures Swept(before, View(vec, index) - {vec[i].0}, p)
  {
    assert vec[i].0 in View(vec, index);
  }

  lemma SweptAll<K, V>(before: map<K, V>, vec: seq<(K, V)>, index: map<K, nat>, p: (K, V) -> bool)
    requires Indexed(vec, index) && Swept(before, View(vec, index), p)
    requires KeptBefore(vec, p, |vec|)
    ensures View(vec, index) == before - Matching(before, p)
  {
    var now := View(vec, index);
    forall k ensures k in now <==> k in before - Matching(before, p) {
      if k in now { assert vec[index[k]].0 == k; }
    }
  }
}
