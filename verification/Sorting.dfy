/** Sorting by an integer key.  Where no two elements have the same key, as for cards and plain integers, the
    sorted arrangement is unique, so whatever `std::sort` does its result is the one computed here. */
module Sorting {

  ghost predicate Sorted<T>(s: seq<T>, key: T -> int) { forall i, j | 0 <= i < j < |s| :: key(s[i]) <= key(s[j]) }

  ghost predicate Injective<T(!new)>(key: T -> int) {
    forall x, y {:trigger key(x), key(y)} :: key(x) == key(y) ==> x == y
  }

  function Placed<T>(s: seq<T>, x: T, key: T -> int): (t: seq<T>)
    ensures |t| == |s| + 1
  {
    if s == [] || key(x) <= key(s[0]) then [x] + s else [s[0]] + Placed(s[1..], x, key)
  }

  function SortBy<T>(s: seq<T>, key: T -> int): (t: seq<T>)
    ensures |t| == |s|
  {
    if s == [] then [] else Placed(SortBy(s[1..], key), s[0], key)
  }

  lemma {:induction false} PlacedAtLeast<T>(s: seq<T>, x: T, key: T -> int, low: int)
    requires low <= key(x) && forall i | 0 <= i < |s| :: low <= key(s[i])
    ensures forall i | 0 <= i < |Placed(s, x, key)| :: low <= key(Placed(s, x, key)[i])
  {
    if s == [] || key(x) <= key(s[0]) {
    } else {
      PlacedAtLeast(s[1..], x, key, low);
    }
  }

  lemma {:induction false} PlacedElements<T>(s: seq<T>, x: T, key: T -> int)
    ensures multiset(Placed(s, x, key)) == multiset(s) + multiset{x}
  {
    if s == [] || key(x) <= key(s[0]) {
    } else {
      PlacedElements(s[1..], x, key);
      assert s == [s[0]] + s[1..];
    }
  }

  lemma {:induction false} PlacedSorted<T>(s: seq<T>, x: T, key: T -> int)
    requires Sorted(s, key)
    ensures Sorted(Placed(s, x, key), key)
  {
    if s == [] || key(x) <= key(s[0]) {
    } else {
      PlacedSorted(s[1..], x, key);
      PlacedAtLeast(s[1..], x, key, key(s[0]));
    }
  }

  lemma {:induction false} SortBySorts<T>(s: seq<T>, key: T -> int)
    ensures Sorted(SortBy(s, key), key) && multiset(SortBy(s, key)) == multiset(s)
  {
    if s == [] {
    } else {
      SortBySorts(s[1..], key);
      PlacedSorted(SortBy(s[1..], key), s[0], key);
      PlacedElements(SortBy(s[1..], key), s[0], key);
      assert s == [s[0]] + s[1..];
    }
  }

  lemma FirstAway<T>(s: seq<T>, key: T -> int)
    requires Sorted(s, key) && s != []
    ensures Sorted(s[1..], key) && multiset(s[1..]) == multiset(s) - multiset{s[0]}
    ensures s == [s[0]] + s[1..] && s[0] in multiset(s)
  {
    assert s == [s[0]] + s[1..];
  }

  lemma FirstIsLeast<T>(s: seq<T>, key: T -> int, x: T)
    requires Sorted(s, key) && x in multiset(s)
    ensures s != [] && key(s[0]) <= key(x)
  {
    var j :| 0 <= j < |s| && s[j] == x;
  }

  lemma SameFirst<T(!new)>(s: seq<T>, t: seq<T>, key: T -> int)
    requires Injective(key) && Sorted(s, key) && Sorted(t, key) && multiset(s) == multiset(t) && s != []
    ensures t != [] && s[0] == t[0] && multiset(s[1..]) == multiset(t[1..])
  {
    FirstAway(s, key);
    FirstIsLeast(t, key, s[0]);
    FirstAway(t, key);
    FirstIsLeast(s, key, t[0]);
  }

  /** The sorted arrangement of given elements is unique. */
  lemma {:induction false} SortedUnique<T(!new)>(s: seq<T>, t: seq<T>, key: T -> int)
    requires Injective(key) && Sorted(s, key) && Sorted(t, key) && multiset(s) == multiset(t)
    ensures s == t
  {
    if s == [] {
      assert |t| == |multiset(t)| == 0;
    } else {
      SameFirst(s, t, key);
      FirstAway(s, key);
      FirstAway(t, key);
      SortedUnique(s[1..], t[1..], key);
    }
  }

  /** So the order in which the elements came does not matter. */
  lemma SortIgnoresOrder<T(!new)>(s: seq<T>, t: seq<T>, key: T -> int)
    requires Injective(key) && multiset(s) == multiset(t)
    ensures SortBy(s, key) == SortBy(t, key)
  {
    SortBySorts(s, key);
    SortBySorts(t, key);
    SortedUnique(SortBy(s, key), SortBy(t, key), key);
  }

  /** Whatever is sorted and has the elements of s is s sorted. */
  lemma SortedIsSortBy<T(!new)>(s: seq<T>, t: seq<T>, key: T -> int)
    requires Injective(key) && Sorted(t, key) && multiset(s) == multiset(t)
    ensures t == SortBy(s, key)
  {
    SortBySorts(s, key);
    SortedUnique(t, SortBy(s, key), key);
  }
}
