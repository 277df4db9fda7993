/** The robot's recursive generator of card combinations (`combine_decrease` of server/tools/robot/deck.cpp).
    The per-category test on a selection is an arbitrary predicate. */
module Combinations {

  type Card = nat

  /** `s` picks k different indices below n, in increasing order. */
  predicate IsSelection(s: seq<nat>, n: nat, k: nat) {
    |s| == k && Below(s, n) && forall i, j | 0 <= i < j < |s| :: s[i] < s[j]
  }

  /** The index lists in the order in which the recursion completes them: the largest index is chosen
      first, from high to low; `tail` holds the indices already chosen. */
  function Selections(start: nat, count: nat, tail: seq<nat>): seq<seq<nat>>
    decreases start
  {
    if start < count || count == 0 then []
    else
      (if count == 1 then [[start - 1] + tail] else Selections(start - 1, count - 1, [start - 1] + tail))
      + Selections(start - 1, count, tail)
  }

  predicate Below(s: seq<nat>, n: nat) { forall i | 0 <= i < |s| :: s[i] < n }

  /** The cards of a selection, highest index first. */
  function Pick(arr: seq<Card>, s: seq<nat>): seq<Card>
    requires Below(s, |arr|)
  {
    seq(|s|, (j: nat) requires j < |s| => arr[s[|s| - 1 - j]])
  }

  predicate InRange(arr: seq<Card>, sels: seq<seq<nat>>) {
    forall s | s in sels :: Below(s, |arr|)
  }

  /** The passing selections, in order. */
  function Passing(arr: seq<Card>, sels: seq<seq<nat>>, passes: seq<Card> -> bool): seq<seq<nat>>
    requires InRange(arr, sels)
  {
    if sels == [] then []
    else (if passes(Pick(arr, sels[0])) then [sels[0]] else []) + Passing(arr, sels[1..], passes)
  }

  /** Their cards, in order. */
  function Picks(arr: seq<Card>, sels: seq<seq<nat>>, passes: seq<Card> -> bool): seq<seq<Card>>
    requires InRange(arr, sels)
  {
    if sels == [] then []
    else (if passes(Pick(arr, sels[0])) then [Pick(arr, sels[0])] else []) + Picks(arr, sels[1..], passes)
  }

  lemma {:induction false} PicksAppend(arr: seq<Card>, a: seq<seq<nat>>, b: seq<seq<nat>>, passes: seq<Card> -> bool)
    requires InRange(arr, a) && InRange(arr, b)
    ensures InRange(arr, a + b) && Picks(arr, a + b, passes) == Picks(arr, a, passes) + Picks(arr, b, passes)
  {
    hide Pick, Below;
    if a == [] {
      assert a + b == b;
    } else {
      PicksAppend(arr, a[1..], b, passes);
      assert (a + b)[1..] == a[1..] + b;
    }
  }

  lemma {:induction false} SelectionsInRange(arr: seq<Card>, start: nat, count: nat, tail: seq<nat>)
    requires start <= |arr| && Below(tail, |arr|)
    ensures InRange(arr, Selections(start, count, tail))
    decreases start
  {
    if start >= count > 0 {
      SelectionsInRange(arr, start - 1, count, tail);
      if count > 1 { SelectionsInRange(arr, start - 1, count - 1, [start - 1] + tail); }
    }
  }

  /** The cards of the passing selections below `start` extended by `tail`, in generation order. */
  function Generated(arr: seq<Card>, start: nat, count: nat, tail: seq<nat>, passes: seq<Card> -> bool): seq<seq<Card>>
    requires start <= |arr| && Below(tail, |arr|)
  {
    SelectionsInRange(arr, start, count, tail);
    Picks(arr, Selections(start, count, tail), passes)
  }

  /** The part of them whose `count`-th index was just chosen: it is the head of `tail`. */
  function GeneratedFrom(arr: seq<Card>, count: nat, tail: seq<nat>, passes: seq<Card> -> bool): seq<seq<Card>>
    requires tail != [] && count >= 1 && Below(tail, |arr|)
  {
    if count > 1 then Generated(arr, tail[0], count - 1, tail, passes)
    else if passes(Pick(arr, tail)) then [Pick(arr, tail)] else []
  }

  lemma GeneratedNone(arr: seq<Card>, start: nat, count: nat, tail: seq<nat>, passes: seq<Card> -> bool)
    requires start <= |arr| && Below(tail, |arr|) && start < count
    ensures Generated(arr, start, count, tail, passes) == []
  {}

  lemma AppendAssoc<T>(a: seq<T>, b: seq<T>, c: seq<T>)
    ensures (a + b) + c == a + (b + c)
  {}

  lemma UnfoldSelections(i: nat, count: nat, tail: seq<nat>)
    requires 1 <= count <= i
    ensures Selections(i, count, tail) ==
      (if count == 1 then [[i - 1] + tail] else Selections(i - 1, count - 1, [i - 1] + tail))
      + Selections(i - 1, count, tail)
  {}

  lemma PicksOne(arr: seq<Card>, s: seq<nat>, passes: seq<Card> -> bool)
    requires Below(s, |arr|)
    ensures InRange(arr, [s]) && Picks(arr, [s], passes) == if passes(Pick(arr, s)) then [Pick(arr, s)] else []
  {
    assert [s][1..] == [];
    assert Picks(arr, [s], passes) == (if passes(Pick(arr, s)) then [Pick(arr, s)] else []) + Picks(arr, [], passes);
  }

  lemma UnfoldDeep(arr: seq<Card>, i: nat, count: nat, tail: seq<nat>, passes: seq<Card> -> bool)
    requires 1 < count <= i <= |arr| && Below(tail, |arr|)
    ensures Below([i - 1] + tail, |arr|)
    ensures Generated(arr, i, count, tail, passes) ==
      Generated(arr, i - 1, count - 1, [i - 1] + tail, passes) + Generated(arr, i - 1, count, tail, passes)
  {
    var deeper, rest := Selections(i - 1, count - 1, [i - 1] + tail), Selections(i - 1, count, tail);
    UnfoldSelections(i, count, tail);
    assert Selections(i, count, tail) == deeper + rest;
    assert Below([i - 1] + tail, |arr|);
    hide Selections, Picks, InRange, Below;
    SelectionsInRange(arr, i, count, tail);
    SelectionsInRange(arr, i - 1, count - 1, [i - 1] + tail);
    SelectionsInRange(arr, i - 1, count, tail);
    PicksAppend(arr, deeper, rest, passes);
  }

  lemma UnfoldLast(arr: seq<Card>, i: nat, tail: seq<nat>, passes: seq<Card> -> bool)
    requires 1 <= i <= |arr| && Below(tail, |arr|)
    ensures Below([i - 1] + tail, |arr|)
    ensures Generated(arr, i, 1, tail, passes) ==
      (if passes(Pick(arr, [i - 1] + tail)) then [Pick(arr, [i - 1] + tail)] else [])
      + Generated(arr, i - 1, 1, tail, passes)
  {
    var rest := Selections(i - 1, 1, tail);
    UnfoldSelections(i, 1, tail);
    assert Selections(i, 1, tail) == [[i - 1] + tail] + rest;
    hide Selections, Picks, Pick;
    SelectionsInRange(arr, i - 1, 1, tail);
    PicksOne(arr, [i - 1] + tail, passes);
    PicksAppend(arr, [[i - 1] + tail], rest, passes);
  }

  /** One turn of the generator's loop: the selections with largest index i - 1 come before the rest. */
  lemma UnfoldGenerated(arr: seq<Card>, i: nat, count: nat, tail: seq<nat>, passes: seq<Card> -> bool)
    requires 1 <= count <= i <= |arr| && Below(tail, |arr|)
    ensures Below([i - 1] + tail, |arr|)
    ensures Generated(arr, i, count, tail, passes) ==
      GeneratedFrom(arr, count, [i - 1] + tail, passes) + Generated(arr, i - 1, count, tail, passes)
  {
    hide Generated, Pick;
    if count > 1 { UnfoldDeep(arr, i, count, tail, passes); } else { UnfoldLast(arr, i, tail, passes); }
  }

  /** `combine_decrease`: with the indices from `count` on already chosen in `res`, append the passing
      completions.  The shared index array keeps what the caller chose. */
  method CombineDecrease(arr: seq<Card>, start: nat, res: array<nat>, count: nat, ret: seq<seq<Card>>,
                         passes: seq<Card> -> bool)
    returns (out: seq<seq<Card>>)
    requires 1 <= count <= res.Length && start <= |arr| && Below(res[count..], |arr|)
    modifies res
    ensures res[count..] == old(res[count..])
    ensures out == ret + Generated(arr, start, count, old(res[count..]), passes)
    decreases count, 1
  {
    hide *;
    out := ret;
    ghost var tail := res[count..];
    ghost var all := Generated(arr, start, count, tail, passes);
    ghost var added := [];
    var i: int := start;
    while i >= count
      invariant 0 <= i <= start && res[count..] == tail
      invariant out == ret + added && all == added + Generated(arr, i, count, tail, passes)
      decreases i
    {
      UnfoldGenerated(arr, i, count, tail, passes);
      ghost var now := GeneratedFrom(arr, count, [i - 1] + tail, passes);
      ghost var later := Generated(arr, i - 1, count, tail, passes);
      AppendAssoc(added, now, later);
      AppendAssoc(ret, added, now);
      out := Choose(arr, i - 1, res, count, out, passes);
      added := added + now;
      i := i - 1;
    }
    GeneratedNone(arr, i, count, tail, passes);
  }

  /** The body of the loop: fix the `count`-th index, then recurse or test the finished selection. */
  method Choose(arr: seq<Card>, index: nat, res: array<nat>, count: nat, ret: seq<seq<Card>>, passes: seq<Card> -> bool)
    returns (out: seq<seq<Card>>)
    requires 1 <= count <= res.Length && index < |arr| && Below(res[count..], |arr|)
    modifies res
    ensures res[count..] == old(res[count..])
    ensures out == ret + GeneratedFrom(arr, count, [index] + old(res[count..]), passes)
    decreases count, 0
  {
    hide Generated;
    ghost var tail := res[count..];
    res[count - 1] := index;
    assert res[count - 1..] == [index] + tail;
    if count > 1 {
      out := CombineDecrease(arr, index, res, count - 1, ret, passes);
      assert res[count..] == res[count - 1..][1..] == tail;
    } else {
      assert res[..] == res[count - 1..];
      var v := PickCards(arr, res);
      out := if passes(v) then ret + [v] else ret;
    }
  }

  method PickCards(arr: seq<Card>, res: array<nat>) returns (v: seq<Card>)
    requires Below(res[..], |arr|)
    ensures v == Pick(arr, res[..])
  {
    v := [];
    var j := res.Length;
    while j > 0
      invariant 0 <= j <= res.Length && |v| == res.Length - j
      invariant forall k | 0 <= k < |v| :: v[k] == arr[res[res.Length - 1 - k]]
    {
      j := j - 1;
      v := v + [arr[res[j]]];
    }
  }

  // ---------------------------------------------------------------- the generator is complete and exact

  lemma NoneBelow(start: nat, count: nat, tail: seq<nat>)
    ensures Selections(start, count, tail) != [] ==> 1 <= count <= start
  {}

  /** s is `count` increasing indices below start, followed by the tail. */
  predicate Extends(s: seq<nat>, start: nat, count: nat, tail: seq<nat>) {
    && |s| == count + |tail|
    && (forall i | 0 <= i < |tail| :: s[count + i] == tail[i])
    && (forall i | 0 <= i < count :: s[i] < start)
    && (forall i, j | 0 <= i < j < count :: s[i] < s[j])
  }

  lemma ExtendsWider(s: seq<nat>, start: nat, count: nat, tail: seq<nat>)
    requires start > 0 && Extends(s, start - 1, count, tail)
    ensures Extends(s, start, count, tail)
  {}

  lemma ExtendsDeeper(s: seq<nat>, start: nat, count: nat, tail: seq<nat>)
    requires 1 <= count <= start && Extends(s, start - 1, count - 1, [start - 1] + tail)
    ensures Extends(s, start, count, tail) && s[count - 1] == start - 1
  {
    assert s[count - 1 + 0] == ([start - 1] + tail)[0];
    forall i | 0 <= i < |tail| ensures s[count + i] == tail[i] {
      assert s[count - 1 + (i + 1)] == ([start - 1] + tail)[i + 1];
    }
  }

  /** A generated list has start - 1 as its last choice, or all its choices below. */
  lemma InSelections(start: nat, count: nat, tail: seq<nat>, s: seq<nat>)
    requires 1 <= count <= start
    ensures s in Selections(start, count, tail) <==>
      || s in Selections(start - 1, count, tail)
      || if count == 1 then s == [start - 1] + tail else s in Selections(start - 1, count - 1, [start - 1] + tail)
  {
    UnfoldSelections(start, count, tail);
    hide Selections;
    InJoined(if count == 1 then [[start - 1] + tail] else Selections(start - 1, count - 1, [start - 1] + tail),
             Selections(start - 1, count, tail), s);
  }

  lemma InJoined<T>(a: seq<T>, b: seq<T>, x: T)
    ensures x in a + b <==> x in a || x in b
  {}

  /** The generated lists are the increasing selections below `start`, extended by the tail. */
  lemma {:induction false} SelectionsSound(start: nat, count: nat, tail: seq<nat>, s: seq<nat>)
    requires 1 <= count <= start && s in Selections(start, count, tail)
    ensures Extends(s, start, count, tail)
    decreases start
  {
    InSelections(start, count, tail, s);
    NoneBelow(start - 1, count, tail);
    var deeper := [start - 1] + tail;
    assert count == 1 ==> Extends(deeper, start, count, tail);
    hide Selections, Extends;
    if s in Selections(start - 1, count, tail) {
      SelectionsSound(start - 1, count, tail, s);
      ExtendsWider(s, start, count, tail);
    } else if count > 1 {
      SelectionsSound(start - 1, count - 1, deeper, s);
      ExtendsDeeper(s, start, count, tail);
    }
  }

  lemma SelectionParts(p: seq<nat>, start: nat, count: nat, tail: seq<nat>)
    requires 1 <= count <= start && IsSelection(p, start, count)
    ensures p[count - 1] == start - 1 ==>
      IsSelection(p[..count - 1], start - 1, count - 1) && p + tail == p[..count - 1] + ([start - 1] + tail)
    ensures p[count - 1] == start - 1 && count == 1 ==> p + tail == [start - 1] + tail
    ensures p[count - 1] != start - 1 ==> IsSelection(p, start - 1, count)
  {}

  lemma {:induction false} SelectionsComplete(start: nat, count: nat, tail: seq<nat>, p: seq<nat>)
    requires count >= 1 && IsSelection(p, start, count)
    ensures p + tail in Selections(start, count, tail)
    decreases start
  {
    IncreasingBound(p, start, count);
    InSelections(start, count, tail, p + tail);
    SelectionParts(p, start, count, tail);
    hide Selections, IsSelection;
    if p[count - 1] == start - 1 {
      if count > 1 { SelectionsComplete(start - 1, count - 1, [start - 1] + tail, p[..count - 1]); }
    } else {
      SelectionsComplete(start - 1, count, tail, p);
    }
  }

  /** k increasing indices below n need n >= k. */
  lemma {:induction false} IncreasingBound(p: seq<nat>, n: nat, k: nat)
    requires IsSelection(p, n, k)
    ensures k <= n
    decreases k
  {
    if k == 0 {
    } else {
      IncreasingBound(p[..k - 1], p[k - 1], k - 1);
    }
  }

  ghost predicate Distinct<T>(s: seq<T>) { forall i, j | 0 <= i < j < |s| :: s[i] != s[j] }

  lemma DistinctAppend<T>(a: seq<T>, b: seq<T>)
    requires Distinct(a) && Distinct(b) && forall x | x in a :: x !in b
    ensures Distinct(a + b)
  {
    forall i, j | 0 <= i < j < |a + b| ensures (a + b)[i] != (a + b)[j] {
      if i < |a| && j >= |a| { assert a[i] in a && b[j - |a|] in b; }
    }
  }

  /** A generated list records which branch produced it in its `count`-th index. */
  lemma BranchIndex(start: nat, count: nat, tail: seq<nat>, s: seq<nat>)
    requires 1 <= count <= start
    ensures s in Selections(start - 1, count, tail) ==> |s| >= count && s[count - 1] < start - 1
    ensures count > 1 && s in Selections(start - 1, count - 1, [start - 1] + tail) ==>
      |s| >= count && s[count - 1] == start - 1
  {
    if s in Selections(start - 1, count, tail) {
      NoneBelow(start - 1, count, tail);
      hide Selections;
      SelectionsSound(start - 1, count, tail, s);
    }
    if count > 1 && s in Selections(start - 1, count - 1, [start - 1] + tail) {
      hide Selections;
      SelectionsSound(start - 1, count - 1, [start - 1] + tail, s);
      ExtendsDeeper(s, start, count, tail);
    }
  }

  lemma {:induction false} SelectionsDistinct(start: nat, count: nat, tail: seq<nat>)
    requires count >= 1
    ensures Distinct(Selections(start, count, tail))
    decreases start
  {
    if start < count {
    } else {
      var first := if count == 1 then [[start - 1] + tail] else Selections(start - 1, count - 1, [start - 1] + tail);
      var later := Selections(start - 1, count, tail);
      UnfoldSelections(start, count, tail);
      hide Selections;
      if count > 1 { SelectionsDistinct(start - 1, count - 1, [start - 1] + tail); }
      SelectionsDistinct(start - 1, count, tail);
      forall s | s in first ensures s !in later { BranchIndex(start, count, tail, s); }
      DistinctAppend(first, later);
    }
  }

  function Binomial(n: nat, k: nat): nat {
    if k == 0 then 1 else if n == 0 then 0 else Binomial(n - 1, k - 1) + Binomial(n - 1, k)
  }

  lemma {:induction false} BinomialShort(n: nat, k: nat)
    requires n < k
    ensures Binomial(n, k) == 0
  {
    if n == 0 {
    } else {
      BinomialShort(n - 1, k - 1);
      BinomialShort(n - 1, k);
    }
  }

  lemma {:induction false} SelectionsCount(start: nat, count: nat, tail: seq<nat>)
    requires count >= 1
    ensures |Selections(start, count, tail)| == Binomial(start, count)
    decreases start
  {
    if start < count {
      BinomialShort(start, count);
    } else {
      SelectionsCount(start - 1, count, tail);
      if count > 1 { SelectionsCount(start - 1, count - 1, [start - 1] + tail); }
    }
  }

  lemma {:induction false} PassingMembers(arr: seq<Card>, sels: seq<seq<nat>>, passes: seq<Card> -> bool, s: seq<nat>)
    requires InRange(arr, sels)
    ensures s in Passing(arr, sels, passes) <==> s in sels && passes(Pick(arr, s))
  {
    hide Pick;
    if sels == [] {
    } else {
      PassingMembers(arr, sels[1..], passes, s);
      assert s in sels <==> s == sels[0] || s in sels[1..];
    }
  }

  lemma {:induction false} PassingPicks(arr: seq<Card>, sels: seq<seq<nat>>, passes: seq<Card> -> bool)
    requires InRange(arr, sels)
    ensures |Passing(arr, sels, passes)| == |Picks(arr, sels, passes)| && InRange(arr, Passing(arr, sels, passes))
    ensures forall i | 0 <= i < |Picks(arr, sels, passes)| ::
      Picks(arr, sels, passes)[i] == Pick(arr, Passing(arr, sels, passes)[i])
  {
    hide Pick;
    if sels == [] {
    } else {
      PassingPicks(arr, sels[1..], passes);
    }
  }

  lemma {:induction false} PassingDistinct(arr: seq<Card>, sels: seq<seq<nat>>, passes: seq<Card> -> bool)
    requires InRange(arr, sels) && Distinct(sels)
    ensures Distinct(Passing(arr, sels, passes))
  {
    hide Pick;
    if sels == [] {
    } else {
      PassingDistinct(arr, sels[1..], passes);
      PassingMembers(arr, sels[1..], passes, sels[0]);
    }
  }

  lemma MembersAreSelections(n: nat, num: nat, s: seq<nat>)
    requires num >= 1
    ensures s in Selections(n, num, []) <==> IsSelection(s, n, num)
  {
    if s in Selections(n, num, []) {
      NoneBelow(n, num, []);
      SelectionsSound(n, num, [], s);
    }
    if IsSelection(s, n, num) {
      SelectionsComplete(n, num, [], s);
      assert s + [] == s;
    }
  }

  /** A whole generation of NUM cards appends exactly one entry for every NUM-element index set that
      passes: the entries are the picks of a duplicate-free list of all passing increasing selections. */
  lemma GeneratesEachSelectionOnce(arr: seq<Card>, num: nat, passes: seq<Card> -> bool) returns (index: seq<seq<nat>>)
    requires num >= 1
    ensures var entries := Generated(arr, |arr|, num, [], passes);
      && |index| == |entries| && Distinct(index)
      && (forall s :: s in index <==> IsSelection(s, |arr|, num) && passes(Pick(arr, s)))
      && (forall i | 0 <= i < |entries| :: index[i] in index && entries[i] == Pick(arr, index[i]))
  {
    var sels := Selections(|arr|, num, []);
    SelectionsInRange(arr, |arr|, num, []);
    SelectionsDistinct(|arr|, num, []);
    index := Passing(arr, sels, passes);
    PassingPicks(arr, sels, passes);
    PassingDistinct(arr, sels, passes);
    hide Picks, Passing, Pick, Selections;
    forall s ensures s in index <==> IsSelection(s, |arr|, num) && passes(Pick(arr, s)) {
      PassingMembers(arr, sels, passes, s);
      MembersAreSelections(|arr|, num, s);
    }
  }

  lemma {:induction false} AllPass(arr: seq<Card>, sels: seq<seq<nat>>, passes: seq<Card> -> bool)
    requires InRange(arr, sels) && forall v :: passes(v)
    ensures |Picks(arr, sels, passes)| == |sels|
  {
    if sels == [] {
    } else {
      AllPass(arr, sels[1..], passes);
    }
  }

  /** With a test that always passes there is one entry per NUM-subset. */
  lemma AllPassCount(arr: seq<Card>, num: nat, passes: seq<Card> -> bool)
    requires num >= 1 && forall v :: passes(v)
    ensures |Generated(arr, |arr|, num, [], passes)| == Binomial(|arr|, num)
  {
    SelectionsInRange(arr, |arr|, num, []);
    SelectionsCount(|arr|, num, []);
    AllPass(arr, Selections(|arr|, num, []), passes);
  }
}
