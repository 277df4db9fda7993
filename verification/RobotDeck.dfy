/** The robot's hand arranger (`_delCards`, `getRecommendPokerSet` of server/tools/robot/deck.cpp).
    The tests for each category and the comparisons of equal categories are parameters. */
module RobotDeck {
  import opened Combinations

  /** The code that `_delCards` overwrites deleted cards with. */
  const DELETED: Card := 99

  /** The cards of s that are not marked, in order. */
  function Unmarked(s: seq<Card>): seq<Card> {
    if s == [] then []
    else Unmarked(s[..|s| - 1]) + if s[|s| - 1] == DELETED then [] else [s[|s| - 1]]
  }

  /** What is left of src, in order, when each card of del takes away its first partner.  A card that has
      the mark's own code is lost in any case. */
  ghost function Remaining(src: seq<Card>, del: multiset<Card>): seq<Card> {
    if src == [] then []
    else if src[0] == DELETED then Remaining(src[1..], del)
    else if src[0] in del then Remaining(src[1..], del - multiset{src[0]})
    else [src[0]] + Remaining(src[1..], del)
  }

  /** The cards that have no partner are the multiset difference, without the mark's code. */
  lemma {:induction false} RemainingIsDifference(src: seq<Card>, del: multiset<Card>)
    ensures multiset(Remaining(src, del)) == (multiset(src) - del)[DELETED := 0]
  {
    if src == [] {
    } else {
      assert src == [src[0]] + src[1..];
      RemainingIsDifference(src[1..], if src[0] != DELETED && src[0] in del then del - multiset{src[0]} else del);
    }
  }

  /** Marked cards in del cannot take anything away. */
  lemma {:induction false} RemainingIgnoresMarks(src: seq<Card>, del: multiset<Card>)
    ensures Remaining(src, del) == Remaining(src, del[DELETED := 0])
  {
    if src == [] {
    } else {
      var x := src[0];
      if x != DELETED && x in del {
        RemainingIgnoresMarks(src[1..], del - multiset{x});
        assert (del - multiset{x})[DELETED := 0] == del[DELETED := 0] - multiset{x};
      } else {
        RemainingIgnoresMarks(src[1..], del);
      }
    }
  }

  ghost function Live(s: seq<Card>): multiset<Card> { multiset(s)[DELETED := 0] }

  lemma LiveUpdate(del: seq<Card>, at: nat)
    requires at < |del| && del[at] != DELETED
    ensures Live(del[at := DELETED]) == Live(del) - multiset{del[at]} && del[at] in Live(del)
  {
    assert del == del[..at] + [del[at]] + del[at + 1..];
    assert del[at := DELETED] == del[..at] + [DELETED] + del[at + 1..];
  }

  /** The inner loop: mark card x and its first unmarked partner, if it has one. */
  method MarkPair(x: Card, del: seq<Card>) returns (x': Card, del': seq<Card>)
    ensures x == DELETED || x !in Live(del) ==> x' == x && del' == del
    ensures x != DELETED && x in Live(del) ==> x' == DELETED && Live(del') == Live(del) - multiset{x}
  {
    x', del' := x, del;
    ghost var at := -1;
    for j := 0 to |del|
      invariant -1 <= at < j
      invariant at == -1 ==> x' == x && del' == del && (x != DELETED ==> x !in del[..j])
      invariant at >= 0 ==> x != DELETED && x' == DELETED && del[at] == x && del' == del[at := DELETED]
    {
      if x' != DELETED && del'[j] != DELETED && x' == del'[j] {
        x' := DELETED;
        del' := del'[j := DELETED];
        at := j;
      }
    }
    if at >= 0 { LiveUpdate(del, at); }
  }

  lemma MarkStep(src: seq<Card>, s: seq<Card>, i: nat, d: seq<Card>, x: Card, d': seq<Card>)
    requires i < |src| == |s| && s[i..] == src[i..]
    requires src[i] == DELETED || src[i] !in Live(d) ==> x == src[i] && d' == d
    requires src[i] != DELETED && src[i] in Live(d) ==> x == DELETED && Live(d') == Live(d) - multiset{src[i]}
    ensures Unmarked(s[..i]) + Remaining(src[i..], Live(d))
         == Unmarked(s[i := x][..i + 1]) + Remaining(src[i + 1..], Live(d'))
  {
    var t := s[i := x][..i + 1];
    assert t[..i] == s[..i] && t[i] == x;
    assert src[i..][1..] == src[i + 1..];
  }

  /** `_delCards`: both vectors are marked in place, then the marked cards of `src` are erased. */
  method DelCards(src: seq<Card>, del: seq<Card>) returns (kept: seq<Card>)
    ensures kept == Remaining(src, multiset(del))
  {
    var s, d := src, del;
    RemainingIgnoresMarks(src, multiset(del));
    assert src[0..] == src && Unmarked([]) == [];
    for i := 0 to |src|
      invariant |s| == |src| && s[i..] == src[i..]
      invariant Unmarked(s[..i]) + Remaining(src[i..], Live(d)) == Remaining(src, Live(del))
    {
      assert s[i] == src[i];
      ghost var wasS, wasD := s, d;
      var x;
      x, d := MarkPair(s[i], d);
      MarkStep(src, wasS, i, wasD, x, d);
      hide Unmarked, Remaining, Live;
      s := s[i := x];
    }
    assert s[..|src|] == s && Remaining(src[|src|..], Live(d)) == [];
    kept := Erase(s);
  }

  /** Erase the marked cards one by one. */
  method Erase(s: seq<Card>) returns (r: seq<Card>)
    ensures r == Unmarked(s)
  {
    r := s;
    var it := 0;
    ghost var seen := 0;
    while it < |r|
      invariant it <= |r| && seen <= |s| && r[..it] == Unmarked(s[..seen]) && r[it..] == s[seen..]
      decreases |r| - it
    {
      assert s[..seen + 1][..seen] == s[..seen] && s[seen] == r[it];
      if r[it] == DELETED {
        r := r[..it] + r[it + 1..];
      } else {
        it := it + 1;
      }
      seen := seen + 1;
    }
    assert s[..seen] == s;
  }

  /** What is kept is the plain multiset difference exactly when no more cards of `src` than of `del` carry
      the mark's code. */
  lemma DelCardsIsDifferenceIff(src: seq<Card>, del: seq<Card>)
    ensures multiset(Remaining(src, multiset(del))) == multiset(src) - multiset(del)
       <==> multiset(src)[99] <= multiset(del)[99]
  {
    RemainingIsDifference(src, multiset(del));
    var diff := multiset(src) - multiset(del);
    if diff[DELETED] == 0 { assert diff[DELETED := 0] == diff; }
  }

  // ---------------------------------------------------------------- arranging a hand

  /** What the arranger asks about cards: does a selection show category `type`, and is one five-card
      (three-card) group of equal category beaten by another. */
  datatype Judge = Judge(
    shows: (int, seq<Card>) -> bool,
    messireFive: (int, seq<Card>, seq<Card>) -> bool,
    messireThree: (int, seq<Card>, seq<Card>) -> bool)

  /** Every generated entry is a passing group of cards of the array. */
  lemma EntryFacts(arr: seq<Card>, num: nat, passes: seq<Card> -> bool, v: seq<Card>)
    requires num >= 1 && v in Generated(arr, |arr|, num, [], passes)
    ensures |v| == num && passes(v) && multiset(v) <= multiset(arr)
  {
    var index := GeneratesEachSelectionOnce(arr, num, passes);
    var entries := Generated(arr, |arr|, num, [], passes);
    var i :| 0 <= i < |entries| && entries[i] == v;
    PickIsPart(arr, index[i], |arr|, num);
    assert arr[..|arr|] == arr;
  }

  lemma {:induction false} PickIsPart(arr: seq<Card>, s: seq<nat>, n: nat, k: nat)
    requires n <= |arr| && IsSelection(s, n, k)
    ensures multiset(Pick(arr, s)) <= multiset(arr[..n])
    decreases k
  {
    if k == 0 {
    } else {
      var last := s[k - 1];
      PickIsPart(arr, s[..k - 1], last, k - 1);
      assert Pick(arr, s) == [arr[last]] + Pick(arr, s[..k - 1]);
      assert arr[..n] == arr[..last] + [arr[last]] + arr[last + 1..n];
    }
  }

  function Shows(judge: Judge, category: int): seq<Card> -> bool { (v: seq<Card>) => judge.shows(category, v) }

  /** The groups of `num` cards of one category, in the order in which the generator finds them. */
  function Groupings(judge: Judge, arr: seq<Card>, num: nat, category: int): seq<seq<Card>> {
    Generated(arr, |arr|, num, [], Shows(judge, category))
  }

  method Candidates(judge: Judge, arr: seq<Card>, res: array<nat>, category: int) returns (found: seq<seq<Card>>)
    requires res.Length >= 1
    modifies res
    ensures found == Groupings(judge, arr, res.Length, category)
  {
    assert res[res.Length..] == [];
    found := CombineDecrease(arr, |arr|, res, res.Length, [], Shows(judge, category));
  }

  lemma GroupingsFacts(judge: Judge, arr: seq<Card>, num: nat, category: int, v: seq<Card>)
    requires num >= 1 && v in Groupings(judge, arr, num, category)
    ensures |v| == num && judge.shows(category, v) && multiset(v) <= multiset(arr)
  {
    EntryFacts(arr, num, Shows(judge, category), v);
  }

  /** front + middle + tail is an arrangement of cards out of `cards` whose groups show categories
      k, n and i with i <= n <= k (a smaller number is a better category). */
  ghost predicate Arranged(judge: Judge, cards: seq<Card>, ret: seq<Card>) {
    && |ret| == 13 && multiset(ret) <= multiset(cards)
    && exists i: int, n: int, k: int :: Groups(judge, ret, i, n, k)
  }

  ghost predicate Groups(judge: Judge, ret: seq<Card>, i: int, n: int, k: int)
    requires |ret| == 13
  {
    && 0 <= i <= n <= k < 10
    && judge.shows(k, ret[..3]) && judge.shows(n, ret[3..8]) && judge.shows(i, ret[8..])
    && (i == n ==> !judge.messireFive(i, ret[8..], ret[3..8]))
    && (n == k ==> !judge.messireThree(n, ret[3..8], ret[..3]))
  }

  // ---------------------------------------------------------------- what the search tries

  /** The first front group of category k goes with a middle of category n. */
  ghost predicate FrontFits(judge: Judge, core: seq<Card>, n: int, middle: seq<Card>, k: int) {
    var fronts := Groupings(judge, core, 3, k);
    fronts != [] && (n < k || (n == k && !judge.messireThree(n, middle, fronts[0])))
  }

  /** Only the categories three of a kind, one pair and high card are tried in front. */
  ghost predicate FrontCategory(k: int) { 6 <= k < 10 && k != 7 }

  ghost predicate MiddleFits(judge: Judge, inner: seq<Card>, i: int, tail: seq<Card>, n: int, middle: seq<Card>) {
    && !(i == n && judge.messireFive(i, tail, middle))
    && exists k :: FrontCategory(k) && FrontFits(judge, Remaining(inner, multiset(middle)), n, middle, k)
  }

  /** The cards left beside the tail hold a better category than the tail's. */
  ghost predicate Blocked(judge: Judge, inner: seq<Card>, i: int) {
    exists n :: 0 <= n < i && n < 10 && Groupings(judge, inner, 5, n) != []
  }

  /** No middle and front go with this tail. */
  ghost predicate NoFit(judge: Judge, inner: seq<Card>, i: int, tail: seq<Card>) {
    forall n, middle | 0 <= n < 10 && middle in Groupings(judge, inner, 5, n) ::
      !MiddleFits(judge, inner, i, tail, n, middle)
  }

  /** The tails of category i up to place l lead nowhere. */
  ghost predicate NoFitBefore(judge: Judge, cards: seq<Card>, i: int, l: nat)
    requires l <= |Groupings(judge, cards, 5, i)|
  {
    forall m {:trigger Groupings(judge, cards, 5, i)[m]} | 0 <= m < l ::
      var tail := Groupings(judge, cards, 5, i)[m];
      var inner := Remaining(cards, multiset(tail));
      NoFit(judge, inner, i, tail) && !Blocked(judge, inner, i)
  }

  /** Why category i is given up: no tail leads anywhere, or one shows that a better category was there. */
  ghost predicate GivenUp(judge: Judge, cards: seq<Card>, i: int) {
    var tails := Groupings(judge, cards, 5, i);
    exists l :: 0 <= l <= |tails| && NoFitBefore(judge, cards, i, l)
      && (l < |tails| ==> Blocked(judge, Remaining(cards, multiset(tails[l])), i))
  }

  /** The front chosen for a middle of category n is the first group of the best category that fits. */
  ghost predicate FirstFront(judge: Judge, core: seq<Card>, n: int, middle: seq<Card>, k: int, front: seq<Card>) {
    && (k == 6 || k == 8 || k == 9) && FrontFits(judge, core, n, middle, k) && front == Groupings(judge, core, 3, k)[0]
    && forall c | FrontCategory(c) && c < k :: !FrontFits(judge, core, n, middle, c)
  }

  /** The middle chosen for a tail is the first that fits, those of better categories being tried first. */
  ghost predicate FirstMiddle(judge: Judge, inner: seq<Card>, i: int, tail: seq<Card>, ret: seq<Card>, n: int, j: nat,
                              k: int)
  {
    var middles := Groupings(judge, inner, 5, n);
    && 0 <= n < 10 && j < |middles| && |ret| == 13 && ret[3..8] == middles[j] && ret[8..] == tail
    && Groups(judge, ret, i, n, k)
    && FirstFront(judge, Remaining(inner, multiset(middles[j])), n, middles[j], k, ret[..3])
    && (forall m | 0 <= m < j :: !MiddleFits(judge, inner, i, tail, n, middles[m]))
    && forall m, v | 0 <= m < n && v in Groupings(judge, inner, 5, m) :: !MiddleFits(judge, inner, i, tail, m, v)
  }

  /** The tail chosen is the first of its category with which anything goes. */
  ghost predicate FirstTail(judge: Judge, cards: seq<Card>, ret: seq<Card>, i: int, l: nat, n: int, j: nat, k: int) {
    var tails := Groupings(judge, cards, 5, i);
    && l < |tails| && NoFitBefore(judge, cards, i, l)
    && FirstMiddle(judge, Remaining(cards, multiset(tails[l])), i, tails[l], ret, n, j, k)
  }

  /** The three front cards for a middle of category n. */
  method FindFront(judge: Judge, core: seq<Card>, n: int, middle: seq<Card>) returns (front: seq<Card>, k: int)
    ensures front == [] ==> forall c | FrontCategory(c) :: !FrontFits(judge, core, n, middle, c)
    ensures front != [] ==>
      && FrontCategory(k) && FirstFront(judge, core, n, middle, k, front)
      && |front| == 3 && multiset(front) <= multiset(core) && judge.shows(k, front)
  {
    hide Groupings;
    front, k := [], 6;
    var category := 6;
    while category < 10
      invariant 6 <= category <= 10 && front == []
      invariant forall c | FrontCategory(c) && c < category :: !FrontFits(judge, core, n, middle, c)
    {
      if category != 7 {
        var assist := new nat[3];
        var cards3 := Candidates(judge, core, assist, category);
        var fits := false;
        if |cards3| > 0 {
          if n < category { fits := true; }
          if category == n {
            var beaten := judge.messireThree(n, middle, cards3[0]);
            fits := !beaten;
          }
        }
        if fits {
          assert cards3[0] in cards3;
          GroupingsFacts(judge, core, 3, category, cards3[0]);
          front, k := cards3[0], category;
          return;
        }
      }
      category := category + 1;
    }
  }

  lemma RemainingInside(src: seq<Card>, del: seq<Card>)
    ensures multiset(Remaining(src, multiset(del))) <= multiset(src) - multiset(del)
  {
    RemainingIsDifference(src, multiset(del));
  }

  lemma Assemble(judge: Judge, inner: seq<Card>, i: int, tail: seq<Card>, n: int, middle: seq<Card>, k: int,
                 front: seq<Card>)
    requires |tail| == 5 && 0 <= i <= n < 10 && judge.shows(i, tail) && middle in Groupings(judge, inner, 5, n)
    requires !(i == n && judge.messireFive(i, tail, middle)) && FrontCategory(k)
    requires FrontFits(judge, Remaining(inner, multiset(middle)), n, middle, k)
    requires front == Groupings(judge, Remaining(inner, multiset(middle)), 3, k)[0] && judge.shows(k, front)
    requires |front| == 3 && multiset(front) <= multiset(Remaining(inner, multiset(middle)))
    ensures var ret := front + middle + tail;
      && |ret| == 13 && Groups(judge, ret, i, n, k) && ret[8..] == tail && multiset(ret[..8]) <= multiset(inner)
      && ret[..3] == front && ret[3..8] == middle
  {
    GroupingsFacts(judge, inner, 5, n, middle);
    RemainingInside(inner, middle);
    var ret := front + middle + tail;
    assert ret[..3] == front && ret[3..8] == middle && ret[8..] == tail && ret[..8] == front + middle;
  }

  /** The middle and front for a tail of category i; `stop` tells that a better category showed up in
      the middle, which ends the search for this i. */
  method FindMiddle(judge: Judge, res: array<nat>, inner: seq<Card>, i: int, tail: seq<Card>)
    returns (ret: seq<Card>, stop: bool, ghost n: int, ghost j: nat, ghost k: int)
    requires res.Length == 5 && |tail| == 5 && 0 <= i < 9 && judge.shows(i, tail)
    modifies res
    ensures stop <==> Blocked(judge, inner, i)
    ensures stop ==> ret == []
    ensures ret == [] && !stop ==> NoFit(judge, inner, i, tail)
    ensures ret != [] ==> FirstMiddle(judge, inner, i, tail, ret, n, j, k) && multiset(ret[..8]) <= multiset(inner)
  {
    hide Groupings, Remaining;
    ret, stop, n, j, k := [], false, 0, 0, 0;
    for category := 0 to 10
      invariant ret == [] && !stop
      invariant forall m | 0 <= m < category && m < i :: Groupings(judge, inner, 5, m) == []
      invariant forall m, v | 0 <= m < category && v in Groupings(judge, inner, 5, m) ::
        !MiddleFits(judge, inner, i, tail, m, v)
    {
      n := category;
      var cards2 := Candidates(judge, inner, res, category);
      if |cards2| > 0 && category < i {
        assert Groupings(judge, inner, 5, category) != [];
        stop := true;
        return;
      }
      ret, j, k := TryMiddles(judge, inner, i, tail, category, cards2);
      if ret != [] { return; }
    }
  }

  /** Go through the middle groups of one category. */
  method TryMiddles(judge: Judge, inner: seq<Card>, i: int, tail: seq<Card>, n: int, cards2: seq<seq<Card>>)
    returns (ret: seq<Card>, ghost place: nat, ghost k: int)
    requires |tail| == 5 && 0 <= i < 9 && 0 <= n < 10 && judge.shows(i, tail)
    requires cards2 == Groupings(judge, inner, 5, n) && (n < i ==> cards2 == [])
    ensures ret == [] ==> forall v | v in cards2 :: !MiddleFits(judge, inner, i, tail, n, v)
    ensures ret != [] ==>
      && |ret| == 13 && Groups(judge, ret, i, n, k) && ret[8..] == tail && multiset(ret[..8]) <= multiset(inner)
      && place < |cards2| && ret[3..8] == cards2[place]
      && FirstFront(judge, Remaining(inner, multiset(cards2[place])), n, cards2[place], k, ret[..3])
      && forall m | 0 <= m < place :: !MiddleFits(judge, inner, i, tail, n, cards2[m])
  {
    hide Groupings, Remaining;
    ret, place, k := [], 0, 0;
    for j := 0 to |cards2|
      invariant ret == []
      invariant forall m | 0 <= m < j :: !MiddleFits(judge, inner, i, tail, n, cards2[m])
    {
      var beaten := false;
      if i == n { beaten := judge.messireFive(i, tail, cards2[j]); }
      if !beaten {
        assert cards2[j] in cards2;
        var core := DelCards(inner, cards2[j]);
        var front, category := FindFront(judge, core, n, cards2[j]);
        if front != [] {
          Assemble(judge, inner, i, tail, n, cards2[j], category, front);
          ret, place, k := front + cards2[j] + tail, j, category;
          return;
        }
      }
    }
  }

  /** `getRecommendPokerSet`: the first arrangement that the search meets, all better tail categories having been
      given up.  Cards are never invented, and nothing is returned only if every tail category had to be given up. */
  method GetRecommendPokerSet(judge: Judge, cards: seq<Card>)
    returns (ret: seq<Card>, ghost i: int, ghost l: nat, ghost n: int, ghost j: nat, ghost k: int)
    ensures ret != [] ==> Arranged(judge, cards, ret)
    ensures ret != [] ==>
      && 0 <= i < 9 && |ret| == 13 && Groups(judge, ret, i, n, k) && FirstTail(judge, cards, ret, i, l, n, j, k)
      && forall m | 0 <= m < i :: GivenUp(judge, cards, m)
    ensures ret != [] && |cards| == 13 ==> multiset(ret) == multiset(cards)
    ensures ret == [] ==> forall m | 0 <= m < 9 :: GivenUp(judge, cards, m)
  {
    hide GivenUp, FirstTail, Groups;
    ret, i, l, n, j, k := [], 0, 0, 0, 0, 0;
    for category := 0 to 9
      invariant ret == [] && forall m | 0 <= m < category :: GivenUp(judge, cards, m)
    {
      var result := new nat[5];
      ret, l, n, j, k := TryTails(judge, cards, result, category);
      i := category;
      if ret != [] {
        if |cards| == 13 { SameSize(multiset(ret), multiset(cards)); }
        return;
      }
    }
  }

  /** Go through the tail groups of one category. */
  method TryTails(judge: Judge, cards: seq<Card>, result: array<nat>, i: int)
    returns (ret: seq<Card>, ghost place: nat, ghost n: int, ghost j: nat, ghost k: int)
    requires result.Length == 5 && 0 <= i < 9
    modifies result
    ensures ret == [] ==> GivenUp(judge, cards, i)
    ensures ret != [] ==>
      Arranged(judge, cards, ret) && Groups(judge, ret, i, n, k) && FirstTail(judge, cards, ret, i, place, n, j, k)
  {
    hide Groupings, Remaining, Blocked, NoFit;
    ret, place, n, j, k := [], 0, 0, 0, 0;
    var cards1 := Candidates(judge, cards, result, i);
    for l := 0 to |cards1|
      invariant ret == [] && NoFitBefore(judge, cards, i, l)
    {
      assert cards1[l] in cards1;
      GroupingsFacts(judge, cards, 5, i, cards1[l]);
      var inner := DelCards(cards, cards1[l]);
      var stop;
      ret, stop, n, j, k := FindMiddle(judge, result, inner, i, cards1[l]);
      place := l;
      if ret != [] {
        assert ret == ret[..8] + ret[8..];
        RemainingInside(cards, cards1[l]);
        return;
      }
      if stop { return; }
    }
  }

  lemma SameSize(a: multiset<Card>, b: multiset<Card>)
    requires a <= b && |a| == |b|
    ensures a == b
  {
    assert b == a + (b - a);
  }
}
