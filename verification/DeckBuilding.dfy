/** Which rooms may be created and which deck a round is dealt from
    (server/processes/lobby/water13_card.cpp and water13.cpp). */
module DeckBuilding {
  import Sorting

  const HAND: nat := 13
  const ALL_SUITS: seq<int> := [3, 2, 1, 0]

  // ---------------------------------------------------------------- sorting integers

  /** Integers in their own order: equal ones cannot be told apart, so what std::sort leaves is determined. */
  function Number(x: int): int { x }

  lemma NumberInjective()
    ensures Sorting.Injective(Number)
  {}

  ghost predicate Sorted(s: seq<int>) { Sorting.Sorted(s, Number) }

  function SortInts(s: seq<int>): (t: seq<int>)
    ensures |t| == |s|
  {
    Sorting.SortBy(s, Number)
  }

  lemma SortIntsSorts(s: seq<int>)
    ensures Sorted(SortInts(s)) && multiset(SortInts(s)) == multiset(s)
  {
    Sorting.SortBySorts(s, Number);
  }

  lemma SortedIsSortInts(s: seq<int>, t: seq<int>)
    requires Sorted(t) && multiset(s) == multiset(t)
    ensures t == SortInts(s)
  {
    NumberInjective();
    Sorting.SortedIsSortBy(s, t, Number);
  }

  lemma TailOf(s: seq<int>, i: nat)
    requires i < |s|
    ensures multiset(s[i..]) == multiset{s[i]} + multiset(s[i + 1..])
  {
    assert s[i..] == [s[i]] + s[i + 1..];
  }

  lemma FromIsAtLeast(s: seq<int>, i: nat, x: int)
    requires Sorted(s) && i < |s| && x < s[i]
    ensures x !in s[i..]
  {}

  /** What is left of b after i is included in what is left of a after j. */
  ghost predicate Inside(b: seq<int>, i: nat, a: seq<int>, j: nat)
    requires i <= |b| && j <= |a|
  {
    multiset(b[i..]) <= multiset(a[j..])
  }

  lemma SkipSmaller(b: seq<int>, i: nat, a: seq<int>, j: nat)
    requires Sorted(b) && i < |b| && j < |a| && a[j] < b[i]
    ensures Inside(b, i, a, j) <==> Inside(b, i, a, j + 1)
  {
    FromIsAtLeast(b, i, a[j]);
    TailOf(a, j);
    assert multiset(b[i..])[a[j]] == 0;
  }

  lemma SkipBoth(b: seq<int>, i: nat, a: seq<int>, j: nat)
    requires i < |b| && j < |a| && a[j] == b[i]
    ensures Inside(b, i, a, j) <==> Inside(b, i + 1, a, j + 1)
  {
    TailOf(a, j);
    TailOf(b, i);
    var x, bs, cs := a[j], multiset(b[i + 1..]), multiset(a[j + 1..]);
    if multiset{x} + bs <= multiset{x} + cs {
      forall y ensures bs[y] <= cs[y] { assert (multiset{x} + bs)[y] <= (multiset{x} + cs)[y]; }
    }
  }

  lemma Missing(b: seq<int>, i: nat, a: seq<int>, j: nat)
    requires Sorted(a) && i < |b| && j <= |a| && (j < |a| ==> b[i] < a[j])
    ensures !Inside(b, i, a, j)
  {
    if j < |a| { FromIsAtLeast(a, j, b[i]); }
    TailOf(b, i);
    assert multiset(a[j..])[b[i]] == 0;
    assert multiset(b[i..])[b[i]] > 0;
  }

  /** The two pointers, i into b and j into a. */
  method Walk(a: seq<int>, b: seq<int>) returns (r: bool)
    requires Sorted(a) && Sorted(b)
    ensures r <==> Inside(b, 0, a, 0)
  {
    hide Inside, Sorted;
    var i: nat, j: nat := 0, 0;
    while i < |b| && j < |a|
      invariant i <= |b| && j <= |a|
      invariant Inside(b, 0, a, 0) <==> Inside(b, i, a, j)
      decreases |a| - j + |b| - i
    {
      if a[j] < b[i] {
        SkipSmaller(b, i, a, j);
        j := j + 1;
      } else if a[j] == b[i] {
        SkipBoth(b, i, a, j);
        j := j + 1;
        i := i + 1;
      } else {
        Missing(b, i, a, j);
        return false;
      }
    }
    if i < |b| {
      Missing(b, i, a, j);
      return false;
    }
    NothingLeft(b, a, j);
    r := true;
  }

  lemma NothingLeft(b: seq<int>, a: seq<int>, j: nat)
    requires j <= |a|
    ensures Inside(b, |b|, a, j)
  {
    assert b[|b|..] == [];
  }

  /** Two-pointer inclusion test on sorted copies: multiset inclusion, repetitions counted. */
  method IsSubset(v1: seq<int>, v2: seq<int>) returns (r: bool)
    ensures r <==> multiset(v2) <= multiset(v1)
  {
    if |v1| < |v2| {
      LargerNotInside(v1, v2);
      return false;
    }
    var a, b := SortInts(v1), SortInts(v2);
    SortIntsSorts(v1);
    SortIntsSorts(v2);
    assert a[0..] == a && b[0..] == b;
    r := Walk(a, b);
  }

  lemma LargerNotInside(v1: seq<int>, v2: seq<int>)
    requires |v1| < |v2|
    ensures !(multiset(v2) <= multiset(v1))
  {
    var rest := multiset(v1) - multiset(v2);
    assert multiset(v2) <= multiset(v1) ==> multiset(v1) == multiset(v2) + rest;
    assert |multiset(v1)| == |v1| && |multiset(v2)| == |v2|;
  }

  // ---------------------------------------------------------------- the room's attributes

  const GP_NORMAL := 0
  const GP_BANKER := 1
  const GP_SAMEONE := 2
  const PAY_BANKER := 0
  const PAY_AA := 1
  const PAY_WINNER := 2
  const DQ_NORMAL := 0
  const DQ_X_DAO := 1
  const MIN_PLAYERS := 2
  const MAX_PLAYERS := 8

  datatype CreateQuest = CreateQuest(
    playType: int, playerSize: int, rounds: int, payor: int, daQiang: int, maPai: int, suits: seq<int>)

  ghost predicate DistinctSuits(suits: seq<int>) {
    && (forall i | 0 <= i < |suits| :: 0 <= suits[i] <= 3)
    && (forall i, j | 0 <= i < j < |suits| :: suits[i] != suits[j])
  }

  /** A choice of extra suits that a room for so many players may be created with. */
  ghost predicate LegalSuits(playerSize: int, suits: seq<int>) {
    suits == [] || (DistinctSuits(suits) && if playerSize > 4 then |suits| >= playerSize - 4 else |suits| == 1)
  }

  ghost predicate Legal(q: CreateQuest, prices: map<int, int>, maPaiPatterns: seq<int>) {
    && q.playType in {0, 1, 2} && 2 <= q.playerSize <= 8
    && q.rounds in prices && q.payor in {0, 1, 2} && q.daQiang in {0, 1}
    && (q.maPai > 0 ==> q.maPai in maPaiPatterns) && LegalSuits(q.playerSize, q.suits)
  }

  lemma TwiceCounted(s: seq<int>, i: nat, j: nat)
    requires i < j < |s| && s[i] == s[j]
    ensures multiset(s)[s[i]] >= 2
  {
    assert s == s[..i] + [s[i]] + s[i + 1..j] + [s[j]] + s[j + 1..];
  }

  lemma {:induction false} CountedOnce(s: seq<int>, x: int)
    requires forall i, j | 0 <= i < j < |s| :: s[i] != s[j]
    ensures multiset(s)[x] <= 1
  {
    if s == [] {
    } else {
      assert s == [s[0]] + s[1..];
      CountedOnce(s[1..], x);
      assert x == s[0] ==> x !in s[1..];
    }
  }

  lemma InsideIsDistinct(suits: seq<int>)
    requires multiset(suits) <= multiset{0, 1, 2, 3}
    ensures DistinctSuits(suits)
  {
    forall i | 0 <= i < |suits| ensures 0 <= suits[i] <= 3 { assert suits[i] in multiset(suits); }
    forall i, j | 0 <= i < j < |suits| ensures suits[i] != suits[j] {
      if suits[i] == suits[j] { TwiceCounted(suits, i, j); }
    }
  }

  lemma DistinctIsInside(suits: seq<int>)
    requires DistinctSuits(suits)
    ensures multiset(suits) <= multiset{0, 1, 2, 3}
  {
    forall x ensures multiset(suits)[x] <= multiset{0, 1, 2, 3}[x] {
      CountedOnce(suits, x);
      assert x in multiset(suits) ==> x in suits;
    }
  }

  /** Inclusion in the four suits says that the suits are among them and no two are the same. */
  lemma SuitsInside(suits: seq<int>)
    ensures multiset(suits) <= multiset(ALL_SUITS) <==> DistinctSuits(suits)
  {
    assert multiset(ALL_SUITS) == multiset{0, 1, 2, 3};
    hide DistinctSuits;
    if multiset(suits) <= multiset(ALL_SUITS) { InsideIsDistinct(suits); }
    if DistinctSuits(suits) { DistinctIsInside(suits); }
  }

  /** The checks on a request to create a room; 0 is success, other results name the failed check. */
  method CheckAttr(q: CreateQuest, prices: map<int, int>, maPaiPatterns: seq<int>) returns (result: int, price: int)
    ensures result == 0 <==> Legal(q, prices, maPaiPatterns)
    ensures q.playType !in {0, 1, 2} <==> result == 1
    ensures result != 1 ==> (!(2 <= q.playerSize <= 8) <==> result == 2)
    ensures result !in {1, 2} ==> (q.rounds !in prices <==> result == 4)
    ensures result !in {1, 2, 4} ==> price == prices[q.rounds] && (q.payor !in {0, 1, 2} <==> result == 5)
    ensures result !in {1, 2, 4, 5} ==> (q.daQiang !in {0, 1} <==> result == 6)
    ensures result !in {1, 2, 4, 5, 6} ==> (q.maPai > 0 && q.maPai !in maPaiPatterns <==> result == 7)
    ensures result !in {1, 2, 4, 5, 6, 7} ==> (|q.suits| > 4 <==> result == 9)
    ensures result in {0, 1, 2, 4, 5, 6, 7, 9, 10, 11, 12}
    ensures result == 10 ==> q.playerSize > 4 && 0 < |q.suits| < q.playerSize - 4
    ensures result == 11 ==> q.playerSize <= 4 && 1 < |q.suits|
    ensures result == 12 ==> |q.suits| > 0 && !DistinctSuits(q.suits)
  {
    result, price := 0, 0;
    if q.playType != GP_NORMAL && q.playType != GP_BANKER && q.playType != GP_SAMEONE { return 1, 0; }
    if q.playerSize < MIN_PLAYERS || q.playerSize > MAX_PLAYERS { return 2, 0; }
    if q.rounds !in prices { return 4, 0; }
    price := prices[q.rounds];
    if q.payor != PAY_BANKER && q.payor != PAY_AA && q.payor != PAY_WINNER { return 5, price; }
    if q.daQiang != DQ_NORMAL && q.daQiang != DQ_X_DAO { return 6, price; }
    if q.maPai > 0 && q.maPai !in maPaiPatterns { return 7, price; }
    AtMostFour(q.suits);
    hide DistinctSuits;
    if |q.suits| > 4 { return 9, price; }
    if |q.suits| > 0 {
      if q.playerSize > 4 && |q.suits| < q.playerSize - 4 { return 10, price; }
      if q.playerSize <= 4 && |q.suits| != 1 { return 11, price; }
      SuitsInside(q.suits);
      var inside := IsSubset(ALL_SUITS, q.suits);
      if !inside { return 12, price; }
    }
  }

  lemma AtMostFour(suits: seq<int>)
    ensures DistinctSuits(suits) ==> |suits| <= 4
  {
    SuitsInside(suits);
    if multiset(suits) <= multiset(ALL_SUITS) {
      assert multiset(ALL_SUITS) == multiset(suits) + (multiset(ALL_SUITS) - multiset(suits));
      assert |multiset(suits)| == |suits|;
    }
  }

  // ---------------------------------------------------------------- the deck

  /** from, from + 1, .. , from + n - 1 */
  function Range(from: int, n: nat): (s: seq<int>)
    ensures |s| == n
  {
    if n == 0 then [] else Range(from, n - 1) + [from + n - 1]
  }

  function SuitCards(suit: int): seq<int> { Range(suit * HAND + 1, HAND) }

  function SuitsCards(suits: seq<int>): seq<int> {
    if suits == [] then [] else SuitsCards(suits[..|suits| - 1]) + SuitCards(suits[|suits| - 1])
  }

  /** Without a choice, players beyond the fourth bring in spades, hearts, clubs and diamonds in turn. */
  function DefaultSuits(playerSize: int): (s: seq<int>)
    ensures |s| == if playerSize > 4 then playerSize - 4 else 0
    decreases playerSize
  {
    if playerSize <= 4 then [] else DefaultSuits(playerSize - 1) + [ALL_SUITS[(playerSize - 1) % 4]]
  }

  /** That is, for the tables of five to eight: spades are suit 3, diamonds suit 0. */
  lemma DefaultSuitsInNumbers(playerSize: int)
    requires 2 <= playerSize <= 8
    ensures DefaultSuits(playerSize) == [3, 2, 1, 0][..if playerSize <= 4 then 0 else playerSize - 4]
  {
    assert DefaultSuits(5) == [3];
    assert DefaultSuits(6) == [3, 2];
    assert DefaultSuits(7) == [3, 2, 1];
    assert DefaultSuits(8) == [3, 2, 1, 0];
  }

  function ExtraSuits(playerSize: int, suits: seq<int>): seq<int> {
    if suits != [] then suits else DefaultSuits(playerSize)
  }

  function DeckOf(playerSize: int, withGhost: bool, suits: seq<int>): seq<int> {
    Range(1, if withGhost then 54 else 52) + (if withGhost && playerSize == 8 then [53, 54] else [])
    + SuitsCards(ExtraSuits(playerSize, suits))
  }

  method AddSuit(cards: seq<int>, suit: int) returns (r: seq<int>)
    ensures r == cards + SuitCards(suit)
  {
    r := cards;
    for i := 0 to HAND
      invariant r == cards + Range(suit * HAND + 1, i)
    {
      r := r + [suit * HAND + i + 1];
    }
  }

  method AddChosen(cards: seq<int>, suits: seq<int>) returns (r: seq<int>)
    ensures r == cards + SuitsCards(suits)
  {
    r := cards;
    for k := 0 to |suits|
      invariant r == cards + SuitsCards(suits[..k])
    {
      SuitsSnoc(suits, k);
      hide SuitsCards;
      r := AddSuit(r, suits[k]);
    }
    assert suits[..|suits|] == suits;
  }

  lemma SuitsSnoc(suits: seq<int>, k: nat)
    requires k < |suits|
    ensures SuitsCards(suits[..k + 1]) == SuitsCards(suits[..k]) + SuitCards(suits[k])
  {
    assert suits[..k + 1][..k] == suits[..k];
  }

  method AddDefault(cards: seq<int>, playerSize: int) returns (r: seq<int>)
    ensures r == cards + SuitsCards(DefaultSuits(playerSize))
  {
    r := cards;
    var p := 5;
    while p <= playerSize
      invariant 5 <= p && (p <= playerSize + 1 || p == 5)
      invariant r == cards + SuitsCards(DefaultSuits(p - 1))
    {
      DefaultSnoc(p);
      hide SuitsCards, DefaultSuits;
      r := AddSuit(r, ALL_SUITS[(p - 1) % 4]);
      p := p + 1;
    }
    DefaultSmall(playerSize);
  }

  lemma DefaultSnoc(p: int)
    requires p > 4
    ensures SuitsCards(DefaultSuits(p)) == SuitsCards(DefaultSuits(p - 1)) + SuitCards(ALL_SUITS[(p - 1) % 4])
  {
    assert DefaultSuits(p)[..p - 5] == DefaultSuits(p - 1);
  }

  lemma DefaultSmall(playerSize: int)
    ensures playerSize <= 4 ==> DefaultSuits(playerSize) == []
    ensures DefaultSuits(4) == [] && SuitsCards([]) == []
  {}

  /** The deck before it is shuffled. */
  method BuildDeck(playerSize: int, withGhost: bool, suits: seq<int>) returns (cards: seq<int>)
    ensures cards == DeckOf(playerSize, withGhost, suits)
  {
    cards := [];
    var size := if withGhost then 54 else 52;
    for i := 0 to size
      invariant cards == Range(1, i)
    {
      cards := cards + [i + 1];
    }
    hide Range, SuitsCards, DefaultSuits;
    ghost var base := cards;
    if withGhost && playerSize == 8 {
      cards := cards + [53];
      cards := cards + [54];
    }
    assert cards == base + if withGhost && playerSize == 8 then [53, 54] else [];
    if |suits| > 0 {
      cards := AddChosen(cards, suits);
    } else {
      cards := AddDefault(cards, playerSize);
    }
  }

  lemma {:induction false} RangeCount(from: int, n: nat, c: int)
    ensures multiset(Range(from, n))[c] == if from <= c < from + n then 1 else 0
  {
    if n == 0 {
    } else {
      RangeCount(from, n - 1, c);
    }
  }

  /** How many of the suits contain card c. */
  function SuitsWith(suits: seq<int>, c: int): nat {
    if suits == [] then 0
    else
      var last := suits[|suits| - 1];
      SuitsWith(suits[..|suits| - 1], c) + if last * HAND < c <= (last + 1) * HAND then 1 else 0
  }

  lemma {:induction false} SuitsCount(suits: seq<int>, c: int)
    ensures multiset(SuitsCards(suits))[c] == SuitsWith(suits, c) && |SuitsCards(suits)| == HAND * |suits|
  {
    if suits == [] {
    } else {
      SuitsCount(suits[..|suits| - 1], c);
      RangeCount(suits[|suits| - 1] * HAND + 1, HAND, c);
    }
  }

  /** The deck holds each ordinary card once and once more for every extra suit containing it, and each
      joker once, or twice at a table of eight. */
  lemma DeckCounts(playerSize: int, withGhost: bool, suits: seq<int>, c: int)
    ensures multiset(DeckOf(playerSize, withGhost, suits))[c] ==
      (if 1 <= c <= 52 then 1 else if 53 <= c <= 54 && withGhost then if playerSize == 8 then 2 else 1 else 0)
      + SuitsWith(ExtraSuits(playerSize, suits), c)
  {
    var base, extra := Range(1, if withGhost then 54 else 52), SuitsCards(ExtraSuits(playerSize, suits));
    var jokers: seq<int> := if withGhost && playerSize == 8 then [53, 54] else [];
    RangeCount(1, if withGhost then 54 else 52, c);
    SuitsCount(ExtraSuits(playerSize, suits), c);
    hide Range, SuitsCards, SuitsWith, ExtraSuits;
    JokersCount(withGhost && playerSize == 8, c);
    CountThree(base, jokers, extra, c);
  }

  lemma JokersCount(twice: bool, c: int)
    ensures multiset(if twice then [53, 54] else [])[c] == if twice && 53 <= c <= 54 then 1 else 0
  {}

  lemma CountThree(a: seq<int>, b: seq<int>, d: seq<int>, c: int)
    ensures multiset(a + b + d)[c] == multiset(a)[c] + multiset(b)[c] + multiset(d)[c]
  {}

  lemma {:induction false} SuitsWithin(suits: seq<int>, c: int)
    requires forall i | 0 <= i < |suits| :: 0 <= suits[i] <= 3
    ensures SuitsWith(suits, c) > 0 ==> 1 <= c <= 52
  {
    if suits == [] {
    } else {
      SuitsWithin(suits[..|suits| - 1], c);
    }
  }

  lemma {:induction false} DefaultWithin(playerSize: int)
    ensures forall i | 0 <= i < |DefaultSuits(playerSize)| :: 0 <= DefaultSuits(playerSize)[i] <= 3
    decreases playerSize
  {
    if playerSize <= 4 {
    } else {
      DefaultWithin(playerSize - 1);
    }
  }

  /** The deck of a room that may be created holds nothing but cards and jokers. */
  lemma DeckIsCards(playerSize: int, withGhost: bool, suits: seq<int>, c: int)
    requires LegalSuits(playerSize, suits)
    ensures c in multiset(DeckOf(playerSize, withGhost, suits)) ==> 1 <= c <= 54
  {
    DeckCounts(playerSize, withGhost, suits, c);
    DefaultWithin(playerSize);
    SuitsWithin(ExtraSuits(playerSize, suits), c);
  }

  /** Every room that may be created has thirteen cards for each of its players. */
  lemma DeckSuffices(playerSize: int, withGhost: bool, suits: seq<int>)
    requires MIN_PLAYERS <= playerSize <= MAX_PLAYERS && LegalSuits(playerSize, suits)
    ensures |DeckOf(playerSize, withGhost, suits)| >= HAND * playerSize
    ensures playerSize > 4 && suits == [] && !withGhost ==> |DeckOf(playerSize, withGhost, suits)| == HAND * playerSize
  {
    SuitsCount(ExtraSuits(playerSize, suits), 0);
  }
}
