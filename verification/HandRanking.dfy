/** Classification and scoring of hands of five and three cards (server/processes/lobby/deck.cpp and deck.h).
    What a row with jokers counts for is left open. */
module HandRanking {
  import opened Deck
  import Sorting

  const LAST_ORDINARY: int := 52

  /** Cards above 52 are jokers. */
  type Card = c: int | 1 <= c <= 54 witness 1

  const R2: nat := 0
  const RA: nat := 12
  const POW: seq<int> := [1, 14, 196, 2744, 38416, 537824, 7529536]

  predicate Ordinary(s: seq<Card>) { forall i | 0 <= i < |s| :: s[i] <= LAST_ORDINARY }

  /** Rank and suit; the source asserts that they are asked of ordinary cards only. */
  function Rank(c: Card): (r: nat)
    ensures r <= RA
  {
    (c - 1) % 13
  }

  function Suit(c: Card): (s: nat)
    ensures s <= 4
  {
    (c - 1) / 13
  }

  /** The cards of each suit are numbered in the order of their ranks, suit after suit. */
  lemma CardNumbers(r: nat, s: nat)
    requires r <= 12 && s <= 3
    ensures var c := 13 * s + r + 1;
      1 <= c <= 52 && Rank(c) == r && Suit(c) == s
  {}

  predicate LessCard(a: Card, b: Card) {
    if Rank(a) != Rank(b) then Rank(a) < Rank(b) else Suit(a) < Suit(b)
  }

  // ---------------------------------------------------------------- sorting

  /** The order by which hands are sorted, as a number. */
  function CardKey(c: Card): int { 8 * Rank(c) + Suit(c) }

  /** It is the source's comparison, and no two cards tie in it. */
  lemma LessCardIsKey(a: Card, b: Card)
    ensures LessCard(a, b) <==> CardKey(a) < CardKey(b)
    ensures CardKey(a) == CardKey(b) ==> a == b
  {}

  lemma CardKeyInjective()
    ensures Sorting.Injective(CardKey)
  {
    forall a: Card, b: Card | CardKey(a) == CardKey(b) ensures a == b { LessCardIsKey(a, b); }
  }

  function SortCards(s: seq<Card>): (t: seq<Card>)
    ensures |t| == |s|
  {
    Sorting.SortBy(s, CardKey)
  }

  lemma SortCardsSorts(s: seq<Card>)
    ensures Sorting.Sorted(SortCards(s), CardKey) && multiset(SortCards(s)) == multiset(s)
  {
    Sorting.SortBySorts(s, CardKey);
  }

  lemma CardsIgnoreOrder(s: seq<Card>, t: seq<Card>)
    requires multiset(s) == multiset(t)
    ensures SortCards(s) == SortCards(t)
  {
    CardKeyInjective();
    Sorting.SortIgnoresOrder(s, t, CardKey);
  }

  method Overwrite(c: array<Card>, from: nat, t: seq<Card>)
    requires from + |t| <= c.Length
    modifies c
    ensures c[..from] == old(c[..from]) && c[from..from + |t|] == t && c[from + |t|..] == old(c[from + |t|..])
  {
    forall i | 0 <= i < |t| { c[from + i] := t[i]; }
  }

  /** std::sort on c[from..from+n]: its result is in order, has the same cards, and touches nothing else. */
  method SortRange(c: array<Card>, from: nat, n: nat)
    requires from + n <= c.Length
    modifies c
    ensures Sorting.Sorted(c[from..from + n], CardKey)
    ensures multiset(c[from..from + n]) == multiset(old(c[from..from + n]))
    ensures c[..from] == old(c[..from]) && c[from + n..] == old(c[from + n..])
  {
    SortCardsSorts(c[from..from + n]);
    var t := SortCards(c[from..from + n]);
    hide *;
    Overwrite(c, from, t);
  }

  /** That pins the result down. */
  lemma RangeIsSorted(was: seq<Card>, now: seq<Card>, from: nat, n: nat)
    requires from + n <= |was| == |now|
    requires Sorting.Sorted(now[from..from + n], CardKey)
    requires multiset(now[from..from + n]) == multiset(was[from..from + n])
    requires now[..from] == was[..from] && now[from + n..] == was[from + n..]
    ensures now[from..from + n] == SortCards(was[from..from + n])
    ensures now == was[..from] + SortCards(was[from..from + n]) + was[from + n..]
  {
    CardKeyInjective();
    Sorting.SortedIsSortBy(was[from..from + n], now[from..from + n], CardKey);
    hide Sorting.Sorted, SortCards;
    assert now == now[..from] + now[from..from + n] + now[from + n..];
  }

  // ---------------------------------------------------------------- categories by counting

  /** Five ranks, in any order. */
  type Ranks5 = r: seq<nat> | |r| == 5 witness [0, 0, 0, 0, 0]

  ghost function One(b: bool): nat { if b then 1 else 0 }

  /** How many of the five have rank x. */
  ghost function Count(r: Ranks5, x: nat): nat {
    One(r[0] == x) + One(r[1] == x) + One(r[2] == x) + One(r[3] == x) + One(r[4] == x)
  }

  ghost predicate HasCount(r: Ranks5, n: nat) { exists x :: Count(r, x) >= n }

  ghost predicate Holds(r: Ranks5, a: nat, b: nat, c: nat, d: nat, e: nat) {
    Count(r, a) == 1 && Count(r, b) == 1 && Count(r, c) == 1 && Count(r, d) == 1 && Count(r, e) == 1
  }

  ghost predicate RunFrom(r: Ranks5, low: nat) { Holds(r, low, low + 1, low + 2, low + 3, low + 4) }

  /** Five consecutive ranks, or A 2 3 4 5. */
  ghost predicate IsStraight(r: Ranks5) { (exists low :: RunFrom(r, low)) || Holds(r, 0, 1, 2, 3, RA) }

  ghost predicate OneSuit(s: Ranks5) { exists x :: Count(s, x) == 5 }

  ghost predicate HasBoth(r: Ranks5, n: nat, m: nat) { exists x, y :: x != y && Count(r, x) >= n && Count(r, y) >= m }

  /** The category of a hand, from how often each rank and suit occurs in it. */
  ghost function Category(r: Ranks5, s: Ranks5): Brand {
    if HasCount(r, 5) then FiveOfKind
    else if IsStraight(r) && OneSuit(s) then StraightFlush
    else if HasCount(r, 4) then FourOfKind
    else if HasBoth(r, 3, 2) then FullHouse
    else if OneSuit(s) then Flush
    else if IsStraight(r) then Straight
    else if HasCount(r, 3) then ThreeOfKind
    else if HasBoth(r, 2, 2) then TwoPairs
    else if HasCount(r, 2) then OnePair
    else HighCard
  }

  /** What it takes to show a category, better ones aside. */
  ghost predicate ShowsBrand(b: Brand, r: Ranks5, s: Ranks5) {
    match b
    case HighCard => true
    case OnePair => HasCount(r, 2)
    case TwoPairs => HasBoth(r, 2, 2)
    case ThreeOfKind => HasCount(r, 3)
    case Straight => IsStraight(r)
    case Flush => OneSuit(s)
    case FullHouse => HasBoth(r, 3, 2)
    case FourOfKind => HasCount(r, 4)
    case StraightFlush => IsStraight(r) && OneSuit(s)
    case FiveOfKind => HasCount(r, 5)
  }

  /** A hand is of the best category that it shows. */
  lemma {:induction false} CategoryIsBest(r: Ranks5, s: Ranks5)
    ensures ShowsBrand(Category(r, s), r, s)
    ensures forall b | ShowsBrand(b, r, s) :: b.Value() <= Category(r, s).Value()
  {
    hide HasCount, HasBoth, IsStraight, OneSuit;
  }

  predicate Ascending(r: Ranks5) { r[0] <= r[1] <= r[2] <= r[3] <= r[4] }

  predicate Stairs(r: Ranks5) { r[0] + 1 == r[1] && r[1] + 1 == r[2] && r[2] + 1 == r[3] && r[3] + 1 == r[4] }

  predicate LowAce(r: Ranks5) { r[0] == 0 && r[1] == 1 && r[2] == 2 && r[3] == 3 && r[4] == RA }

  /** What the classifiers look at in ascending ranks says what the counts say. */
  lemma SortedCounts(r: Ranks5)
    requires Ascending(r)
    ensures HasCount(r, 5) <==> r[0] == r[4]
    ensures HasCount(r, 4) <==> r[0] == r[3] || r[1] == r[4]
    ensures HasCount(r, 3) <==> r[0] == r[2] || r[1] == r[3] || r[2] == r[4]
    ensures HasCount(r, 2) <==> r[0] == r[1] || r[1] == r[2] || r[2] == r[3] || r[3] == r[4]
  {
    assert Count(r, r[0]) + Count(r, r[4]) >= 2;
    assert Count(r, r[1]) >= 1 && Count(r, r[2]) >= 1 && Count(r, r[3]) >= 1;
  }

  lemma SortedPairs(r: Ranks5)
    requires Ascending(r) && !HasCount(r, 4)
    ensures HasBoth(r, 3, 2) <==> (r[0] == r[2] && r[3] == r[4]) || (r[2] == r[4] && r[0] == r[1])
    ensures HasBoth(r, 2, 2) <==>
      (r[0] == r[1] && r[2] == r[3]) || (r[0] == r[1] && r[3] == r[4]) || (r[1] == r[2] && r[3] == r[4])
  {
    SortedCounts(r);
    assert Count(r, r[0]) >= 1 && Count(r, r[1]) >= 1 && Count(r, r[2]) >= 1;
    assert Count(r, r[3]) >= 1 && Count(r, r[4]) >= 1;
  }

  lemma RunAscends(r: Ranks5, low: nat)
    requires Ascending(r) && RunFrom(r, low)
    ensures Stairs(r)
  {}

  lemma SortedStraight(r: Ranks5)
    requires Ascending(r)
    ensures IsStraight(r) <==> Stairs(r) || LowAce(r)
  {
    if Stairs(r) { assert RunFrom(r, r[0]); }
    if low :| RunFrom(r, low) { RunAscends(r, low); }
  }

  lemma OneSuitIff(s: Ranks5)
    ensures OneSuit(s) <==> s[0] == s[1] == s[2] == s[3] == s[4]
  {
    assert Count(s, s[0]) >= 1;
  }

  // ---------------------------------------------------------------- points and the keys they stand for

  /** The place of a straight among straights: 10 J Q K A first, A 2 3 4 5 second, then by the top rank. */
  function StraightTop(r: Ranks5): int {
    if r[4] == RA then if r[0] == R2 then 14 else 15 else r[4] + 1
  }

  /** Ranks from 1 to 13 in the order in which hands are compared: pairs taken out and put first, the
      rest descending. */
  function PairKey(r: Ranks5): (k: seq<int>)
    ensures 3 <= |k| <= 5
  {
    if r[0] == r[1] && r[2] == r[3] then [r[3] + 1, r[1] + 1, r[4] + 1]
    else if r[0] == r[1] && r[3] == r[4] then [r[4] + 1, r[1] + 1, r[2] + 1]
    else if r[1] == r[2] && r[3] == r[4] then [r[4] + 1, r[2] + 1, r[0] + 1]
    else if r[0] == r[1] then [r[1] + 1, r[4] + 1, r[3] + 1, r[2] + 1]
    else if r[1] == r[2] then [r[2] + 1, r[4] + 1, r[3] + 1, r[0] + 1]
    else if r[2] == r[3] then [r[3] + 1, r[4] + 1, r[1] + 1, r[0] + 1]
    else if r[3] == r[4] then [r[4] + 1, r[2] + 1, r[1] + 1, r[0] + 1]
    else [r[4] + 1, r[3] + 1, r[2] + 1, r[1] + 1, r[0] + 1]
  }

  function PairScore(k: seq<int>): int
    requires 3 <= |k| <= 5
  {
    if |k| == 3 then k[0] * POW[6] + k[1] * POW[5] + k[2]
    else if |k| == 4 then k[0] * POW[5] + k[1] * POW[2] + k[2] * POW[1] + k[3]
    else k[0] * POW[4] + k[1] * POW[3] + k[2] * POW[2] + k[3] * POW[1] + k[4]
  }

  function Score(b: Brand, r: Ranks5): int {
    match b
    case StraightFlush => StraightTop(r)
    case Straight => StraightTop(r)
    case FiveOfKind => r[2] + 1
    case FourOfKind => r[2] + 1
    case FullHouse => r[2] + 1
    case ThreeOfKind => r[2] + 1
    case _ => PairScore(PairKey(r))
  }

  /** What decides between two hands of one category, most important first.  Flushes are told apart by
      the number of their pairs before anything else. */
  function Key(b: Brand, r: Ranks5): seq<int> {
    match b
    case StraightFlush => [StraightTop(r)]
    case Straight => [StraightTop(r)]
    case FiveOfKind => [r[2] + 1]
    case FourOfKind => [r[2] + 1]
    case FullHouse => [r[2] + 1]
    case ThreeOfKind => [r[2] + 1]
    case Flush => [5 - |PairKey(r)|] + PairKey(r)
    case _ => PairKey(r)
  }

  function Sign(x: int): int { if x < 0 then -1 else if x > 0 then 1 else 0 }

  /** Lexicographic comparison: -1, 0 or 1. */
  function Lex(a: seq<int>, b: seq<int>): int {
    if a == [] || b == [] then Sign(|a| - |b|)
    else if a[0] != b[0] then Sign(a[0] - b[0])
    else Lex(a[1..], b[1..])
  }

  lemma Lex1(a: seq<int>, b: seq<int>)
    requires a != [] && b != []
    ensures Lex(a, b) == if a[0] != b[0] then Sign(a[0] - b[0]) else Lex(a[1..], b[1..])
  {}

  lemma LexThree(a: seq<int>, b: seq<int>)
    requires |a| == |b| == 3
    ensures Lex(a, b) == if a[0] != b[0] then Sign(a[0] - b[0]) else if a[1] != b[1] then Sign(a[1] - b[1])
      else Sign(a[2] - b[2])
  {
    Lex1(a[1..], b[1..]);
    Lex1(a[1..][1..], b[1..][1..]);
  }

  lemma LexFour(a: seq<int>, b: seq<int>)
    requires |a| == |b| == 4
    ensures Lex(a, b) == if a[0] != b[0] then Sign(a[0] - b[0]) else if a[1] != b[1] then Sign(a[1] - b[1])
      else if a[2] != b[2] then Sign(a[2] - b[2]) else Sign(a[3] - b[3])
  {
    LexThree(a[1..], b[1..]);
  }

  lemma LexFive(a: seq<int>, b: seq<int>)
    requires |a| == |b| == 5
    ensures Lex(a, b) == if a[0] != b[0] then Sign(a[0] - b[0]) else if a[1] != b[1] then Sign(a[1] - b[1])
      else if a[2] != b[2] then Sign(a[2] - b[2]) else if a[3] != b[3] then Sign(a[3] - b[3]) else Sign(a[4] - b[4])
  {
    LexFour(a[1..], b[1..]);
  }

  predicate Digits(k: seq<int>) { 3 <= |k| <= 5 && forall i | 0 <= i < |k| :: 1 <= k[i] <= 13 }

  /** More pairs outweigh everything, and between equally many pairs base 14 is lexicographic. */
  lemma PairScoreOrder(a: seq<int>, b: seq<int>)
    requires Digits(a) && Digits(b)
    ensures |a| == |b| ==> Sign(PairScore(a) - PairScore(b)) == Lex(a, b)
    ensures |a| < |b| ==> PairScore(a) > PairScore(b)
  {
    if |a| == |b| == 3 { LexThree(a, b); }
    if |a| == |b| == 4 { LexFour(a, b); }
    if |a| == |b| == 5 { LexFive(a, b); }
  }

  lemma PairKeyDigits(r: Ranks5)
    requires forall i | 0 <= i < 5 :: r[i] <= RA
    ensures Digits(PairKey(r))
  {}

  /** How many cards of rank x a key accounts for: twice its pairs and once the rest. */
  ghost function KeyCount(k: seq<int>, x: int): nat
    requires 3 <= |k| <= 5
  {
    if |k| == 3 then 2 * One(k[0] - 1 == x) + 2 * One(k[1] - 1 == x) + One(k[2] - 1 == x)
    else if |k| == 4 then 2 * One(k[0] - 1 == x) + One(k[1] - 1 == x) + One(k[2] - 1 == x) + One(k[3] - 1 == x)
    else One(k[0] - 1 == x) + One(k[1] - 1 == x) + One(k[2] - 1 == x) + One(k[3] - 1 == x) + One(k[4] - 1 == x)
  }

  /** A key lists exactly the hand's ranks: with two pairs the larger pair, the smaller pair and the
      single; with one the pair and the others descending; with none all five descending. */
  lemma PairKeyLists(r: Ranks5)
    requires Ascending(r) && !HasCount(r, 4) && !HasBoth(r, 3, 2)
    ensures forall x: nat :: KeyCount(PairKey(r), x) == Count(r, x)
    ensures |PairKey(r)| == (if HasBoth(r, 2, 2) then 3 else if HasCount(r, 2) then 4 else 5)
    ensures var k := PairKey(r);
      if |k| == 3 then k[0] > k[1] else if |k| == 4 then k[1] >= k[2] >= k[3] else k[0] > k[1] > k[2] > k[3] > k[4]
  {
    SortedCounts(r);
    SortedPairs(r);
  }

  /** In the categories scored by one rank, that rank, counted from 1, is the one occurring three times or more. */
  lemma MiddleIsMajority(r: Ranks5, s: Ranks5)
    requires Ascending(r)
    ensures var b := Category(r, s);
      b in {FiveOfKind, FourOfKind, FullHouse, ThreeOfKind} ==>
        && Count(r, r[2]) >= 3 && Score(b, r) == r[2] + 1
        && forall x: nat :: Count(r, x) >= 3 ==> Key(b, r) == [x + 1]
  {
    SortedCounts(r);
    if !HasCount(r, 4) { SortedPairs(r); }
  }

  predicate OneRank(b: Brand) { !(b.Flush? || b.TwoPairs? || b.OnePair? || b.HighCard?) }

  lemma OneRankOrder(b: Brand, r: Ranks5, r': Ranks5)
    requires OneRank(b) && r[4] <= RA && r'[4] <= RA && Ascending(r) && Ascending(r')
    ensures Sign(Score(b, r) - Score(b, r')) == Lex(Key(b, r), Key(b, r')) && 0 < Score(b, r) < 0x8000_0000
  {
    Lex1(Key(b, r), Key(b, r'));
  }

  lemma PairsOrder(b: Brand, r: Ranks5, r': Ranks5)
    requires !OneRank(b) && Digits(PairKey(r)) && Digits(PairKey(r'))
    requires b.Flush? || |PairKey(r)| == |PairKey(r')|
    ensures Sign(Score(b, r) - Score(b, r')) == Lex(Key(b, r), Key(b, r')) && 0 < Score(b, r) < 0x8000_0000
  {
    PairScoreOrder(PairKey(r), PairKey(r'));
    PairScoreFits(PairKey(r));
    hide PairKey, PairScore, Digits;
    if b.Flush? {
      Lex1(Key(b, r), Key(b, r'));
      assert Key(b, r)[1..] == PairKey(r) && Key(b, r')[1..] == PairKey(r');
      if |PairKey(r')| < |PairKey(r)| { hide Lex; PairScoreOrder(PairKey(r'), PairKey(r)); }
    }
  }

  lemma PairScoreFits(k: seq<int>)
    requires Digits(k)
    ensures 0 < PairScore(k) < 0x8000_0000
  {}

  /** For two hands of one category the points compare exactly as the keys, and fit an int32. */
  lemma ScoreOrder(r: Ranks5, s: Ranks5, r': Ranks5, s': Ranks5)
    requires Ascending(r) && Ascending(r') && r[4] <= RA && r'[4] <= RA && Category(r, s) == Category(r', s')
    ensures var b := Category(r, s);
      && Sign(Score(b, r) - Score(b, r')) == Lex(Key(b, r), Key(b, r'))
      && 0 < Score(b, r) < 0x8000_0000
  {
    var b := Category(r, s);
    KeyLengths(r, s);
    KeyLengths(r', s');
    PairKeyDigits(r);
    PairKeyDigits(r');
    hide Category, PairKey, Score, Key, Digits;
    if OneRank(b) { OneRankOrder(b, r, r'); } else { PairsOrder(b, r, r'); }
  }

  lemma KeyLengths(r: Ranks5, s: Ranks5)
    requires Ascending(r)
    ensures Category(r, s).TwoPairs? ==> |PairKey(r)| == 3
    ensures Category(r, s).OnePair? ==> |PairKey(r)| == 4
    ensures Category(r, s).HighCard? ==> |PairKey(r)| == 5
  {
    SortedCounts(r);
    if !HasCount(r, 4) { SortedPairs(r); }
  }

  // ---------------------------------------------------------------- hands of cards

  type Hand5 = h: seq<Card> | |h| == 5 witness [1, 1, 1, 1, 1]

  function RanksOf(h: Hand5): Ranks5 { [Rank(h[0]), Rank(h[1]), Rank(h[2]), Rank(h[3]), Rank(h[4])] }

  function SuitsOf(h: Hand5): Ranks5 { [Suit(h[0]), Suit(h[1]), Suit(h[2]), Suit(h[3]), Suit(h[4])] }

  /** The evaluation of a five-card hand. */
  ghost function Info5(h: Hand5): BrandInfo {
    var t := SortCards(h);
    var b := Category(RanksOf(h), SuitsOf(h));
    BrandInfo(b, Score(b, RanksOf(t)), false)
  }

  ghost function Total(h: seq<Card>, which: Card -> bool): nat {
    if h == [] then 0 else One(which(h[0])) + Total(h[1..], which)
  }

  lemma {:induction false} TotalPlaced(h: seq<Card>, x: Card, which: Card -> bool)
    ensures Total(Sorting.Placed(h, x, CardKey), which) == Total(h, which) + One(which(x))
  {
    if h == [] || CardKey(x) <= CardKey(h[0]) {
    } else {
      TotalPlaced(h[1..], x, which);
    }
  }

  lemma {:induction false} TotalSorted(h: seq<Card>, which: Card -> bool)
    ensures Total(SortCards(h), which) == Total(h, which)
  {
    if h == [] {
    } else {
      TotalSorted(h[1..], which);
      TotalPlaced(SortCards(h[1..]), h[0], which);
    }
  }

  lemma TotalFirst(x: Card, rest: seq<Card>, which: Card -> bool)
    ensures Total([x] + rest, which) == One(which(x)) + Total(rest, which)
  {
    assert ([x] + rest)[1..] == rest;
  }

  lemma TotalOfFive(h: Hand5, which: Card -> bool)
    ensures Total(h, which) ==
      One(which(h[0])) + One(which(h[1])) + One(which(h[2])) + One(which(h[3])) + One(which(h[4]))
  {
    assert h == [h[0]] + ([h[1]] + ([h[2]] + ([h[3]] + ([h[4]] + []))));
    TotalFirst(h[0], [h[1]] + ([h[2]] + ([h[3]] + ([h[4]] + []))), which);
    TotalFirst(h[1], [h[2]] + ([h[3]] + ([h[4]] + [])), which);
    TotalFirst(h[2], [h[3]] + ([h[4]] + []), which);
    TotalFirst(h[3], [h[4]] + [], which);
    TotalFirst(h[4], [], which);
  }

  lemma RankCounts(h: Hand5, x: nat)
    ensures Total(h, (c: Card) => Rank(c) == x) == Count(RanksOf(h), x)
  {
    TotalOfFive(h, (c: Card) => Rank(c) == x);
  }

  lemma SuitCounts(h: Hand5, x: nat)
    ensures Total(h, (c: Card) => Suit(c) == x) == Count(SuitsOf(h), x)
  {
    TotalOfFive(h, (c: Card) => Suit(c) == x);
  }

  /** Sorting changes no count, so the category can be read off the hand in any order. */
  lemma CountsSorted(h: Hand5, x: nat)
    ensures Count(RanksOf(SortCards(h)), x) == Count(RanksOf(h), x)
    ensures Count(SuitsOf(SortCards(h)), x) == Count(SuitsOf(h), x)
  {
    hide Total, SortCards, Count, RanksOf, SuitsOf;
    TotalSorted(h, (c: Card) => Rank(c) == x);
    TotalSorted(h, (c: Card) => Suit(c) == x);
    RankCounts(h, x);
    SuitCounts(h, x);
    RankCounts(SortCards(h), x);
    SuitCounts(SortCards(h), x);
  }

  lemma CategoryByCounts(r: Ranks5, s: Ranks5, r': Ranks5, s': Ranks5)
    requires forall x: nat :: Count(r, x) == Count(r', x) && Count(s, x) == Count(s', x)
    ensures Category(r, s) == Category(r', s')
  {
    hide Count;
    assert IsStraight(r) <==> IsStraight(r') by {
      forall low: nat ensures RunFrom(r, low) <==> RunFrom(r', low) {}
    }
  }

  lemma SortedHand(h: Hand5)
    ensures var t := SortCards(h);
      && Ascending(RanksOf(t)) && RanksOf(t)[4] <= RA
      && Category(RanksOf(t), SuitsOf(t)) == Category(RanksOf(h), SuitsOf(h))
  {
    SortCardsSorts(h);
    forall x: nat
      ensures Count(RanksOf(SortCards(h)), x) == Count(RanksOf(h), x)
      ensures Count(SuitsOf(SortCards(h)), x) == Count(SuitsOf(h), x)
    {
      CountsSorted(h, x);
    }
    CategoryByCounts(RanksOf(SortCards(h)), SuitsOf(SortCards(h)), RanksOf(h), SuitsOf(h));
  }

  /** An evaluation depends only on which cards are held. */
  lemma InfoIgnoresOrder(g: Hand5, h: Hand5)
    requires multiset(g) == multiset(h)
    ensures Info5(g) == Info5(h)
  {
    CardsIgnoreOrder(g, h);
    SortedHand(g);
    SortedHand(h);
  }

  /** Comparing evaluations is comparing categories, then keys lexicographically. */
  lemma {:induction false} ComparisonMeaning(g: Hand5, h: Hand5)
    ensures var x, y := Info5(g), Info5(h);
      var byKey := Lex(Key(x.b, RanksOf(SortCards(g))), Key(y.b, RanksOf(SortCards(h))));
      CmpBrandInfo(x, y) ==
        if x.b != y.b then if x.b.Value() > y.b.Value() then 1 else 2
        else if byKey > 0 then 1 else if byKey < 0 then 2 else 0
  {
    SortedHand(g);
    SortedHand(h);
    var r, r' := RanksOf(SortCards(g)), RanksOf(SortCards(h));
    if Info5(g).b == Info5(h).b { ScoreOrder(r, SuitsOf(SortCards(g)), r', SuitsOf(SortCards(h))); }
  }

  /** Five consecutive ranks from `low` up, counting a two as 0 and an ace as 12. */
  function RunOf(low: nat): Ranks5 { [low, low + 1, low + 2, low + 3, low + 4] }

  /** A 2 3 4 5. */
  function LowRun(): Ranks5 { [0, 1, 2, 3, 12] }

  ghost predicate StraightBrand(b: Brand) { b == Straight || b == StraightFlush }

  lemma StraightPlaces(r: Ranks5, s: Ranks5)
    requires Ascending(r) && r[4] <= RA && StraightBrand(Category(r, s))
    ensures r == LowRun() || exists low :: 0 <= low <= 8 && r == RunOf(low)
    ensures Score(Category(r, s), r) == if r == LowRun() then 14 else if r == RunOf(8) then 15 else r[4] + 1
  {
    SortedStraight(r);
    if Stairs(r) { assert r == RunOf(r[0]); }
  }

  /** The order of the straights: A 2 3 4 5 stands between 10 J Q K A, the highest, and 9 10 J Q K; below those the top
      card decides. */
  lemma {:induction false} StraightsInOrder(g: Hand5, h: Hand5, r: Ranks5, r': Ranks5)
    requires StraightBrand(Info5(g).b) && Info5(h).b == Info5(g).b
    requires r == RanksOf(SortCards(g)) && r' == RanksOf(SortCards(h))
    ensures r == LowRun() || exists low :: 0 <= low <= 8 && r == RunOf(low)
    ensures var cmp := CmpBrandInfo(Info5(g), Info5(h));
      && (r == RunOf(8) && r' == LowRun() ==> cmp == 1)
      && (forall m | 0 <= m <= 7 && r == LowRun() && r' == RunOf(m) :: cmp == 1)
      && (forall n, m | 0 <= m < n <= 8 && r == RunOf(n) && r' == RunOf(m) :: cmp == 1)
      && (r == r' ==> cmp == 0)
  {
    SortedHand(g);
    SortedHand(h);
    hide Score;
    StraightPlaces(r, SuitsOf(SortCards(g)));
    StraightPlaces(r', SuitsOf(SortCards(h)));
    hide Category, SortCards, RanksOf, SuitsOf;
  }

  // ---------------------------------------------------------------- the classifiers

  /** The loop both classifiers run over the sorted cards. */
  method Neighbours(r: Ranks5, s: Ranks5) returns (isStraight: bool, isFlush: bool)
    ensures isStraight <==> Stairs(r)
    ensures isFlush <==> s[0] == s[1] == s[2] == s[3] == s[4]
  {
    isStraight, isFlush := true, true;
    for i := 1 to 5
      invariant isStraight <==> forall j | 1 <= j < i :: r[j - 1] + 1 == r[j]
      invariant isFlush <==> forall j | 1 <= j < i :: s[j - 1] == s[j]
    {
      if r[i - 1] + 1 != r[i] { isStraight := false; }
      if s[i - 1] != s[i] { isFlush := false; }
    }
  }

  /** The first two equal neighbours, or 0. */
  method FirstPair(r: Ranks5) returns (i: nat)
    ensures i < 5 && (i > 0 ==> r[i - 1] == r[i])
    ensures forall j | 1 <= j < (if i > 0 then i else 5) :: r[j - 1] != r[j]
  {
    for k := 1 to 5
      invariant forall j | 1 <= j < k :: r[j - 1] != r[j]
    {
      if r[k - 1] == r[k] { return k; }
    }
    return 0;
  }

  method TwoPairPoint(r: Ranks5) returns (point: int)
    requires r[0] <= r[1] <= r[2] <= r[3] <= r[4]
    ensures point == if |PairKey(r)| == 3 then PairScore(PairKey(r)) else 0
  {
    point := 0;
    if r[0] == r[1] && r[2] == r[3] {
      point := (r[3] + 1) * POW[6] + (r[1] + 1) * POW[5] + (r[4] + 1);
    } else if r[0] == r[1] && r[3] == r[4] {
      point := (r[4] + 1) * POW[6] + (r[1] + 1) * POW[5] + (r[2] + 1);
    } else if r[1] == r[2] && r[3] == r[4] {
      point := (r[4] + 1) * POW[6] + (r[2] + 1) * POW[5] + (r[0] + 1);
    }
  }

  /** A pair at places p - 1 and p counts 14^5, the other cards fill the digits below from the smallest. */
  method PairPoint(r: Ranks5, p: nat) returns (point: int)
    requires 0 < p < 5
    ensures point == (r[p] + 1) * POW[5]
      + (if p == 4 then r[2] + 1 else r[4] + 1) * POW[2]
      + (if p >= 3 then r[1] + 1 else r[3] + 1) * POW[1]
      + (if p == 1 then r[2] + 1 else r[0] + 1)
  {
    point := (r[p] + 1) * POW[5];
    var high := 0;
    for i := 0 to 5
      invariant high == (if i < p then i else if i == p then p - 1 else i - 2)
      invariant 0 <= high <= 3
      invariant point == (r[p] + 1) * POW[5] + Filled(r, p, i)
    {
      if i == p || i == p - 1 { continue; }
      point := point + (r[i] + 1) * POW[high];
      high := high + 1;
    }
    FilledAll(r, p);
  }

  /** What card i adds to the score of a hand with its pair at p. */
  function Share(r: Ranks5, p: nat, i: nat): int
    requires 0 < p < 5 && i < 5
  {
    if i == p || i == p - 1 then 0 else (r[i] + 1) * POW[if i < p then i else i - 2]
  }

  function Filled(r: Ranks5, p: nat, n: nat): int
    requires 0 < p < 5 && n <= 5
  {
    if n == 0 then 0 else Filled(r, p, n - 1) + Share(r, p, n - 1)
  }

  lemma FilledAll(r: Ranks5, p: nat)
    requires 0 < p < 5
    ensures Filled(r, p, 5) == Share(r, p, 0) + Share(r, p, 1) + Share(r, p, 2) + Share(r, p, 3) + Share(r, p, 4)
  {
    assert Filled(r, p, 1) == Share(r, p, 0);
    assert Filled(r, p, 2) == Filled(r, p, 1) + Share(r, p, 1);
    assert Filled(r, p, 3) == Filled(r, p, 2) + Share(r, p, 2);
    assert Filled(r, p, 4) == Filled(r, p, 3) + Share(r, p, 3);
  }

  method HighCardPoint(r: Ranks5) returns (point: int)
    ensures point == (r[4] + 1) * POW[4] + (r[3] + 1) * POW[3] + (r[2] + 1) * POW[2] + (r[1] + 1) * POW[1] + (r[0] + 1)
  {
    point := 0;
    for i := 0 to 5
      invariant point == (if i > 0 then r[0] + 1 else 0) + (if i > 1 then (r[1] + 1) * POW[1] else 0)
        + (if i > 2 then (r[2] + 1) * POW[2] else 0) + (if i > 3 then (r[3] + 1) * POW[3] else 0)
        + (if i > 4 then (r[4] + 1) * POW[4] else 0)
    {
      point := point + (r[i] + 1) * POW[i];
    }
  }

  /** Pairs, or the lack of them, among cards that hold neither four of a kind nor a full house. */
  method PairsPoint(r: Ranks5) returns (point: int, pairs: nat)
    requires Ascending(r)
    ensures pairs == 5 - |PairKey(r)| && point == PairScore(PairKey(r))
  {
    point := TwoPairPoint(r);
    if point > 0 { return point, 2; }
    var p := FirstPair(r);
    if p != 0 {
      point := PairPoint(r, p);
      return point, 1;
    }
    point := HighCardPoint(r);
    return point, 0;
  }

  /** brandInfo5: sorts the five cards at c[from..] in place and evaluates them. */
  method BrandInfo5(c: array<Card>, from: nat) returns (info: BrandInfo)
    requires from + 5 <= c.Length && Ordinary(c[from..from + 5])
    modifies c
    ensures c[..] == old(c[..from]) + SortCards(old(c[from..from + 5])) + old(c[from + 5..])
    ensures info == Info5(old(c[from..from + 5]))
  {
    SortRange(c, from, 5);
    ghost var h := old(c[from..from + 5]);
    RangeIsSorted(old(c[..]), c[..], from, 5);
    assert forall i | 0 <= i < 5 :: c[from + i] == c[..][from + i] == SortCards(h)[i];
    var r := [Rank(c[from]), Rank(c[from + 1]), Rank(c[from + 2]), Rank(c[from + 3]), Rank(c[from + 4])];
    var s := [Suit(c[from]), Suit(c[from + 1]), Suit(c[from + 2]), Suit(c[from + 3]), Suit(c[from + 4])];
    assert r == RanksOf(SortCards(h)) && s == SuitsOf(SortCards(h));
    SortedHand(h);
    info := Evaluate(r, s);
  }

  method Evaluate(r: Ranks5, s: Ranks5) returns (info: BrandInfo)
    requires Ascending(r)
    ensures info == BrandInfo(Category(r, s), Score(Category(r, s), r), false)
  {
    SortedCounts(r);
    SortedStraight(r);
    OneSuitIff(s);
    if !HasCount(r, 4) { SortedPairs(r); }
    KeyLengths(r, s);
    hide HasCount, IsStraight, OneSuit, HasBoth, PairKey, PairScore;
    if r[0] == r[4] { return BrandInfo(FiveOfKind, r[0] + 1, false); }
    var isStraight, isFlush := Neighbours(r, s);
    if r[0] == R2 && r[1] == 1 && r[2] == 2 && r[3] == 3 && r[4] == RA { isStraight := true; }
    var top := if r[4] == RA then if r[0] == R2 then 14 else 15 else r[4] + 1;
    if isStraight && isFlush { return BrandInfo(StraightFlush, top, false); }

    var point := if r[0] == r[3] then r[3] + 1 else if r[1] == r[4] then r[4] + 1 else 0;
    if point > 0 { return BrandInfo(FourOfKind, point, false); }

    point := if r[0] == r[2] && r[3] == r[4] then r[2] + 1 else if r[2] == r[4] && r[0] == r[1] then r[4] + 1 else 0;
    if point > 0 { return BrandInfo(FullHouse, point, false); }

    var pairs;
    if isFlush {
      point, pairs := PairsPoint(r);
      return BrandInfo(Flush, point, false);
    }
    if isStraight { return BrandInfo(Straight, top, false); }

    point := if r[0] == r[2] then r[2] + 1 else if r[1] == r[3] then r[3] + 1 else if r[2] == r[4] then r[4] + 1 else 0;
    if point > 0 { return BrandInfo(ThreeOfKind, point, false); }

    point, pairs := PairsPoint(r);
    info := BrandInfo(if pairs == 2 then TwoPairs else if pairs == 1 then OnePair else HighCard, point, false);
  }

  /** brand5: written separately, it sorts the same way and always finds the same category. */
  method Brand5(c: array<Card>, from: nat) returns (b: Brand)
    requires from + 5 <= c.Length && Ordinary(c[from..from + 5])
    modifies c
    ensures c[..] == old(c[..from]) + SortCards(old(c[from..from + 5])) + old(c[from + 5..])
    ensures b == Info5(old(c[from..from + 5])).b
  {
    SortRange(c, from, 5);
    ghost var h := old(c[from..from + 5]);
    RangeIsSorted(old(c[..]), c[..], from, 5);
    assert forall i | 0 <= i < 5 :: c[from + i] == c[..][from + i] == SortCards(h)[i];
    var r := [Rank(c[from]), Rank(c[from + 1]), Rank(c[from + 2]), Rank(c[from + 3]), Rank(c[from + 4])];
    var s := [Suit(c[from]), Suit(c[from + 1]), Suit(c[from + 2]), Suit(c[from + 3]), Suit(c[from + 4])];
    assert r == RanksOf(SortCards(h)) && s == SuitsOf(SortCards(h));
    SortedHand(h);
    b := Classify(r, s);
  }

  method Classify(r: Ranks5, s: Ranks5) returns (b: Brand)
    requires Ascending(r)
    ensures b == Category(r, s)
  {
    SortedCounts(r);
    SortedStraight(r);
    OneSuitIff(s);
    if !HasCount(r, 4) { SortedPairs(r); }
    hide HasCount, IsStraight, OneSuit, HasBoth;
    if r[0] == r[4] { return FiveOfKind; }
    var isStraight, isFlush := Neighbours(r, s);
    if r[0] == R2 && r[1] == 1 && r[2] == 2 && r[3] == 3 && r[4] == RA { isStraight := true; }
    if isStraight && isFlush { return StraightFlush; }
    if r[0] == r[3] || r[1] == r[4] { return FourOfKind; }
    if (r[0] == r[2] && r[3] == r[4]) || (r[2] == r[4] && r[0] == r[1]) { return FullHouse; }
    if isFlush { return Flush; }
    if isStraight { return Straight; }
    if r[0] == r[2] || r[2] == r[4] || r[1] == r[3] { return ThreeOfKind; }
    if (r[0] == r[1] && r[2] == r[3]) || (r[0] == r[1] && r[3] == r[4]) || (r[1] == r[2] && r[3] == r[4]) {
      return TwoPairs;
    }
    var p := FirstPair(r);
    b := if p != 0 then OnePair else HighCard;
  }

  // ---------------------------------------------------------------- hands of three cards

  type Hand3 = h: seq<Card> | |h| == 3 witness [1, 1, 1]

  ghost function Count3(h: Hand3, x: nat): nat { One(Rank(h[0]) == x) + One(Rank(h[1]) == x) + One(Rank(h[2]) == x) }

  ghost function Category3(h: Hand3): Brand {
    if exists x :: Count3(h, x) == 3 then ThreeOfKind else if exists x :: Count3(h, x) == 2 then OnePair else HighCard
  }

  /** Ranks from 2 to 14: the pair and the single, or all three descending. */
  function Key3(b: Brand, t: Hand3): (k: seq<int>)
    ensures |k| == (if b.ThreeOfKind? then 1 else if b.OnePair? then 2 else 3)
  {
    match b
    case ThreeOfKind => [Rank(t[1]) + 2]
    case OnePair => [Rank(t[1]) + 2, if Rank(t[0]) == Rank(t[1]) then Rank(t[2]) + 2 else Rank(t[0]) + 2]
    case _ => [Rank(t[2]) + 2, Rank(t[1]) + 2, Rank(t[0]) + 2]
  }

  function Score3(b: Brand, t: Hand3): int {
    var k := Key3(b, t);
    match b
    case ThreeOfKind => k[0]
    case OnePair => k[0] * POW[3] + k[1]
    case _ => k[0] * POW[2] + k[1] * POW[1] + k[2]
  }

  ghost function Info3(h: Hand3): BrandInfo { BrandInfo(Category3(h), Score3(Category3(h), SortCards(h)), false) }

  lemma Count3Sorted(h: Hand3, x: nat)
    ensures Count3(SortCards(h), x) == Count3(h, x)
  {
    var ofRank := (c: Card) => Rank(c) == x;
    TotalSorted(h, ofRank);
    TotalOfThree(h, ofRank);
    TotalOfThree(SortCards(h), ofRank);
  }

  lemma TotalOfThree(h: Hand3, which: Card -> bool)
    ensures Total(h, which) == One(which(h[0])) + One(which(h[1])) + One(which(h[2]))
  {
    assert h == [h[0]] + ([h[1]] + ([h[2]] + []));
    TotalFirst(h[0], [h[1]] + ([h[2]] + []), which);
    TotalFirst(h[1], [h[2]] + [], which);
    TotalFirst(h[2], [], which);
  }

  lemma Info3IgnoresOrder(g: Hand3, h: Hand3)
    requires multiset(g) == multiset(h)
    ensures Info3(g) == Info3(h)
  {
    CardsIgnoreOrder(g, h);
    SortedHand3(g);
    SortedHand3(h);
  }

  predicate Ascending3(t: Hand3) { Rank(t[0]) <= Rank(t[1]) <= Rank(t[2]) }

  lemma SortedHand3(h: Hand3)
    ensures Ascending3(SortCards(h)) && Category3(SortCards(h)) == Category3(h)
  {
    SortCardsSorts(h);
    forall x: nat ensures Count3(SortCards(h), x) == Count3(h, x) { Count3Sorted(h, x); }
  }

  lemma SortedCategory3(t: Hand3)
    requires Ascending3(t)
    ensures Category3(t) == if Rank(t[0]) == Rank(t[2]) then ThreeOfKind
      else if Rank(t[0]) == Rank(t[1]) || Rank(t[1]) == Rank(t[2]) then OnePair else HighCard
  {
    assert Count3(t, Rank(t[0])) >= 1 && Count3(t, Rank(t[1])) >= 1 && Count3(t, Rank(t[2])) >= 1;
  }

  /** The key of three cards: the rank held most often first, and otherwise the ranks descending. */
  lemma Key3Lists(t: Hand3)
    requires Ascending3(t)
    ensures var b := Category3(t);
      var k := Key3(b, t);
      && (forall i | 0 <= i < |k| :: k[i] >= 2)
      && (b == ThreeOfKind ==> Count3(t, k[0] - 2) == 3)
      && (b == OnePair ==> Count3(t, k[0] - 2) == 2 && Count3(t, k[1] - 2) == 1)
      && (b != ThreeOfKind && b != OnePair ==>
            k[0] > k[1] > k[2] && forall i | 0 <= i < 3 :: Count3(t, k[i] - 2) == 1)
  {
    SortedCategory3(t);
  }

  /** Three-card points, too, compare as their keys: an ace is worth 14, one more than base 14 has digits
      for, but the digit below a 14 is never large enough to carry. */
  lemma ComparisonMeaning3(g: Hand3, h: Hand3)
    ensures var x, y := Info3(g), Info3(h);
      var byKey := Lex(Key3(x.b, SortCards(g)), Key3(y.b, SortCards(h)));
      CmpBrandInfo(x, y) ==
        if x.b != y.b then if x.b.Value() > y.b.Value() then 1 else 2
        else if byKey > 0 then 1 else if byKey < 0 then 2 else 0
  {
    SortedHand3(g);
    SortedHand3(h);
    SortedCategory3(SortCards(g));
    SortedCategory3(SortCards(h));
    var b := Category3(g);
    if b == Category3(h) { ScoreOrder3(b, SortCards(g), SortCards(h)); }
  }

  lemma ScoreOrder3(b: Brand, t: Hand3, t': Hand3)
    requires Ascending3(t) && Ascending3(t') && b == Category3(t) == Category3(t')
    ensures Sign(Score3(b, t) - Score3(b, t')) == Lex(Key3(b, t), Key3(b, t'))
  {
    SortedCategory3(t);
    SortedCategory3(t');
    hide Category3, Rank;
    var k, k' := Key3(b, t), Key3(b, t');
    Lex1(k, k');
    if b.OnePair? { Lex1(k[1..], k'[1..]); }
    if b.HighCard? { LexThree(k, k'); }
  }

  method Evaluate3(t: Hand3) returns (info: BrandInfo)
    requires Ascending3(t)
    ensures info == BrandInfo(Category3(t), Score3(Category3(t), t), false)
  {
    SortedCategory3(t);
    hide Category3, Rank;
    var r := [Rank(t[0]), Rank(t[1]), Rank(t[2])];
    if r[0] == r[2] { return BrandInfo(ThreeOfKind, r[2] + 2, false); }
    var point := if r[0] == r[1] then (r[1] + 2) * POW[3] + (r[2] + 2)
                 else if r[1] == r[2] then (r[2] + 2) * POW[3] + (r[0] + 2) else 0;
    if point > 0 { return BrandInfo(OnePair, point, false); }
    for i := 0 to 3
      invariant point == (if i > 0 then r[0] + 2 else 0) + (if i > 1 then (r[1] + 2) * POW[1] else 0)
        + (if i > 2 then (r[2] + 2) * POW[2] else 0)
    {
      point := point + (r[i] + 2) * POW[i];
    }
    info := BrandInfo(HighCard, point, false);
  }

  /** brandInfo3: sorts the three cards in place and evaluates them. */
  method BrandInfo3(c: array<Card>, from: nat) returns (info: BrandInfo)
    requires from + 3 <= c.Length && Ordinary(c[from..from + 3])
    modifies c
    ensures c[..] == old(c[..from]) + SortCards(old(c[from..from + 3])) + old(c[from + 3..])
    ensures info == Info3(old(c[from..from + 3]))
  {
    SortRange(c, from, 3);
    RangeIsSorted(old(c[..]), c[..], from, 3);
    SortedHand3(old(c[from..from + 3]));
    info := Evaluate3(c[from..from + 3]);
  }

  // ---------------------------------------------------------------- rows with and without jokers

  /** How a row with jokers is evaluated, given its ordinary cards in order; arbitrary here. */
  datatype Jokers = Jokers(info5: seq<Card> -> BrandInfo, info3: seq<Card> -> BrandInfo)

  function Ordinaries(row: seq<Card>): seq<Card> {
    if row == [] then []
    else Ordinaries(row[..|row| - 1]) + if row[|row| - 1] <= LAST_ORDINARY then [row[|row| - 1]] else []
  }

  /** The evaluation of a row of five or three cards, jokers or not. */
  ghost function RowInfo(row: seq<Card>, jokers: Jokers): BrandInfo {
    if |row| == 5 then
      if Ordinary(row) then Info5(row) else jokers.info5(SortCards(Ordinaries(row)))
    else if |row| == 3 then
      if Ordinary(row) then Info3(row) else jokers.info3(SortCards(Ordinaries(row)))
    else BrandInfo(HighCard, 0, false)
  }

  /** What the evaluation leaves of the row: rows without jokers are sorted in place, others are copied. */
  function AfterRow(row: seq<Card>): (r: seq<Card>)
    ensures |r| == |row|
  {
    if Ordinary(row) && (|row| == 5 || |row| == 3) then SortCards(row) else row
  }

  lemma {:induction false} OrdinariesCount(row: seq<Card>, c: Card)
    ensures multiset(Ordinaries(row))[c] == if c <= LAST_ORDINARY then multiset(row)[c] else 0
  {
    if row == [] {
    } else {
      assert row == row[..|row| - 1] + [row[|row| - 1]];
      OrdinariesCount(row[..|row| - 1], c);
    }
  }

  lemma {:induction false} OrdinariesAll(row: seq<Card>)
    ensures |Ordinaries(row)| <= |row| && (|Ordinaries(row)| == |row| <==> Ordinary(row))
  {
    if row == [] {
    } else {
      OrdinariesAll(row[..|row| - 1]);
      assert Ordinary(row) <==> Ordinary(row[..|row| - 1]) && row[|row| - 1] <= LAST_ORDINARY;
    }
  }

  lemma SameOrdinary(g: seq<Card>, h: seq<Card>)
    requires multiset(g) == multiset(h)
    ensures Ordinary(g) <==> Ordinary(h)
  {
    forall i | 0 <= i < |g| ensures g[i] in multiset(h) { assert g[i] in multiset(g); }
    forall i | 0 <= i < |h| ensures h[i] in multiset(g) { assert h[i] in multiset(h); }
  }

  /** Whatever jokers count for, the order of a row's cards does not matter. */
  lemma RowIgnoresOrder(g: seq<Card>, h: seq<Card>, jokers: Jokers)
    requires multiset(g) == multiset(h)
    ensures RowInfo(g, jokers) == RowInfo(h, jokers)
    ensures Ordinary(g) && (|g| == 5 || |g| == 3) ==> AfterRow(g) == AfterRow(h)
  {
    assert |g| == |multiset(g)| == |multiset(h)| == |h|;
    SameOrdinary(g, h);
    CardsIgnoreOrder(g, h);
    forall c: Card ensures multiset(Ordinaries(g))[c] == multiset(Ordinaries(h))[c] {
      OrdinariesCount(g, c);
      OrdinariesCount(h, c);
    }
    CardsIgnoreOrder(Ordinaries(g), Ordinaries(h));
    if |g| == 5 { InfoIgnoresOrder(g, h); }
    if |g| == 3 { Info3IgnoresOrder(g, h); }
  }

  /** brandInfo: rows without jokers go to the classifier of their size, which sorts them in place. */
  method BrandInfoOf(c: array<Card>, from: nat, size: nat, jokers: Jokers) returns (info: BrandInfo)
    requires from + size <= c.Length && size <= 5
    modifies c
    ensures c[..] == old(c[..from]) + AfterRow(old(c[from..from + size])) + old(c[from + size..])
    ensures info == RowInfo(old(c[from..from + size]), jokers)
  {
    ghost var row := c[from..from + size];
    assert c[..] == c[..from] + row + c[from + size..];
    var cards: seq<Card> := [];
    for i := 0 to size
      invariant cards == Ordinaries(row[..i])
    {
      assert row[..i + 1][..i] == row[..i] && row[i] == c[from + i];
      if c[from + i] <= LAST_ORDINARY { cards := cards + [c[from + i]]; }
    }
    assert row[..size] == row;
    OrdinariesAll(row);
    hide Ordinaries, Ordinary, Info5, Info3, SortCards;
    if size == 5 {
      if |cards| != 5 { return jokers.info5(SortCards(cards)); }
      info := BrandInfo5(c, from);
    } else if size == 3 {
      if |cards| != 3 { return jokers.info3(SortCards(cards)); }
      info := BrandInfo3(c, from);
    } else {
      info := BrandInfo(HighCard, 0, false);
    }
  }
}
