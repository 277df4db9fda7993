/** How `calcRound` and `bringOut` of server/processes/lobby/water13.cpp and water13_card.cpp turn laid-out cards
    into the hands they compare.  What a row with jokers counts for and the special thirteen-card pattern are
    arbitrary functions of the cards that the source passes to them. */
module RoundEvaluation {
  import opened Deck
  import opened HandRanking
  import RoundScoring
  import Sorting

  type Layout = h: seq<Card> | |h| == 13 witness [1, 1, 1, 1, 1, 1, 1, 1, 1, 1, 1, 1, 1]

  /** What is left open: rows with jokers, and the special pattern of the cards as the rows' evaluation leaves them. */
  datatype Judge = Judge(jokers: Jokers, pattern: (seq<Card>, Brand, Brand) -> RoundScoring.Special)

  /** The layout after its rows have been evaluated one by one. */
  function AfterRows(h: Layout): (r: seq<Card>)
    ensures |r| == 13
  {
    AfterRow(h[..3]) + AfterRow(h[3..8]) + AfterRow(h[8..])
  }

  ghost predicate Holds(s: seq<Card>, x: int) { exists i :: 0 <= i < |s| && s[i] == x }

  ghost function SpecialOf(h: Layout, judge: Judge): RoundScoring.Special {
    judge.pattern(AfterRows(h), RowInfo(h[3..8], judge.jokers).b, RowInfo(h[8..], judge.jokers).b)
  }

  ghost function Evaluated(h: Layout, declared: bool, judge: Judge, maPai: int): RoundScoring.Hand {
    RoundScoring.Hand(RowInfo(h[..3], judge.jokers), RowInfo(h[3..8], judge.jokers), RowInfo(h[8..], judge.jokers),
      if declared then SpecialOf(h, judge) else RoundScoring.None, Holds(h, maPai))
  }

  /** Which layouts a player may bring out: a special pattern without jokers, or rows of rising strength. */
  ghost predicate Allowed(h: Layout, special: bool, judge: Judge) {
    if special then Ordinary(h) && SpecialOf(h, judge) != RoundScoring.None
    else
      && CmpBrandInfo(RowInfo(h[..3], judge.jokers), RowInfo(h[3..8], judge.jokers)) != 1
      && CmpBrandInfo(RowInfo(h[3..8], judge.jokers), RowInfo(h[8..], judge.jokers)) != 1
  }

  method HasMaPai(c: array<Card>, maPai: int) returns (has: bool)
    ensures has <==> Holds(c[..], maPai)
  {
    for i := 0 to c.Length
      invariant forall j | 0 <= j < i :: c[..][j] != maPai
    {
      if c[i] == maPai {
        assert c[..][i] == maPai;
        return true;
      }
    }
    has := false;
  }

  method HasGhost(c: array<Card>) returns (has: bool)
    ensures has <==> !Ordinary(c[..])
  {
    for i := 0 to c.Length
      invariant forall j | 0 <= j < i :: c[j] <= LAST_ORDINARY
    {
      if c[i] > LAST_ORDINARY {
        assert c[..][i] > LAST_ORDINARY;
        return true;
      }
    }
    has := false;
  }

  lemma HoldsIsIn(s: seq<Card>, x: int)
    ensures Holds(s, x) <==> x in s
  {}

  lemma SameMembers(s: seq<Card>, t: seq<Card>, x: int)
    requires multiset(s) == multiset(t)
    ensures Holds(s, x) <==> Holds(t, x)
  {
    if i :| 0 <= i < |s| && s[i] == x { assert s[i] in multiset(t); }
    if i :| 0 <= i < |t| && t[i] == x { assert t[i] in multiset(s); }
  }

  lemma AfterRowKeepsCards(row: seq<Card>)
    ensures multiset(AfterRow(row)) == multiset(row)
  {
    SortCardsSorts(row);
  }

  /** The evaluation moves cards within rows only. */
  lemma AfterRowsKeepCards(h: Layout)
    ensures multiset(AfterRows(h)) == multiset(h)
  {
    AfterRowKeepsCards(h[..3]);
    AfterRowKeepsCards(h[3..8]);
    AfterRowKeepsCards(h[8..]);
    hide AfterRow;
    assert h == h[..3] + h[3..8] + h[8..];
  }

  /** The three rows are evaluated in place, and sorted where they hold no joker. */
  method EvaluateRows(c: array<Card>, jokers: Jokers) returns (dun0: BrandInfo, dun1: BrandInfo, dun2: BrandInfo)
    requires c.Length == 13
    modifies c
    ensures c[..] == AfterRows(old(c[..]))
    ensures dun0 == RowInfo(old(c[..3]), jokers)
    ensures dun1 == RowInfo(old(c[3..8]), jokers) && dun2 == RowInfo(old(c[8..]), jokers)
  {
    ghost var h: Layout := c[..];
    hide AfterRow, RowInfo, AfterRows;
    assert h[0..3] == h[..3];
    dun0 := BrandInfoOf(c, 0, 3, jokers);
    ghost var one := AfterRow(h[..3]);
    assert c[..] == one + h[3..];
    assert c[3..8] == h[3..8];
    dun1 := BrandInfoOf(c, 3, 5, jokers);
    ghost var two := one + AfterRow(h[3..8]);
    assert c[..] == two + h[8..];
    assert c[8..13] == h[8..] && c[13..] == [] && c[..8] == two;
    dun2 := BrandInfoOf(c, 8, 5, jokers);
    RowsDone(h, c[..], two);
  }

  lemma RowsDone(h: Layout, now: seq<Card>, two: seq<Card>)
    requires two == AfterRow(h[..3]) + AfterRow(h[3..8]) && now == two + AfterRow(h[8..]) + []
    ensures now == AfterRows(h)
  {
    hide AfterRow;
  }

  /** The special pattern of the cards.  Finding it sorts the first row and then all thirteen cards. */
  method FindSpecial(c: array<Card>, b2: Brand, b3: Brand, judge: Judge) returns (spec: RoundScoring.Special)
    requires c.Length == 13
    modifies c
    ensures spec == judge.pattern(old(c[..]), b2, b3)
    ensures c[..] == SortCards(old(c[..]))
  {
    ghost var was := c[..];
    spec := judge.pattern(c[..], b2, b3);
    hide *;
    SortRange(c, 0, 3);
    ghost var mid := c[..];
    assert c[0..3] == c[..3] && c[0..13] == c[..];
    assert was == was[0..3] + was[3..] && mid == mid[0..3] + mid[3..];
    assert multiset(mid) == multiset(was);
    SortRange(c, 0, 13);
    assert c[0..13] == c[..];
    SortedWhole(was, c[..]);
  }

  lemma SortedWhole(was: seq<Card>, now: seq<Card>)
    requires Sorting.Sorted(now, CardKey) && multiset(now) == multiset(was)
    ensures now == SortCards(was)
  {
    CardKeyInjective();
    Sorting.SortedIsSortBy(was, now, CardKey);
  }

  /** One seat of a round, on the round's own copy of the cards. */
  method EvaluateSeat(c: array<Card>, declared: bool, judge: Judge, maPai: int) returns (hand: RoundScoring.Hand)
    requires c.Length == 13
    modifies c
    ensures c[..] == if declared then SortCards(old(c[..])) else AfterRows(old(c[..]))
    ensures multiset(c[..]) == multiset(old(c[..]))
    ensures hand == Evaluated(old(c[..]), declared, judge, maPai)
    ensures hand.dun0 == RowInfo(old(c[..3]), judge.jokers) && hand.dun1 == RowInfo(old(c[3..8]), judge.jokers)
    ensures hand.dun2 == RowInfo(old(c[8..]), judge.jokers) && (hand.hasMaPai <==> maPai in old(c[..]))
    ensures hand.spec == if declared then judge.pattern(AfterRows(old(c[..])), hand.dun1.b, hand.dun2.b)
                         else RoundScoring.None
  {
    ghost var h: Layout := c[..];
    hide AfterRows, RowInfo, Holds, SortCards;
    assert c[..3] == h[..3] && c[3..8] == h[3..8] && c[8..] == h[8..];
    var dun0, dun1, dun2 := EvaluateRows(c, judge.jokers);
    AfterRowsKeepCards(h);
    var spec := RoundScoring.None;
    if declared {
      SortCardsSorts(c[..]);
      CardsIgnoreOrder(h, c[..]);
      spec := FindSpecial(c, dun1.b, dun2.b, judge);
    }
    var has := HasMaPai(c, maPai);
    SameMembers(h, c[..], maPai);
    HoldsIsIn(h, maPai);
    hand := RoundScoring.Hand(dun0, dun1, dun2, spec, has);
  }

  /** Whether a layout is allowed, decided on a copy of it. */
  method MayBringOut(c: array<Card>, special: bool, judge: Judge) returns (ok: bool)
    requires c.Length == 13
    modifies c
    ensures ok <==> Allowed(old(c[..]), special, judge)
  {
    ghost var h: Layout := c[..];
    hide AfterRows, RowInfo;
    assert c[..3] == h[..3] && c[3..8] == h[3..8] && c[8..] == h[8..];
    var dun0, dun1, dun2 := EvaluateRows(c, judge.jokers);
    if special {
      var has := HasGhost(c);
      AfterRowsKeepCards(h);
      SameOrdinary(h, c[..]);
      if has { return false; }
      var spec := FindSpecial(c, dun1.b, dun2.b, judge);
      ok := spec != RoundScoring.None;
    } else {
      ok := !(CmpBrandInfo(dun0, dun1) == 1 || CmpBrandInfo(dun1, dun2) == 1);
    }
  }

  /** A layout without a special pattern is allowed exactly if no row is beaten by the row before it: categories count
      first, then points, and at equal points a row without a joker beats one with. */
  lemma {:induction false} AllowedInOrder(h: Layout, judge: Judge)
    ensures
      var x, y, z := RowInfo(h[..3], judge.jokers), RowInfo(h[3..8], judge.jokers), RowInfo(h[8..], judge.jokers);
      Allowed(h, false, judge) <==>
        && (x.b.Value() < y.b.Value()
            || (x.b == y.b && (x.point < y.point || (x.point == y.point && (x.isGhost || !y.isGhost)))))
        && (y.b.Value() < z.b.Value()
            || (y.b == z.b && (y.point < z.point || (y.point == z.point && (y.isGhost || !z.isGhost)))))
  {
    BrandValueInjective(RowInfo(h[..3], judge.jokers).b, RowInfo(h[3..8], judge.jokers).b);
    BrandValueInjective(RowInfo(h[3..8], judge.jokers).b, RowInfo(h[8..], judge.jokers).b);
    hide RowInfo;
  }

  /** Without jokers the last two rows compare by category and then by their keys. */
  lemma {:induction false} AllowedByKeys(h: Layout, judge: Judge)
    requires Ordinary(h) && Allowed(h, false, judge)
    ensures var y, z := Info5(h[3..8]), Info5(h[8..]);
      || y.b.Value() < z.b.Value()
      || (y.b == z.b && Lex(Key(y.b, RanksOf(SortCards(h[3..8]))), Key(z.b, RanksOf(SortCards(h[8..])))) <= 0)
  {
    OrdinaryRows(h);
    ComparisonMeaning(h[3..8], h[8..]);
    BrandValueInjective(Info5(h[3..8]).b, Info5(h[8..]).b);
    hide Info5, Key, Lex, SortCards, RanksOf;
  }

  /** Two layouts with the same cards in each row. */
  ghost predicate SameRows(g: Layout, h: Layout) {
    && multiset(g[..3]) == multiset(h[..3])
    && multiset(g[3..8]) == multiset(h[3..8])
    && multiset(g[8..]) == multiset(h[8..])
  }

  lemma SameRowsSameCards(g: Layout, h: Layout)
    requires SameRows(g, h)
    ensures multiset(g) == multiset(h)
  {
    assert g == g[..3] + g[3..8] + g[8..] && h == h[..3] + h[3..8] + h[8..];
  }

  lemma OrdinaryRows(h: Layout)
    requires Ordinary(h)
    ensures Ordinary(h[..3]) && Ordinary(h[3..8]) && Ordinary(h[8..])
  {}

  lemma RowsIgnoreOrder(g: Layout, h: Layout, judge: Judge)
    requires SameRows(g, h)
    ensures RowInfo(g[..3], judge.jokers) == RowInfo(h[..3], judge.jokers)
    ensures RowInfo(g[3..8], judge.jokers) == RowInfo(h[3..8], judge.jokers)
    ensures RowInfo(g[8..], judge.jokers) == RowInfo(h[8..], judge.jokers)
    ensures Ordinary(g) ==> AfterRows(g) == AfterRows(h)
  {
    hide RowInfo, AfterRow, Ordinary;
    RowIgnoresOrder(g[..3], h[..3], judge.jokers);
    RowIgnoresOrder(g[3..8], h[3..8], judge.jokers);
    RowIgnoresOrder(g[8..], h[8..], judge.jokers);
    if Ordinary(g) { OrdinaryRows(g); }
  }

  /** Within a row the order in which the cards were laid out does not matter, whatever jokers and special patterns
      count for.  A hand declared special holds no joker: the pattern asserts it, and bringOut sees to it. */
  lemma {:induction false} EvaluationIgnoresRowOrder(g: Layout, h: Layout, declared: bool, judge: Judge, maPai: int)
    requires SameRows(g, h) && (declared ==> Ordinary(g))
    ensures Evaluated(g, declared, judge, maPai) == Evaluated(h, declared, judge, maPai)
  {
    RowsIgnoreOrder(g, h, judge);
    SameRowsSameCards(g, h);
    hide RowInfo, AfterRows, Holds, Ordinary, SameRows;
    SameMembers(g, h, maPai);
  }

  /** So a layout is allowed or refused for the cards in its rows. */
  lemma {:induction false} AllowedIgnoresRowOrder(g: Layout, h: Layout, special: bool, judge: Judge)
    requires SameRows(g, h)
    ensures Allowed(g, special, judge) <==> Allowed(h, special, judge)
  {
    RowsIgnoreOrder(g, h, judge);
    SameRowsSameCards(g, h);
    hide RowInfo, AfterRows, SameRows;
    SameOrdinary(g, h);
  }

  ghost function Table(layouts: seq<Layout>, declared: seq<bool>, judge: Judge, maPai: int)
    : (hands: seq<RoundScoring.Hand>)
    requires |declared| == |layouts|
    ensures |hands| == |layouts|
  {
    seq(|layouts|, i requires 0 <= i < |layouts| => Evaluated(layouts[i], declared[i], judge, maPai))
  }

  /** A round's prizes depend only on which cards lie in which row. */
  lemma {:induction false} PrizesIgnoreRowOrder(rules: RoundScoring.Rules, layouts: seq<Layout>, others: seq<Layout>,
                                                declared: seq<bool>, judge: Judge, maPai: int, p: nat)
    requires |layouts| == |others| == |declared| && p < |layouts|
    requires forall i | 0 <= i < |layouts| :: SameRows(layouts[i], others[i]) && (declared[i] ==> Ordinary(layouts[i]))
    ensures RoundScoring.Prize(rules, Table(layouts, declared, judge, maPai), p)
         == RoundScoring.Prize(rules, Table(others, declared, judge, maPai), p)
  {
    hide Evaluated, SameRows, Ordinary, RoundScoring.Prize;
    forall i | 0 <= i < |layouts|
      ensures Table(layouts, declared, judge, maPai)[i] == Table(others, declared, judge, maPai)[i]
    {
      EvaluationIgnoresRowOrder(layouts[i], others[i], declared[i], judge, maPai);
    }
    assert Table(layouts, declared, judge, maPai) == Table(others, declared, judge, maPai);
  }
}
