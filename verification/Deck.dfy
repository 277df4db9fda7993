/** Hand categories and how two evaluated hands compare (server/processes/lobby/deck.h). */
module Deck {

  datatype Brand =
    | HighCard | OnePair | TwoPairs | ThreeOfKind | Straight
    | Flush | FullHouse | FourOfKind | StraightFlush | FiveOfKind
  {
    /** The enumerator's value, by which categories are ordered. */
    function Value(): nat {
      match this
      case HighCard => 0
      case OnePair => 1
      case TwoPairs => 2
      case ThreeOfKind => 3
      case Straight => 4
      case Flush => 5
      case FullHouse => 6
      case FourOfKind => 7
      case StraightFlush => 8
      case FiveOfKind => 9
    }
  }

  datatype BrandInfo = BrandInfo(b: Brand, point: int, isGhost: bool)

  /** 0: equal, 1: the first is larger, 2: the second is larger.  Between equal scores the hand without
      a joker is the larger one. */
  function CmpBrandInfo(x: BrandInfo, y: BrandInfo): (r: int) {
    if x.b != y.b then
      if x.b.Value() > y.b.Value() then 1 else 2
    else if x.point != y.point then
      if x.point > y.point then 1 else 2
    else if x.isGhost then
      if y.isGhost then 0 else 2
    else
      if y.isGhost then 1 else 0
  }

  /** The comparison is a total preorder whose ties are exactly equal evaluations. */
  lemma CmpBrandInfoIsOrder(x: BrandInfo, y: BrandInfo, z: BrandInfo)
    ensures CmpBrandInfo(x, y) == 0 <==> x == y
    ensures CmpBrandInfo(x, y) == 1 <==> CmpBrandInfo(y, x) == 2
    ensures CmpBrandInfo(x, y) != 2 && CmpBrandInfo(y, z) != 2 ==> CmpBrandInfo(x, z) != 2
  {
    BrandValueInjective(x.b, y.b);
    BrandValueInjective(y.b, z.b);
    BrandValueInjective(x.b, z.b);
  }

  lemma BrandValueInjective(x: Brand, y: Brand)
    ensures x.Value() == y.Value() ==> x == y
  {}

  /** The categories from the weakest to the strongest; between hands of one category the points decide, and between
      equal points the joker. */
  lemma CategoriesInOrder(x: BrandInfo, y: BrandInfo)
    ensures var order := [HighCard, OnePair, TwoPairs, ThreeOfKind, Straight, Flush, FullHouse, FourOfKind,
                          StraightFlush, FiveOfKind];
      && (exists i :: 0 <= i < 10 && order[i] == x.b)
      && (forall i, j | 0 <= j < i < 10 && order[i] == x.b && order[j] == y.b :: CmpBrandInfo(x, y) == 1)
    ensures x.b == y.b && x.point > y.point ==> CmpBrandInfo(x, y) == 1
    ensures x.b == y.b && x.point == y.point && !x.isGhost && y.isGhost ==> CmpBrandInfo(x, y) == 1
  {
    var order := [HighCard, OnePair, TwoPairs, ThreeOfKind, Straight, Flush, FullHouse, FourOfKind,
                  StraightFlush, FiveOfKind];
    assert order[x.b.Value()] == x.b;
  }
}
