/** Scoring of one round of thirteen water: `calcRound` of server/processes/lobby/water13.cpp.

    A seat enters with its three evaluated rows, its special thirteen-card pattern and whether it holds
    the horse card; the evaluation itself is a parameter here. */
module RoundScoring {
  import opened Deck

  datatype Special =
    | None | TripleFlush | TripleStraight | SixPairs | PentaPairsAndThreeOfKind | QuadThreeOfKind
    | RedOrBlack | AllLittle | AllBig | TripleBombs | TripleStraightFlush | Royal | Straight13 | FlushStraight13
  {
    function Code(): nat {
      match this
      case None => 0
      case TripleFlush => 12
      case TripleStraight => 22
      case SixPairs => 32
      case PentaPairsAndThreeOfKind => 42
      case QuadThreeOfKind => 52
      case RedOrBlack => 62
      case AllLittle => 72
      case AllBig => 82
      case TripleBombs => 93
      case TripleStraightFlush => 103
      case Royal => 113
      case Straight13 => 124
      case FlushStraight13 => 135
    }

    /** Special patterns compare by the last decimal digit of their code. */
    function Tier(): nat { Code() % 10 }

    function Points(): int {
      match this
      case FlushStraight13 => 104
      case Straight13 => 52
      case Royal => 26
      case TripleStraightFlush => 26
      case TripleBombs => 26
      case None => 0
      case _ => 6
    }
  }

  datatype Hand = Hand(dun0: BrandInfo, dun1: BrandInfo, dun2: BrandInfo, spec: Special, hasMaPai: bool) {
    function Dun(d: nat): BrandInfo { if d == 0 then dun0 else if d == 1 then dun1 else dun2 }
  }

  const DQ_X_DAO := 1

  /** daQiang 0 turns shooting off; DQ_X_DAO adds shootAddPoint to a shot, any other value doubles it. */
  datatype Rules = Rules(daQiang: int, shootAddPoint: int, quanLeiDa: bool)

  // ---------------------------------------------------------------- symmetric specification

  /** What winning row d with a hand of category b earns beyond the one base point. */
  function Bonus(d: nat, b: Brand): nat {
    match (d, b)
    case (0, ThreeOfKind) => 2
    case (1, FullHouse) => 1
    case (1, FiveOfKind) => 19
    case (1, StraightFlush) => 9
    case (1, FourOfKind) => 7
    case (2, FiveOfKind) => 9
    case (2, StraightFlush) => 4
    case (2, FourOfKind) => 3
    case _ => 0
  }

  /** Points that a takes from b on row d. */
  function Lane(d: nat, a: Hand, b: Hand): int {
    match CmpBrandInfo(a.Dun(d), b.Dun(d))
    case 1 => 1 + Bonus(d, a.Dun(d).b)
    case 2 => -(1 + Bonus(d, b.Dun(d).b))
    case _ => 0
  }

  predicate AnySpecial(a: Hand, b: Hand) { a.spec != None || b.spec != None }

  /** Points that a takes from b before shooting, the horse card and the clean sweep. */
  function Base(a: Hand, b: Hand): int {
    if AnySpecial(a, b) then
      if a.spec.Tier() > b.spec.Tier() then a.spec.Points()
      else if b.spec.Tier() > a.spec.Tier() then -b.spec.Points()
      else 0
    else
      Lane(0, a, b) + Lane(1, a, b) + Lane(2, a, b)
  }

  /** a shoots b: shooting is on, neither hand is special, and a wins all three rows. */
  predicate Shoots(rules: Rules, a: Hand, b: Hand) {
    rules.daQiang != 0 && !AnySpecial(a, b) && Lane(0, a, b) > 0 && Lane(1, a, b) > 0 && Lane(2, a, b) > 0
  }

  function Shot(rules: Rules, points: int): int {
    if rules.daQiang == DQ_X_DAO then points + rules.shootAddPoint else 2 * points
  }

  function Horse(a: Hand, b: Hand): int { if a.hasMaPai || b.hasMaPai then 2 else 1 }

  /** Seat p shoots every other seat of a table of at least three. */
  predicate Sweeps(rules: Rules, hands: seq<Hand>, p: nat)
    requires p < |hands|
  {
    rules.quanLeiDa && |hands| > 2 && forall q | 0 <= q < |hands| && q != p :: Shoots(rules, hands[p], hands[q])
  }

  /** Points that hand a takes from hand b, knowing which of them sweeps the table. */
  function Due(rules: Rules, a: Hand, b: Hand, aSweeps: bool, bSweeps: bool): int {
    if Shoots(rules, a, b) then
      Shot(rules, Base(a, b)) * Horse(a, b) * (if aSweeps then 2 else 1)
    else if Shoots(rules, b, a) then
      -(Shot(rules, Base(b, a)) * Horse(b, a) * (if bSweeps then 2 else 1))
    else
      Base(a, b) * Horse(a, b)
  }

  /** What seat p receives from seat q. */
  function Transfer(rules: Rules, hands: seq<Hand>, p: nat, q: nat): int
    requires p < |hands| && q < |hands|
  {
    Due(rules, hands[p], hands[q], Sweeps(rules, hands, p), Sweeps(rules, hands, q))
  }

  function SumTo(f: nat -> int, n: nat): int {
    if n == 0 then 0 else SumTo(f, n - 1) + f(n - 1)
  }

  function Clip(hands: seq<Hand>, rules: Rules, p: nat): nat -> int
    requires p < |hands|
  {
    (q: nat) => if q < |hands| then Transfer(rules, hands, p, q) else 0
  }

  /** Seat p's result for the round. */
  function Prize(rules: Rules, hands: seq<Hand>, p: nat): int
    requires p < |hands|
  {
    SumTo(Clip(hands, rules, p), |hands|)
  }

  lemma LaneAntisymmetric(d: nat, a: Hand, b: Hand)
    ensures Lane(d, a, b) == -Lane(d, b, a)
  {
    CmpBrandInfoIsOrder(a.Dun(d), b.Dun(d), a.Dun(d));
  }

  lemma BaseAntisymmetric(a: Hand, b: Hand)
    ensures Base(a, b) == -Base(b, a)
  {
    LaneAntisymmetric(0, a, b);
    LaneAntisymmetric(1, a, b);
    LaneAntisymmetric(2, a, b);
  }

  lemma ShootsOneWay(rules: Rules, a: Hand, b: Hand)
    ensures !(Shoots(rules, a, b) && Shoots(rules, b, a))
  {
    LaneAntisymmetric(0, a, b);
  }

  lemma DueAntisymmetric(rules: Rules, a: Hand, b: Hand, aSweeps: bool, bSweeps: bool)
    ensures Due(rules, a, b, aSweeps, bSweeps) == -Due(rules, b, a, bSweeps, aSweeps)
  {
    BaseAntisymmetric(a, b);
    ShootsOneWay(rules, a, b);
    hide Base, Shoots, Shot;
    assert Horse(a, b) == Horse(b, a);
    assert Base(a, b) * Horse(a, b) == -(Base(b, a) * Horse(a, b));
  }

  lemma TransferAntisymmetric(rules: Rules, hands: seq<Hand>, p: nat, q: nat)
    requires p < |hands| && q < |hands|
    ensures Transfer(rules, hands, p, q) == -Transfer(rules, hands, q, p)
  {
    DueAntisymmetric(rules, hands[p], hands[q], Sweeps(rules, hands, p), Sweeps(rules, hands, q));
  }

  // ---------------------------------------------------------------- machine arithmetic

  const TWO32 := 0x1_0000_0000

  function ToUint32(x: int): (u: int)
    ensures 0 <= u < TWO32
  {
    x % TWO32
  }

  function ToInt32(u: int): int {
    if u % TWO32 < 0x8000_0000 then u % TWO32 else u % TWO32 - TWO32
  }

  /** `int32 += uint32`: the sum is taken unsigned and stored back signed. */
  function AddMixed(x: int, u: int): int { ToInt32(ToUint32(x) + u) }

  function SubMixed(x: int, u: int): int { ToInt32(ToUint32(x) - u) }

  lemma SignedRoundTrip(x: int)
    requires -0x8000_0000 <= x < 0x8000_0000
    ensures ToUint32(x) == if x >= 0 then x else x + TWO32
    ensures ToInt32(ToUint32(x)) == x
  {}

  lemma MixedExact(x: int, u: nat)
    requires -1000 <= x <= 1000 && u <= 1000
    ensures AddMixed(x, u) == x + u && SubMixed(x, u) == x - u
  {
    SignedRoundTrip(x);
    if x < 0 {
      assert (x + TWO32 + u) % TWO32 == if x + u < 0 then x + u + TWO32 else x + u;
    }
    assert (ToUint32(x) - u) % TWO32 == if x - u < 0 then x - u + TWO32 else x - u;
  }

  /** Negating the unsigned image of a negative number gives back its magnitude. */
  lemma NegateUnsigned(x: int)
    requires -1000 <= x < 0
    ensures ToInt32(ToUint32(-ToUint32(x))) == -x
  {
    SignedRoundTrip(x);
    assert (-(x + TWO32)) % TWO32 == -x;
  }

  // ---------------------------------------------------------------- calcRound

  /** A ledger entry: points and whether they were won by shooting. */
  datatype Entry = Entry(score: int, shot: int)

  datatype PlayerData = PlayerData(hand: Hand, dunPrize: seq<int>, prize: int, losers: map<nat, Entry>, quanLeiDa: bool)

  /** One bonus rule on one row: the winner of the row earns `extra` more if its row has category b. */
  function WithBonus(points: int, cmp: int, mine: Brand, theirs: Brand, b: Brand, extra: nat): (r: int)
    requires -900 <= points <= 900 && extra <= 19
    ensures r == if cmp == 1 && mine == b then points + extra
      else if cmp == 2 && theirs == b then points - extra else points
  {
    MixedExact(points, extra);
    if cmp == 1 && mine == b then AddMixed(points, extra)
    else if cmp == 2 && theirs == b then SubMixed(points, extra)
    else points
  }

  /** Rules 1 to 8: the three row scores, positive when the first hand wins the row. */
  method CompareLanes(a: Hand, b: Hand) returns (prize: seq<int>)
    ensures prize == [Lane(0, a, b), Lane(1, a, b), Lane(2, a, b)]
  {
    hide CmpBrandInfo;
    var cmps := [CmpBrandInfo(a.dun0, b.dun0), CmpBrandInfo(a.dun1, b.dun1), CmpBrandInfo(a.dun2, b.dun2)];
    prize := [0, 0, 0];
    for d := 0 to 3
      invariant |prize| == 3
      invariant forall k | 0 <= k < 3 ::
        prize[k] == if k >= d then 0 else if cmps[k] == 1 then 1 else if cmps[k] == 2 then -1 else 0
    {
      if cmps[d] == 1 { prize := prize[d := prize[d] + 1]; }
      else if cmps[d] == 2 { prize := prize[d := prize[d] - 1]; }
    }
    var p0, p1, p2 := prize[0], prize[1], prize[2];
    p0 := WithBonus(p0, cmps[0], a.dun0.b, b.dun0.b, ThreeOfKind, 2);
    p1 := WithBonus(p1, cmps[1], a.dun1.b, b.dun1.b, FullHouse, 1);
    p1 := WithBonus(p1, cmps[1], a.dun1.b, b.dun1.b, FiveOfKind, 19);
    p2 := WithBonus(p2, cmps[2], a.dun2.b, b.dun2.b, FiveOfKind, 9);
    p1 := WithBonus(p1, cmps[1], a.dun1.b, b.dun1.b, StraightFlush, 9);
    p2 := WithBonus(p2, cmps[2], a.dun2.b, b.dun2.b, StraightFlush, 4);
    p1 := WithBonus(p1, cmps[1], a.dun1.b, b.dun1.b, FourOfKind, 7);
    p2 := WithBonus(p2, cmps[2], a.dun2.b, b.dun2.b, FourOfKind, 3);
    prize := [p0, p1, p2];
  }

  /** The entry that comparing a pair puts in a's ledger against b.  The points are tested as an unsigned
      number, so a plain loss of the earlier seat becomes a negative entry of that seat. */
  function EntryOf(rules: Rules, a: Hand, b: Hand, aFirst: bool): (Entry, bool) {
    if AnySpecial(a, b) then
      (Entry(a.spec.Points(), 0), a.spec.Tier() > b.spec.Tier())
    else if Shoots(rules, a, b) then
      (Entry(Base(a, b), 1), true)
    else
      (Entry(Base(a, b), 0), aFirst && !Shoots(rules, b, a) && Base(a, b) != 0)
  }

  function WithEntry(losers: map<nat, Entry>, q: nat, e: (Entry, bool)): map<nat, Entry> {
    if e.1 then losers[q := e.0] else losers
  }

  lemma BaseBounds(a: Hand, b: Hand)
    ensures -104 <= Base(a, b) <= 104
    ensures a.spec.Tier() > b.spec.Tier() ==> a.spec.Points() > 0
  {}

  /** `r` is `datas` with the comparison of seats i < j recorded. */
  ghost predicate PairRecorded(rules: Rules, datas: seq<PlayerData>, i: nat, j: nat, r: seq<PlayerData>)
    requires i < j < |datas| && |datas[i].dunPrize| == 3
  {
    && |r| == |datas| && (forall k | 0 <= k < |r| && k != i && k != j :: r[k] == datas[k])
    && var a, b := datas[i], datas[j];
    && r[i] == a.(losers := WithEntry(a.losers, j, EntryOf(rules, a.hand, b.hand, true)), dunPrize := r[i].dunPrize)
    && r[j] == b.(losers := WithEntry(b.losers, i, EntryOf(rules, b.hand, a.hand, false)))
    && |r[i].dunPrize| == 3
    && forall z | 0 <= z < 3 :: r[i].dunPrize[z] == a.dunPrize[z] + RowScore(z, a.hand, b.hand)
  }

  /** A pair with at least one special pattern. */
  method CompareSpecialPair(rules: Rules, datas: seq<PlayerData>, i: nat, j: nat) returns (r: seq<PlayerData>)
    requires i < j < |datas| && |datas[i].dunPrize| == 3 && AnySpecial(datas[i].hand, datas[j].hand)
    ensures PairRecorded(rules, datas, i, j, r)
  {
    hide Lane;
    r := datas;
    var a, b := datas[i], datas[j];
    var tierI, tierJ := a.hand.spec.Tier(), b.hand.spec.Tier();
    if tierI == tierJ { return; }
    var points := if tierI > tierJ then a.hand.spec.Points() else b.hand.spec.Points();
    if tierI > tierJ {
      r := r[i := a.(losers := a.losers[j := Entry(points, 0)])];
    } else {
      r := r[j := b.(losers := b.losers[i := Entry(points, 0)])];
    }
  }

  /** The two entries of a pair without special patterns, by the sign of the three rows and of their sum. */
  lemma OrdinaryEntries(rules: Rules, a: Hand, b: Hand)
    requires !AnySpecial(a, b)
    ensures var l0, l1, l2 := Lane(0, a, b), Lane(1, a, b), Lane(2, a, b);
      var up := rules.daQiang != 0 && l0 > 0 && l1 > 0 && l2 > 0;
      var down := rules.daQiang != 0 && l0 < 0 && l1 < 0 && l2 < 0;
      && -104 <= l0 + l1 + l2 <= 104
      && EntryOf(rules, a, b, true) ==
           (if up then (Entry(l0 + l1 + l2, 1), true) else (Entry(l0 + l1 + l2, 0), !down && l0 + l1 + l2 != 0))
      && EntryOf(rules, b, a, false) == (Entry(-(l0 + l1 + l2), if down then 1 else 0), down)
  {
    LaneAntisymmetric(0, a, b);
    LaneAntisymmetric(1, a, b);
    LaneAntisymmetric(2, a, b);
    BaseBounds(a, b);
    hide Lane;
  }

  /** What the entries of an ordinary pair are worth, `points` being the unsigned sum of the rows. */
  lemma OrdinaryPoints(sum: int)
    requires -104 <= sum <= 104
    ensures ToInt32(ToUint32(sum)) == sum && (sum < 0 ==> ToInt32(ToUint32(-ToUint32(sum))) == -sum)
    ensures ToUint32(sum) > 0 <==> sum != 0
  {
    SignedRoundTrip(sum);
    if sum < 0 { NegateUnsigned(sum); }
  }

  /** A pair without special patterns, its rows compared: the entry goes to the ledger of the seat that shoots, or
      else, whoever won, to that of the earlier seat. */
  method RecordOrdinary(rules: Rules, ghost a: Hand, ghost b: Hand, lanes: seq<int>,
                        mine: map<nat, Entry>, theirs: map<nat, Entry>, i: nat, j: nat)
    returns (mine': map<nat, Entry>, theirs': map<nat, Entry>)
    requires !AnySpecial(a, b) && lanes == [Lane(0, a, b), Lane(1, a, b), Lane(2, a, b)]
    ensures mine' == WithEntry(mine, j, EntryOf(rules, a, b, true))
    ensures theirs' == WithEntry(theirs, i, EntryOf(rules, b, a, false))
  {
    OrdinaryEntries(rules, a, b);
    var sum := lanes[0] + lanes[1] + lanes[2];
    OrdinaryPoints(sum);
    hide Lane, EntryOf, ToUint32, ToInt32;
    mine', theirs' := mine, theirs;
    var prize := ToUint32(sum);
    if rules.daQiang != 0 && lanes[0] > 0 && lanes[1] > 0 && lanes[2] > 0 {
      mine' := mine[j := Entry(ToInt32(prize), 1)];
    } else if rules.daQiang != 0 && lanes[0] < 0 && lanes[1] < 0 && lanes[2] < 0 {
      theirs' := theirs[i := Entry(ToInt32(ToUint32(-prize)), 1)];
    } else if prize > 0 {
      // the unsigned test cannot tell a win from a loss
      mine' := mine[j := Entry(ToInt32(prize), 0)];
    }
  }

  /** Compare seats i < j and record the result. */
  method ComparePair(rules: Rules, datas: seq<PlayerData>, i: nat, j: nat) returns (r: seq<PlayerData>)
    requires i < j < |datas| && |datas[i].dunPrize| == 3
    ensures PairRecorded(rules, datas, i, j, r)
  {
    var a, b := datas[i], datas[j];
    if a.hand.spec != None || b.hand.spec != None {
      r := CompareSpecialPair(rules, datas, i, j);
      return;
    }
    var lanes := CompareLanes(a.hand, b.hand);
    var mine, theirs := RecordOrdinary(rules, a.hand, b.hand, lanes, a.losers, b.losers, i, j);
    hide Lane, EntryOf, WithEntry;
    var dun := [a.dunPrize[0] + lanes[0], a.dunPrize[1] + lanes[1], a.dunPrize[2] + lanes[2]];
    r := datas[i := a.(losers := mine, dunPrize := dun)][j := b.(losers := theirs)];
  }

  /** The row score of the pair as the earlier seat's display counts it. */
  function RowScore(z: nat, a: Hand, b: Hand): int {
    if AnySpecial(a, b) then 0 else Lane(z, a, b)
  }

  /** Row z of seat p against the seats after it, up to seat hi. */
  function RowTotal(hands: seq<Hand>, p: nat, z: nat, hi: nat): int
    requires p < |hands| && hi <= |hands|
  {
    if hi <= p + 1 then 0 else RowTotal(hands, p, z, hi - 1) + RowScore(z, hands[p], hands[hi - 1])
  }

  /** Pair (p, q) precedes (i, j) in the order of the two loops. */
  predicate Before(p: nat, q: nat, i: nat, j: nat) {
    var lo, hi := if p < q then p else q, if p < q then q else p;
    lo != hi && (lo < i || (lo == i && hi < j))
  }

  ghost predicate CellAt(rules: Rules, hands: seq<Hand>, datas: seq<PlayerData>, i: nat, j: nat, p: nat, q: nat)
    requires p < |datas| == |hands| && q < |hands|
  {
    var e := EntryOf(rules, hands[p], hands[q], p < q);
    && (q in datas[p].losers <==> Before(p, q, i, j) && e.1)
    && (q in datas[p].losers ==> datas[p].losers[q] == e.0)
  }

  /** The state of the ledgers when the loops stand at pair (i, j). */
  ghost predicate LedgerAt(rules: Rules, hands: seq<Hand>, datas: seq<PlayerData>, i: nat, j: nat) {
    && |datas| == |hands|
    && (forall p | 0 <= p < |hands| :: datas[p].hand == hands[p] && datas[p].prize == 0 && !datas[p].quanLeiDa)
    && (forall p | 0 <= p < |hands| :: forall q | q in datas[p].losers :: q < |hands|)
    && (forall p, q | 0 <= p < |hands| && 0 <= q < |hands| :: CellAt(rules, hands, datas, i, j, p, q))
  }

  ghost predicate RowsAt(hands: seq<Hand>, datas: seq<PlayerData>, i: nat, j: nat)
    requires |datas| == |hands| && j <= |hands|
  {
    forall p | 0 <= p < |hands| ::
      && |datas[p].dunPrize| == 3
      && forall z | 0 <= z < 3 ::
           datas[p].dunPrize[z] == RowTotal(hands, p, z, if p < i then |hands| else if p == i then j else p)
  }

  lemma PairKeepsLedger(rules: Rules, hands: seq<Hand>, datas: seq<PlayerData>, i: nat, j: nat, r: seq<PlayerData>)
    requires LedgerAt(rules, hands, datas, i, j) && i < j < |hands| && |datas[i].dunPrize| == 3
    requires PairRecorded(rules, datas, i, j, r)
    ensures LedgerAt(rules, hands, r, i, j + 1)
  {
    var j' := j + 1;
    forall p, q | 0 <= p < |hands| && 0 <= q < |hands| ensures CellAt(rules, hands, r, i, j', p, q) {
      assert CellAt(rules, hands, datas, i, j, p, q);
    }
  }

  /** The pairwise comparison of all seats. */
  method CompareAll(rules: Rules, hands: seq<Hand>) returns (datas: seq<PlayerData>)
    ensures LedgerAt(rules, hands, datas, |hands|, |hands|)
    ensures RowsAt(hands, datas, |hands|, |hands|)
  {
    datas := seq(|hands|, (p: nat) requires p < |hands| => PlayerData(hands[p], [0, 0, 0], 0, map[], false));
    assert LedgerAt(rules, hands, datas, 0, 0);
    for i := 0 to |hands|
      invariant LedgerAt(rules, hands, datas, i, i)
      invariant RowsAt(hands, datas, i, i)
    {
      hide EntryOf, RowScore;
      NextRow(rules, hands, datas, i, i, i, i + 1);
      for j := i + 1 to |hands|
        invariant LedgerAt(rules, hands, datas, i, j)
        invariant RowsAt(hands, datas, i, j)
      {
        var before := datas;
        datas := ComparePair(rules, datas, i, j);
        PairKeepsLedger(rules, hands, before, i, j, datas);
      }
      NextRow(rules, hands, datas, i, |hands|, i + 1, i + 1);
    }
    NextRow(rules, hands, datas, |hands|, |hands|, |hands|, |hands|);
  }

  /** Two loop positions with the same pairs behind them. */
  lemma NextRow(rules: Rules, hands: seq<Hand>, datas: seq<PlayerData>, i: nat, j: nat, i': nat, j': nat)
    requires LedgerAt(rules, hands, datas, i, j)
    requires forall p: nat, q: nat | p < |hands| && q < |hands| :: Before(p, q, i, j) <==> Before(p, q, i', j')
    ensures LedgerAt(rules, hands, datas, i', j')
  {
    forall p, q | 0 <= p < |hands| && 0 <= q < |hands| ensures CellAt(rules, hands, datas, i', j', p, q) {
      assert CellAt(rules, hands, datas, i, j, p, q);
    }
  }

  // ---------------------------------------------------------------- settlement

  /** What an entry is worth once shooting, the horse card and the sweep are applied. */
  function Payment(rules: Rules, e: Entry, horse: int, sweeps: bool): int {
    (if e.shot > 0 then Shot(rules, e.score) else e.score) * horse * (if sweeps then 2 else 1)
  }

  /** What settling p's ledger moves from q to p. */
  function Gain(rules: Rules, hands: seq<Hand>, p: nat, q: nat): int {
    if p < |hands| && q < |hands| && p != q && EntryOf(rules, hands[p], hands[q], p < q).1 then
      Payment(rules, EntryOf(rules, hands[p], hands[q], p < q).0, Horse(hands[p], hands[q]), Sweeps(rules, hands, p))
    else 0
  }

  /** What the entry of a against b pays a. */
  function Paid(rules: Rules, a: Hand, b: Hand, aFirst: bool, aSweeps: bool): int {
    var e := EntryOf(rules, a, b, aFirst);
    if e.1 then Payment(rules, e.0, Horse(a, b), aSweeps) else 0
  }

  lemma PaidSpecial(rules: Rules, a: Hand, b: Hand, aFirst: bool)
    requires AnySpecial(a, b)
    ensures Paid(rules, a, b, aFirst, false) - Paid(rules, b, a, !aFirst, false) == Base(a, b) * Horse(a, b)
  {
    var points := if a.spec.Tier() > b.spec.Tier() then a.spec.Points() else b.spec.Points();
    assert Horse(a, b) == Horse(b, a);
    hide Horse, Shot;
    assert (-points) * Horse(a, b) == -(points * Horse(a, b));
  }

  /** Shooting entries, and the negative entry of a plain loss, together settle to the antisymmetric amount due. */
  lemma PaidIsDue(rules: Rules, a: Hand, b: Hand, aFirst: bool, aSweeps: bool, bSweeps: bool)
    requires (aSweeps ==> Shoots(rules, a, b)) && (bSweeps ==> Shoots(rules, b, a))
    ensures Paid(rules, a, b, aFirst, aSweeps) - Paid(rules, b, a, !aFirst, bSweeps)
         == Due(rules, a, b, aSweeps, bSweeps)
  {
    assert Horse(a, b) == Horse(b, a);
    assert AnySpecial(a, b) == AnySpecial(b, a);
    if AnySpecial(a, b) {
      PaidSpecial(rules, a, b, aFirst);
    } else {
      BaseAntisymmetric(a, b);
      ShootsOneWay(rules, a, b);
      hide Base, Shoots, Shot, Horse;
      assert Base(b, a) * Horse(a, b) == -(Base(a, b) * Horse(a, b));
    }
  }

  /** Negative entries and shooting entries together settle to the antisymmetric transfer. */
  lemma GainIsTransfer(rules: Rules, hands: seq<Hand>, p: nat, q: nat)
    requires p < |hands| && q < |hands|
    ensures Gain(rules, hands, p, q) - Gain(rules, hands, q, p) == Transfer(rules, hands, p, q)
  {
    var a, b := hands[p], hands[q];
    if p == q {
      BaseAntisymmetric(a, a);
      ShootsOneWay(rules, a, a);
    } else {
      assert Sweeps(rules, hands, p) ==> Shoots(rules, a, b);
      assert Sweeps(rules, hands, q) ==> Shoots(rules, b, a);
      hide Shoots, EntryOf, Payment, Due, Sweeps, Horse;
      PaidIsDue(rules, a, b, p < q, Sweeps(rules, hands, p), Sweeps(rules, hands, q));
    }
  }

  lemma SubsetIsAll(s: set<nat>, t: set<nat>)
    requires s <= t && |s| == |t|
    ensures s == t
  {
    assert t == s + (t - s) && s !! (t - s);
    assert |t| == |s| + |t - s|;
  }

  ghost function Range(n: nat): (s: set<nat>)
    ensures |s| == n && forall k: nat :: k in s <==> k < n
  {
    if n == 0 then {} else Range(n - 1) + {n - 1}
  }

  /** Counting the ledger finds a clean sweep exactly when seat d shot everyone. */
  lemma FullLedgerIsSweep(rules: Rules, hands: seq<Hand>, datas: seq<PlayerData>, d: nat)
    requires LedgerAt(rules, hands, datas, |hands|, |hands|) && d < |hands|
    ensures (|datas[d].losers| + 1 == |hands| && forall q | q in datas[d].losers :: datas[d].losers[q].shot != 0)
       <==> (forall q | 0 <= q < |hands| && q != d :: Shoots(rules, hands[d], hands[q]))
  {
    var keys := datas[d].losers.Keys;
    var all := Range(|hands|);
    assert forall q | 0 <= q < |hands| :: CellAt(rules, hands, datas, |hands|, |hands|, d, q);
    assert d !in keys by { assert CellAt(rules, hands, datas, |hands|, |hands|, d, d); }
    assert keys <= all - {d};
    if |keys| + 1 == |hands| && (forall q | q in keys :: datas[d].losers[q].shot != 0) {
      SubsetIsAll(keys, all - {d});
      forall q | 0 <= q < |hands| && q != d ensures Shoots(rules, hands[d], hands[q]) {
        assert q in keys && CellAt(rules, hands, datas, |hands|, |hands|, d, q);
      }
    }
    if forall q | 0 <= q < |hands| && q != d :: Shoots(rules, hands[d], hands[q]) {
      forall q | q in all - {d} ensures q in keys && datas[d].losers[q].shot != 0 {
        assert CellAt(rules, hands, datas, |hands|, |hands|, d, q);
      }
      assert keys == all - {d};
    }
  }

  /** Seat k's result when the ledgers of the seats before d are settled. */
  function Settled(rules: Rules, hands: seq<Hand>, d: nat, k: nat): nat -> int {
    (q: nat) => (if k < d then Gain(rules, hands, k, q) else 0) - (if q < d then Gain(rules, hands, q, k) else 0)
  }

  function Wins(rules: Rules, hands: seq<Hand>, d: nat): nat -> int {
    (q: nat) => Gain(rules, hands, d, q)
  }

  lemma SumEqual(f: nat -> int, g: nat -> int, n: nat)
    requires forall q: nat | q < n :: f(q) == g(q)
    ensures SumTo(f, n) == SumTo(g, n)
  {}

  lemma SumPlus(f: nat -> int, g: nat -> int, h: nat -> int, n: nat)
    requires forall q: nat | q < n :: h(q) == f(q) + g(q)
    ensures SumTo(h, n) == SumTo(f, n) + SumTo(g, n)
  {}

  lemma SumChangedAt(f: nat -> int, g: nat -> int, n: nat, at: nat)
    requires at < n && forall q: nat | q < n && q != at :: g(q) == f(q)
    ensures SumTo(g, n) == SumTo(f, n) - f(at) + g(at)
  {
    if at == n - 1 { SumEqual(f, g, at); } else { SumChangedAt(f, g, n - 1, at); }
  }

  lemma SettleOne(rules: Rules, hands: seq<Hand>, d: nat, k: nat)
    requires d < |hands| && k < |hands|
    ensures SumTo(Settled(rules, hands, d + 1, k), |hands|) ==
      SumTo(Settled(rules, hands, d, k), |hands|)
      + Moved(rules, hands, d, |hands|, k)
  {
    if k == d {
      SumPlus(Settled(rules, hands, d, d), Wins(rules, hands, d), Settled(rules, hands, d + 1, d), |hands|);
    } else {
      SumChangedAt(Settled(rules, hands, d, k), Settled(rules, hands, d + 1, k), |hands|, d);
    }
  }

  /** The sweep flag of seat d: the ledger has an entry for everyone else, all by shooting. */
  method DetectSweep(rules: Rules, losers: map<nat, Entry>, n: nat) returns (sweep: bool)
    requires forall q | q in losers :: q < n
    ensures sweep <==> rules.quanLeiDa && n > 2 && |losers| + 1 == n && forall q | q in losers :: losers[q].shot != 0
  {
    sweep := false;
    if rules.quanLeiDa && n > 2 && |losers| + 1 == n {
      sweep := true;
      for q := 0 to n
        invariant sweep <==> forall k | k in losers && k < q :: losers[k].shot != 0
      {
        if q in losers && losers[q].shot == 0 {
          sweep := false;
          break;
        }
      }
    }
  }

  method Pay(rules: Rules, e: Entry, hasMaPai: bool, sweeps: bool) returns (prize: int)
    ensures prize == Payment(rules, e, if hasMaPai then 2 else 1, sweeps)
  {
    prize := e.score;
    if e.shot > 0 {
      if rules.daQiang == DQ_X_DAO { prize := prize + rules.shootAddPoint; } else { prize := prize * 2; }
    }
    if hasMaPai { prize := prize * 2; }
    if sweeps { prize := prize * 2; }
  }

  /** Seat k's change after d settled its entries against the seats before q. */
  function Moved(rules: Rules, hands: seq<Hand>, d: nat, q: nat, k: nat): int {
    if k == d then SumTo(Wins(rules, hands, d), q) else if k < q then -Gain(rules, hands, d, k) else 0
  }

  lemma MovedStep(rules: Rules, hands: seq<Hand>, d: nat, q: nat, k: nat)
    ensures Moved(rules, hands, d, q + 1, k) == Moved(rules, hands, d, q, k)
      + (if k == d then Gain(rules, hands, d, q) else if k == q then -Gain(rules, hands, d, q) else 0)
  {
    if k == d { assert Wins(rules, hands, d)(q) == Gain(rules, hands, d, q); }
  }

  /** Settle the ledger of seat d, entry by entry. */
  method SettleLedger(rules: Rules, hands: seq<Hand>, datas: seq<PlayerData>, d: nat) returns (r: seq<PlayerData>)
    requires |datas| == |hands| && d < |hands|
    requires forall p | 0 <= p < |hands| :: datas[p].hand == hands[p]
    requires forall q | q in datas[d].losers :: q < |hands|
    requires forall q | 0 <= q < |hands| :: CellAt(rules, hands, datas, |hands|, |hands|, d, q)
    requires datas[d].quanLeiDa == Sweeps(rules, hands, d)
    ensures |r| == |datas|
    ensures forall k | 0 <= k < |r| :: r[k] == datas[k].(prize := datas[k].prize + Moved(rules, hands, d, |hands|, k))
  {
    r := datas;
    for q := 0 to |hands|
      invariant |r| == |datas|
      invariant forall k | 0 <= k < |r| :: r[k] == datas[k].(prize := datas[k].prize + Moved(rules, hands, d, q, k))
    {
      var prize := 0;
      assert CellAt(rules, hands, datas, |hands|, |hands|, d, q);
      if q in datas[d].losers {
        prize := Pay(rules, datas[d].losers[q], r[d].hand.hasMaPai || r[q].hand.hasMaPai, r[d].quanLeiDa);
      }
      assert prize == Gain(rules, hands, d, q) && (q == d ==> prize == 0);
      forall k | 0 <= k < |r| { MovedStep(rules, hands, d, q, k); }
      hide Gain, Payment, Sweeps, Shoots, Moved, CellAt;
      if q in datas[d].losers {
        r := r[d := r[d].(prize := r[d].prize + prize)];
        r := r[q := r[q].(prize := r[q].prize - prize)];
      }
    }
  }

  lemma SumZero(f: nat -> int, n: nat)
    requires forall q: nat | q < n :: f(q) == 0
    ensures SumTo(f, n) == 0
  {}

  lemma SettledIsPrize(rules: Rules, hands: seq<Hand>, p: nat)
    requires p < |hands|
    ensures SumTo(Settled(rules, hands, |hands|, p), |hands|) == Prize(rules, hands, p)
  {
    var n := |hands|;
    forall q: nat | q < n ensures Settled(rules, hands, n, p)(q) == Clip(hands, rules, p)(q) {
      GainIsTransfer(rules, hands, p, q);
    }
    SumEqual(Settled(rules, hands, n, p), Clip(hands, rules, p), n);
  }

  ghost predicate SettledUpTo(rules: Rules, hands: seq<Hand>, compared: seq<PlayerData>, datas: seq<PlayerData>, d: nat)
  {
    && |datas| == |compared| == |hands|
    && forall k | 0 <= k < |hands| :: datas[k] == compared[k].(
         prize := SumTo(Settled(rules, hands, d, k), |hands|),
         quanLeiDa := k < d && Sweeps(rules, hands, k))
  }

  /** Detect whether seat d sweeps, then settle its ledger. */
  method SettleSeat(rules: Rules, hands: seq<Hand>, ghost compared: seq<PlayerData>, datas: seq<PlayerData>, d: nat)
    returns (r: seq<PlayerData>)
    requires LedgerAt(rules, hands, compared, |hands|, |hands|) && d < |hands|
    requires SettledUpTo(rules, hands, compared, datas, d)
    ensures SettledUpTo(rules, hands, compared, r, d + 1)
  {
    FullLedgerIsSweep(rules, hands, compared, d);
    var sweep := DetectSweep(rules, datas[d].losers, |hands|);
    assert sweep == Sweeps(rules, hands, d);
    hide Sweeps, Settled, Gain, Shoots;
    r := datas[d := datas[d].(quanLeiDa := sweep)];
    forall q | 0 <= q < |hands| ensures CellAt(rules, hands, r, |hands|, |hands|, d, q) {
      assert CellAt(rules, hands, compared, |hands|, |hands|, d, q);
    }
    r := SettleLedger(rules, hands, r, d);
    forall k | 0 <= k < |hands| { SettleOne(rules, hands, d, k); }
  }

  /** Sweep detection and settlement over all seats in order. */
  method SettleRound(rules: Rules, hands: seq<Hand>, compared: seq<PlayerData>) returns (datas: seq<PlayerData>)
    requires LedgerAt(rules, hands, compared, |hands|, |hands|)
    ensures |datas| == |hands|
    ensures forall k | 0 <= k < |hands| ::
      datas[k] == compared[k].(prize := Prize(rules, hands, k), quanLeiDa := Sweeps(rules, hands, k))
  {
    datas := compared;
    forall k | 0 <= k < |hands| ensures SumTo(Settled(rules, hands, 0, k), |hands|) == 0 {
      SumZero(Settled(rules, hands, 0, k), |hands|);
    }
    for d := 0 to |hands|
      invariant SettledUpTo(rules, hands, compared, datas, d)
    {
      datas := SettleSeat(rules, hands, compared, datas, d);
    }
    forall p | 0 <= p < |hands| { SettledIsPrize(rules, hands, p); }
  }

  /** `calcRound`: every seat's prize is the sum of its transfers, the sweep flag is set exactly for a
      seat that shot everyone, and the displayed row scores count only later seats. */
  method CalcRound(rules: Rules, hands: seq<Hand>) returns (datas: seq<PlayerData>)
    ensures |datas| == |hands|
    ensures forall p | 0 <= p < |hands| ::
      && datas[p].hand == hands[p]
      && datas[p].prize == Prize(rules, hands, p) == SumTo(FromEach(rules, hands, p), |hands|)
      && datas[p].quanLeiDa == Sweeps(rules, hands, p)
    ensures forall p, q | 0 <= p < |hands| && 0 <= q < |hands| :: CellAt(rules, hands, datas, |hands|, |hands|, p, q)
    ensures forall p | 0 <= p < |hands| :: ShotEntries(datas[p].losers) == ShotBy(rules, hands, p)
    ensures forall p | 0 <= p < |hands| :: forall q | q in datas[p].losers :: q < |hands|
    ensures RowsAt(hands, datas, |hands|, |hands|)
  {
    var compared := CompareAll(rules, hands);
    datas := SettleRound(rules, hands, compared);
    forall p, q | 0 <= p < |hands| && 0 <= q < |hands| ensures CellAt(rules, hands, datas, |hands|, |hands|, p, q) {
      assert CellAt(rules, hands, compared, |hands|, |hands|, p, q);
    }
    hide CellAt, ShotBy, ShotEntries;
    forall p | 0 <= p < |hands| { LedgerMarksShots(rules, hands, datas, p); }
    hide Prize, FromEach;
    forall p | 0 <= p < |hands| { PrizePairByPair(rules, hands, p); }
  }

  // ---------------------------------------------------------------- what the scores satisfy

  lemma AtMostOneSweep(rules: Rules, hands: seq<Hand>, p: nat, q: nat)
    requires p < |hands| && q < |hands| && Sweeps(rules, hands, p) && Sweeps(rules, hands, q)
    ensures p == q
  {
    ShootsOneWay(rules, hands[p], hands[q]);
  }

  function TotalPrize(rules: Rules, hands: seq<Hand>, upTo: nat): int
    requires upTo <= |hands|
  {
    if upTo == 0 then 0 else TotalPrize(rules, hands, upTo - 1) + Prize(rules, hands, upTo - 1)
  }

  /** What seat p receives from the first n seats. */
  function Row(rules: Rules, hands: seq<Hand>, p: nat, n: nat): int
    requires p < |hands|
  {
    SumTo(Clip(hands, rules, p), n)
  }

  /** What the first m seats receive from seat q. */
  function Column(rules: Rules, hands: seq<Hand>, m: nat, q: nat): int
    requires m <= |hands| && q < |hands|
  {
    if m == 0 then 0 else Column(rules, hands, m - 1, q) + Transfer(rules, hands, m - 1, q)
  }

  lemma {:induction false} ColumnIsRow(rules: Rules, hands: seq<Hand>, m: nat, q: nat)
    requires m <= |hands| && q < |hands|
    ensures Column(rules, hands, m, q) == -Row(rules, hands, q, m)
  {
    hide Due, Sweeps;
    if m == 0 {
    } else {
      ColumnIsRow(rules, hands, m - 1, q);
      TransferAntisymmetric(rules, hands, m - 1, q);
    }
  }

  function Square(rules: Rules, hands: seq<Hand>, m: nat, n: nat): int
    requires m <= |hands| && n <= |hands|
  {
    if m == 0 then 0 else Square(rules, hands, m - 1, n) + Row(rules, hands, m - 1, n)
  }

  lemma {:induction false} SquareAddsColumn(rules: Rules, hands: seq<Hand>, m: nat, n: nat)
    requires m <= |hands| && n < |hands|
    ensures Square(rules, hands, m, n + 1) == Square(rules, hands, m, n) + Column(rules, hands, m, n)
  {
    hide Due, Sweeps;
    if m == 0 {
    } else {
      SquareAddsColumn(rules, hands, m - 1, n);
    }
  }

  lemma {:induction false} SquareIsZero(rules: Rules, hands: seq<Hand>, m: nat)
    requires m <= |hands|
    ensures Square(rules, hands, m, m) == 0
  {
    hide Due, Sweeps;
    if m == 0 {
    } else {
      SquareIsZero(rules, hands, m - 1);
      SquareAddsColumn(rules, hands, m - 1, m - 1);
      ColumnIsRow(rules, hands, m - 1, m - 1);
      TransferAntisymmetric(rules, hands, m - 1, m - 1);
    }
  }

  lemma {:induction false} TotalIsSquare(rules: Rules, hands: seq<Hand>, m: nat)
    requires m <= |hands|
    ensures TotalPrize(rules, hands, m) == Square(rules, hands, m, |hands|)
  {
    if m == 0 {
    } else {
      TotalIsSquare(rules, hands, m - 1);
    }
  }

  /** The prizes of a round sum to zero. */
  lemma ZeroSum(rules: Rules, hands: seq<Hand>)
    ensures TotalPrize(rules, hands, |hands|) == 0
  {
    TotalIsSquare(rules, hands, |hands|);
    SquareIsZero(rules, hands, |hands|);
  }

  // ---------------------------------------------------------------- shooting

  function StrongHand(): Hand {
    var high := BrandInfo(HighCard, 2, false);
    Hand(high, high, high, None, false)
  }

  function WeakHand(): Hand {
    var low := BrandInfo(HighCard, 1, false);
    Hand(low, low, low, None, false)
  }

  /** Shooting can happen exactly when daQiang is not 0, although 0 is described as the value that doubles: at 0 a
      hand that wins all three rows is paid no more than their sum. */
  lemma ShootingIsOnIff(rules: Rules)
    ensures rules.daQiang != 0 <==> exists a: Hand, b: Hand :: Shoots(rules, a, b)
    ensures var a, b := StrongHand(), WeakHand();
      && Lane(0, a, b) == Lane(1, a, b) == Lane(2, a, b) == 1
      && (rules.daQiang == 0 ==> Due(rules, a, b, false, false) == 3)
  {
    if rules.daQiang != 0 { assert Shoots(rules, StrongHand(), WeakHand()); }
  }

  /** The seats that seat p shoots. */
  ghost function ShotBy(rules: Rules, hands: seq<Hand>, p: nat): set<nat>
    requires p < |hands|
  {
    set q | 0 <= q < |hands| && q != p && Shoots(rules, hands[p], hands[q])
  }

  ghost function ShotEntries(losers: map<nat, Entry>): set<nat> { set q | q in losers && losers[q].shot != 0 }

  /** The ledgers mark exactly the shots. */
  lemma LedgerMarksShots(rules: Rules, hands: seq<Hand>, datas: seq<PlayerData>, p: nat)
    requires |datas| == |hands| && p < |hands| && forall q | q in datas[p].losers :: q < |hands|
    requires forall q | 0 <= q < |hands| :: CellAt(rules, hands, datas, |hands|, |hands|, p, q)
    ensures ShotEntries(datas[p].losers) == ShotBy(rules, hands, p)
  {
    forall q: nat | q < |hands| ensures q in ShotEntries(datas[p].losers) <==> q in ShotBy(rules, hands, p) {
      assert CellAt(rules, hands, datas, |hands|, |hands|, p, q);
    }
  }

  // ---------------------------------------------------------------- what a round pays, in numbers

  lemma TwoSeatsPay(rules: Rules, a: Hand, b: Hand)
    ensures Prize(rules, [a, b], 0) == Due(rules, a, b, false, false)
  {
    var hands := [a, b];
    TransferAntisymmetric(rules, hands, 0, 0);
    hide Due, Shoots;
    var f := Clip(hands, rules, 0);
    assert SumTo(f, 2) == SumTo(f, 1) + f(1) && SumTo(f, 1) == SumTo(f, 0) + f(0);
  }

  /** Between hands without special patterns a row is worth one point to its winner, three for three of a kind in
      front; two, eight, ten or twenty for a full house, four of a kind, a straight flush or five of a kind in the
      middle; four, five or ten for the last three of them at the end. */
  lemma RowInNumbers(z: nat, a: Hand, b: Hand)
    requires z < 3 && a.spec == None && b.spec == None
    ensures
      var worth := (x: Brand) =>
        match (z, x)
        case (0, ThreeOfKind) => 3
        case (1, FullHouse) => 2
        case (1, FourOfKind) => 8
        case (1, StraightFlush) => 10
        case (1, FiveOfKind) => 20
        case (2, FourOfKind) => 4
        case (2, StraightFlush) => 5
        case (2, FiveOfKind) => 10
        case _ => 1;
      var mine := if z == 0 then a.dun0 else if z == 1 then a.dun1 else a.dun2;
      var theirs := if z == 0 then b.dun0 else if z == 1 then b.dun1 else b.dun2;
      var cmp := CmpBrandInfo(mine, theirs);
      RowScore(z, a, b) == if cmp == 1 then worth(mine.b) else if cmp == 2 then -worth(theirs.b) else 0
  {
    hide CmpBrandInfo;
  }

  /** At a table of two such hands the rows are added up.  Who wins all three gets their sum if daQiang is 0, the bonus
      on top if it is 1 and twice the sum otherwise.  A horse card on either side doubles. */
  lemma {:induction false} PrizeInNumbers(rules: Rules, a: Hand, b: Hand)
    requires a.spec == None && b.spec == None
    ensures var r0, r1, r2 := RowScore(0, a, b), RowScore(1, a, b), RowScore(2, a, b);
      var up, down := r0 > 0 && r1 > 0 && r2 > 0, r0 < 0 && r1 < 0 && r2 < 0;
      var sum := r0 + r1 + r2;
      var points :=
        if rules.daQiang == 0 || !(up || down) then sum
        else if rules.daQiang == 1 then (if up then sum + rules.shootAddPoint else sum - rules.shootAddPoint)
        else 2 * sum;
      Prize(rules, [a, b], 0) == if a.hasMaPai || b.hasMaPai then 2 * points else points
  {
    TwoSeatsPay(rules, a, b);
    LaneAntisymmetric(0, a, b);
    LaneAntisymmetric(1, a, b);
    LaneAntisymmetric(2, a, b);
    hide Prize, Lane;
  }

  /** Of two hands with a special pattern the better pattern wins what it is worth; equal ones pay nothing. */
  lemma {:induction false} SpecialPrizeInNumbers(rules: Rules, a: Hand, b: Hand)
    requires a.spec != None || b.spec != None
    ensures
      var worth := (x: Special) =>
        if x == FlushStraight13 then 104 else if x == Straight13 then 52
        else if x == Royal || x == TripleStraightFlush || x == TripleBombs then 26 else if x == None then 0 else 6;
      var points :=
        if worth(a.spec) > worth(b.spec) then worth(a.spec)
        else if worth(b.spec) > worth(a.spec) then -worth(b.spec) else 0;
      Prize(rules, [a, b], 0) == if a.hasMaPai || b.hasMaPai then 2 * points else points
  {
    TwoSeatsPay(rules, a, b);
    hide Prize, Lane;
    assert !Shoots(rules, a, b) && !Shoots(rules, b, a);
    assert Base(a, b) == SpecialBase(a.spec, b.spec);
    hide Shoots, Base;
    SpecialWorth(a.spec, b.spec);
    hide SpecialBase;
  }

  function SpecialBase(x: Special, y: Special): int {
    if x.Tier() > y.Tier() then x.Points() else if y.Tier() > x.Tier() then -y.Points() else 0
  }

  lemma TierAndPoints(x: Special)
    ensures
      var worth :=
        if x == FlushStraight13 then 104 else if x == Straight13 then 52
        else if x == Royal || x == TripleStraightFlush || x == TripleBombs then 26 else if x == None then 0 else 6;
      x.Points() == worth
      && x.Tier() == if worth == 104 then 5 else if worth == 52 then 4 else if worth == 26 then 3
                     else if worth == 6 then 2 else 0
  {}

  lemma SpecialWorth(x: Special, y: Special)
    ensures
      var worth := (x: Special) =>
        if x == FlushStraight13 then 104 else if x == Straight13 then 52
        else if x == Royal || x == TripleStraightFlush || x == TripleBombs then 26 else if x == None then 0 else 6;
      SpecialBase(x, y) == if worth(x) > worth(y) then worth(x) else if worth(y) > worth(x) then -worth(y) else 0
  {
    TierAndPoints(x);
    TierAndPoints(y);
    hide Special.Tier, Special.Points;
  }

  /** Shooting is on, the table has three seats or more and pays sweeps, and p wins every row from every other seat. */
  ghost predicate WinsEverything(rules: Rules, hands: seq<Hand>, p: nat)
    requires p < |hands|
  {
    && rules.quanLeiDa && rules.daQiang != 0 && |hands| >= 3
    && forall q | 0 <= q < |hands| && q != p ::
         && hands[p].spec == None && hands[q].spec == None
         && CmpBrandInfo(hands[p].dun0, hands[q].dun0) == 1
         && CmpBrandInfo(hands[p].dun1, hands[q].dun1) == 1
         && CmpBrandInfo(hands[p].dun2, hands[q].dun2) == 1
  }

  lemma SweepsInWords(rules: Rules, hands: seq<Hand>, p: nat)
    requires p < |hands|
    ensures Sweeps(rules, hands, p) <==> WinsEverything(rules, hands, p)
  {
    forall q | 0 <= q < |hands| && q != p
      ensures Shoots(rules, hands[p], hands[q]) <==>
        (rules.daQiang != 0 && hands[p].spec == None && hands[q].spec == None
         && CmpBrandInfo(hands[p].dun0, hands[q].dun0) == 1
         && CmpBrandInfo(hands[p].dun1, hands[q].dun1) == 1
         && CmpBrandInfo(hands[p].dun2, hands[q].dun2) == 1)
    {
      hide CmpBrandInfo, Bonus;
    }
    hide Shoots, CmpBrandInfo;
    if Sweeps(rules, hands, p) {
      var q := if p == 0 then 1 else 0;
      assert Shoots(rules, hands[p], hands[q]);
    }
  }

  /** What seat p would get from seat q at a table of their own, and twice that if one of them wins everything. */
  ghost function FromEach(rules: Rules, hands: seq<Hand>, p: nat): nat -> int
    requires p < |hands|
  {
    (q: nat) =>
      if q >= |hands| || q == p then 0
      else
        (if WinsEverything(rules, hands, p) || WinsEverything(rules, hands, q) then 2 else 1)
        * Prize(rules, [hands[p], hands[q]], 0)
  }

  /** A table pays what its pairs would pay, a sweep doubling what the seat that makes it is paid. */
  lemma {:induction false} PrizePairByPair(rules: Rules, hands: seq<Hand>, p: nat)
    requires p < |hands|
    ensures Prize(rules, hands, p) == SumTo(FromEach(rules, hands, p), |hands|)
  {
    forall q: nat | q < |hands| ensures Clip(hands, rules, p)(q) == FromEach(rules, hands, p)(q) {
      if q == p {
        TransferAntisymmetric(rules, hands, p, p);
      } else {
        TransferInPair(rules, hands, p, q);
      }
    }
    SumEqual(Clip(hands, rules, p), FromEach(rules, hands, p), |hands|);
  }

  lemma TransferInPair(rules: Rules, hands: seq<Hand>, p: nat, q: nat)
    requires p < |hands| && q < |hands| && p != q
    ensures Transfer(rules, hands, p, q) == FromEach(rules, hands, p)(q)
  {
    var a, b := hands[p], hands[q];
    SweepsInWords(rules, hands, p);
    SweepsInWords(rules, hands, q);
    TwoSeatsPay(rules, a, b);
    ShootsOneWay(rules, a, b);
    assert Sweeps(rules, hands, p) ==> Shoots(rules, a, b);
    assert Sweeps(rules, hands, q) ==> Shoots(rules, b, a);
    hide Sweeps, WinsEverything, Prize, Shoots, Base, Shot, Horse;
  }

  // ---------------------------------------------------------------- seating order does not matter

  /** The sweep as a property of the hand and the hands at the table, without seat numbers. */
  ghost predicate SweepsTable(rules: Rules, table: multiset<Hand>, h: Hand) {
    rules.quanLeiDa && |table| > 2 && forall x | x in table - multiset{h} :: Shoots(rules, h, x)
  }

  lemma RemoveAt<T>(hands: seq<T>, p: nat)
    requires p < |hands|
    ensures multiset(hands) - multiset{hands[p]} == multiset(hands[..p] + hands[p + 1..])
  {
    assert hands == hands[..p] + [hands[p]] + hands[p + 1..];
  }

  lemma SweepsIsTable(rules: Rules, hands: seq<Hand>, p: nat)
    requires p < |hands|
    ensures Sweeps(rules, hands, p) <==> SweepsTable(rules, multiset(hands), hands[p])
  {
    hide Shoots;
    var others := hands[..p] + hands[p + 1..];
    RemoveAt(hands, p);
    assert |multiset(hands)| == |hands|;
    if Sweeps(rules, hands, p) {
      forall x | x in multiset(hands) - multiset{hands[p]} ensures Shoots(rules, hands[p], x) {
        var k :| 0 <= k < |others| && others[k] == x;
        assert x == hands[if k < p then k else k + 1];
      }
    }
    if SweepsTable(rules, multiset(hands), hands[p]) {
      forall q | 0 <= q < |hands| && q != p ensures Shoots(rules, hands[p], hands[q]) {
        assert others[if q < p then q else q - 1] == hands[q];
        assert hands[q] in multiset(others);
      }
    }
  }

  ghost function Total<T(!new)>(f: T -> int, s: seq<T>): int {
    if s == [] then 0 else Total(f, s[..|s| - 1]) + f(s[|s| - 1])
  }

  lemma {:induction false} TotalWithout<T(!new)>(f: T -> int, s: seq<T>, i: nat)
    requires i < |s|
    ensures Total(f, s) == Total(f, s[..i] + s[i + 1..]) + f(s[i])
  {
    var t := s[..i] + s[i + 1..];
    if i < |s| - 1 {
      var front := s[..|s| - 1];
      TotalWithout(f, front, i);
      assert t[..|t| - 1] == front[..i] + front[i + 1..];
    } else {
      assert t == s[..|s| - 1];
    }
  }

  lemma {:induction false} TotalOfPermutation<T(!new)>(f: T -> int, s: seq<T>, t: seq<T>)
    requires multiset(s) == multiset(t)
    ensures Total(f, s) == Total(f, t)
    decreases |s|
  {
    assert |multiset(s)| == |s| && |multiset(t)| == |t|;
    if s == [] {
    } else {
      assert s[|s| - 1] in multiset(t);
      var i :| 0 <= i < |t| && t[i] == s[|s| - 1];
      RemoveAt(s, |s| - 1);
      RemoveAt(t, i);
      assert s[..|s| - 1] + s[|s|..] == s[..|s| - 1];
      TotalOfPermutation(f, s[..|s| - 1], t[..i] + t[i + 1..]);
      TotalWithout(f, t, i);
    }
  }

  /** What hand h receives from hand x at this table. */
  ghost function DueAt(rules: Rules, table: multiset<Hand>, h: Hand): Hand -> int {
    (x: Hand) => Due(rules, h, x, SweepsTable(rules, table, h), SweepsTable(rules, table, x))
  }

  lemma {:induction false} PrizeIsTotal(rules: Rules, hands: seq<Hand>, p: nat, n: nat)
    requires p < |hands| && n <= |hands|
    ensures SumTo(Clip(hands, rules, p), n) == Total(DueAt(rules, multiset(hands), hands[p]), hands[..n])
  {
    if n == 0 {
    } else {
      PrizeIsTotal(rules, hands, p, n - 1);
      assert hands[..n][..n - 1] == hands[..n - 1];
      SweepsIsTable(rules, hands, p);
      SweepsIsTable(rules, hands, n - 1);
    }
  }

  /** Reseating the same hands in any order gives each hand the same prize. */
  lemma SeatOrderIrrelevant(rules: Rules, hands: seq<Hand>, reseated: seq<Hand>, p: nat, p': nat)
    requires multiset(hands) == multiset(reseated)
    requires p < |hands| && p' < |reseated| && hands[p] == reseated[p']
    ensures Prize(rules, hands, p) == Prize(rules, reseated, p')
  {
    PrizeIsTotal(rules, hands, p, |hands|);
    PrizeIsTotal(rules, reseated, p', |reseated|);
    assert hands[..|hands|] == hands && reseated[..|reseated|] == reseated;
    TotalOfPermutation(DueAt(rules, multiset(hands), hands[p]), hands, reseated);
  }

  // ---------------------------------------------------------------- the row scores depend on the seats

  function Seats(n: nat): (s: seq<nat>)
    ensures |s| == n && forall k | 0 <= k < n :: s[k] == k
  {
    seq(n, (k: nat) => k)
  }

  /** `at` permutes the seats, and every hand of `hands` sits at its new seat in t. */
  ghost predicate Reseats(hands: seq<Hand>, at: seq<nat>, t: seq<Hand>) {
    && |at| == |hands| == |t| && multiset(at) == multiset(Seats(|hands|))
    && forall p | 0 <= p < |at| :: at[p] < |t| && t[at[p]] == hands[p]
  }

  lemma {:induction false} SeatsOnce(n: nat, x: nat)
    ensures multiset(Seats(n))[x] <= 1
  {
    if n == 0 {
    } else {
      assert Seats(n) == Seats(n - 1) + [n - 1];
      SeatsOnce(n - 1, x);
      if x == n - 1 { assert x !in Seats(n - 1); }
    }
  }

  lemma SeatsStayApart(at: seq<nat>, p: nat, q: nat)
    requires multiset(at) == multiset(Seats(|at|)) && p < |at| && q < |at| && p != q
    ensures at[p] != at[q]
  {
    if at[p] == at[q] {
      RemoveAt(at, p);
      var others := at[..p] + at[p + 1..];
      assert others[if q < p then q else q - 1] == at[q];
      assert at[q] in multiset(others);
      SeatsOnce(|at|, at[q]);
    }
  }

  /** The scores that the display of seat p counts, by the other seat. */
  function Behind(hands: seq<Hand>, p: nat, z: nat): nat -> int
    requires p < |hands|
  {
    (q: nat) => if p < q < |hands| then RowScore(z, hands[p], hands[q]) else 0
  }

  lemma {:induction false} RowTotalIsSum(hands: seq<Hand>, p: nat, z: nat, n: nat)
    requires p < |hands| && n <= |hands|
    ensures RowTotal(hands, p, z, n) == SumTo(Behind(hands, p, z), n)
  {
    hide RowScore;
    if n == 0 {
    } else {
      RowTotalIsSum(hands, p, z, n - 1);
      if n <= p + 1 { SumZero(Behind(hands, p, z), n); }
    }
  }

  lemma {:induction false} SumIsTotal(f: nat -> int, s: seq<nat>, g: nat -> int, n: nat)
    requires n <= |s| && forall q: nat | q < n :: g(q) == f(s[q])
    ensures SumTo(g, n) == Total(f, s[..n])
  {
    if n == 0 {
    } else {
      SumIsTotal(f, s, g, n - 1);
      assert s[..n][..n - 1] == s[..n - 1];
    }
  }

  /** Who sat before seat p and now sits behind its hand counts in addition; who sat behind it and now sits before it
      counts no longer. */
  ghost function Reversals(hands: seq<Hand>, at: seq<nat>, p: nat, z: nat): nat -> int
    requires |at| == |hands| && p < |hands|
  {
    (q: nat) =>
      if q < p && at[q] > at[p] then RowScore(z, hands[p], hands[q])
      else if p < q < |hands| && at[q] < at[p] then -RowScore(z, hands[p], hands[q])
      else 0
  }

  /** The scores that the new display of p's hand counts, by the other hand's old seat. */
  ghost function NowBehind(hands: seq<Hand>, at: seq<nat>, p: nat, z: nat): nat -> int
    requires |at| == |hands| && p < |hands|
  {
    (q: nat) => if q < |hands| && at[q] > at[p] then RowScore(z, hands[p], hands[q]) else 0
  }

  lemma NowBehindIsSum(hands: seq<Hand>, at: seq<nat>, t: seq<Hand>, p: nat, z: nat)
    requires Reseats(hands, at, t) && p < |hands|
    ensures RowTotal(t, at[p], z, |t|) == SumTo(NowBehind(hands, at, p, z), |hands|)
  {
    hide RowScore;
    var n, f := |hands|, Behind(t, at[p], z);
    RowTotalIsSum(t, at[p], z, n);
    SumIsTotal(f, Seats(n), f, n);
    SumIsTotal(f, at, NowBehind(hands, at, p, z), n);
    assert Seats(n)[..n] == Seats(n) && at[..n] == at;
    TotalOfPermutation(f, Seats(n), at);
  }

  /** The displayed row scores, unlike the prizes, depend on the seats, because only the earlier seat of a pair is
      credited: when the table is reseated in any way, a hand's total of a row changes by its scores against just
      those hands with which it has changed order. */
  lemma {:induction false} ReseatingMovesRows(hands: seq<Hand>, at: seq<nat>, t: seq<Hand>, p: nat, z: nat)
    requires Reseats(hands, at, t) && p < |hands|
    ensures RowTotal(t, at[p], z, |t|)
         == RowTotal(hands, p, z, |hands|) + SumTo(Reversals(hands, at, p, z), |hands|)
  {
    NowBehindIsSum(hands, at, t, p, z);
    RowTotalIsSum(hands, p, z, |hands|);
    hide RowScore;
    var was, moved, now := Behind(hands, p, z), Reversals(hands, at, p, z), NowBehind(hands, at, p, z);
    forall q: nat | q < |hands| ensures now(q) == was(q) + moved(q) {
      if q != p { SeatsStayApart(at, p, q); }
    }
    SumPlus(was, moved, now, |hands|);
  }

  /** The table with seats i and i + 1 exchanged. */
  function Exchanged(hands: seq<Hand>, i: nat): (s: seq<Hand>)
    requires i + 1 < |hands|
    ensures |s| == |hands|
  {
    hands[i := hands[i + 1]][i + 1 := hands[i]]
  }

  lemma ExchangeReseats(hands: seq<Hand>, i: nat) returns (at: seq<nat>)
    requires i + 1 < |hands|
    ensures Reseats(hands, at, Exchanged(hands, i))
    ensures forall k | 0 <= k < |at| :: at[k] == if k == i then i + 1 else if k == i + 1 then i else k
  {
    var seats := Seats(|hands|);
    hide Seats;
    at := seats[i := i + 1][i + 1 := i];
    assert multiset(at) == multiset(seats) by {
      assert seats[i] == i && seats[i := i + 1][i + 1] == i + 1;
      hide *;
    }
    var s := Exchanged(hands, i);
    assert s[i] == hands[i + 1] && s[i + 1] == hands[i];
  }

  lemma NothingGained(z: nat, a: Hand, b: Hand)
    requires z < 3
    ensures RowScore(z, a, b) == 0 <==> AnySpecial(a, b) || CmpBrandInfo(a.Dun(z), b.Dun(z)) == 0
  {}

  lemma SumOfOne(f: nat -> int, n: nat, at: nat)
    requires at < n && forall q: nat | q < n && q != at :: f(q) == 0
    ensures SumTo(f, n) == f(at)
  {
    var none := (q: nat) => 0;
    SumZero(none, n);
    SumChangedAt(none, f, n, at);
  }

  /** So when two neighbours change places, each keeps its total of a row exactly if one of them is special or they
      tie in that row. */
  lemma ExchangeKeepsRowsIff(hands: seq<Hand>, i: nat, z: nat)
    requires i + 1 < |hands| && z < 3
    ensures var tie := AnySpecial(hands[i], hands[i + 1]) || CmpBrandInfo(hands[i].Dun(z), hands[i + 1].Dun(z)) == 0;
      && (RowTotal(hands, i, z, |hands|) == RowTotal(Exchanged(hands, i), i + 1, z, |hands|) <==> tie)
      && (RowTotal(hands, i + 1, z, |hands|) == RowTotal(Exchanged(hands, i), i, z, |hands|) <==> tie)
  {
    var a, b := hands[i], hands[i + 1];
    NothingGained(z, a, b);
    NothingGained(z, b, a);
    CmpBrandInfoIsOrder(a.Dun(z), b.Dun(z), a.Dun(z));
    hide RowScore, CmpBrandInfo;
    var at := ExchangeReseats(hands, i);
    ReseatingMovesRows(hands, at, Exchanged(hands, i), i, z);
    ReseatingMovesRows(hands, at, Exchanged(hands, i), i + 1, z);
    hide RowTotal, Reseats, Exchanged;
    SumOfOne(Reversals(hands, at, i, z), |hands|, i + 1);
    SumOfOne(Reversals(hands, at, i + 1, z), |hands|, i);
  }

  /** Nobody else's totals change. */
  lemma ExchangeKeepsOthers(hands: seq<Hand>, i: nat, z: nat, p: nat)
    requires i + 1 < |hands| && p < |hands| && p != i && p != i + 1
    ensures RowTotal(Exchanged(hands, i), p, z, |hands|) == RowTotal(hands, p, z, |hands|)
  {
    hide RowScore;
    var at := ExchangeReseats(hands, i);
    ReseatingMovesRows(hands, at, Exchanged(hands, i), p, z);
    hide RowTotal, Reseats, Exchanged;
    SumZero(Reversals(hands, at, p, z), |hands|);
  }

  /** Two seats that swap places can report different rows. */
  lemma RowScoresDependOnSeats()
    ensures exists a: Hand, b: Hand :: RowTotal([a, b], 0, 0, 2) != RowTotal([b, a], 1, 0, 2)
  {
    var low := BrandInfo(HighCard, 1, false);
    var a := Hand(low.(point := 2), low, low, None, false);
    var b := Hand(low, low, low, None, false);
    assert Exchanged([a, b], 0) == [b, a];
    ExchangeKeepsRowsIff([a, b], 0, 0);
  }

  // ---------------------------------------------------------------- the results fit int32

  lemma ScaleBounded(x: int, m: int, k: int, bound: int)
    requires -bound <= x <= bound && 1 <= m <= 2 && 1 <= k <= 2
    ensures -2 * bound <= x * m <= 2 * bound && -4 * bound <= x * m * k <= 4 * bound
  {
    assert m == 1 || m == 2;
    assert k == 1 || k == 2;
  }

  /** Settling one entry: the points after shooting, after the horse card and after the sweep. */
  lemma PaymentBounded(rules: Rules, e: Entry, horse: int, sweeps: bool, add: int)
    requires -104 <= e.score <= 104 && 1 <= horse <= 2
    requires 0 <= add && -add <= rules.shootAddPoint <= add
    ensures var points := if e.shot > 0 then Shot(rules, e.score) else e.score;
      -(208 + add) <= points <= 208 + add && -2 * (208 + add) <= points * horse <= 2 * (208 + add)
    ensures -4 * (208 + add) <= Payment(rules, e, horse, sweeps) <= 4 * (208 + add)
  {
    var points := if e.shot > 0 then Shot(rules, e.score) else e.score;
    ScaleBounded(points, horse, if sweeps then 2 else 1, 208 + add);
  }

  /** Of two seats only one has an entry against the other. */
  lemma OneEntry(rules: Rules, a: Hand, b: Hand, aFirst: bool)
    ensures !(EntryOf(rules, a, b, aFirst).1 && EntryOf(rules, b, a, !aFirst).1)
    ensures EntryOf(rules, a, b, aFirst).1 ==> -104 <= EntryOf(rules, a, b, aFirst).0.score <= 104
  {
    BaseBounds(a, b);
    ShootsOneWay(rules, a, b);
    hide Base, Shoots;
  }

  lemma GainBounded(rules: Rules, hands: seq<Hand>, p: nat, q: nat, add: int)
    requires p < |hands| && q < |hands| && 0 <= add && -add <= rules.shootAddPoint <= add
    ensures -4 * (208 + add) <= Gain(rules, hands, p, q) <= 4 * (208 + add)
    ensures Gain(rules, hands, p, q) == 0 || Gain(rules, hands, q, p) == 0
  {
    var a, b := hands[p], hands[q];
    OneEntry(rules, a, b, p < q);
    hide EntryOf, Payment, Sweeps;
    if p != q && EntryOf(rules, a, b, p < q).1 {
      PaymentBounded(rules, EntryOf(rules, a, b, p < q).0, Horse(a, b), Sweeps(rules, hands, p), add);
    }
  }

  /** What seat k has from and has paid to seat x when the settlement stands at entry q of seat d's ledger. */
  function SoFar(rules: Rules, hands: seq<Hand>, d: nat, q: nat, k: nat): nat -> int {
    (x: nat) =>
      (if k < d || (k == d && x < q) then Gain(rules, hands, k, x) else 0)
      - (if x < d || (x == d && k < q) then Gain(rules, hands, x, k) else 0)
  }

  function WinsTo(rules: Rules, hands: seq<Hand>, d: nat, q: nat): nat -> int {
    (x: nat) => if x < q then Gain(rules, hands, d, x) else 0
  }

  lemma {:induction false} WinsToIsSum(rules: Rules, hands: seq<Hand>, d: nat, q: nat, n: nat)
    requires q <= n
    ensures SumTo(WinsTo(rules, hands, d, q), n) == SumTo(Wins(rules, hands, d), q)
    decreases n
  {
    hide Gain;
    if q == n {
      SumEqual(WinsTo(rules, hands, d, q), Wins(rules, hands, d), n);
    } else {
      WinsToIsSum(rules, hands, d, q, n - 1);
    }
  }

  /** The running prize is that sum. */
  lemma SoFarIsRunning(rules: Rules, hands: seq<Hand>, d: nat, q: nat, k: nat)
    requires d <= |hands| && q <= |hands| && k < |hands| && (d == |hands| ==> q == 0)
    ensures SumTo(SoFar(rules, hands, d, q, k), |hands|)
         == SumTo(Settled(rules, hands, d, k), |hands|) + Moved(rules, hands, d, q, k)
  {
    var n := |hands|;
    assert Gain(rules, hands, d, d) == 0;
    hide Gain;
    if k == d {
      WinsToIsSum(rules, hands, d, q, n);
      SumPlus(Settled(rules, hands, d, d), WinsTo(rules, hands, d, q), SoFar(rules, hands, d, q, d), n);
    } else if d < n {
      SumChangedAt(Settled(rules, hands, d, k), SoFar(rules, hands, d, q, k), n, d);
    } else {
      SumEqual(Settled(rules, hands, d, k), SoFar(rules, hands, d, q, k), n);
    }
  }

  lemma {:induction false} SumBounded(f: nat -> int, n: nat, bound: int)
    requires forall q: nat | q < n :: -bound <= f(q) <= bound
    ensures -(n * bound) <= SumTo(f, n) <= n * bound
  {
    if n == 0 {
    } else {
      SumBounded(f, n - 1, bound);
      assert n * bound == (n - 1) * bound + bound;
    }
  }

  /** With at most eight seats and a shooting bonus of at most 2^25, no prize leaves the int32 range at any point of
      the settlement: before, between and after the entries of any seat's ledger. */
  lemma SettlementFitsInt32(rules: Rules, hands: seq<Hand>, d: nat, q: nat, k: nat)
    requires |hands| <= 8 && -0x200_0000 <= rules.shootAddPoint <= 0x200_0000
    requires d <= |hands| && q <= |hands| && k < |hands| && (d == |hands| ==> q == 0)
    ensures -0x8000_0000 <= SumTo(Settled(rules, hands, d, k), |hands|) + Moved(rules, hands, d, q, k) < 0x8000_0000
  {
    var bound := 4 * (208 + 0x200_0000);
    SoFarIsRunning(rules, hands, d, q, k);
    hide Gain, Settled, Moved, SumTo;
    forall x: nat | x < |hands| ensures -bound <= SoFar(rules, hands, d, q, k)(x) <= bound {
      GainBounded(rules, hands, k, x, 0x200_0000);
      GainBounded(rules, hands, x, k, 0x200_0000);
    }
    SumBounded(SoFar(rules, hands, d, q, k), |hands|, bound);
    assert |hands| * bound <= 8 * bound;
  }

  /** So the result does not leave it either. */
  lemma PrizeFitsInt32(rules: Rules, hands: seq<Hand>, p: nat)
    requires p < |hands| <= 8 && -0x200_0000 <= rules.shootAddPoint <= 0x200_0000
    ensures -0x8000_0000 <= Prize(rules, hands, p) < 0x8000_0000
  {
    SettlementFitsInt32(rules, hands, |hands|, 0, p);
    SettledIsPrize(rules, hands, p);
  }
}
