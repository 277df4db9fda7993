/** A room of thirteen water from the deal to the final settlement
    (server/processes/lobby/water13.cpp and water13_card.cpp).

    The shuffled deck, what jokers and special patterns count for and who is online come in as parameters;
    messages to the players are left out. */
module GameRooms {
  import opened DeckBuilding
  import opened RoundEvaluation
  import HandRanking
  import RoundScoring

  type Card = HandRanking.Card

  datatype SeatStatus = Prep | Ready | Arranging | Compare | Witness | Bidding

  datatype GameStatus = Prepare | QuickStart | SelBanker | Play | Settle | SettleAll

  /** A seat; an empty one has cuid 0. */
  datatype PlayerInfo = PlayerInfo(cuid: nat, status: SeatStatus, rank: int, special: bool, cards: seq<Card>) {
    predicate Valid() { cuid != 0 && !status.Witness? }
  }

  /** What one round left behind: for each seat its owner, its cards and its settlement. */
  datatype Round = Round(cuids: seq<nat>, cards: seq<seq<Card>>, datas: seq<RoundScoring.PlayerData>)

  datatype Attr = Attr(
    playerSize: nat, banker: bool, withGhost: bool, suits: seq<int>, rounds: int, payor: int, playerPrice: int,
    maPai: int, rules: RoundScoring.Rules)

  lemma SortedAreCards(s: seq<Card>)
    ensures forall i | 0 <= i < |s| :: 1 <= SortInts(s)[i] <= 54
  {
    SortIntsSorts(s);
    forall i | 0 <= i < |s| ensures 1 <= SortInts(s)[i] <= 54 {
      assert SortInts(s)[i] in multiset(SortInts(s));
    }
  }

  /** A hand as it is kept, in the order of the card numbers. */
  function SortHand(s: seq<Card>): (t: seq<Card>)
    ensures |t| == |s|
  {
    SortedAreCards(s);
    SortInts(s)
  }

  // ---------------------------------------------------------------- dealing

  /** How many of the first n seats are dealt cards. */
  function Dealt(players: seq<PlayerInfo>, n: nat): (k: nat)
    requires n <= |players|
    ensures k <= n
  {
    if n == 0 then 0 else Dealt(players, n - 1) + if players[n - 1].status.Witness? then 0 else 1
  }

  lemma {:induction false} DealtGrows(players: seq<PlayerInfo>, m: nat, n: nat)
    requires m <= n <= |players|
    ensures Dealt(players, m) <= Dealt(players, n)
  {
    if m == n {
    } else {
      DealtGrows(players, m, n - 1);
    }
  }

  /** How many cards the first n seats are dealt in hands of `size`. */
  function CardsDealt(players: seq<PlayerInfo>, size: nat, n: nat): (k: nat)
    requires n <= |players|
  {
    if n == 0 then 0 else CardsDealt(players, size, n - 1) + if players[n - 1].status.Witness? then 0 else size
  }

  lemma {:induction false} CardsDealtGrows(players: seq<PlayerInfo>, size: nat, m: nat, n: nat)
    requires m <= n <= |players|
    ensures CardsDealt(players, size, m) <= CardsDealt(players, size, n)
  {
    if m == n {
    } else {
      CardsDealtGrows(players, size, m, n - 1);
    }
  }

  lemma {:induction false} WholeHandsDealt(players: seq<PlayerInfo>, n: nat)
    requires n <= |players|
    ensures CardsDealt(players, HAND, n) == HAND * Dealt(players, n)
  {
    if n == 0 {
    } else {
      WholeHandsDealt(players, n - 1);
    }
  }

  lemma {:induction false} AtMostAll(players: seq<PlayerInfo>, n: nat)
    requires n <= |players|
    ensures CardsDealt(players, HAND, n) <= HAND * n
  {
    if n == 0 {
    } else {
      AtMostAll(players, n - 1);
    }
  }

  lemma {:induction false} SmallerHands(players: seq<PlayerInfo>, size: nat, n: nat)
    requires n <= |players| && size <= HAND
    ensures CardsDealt(players, size, n) <= CardsDealt(players, HAND, n)
  {
    if n == 0 {
    } else {
      SmallerHands(players, size, n - 1);
    }
  }

  /** The place of seat i's cards in the deck, in hands of `size`. */
  function Share(players: seq<PlayerInfo>, deck: seq<Card>, size: nat, i: nat): (s: seq<Card>)
    requires i < |players| && !players[i].status.Witness? && CardsDealt(players, size, |players|) <= |deck|
    ensures |s| == size
  {
    CardsDealtGrows(players, size, i + 1, |players|);
    var k := CardsDealt(players, size, i);
    deck[k..k + size]
  }

  /** A seat after the deal. */
  function AfterDeal(players: seq<PlayerInfo>, deck: seq<Card>, size: nat, next: SeatStatus, i: nat): PlayerInfo
    requires i < |players| && CardsDealt(players, size, |players|) <= |deck| && size <= |players[i].cards|
  {
    if players[i].status.Witness? then players[i]
    else players[i].(cards := SortHand(Share(players, deck, size, i) + players[i].cards[size..]), status := next)
  }

  /** What a deal leaves: each seat that does not watch holds its share of the deck. */
  ghost predicate DealtAs(players: seq<PlayerInfo>, deck: seq<Card>, size: nat, next: SeatStatus, r: seq<PlayerInfo>) {
    && CardsDealt(players, size, |players|) <= |deck| && |r| == |players|
    && forall i | 0 <= i < |players| ::
         size <= |players[i].cards| && r[i] == AfterDeal(players, deck, size, next, i)
  }

  method TakeCards(hand: seq<Card>, deck: seq<Card>, start: nat, size: nat) returns (cards: seq<Card>, index: nat)
    requires start + size <= |deck| && size <= |hand|
    ensures cards == deck[start..start + size] + hand[size..] && index == start + size
  {
    cards, index := hand, start;
    for c := 0 to size
      invariant index == start + c && |cards| == |hand|
      invariant forall k | 0 <= k < |cards| :: cards[k] == if k < c then deck[start + k] else hand[k]
    {
      cards := cards[c := deck[index]];
      index := index + 1;
    }
  }

  /** One seat: nothing if it watches, otherwise the next `size` cards, sorted in with the rest of its hand. */
  method DealSeat(players: seq<PlayerInfo>, deck: seq<Card>, size: nat, next: SeatStatus, i: nat, start: nat)
    returns (p: PlayerInfo, index: nat)
    requires CardsDealt(players, size, |players|) <= |deck| && i < |players| && size <= |players[i].cards|
    requires start == CardsDealt(players, size, i)
    ensures p == AfterDeal(players, deck, size, next, i) && index == CardsDealt(players, size, i + 1)
  {
    NextShare(players, deck, size, i);
    hide CardsDealt, Share, SortHand;
    p, index := players[i], start;
    if p.status.Witness? { return; }
    var cards;
    cards, index := TakeCards(p.cards, deck, start, size);
    p := p.(cards := SortHand(cards), status := next);
  }

  /** Deal `size` cards to every seat that does not watch, and sort each hand. */
  method DealHands(players: seq<PlayerInfo>, deck: seq<Card>, size: nat, next: SeatStatus)
    returns (r: seq<PlayerInfo>, index: nat)
    requires CardsDealt(players, size, |players|) <= |deck|
    requires forall i | 0 <= i < |players| :: size <= |players[i].cards|
    ensures |r| == |players| && DealtAs(players, deck, size, next, r) && index == CardsDealt(players, size, |players|)
  {
    r, index := players, 0;
    for i := 0 to |players|
      invariant |r| == |players| && index == CardsDealt(players, size, i)
      invariant forall j | 0 <= j < i :: r[j] == AfterDeal(players, deck, size, next, j)
      invariant forall j | i <= j < |players| :: r[j] == players[j]
    {
      hide CardsDealt, AfterDeal;
      var p;
      p, index := DealSeat(players, deck, size, next, i, index);
      r := r[i := p];
    }
  }

  lemma NextShare(players: seq<PlayerInfo>, deck: seq<Card>, size: nat, i: nat)
    requires i < |players| && CardsDealt(players, size, |players|) <= |deck|
    ensures CardsDealt(players, size, i + 1)
         == CardsDealt(players, size, i) + if players[i].status.Witness? then 0 else size
    ensures CardsDealt(players, size, i + 1) <= |deck|
    ensures !players[i].status.Witness? ==>
      Share(players, deck, size, i) == deck[CardsDealt(players, size, i)..CardsDealt(players, size, i) + size]
  {
    CardsDealtGrows(players, size, i + 1, |players|);
  }

  // ---------------------------------------------------------------- hands in play

  /** Seat p holds the cards of its share of the deck, in any order. */
  ghost predicate HandFits(p: PlayerInfo, deck: seq<Card>, slot: nat) {
    && HAND * slot + HAND <= |deck| && |p.cards| == HAND
    && multiset(p.cards) == multiset(deck[HAND * slot..HAND * slot + HAND])
  }

  /** The seats that play hold later and later shares. */
  ghost predicate Rising(players: seq<PlayerInfo>, slots: seq<nat>)
    requires |slots| == |players|
  {
    forall i, j | 0 <= i < j < |players| && !players[i].status.Witness? && !players[j].status.Witness? ::
      slots[i] < slots[j]
  }

  /** Every seat that plays holds a share of the deck of its own. */
  ghost predicate TableDealt(players: seq<PlayerInfo>, deck: seq<Card>, slots: seq<nat>) {
    && |slots| == |players|
    && (forall i {:trigger slots[i]} | 0 <= i < |players| && !players[i].status.Witness? ::
          HandFits(players[i], deck, slots[i]))
    && Rising(players, slots)
  }

  ghost function Slots(players: seq<PlayerInfo>): (slots: seq<nat>)
    ensures |slots| == |players|
  {
    seq(|players|, i requires 0 <= i < |players| => Dealt(players, i))
  }

  lemma DealtSlots(players: seq<PlayerInfo>, i: nat, j: nat)
    requires i < j < |players| && !players[i].status.Witness?
    ensures Dealt(players, i) < Dealt(players, j)
  {
    DealtGrows(players, i + 1, j);
  }

  lemma DealFits(players: seq<PlayerInfo>, deck: seq<Card>, next: SeatStatus, i: nat)
    requires i < |players| && CardsDealt(players, HAND, |players|) <= |deck| && |players[i].cards| == HAND
    requires !players[i].status.Witness?
    ensures HandFits(AfterDeal(players, deck, HAND, next, i), deck, Dealt(players, i))
  {
    NextShare(players, deck, HAND, i);
    WholeHandsDealt(players, i);
    var share := Share(players, deck, HAND, i);
    assert share + players[i].cards[HAND..] == share;
    SortIntsSorts(share);
  }

  lemma DealMakesTable(attr: Attr, players: seq<PlayerInfo>, deck: seq<Card>, r: seq<PlayerInfo>, next: SeatStatus)
    requires DealtAs(players, deck, HAND, next, r) && !next.Witness? && SeatsOk(attr, players)
    ensures TableDealt(r, deck, Slots(players))
  {
    hide HandFits;
    forall i | 0 <= i < |r| && !r[i].status.Witness? ensures HandFits(r[i], deck, Slots(players)[i]) {
      DealFits(players, deck, next, i);
    }
    forall i, j | 0 <= i < j < |r| && !r[i].status.Witness? && !r[j].status.Witness?
      ensures Slots(players)[i] < Slots(players)[j]
    {
      DealtSlots(players, i, j);
    }
  }

  /** All cards held by the first n seats that play. */
  ghost function Held(players: seq<PlayerInfo>, n: nat): multiset<int>
    requires n <= |players|
  {
    if n == 0 then multiset{}
    else Held(players, n - 1) + if players[n - 1].status.Witness? then multiset{} else multiset(players[n - 1].cards)
  }

  /** How many shares the first n seats reach into the deck. */
  ghost function Reach(players: seq<PlayerInfo>, slots: seq<nat>, n: nat): nat
    requires n <= |players| == |slots|
  {
    if n == 0 then 0 else if players[n - 1].status.Witness? then Reach(players, slots, n - 1) else slots[n - 1] + 1
  }

  lemma {:induction false} ReachBefore(players: seq<PlayerInfo>, slots: seq<nat>, n: nat, i: nat)
    requires n <= i < |players| == |slots| && !players[i].status.Witness?
    requires Rising(players, slots)
    ensures Reach(players, slots, n) <= slots[i]
  {
    if n == 0 || !players[n - 1].status.Witness? {
    } else {
      ReachBefore(players, slots, n - 1, i);
    }
  }

  lemma PrefixGrows(deck: seq<Card>, a: nat, b: nat)
    requires a <= b && b + HAND <= |deck|
    ensures multiset(deck[..a]) + multiset(deck[b..b + HAND]) <= multiset(deck[..b + HAND])
  {
    assert deck[..b + HAND] == deck[..a] + deck[a..b] + deck[b..b + HAND];
  }

  lemma SeatFits(players: seq<PlayerInfo>, deck: seq<Card>, slots: seq<nat>, i: nat)
    requires TableDealt(players, deck, slots) && i < |players| && !players[i].status.Witness?
    ensures HAND * slots[i] + HAND <= |deck|
    ensures multiset(players[i].cards) == multiset(deck[HAND * slots[i]..HAND * slots[i] + HAND])
  {
    assert HandFits(players[i], deck, slots[i]);
  }

  lemma {:induction false} HandsInPrefix(players: seq<PlayerInfo>, deck: seq<Card>, slots: seq<nat>, n: nat)
    requires TableDealt(players, deck, slots) && n <= |players|
    ensures HAND * Reach(players, slots, n) <= |deck|
    ensures Held(players, n) <= multiset(deck[..HAND * Reach(players, slots, n)])
  {
    hide HandFits;
    if n == 0 {
    } else {
      HandsInPrefix(players, deck, slots, n - 1);
      if !players[n - 1].status.Witness? {
        ReachBefore(players, slots, n - 1, n - 1);
        SeatFits(players, deck, slots, n - 1);
        PrefixGrows(deck, HAND * Reach(players, slots, n - 1), HAND * slots[n - 1]);
        hide TableDealt;
        assert Held(players, n) == Held(players, n - 1) + multiset(players[n - 1].cards);
      }
    }
  }

  /** The hands in play are disjoint parts of the deck: together they hold no card more often than the
      deck does. */
  lemma HandsAreDisjoint(players: seq<PlayerInfo>, deck: seq<Card>, slots: seq<nat>)
    requires TableDealt(players, deck, slots)
    ensures Held(players, |players|) <= multiset(deck)
  {
    HandsInPrefix(players, deck, slots, |players|);
    var k := HAND * Reach(players, slots, |players|);
    hide TableDealt, Held, Reach;
    assert deck == deck[..k] + deck[k..];
  }

  // ---------------------------------------------------------------- the running score

  /** What seat i has won in the rounds so far. */
  ghost function RankSum(data: seq<Round>, i: nat): int {
    if data == [] then 0
    else RankSum(data[..|data| - 1], i) + PrizeIn(data[|data| - 1], i)
  }

  ghost function PrizeIn(round: Round, i: nat): int {
    if i < |round.datas| then round.datas[i].prize else 0
  }

  ghost function PrizeSum(round: Round, n: nat): int {
    if n == 0 then 0 else PrizeSum(round, n - 1) + PrizeIn(round, n - 1)
  }

  /** A recorded round covers every seat, and its prizes cancel out. */
  ghost predicate RoundOk(round: Round, seats: nat) {
    |round.cuids| == |round.cards| == |round.datas| == seats && PrizeSum(round, seats) == 0
  }

  ghost predicate Scored(players: seq<PlayerInfo>, data: seq<Round>) {
    && (forall r {:trigger data[r]} | 0 <= r < |data| :: RoundOk(data[r], |players|))
    && (forall i | 0 <= i < |players| :: players[i].rank == RankSum(data, i))
  }

  ghost function RankTotal(players: seq<PlayerInfo>, n: nat): int
    requires n <= |players|
  {
    if n == 0 then 0 else RankTotal(players, n - 1) + players[n - 1].rank
  }

  ghost function RankSums(data: seq<Round>, n: nat): int {
    if n == 0 then 0 else RankSums(data, n - 1) + RankSum(data, n - 1)
  }

  lemma {:induction false} SumsSplit(data: seq<Round>, n: nat)
    requires data != []
    ensures RankSums(data, n) == RankSums(data[..|data| - 1], n) + PrizeSum(data[|data| - 1], n)
  {
    if n == 0 {
    } else {
      SumsSplit(data, n - 1);
    }
  }

  lemma {:induction false} SumsAreZero(data: seq<Round>, seats: nat)
    requires forall r {:trigger data[r]} | 0 <= r < |data| :: RoundOk(data[r], seats)
    ensures RankSums(data, seats) == 0
  {
    if data == [] {
      NoRounds(seats);
    } else {
      SumsSplit(data, seats);
      assert RoundOk(data[|data| - 1], seats);
      SumsAreZero(data[..|data| - 1], seats);
    }
  }

  lemma {:induction false} NoRounds(n: nat)
    ensures RankSums([], n) == 0
  {
    if n == 0 {
    } else {
      NoRounds(n - 1);
    }
  }

  lemma {:induction false} TotalIsSums(players: seq<PlayerInfo>, data: seq<Round>, n: nat)
    requires n <= |players| && Scored(players, data)
    ensures RankTotal(players, n) == RankSums(data, n)
  {
    if n == 0 {
    } else {
      TotalIsSums(players, data, n - 1);
    }
  }

  /** However many rounds were played, the ranks of all seats cancel out. */
  lemma RanksSumToZero(players: seq<PlayerInfo>, data: seq<Round>)
    requires Scored(players, data)
    ensures RankTotal(players, |players|) == 0
  {
    TotalIsSums(players, data, |players|);
    SumsAreZero(data, |players|);
  }

  lemma {:induction false} PrizesAre(rules: RoundScoring.Rules, hands: seq<RoundScoring.Hand>, round: Round, n: nat)
    requires |round.datas| == |hands| && n <= |hands|
    requires forall p | 0 <= p < |hands| :: round.datas[p].prize == RoundScoring.Prize(rules, hands, p)
    ensures PrizeSum(round, n) == RoundScoring.TotalPrize(rules, hands, n)
  {
    if n == 0 {
    } else {
      PrizesAre(rules, hands, round, n - 1);
    }
  }

  // ---------------------------------------------------------------- the final count

  datatype FinalCount = FinalCount(cuid: nat, win: nat, daqiang: nat, quanleida: nat, rank: int)

  ghost function RoundsWhere(data: seq<Round>, p: Round -> bool): nat {
    if data == [] then 0
    else RoundsWhere(data[..|data| - 1], p) + if p(data[|data| - 1]) then 1 else 0
  }

  ghost function Won(i: nat): Round -> bool { (r: Round) => PrizeIn(r, i) > 0 }

  /** The seats that seat i shot in a round. */
  ghost function ShotIn(round: Round, i: nat): set<nat> {
    if i < |round.datas| then RoundScoring.ShotEntries(round.datas[i].losers) else {}
  }

  /** Seat i shot at least one other seat; the source keeps only whether, not how many. */
  ghost function ShotSomeone(i: nat): Round -> bool { (r: Round) => ShotIn(r, i) != {} }

  ghost function ShotsTotal(data: seq<Round>, i: nat): nat {
    if data == [] then 0 else ShotsTotal(data[..|data| - 1], i) + |ShotIn(data[|data| - 1], i)|
  }

  ghost function SweptAll(i: nat): Round -> bool { (r: Round) => i < |r.datas| && r.datas[i].quanLeiDa }

  /** What the players are told at the end about seat i. */
  ghost predicate Counted(c: FinalCount, data: seq<Round>, i: nat, cuid: nat) {
    && c.rank == RankSum(data, i) && c.win == RoundsWhere(data, Won(i))
    && c.daqiang == RoundsWhere(data, ShotSomeone(i)) && c.quanleida == RoundsWhere(data, SweptAll(i))
    && c.cuid == if data != [] && i < |data[|data| - 1].cuids| then data[|data| - 1].cuids[i] else cuid
  }

  /** Some entry of seat i's ledger in that round is marked as a shot. */
  ghost predicate Shooting(round: Round, i: nat)
    requires i < |round.datas|
  {
    exists q :: q in round.datas[i].losers && round.datas[i].losers[q].shot != 0
  }

  /** The numbers of a final count, said by rounds. */
  lemma CountedByRounds(c: FinalCount, data: seq<Round>, i: nat, cuid: nat)
    requires Counted(c, data, i, cuid)
    requires forall r | 0 <= r < |data| :: i < |data[r].datas|
    ensures var won := set r | 0 <= r < |data| && data[r].datas[i].prize > 0; c.win == |won|
    ensures var shot := set r | 0 <= r < |data| && Shooting(data[r], i); c.daqiang == |shot|
    ensures var swept := set r | 0 <= r < |data| && data[r].datas[i].quanLeiDa; c.quanleida == |swept|
  {
    RoundsBySet(data, Won(i));
    RoundsBySet(data, ShotSomeone(i));
    RoundsBySet(data, SweptAll(i));
    assert (set r | 0 <= r < |data| && Won(i)(data[r])) == set r | 0 <= r < |data| && data[r].datas[i].prize > 0;
    assert (set r | 0 <= r < |data| && SweptAll(i)(data[r])) == set r | 0 <= r < |data| && data[r].datas[i].quanLeiDa;
    forall r | 0 <= r < |data| ensures ShotSomeone(i)(data[r]) <==> Shooting(data[r], i) {
      var losers := data[r].datas[i].losers;
      assert forall q :: q in RoundScoring.ShotEntries(losers) <==> q in losers && losers[q].shot != 0;
    }
    assert (set r | 0 <= r < |data| && ShotSomeone(i)(data[r])) == set r | 0 <= r < |data| && Shooting(data[r], i);
  }

  lemma {:induction false} RoundsBySet(data: seq<Round>, p: Round -> bool)
    ensures var where := set r | 0 <= r < |data| && p(data[r]); RoundsWhere(data, p) == |where|
  {
    if data == [] {
    } else {
      var n := |data| - 1;
      RoundsBySet(data[..n], p);
      var front := set r | 0 <= r < n && p(data[..n][r]);
      assert (set r | 0 <= r < |data| && p(data[r])) == front + if p(data[n]) then {n} else {};
    }
  }

  method AnyShot(losers: map<nat, RoundScoring.Entry>) returns (any: bool)
    ensures any <==> RoundScoring.ShotEntries(losers) != {}
  {
    any := false;
    var left := losers.Keys;
    while left != {}
      invariant left <= losers.Keys
      invariant any <==> exists q :: q in losers.Keys - left && losers[q].shot != 0
      decreases |left|
    {
      var q :| q in left;
      if losers[q].shot != 0 { any := true; }
      left := left - {q};
    }
    if q :| q in losers && losers[q].shot != 0 { assert q in RoundScoring.ShotEntries(losers); }
  }

  /** So the number reported is the number of shots exactly if no round saw two of them. */
  lemma {:induction false} DaqiangIsShotsIff(data: seq<Round>, i: nat)
    ensures RoundsWhere(data, ShotSomeone(i)) <= ShotsTotal(data, i)
    ensures RoundsWhere(data, ShotSomeone(i)) == ShotsTotal(data, i)
       <==> forall r {:trigger data[r]} | 0 <= r < |data| :: |ShotIn(data[r], i)| <= 1
  {
    hide ShotIn;
    if data == [] {
    } else {
      var front, last := data[..|data| - 1], data[|data| - 1];
      DaqiangIsShotsIff(front, i);
      assert |ShotIn(last, i)| >= if ShotSomeone(i)(last) then 1 else 0;
      assert forall r {:trigger data[r]} | 0 <= r < |front| :: data[r] == front[r];
    }
  }

  /** Two shots in one round are reported as one. */
  lemma TwoShotsCountOnce()
    ensures exists data: seq<Round>, c: FinalCount ::
      Counted(c, data, 0, 0) && c.daqiang == 1 && ShotsTotal(data, 0) == 2
  {
    var strong := RoundScoring.StrongHand();
    var shots := map[1 := RoundScoring.Entry(3, 1), 2 := RoundScoring.Entry(3, 1)];
    var pd := RoundScoring.PlayerData(strong, [2, 2, 2], 12, shots, false);
    var data := [Round([7], [[]], [pd])];
    assert ShotIn(data[0], 0) == {1, 2};
    assert data[..0] == [];
    assert ShotsTotal(data, 0) == 2 && RoundsWhere(data, ShotSomeone(0)) == 1;
    var c := FinalCount(7, RoundsWhere(data, Won(0)), 1, RoundsWhere(data, SweptAll(0)), RankSum(data, 0));
    assert Counted(c, data, 0, 0);
  }

  method AddRound(counts: seq<FinalCount>, round: Round, ghost data: seq<Round>, ghost cuids: seq<nat>)
    returns (r: seq<FinalCount>)
    requires |counts| == |cuids| && RoundOk(round, |counts|)
    requires forall i | 0 <= i < |counts| :: Counted(counts[i], data, i, cuids[i])
    ensures |r| == |counts|
    ensures forall i | 0 <= i < |r| :: Counted(r[i], data + [round], i, cuids[i])
  {
    r := counts;
    for i := 0 to |counts|
      invariant |r| == |counts|
      invariant forall j | 0 <= j < i :: Counted(r[j], data + [round], j, cuids[j])
      invariant forall j | i <= j < |counts| :: r[j] == counts[j]
    {
      var pd, c := round.datas[i], r[i];
      var daqiang := AnyShot(pd.losers);
      r := r[i := FinalCount(round.cuids[i], c.win + (if pd.prize > 0 then 1 else 0),
                             c.daqiang + (if daqiang then 1 else 0), c.quanleida + (if pd.quanLeiDa then 1 else 0),
                             c.rank + pd.prize)];
      CountedMore(c, r[i], data, round, i, cuids[i]);
      hide Counted;
    }
  }

  lemma CountedMore(c: FinalCount, d: FinalCount, data: seq<Round>, round: Round, i: nat, cuid: nat)
    requires Counted(c, data, i, cuid) && i < |round.datas| == |round.cuids|
    requires d.cuid == round.cuids[i] && d.rank == c.rank + round.datas[i].prize
    requires d.win == c.win + if round.datas[i].prize > 0 then 1 else 0
    requires d.daqiang == c.daqiang + if ShotSomeone(i)(round) then 1 else 0
    requires d.quanleida == c.quanleida + if round.datas[i].quanLeiDa then 1 else 0
    ensures Counted(d, data + [round], i, cuid)
  {
    assert (data + [round])[..|data|] == data;
  }

  method CountAll(players: seq<PlayerInfo>, data: seq<Round>) returns (counts: seq<FinalCount>)
    requires Scored(players, data)
    ensures |counts| == |players|
    ensures forall i | 0 <= i < |counts| :: Counted(counts[i], data, i, players[i].cuid)
  {
    hide Counted, RoundOk;
    counts := [];
    ghost var cuids := seq(|players|, i requires 0 <= i < |players| => players[i].cuid);
    for i := 0 to |players|
      invariant |counts| == i && forall j | 0 <= j < i :: Counted(counts[j], [], j, cuids[j])
    {
      NothingCounted(i, players[i].cuid);
      counts := counts + [FinalCount(players[i].cuid, 0, 0, 0, 0)];
    }
    for r := 0 to |data|
      invariant |counts| == |players|
      invariant forall j | 0 <= j < |counts| :: Counted(counts[j], data[..r], j, cuids[j])
    {
      assert data[..r + 1] == data[..r] + [data[r]];
      counts := AddRound(counts, data[r], data[..r], cuids);
    }
    assert data[..|data|] == data;
  }

  lemma NothingCounted(i: nat, cuid: nat)
    ensures Counted(FinalCount(cuid, 0, 0, 0, 0), [], i, cuid)
  {}

  // ---------------------------------------------------------------- who pays

  predicate Descending(s: seq<FinalCount>) { forall i, j | 0 <= i < j < |s| :: s[i].rank >= s[j].rank }

  lemma InsertKeeps(s: seq<FinalCount>, k: nat, c: FinalCount)
    requires Descending(s) && k <= |s|
    requires (forall j | 0 <= j < k :: s[j].rank >= c.rank) && (k < |s| ==> s[k].rank < c.rank)
    ensures Descending(s[..k] + [c] + s[k..])
  {
    var t := s[..k] + [c] + s[k..];
    forall i, j | 0 <= i < j < |t| ensures t[i].rank >= t[j].rank {
      assert j < k ==> t[i] == s[i] && t[j] == s[j];
      assert i > k ==> t[i] == s[i - 1] && t[j] == s[j - 1];
    }
  }

  lemma InsertElements(s: seq<FinalCount>, k: nat, c: FinalCount)
    requires k <= |s|
    ensures multiset(s[..k] + [c] + s[k..]) == multiset(s) + multiset{c}
  {
    assert s == s[..k] + s[k..];
  }

  method PlaceByRank(s: seq<FinalCount>, c: FinalCount) returns (r: seq<FinalCount>)
    requires Descending(s)
    ensures Descending(r) && multiset(r) == multiset(s) + multiset{c} && |r| == |s| + 1
  {
    var k := 0;
    while k < |s| && s[k].rank >= c.rank
      invariant k <= |s| && forall j | 0 <= j < k :: s[j].rank >= c.rank
    {
      k := k + 1;
    }
    InsertKeeps(s, k, c);
    InsertElements(s, k, c);
    r := s[..k] + [c] + s[k..];
  }

  /** std::sort by rank, highest first; of its result only order and contents are promised. */
  method SortByRank(counts: seq<FinalCount>) returns (s: seq<FinalCount>)
    ensures Descending(s) && multiset(s) == multiset(counts) && |s| == |counts|
  {
    s := [];
    assert Descending(s);
    hide Descending;
    for i := 0 to |counts|
      invariant |s| == i && Descending(s) && multiset(s) == multiset(counts[..i])
    {
      assert counts[..i + 1] == counts[..i] + [counts[i]];
      s := PlaceByRank(s, counts[i]);
    }
    assert counts[..|counts|] == counts;
  }

  /** The charged seats are exactly those whose rank no seat exceeds. */
  ghost predicate TopGroup(charged: seq<FinalCount>, counts: seq<FinalCount>) {
    && charged != []
    && (forall c | c in multiset(charged) :: forall d | d in multiset(counts) :: d.rank <= c.rank)
    && (forall c | c in multiset(counts) && (forall d | d in multiset(counts) :: d.rank <= c.rank) ::
          multiset(charged)[c] == multiset(counts)[c])
    && multiset(charged) <= multiset(counts)
  }

  lemma PrefixIsTop(s: seq<FinalCount>, k: nat, counts: seq<FinalCount>)
    requires 0 < k <= |s| && Descending(s) && multiset(s) == multiset(counts)
    requires s[k - 1].rank == s[0].rank && (k < |s| ==> s[k].rank < s[0].rank)
    ensures TopGroup(s[..k], counts)
  {
    var top, rest := s[..k], s[k..];
    assert s == top + rest;
    forall c: FinalCount | c in multiset(top) ensures c.rank == s[0].rank {
      var i :| 0 <= i < k && top[i] == c;
      assert s[i].rank >= s[k - 1].rank;
    }
    forall c: FinalCount | c in multiset(rest) ensures c.rank < s[0].rank {
      var i :| 0 <= i < |rest| && rest[i] == c;
      assert s[k].rank >= s[k + i].rank;
    }
    assert s[0] in multiset(counts);
    assert top[0] in multiset(top);
  }

  lemma SharesFit(price: nat, k: nat)
    requires k > 0
    ensures price - k < k * (price / k) <= price
  {
    assert price == k * (price / k) + price % k;
  }

  lemma TimesAtLeast(k: nat, q: nat)
    requires k > 0
    ensures k * q >= q
  {
    assert k * q == q + (k - 1) * q;
  }

  lemma QuotientBelow(bill: nat, k: nat)
    requires k > 0
    ensures 0 <= bill / k <= bill
  {
    SharesFit(bill, k);
    TimesAtLeast(k, bill / k);
  }

  lemma UnsignedShare(bill: int, k: nat)
    requires k > 0 && 0 <= bill < 0x8000_0000
    ensures RoundScoring.ToInt32(RoundScoring.ToUint32(bill) / k) == bill / k
  {
    assert RoundScoring.ToUint32(bill) == bill;
    QuotientBelow(bill, k);
    SmallSigned(bill / k);
  }

  lemma SmallSigned(x: nat)
    requires x < 0x8000_0000
    ensures RoundScoring.ToInt32(x) == x
  {}

  /** The seats of highest rank, found behind a descending sort. */
  method BigWinners(counts: seq<FinalCount>) returns (charged: seq<FinalCount>)
    requires counts != []
    ensures TopGroup(charged, counts)
  {
    var s := SortByRank(counts);
    var last, i := 0, 1;
    while i < |s|
      invariant 1 <= i <= |s| && last == i - 1 && s[last].rank == s[0].rank
    {
      hide Descending;
      if s[last].rank > s[i].rank { break; }
      FirstIsHighest(s, i);
      last := i;
      i := i + 1;
    }
    hide Descending, TopGroup;
    PrefixIsTop(s, last + 1, counts);
    charged := s[..last + 1];
  }

  lemma FirstIsHighest(s: seq<FinalCount>, i: nat)
    requires Descending(s) && i < |s|
    ensures s[i].rank <= s[0].rank
  {}

  /** The bill of a room whose winners pay: split evenly, rounded down, among the seats of highest rank.
      The division is unsigned. */
  method ChargeWinners(counts: seq<FinalCount>, bill: int) returns (charged: seq<FinalCount>, price: int)
    requires counts != []
    ensures TopGroup(charged, counts)
    ensures 0 <= bill < 0x8000_0000 ==> bill - |charged| < |charged| * price <= bill
  {
    charged := BigWinners(counts);
    TopGroupNonempty(charged, counts);
    hide TopGroup;
    price := RoundScoring.ToInt32(RoundScoring.ToUint32(bill) / |charged|);
    if 0 <= bill < 0x8000_0000 {
      UnsignedShare(bill, |charged|);
      hide RoundScoring.ToInt32, RoundScoring.ToUint32;
      SharesFit(bill, |charged|);
    }
  }

  lemma TopGroupNonempty(charged: seq<FinalCount>, counts: seq<FinalCount>)
    requires TopGroup(charged, counts)
    ensures |charged| > 0
  {}

  // ---------------------------------------------------------------- the room

  ghost predicate SeatsOk(attr: Attr, players: seq<PlayerInfo>) {
    |players| == attr.playerSize && forall i {:trigger players[i]} | 0 <= i < |players| :: SeatOk(players[i])
  }

  /** A hand not laid out yet is still sorted, and a hand laid out as special holds no joker. */
  ghost predicate SeatOk(p: PlayerInfo) {
    && |p.cards| == HAND
    && (p.status.Arranging? ==> Sorted(p.cards))
    && (p.status.Compare? && p.special ==> HandRanking.Ordinary(p.cards))
  }

  lemma FullHands(attr: Attr, players: seq<PlayerInfo>)
    requires SeatsOk(attr, players)
    ensures forall i | 0 <= i < |players| :: |players[i].cards| == HAND
  {}

  ghost predicate AttrOk(attr: Attr) {
    MIN_PLAYERS <= attr.playerSize <= MAX_PLAYERS && LegalSuits(attr.playerSize, attr.suits)
  }

  function FullDeck(attr: Attr): seq<int> { DeckOf(attr.playerSize, attr.withGhost, attr.suits) }

  /** No allowed room deals past the end of its deck, whoever watches. */
  lemma NeverPastTheDeck(attr: Attr, players: seq<PlayerInfo>, deck: seq<Card>)
    requires AttrOk(attr) && SeatsOk(attr, players) && multiset(deck) == multiset(FullDeck(attr))
    ensures CardsDealt(players, HAND, |players|) <= |deck|
  {
    AtMostAll(players, |players|);
    DeckSuffices(attr.playerSize, attr.withGhost, attr.suits);
    assert |deck| == |multiset(deck)| == |multiset(FullDeck(attr))| == |FullDeck(attr)|;
  }

  /** How many of the first n seats are taken by somebody who plays. */
  function ValidSeats(players: seq<PlayerInfo>, n: nat): (k: nat)
    requires n <= |players|
    ensures k <= Dealt(players, n)
  {
    if n == 0 then 0 else ValidSeats(players, n - 1) + if players[n - 1].Valid() then 1 else 0
  }

  method CountValid(players: seq<PlayerInfo>) returns (k: nat)
    ensures k == ValidSeats(players, |players|)
  {
    k := 0;
    for i := 0 to |players|
      invariant k == ValidSeats(players, i)
    {
      if players[i].Valid() { k := k + 1; }
    }
  }

  /** Before the first round every seat must be taken, ready and online, since the fee is due; between
      rounds whoever plays must be ready or still be comparing. */
  ghost predicate MayStart(players: seq<PlayerInfo>, status: GameStatus, online: set<nat>) {
    match status
    case QuickStart => true
    case Prepare =>
      forall i | 0 <= i < |players| ::
        players[i].cuid != 0 && players[i].status == Ready && players[i].cuid in online
    case Settle =>
      forall i | 0 <= i < |players| && players[i].cuid != 0 ::
        players[i].status == Witness || players[i].status == Compare || players[i].status == Ready
    case _ => false
  }

  /** The next five cards for every seat taken by somebody who plays, kept for the second deal. */
  method SetAside(players: seq<PlayerInfo>, deck: seq<Card>, from: nat) returns (rest: seq<Card>)
    requires from + 5 * ValidSeats(players, |players|) <= |deck|
    ensures rest == deck[from..from + 5 * ValidSeats(players, |players|)]
  {
    var valid := CountValid(players);
    rest := [];
    var index := from;
    for i := 0 to valid * 5
      invariant index == from + i && rest == deck[from..index]
    {
      rest := rest + [deck[index]];
      index := index + 1;
    }
  }

  /** A deal into a room: it stays inside the deck and keeps the seats in order. */
  method DealRoom(attr: Attr, players: seq<PlayerInfo>, deck: seq<Card>, size: nat, next: SeatStatus,
                  ghost data: seq<Round>) returns (r: seq<PlayerInfo>, index: nat)
    requires SeatsOk(attr, players) && Scored(players, data) && size <= HAND && !next.Compare?
    requires CardsDealt(players, HAND, |players|) <= |deck|
    ensures |r| == |players| && DealtAs(players, deck, size, next, r) && SeatsOk(attr, r) && Scored(r, data)
    ensures index == CardsDealt(players, size, |players|)
  {
    FullHands(attr, players);
    SmallerHands(players, size, |players|);
    hide SeatsOk, Scored, CardsDealt, DealtAs;
    r, index := DealHands(players, deck, size, next);
    DealKeepsSeats(attr, players, deck, size, next, r, data);
  }

  /** Behind the eight cards of every seat that does not watch, five more for every player, all from the deck. */
  ghost predicate PutAside(players: seq<PlayerInfo>, dealt: seq<PlayerInfo>, deck: seq<Card>, before: seq<Card>,
                           after: seq<Card>)
  {
    |dealt| == |players| &&
    var index, n := CardsDealt(players, 8, |players|), 5 * ValidSeats(dealt, |dealt|);
    index + n <= |deck| && after == before + deck[index..index + n]
  }

  /** Eight cards for every seat that does not watch, and the cards put aside behind them. */
  method DealForBids(attr: Attr, players: seq<PlayerInfo>, deck: seq<Card>, ghost data: seq<Round>)
    returns (r: seq<PlayerInfo>, rest: seq<Card>)
    requires SeatsOk(attr, players) && Scored(players, data)
    requires CardsDealt(players, HAND, |players|) <= |deck|
    ensures |r| == |players| && DealtAs(players, deck, 8, Bidding, r) && SeatsOk(attr, r) && Scored(r, data)
    ensures PutAside(players, r, deck, [], rest)
  {
    hide SeatsOk, Scored, DealtAs, CardsDealt, ValidSeats;
    var index;
    r, index := DealRoom(attr, players, deck, 8, Bidding, data);
    ValidSeatsBound(players, deck, Bidding, r);
    rest := SetAside(r, deck, index);
    assert [] + rest == rest;
  }

  lemma PutAsideAfter(players: seq<PlayerInfo>, dealt: seq<PlayerInfo>, deck: seq<Card>, before: seq<Card>,
                      rest: seq<Card>)
    requires PutAside(players, dealt, deck, [], rest)
    ensures PutAside(players, dealt, deck, before, before + rest)
  {
    hide CardsDealt, ValidSeats;
    var index := CardsDealt(players, 8, |players|);
    assert rest == deck[index..index + 5 * ValidSeats(dealt, |dealt|)];
  }

  class Game {
    const attr: Attr
    var players: seq<PlayerInfo>
    var status: GameStatus
    var rounds: int
    var settleData: seq<Round>
    var remainBrands: seq<Card>
    ghost var deck: seq<Card>
    ghost var slots: seq<nat>

    /** Hands match the deal while a round is played, and ranks match the rounds recorded. */
    ghost predicate Valid()
      reads this
    {
      && AttrOk(attr) && SeatsOk(attr, players) && Scored(players, settleData)
      && (status.Play? && !attr.banker ==> TableDealt(players, deck, slots))
    }

    /** What a hand holds before the first deal is not initialised in the source; here it is any thirteen cards. */
    constructor (attr: Attr, blank: Layout)
      requires AttrOk(attr)
      ensures Valid() && this.attr == attr && status == Prepare && settleData == []
      ensures rounds == 0 && remainBrands == [] && |players| == attr.playerSize
      ensures forall i | 0 <= i < |players| :: players[i].cuid == players[i].rank == 0 && players[i].status == Prep
    {
      this.attr := attr;
      players := seq(attr.playerSize, i => PlayerInfo(0, Prep, 0, false, blank));
      status, rounds, settleData, remainBrands := Prepare, 0, [], [];
      deck, slots := [], [];
    }

    /** A player takes an empty seat: to play if the game has not begun, otherwise to watch. */
    method Sit(i: nat, cuid: nat)
      requires Valid() && i < |players| && players[i].cuid == 0
      modifies `players
      ensures Valid() && |players| == |old(players)|
      ensures players[i].cuid == cuid && (players[i].status.Prep? <==> rounds == 0 && status.Prepare?)
      ensures players[i].rank == old(players)[i].rank && players[i].cards == old(players)[i].cards
      ensures forall j | 0 <= j < |players| && j != i :: players[j] == old(players)[j]
    {
      var seat := if rounds == 0 && status.Prepare? then Prep else Witness;
      players := players[i := players[i].(cuid := cuid, status := seat)];
      if status.Play? && !attr.banker { WatcherKeepsTable(old(players), players, deck, slots, i); }
    }

    method ReadyToStart(online: set<nat>) returns (ready: bool)
      ensures ready <==> MayStart(players, status, online)
    {
      if status.Prepare? {
        for i := 0 to |players|
          invariant MayStart(players[..i], status, online)
        {
          if players[i].cuid == 0 || !players[i].status.Ready? || players[i].cuid !in online { return false; }
        }
      } else if !status.QuickStart? {
        if !status.Settle? { return false; }
        for i := 0 to |players|
          invariant MayStart(players[..i], status, online)
        {
          if players[i].Valid() && !players[i].status.Compare? && !players[i].status.Ready? { return false; }
        }
      }
      ready := true;
    }

    /** The deal of ordinary play: thirteen cards to every seat that does not watch. */
    method DealAll(shuffled: seq<Card>)
      requires Valid() && !attr.banker && CardsDealt(players, HAND, |players|) <= |shuffled|
      modifies `players, `status, `deck, `slots
      ensures Valid() && status == Play && deck == shuffled && TableDealt(players, deck, slots)
      ensures |players| == |old(players)| && DealtAs(old(players), shuffled, HAND, Arranging, players)
    {
      hide AttrOk, SeatsOk, Scored, TableDealt, DealtAs, CardsDealt;
      ghost var before := players;
      var dealt, index := DealRoom(attr, players, shuffled, HAND, Arranging, settleData);
      DealMakesTable(attr, before, shuffled, dealt, Arranging);
      players, status, deck, slots := dealt, Play, shuffled, Slots(before);
    }

    /** The first deal when a banker is chosen: eight cards each, the rest of the hands put aside. */
    method DealEight(shuffled: seq<Card>)
      requires Valid() && attr.banker && CardsDealt(players, HAND, |players|) <= |shuffled|
      modifies `players, `status, `remainBrands
      ensures Valid() && status == SelBanker && |players| == |old(players)|
      ensures DealtAs(old(players), shuffled, 8, Bidding, players)
      ensures PutAside(old(players), players, shuffled, old(remainBrands), remainBrands)
    {
      hide AttrOk, SeatsOk, Scored, TableDealt, DealtAs, CardsDealt, ValidSeats, PutAside;
      var dealt, rest := DealForBids(attr, players, shuffled, settleData);
      PutAsideAfter(players, dealt, shuffled, remainBrands, rest);
      players, status, remainBrands := dealt, SelBanker, remainBrands + rest;
    }

    /** Start a round from a shuffled deck once everybody is ready. */
    method TryStartRound(online: set<nat>, shuffled: seq<Card>) returns (started: bool)
      requires Valid() && multiset(shuffled) == multiset(FullDeck(attr))
      modifies this
      ensures Valid() && |players| == |old(players)| && settleData == old(settleData)
      ensures started <==> MayStart(old(players), old(status), online)
      ensures !started ==> players == old(players) && status == old(status) && rounds == old(rounds)
      ensures started ==>
        && rounds == old(rounds) + 1
        && if attr.banker then status == SelBanker && DealtAs(old(players), shuffled, 8, Bidding, players)
           else status == Play && DealtAs(old(players), shuffled, HAND, Arranging, players)
      ensures started && !attr.banker ==> deck == shuffled && TableDealt(players, deck, slots)
      ensures started && attr.banker ==> PutAside(old(players), players, shuffled, old(remainBrands), remainBrands)
    {
      hide AttrOk, SeatsOk, Scored, TableDealt, DealtAs, CardsDealt, ValidSeats, MayStart, PutAside, FullDeck;
      NeverPastTheDeck(attr, players, shuffled);
      started := ReadyToStart(online);
      if !started { return; }
      rounds := rounds + 1;
      if attr.banker { DealEight(shuffled); } else { DealAll(shuffled); }
    }

    /** A player lays out the hand.  It is taken exactly if the numbers sent, cut to 16 bits, are the dealt cards in
        some order and make allowed rows; a refusal changes nothing. */
    method BringOut(i: nat, sent: seq<int>, special: bool, judge: Judge) returns (ok: bool)
      requires Valid() && i < |players|
      modifies `players
      ensures Valid() && |players| == |old(players)|
      ensures ok <==> status.Play? && old(players)[i].status.Arranging? && exists h: Layout ::
        SentAs(sent, h) && multiset(h) == multiset(old(players)[i].cards) && Allowed(h, special, judge)
      ensures ok ==> SentAs(sent, players[i].cards)
      ensures players == if ok
        then old(players)[i := old(players)[i].(status := Compare, cards := players[i].cards, special := special)]
        else old(players)
    {
      var p := players[i];
      assert SeatOk(p);
      ghost var before := players;
      hide TableDealt, Scored, Sorted, Allowed, SeatsOk, AttrOk;
      if !status.Play? || !p.status.Arranging? || |sent| != HAND { return false; }
      var tmp := Narrowed(sent);
      NarrowedIsSent(sent);
      var same := SameCards(tmp, p.cards);
      if !same { return false; }
      CardsOfHand(tmp, p.cards);
      var laid: Layout := tmp;
      ok := CheckRows(laid, special, judge);
      if !ok { return; }
      players := players[i := p.(status := Compare, cards := laid, special := special)];
      SpecialIsOrdinary(laid, judge);
      LayingOutKeepsSeats(attr, before, players, settleData, i);
      if !attr.banker { LayingOutKeepsTable(before, players, deck, slots, i); }
    }

    /** Every seat that plays has laid out its hand and is online. */
    method AllLaidOut(online: set<nat>) returns (all: bool)
      ensures all <==> forall i | 0 <= i < |players| && players[i].Valid() ::
        players[i].status.Compare? && players[i].cuid in online
    {
      for i := 0 to |players|
        invariant forall j | 0 <= j < i && players[j].Valid() ::
          players[j].status.Compare? && players[j].cuid in online
      {
        if players[i].Valid() && (!players[i].status.Compare? || players[i].cuid !in online) { return false; }
      }
      all := true;
    }

    /** Settle the round once every hand is laid out.  All seats are evaluated, the watching and the empty ones
        included. */
    method TrySettleGame(online: set<nat>, judge: Judge) returns (settled: bool)
      requires Valid()
      modifies `players, `status, `settleData
      ensures Valid() && |players| == |old(players)|
      ensures settled <==> old(status).Play? && forall i | 0 <= i < |players| && old(players)[i].Valid() ::
        old(players)[i].status.Compare? && old(players)[i].cuid in online
      ensures !settled ==> players == old(players) && status == old(status) && settleData == old(settleData)
      ensures settled ==>
        && status == Settle && |settleData| == |old(settleData)| + 1
        && settleData[..|old(settleData)|] == old(settleData)
        && var hands := HandsLaidOut(old(players), judge, attr.maPai);
           && forall i | 0 <= i < |players| ::
             && PrizeIn(settleData[|old(settleData)|], i) == RoundScoring.Prize(attr.rules, hands, i)
             && ShotIn(settleData[|old(settleData)|], i) == RoundScoring.ShotBy(attr.rules, hands, i)
             && players[i].rank == old(players)[i].rank + RoundScoring.Prize(attr.rules, hands, i)
             && players[i].cards == old(players)[i].cards && players[i].cuid == old(players)[i].cuid
             && players[i].status == (if old(players)[i].Valid() then Prep else old(players)[i].status)
      ensures settled ==>
        RoundRecords(attr.rules, HandsLaidOut(old(players), judge, attr.maPai), old(players),
                     settleData[|old(settleData)|])
    {
      if !status.Play? { return false; }
      settled := AllLaidOut(online);
      if !settled { return; }
      var hands := EvaluateSeats(players, judge, attr.maPai);
      var datas := RoundScoring.CalcRound(attr.rules, hands);
      hide RoundScoring.Prize, RoundScoring.CellAt, RoundScoring.RowsAt, RoundScoring.ShotBy, RoundScoring.ShotEntries;
      var r, round := Credit(players, datas);
      Recorded(attr.rules, hands, players, settleData, r, round);
      RecordsAll(attr.rules, hands, players, round);
      hide TableDealt, Scored, AttrOk, RoundRecords;
      players, settleData, status := r, settleData + [round], Settle;
    }

    /** Once all rounds are played: the totals of every seat, and who is charged how much when winners pay. */
    method TrySettleAll() returns (counts: seq<FinalCount>, charged: seq<FinalCount>, price: int)
      requires Valid()
      modifies `status
      ensures Valid()
      ensures old(status).Settle? && rounds >= attr.rounds ==>
        && status == SettleAll && |counts| == |players|
        && (forall i | 0 <= i < |counts| ::
              Counted(counts[i], settleData, i, players[i].cuid) && counts[i].rank == players[i].rank)
        && (attr.payor == PAY_WINNER ==>
              && TopGroup(charged, counts)
              && var bill := attr.playerPrice * attr.playerSize;
                 0 <= bill < 0x8000_0000 ==> bill - |charged| < |charged| * price <= bill)
        && (attr.payor != PAY_WINNER ==> charged == [] && price == 0)
      ensures !(old(status).Settle? && rounds >= attr.rounds) ==> status == old(status) && charged == []
    {
      counts, charged, price := [], [], 0;
      if !status.Settle? || rounds < attr.rounds { return; }
      counts := CountAll(players, settleData);
      hide TopGroup;
      if attr.payor == PAY_WINNER {
        charged, price := ChargeWinners(counts, attr.playerPrice * attr.playerSize);
      }
      status := SettleAll;
    }
  }

  /** What a settled round keeps of every seat: who sat there with which cards, the hand made of them, whether it swept
      the table, and its totals of the three rows. */
  ghost predicate RoundRecords(rules: RoundScoring.Rules, hands: seq<RoundScoring.Hand>, players: seq<PlayerInfo>,
                               round: Round)
  {
    && |round.cuids| == |round.cards| == |round.datas| == |players| == |hands|
    && forall i | 0 <= i < |players| ::
      && round.cuids[i] == players[i].cuid && round.cards[i] == players[i].cards
      && round.datas[i].hand == hands[i] && round.datas[i].quanLeiDa == RoundScoring.Sweeps(rules, hands, i)
      && |round.datas[i].dunPrize| == 3
      && forall z | 0 <= z < 3 :: round.datas[i].dunPrize[z] == RoundScoring.RowTotal(hands, i, z, |hands|)
  }

  lemma RecordsAll(rules: RoundScoring.Rules, hands: seq<RoundScoring.Hand>, players: seq<PlayerInfo>, round: Round)
    requires |round.cuids| == |round.cards| == |round.datas| == |players| == |hands|
    requires forall i | 0 <= i < |players| ::
      && round.cuids[i] == players[i].cuid && round.cards[i] == players[i].cards && round.datas[i].hand == hands[i]
      && round.datas[i].quanLeiDa == RoundScoring.Sweeps(rules, hands, i)
    requires RoundScoring.RowsAt(hands, round.datas, |hands|, |hands|)
    ensures RoundRecords(rules, hands, players, round)
  {
    hide RoundScoring.Sweeps, RoundScoring.RowTotal;
  }

  /** Enter a settled round into the seats, and record it. */
  method Credit(players: seq<PlayerInfo>, datas: seq<RoundScoring.PlayerData>)
    returns (r: seq<PlayerInfo>, round: Round)
    requires |datas| == |players|
    ensures |r| == |players| && |round.cuids| == |round.cards| == |players| && round.datas == datas
    ensures forall i | 0 <= i < |players| ::
      && r[i] == players[i].(rank := players[i].rank + datas[i].prize,
                             status := if players[i].Valid() then Prep else players[i].status)
      && round.cuids[i] == players[i].cuid && round.cards[i] == players[i].cards
  {
    r := players;
    var cuids, cards: seq<seq<Card>> := [], [];
    for i := 0 to |players|
      invariant |r| == |players| && |cuids| == |cards| == i
      invariant forall j | i <= j < |players| :: r[j] == players[j]
      invariant forall j | 0 <= j < i ::
        && r[j] == players[j].(rank := players[j].rank + datas[j].prize,
                               status := if players[j].Valid() then Prep else players[j].status)
        && cuids[j] == players[j].cuid && cards[j] == players[j].cards
    {
      var p := players[i];
      cuids, cards := cuids + [p.cuid], cards + [p.cards];
      r := r[i := p.(rank := p.rank + datas[i].prize, status := if p.Valid() then Prep else p.status)];
    }
    round := Round(cuids, cards, datas);
  }

  lemma Recorded(rules: RoundScoring.Rules, hands: seq<RoundScoring.Hand>, players: seq<PlayerInfo>, data: seq<Round>,
                 r: seq<PlayerInfo>, round: Round)
    requires Scored(players, data) && |r| == |players| == |hands| == |round.datas| == |round.cuids| == |round.cards|
    requires forall i | 0 <= i < |hands| :: round.datas[i].prize == RoundScoring.Prize(rules, hands, i)
    requires forall i | 0 <= i < |r| :: r[i].rank == players[i].rank + round.datas[i].prize
    ensures Scored(r, data + [round])
  {
    hide RoundScoring.Prize;
    PrizesAre(rules, hands, round, |hands|);
    RoundScoring.ZeroSum(rules, hands);
    assert RoundOk(round, |r|);
    assert (data + [round])[..|data|] == data;
  }

  /** The cards a message stands for: each number is kept in 16 bits. */
  ghost predicate SentAs(sent: seq<int>, h: seq<Card>) {
    |h| == |sent| && forall k | 0 <= k < |h| :: h[k] == sent[k] % 0x1_0000
  }

  function Narrowed(sent: seq<int>): (s: seq<int>)
    ensures |s| == |sent|
  {
    seq(|sent|, k requires 0 <= k < |sent| => sent[k] % 0x1_0000)
  }

  lemma NarrowedIsSent(sent: seq<int>)
    ensures forall h: seq<Card> {:trigger SentAs(sent, h)} :: SentAs(sent, h) ==> h == Narrowed(sent)
  {}

  lemma CardsOfHand(s: seq<int>, hand: seq<Card>)
    requires multiset(s) == multiset(hand)
    ensures |s| == |hand| && forall k | 0 <= k < |s| :: 1 <= s[k] <= 54
  {
    assert |multiset(s)| == |s| && |multiset(hand)| == |hand|;
    forall k | 0 <= k < |s| ensures 1 <= s[k] <= 54 { assert s[k] in multiset(hand); }
  }

  /** Whether the cards, once sorted, are the hand. */
  method SameCards(cards: seq<int>, hand: seq<Card>) returns (same: bool)
    requires |cards| == |hand| && Sorted(hand)
    ensures same <==> multiset(cards) == multiset(hand)
  {
    var tmp := SortInts(cards);
    SortIntsSorts(cards);
    if multiset(cards) == multiset(hand) { SortedIsSortInts(cards, hand); }
    for k := 0 to |tmp|
      invariant tmp[..k] == hand[..k]
    {
      if tmp[k] != hand[k] { return false; }
    }
    assert tmp == tmp[..|tmp|] && hand == hand[..|hand|];
    same := true;
  }

  method CheckRows(h: Layout, special: bool, judge: Judge) returns (ok: bool)
    ensures ok <==> Allowed(h, special, judge)
  {
    var c := new Card[HAND](k requires 0 <= k < HAND => h[k]);
    assert c[..] == h;
    ok := MayBringOut(c, special, judge);
  }

  lemma SpecialIsOrdinary(h: Layout, judge: Judge)
    ensures Allowed(h, true, judge) ==> HandRanking.Ordinary(h)
  {}

  // ---------------------------------------------------------------- the hands laid out

  ghost function Layouts(players: seq<PlayerInfo>): (hs: seq<Layout>)
    requires forall i | 0 <= i < |players| :: |players[i].cards| == HAND
    ensures |hs| == |players|
  {
    seq(|players|, i requires 0 <= i < |players| => players[i].cards)
  }

  ghost function Declared(players: seq<PlayerInfo>): (ds: seq<bool>)
    ensures |ds| == |players|
  {
    seq(|players|, i requires 0 <= i < |players| => players[i].special)
  }

  /** The hands a round compares, made of the cards in the seats. */
  ghost function HandsLaidOut(players: seq<PlayerInfo>, judge: Judge, maPai: int): (hands: seq<RoundScoring.Hand>)
    requires forall i | 0 <= i < |players| :: |players[i].cards| == HAND
    ensures |hands| == |players|
  {
    Table(Layouts(players), Declared(players), judge, maPai)
  }

  method EvaluateSeats(players: seq<PlayerInfo>, judge: Judge, maPai: int) returns (hands: seq<RoundScoring.Hand>)
    requires forall i | 0 <= i < |players| :: |players[i].cards| == HAND
    ensures hands == HandsLaidOut(players, judge, maPai)
  {
    hide Evaluated, AfterRows;
    hands := [];
    for i := 0 to |players|
      invariant |hands| == i
      invariant forall j | 0 <= j < i :: hands[j] == Evaluated(players[j].cards, players[j].special, judge, maPai)
    {
      var h: Layout := players[i].cards;
      var c := new Card[HAND](k requires 0 <= k < HAND => h[k]);
      assert c[..] == h;
      var hand := EvaluateSeat(c, players[i].special, judge, maPai);
      hands := hands + [hand];
    }
  }

  /** The order in which players laid out the cards within their rows changes nobody's prize. */
  lemma {:induction false} SettlementIgnoresRowOrder(attr: Attr, players: seq<PlayerInfo>, others: seq<PlayerInfo>,
                                                     judge: Judge, p: nat)
    requires p < |players|
    requires SeatsOk(attr, players) && SeatsOk(attr, others)
    requires forall i | 0 <= i < |players| && others[i] != players[i] ::
      && players[i].status.Compare? && others[i] == players[i].(cards := others[i].cards)
      && SameRows(players[i].cards, others[i].cards)
    ensures RoundScoring.Prize(attr.rules, HandsLaidOut(players, judge, attr.maPai), p)
         == RoundScoring.Prize(attr.rules, HandsLaidOut(others, judge, attr.maPai), p)
  {
    hide Evaluated, SameRows, HandRanking.Ordinary, RoundScoring.Prize, Sorted;
    forall i | 0 <= i < |players|
      ensures HandsLaidOut(players, judge, attr.maPai)[i] == HandsLaidOut(others, judge, attr.maPai)[i]
    {
      if others[i] != players[i] {
        EvaluationIgnoresRowOrder(players[i].cards, others[i].cards, players[i].special, judge, attr.maPai);
      }
    }
    assert HandsLaidOut(players, judge, attr.maPai) == HandsLaidOut(others, judge, attr.maPai);
  }

  lemma LayingOutKeepsSeats(attr: Attr, players: seq<PlayerInfo>, players': seq<PlayerInfo>, data: seq<Round>, i: nat)
    requires SeatsOk(attr, players) && Scored(players, data) && i < |players| && |players'| == |players|
    requires players' == players[i := players'[i]] && players'[i].rank == players[i].rank && SeatOk(players'[i])
    ensures SeatsOk(attr, players') && Scored(players', data)
  {
    hide SeatOk, RankSum;
  }

  lemma LayingOutKeepsTable(players: seq<PlayerInfo>, players': seq<PlayerInfo>, deck: seq<Card>, slots: seq<nat>,
                            i: nat)
    requires TableDealt(players, deck, slots) && i < |players| && |players'| == |players|
    requires players' == players[i := players'[i]] && !players[i].status.Witness? && players'[i].status.Compare?
    requires |players'[i].cards| == HAND && multiset(players'[i].cards) == multiset(players[i].cards)
    ensures TableDealt(players', deck, slots)
  {
    forall j | 0 <= j < |players'| && !players'[j].status.Witness? ensures HandFits(players'[j], deck, slots[j]) {
      assert HandFits(players[j], deck, slots[j]);
    }
  }

  lemma WatcherKeepsTable(players: seq<PlayerInfo>, players': seq<PlayerInfo>, deck: seq<Card>, slots: seq<nat>, i: nat)
    requires TableDealt(players, deck, slots) && i < |players|
    requires |players'| == |players| && players' == players[i := players'[i]] && players'[i].status.Witness?
    ensures TableDealt(players', deck, slots)
  {
    hide HandFits;
    forall j | 0 <= j < |players'| && !players'[j].status.Witness? ensures HandFits(players'[j], deck, slots[j]) {
      assert HandFits(players[j], deck, slots[j]);
    }
  }

  lemma DealtSeat(players: seq<PlayerInfo>, deck: seq<Card>, size: nat, next: SeatStatus, i: nat)
    requires i < |players| && size <= HAND && SeatOk(players[i]) && !next.Compare?
    requires CardsDealt(players, size, |players|) <= |deck|
    ensures SeatOk(AfterDeal(players, deck, size, next, i))
    ensures AfterDeal(players, deck, size, next, i).rank == players[i].rank
  {
    hide Sorted, CardsDealt;
    if !players[i].status.Witness? { SortIntsSorts(Share(players, deck, size, i) + players[i].cards[size..]); }
  }

  lemma DealKeepsSeats(attr: Attr, players: seq<PlayerInfo>, deck: seq<Card>, size: nat, next: SeatStatus,
                       r: seq<PlayerInfo>, data: seq<Round>)
    requires SeatsOk(attr, players) && Scored(players, data) && size <= HAND && !next.Compare?
    requires DealtAs(players, deck, size, next, r)
    ensures SeatsOk(attr, r) && Scored(r, data)
  {
    hide SeatOk, AfterDeal, CardsDealt, RankSum;
    forall i | 0 <= i < |r| ensures SeatOk(r[i]) && r[i].rank == players[i].rank {
      DealtSeat(players, deck, size, next, i);
    }
  }

  lemma {:induction false} AsideFits(players: seq<PlayerInfo>, r: seq<PlayerInfo>, n: nat)
    requires n <= |players| == |r| && forall i | 0 <= i < |r| :: r[i].status.Witness? == players[i].status.Witness?
    ensures CardsDealt(players, 8, n) + 5 * ValidSeats(r, n) <= CardsDealt(players, HAND, n)
  {
    if n == 0 {
    } else {
      AsideFits(players, r, n - 1);
    }
  }

  lemma ValidSeatsBound(players: seq<PlayerInfo>, deck: seq<Card>, next: SeatStatus, r: seq<PlayerInfo>)
    requires !next.Witness? && CardsDealt(players, HAND, |players|) <= |deck|
    requires DealtAs(players, deck, 8, next, r)
    ensures CardsDealt(players, 8, |players|) + 5 * ValidSeats(r, |r|) <= |deck|
  {
    AsideFits(players, r, |r|);
  }
}
