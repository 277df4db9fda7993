/** The generic path search of server/water/componet/astar.h.

    Neighbours, walls, step costs and the heuristic are parameters.  The frontier gives back any item of
    least priority, so nothing here depends on how ties between positions are broken. */
module AStarSearch {

  /** Everything a search is parameterised with. */
  datatype World<!P(!new)> = World(
    neighbors: P -> seq<P>,
    enterable: P -> bool,
    stepCost: (P, P) -> int,
    heuristic: (P, P) -> int)
  {
    /** One step may lead from p to q. */
    ghost predicate Step(p: P, q: P) { q in neighbors(p) && enterable(q) }

    /** `route` lists the cells entered one after the other when walking from p. */
    ghost predicate IsRoute(p: P, route: seq<P>) {
      route == [] || (Step(p, route[0]) && IsRoute(route[0], route[1..]))
    }

    ghost function Cost(p: P, route: seq<P>): int {
      if route == [] then 0 else stepCost(p, route[0]) + Cost(route[0], route[1..])
    }

    ghost predicate Reachable(p: P, q: P) {
      exists route :: IsRoute(p, route) && End(p, route) == q
    }

    /** The finitely many cells a search can get to, and no step among them has a negative cost. */
    ghost predicate Bounded(start: P, cells: set<P>) {
      && start in cells
      && (forall p, q | p in cells && Step(p, q) :: q in cells)
      && (forall p, q | p in cells && Step(p, q) :: stepCost(p, q) >= 0)
    }

    /** The heuristic never falls by more than a step costs, and what a step costs beyond that fall depends only on
        the cell it leads to. */
    ghost predicate Even(goal: P, cells: set<P>) {
      && (forall p, q | p in cells && Step(p, q) :: heuristic(p, goal) <= stepCost(p, q) + heuristic(q, goal))
      && (forall p, p', q | p in cells && p' in cells && Step(p, q) && Step(p', q) ::
            stepCost(p, q) - heuristic(p, goal) == stepCost(p', q) - heuristic(p', goal))
    }

    /** For one, if the heuristic tells no cells apart and a cell costs the same wherever it is entered from. */
    ghost predicate Flat(goal: P, cells: set<P>) {
      && (forall p, q | p in cells && q in cells :: heuristic(p, goal) == heuristic(q, goal))
      && (forall p, p', q | p in cells && p' in cells && Step(p, q) && Step(p', q) :: stepCost(p, q) == stepCost(p', q))
    }
  }

  lemma FlatIsEven<P(!new)>(w: World<P>, start: P, goal: P, cells: set<P>)
    requires w.Bounded(start, cells) && w.Flat(goal, cells)
    ensures w.Even(goal, cells)
  {}

  ghost function End<P>(p: P, route: seq<P>): P { if route == [] then p else route[|route| - 1] }

  lemma {:induction false} RouteStaysInside<P(!new)>(w: World<P>, p: P, route: seq<P>, cells: set<P>)
    requires w.IsRoute(p, route) && p in cells
    requires forall a, b | a in cells && w.Step(a, b) :: b in cells
    ensures End(p, route) in cells
  {
    if route == [] {
    } else {
      RouteStaysInside(w, route[0], route[1..], cells);
    }
  }

  lemma {:induction false} RouteExtend<P(!new)>(w: World<P>, p: P, route: seq<P>, q: P)
    requires w.IsRoute(p, route) && w.Step(End(p, route), q)
    ensures w.IsRoute(p, route + [q]) && End(p, route + [q]) == q
    ensures w.Cost(p, route + [q]) == w.Cost(p, route) + w.stepCost(End(p, route), q)
  {
    if route == [] {
    } else {
      RouteExtend(w, route[0], route[1..], q);
      assert (route + [q])[1..] == route[1..] + [q];
    }
  }

  lemma StepReaches<P(!new)>(w: World<P>, p: P, q: P)
    requires w.Step(p, q)
    ensures w.Reachable(p, q)
  {
    assert w.IsRoute(p, []);
    RouteExtend(w, p, [], q);
  }

  const INVALID_COST := -1

  datatype PosAttr<P> = PosAttr(prevPos: P, cost: int)

  /** p was entered from an earlier discovered cell, at that cell's cost plus the step's. */
  ghost predicate Hangs<P(!new)>(w: World<P>, searched: map<P, PosAttr<P>>, rank: map<P, nat>, p: P)
    requires p in searched
  {
    var prev := searched[p].prevPos;
    && p in rank && prev in searched && prev in rank && rank[prev] < rank[p]
    && w.Step(prev, p)
    && searched[p].cost == searched[prev].cost + w.stepCost(prev, p)
  }

  /** The searched cells form a tree rooted at start: every other cell hangs one step below a cell that
      was discovered earlier (`rank` is the order of discovery) and carries the accumulated cost. */
  ghost predicate Tree<P(!new)>(w: World<P>, start: P, searched: map<P, PosAttr<P>>, rank: map<P, nat>) {
    && start in searched && searched[start].cost == 0
    && rank.Keys == searched.Keys
    && forall p {:trigger Hangs(w, searched, rank, p)} | p in searched && p != start :: Hangs(w, searched, rank, p)
  }

  /** It is reached at the cost it carries. */
  lemma {:induction false} TreeRoute<P(!new)>(w: World<P>, start: P, searched: map<P, PosAttr<P>>, rank: map<P, nat>,
                                              p: P) returns (route: seq<P>)
    requires Tree(w, start, searched, rank) && p in searched
    ensures w.IsRoute(start, route) && End(start, route) == p && w.Cost(start, route) == searched[p].cost
    decreases rank[p]
  {
    if p == start {
      route := [];
    } else {
      assert Hangs(w, searched, rank, p);
      var prev := searched[p].prevPos;
      route := TreeRoute(w, start, searched, rank, prev);
      RouteExtend(w, start, route, p);
      route := route + [p];
    }
  }

  lemma {:induction false} TreeReachable<P(!new)>(w: World<P>, start: P, searched: map<P, PosAttr<P>>,
                                                  rank: map<P, nat>, p: P)
    requires Tree(w, start, searched, rank) && p in searched
    ensures w.Reachable(start, p)
  {
    var route := TreeRoute(w, start, searched, rank, p);
  }

  predicate Least<P(==, !new)>(items: multiset<(int, P)>, item: (int, P)) {
    item in items && forall other | other in items :: item.0 <= other.0
  }

  lemma LesserIsLeast<P(!new)>(items: multiset<(int, P)>, x: (int, P), y: (int, P))
    requires x in items && Least(items - multiset{x}, y)
    ensures Least(items, if x.0 <= y.0 then x else y)
  {
    forall other | other in items ensures (if x.0 <= y.0 then x else y).0 <= other.0 {
      assert other == x || other in items - multiset{x};
    }
  }

  lemma {:induction false} LeastExists<P(!new)>(items: multiset<(int, P)>)
    requires items != multiset{}
    ensures exists item :: Least(items, item)
    decreases |items|
  {
    var x :| x in items;
    var rest := items - multiset{x};
    if rest == multiset{} {
      forall other | other in items ensures other == x { assert other == x || other in rest; }
      assert Least(items, x);
    } else {
      LeastExists(rest);
      var y :| Least(rest, y);
      LesserIsLeast(items, x, y);
    }
  }

  ghost predicate OnFrontier<P(!new)>(frontier: multiset<(int, P)>, p: P) {
    exists item :: item in frontier && item.1 == p
  }

  /** Searched and not yet expanded cells are on the frontier, each once; nothing else is. */
  ghost predicate FrontierOk<P(!new)>(frontier: multiset<(int, P)>, known: set<P>, closed: set<P>) {
    && closed <= known
    && (forall item | item in frontier :: item.1 in known && item.1 !in closed)
    && (forall a, b | a in frontier && b in frontier && a.1 == b.1 :: a == b)
    && (forall item | item in frontier :: frontier[item] == 1)
    && (forall p | p in known && p !in closed :: OnFrontier(frontier, p))
  }

  ghost predicate SearchOk<P(!new)>(w: World<P>, start: P, cells: set<P>, searched: map<P, PosAttr<P>>,
                                    rank: map<P, nat>)
  {
    && Tree(w, start, searched, rank)
    && searched.Keys <= cells
    && (forall p | p in searched :: searched[p].cost >= 0)
    && (forall p | p in rank :: rank[p] < |rank|)
  }

  ghost predicate NearestOk<P(!new)>(w: World<P>, goal: P, searched: map<P, PosAttr<P>>, nearest: (int, P)) {
    && nearest.1 in searched && nearest.0 == w.heuristic(nearest.1, goal)
    && forall p | p in searched :: nearest.0 <= w.heuristic(p, goal)
  }

  /** The invariant of the search. */
  ghost predicate Ok<P(!new)>(w: World<P>, start: P, goal: P, cells: set<P>, searched: map<P, PosAttr<P>>,
                              frontier: multiset<(int, P)>, closed: set<P>, rank: map<P, nat>, nearest: (int, P))
  {
    && SearchOk(w, start, cells, searched, rank)
    && FrontierOk(frontier, searched.Keys, closed)
    && NearestOk(w, goal, searched, nearest)
  }

  lemma FrontierPush<P(!new)>(frontier: multiset<(int, P)>, known: set<P>, closed: set<P>, item: (int, P))
    requires FrontierOk(frontier, known, closed) && item.1 !in known
    ensures FrontierOk(frontier + multiset{item}, known + {item.1}, closed)
  {
    var f := frontier + multiset{item};
    forall p | p in known + {item.1} && p !in closed ensures OnFrontier(f, p) {
      if p == item.1 {
        assert item in f;
      } else {
        var other :| other in frontier && other.1 == p;
        assert other in f;
      }
    }
  }

  lemma StillOnFrontier<P(!new)>(frontier: multiset<(int, P)>, item: (int, P), p: P)
    requires OnFrontier(frontier, p) && p != item.1
    ensures OnFrontier(frontier - multiset{item}, p)
  {
    var other :| other in frontier && other.1 == p;
    assert other in frontier - multiset{item};
  }

  lemma FrontierPop<P(!new)>(frontier: multiset<(int, P)>, known: set<P>, closed: set<P>, item: (int, P))
    requires FrontierOk(frontier, known, closed) && item in frontier
    ensures FrontierOk(frontier - multiset{item}, known, closed + {item.1})
  {
    var f := frontier - multiset{item};
    assert item !in f;
    forall p | p in known && p !in closed + {item.1} ensures OnFrontier(f, p) { StillOnFrontier(frontier, item, p); }
    hide OnFrontier;
  }

  lemma SearchGrow<P(!new)>(w: World<P>, start: P, cells: set<P>, searched: map<P, PosAttr<P>>, rank: map<P, nat>,
                            cur: P, next: P)
    requires w.Bounded(start, cells) && SearchOk(w, start, cells, searched, rank)
    requires cur in searched && next !in searched && w.Step(cur, next)
    ensures var attr := PosAttr(cur, searched[cur].cost + w.stepCost(cur, next));
      SearchOk(w, start, cells, searched[next := attr], rank[next := |rank|])
  {
    var attr := PosAttr(cur, searched[cur].cost + w.stepCost(cur, next));
    var searched', rank' := searched[next := attr], rank[next := |rank|];
    assert rank'.Keys == rank.Keys + {next};
    forall p | p in searched' && p != start ensures Hangs(w, searched', rank', p) {
      if p != next { assert Hangs(w, searched, rank, p); }
    }
  }

  /** The relaxation test of a step: it compares with the cost of the cell being expanded. */
  predicate Relaxes<P(==, !new)>(w: World<P>, searched: map<P, PosAttr<P>>, cur: P, next: P)
    requires cur in searched
  {
    var known := if next in searched then searched[next].cost else INVALID_COST;
    known == INVALID_COST || searched[cur].cost + w.stepCost(cur, next) < searched[cur].cost
  }

  /** A cell passes the test exactly while it has not been searched, so a searched cell is never revised. */
  lemma {:induction false} RelaxedOnlyOnce<P(!new)>(w: World<P>, start: P, cells: set<P>, searched: map<P, PosAttr<P>>,
                                                    rank: map<P, nat>, cur: P, next: P)
    requires w.Bounded(start, cells) && SearchOk(w, start, cells, searched, rank)
    requires cur in searched && w.Step(cur, next)
    ensures Relaxes(w, searched, cur, next) <==> next !in searched
  {
    hide Tree;
    assert cur in cells;
  }

  lemma NearestGrow<P(!new)>(w: World<P>, goal: P, searched: map<P, PosAttr<P>>, nearest: (int, P), next: P,
                             attr: PosAttr<P>)
    requires NearestOk(w, goal, searched, nearest)
    ensures var h := w.heuristic(next, goal);
      NearestOk(w, goal, searched[next := attr], if h < nearest.0 then (h, next) else nearest)
  {}

  lemma Grow<P(!new)>(w: World<P>, start: P, goal: P, cells: set<P>, searched: map<P, PosAttr<P>>,
                      frontier: multiset<(int, P)>, closed: set<P>, rank: map<P, nat>, nearest: (int, P),
                      cur: P, next: P)
    requires w.Bounded(start, cells) && Ok(w, start, goal, cells, searched, frontier, closed, rank, nearest)
    requires cur in searched && next !in searched && w.Step(cur, next)
    ensures var cost, h := searched[cur].cost + w.stepCost(cur, next), w.heuristic(next, goal);
      Ok(w, start, goal, cells, searched[next := PosAttr(cur, cost)], frontier + multiset{(cost + h, next)}, closed,
         rank[next := |rank|], if h < nearest.0 then (h, next) else nearest)
  {
    hide SearchOk, FrontierOk, NearestOk, World.Bounded, World.Step;
    var cost, h := searched[cur].cost + w.stepCost(cur, next), w.heuristic(next, goal);
    SearchGrow(w, start, cells, searched, rank, cur, next);
    FrontierPush(frontier, searched.Keys, closed, (cost + h, next));
    NearestGrow(w, goal, searched, nearest, next, PosAttr(cur, cost));
    assert searched[next := PosAttr(cur, cost)].Keys == searched.Keys + {next};
  }

  lemma StartOk<P(!new)>(w: World<P>, start: P, goal: P, cells: set<P>)
    requires w.Bounded(start, cells)
    ensures Ok(w, start, goal, cells, map[start := PosAttr(start, 0)], multiset{(0, start)}, {}, map[start := 0],
               (w.heuristic(start, goal), start))
  {
    assert (0, start) in multiset{(0, start)};
    assert OnFrontier(multiset{(0, start)}, start);
  }

  lemma PopOk<P(!new)>(w: World<P>, start: P, goal: P, cells: set<P>, searched: map<P, PosAttr<P>>,
                       frontier: multiset<(int, P)>, closed: set<P>, rank: map<P, nat>, nearest: (int, P),
                       item: (int, P))
    requires Ok(w, start, goal, cells, searched, frontier, closed, rank, nearest) && item in frontier
    ensures Ok(w, start, goal, cells, searched, frontier - multiset{item}, closed + {item.1}, rank, nearest)
    ensures item.1 in searched && item.1 in cells && item.1 !in closed
  {
    FrontierPop(frontier, searched.Keys, closed, item);
    hide NearestOk;
  }

  /** `after` keeps the entries of `before` as they were and adds cells entered from cur. */
  ghost predicate Extends<P(!new)>(before: map<P, PosAttr<P>>, after: map<P, PosAttr<P>>, cur: P) {
    && (forall p | p in before :: p in after && after[p] == before[p])
    && (forall p | p in after && p !in before :: after[p].prevPos == cur)
  }

  lemma ExtendsByOne<P(!new)>(searched: map<P, PosAttr<P>>, next: P, cur: P, cost: int)
    ensures Extends(searched, searched, cur)
    ensures next !in searched ==> Extends(searched, searched[next := PosAttr(cur, cost)], cur)
  {}

  /** Once the start has been expanded its neighbours hang directly below it. */
  ghost predicate Direct<P(!new)>(w: World<P>, start: P, searched: map<P, PosAttr<P>>) {
    forall q | w.Step(start, q) && q != start :: q in searched && searched[q].prevPos == start
  }

  /** The start is the first cell to be expanded. */
  ghost predicate StartFirst<P(!new)>(w: World<P>, start: P, frontier: multiset<(int, P)>, closed: set<P>,
                                      searched: map<P, PosAttr<P>>)
  {
    if closed == {} then frontier == multiset{(0, start)} && searched.Keys == {start}
    else start in closed && Direct(w, start, searched)
  }

  /** What a search has done so far: the closed cells are expanded, the start first, and the goal is not one of them. */
  ghost predicate Underway<P(!new)>(w: World<P>, start: P, goal: P, frontier: multiset<(int, P)>, closed: set<P>,
                                    searched: map<P, PosAttr<P>>)
  {
    && goal !in closed && (forall p, q | p in closed && w.Step(p, q) :: q in searched)
    && StartFirst(w, start, frontier, closed, searched)
  }

  lemma StartStaysFirst<P(!new)>(w: World<P>, start: P, frontier: multiset<(int, P)>, closed: set<P>,
                                 searched: map<P, PosAttr<P>>, item: (int, P), frontier': multiset<(int, P)>,
                                 searched': map<P, PosAttr<P>>)
    requires StartFirst(w, start, frontier, closed, searched) && item in frontier && item.1 !in closed
    requires Extends(searched, searched', item.1) && forall q | w.Step(item.1, q) :: q in searched'
    ensures StartFirst(w, start, frontier', closed + {item.1}, searched')
  {
    if closed == {} { assert item == (0, start); }
  }

  // ---------------------------------------------------------------- when the path is a cheapest one

  /** Cost so far plus heuristic, by which the frontier is ordered. */
  ghost function Estimate<P(!new)>(w: World<P>, goal: P, searched: map<P, PosAttr<P>>, p: P): int
    requires p in searched
  {
    searched[p].cost + w.heuristic(p, goal)
  }

  /** The new items are cells just entered, at their estimates. */
  ghost predicate Pushed<P(!new)>(w: World<P>, goal: P, before: multiset<(int, P)>, after: multiset<(int, P)>,
                                  was: map<P, PosAttr<P>>, now: map<P, PosAttr<P>>)
  {
    forall item | item in after && item !in before ::
      item.1 in now && item.1 !in was && item.0 == Estimate(w, goal, now, item.1)
  }

  ghost predicate Priced<P(!new)>(w: World<P>, goal: P, searched: map<P, PosAttr<P>>, frontier: multiset<(int, P)>) {
    forall item | item in frontier :: item.1 in searched && item.0 == Estimate(w, goal, searched, item.1)
  }

  /** No closed cell has a larger estimate than a waiting one. */
  ghost predicate InOrder<P(!new)>(w: World<P>, goal: P, searched: map<P, PosAttr<P>>, frontier: multiset<(int, P)>,
                                   closed: set<P>)
  {
    forall c, item | c in closed && item in frontier :: c in searched && Estimate(w, goal, searched, c) <= item.0
  }

  /** Every cell was entered from a closed one. */
  ghost predicate FromClosed<P(!new)>(start: P, searched: map<P, PosAttr<P>>, closed: set<P>) {
    forall q | q in searched && q != start :: searched[q].prevPos in closed
  }

  /** No step from a closed cell leads on more cheaply. */
  ghost predicate Relaxed<P(!new)>(w: World<P>, searched: map<P, PosAttr<P>>, closed: set<P>) {
    forall c, q | c in closed && w.Step(c, q) ::
      c in searched && q in searched && searched[q].cost <= searched[c].cost + w.stepCost(c, q)
  }

  /** In an even world cells are closed in the order of their estimates, so the first way into a cell is a best one. */
  ghost predicate Ordered<P(!new)>(w: World<P>, start: P, goal: P, searched: map<P, PosAttr<P>>,
                                   frontier: multiset<(int, P)>, closed: set<P>)
  {
    closed != {} ==>
      && Priced(w, goal, searched, frontier) && InOrder(w, goal, searched, frontier, closed)
      && FromClosed(start, searched, closed) && Relaxed(w, searched, closed)
  }

  lemma SteppedCost<P(!new)>(w: World<P>, start: P, was: map<P, PosAttr<P>>, now: map<P, PosAttr<P>>,
                             rank: map<P, nat>, cur: P, q: P)
    requires Tree(w, start, now, rank) && Extends(was, now, cur) && q in now && q !in was && start in was && cur in was
    ensures w.Step(cur, q) && now[q].cost == now[cur].cost + w.stepCost(cur, q)
  {
    assert Hangs(w, now, rank, q);
  }

  /** A step never lowers the estimate. */
  lemma EstimateRises<P(!new)>(w: World<P>, start: P, goal: P, cells: set<P>, was: map<P, PosAttr<P>>,
                               now: map<P, PosAttr<P>>, rank: map<P, nat>, cur: P, q: P)
    requires w.Even(goal, cells) && cur in cells
    requires Tree(w, start, now, rank) && Extends(was, now, cur) && q in now && q !in was && start in was && cur in was
    ensures Estimate(w, goal, now, cur) <= Estimate(w, goal, now, q)
  {
    SteppedCost(w, start, was, now, rank, cur, q);
  }

  /** The cell being closed finds the costs of the cells already entered as good as it could make them. */
  lemma EarlierIsBetter<P(!new)>(w: World<P>, start: P, goal: P, cells: set<P>, searched: map<P, PosAttr<P>>,
                                 rank: map<P, nat>, frontier: multiset<(int, P)>, closed: set<P>, item: (int, P), q: P)
    requires w.Bounded(start, cells) && w.Even(goal, cells) && SearchOk(w, start, cells, searched, rank)
    requires Priced(w, goal, searched, frontier) && InOrder(w, goal, searched, frontier, closed)
    requires FromClosed(start, searched, closed) && item in frontier && q in searched && w.Step(item.1, q)
    ensures searched[q].cost <= searched[item.1].cost + w.stepCost(item.1, q)
  {
    var cur := item.1;
    assert cur in cells;
    if q != start {
      assert Hangs(w, searched, rank, q);
      var prev := searched[q].prevPos;
      assert Estimate(w, goal, searched, prev) <= item.0 == Estimate(w, goal, searched, cur);
    }
  }

  lemma CloseRelaxes<P(!new)>(w: World<P>, start: P, goal: P, cells: set<P>, was: map<P, PosAttr<P>>,
                              rank: map<P, nat>, before: multiset<(int, P)>, closed: set<P>, item: (int, P),
                              now: map<P, PosAttr<P>>, rank': map<P, nat>)
    requires w.Bounded(start, cells) && w.Even(goal, cells)
    requires SearchOk(w, start, cells, was, rank) && SearchOk(w, start, cells, now, rank')
    requires Priced(w, goal, was, before) && InOrder(w, goal, was, before, closed) && FromClosed(start, was, closed)
    requires Relaxed(w, was, closed) && item in before && item.1 in was && Extends(was, now, item.1)
    requires forall q | w.Step(item.1, q) :: q in now
    ensures Relaxed(w, now, closed + {item.1})
  {
    var cur := item.1;
    forall c, q | c in closed + {cur} && w.Step(c, q)
      ensures c in now && q in now && now[q].cost <= now[c].cost + w.stepCost(c, q)
    {
      if c == cur {
        if q in was {
          EarlierIsBetter(w, start, goal, cells, was, rank, before, closed, item, q);
        } else {
          SteppedCost(w, start, was, now, rank', cur, q);
        }
      }
    }
  }

  lemma CloseKeepsOrder<P(!new)>(w: World<P>, start: P, goal: P, cells: set<P>, was: map<P, PosAttr<P>>,
                                 before: multiset<(int, P)>, closed: set<P>, item: (int, P),
                                 now: map<P, PosAttr<P>>, rank': map<P, nat>, after: multiset<(int, P)>)
    requires w.Even(goal, cells) && SearchOk(w, start, cells, now, rank') && start in was
    requires Priced(w, goal, was, before) && InOrder(w, goal, was, before, closed) && Least(before, item)
    requires Extends(was, now, item.1) && Pushed(w, goal, before - multiset{item}, after, was, now)
    ensures Priced(w, goal, now, after) && InOrder(w, goal, now, after, closed + {item.1})
  {
    var cur := item.1;
    forall c, other | c in closed + {cur} && other in after
      ensures c in now && Estimate(w, goal, now, c) <= other.0
    {
      assert c in was && Estimate(w, goal, now, c) <= item.0 == Estimate(w, goal, now, cur);
      if other !in before - multiset{item} {
        EstimateRises(w, start, goal, cells, was, now, rank', cur, other.1);
      } else {
        assert other in before;
      }
    }
    forall other | other in after ensures other.1 in now && other.0 == Estimate(w, goal, now, other.1) {
      if other in before - multiset{item} { assert other in before; }
    }
  }

  /** The first turn, which closes the start. */
  lemma FirstIsOrdered<P(!new)>(w: World<P>, start: P, goal: P, cells: set<P>, was: map<P, PosAttr<P>>,
                                now: map<P, PosAttr<P>>, rank': map<P, nat>, after: multiset<(int, P)>)
    requires w.Bounded(start, cells) && w.Even(goal, cells) && SearchOk(w, start, cells, now, rank')
    requires was.Keys == {start} && Extends(was, now, start) && forall q | w.Step(start, q) :: q in now
    requires Pushed(w, goal, multiset{}, after, was, now)
    ensures Ordered(w, start, goal, now, after, {start})
  {
    forall item | item in after ensures Estimate(w, goal, now, start) <= item.0 {
      EstimateRises(w, start, goal, cells, was, now, rank', start, item.1);
    }
    forall q | w.Step(start, q) ensures now[q].cost <= now[start].cost + w.stepCost(start, q) {
      if q != start { SteppedCost(w, start, was, now, rank', start, q); }
    }
  }

  lemma CloseIsOrdered<P(!new)>(w: World<P>, start: P, goal: P, cells: set<P>, was: map<P, PosAttr<P>>,
                                rank: map<P, nat>, before: multiset<(int, P)>, closed: set<P>, item: (int, P),
                                now: map<P, PosAttr<P>>, rank': map<P, nat>, after: multiset<(int, P)>)
    requires w.Bounded(start, cells) && w.Even(goal, cells)
    requires SearchOk(w, start, cells, was, rank) && SearchOk(w, start, cells, now, rank')
    requires StartFirst(w, start, before, closed, was) && Ordered(w, start, goal, was, before, closed)
    requires Least(before, item) && item.1 in was && Extends(was, now, item.1)
    requires Pushed(w, goal, before - multiset{item}, after, was, now) && forall q | w.Step(item.1, q) :: q in now
    ensures Ordered(w, start, goal, now, after, closed + {item.1})
  {
    if closed == {} {
      assert item == (0, start) && before - multiset{item} == multiset{};
      FirstIsOrdered(w, start, goal, cells, was, now, rank', after);
      assert closed + {item.1} == {start};
    } else {
      hide World.Bounded, World.Even, World.Step, SearchOk, Priced, InOrder, Relaxed, Least, Pushed;
      SearchedStart(w, start, cells, was, rank);
      CloseRelaxes(w, start, goal, cells, was, rank, before, closed, item, now, rank');
      CloseKeepsOrder(w, start, goal, cells, was, before, closed, item, now, rank', after);
    }
  }

  lemma SearchedStart<P(!new)>(w: World<P>, start: P, cells: set<P>, searched: map<P, PosAttr<P>>, rank: map<P, nat>)
    requires SearchOk(w, start, cells, searched, rank)
    ensures start in searched
  {}

  /** No route from the start to x is cheaper than what the search found. */
  ghost predicate Cheapest<P(!new)>(w: World<P>, start: P, searched: map<P, PosAttr<P>>, x: P) {
    x in searched
    && forall route | w.IsRoute(start, route) && End(start, route) == x :: searched[x].cost <= w.Cost(start, route)
  }

  /** A route costs at least what the heuristic falls along it. */
  lemma {:induction false} RouteCostsFall<P(!new)>(w: World<P>, goal: P, cells: set<P>, p: P, route: seq<P>)
    requires w.Even(goal, cells) && p in cells && w.IsRoute(p, route)
    requires forall a, b | a in cells && w.Step(a, b) :: b in cells
    ensures w.heuristic(p, goal) - w.heuristic(End(p, route), goal) <= w.Cost(p, route)
  {
    if route == [] {
    } else {
      RouteCostsFall(w, goal, cells, route[0], route[1..]);
    }
  }

  /** Going on from an entered cell is no cheaper than what was found for x, if no waiting cell's estimate is below
      that of x: while the route stays among closed cells costs are relaxed, and where it leaves them the estimate of
      a waiting cell bounds the rest. */
  lemma {:induction false} RouteBound<P(!new)>(w: World<P>, start: P, goal: P, cells: set<P>,
                                               searched: map<P, PosAttr<P>>, frontier: multiset<(int, P)>,
                                               closed: set<P>, x: P, p: P, route: seq<P>)
    requires w.Bounded(start, cells) && w.Even(goal, cells) && searched.Keys <= cells && x in searched
    requires Priced(w, goal, searched, frontier) && Relaxed(w, searched, closed)
    requires FrontierOk(frontier, searched.Keys, closed)
    requires forall item | item in frontier :: Estimate(w, goal, searched, x) <= item.0
    requires p in searched && w.IsRoute(p, route) && End(p, route) == x
    ensures searched[x].cost <= searched[p].cost + w.Cost(p, route)
    decreases |route|
  {
    if route == [] {
    } else if p in closed {
      RouteBound(w, start, goal, cells, searched, frontier, closed, x, route[0], route[1..]);
    } else {
      assert OnFrontier(frontier, p);
      var item :| item in frontier && item.1 == p;
      RouteCostsFall(w, goal, cells, p, route);
    }
  }

  lemma {:induction false} RouteNotNegative<P(!new)>(w: World<P>, start: P, cells: set<P>, p: P, route: seq<P>)
    requires w.Bounded(start, cells) && p in cells && w.IsRoute(p, route)
    ensures w.Cost(p, route) >= 0
  {
    if route == [] {
    } else {
      RouteNotNegative(w, start, cells, route[0], route[1..]);
    }
  }

  /** Where the search stops, at a waiting cell of least estimate or with nothing waiting. */
  lemma StopsAtCheapest<P(!new)>(w: World<P>, start: P, goal: P, cells: set<P>, searched: map<P, PosAttr<P>>,
                                 rank: map<P, nat>, frontier: multiset<(int, P)>, closed: set<P>, x: P)
    requires w.Bounded(start, cells) && w.Even(goal, cells) && SearchOk(w, start, cells, searched, rank)
    requires FrontierOk(frontier, searched.Keys, closed) && Ordered(w, start, goal, searched, frontier, closed)
    requires x in searched && (if closed == {} then x == start
      else forall item | item in frontier :: Estimate(w, goal, searched, x) <= item.0)
    ensures Cheapest(w, start, searched, x)
  {
    forall route | w.IsRoute(start, route) && End(start, route) == x
      ensures searched[x].cost <= w.Cost(start, route)
    {
      if closed == {} {
        RouteNotNegative(w, start, cells, start, route);
      } else {
        RouteBound(w, start, goal, cells, searched, frontier, closed, x, start, route);
      }
    }
  }

  /** Every cell found has been expanded. */
  ghost predicate Expanded<P(!new)>(w: World<P>, searched: map<P, PosAttr<P>>) {
    forall p, q | p in searched && w.Step(p, q) :: q in searched
  }

  /** No step leads to a cheaper cost than the one stored, although that is not what the search compares with. */
  ghost predicate NoneOverlooked<P(!new)>(w: World<P>, searched: map<P, PosAttr<P>>)
    requires Expanded(w, searched)
  {
    forall p, q | p in searched && w.Step(p, q) :: searched[q].cost <= searched[p].cost + w.stepCost(p, q)
  }

  lemma {:induction false} RouteNotOverlooked<P(!new)>(w: World<P>, searched: map<P, PosAttr<P>>, p: P, route: seq<P>)
    requires Expanded(w, searched) && NoneOverlooked(w, searched) && p in searched && w.IsRoute(p, route)
    ensures End(p, route) in searched && searched[End(p, route)].cost <= searched[p].cost + w.Cost(p, route)
  {
    if route == [] {
    } else {
      RouteNotOverlooked(w, searched, route[0], route[1..]);
    }
  }

  /** In any world: once everything reachable has been expanded, all costs stored are those of cheapest routes exactly
      if no step of any cell was overlooked. */
  lemma {:induction false} AllCheapestIff<P(!new)>(w: World<P>, start: P, searched: map<P, PosAttr<P>>,
                                                   rank: map<P, nat>)
    requires Tree(w, start, searched, rank) && Expanded(w, searched)
    ensures (forall x | x in searched :: Cheapest(w, start, searched, x)) <==> NoneOverlooked(w, searched)
  {
    if NoneOverlooked(w, searched) {
      forall x, route | x in searched && w.IsRoute(start, route) && End(start, route) == x
        ensures searched[x].cost <= w.Cost(start, route)
      {
        RouteNotOverlooked(w, searched, start, route);
      }
    }
    if forall x | x in searched :: Cheapest(w, start, searched, x) {
      forall p, q | p in searched && w.Step(p, q)
        ensures searched[q].cost <= searched[p].cost + w.stepCost(p, q)
      {
        var route := TreeRoute(w, start, searched, rank, p);
        RouteExtend(w, start, route, q);
        assert Cheapest(w, start, searched, q);
      }
    }
  }

  /** How a search may end: at the goal if it can be reached, else at a reachable cell nearest to it. */
  ghost predicate Finished<P(!new)>(w: World<P>, start: P, goal: P, searched: map<P, PosAttr<P>>, last: P) {
    last in searched
    && if w.Reachable(start, goal) then last == goal
       else
         && w.Reachable(start, last)
         && forall p | w.Reachable(start, p) :: w.heuristic(last, goal) <= w.heuristic(p, goal)
  }

  lemma ExhaustedOk<P(!new)>(w: World<P>, start: P, goal: P, cells: set<P>, searched: map<P, PosAttr<P>>,
                             closed: set<P>, rank: map<P, nat>, nearest: (int, P))
    requires Ok(w, start, goal, cells, searched, multiset{}, closed, rank, nearest)
    requires Underway(w, start, goal, multiset{}, closed, searched)
    ensures Finished(w, start, goal, searched, nearest.1)
    ensures Tree(w, start, searched, rank) && (goal != start ==> Direct(w, start, searched))
    ensures Expanded(w, searched)
  {
    forall p | p in searched ensures p in closed { assert p in closed || OnFrontier(multiset{}, p); }
    forall p | w.Reachable(start, p) ensures p in searched && p != goal {
      var route :| w.IsRoute(start, route) && End(start, route) == p;
      RouteStaysInside(w, start, route, closed);
    }
    TreeReachable(w, start, searched, rank, nearest.1);
  }

  lemma GoalFound<P(!new)>(w: World<P>, start: P, goal: P, cells: set<P>, searched: map<P, PosAttr<P>>,
                           frontier: multiset<(int, P)>, closed: set<P>, rank: map<P, nat>, nearest: (int, P),
                           priority: int)
    requires Ok(w, start, goal, cells, searched, frontier, closed, rank, nearest) && (priority, goal) in frontier
    requires Underway(w, start, goal, frontier, closed, searched)
    ensures Finished(w, start, goal, searched, goal) && Tree(w, start, searched, rank)
    ensures goal != start ==> Direct(w, start, searched)
  {
    hide Direct;
    TreeReachable(w, start, searched, rank, goal);
    assert closed == {} ==> (priority, goal) == (0, start);
  }

  lemma GoalIsCheapest<P(!new)>(w: World<P>, start: P, goal: P, cells: set<P>, searched: map<P, PosAttr<P>>,
                                frontier: multiset<(int, P)>, closed: set<P>, rank: map<P, nat>, nearest: (int, P),
                                priority: int)
    requires w.Bounded(start, cells) && w.Even(goal, cells)
    requires Ok(w, start, goal, cells, searched, frontier, closed, rank, nearest) && Least(frontier, (priority, goal))
    requires Underway(w, start, goal, frontier, closed, searched)
    requires Ordered(w, start, goal, searched, frontier, closed)
    ensures Cheapest(w, start, searched, goal)
  {
    hide SearchOk, NearestOk, World.Bounded, World.Even, Direct;
    assert closed == {} ==> (priority, goal) == (0, start);
    assert goal in searched;
    assert closed != {} ==> priority == Estimate(w, goal, searched, goal);
    StopsAtCheapest(w, start, goal, cells, searched, rank, frontier, closed, goal);
  }

  lemma NearestIsCheapest<P(!new)>(w: World<P>, start: P, goal: P, cells: set<P>, searched: map<P, PosAttr<P>>,
                                   closed: set<P>, rank: map<P, nat>, nearest: (int, P))
    requires w.Bounded(start, cells) && w.Even(goal, cells)
    requires Ok(w, start, goal, cells, searched, multiset{}, closed, rank, nearest)
    requires Underway(w, start, goal, multiset{}, closed, searched)
    requires Ordered(w, start, goal, searched, multiset{}, closed)
    ensures Cheapest(w, start, searched, nearest.1)
  {
    hide SearchOk, World.Bounded, World.Even, Direct, FrontierOk, Ordered;
    assert closed == {} ==> (0, start) in multiset{};
    StopsAtCheapest(w, start, goal, cells, searched, rank, multiset{}, closed, nearest.1);
  }

  lemma LeastIsThere<P(!new)>(items: multiset<(int, P)>, item: (int, P))
    requires Least(items, item)
    ensures item in items
  {}

  class AStar<P(==, !new)> {
    const w: World<P>
    var searchedArea: map<P, PosAttr<P>>
    var frontier: multiset<(int, P)>

    constructor (w: World<P>)
      ensures this.w == w
    {
      this.w := w;
      searchedArea, frontier := map[], multiset{};
    }

    method PopFrontier() returns (pos: P, priority: int)
      requires frontier != multiset{}
      modifies `frontier
      ensures Least(old(frontier), (priority, pos)) && frontier == old(frontier) - multiset{(priority, pos)}
    {
      LeastExists(frontier);
      var item :| item in frontier && Least(frontier, item);
      frontier := frontier - multiset{item};
      priority, pos := item.0, item.1;
    }

    /** Look at one neighbour of the cell being expanded.  With non-negative step costs a cell is
        entered into the searched area once and never revised. */
    method Visit(curPos: P, nextPos: P, goal: P, nearest: (int, P),
                 ghost start: P, ghost cells: set<P>, ghost closed: set<P>, ghost rank: map<P, nat>)
      returns (nearer: (int, P), ghost rank': map<P, nat>)
      requires w.Bounded(start, cells) && curPos in searchedArea && nextPos in w.neighbors(curPos)
      requires Ok(w, start, goal, cells, searchedArea, frontier, closed, rank, nearest)
      modifies this
      ensures Ok(w, start, goal, cells, searchedArea, frontier, closed, rank', nearer)
      ensures searchedArea.Keys == old(searchedArea).Keys + if w.enterable(nextPos) then {nextPos} else {}
      ensures Extends(old(searchedArea), searchedArea, curPos)
      ensures Pushed(w, goal, old(frontier), frontier, old(searchedArea), searchedArea)
    {
      hide SearchOk, FrontierOk, NearestOk, World.Bounded, Extends;
      nearer, rank' := nearest, rank;
      ExtendsByOne(searchedArea, nextPos, curPos, 0);
      if !w.enterable(nextPos) { return; }
      assert w.Step(curPos, nextPos);
      RelaxedOnlyOnce(w, start, cells, searchedArea, rank, curPos, nextPos);
      var nextCost := searchedArea[curPos].cost + w.stepCost(curPos, nextPos);
      if Relaxes(w, searchedArea, curPos, nextPos) {
        Grow(w, start, goal, cells, searchedArea, frontier, closed, rank, nearest, curPos, nextPos);
        ExtendsByOne(searchedArea, nextPos, curPos, nextCost);
        hide Ok;
        var nextHeuristic := w.heuristic(nextPos, goal);
        rank' := rank[nextPos := |rank|];
        searchedArea := searchedArea[nextPos := PosAttr(curPos, nextCost)];
        frontier := frontier + multiset{(nextCost + nextHeuristic, nextPos)};
        assert searchedArea.Keys == old(searchedArea).Keys + {nextPos};
        if nextHeuristic < nearest.0 {
          nearer := (nextHeuristic, nextPos);
        }
      }
    }

    /** Visit every neighbour of a cell just taken off the frontier. */
    method Expand(curPos: P, goal: P, nearest: (int, P),
                  ghost start: P, ghost cells: set<P>, ghost closed: set<P>, ghost rank: map<P, nat>)
      returns (nearer: (int, P), ghost rank': map<P, nat>)
      requires w.Bounded(start, cells) && curPos in searchedArea
      requires Ok(w, start, goal, cells, searchedArea, frontier, closed, rank, nearest)
      modifies this
      ensures Ok(w, start, goal, cells, searchedArea, frontier, closed, rank', nearer)
      ensures Extends(old(searchedArea), searchedArea, curPos) && old(searchedArea).Keys <= searchedArea.Keys
      ensures Pushed(w, goal, old(frontier), frontier, old(searchedArea), searchedArea)
      ensures forall q | w.Step(curPos, q) :: q in searchedArea
    {
      hide Ok, World.Bounded;
      nearer, rank' := nearest, rank;
      var nexts := w.neighbors(curPos);
      for i := 0 to |nexts|
        invariant Ok(w, start, goal, cells, searchedArea, frontier, closed, rank', nearer)
        invariant Extends(old(searchedArea), searchedArea, curPos)
        invariant Pushed(w, goal, old(frontier), frontier, old(searchedArea), searchedArea)
        invariant forall k | 0 <= k < i && w.enterable(nexts[k]) :: nexts[k] in searchedArea
      {
        nearer, rank' := Visit(curPos, nexts[i], goal, nearer, start, cells, closed, rank');
      }
    }

    /** Expand the cell just taken off the frontier `before` and close it. */
    method Close(curPos: P, priority: int, goal: P, nearest: (int, P), ghost start: P, ghost cells: set<P>,
                 ghost before: multiset<(int, P)>, ghost closed: set<P>, ghost rank: map<P, nat>)
      returns (nearer: (int, P), ghost rank': map<P, nat>)
      requires w.Bounded(start, cells) && curPos in searchedArea && curPos !in closed && curPos != goal
      requires Ok(w, start, goal, cells, searchedArea, frontier, closed + {curPos}, rank, nearest)
      requires Least(before, (priority, curPos)) && frontier == before - multiset{(priority, curPos)}
      requires Underway(w, start, goal, before, closed, searchedArea)
      requires w.Even(goal, cells) ==> Ordered(w, start, goal, searchedArea, before, closed)
      modifies this
      ensures Ok(w, start, goal, cells, searchedArea, frontier, closed + {curPos}, rank', nearer)
      ensures Underway(w, start, goal, frontier, closed + {curPos}, searchedArea)
      ensures w.Even(goal, cells) ==> Ordered(w, start, goal, searchedArea, frontier, closed + {curPos})
    {
      ghost var was := searchedArea;
      hide World.Bounded, World.Step, World.Even, StartFirst, Extends, Pushed, Ordered, Tree, SearchOk, FrontierOk;
      hide NearestOk;
      nearer, rank' := Expand(curPos, goal, nearest, start, cells, closed + {curPos}, rank);
      StartStaysFirst(w, start, before, closed, was, (priority, curPos), frontier, searchedArea);
      if w.Even(goal, cells) {
        CloseIsOrdered(w, start, goal, cells, was, rank, before, closed, (priority, curPos), searchedArea, rank',
                       frontier);
      }
    }

    /** Expand frontier cells until the goal comes up or the frontier is empty. */
    method Search(start: P, goal: P, ghost cells: set<P>) returns (last: P, ghost rank: map<P, nat>)
      requires w.Bounded(start, cells)
      modifies this
      ensures Finished(w, start, goal, searchedArea, last)
      ensures Tree(w, start, searchedArea, rank)
      ensures goal != start ==> Direct(w, start, searchedArea)
      ensures w.Even(goal, cells) ==> Cheapest(w, start, searchedArea, last)
      ensures !w.Reachable(start, goal) ==> Expanded(w, searchedArea)
    {
      frontier := multiset{(0, start)};
      searchedArea := map[start := PosAttr(start, 0)];
      rank := map[start := 0];
      var nearest := (w.heuristic(start, goal), start);
      ghost var closed: set<P> := {};
      StartOk(w, start, goal, cells);
      assert Underway(w, start, goal, frontier, closed, searchedArea);
      assert Ordered(w, start, goal, searchedArea, frontier, closed);
      hide *;
      while frontier != multiset{}
        invariant Ok(w, start, goal, cells, searchedArea, frontier, closed, rank, nearest)
        invariant Underway(w, start, goal, frontier, closed, searchedArea)
        invariant w.Even(goal, cells) ==> Ordered(w, start, goal, searchedArea, frontier, closed)
        decreases cells - closed
      {
        ghost var before, done := frontier, closed;
        var curPos, priority := PopFrontier();
        LeastIsThere(before, (priority, curPos));
        PopOk(w, start, goal, cells, searchedArea, before, closed, rank, nearest, (priority, curPos));
        if curPos == goal {
          GoalFound(w, start, goal, cells, searchedArea, before, closed, rank, nearest, priority);
          if w.Even(goal, cells) {
            GoalIsCheapest(w, start, goal, cells, searchedArea, before, closed, rank, nearest, priority);
          }
          return goal, rank;
        }
        nearest, rank := Close(curPos, priority, goal, nearest, start, cells, before, closed, rank);
        closed := closed + {curPos};
        assert curPos in cells - done;
      }
      last := nearest.1;
      ExhaustedOk(w, start, goal, cells, searchedArea, closed, rank, nearest);
      if w.Even(goal, cells) { NearestIsCheapest(w, start, goal, cells, searchedArea, closed, rank, nearest); }
    }

    /** The path to the goal if it can be reached, otherwise to a reachable cell with the least heuristic:
        a walk from start whose step costs add up to the cost stored for its last cell, and which visits
        no cell twice.  The start itself is not listed.  A goal next to the start is always reached by the direct step,
        however much that costs; in an even world no route to where the path ends is cheaper. */
    method FindPath(start: P, goal: P, ghost cells: set<P>) returns (path: seq<P>)
      requires w.Bounded(start, cells)
      modifies this
      ensures w.IsRoute(start, path)
      ensures w.Reachable(start, goal) ==> End(start, path) == goal
      ensures !w.Reachable(start, goal) ==>
        forall p | w.Reachable(start, p) :: w.heuristic(End(start, path), goal) <= w.heuristic(p, goal)
      ensures End(start, path) in searchedArea && searchedArea[End(start, path)].cost == w.Cost(start, path)
      ensures start !in path && forall i, j | 0 <= i < j < |path| :: path[i] != path[j]
      ensures w.Step(start, goal) && goal != start ==> path == [goal]
      ensures w.Even(goal, cells) ==>
        forall route | w.IsRoute(start, route) && End(start, route) == End(start, path) ::
          w.Cost(start, path) <= w.Cost(start, route)
      ensures !w.Reachable(start, goal) ==>
        && Expanded(w, searchedArea)
        && ((forall x | x in searchedArea :: Cheapest(w, start, searchedArea, x)) <==> NoneOverlooked(w, searchedArea))
    {
      if w.Step(start, goal) { StepReaches(w, start, goal); }
      var last;
      ghost var rank;
      last, rank := Search(start, goal, cells);
      if !w.Reachable(start, goal) { AllCheapestIff(w, start, searchedArea, rank); }
      path := [];
      var pos := last;
      while pos != start
        invariant pos in searchedArea && w.IsRoute(pos, path) && End(pos, path) == last
        invariant searchedArea[pos].cost + w.Cost(pos, path) == searchedArea[last].cost
        invariant forall p | p in path :: p in rank && rank[pos] < rank[p]
        invariant forall i, j | 0 <= i < j < |path| :: path[i] != path[j]
        invariant w.Step(start, goal) && goal != start ==>
          (pos == goal && path == []) || (pos == start && path == [goal])
        decreases rank[pos]
      {
        assert Hangs(w, searchedArea, rank, pos);
        var prev := searchedArea[pos].prevPos;
        assert ([pos] + path)[1..] == path;
        path := [pos] + path;
        pos := prev;
      }
    }
  }

  /** Three cells in which two single steps undercut one direct step, with a heuristic that tells no cells apart. */
  function DetourWorld(): World<int> {
    World(p => if p == 0 then [1, 2] else if p == 1 then [2] else [], q => true,
          (p, q) => if p == 0 && q == 2 then 10 else 1, (p, q) => 0)
  }

  lemma {:induction false} DetourIsBounded()
    ensures DetourWorld().Bounded(0, {0, 1, 2}) && DetourWorld().Step(0, 2) && !DetourWorld().Even(2, {0, 1, 2})
  {
    assert DetourWorld().Step(0, 2) && DetourWorld().Step(1, 2);
  }

  lemma {:induction false} DetourCosts()
    ensures var w := DetourWorld(); w.IsRoute(0, [1, 2]) && w.Cost(0, [1, 2]) == 2 && w.Cost(0, [2]) == 10
  {
    var w := DetourWorld();
    assert [1, 2][1..] == [2] && [2][1..] == [];
    assert w.Step(0, 1) && w.Step(1, 2);
    assert w.IsRoute(1, [2]) && w.Cost(1, [2]) == 1;
  }

  /** Where what a step costs depends on the cell it leaves, the search can return a path that is not a cheapest one. */
  method DetourMissed() returns (path: seq<int>)
    ensures var w := DetourWorld();
      && w.Bounded(0, {0, 1, 2}) && !w.Even(2, {0, 1, 2})
      && w.IsRoute(0, path) && w.IsRoute(0, [1, 2]) && End(0, path) == End(0, [1, 2]) == 2
      && w.Cost(0, [1, 2]) < w.Cost(0, path)
  {
    DetourIsBounded();
    DetourCosts();
    hide World.Bounded, World.Even, World.Step, World.IsRoute, World.Cost, World.Reachable, DetourWorld;
    var search := new AStar<int>(DetourWorld());
    path := search.FindPath(0, 2, {0, 1, 2});
  }
}
