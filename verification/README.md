# A verified model of the thirteen-water server

This project models the logic of a card-game server for thirteen water and of the small networking framework it
runs on, in Dafny 4.11, and proves what that logic is for. Sockets, epoll, threads, redis, protobuf, configuration
and logging are outside: what they deliver comes in as parameters or as nondeterministic choices.

`dafny verify dfyconfig.toml` checks everything.

## The parts

**Lock-free queues** (`Ring.dfy`, `MpmcQueue.dfy`, `SpscQueue.dfy`). Both ring queues are step machines: each
atomic access and each access to a cell's item is one step of one thread, and a run is any interleaving. The
multi-producer queue locks a cell before it knows whether it owns the ticket and rolls back if it does not; the
invariant covers threads that hold a cell tentatively, threads that own it, and threads a lap behind. The main
results are that values leave in ticket order with none lost, duplicated or invented, that each step refines a
bounded FIFO, that no two threads ever touch one cell's item together, that calls return within a fixed number
of their own steps, that a call running alone succeeds exactly if there is room or an item, and that a claim is turned
back only for a ticket another thread was granted. For the single-producer queue a question answered "not full" or "not empty" is shown to be a
promise that the next call of that side succeeds; its counters wrap as in the source.

**Round scoring** (`Deck.dfy`, `RoundScoring.dfy`). `calcRound` compares all pairs of seats and settles a ledger.
Its pairwise total is unsigned, so a plain loss of the earlier seat is stored as a negative entry under that seat;
the proof shows that settlement nevertheless equals a symmetric specification in which each seat receives from each
other seat a transfer t(p, q) = -t(q, p), and states in numbers what a table of two pays and how larger tables are made
of such pairs. It follows that prizes sum to zero, do not depend on the seating, fit an
int32, and that at most one seat sweeps the table.

**Byte streams** (`Bytes.dfy`, `ConnectionBuffer.dfy`, `TcpPacket.dfy`, `TcpConnection.dfy`). The sliding buffer, the
length-prefixed parser, and the read and write loops of the event handler, against a socket that may transfer any
part of what it is given.

**Search and enumeration** (`AStar.dfy`, `Combinations.dfy`, `RobotDeck.dfy`). Path search with predecessor
reconstruction, and when its path is a cheapest one; the recursive generator of combinations over a shared index array;
the hand arranger on top of it.

**Containers and indexes** (`FastTravelMap.dfy`, `LruCache.dfy`, `ClientManager.dfy`). The vector-plus-index map with
swap-remove, the LRU cache, and the lobby's register of clients under three keys, which is built from three of those
maps.

**Codecs** (`Serialize.dfy`, `UrlCodec.dfy`). The recursive container serializer over a bounded buffer, and the two
URL codecs (percent-encoding as in section 2.1 of RFC 3986, '+' for a space as in section 17.13.4.1 of HTML 4.01).

**Cards and rooms** (`Sorting.dfy`, `HandRanking.dfy`, `RoundEvaluation.dfy`, `DeckBuilding.dfy`, `GameRoom.dfy`). The
hand classifiers and their base-14 scores; how a layout becomes the hand that is scored; which rooms may be created and
which deck they use; dealing, laying out, settling a round and settling the game. The parts are composed: a room decides
on a layout, and settles a round, from the cards themselves. What a joker counts for and the special thirteen-card
patterns stay arbitrary functions, and nothing proved depends on them.

`Wrappers.dfy` holds the option type that several modules share.

Objects that the source mutates are classes, its loops are loops, and every such method is proved against a
specification on values; the lemmas are about those specifications.

## Where the code and its comments disagree

The model follows the code.

- `daQiang` 0 is commented as the default that doubles, but shooting happens exactly when it is not 0
  (water13.cpp:1717, water13.h:51; `RoundScoring.ShootingIsOnIff`).
- The per-row totals sent to the players are credited to the earlier seat of each pair only (water13.cpp:1708-1711).
  So they depend on the seating although the prizes do not: however the table is reseated, a hand's total of a row
  changes by its scores against just those hands with which it has changed order (`RoundScoring.ReseatingMovesRows`).
  Two neighbours who change places keep their totals of a row exactly if one of them is special or they tie in it
  (`RoundScoring.ExchangeKeepsRowsIff`, and for two hands that do not `RoundScoring.RowScoresDependOnSeats`).
- The periodic clean-up speaks of clients that have been offline too long, but of the disconnected clients outside every
  room it drops those gone for less than 600 seconds and keeps those gone for 600 or more (client_manager.cpp:105-109;
  `ClientManagers.CleanUpMeansItIff`, `ClientManagers.CleanUpDropsTheWrongOnes`).
- The final statistics count the rounds in which a seat shot somebody: the counter is a `bool`
  (water13_card.cpp:548-551). That is the number of shots exactly if no round saw two of them
  (`GameRooms.DaqiangIsShotsIff`, `GameRooms.TwoShotsCountOnce`).
- Reading a `forward_list` keeps the old elements of the target behind the new ones, while every other container is
  replaced (serialize.h:422-441; `Serialization.RoundTripIff`).
- A buffer append takes its length as 32 bits, so a string of 2^32 bytes or more is written short (raw_buffer.h:57;
  `Serialization.EmitIsEncodingIff`).
- `pop` of the multi-producer queue tries four times and `push` five, although both compare with 5
  (`MpmcQueue.FailedAfterTries`); `push` of the single-producer queue looks twice and `pop` three times, although both
  compare with 3 (`SpscQueue.PushFailsIffFullTwice`, `SpscQueue.PopFailsIffEmptyThrice`).
- The path search's comment speaks of a new route that is cheaper than the one found for the cell before, but the test
  compares with the cost of the cell being expanded (astar.h:120-124), so a cell is never revised
  (`AStarSearch.RelaxedOnlyOnce`) and the path found need not be a cheapest one (`AStarSearch.DetourMissed`). It is one
  if the heuristic never falls by more than a step costs and what a step costs beyond that fall depends only on the cell
  it leads to (`AStarSearch.AStar.FindPath`); and once everything reachable has been expanded, in any world, all costs
  stored are those of cheapest routes exactly if no cheaper step was turned away (`AStarSearch.AllCheapestIff`).

## Model

| member | source | states |
|---|---|---|
| MpmcQueue.StepKeepsInv | server/water/componet/lock_free_circular_queue_mm.h:60-125 | every step of any thread, with any outcome of a weak compare-exchange, keeps the invariant on tickets, cells, tentative and committed holders |
| MpmcQueue.RunKeepsInv | server/water/componet/lock_free_circular_queue_mm.h:60-125 | the invariant holds after every interleaving of any number of pushing and popping threads; in particular begin <= end <= begin + capacity |
| MpmcQueue.ExclusiveAccess | server/water/componet/lock_free_circular_queue_mm.h:71-87 | in every reachable state two different threads that hold a cell hold different cells |
| MpmcQueue.ClaimPushRoom | server/water/componet/lock_free_circular_queue_mm.h:78-83 | a push whose ticket claim can succeed finds the ring not full |
| MpmcQueue.ClaimPopRoom | server/water/componet/lock_free_circular_queue_mm.h:111-119 | a pop whose ticket claim can succeed finds the ring not empty, and the cell still holds the item pushed under that ticket |
| MpmcQueue.RunLedgers | server/water/componet/lock_free_circular_queue_mm.h:60-125 | after every run the completed pops (pushes) carry distinct tickets with the values pushed under them, and every other granted ticket is in the hands of a thread inside its call |
| MpmcQueue.FifoOverRuns | server/water/componet/lock_free_circular_queue_mm.h:60-125 | each successful pop returns the item pushed under its own ticket; when no call is in progress the tickets popped are exactly 0..begin-1 and those pushed exactly 0..end-1: nothing lost, duplicated or reordered |
| MpmcQueue.StepRefinesFifo | server/water/componet/lock_free_circular_queue_mm.h:60-125 | seen as the queue of pushed and unclaimed items, each step does nothing, appends into free room, or removes the head that the consumer then reads |
| MpmcQueue.CallsReturn | server/water/componet/lock_free_circular_queue_mm.h:60-125 | a call begun in any reachable state returns, for a push within 26 and for a pop within 22 of its own steps, whatever all other threads do |
| MpmcQueue.FailedAfterTries | server/water/componet/lock_free_circular_queue_mm.h:60-125 | a push begins at most five tries and a pop at most four, and one that fails has begun exactly as many, from any state and whatever the other threads do |
| MpmcQueue.PushAlone | server/water/componet/lock_free_circular_queue_mm.h:60-90 | whenever no call is in progress, a push that runs alone without spurious failures returns true after six steps with its item appended exactly if there is room, and otherwise returns false after eleven and changes nothing |
| MpmcQueue.PopAlone | server/water/componet/lock_free_circular_queue_mm.h:92-125 | likewise a pop returns and removes the oldest item after seven steps exactly if there is one, and otherwise returns none after nine and changes nothing |
| MpmcQueue.RunsEndQuiet | server/water/componet/lock_free_circular_queue_mm.h:60-125 | every run after which no call is in progress leaves the queue in such a state |
| MpmcQueue.PushClaimFailsIff | server/water/componet/lock_free_circular_queue_mm.h:78-83 | in every reachable state a claim that does not fail spuriously is turned back exactly if an earlier step of the run granted that ticket to another thread |
| MpmcQueue.PopClaimFailsIff | server/water/componet/lock_free_circular_queue_mm.h:111-116 | the same for the claim of a pop |
| MpmcQueue.SpuriousFailure | server/water/componet/lock_free_circular_queue_mm.h:75-83 | a compare-exchange that fails spuriously sends its thread back as a real failure would, and changes no cell |
| MpmcQueue.NewQueue | server/water/componet/lock_free_circular_queue_mm.h:45-48 | for every power asked for there is an initial queue of 2^power cells, at most 2^24 |
| Ring.SlotInjective | server/water/componet/lock_free_circular_queue_mm.h:143-146 | two tickets less than one lap apart share a cell only if they are equal |
| Ring.MaskIsRemainder | server/water/componet/lock_free_circular_queue_ss.h:126-129 | masking a counter with a power of two less one gives its remainder |
| Ring.WrapNext | server/water/componet/lock_free_circular_queue_ss.h:131-133 | incrementing a wrapped counter wraps the incremented count |
| Ring.WrappedSlot | server/water/componet/lock_free_circular_queue_ss.h:126-135 | a counter that has wrapped at 2^bits still finds the cell of its unwrapped value |
| SpscQueue.StepKeepsInv | server/water/componet/lock_free_circular_queue_ss.h:58-108 | every step of either side keeps the invariant on published, released and in-progress cells |
| SpscQueue.RunKeepsInv | server/water/componet/lock_free_circular_queue_ss.h:58-108 | the invariant survives every interleaving of the two sides |
| SpscQueue.StepRefinesFifo | server/water/componet/lock_free_circular_queue_ss.h:58-108 | publishing appends into room, releasing yields and removes the head, and no other step changes the queue |
| SpscQueue.ChecksAreExact | server/water/componet/lock_free_circular_queue_ss.h:60-71 | a status check goes on exactly when the queue has room (an item), so a call fails only after seeing it full (empty) at every look |
| SpscQueue.FifoOverRuns | server/water/componet/lock_free_circular_queue_ss.h:58-108 | over every interleaving the values returned are a prefix of the items accepted, at most a ringful behind |
| SpscQueue.NoSharedCell | server/water/componet/lock_free_circular_queue_ss.h:73-103 | producer and consumer never work on the same cell's item together |
| SpscQueue.QuestionsAreExact | server/water/componet/lock_free_circular_queue_ss.h:110-118 | between its own calls, the producer's full() and the consumer's empty() answer exactly whether the queue is full or empty |
| SpscQueue.NotFullMeansPushSucceeds | server/water/componet/lock_free_circular_queue_ss.h:58-81 | once the producer has seen full() false its next push goes straight through in four steps, whatever the consumer does before and during it |
| SpscQueue.NotEmptyMeansPopSucceeds | server/water/componet/lock_free_circular_queue_ss.h:83-108 | once the consumer has seen empty() false its next pop returns the item that was then the oldest, whatever the producer does |
| SpscQueue.PushFailsIffFullTwice | server/water/componet/lock_free_circular_queue_ss.h:58-81 | a push finds the queue full at most twice, and of those that return the ones that found it full twice are exactly those that fail, whatever the consumer does |
| SpscQueue.PopFailsIffEmptyThrice | server/water/componet/lock_free_circular_queue_ss.h:83-108 | likewise a pop that returns has failed exactly if it found the queue empty three times |
| SpscQueue.RunClears | server/water/componet/lock_free_circular_queue_ss.h:99-106 | over every interleaving a consumer about to give back its cell has reset the item in it |
| SpscQueue.NewQueue | server/water/componet/lock_free_circular_queue_ss.h:44-47 | for every power asked for there is an initial queue of 2^power cells, at most 2^24 |
| Deck.CmpBrandInfoIsOrder | server/processes/lobby/deck.h:239-251 | comparing evaluated hands is antisymmetric and transitive, and ties are exactly equal evaluations |
| Deck.CategoriesInOrder | server/processes/lobby/deck.h:239-251 | the ten categories in their order, named one by one; within one the points decide, and at equal points the hand without a joker |
| RoundScoring.CompareLanes | server/processes/lobby/water13.cpp:1553-1705 | the eight row rules, with `int += uint32_t` written out, give the antisymmetric row scores |
| RoundScoring.ComparePair | server/processes/lobby/water13.cpp:1496-1742 | one comparison records exactly one entry for the pair, under the winner or, for a plain loss of the earlier seat, as a negative entry under the loser |
| RoundScoring.OrdinaryEntries | server/processes/lobby/water13.cpp:1716-1742 | which of the two ledgers gets the entry, with which sign, from the three row scores |
| RoundScoring.FullLedgerIsSweep | server/processes/lobby/water13.cpp:1752-1767 | a full ledger of shots is exactly shooting every other seat, although the ledger also holds losses |
| RoundScoring.GainIsTransfer | server/processes/lobby/water13.cpp:1770-1792 | what the two ledgers of a pair pay one way and the other is the symmetric transfer |
| RoundScoring.CalcRound | server/processes/lobby/water13.cpp:1464-1796 | every seat's prize is the sum of its transfers, the sweep flag is the sweep, and ledger and row totals are as specified |
| RoundScoring.TransferAntisymmetric | server/processes/lobby/water13.cpp:1489-1794 | what p receives from q is what q pays to p |
| RoundScoring.ZeroSum | server/processes/lobby/water13.cpp:1790-1791 | the prizes of a round sum to zero |
| RoundScoring.AtMostOneSweep | server/processes/lobby/water13.cpp:1752-1767 | at most one seat sweeps the table |
| RoundScoring.SeatOrderIrrelevant | server/processes/lobby/water13.cpp:1489-1794 | a seat's prize depends only on its hand and on which hands are at the table |
| RoundScoring.RowInNumbers | server/processes/lobby/water13.cpp:1553-1705 | what winning each row is worth, in numbers for each category |
| RoundScoring.PrizeInNumbers | server/processes/lobby/water13.cpp:1716-1792 | what a table of two without special patterns pays, from its row scores: their sum, with the bonus added or doubled when all three rows are won, doubled for a horse card |
| RoundScoring.SpecialPrizeInNumbers | server/processes/lobby/water13.cpp:1496-1548 | what special patterns pay: 104, 52, 26 or 6 to the better one |
| RoundScoring.PrizePairByPair | server/processes/lobby/water13.cpp:1489-1794 | any table pays what its pairs would pay as tables of two, twice that where one of the pair wins every row from every other seat |
| RoundScoring.ReseatingMovesRows | server/processes/lobby/water13.cpp:1707-1711 | the per-row totals, by contrast, depend on the seats: under any permutation of the seats a hand's total of a row gains its scores against the hands that were before it and are now behind it, loses those against the hands that were behind it and are now before it, and changes by nothing else |
| RoundScoring.ExchangeKeepsRowsIff | server/processes/lobby/water13.cpp:1707-1711 | so when two neighbours of any table change places, each keeps its total of a row exactly if one of them is special or they tie in that row |
| RoundScoring.ExchangeKeepsOthers | server/processes/lobby/water13.cpp:1707-1711 | the exchange changes no other seat's totals |
| RoundScoring.RowScoresDependOnSeats | server/processes/lobby/water13.cpp:1707-1711 | two hands whose totals change when they are exchanged; exactly when that happens is stated above |
| RoundScoring.PaymentBounded | server/processes/lobby/water13.cpp:1773-1788 | what one entry is worth, after shooting, after the horse card and after the sweep, stays within 208 points plus the bonus, doubled at each of the two doublings |
| RoundScoring.SettlementFitsInt32 | server/processes/lobby/water13.cpp:1770-1791 | with up to eight seats and a shooting bonus of up to 2^25 every seat's running prize stays inside an int32 at every point of the settlement loops |
| RoundScoring.PrizeFitsInt32 | server/processes/lobby/water13.cpp:1773-1791 | and so does the prize they end with |
| RoundScoring.ShootingIsOnIff | server/processes/lobby/water13.cpp:1717-1735 | some hand can shoot some other exactly when daQiang is not 0, and at 0 a hand that wins all three rows is paid their plain sum |
| RoundScoring.LedgerMarksShots | server/processes/lobby/water13.cpp:1716-1742 | the entries marked as shots in a seat's ledger are exactly the seats it shoots |
| Bytes.LeRoundTrip | server/water/net/tcp_packet.cpp:27-49 | the little-endian image of a length reads back as the length |
| ConnectionBuffers.ConnectionBuffer.Readable | server/water/net/buffered_connection.cpp:13-19 | the view is the unread data |
| ConnectionBuffers.ConnectionBuffer.CommitRead | server/water/net/buffered_connection.cpp:21-36 | takes the bytes off the front, or refuses and changes nothing when there are fewer |
| ConnectionBuffers.ConnectionBuffer.Writeable | server/water/net/buffered_connection.cpp:38-53 | sliding keeps the data, and there is no room exactly when the data fills the buffer |
| ConnectionBuffers.ConnectionBuffer.CommitWrite | server/water/net/buffered_connection.cpp:55-64 | appends the bytes written to the tail, or refuses and changes nothing |
| TcpPackets.Packet.Pop | server/water/net/packet.cpp:45-57 | drops a prefix, or everything |
| TcpPackets.Packet.Copy | server/water/net/packet.cpp:59-64 | the longest prefix that fits |
| TcpPackets.Packet.SetContent | server/water/net/tcp_packet.cpp:27-33 | builds the frame of the content, whose size is cut to 32 bits, and stays inside the buffer exactly when the packet's size fits 32 bits |
| TcpPackets.Packet.Parse | server/water/net/tcp_packet.cpp:56-93 | takes a prefix of the data, of a size computed with 32-bit wrap-around, and appends exactly that |
| TcpPackets.ParseTakesWhatIsMissing | server/water/net/tcp_packet.cpp:56-93 | while the announced length fits, one parse takes all that the packet lacks or all there is, and never stops inside the header |
| TcpPackets.FreshParseWholeIff | server/water/net/tcp_packet.cpp:62-71 | the parser keeps the header whole exactly when the announced packet length fits 32 bits |
| TcpPackets.FrameParsedWholeIff | server/water/net/tcp_packet.cpp:27-93 | a frame is parsed whole in one go exactly if its content is shorter than 2^32 - 4 bytes |
| TcpPackets.TurnKeepsFramed | server/water/net/tcp_packet.cpp:51-93 | on a stream of frames one turn of parsing completes the next frame or leaves a proper beginning of it with at most a piece of header unread |
| TcpPackets.DeliveredExactly | server/water/net/tcp_packet.cpp:51-93 | with nothing but a piece of header unread, the completed frames are exactly those whose last byte has arrived |
| TcpConnections.Connection.TryRecv | server/water/net/buffered_connection.cpp:88-104 | moves bytes from the socket to the buffer and loses none; reports the peer as closed exactly if the socket answered so; answers whether there is anything to parse |
| TcpConnections.Connection.ParseAndDeliver | server/base/tcp_connection_manager.cpp:231-254 | one turn of the read loop keeps the byte stream, and a completed packet shortens what is left |
| TcpConnections.Connection.OnReadable | server/base/tcp_connection_manager.cpp:225-257 | asks the socket whenever there is room, and reports the peer as closed exactly if the socket answered so; delivered + partial packet + receive buffer + bytes under way is constant for any fragmentation; on frames it delivers the first ones in order, unless the peer closed exactly those whose last byte has been read from the socket, and a buffer of four bytes or more is not left full |
| TcpConnections.Connection.TrySend | server/water/net/buffered_connection.cpp:73-86 | sent + buffered bytes are kept; true exactly when the buffer is empty afterwards |
| TcpConnections.Connection.LoadFront | server/base/tcp_connection_manager.cpp:269-284 | copying the front packet into the buffer, whole or in part, keeps the outgoing stream and reduces the queued work |
| TcpConnections.Connection.FillSendBuffer | server/base/tcp_connection_manager.cpp:269-284 | refilling keeps the outgoing stream and strictly reduces queued bytes plus packets |
| TcpConnections.Connection.OnWritable | server/base/tcp_connection_manager.cpp:258-287 | sent + buffered + queued bytes are constant for any partial sends and packet sizes; the loop ends, with everything out or, when the socket did not take all it was given, with bytes waiting in the buffer |
| AStarSearch.RelaxedOnlyOnce | server/water/componet/astar.h:116-128 | with non-negative step costs the relaxation test, which compares with the cost of the cell being expanded, succeeds exactly on cells not searched before; a searched cell is never revised |
| AStarSearch.TreeRoute | server/water/componet/astar.h:127-128 | predecessors form a tree rooted at the start: every searched cell is reached by a route that costs what is stored for it |
| AStarSearch.ExhaustedOk | server/water/componet/astar.h:98-142 | when the frontier runs empty the goal is unreachable and the remembered cell is a nearest reachable one |
| AStarSearch.AStar.Search | server/water/componet/astar.h:89-142 | the search ends at the goal if it can be reached, otherwise at a reachable cell of least heuristic |
| AStarSearch.AStar.FindPath | server/water/componet/astar.h:87-148 | the path is a walk of enterable neighbours from the start without repetition, its step costs add up to the stored cost, and it ends as the search does; if the heuristic is consistent and the cost of a step less the heuristic of the cell it leaves depends only on the cell it leads to, no route to that end is cheaper; a goal next to the start is reached by the direct step, whatever that costs |
| AStarSearch.FlatIsEven | server/water/componet/astar.h:116-133 | that condition holds if the heuristic tells no reachable cells apart and a cell costs the same wherever it is entered from |
| AStarSearch.CloseIsOrdered | server/water/componet/astar.h:98-142 | then cells are expanded in the order of their estimates, each expanded cell finds its neighbours' stored costs as good as it could make them, and expanding one more keeps that |
| AStarSearch.StopsAtCheapest | server/water/componet/astar.h:98-105 | and where the search stops, the cost stored is at most that of every route |
| AStarSearch.AllCheapestIff | server/water/componet/astar.h:116-128 | in any world, once everything reachable has been expanded, all stored costs are those of cheapest routes exactly if no step leads to a cheaper cost than the one stored |
| AStarSearch.DetourMissed | server/water/componet/astar.h:116-128 | a search in a world where what a step costs depends on the cell it leaves returns a path that another route to the same cell undercuts |
| Combinations.CombineDecrease | server/tools/robot/deck.cpp:67-80 | appends the passing selections in recursion order and gives the caller's part of the shared index array back unchanged |
| Combinations.GeneratesEachSelectionOnce | server/tools/robot/deck.cpp:67-80 | for every array, size and test there is exactly one entry per passing index set, each a reversed strictly increasing selection |
| Combinations.AllPassCount | server/tools/robot/deck.cpp:503-513 | with a test that always passes the number of entries is the binomial coefficient |
| RobotDeck.MarkPair | server/tools/robot/deck.cpp:10-17 | a card and its first unmarked partner are marked together, or nothing is |
| RobotDeck.DelCards | server/tools/robot/deck.cpp:6-27 | keeps, in order, the cards whose partner was not found; each card to delete takes away its first partner |
| RobotDeck.RemainingIsDifference | server/tools/robot/deck.cpp:6-27 | what is kept is the multiset difference, without any card that carries the deletion mark's code |
| RobotDeck.DelCardsIsDifferenceIff | server/tools/robot/deck.cpp:12-26 | it is the plain multiset difference exactly when the source has no more cards of code 99 than are deleted |
| RobotDeck.FindFront | server/tools/robot/deck.cpp:597-645 | a front is found exactly if one of the three front categories fits; it is the first group of the best category that fits, passes its test, comes from the cards left and is no better than the middle |
| RobotDeck.TryMiddles | server/tools/robot/deck.cpp:584-647 | a category of middles yields nothing only if none of them fits |
| RobotDeck.FindMiddle | server/tools/robot/deck.cpp:572-649 | the search for a tail stops early exactly when the cards left hold a better category, and otherwise finds nothing only if nothing fits; what it finds are disjoint parts of the cards left in the right order of categories |
| RobotDeck.TryTails | server/tools/robot/deck.cpp:559-652 | a tail category yields nothing only if its tails lead nowhere up to one that is blocked by a better category |
| RobotDeck.GetRecommendPokerSet | server/tools/robot/deck.cpp:554-654 | whatever is returned for thirteen cards is a permutation of them whose tail, middle and front pass tests i <= n <= k, all better tail categories having been given up, with the first tail of its category, middle and front that go together, better categories being tried first; and nothing is returned only if every tail category had to be given up |
| LruCache.Cache.Insert | server/water/componet/limited_size_unordered_map_cache.h:71-90 | a new key goes to the front and evicts the last entry when the cache overflows; a present key changes neither value nor order |
| LruCache.Cache.Find | server/water/componet/limited_size_unordered_map_cache.h:92-103 | answers the value and moves the entry to the front |
| LruCache.Cache.EraseNode | server/water/componet/limited_size_unordered_map_cache.h:118-122 | removes exactly the entry pointed at and continues with the next one |
| LruCache.Cache.Erase | server/water/componet/limited_size_unordered_map_cache.h:124-131 | removes the key's entry and nothing else |
| LruCache.ApplyByKeys | server/water/componet/limited_size_unordered_map_cache.h:71-131 | a new key comes in front with its value and a found one moves there, an erased one is gone, present keys are not touched by insertion, and looking up or erasing one key changes the value of no other |
| LruCache.Survives | server/water/componet/limited_size_unordered_map_cache.h:71-131 | over any trace a key keeps its value while it is not erased and fewer than maxSize distinct keys, counting those ahead of it, were newly inserted or found; inserting it again meanwhile changes nothing |
| LruCache.SurvivesIff | server/water/componet/limited_size_unordered_map_cache.h:71-103 | without erasures that bound is exact, for a key that is not found again and inserted again only while it is there |
| LruCache.SurvivesFinds | server/water/componet/limited_size_unordered_map_cache.h:71-131 | a key that is not erased keeps its value while fewer than maxSize distinct keys were newly inserted or found since it was last found |
| LruCache.SurvivesFindsIff | server/water/componet/limited_size_unordered_map_cache.h:71-103 | without erasures, whatever is inserted and found, it has been there all along exactly if that was so all along |
| LruCache.SurvivesSinceTouch | server/water/componet/limited_size_unordered_map_cache.h:71-131 | over any trace from an empty cache, a key keeps the value it has after the operation that last inserted or found it, which is the one inserted if that was an insertion, as long as it is not erased and fewer than maxSize distinct keys were newly inserted or found since |
| LruCache.ValueIsTheInserted | server/water/componet/limited_size_unordered_map_cache.h:71-131 | after any trace from an empty cache v is stored under k exactly if some operation inserted v under k while k was absent and k has been there ever since: never a value offered while k was there, nor one from before k was lost |
| FastTravelMaps.SwapRemoveKeeps | server/water/componet/fast_travel_unordered_map.h:145-156 | moving the last entry into the gap keeps every entry indexed and removes exactly one key from the map |
| FastTravelMaps.FastTravelMap.Insert | server/water/componet/fast_travel_unordered_map.h:68-78 | adds the entry if the key is new and otherwise changes nothing |
| FastTravelMaps.FastTravelMap.Find | server/water/componet/fast_travel_unordered_map.h:98-107 | the place of the key's entry or the end; the corruption exception cannot occur |
| FastTravelMaps.FastTravelMap.Locate | server/water/componet/fast_travel_unordered_map.h:80-91 | operator[]: the key's entry, made with a blank value if it was missing |
| FastTravelMaps.FastTravelMap.Assign | server/processes/gateway/anysdk_login_manager.cpp:308 | map[key] = value enters a new pair at the end or replaces the value where it stands, and touches no other entry |
| FastTravelMaps.FastTravelMap.EraseKey | server/water/componet/fast_travel_unordered_map.h:129-157 | removes exactly the key, also as the only entry; the corruption exception cannot occur |
| FastTravelMaps.FastTravelMap.EraseAt | server/water/componet/fast_travel_unordered_map.h:118-127 | removes the entry pointed at and answers the same place |
| FastTravelMaps.FastTravelMap.Sweep | server/processes/gateway/anysdk_login_manager.cpp:398-407 | erasing while iterating ends, looks at every original entry exactly once and removes exactly those that match |
| ClientManagers.ClientManager.TakeKeys | server/processes/lobby/client_manager.cpp:160-173 | takes all three keys or, after rolling back, none |
| ClientManagers.ClientManager.Insert | server/processes/lobby/client_manager.cpp:155-174 | registers the client under its keys exactly when all three are free |
| ClientManagers.ClientManager.Erase | server/processes/lobby/client_manager.cpp:176-181 | takes a registered client out of all three indexes and leaves the others |
| ClientManagers.ClientManager.GetByCcid | server/processes/lobby/client_manager.cpp:183-189 | the registered client with that connection id, or null exactly if there is none |
| ClientManagers.ClientManager.Login | server/processes/lobby/client_manager.cpp:273-417 | through new, reloaded and replaced logins, collisions with rollback and failed saves, the three indexes stay views of one register; which client is concerned, which result it gets and how the register changes is stated for every case; the id counter advances by one exactly for a verified login of an openid neither online nor on record whose id was saved, and no two new clients are given the same saved id |
| ClientManagers.ClientManager.TimerExecAll | server/processes/lobby/client_manager.cpp:101-125 | removes exactly the clients outside rooms whose disconnection is less than 600 seconds back (or ahead), from all three indexes; a disconnected client outside rooms is kept exactly if 600 seconds have passed |
| ClientManagers.CleanUpMeansItIff | server/processes/lobby/client_manager.cpp:105-125 | the clean-up's test means what its message says of a client exactly if the client is connected, in a room, or gone for 600 seconds to the second |
| ClientManagers.CleanUpDropsTheWrongOnes | server/processes/lobby/client_manager.cpp:105-125 | a client gone for an hour is kept and one gone for a second is dropped |
| ClientManagers.ClientManager.RegisteredDistinct | server/processes/lobby/client_manager.cpp:155-181 | no two registered clients share a key |
| ClientManagers.OldConnectionForgotten | server/processes/lobby/client_manager.cpp:372-383 | after a replacement the old connection id resolves to nothing exactly when the new one differs, and the new one to this client alone |
| Serialization.DecodeEncoding | server/water/componet/serialize.h:302-507 | wherever an encoding stands, decoding yields the value merged into the object read into and stops exactly at its end, for any nesting of containers |
| Serialization.RoundTripIff | server/water/componet/serialize.h:94-507 | between any other bytes the value comes back exactly when no forward list that is read into holds anything yet |
| Serialization.MergeIff | server/water/componet/serialize.h:422-441 | merging leaves the value as it is exactly when those forward lists are empty |
| Serialization.MergeOfContainers | server/water/componet/serialize.h:302-507 | a forward list gets the new elements in front of its old ones; every other container forgets what it held |
| Serialization.Unambiguous | server/water/componet/serialize.h:94-261 | encodings of one type are a prefix code |
| Serialization.EncodedAs | server/water/componet/serialize.h:94-261 | a string or container is preceded by its length in eight bytes, lowest first, and nothing else is added |
| Serialization.EmitIsEncodingIff | server/water/componet/serialize.h:95-103 | the bytes appended are the encoding exactly when no string or plain object has 2^32 bytes or more |
| Serialization.WrittenReadsBack | server/water/componet/serialize.h:94-507 | what a successful write appended reads back as the value, whatever follows |
| Serialization.RawBuffer.Append | server/water/componet/raw_buffer.cpp:102-111 | appends the bytes, their number cut to 32 bits, or throws and changes nothing when they do not fit |
| Serialization.RawBuffer.ByteAt | server/water/componet/raw_buffer.cpp:47-59 | the byte, or an exception exactly outside the memory |
| Serialization.Serialize.Write | server/water/componet/serialize.h:94-261 | a write succeeds exactly if the bytes fit; then it has appended them, otherwise only a prefix of them |
| Serialization.Deserialize.Read | server/water/componet/serialize.h:302-507 | wherever decoding is defined, reading yields its value and position |
| UrlCodec.UrlCode.Encode | server/processes/http/url_en_decode.cpp:30-58 | its chain of comparisons keeps exactly letters, digits, '-', '.' and '_' and escapes the rest |
| UrlCodec.EncodedByteAs | server/processes/http/url_en_decode.cpp:30-58 | which characters stay, which becomes '+', and how the others are escaped, in character codes |
| UrlCodec.UrlCode.Decode | server/processes/http/url_en_decode.cpp:60-86 | decodes escapes and '+', passes malformed escapes through, and looks at as many bytes as the length cut to 32 bits says, or past the end when that is negative |
| UrlCodec.IntRoundTripIff | server/processes/http/url_en_decode.cpp:30-86 | the encoded text comes back from that decoder exactly when it is shorter than 2^31 bytes |
| UrlCodec.UrlCode.PhpHtoi | server/processes/http/url_en_decode.cpp:15-28 | the value of two hexadecimal digits of either case, and what comes out for any other characters |
| UrlCodec.UriEncode | server/water/componet/url_encrypt.cpp:21-43 | like the other encoder but keeping '~' |
| UrlCodec.UriDecode | server/water/componet/url_encrypt.cpp:45-62 | decodes, or hits an assert at the first malformed escape |
| UrlCodec.EveryPairRoundTrips | server/water/componet/url_encrypt.cpp:21-62 | for every byte string each decoder undoes each encoder, the asserting one never asserts, and the encoded text can stand in a query |
| UrlCodec.DecodersAgreeIff | server/processes/http/url_en_decode.cpp:60-86 | on any input the two decoders agree exactly when every '%' starts a proper escape |
| HandRanking.SortRange | server/processes/lobby/deck.cpp:53-54 | leaves that part of the hand in order with the same cards, and touches nothing around it |
| HandRanking.CardNumbers | server/processes/lobby/deck.h:211-222 | the cards of each suit are numbered in the order of their ranks, suit after suit |
| HandRanking.RangeIsSorted | server/processes/lobby/deck.h:223-237 | that determines the result, because no two cards tie |
| HandRanking.InfoIgnoresOrder | server/processes/lobby/deck.cpp:46-225 | the evaluation depends only on which cards are held |
| HandRanking.BrandInfo5 | server/processes/lobby/deck.cpp:46-225 | sorts the five cards and gives the category defined by counting ranks and suits, with its score |
| HandRanking.CategoryIsBest | server/processes/lobby/deck.cpp:66-225 | that category is the best one that the hand shows |
| HandRanking.Brand5 | server/processes/lobby/deck.cpp:679-753 | the second classifier always finds the same category |
| HandRanking.BrandInfo3 | server/processes/lobby/deck.cpp:227-262 | the same for three cards |
| HandRanking.BrandInfoOf | server/processes/lobby/deck.cpp:7-43 | a row without jokers goes to the classifier of its size and is sorted in place; one with jokers is left as it is and judged by its other cards |
| HandRanking.RowIgnoresOrder | server/processes/lobby/deck.cpp:7-43 | with or without jokers, whatever they count for, the evaluation of a row depends only on which cards it holds |
| HandRanking.PairKeyLists | server/processes/lobby/deck.cpp:116-225 | the key of a hand lists its ranks: larger pair, smaller pair and single; pair and the rest descending; or all descending |
| HandRanking.MiddleIsMajority | server/processes/lobby/deck.cpp:96-114 | in the categories scored by one rank it is the rank held three times or more, and the points are that rank counted from 1 |
| HandRanking.ScoreOrder | server/processes/lobby/deck.cpp:58-224 | for two hands of one category the base-14 points compare exactly as their keys lexicographically, and fit an int32 |
| HandRanking.ComparisonMeaning | server/processes/lobby/deck.h:239-251 | comparing two five-card evaluations is comparing categories and then keys |
| HandRanking.StraightsInOrder | server/processes/lobby/deck.cpp:86-93 | of straights 10 J Q K A is the highest and A 2 3 4 5 the second, and below them the top card decides |
| HandRanking.ComparisonMeaning3 | server/processes/lobby/deck.cpp:237-261 | the same for three cards, although an ace counts 14 in base 14 |
| HandRanking.Key3Lists | server/processes/lobby/deck.cpp:237-261 | the key of three cards is the rank of the three, the pair and the single, or all three descending |
| RoundEvaluation.FindSpecial | server/processes/lobby/deck.cpp:777-816 | finding the special pattern leaves all thirteen cards of the copy sorted |
| RoundEvaluation.EvaluateSeat | server/processes/lobby/water13.cpp:1469-1486 | each row of the round's copy is evaluated in place and sorted if it holds no joker; nothing else moves unless the hand is declared special, when the whole copy ends up sorted; the hand compared is the evaluation of the layout |
| RoundEvaluation.MayBringOut | server/processes/lobby/water13_card.cpp:221-251 | the check on a layout allows exactly special patterns without jokers and rows that do not get weaker |
| RoundEvaluation.AllowedInOrder | server/processes/lobby/water13_card.cpp:243-251 | without a special pattern a layout is allowed exactly if no row is beaten by the one before it, in category, then points, then the joker |
| RoundEvaluation.AllowedByKeys | server/processes/lobby/water13_card.cpp:243-251 | so without jokers the last two rows of an allowed layout are in order by category and then by their keys |
| RoundEvaluation.EvaluationIgnoresRowOrder | server/processes/lobby/water13.cpp:1475-1485 | the evaluation of a layout depends only on which cards lie in which row, whatever jokers and the special pattern count for; a hand declared special holds no joker |
| RoundEvaluation.AllowedIgnoresRowOrder | server/processes/lobby/water13_card.cpp:221-251 | whether a layout is allowed depends only on which cards lie in which row |
| RoundEvaluation.PrizesIgnoreRowOrder | server/processes/lobby/water13.cpp:1464-1796 | so do all prizes of a round |
| DeckBuilding.IsSubset | server/processes/lobby/water13.cpp:1798-1831 | the two-pointer test is multiset inclusion |
| DeckBuilding.SuitsInside | server/processes/lobby/water13_card.cpp:378-384 | a choice of suits passes exactly if all are suits and none is named twice |
| DeckBuilding.CheckAttr | server/processes/lobby/water13_card.cpp:303-395 | a room may be created exactly if its attributes are legal, and otherwise the result names the first check that failed |
| DeckBuilding.BuildDeck | server/processes/lobby/water13.cpp:940-984 | builds the deck specified |
| DeckBuilding.DefaultSuitsInNumbers | server/processes/lobby/water13.cpp:970-979 | without a choice, tables of five to eight add spades, hearts, clubs and diamonds in turn |
| DeckBuilding.DeckCounts | server/processes/lobby/water13.cpp:940-984 | how often the deck holds each card |
| DeckBuilding.DeckIsCards | server/processes/lobby/water13.cpp:940-984 | the deck of a legal room holds nothing but cards and jokers |
| DeckBuilding.DeckSuffices | server/processes/lobby/water13.cpp:940-984 | every legal room has thirteen cards for each of its players |
| GameRooms.DealHands | server/processes/lobby/water13.cpp:1014-1033 | every seat that does not watch gets the next share of the deck, sorted |
| GameRooms.NeverPastTheDeck | server/processes/lobby/water13.cpp:1014-1030 | dealing never runs past the deck, whoever watches |
| GameRooms.Game.ReadyToStart | server/processes/lobby/water13.cpp:900-934 | a round may start at once after a quick start, before the first round exactly if every seat is taken, ready and online, and between rounds exactly if every seat that plays is ready or still compared |
| GameRooms.Game.TryStartRound | server/processes/lobby/water13.cpp:900-1125 | a round starts exactly then; from any shuffle of the deck it deals as specified, puts aside what a banker game keeps back, never runs past the deck, and leaves every playing seat of an ordinary game with a share of the deck of its own |
| GameRooms.Game.DealEight | server/processes/lobby/water13.cpp:1021-1108 | the first deal of a banker game, with the cards put aside, takes no more of the deck than thirteen cards for each seat that does not watch |
| GameRooms.Game.Sit | server/processes/lobby/water13.cpp:489-530 | a player takes an empty seat to play before the game and to watch after; the hands in play stay as they are |
| GameRooms.HandsAreDisjoint | server/processes/lobby/water13.cpp:1028-1033 | from the deal to the settlement the hands together hold no card more often than the deck |
| GameRooms.Game.BringOut | server/processes/lobby/water13_card.cpp:187-262 | a layout is accepted exactly if the game and seat are at that point and the numbers sent, cut to 16 bits, are a permutation of the dealt hand that makes allowed rows; a refusal changes nothing |
| GameRooms.Game.TrySettleGame | server/processes/lobby/water13.cpp:1127-1182 | settles exactly when every playing seat has laid out and is online; the prizes and shots recorded are those of the hands made of the cards laid out, with them who sat where with which cards, sweeps and row totals; ranks grow by the prizes, hands stay, and who plays has to get ready again |
| GameRooms.SettlementIgnoresRowOrder | server/processes/lobby/water13.cpp:1127-1151 | the order in which players laid out the cards within their rows changes nobody's prize |
| GameRooms.RanksSumToZero | server/processes/lobby/water13.cpp:1141-1151 | over any number of rounds the ranks of all seats sum to zero |
| GameRooms.Game.TrySettleAll | server/processes/lobby/water13_card.cpp:502-607 | the totals reported are the seats' ranks and their rounds won, shot and swept; with winners paying, the charge is as below |
| GameRooms.CountedByRounds | server/processes/lobby/water13_card.cpp:532-560 | a seat's reported numbers are those of the rounds it won points in, shot somebody in, and swept |
| GameRooms.DaqiangIsShotsIff | server/processes/lobby/water13_card.cpp:537-556 | the reported number is at most that of the shots, and equal to it exactly if no recorded round has two or more shots by that seat |
| GameRooms.TwoShotsCountOnce | server/processes/lobby/water13_card.cpp:537-556 | two shots in one round are reported as one |
| GameRooms.ChargeWinners | server/processes/lobby/water13_card.cpp:578-602 | the charged group is exactly the seats of highest rank, and the total charged for a bill P is in (P - k, P] for k winners |

## Left out

- MpmcQueue: ticket wrap at 2^32, weak memory order, `empty()` and `full()` of the multi-producer queue.
- SpscQueue: weak memory order; questions asked by the other side while a call is in progress.
- AStarSearch.AStar.FindPath: that the path is a cheapest one is proved under the condition of its row only; a search outside it may find a cheapest path too, and nothing is said of how far from the cheapest it can be. Requires finitely many reachable cells and non-negative step costs.
- TcpConnections.Connection.OnReadable: stops at the receive queue, whose push result the source ignores; a closing peer is noticed before the buffered rest is parsed, as in the source.
- TcpPackets.Packet.SetContent: what the memory holds once a content has been copied past the end of the buffer.
- `sendPacket` (tcp_connection_manager.cpp:449-466) and packets shared between connections: the drain loop is modelled from the queue on.
- RoundEvaluation: what jokers count for and the special pattern are arbitrary functions of the cards the source passes to them; a hand declared special with jokers in it, which `bringOut` refuses and on which the pattern would assert.
- RoundScoring: the evaluated hand is a parameter, which RoundEvaluation provides; ranks accumulated over many rounds are unbounded integers.
- HandRanking: what jokers count for, special thirteen-card patterns, and any claim that the front row is weaker than the middle one (their scores use different offsets).
- LruCache: the `const` find, which would have to splice a const list.
- ClientManagers.ClientManager.Insert: the null pointer, which no caller passes.
- ClientManagers: sending messages, online notifications, recharging, and what redis does with the records; a record read from the database is an object not registered yet.
- Serialization: how unordered containers order their elements (a container is the sequence iteration yields, and elements are equal when they are the same value); counts are eight little-endian bytes; allocation failures on huge counts.
- Serialization.Deserialize.Read: promises nothing where the source would read memory it does not own or leave part of an object unset.
- UrlCodec.UrlCode.Decode: what the bytes past the end are, where the source reads them.
- Combinations, RobotDeck: the tests for each category and the comparisons of equal categories are parameters.
- GameRooms: the second deal of a banker game, which sorts the hand between its writes, votes, renewal of a room, the fixed decks of the test configuration, who leaves and enters beyond taking an empty seat, and money charged at the start; what a hand holds before the first deal is any thirteen cards, where the source leaves it uninitialised.
- GameRooms.ChargeWinners: every winner is taken to be online, as settlement has just required.
- GameRooms.Game.TrySettleAll: nothing is said about the charge when price times seats is negative or does not fit an int32.
- Sockets, epoll, threads, signals, HTTP, XML, MySQL, coroutines, logging and code generators.
