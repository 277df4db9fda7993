/** The multi-producer, multi-consumer ring queue of lock_free_circular_queue_mm.h as a step machine.

    Every atomic load, store or compare-exchange of `push` and `pop`, and every access to a cell's
    item, is one step of one thread; a run is any interleaving of such steps.  Tickets are unbounded
    naturals and memory is sequentially consistent.  A weak compare-exchange may fail for no reason,
    which a step's `spurious` flag decides.

    `pushed`, `popped` and `holder` are history variables: no step reads them to choose what to do. */
module MpmcQueue {
  import opened Ring
  import opened Wrappers

  datatype Status = Writing | Reading | Empty | Full

  datatype Cell<T> = Cell(status: Status, item: T)

  const PUSH_TRIES := 5
  const POP_TRIES := 5
  const MAX_POW := 24

  /** Where a thread stands.  `tries` is the source's loop counter i; `ticket` is the value of m_end
      (or m_begin) that the thread loaded, and stays the ticket it owns once the claim succeeded. */
  datatype Pc<T> =
    | Idle
    | PushLoadEnd(item: T, tries: nat)
    | PushLoadStatus(item: T, tries: nat, ticket: nat)
    | PushLock(item: T, tries: nat, ticket: nat)
    | PushClaim(item: T, tries: nat, ticket: nat)
    | PushRollback(item: T, tries: nat, ticket: nat)
    | PushWrite(item: T, ticket: nat)
    | PushPublish(item: T, ticket: nat)
    | PushReturned(ok: bool)
    | PopLoadBegin(tries: nat)
    | PopLoadStatus(tries: nat, ticket: nat)
    | PopLock(tries: nat, ticket: nat)
    | PopClaim(tries: nat, ticket: nat)
    | PopRollback(tries: nat, ticket: nat)
    | PopRead(ticket: nat)
    | PopClear(ticket: nat, value: T)
    | PopRelease(ticket: nat, value: T)
    | PopReturned(got: Option<(nat, T)>)
  {
    /** The thread has set its cell's status to Writing and not yet given it back. */
    predicate HoldsWriting() { PushClaim? || PushRollback? || PushWrite? || PushPublish? }

    /** The thread has set its cell's status to Reading and not yet given it back. */
    predicate HoldsReading() { PopClaim? || PopRollback? || PopRead? || PopClear? || PopRelease? }

    predicate Holds() { HoldsWriting() || HoldsReading() }

    /** The thread's own ticket was granted by a successful claim. */
    predicate CommittedWriter() { PushWrite? || PushPublish? }

    predicate CommittedReader() { PopRead? || PopClear? || PopRelease? }

    predicate Running() { !Idle? && !PushReturned? && !PopReturned? }
  }

  datatype Action<T> = CallPush(item: T) | CallPop | Run(spurious: bool)

  datatype State<T> = State(
    cap: nat, blank: T,
    begin: nat, end: nat, cells: seq<Cell<T>>, threads: map<nat, Pc<T>>,
    pushed: seq<T>, popped: map<nat, T>, holder: map<nat, nat>)

  predicate Shaped<T>(s: State<T>) {
    s.cap > 0 && |s.cells| == s.cap
  }

  /** A queue just constructed; any set of threads, none of them inside a call. */
  ghost predicate Init<T(!new)>(s: State<T>) {
    && Shaped(s)
    && s.begin == 0 && s.end == 0 && s.pushed == [] && s.popped == map[] && s.holder == map[]
    && (forall i | 0 <= i < s.cap :: s.cells[i].status == Empty)
    && (forall id | id in s.threads :: s.threads[id] == Idle)
  }

  /** The constructor: 2^powArg cells, at most 2^24; `ids` are the threads that will use the queue. */
  function NewQueue<T(!new)>(powArg: nat, blank: T, ids: set<nat>): (s: State<T>)
    ensures Init(s) && s.cap == Pow2(if powArg < 24 then powArg else 24) && s.threads.Keys == ids
  {
    var cap := Pow2(if powArg < MAX_POW then powArg else MAX_POW);
    State(cap, blank, 0, 0, seq(cap, i => Cell(Empty, blank)), map id | id in ids :: Idle, [], map[], map[])
  }

  function At<T>(s: State<T>, id: nat, pc: Pc<T>): State<T> { s.(threads := s.threads[id := pc]) }

  function SetStatus<T>(s: State<T>, i: nat, st: Status): State<T>
    requires i < |s.cells|
  {
    s.(cells := s.cells[i := s.cells[i].(status := st)])
  }

  function SetItem<T>(s: State<T>, i: nat, item: T): State<T>
    requires i < |s.cells|
  {
    s.(cells := s.cells[i := s.cells[i].(item := item)])
  }

  function Acquire<T>(s: State<T>, i: nat, id: nat): State<T> { s.(holder := s.holder[i := id]) }

  function Free<T>(s: State<T>, i: nat): State<T> { s.(holder := s.holder - {i}) }

  /** One step of `push` for thread `id`. */
  function StepPush<T>(s: State<T>, id: nat, spurious: bool): State<T>
    requires Shaped(s) && id in s.threads
  {
    match s.threads[id]
    case PushLoadEnd(item, tries) =>
      if tries == PUSH_TRIES then At(s, id, PushReturned(false))
      else At(s, id, PushLoadStatus(item, tries + 1, s.end))
    case PushLoadStatus(item, tries, e) =>
      if s.cells[Slot(e, s.cap)].status != Empty then At(s, id, PushLoadEnd(item, tries))
      else At(s, id, PushLock(item, tries, e))
    case PushLock(item, tries, e) =>
      var i := Slot(e, s.cap);
      if s.cells[i].status != Empty || spurious then At(s, id, PushLoadEnd(item, tries))
      else At(Acquire(SetStatus(s, i, Writing), i, id), id, PushClaim(item, tries, e))
    case PushClaim(item, tries, e) =>
      if s.end != e || spurious then At(s, id, PushRollback(item, tries, e))
      else At(s.(end := e + 1, pushed := s.pushed + [item]), id, PushWrite(item, e))
    case PushRollback(item, tries, e) =>
      var i := Slot(e, s.cap);
      At(Free(SetStatus(s, i, Empty), i), id, PushLoadEnd(item, tries))
    case PushWrite(item, e) =>
      At(SetItem(s, Slot(e, s.cap), item), id, PushPublish(item, e))
    case PushPublish(item, e) =>
      var i := Slot(e, s.cap);
      At(Free(SetStatus(s, i, Full), i), id, PushReturned(true))
    case _ => s
  }

  /** One step of `pop` for thread `id`. */
  function StepPop<T>(s: State<T>, id: nat, spurious: bool): State<T>
    requires Shaped(s) && id in s.threads
  {
    match s.threads[id]
    case PopLoadBegin(tries) =>
      if tries == POP_TRIES then At(s, id, PopReturned(None))
      else At(s, id, PopLoadStatus(tries + 1, s.begin))
    case PopLoadStatus(tries, b) =>
      if s.cells[Slot(b, s.cap)].status != Full then At(s, id, PopLoadBegin(tries))
      else At(s, id, PopLock(tries, b))
    case PopLock(tries, b) =>
      var i := Slot(b, s.cap);
      if s.cells[i].status != Full || spurious then At(s, id, PopLoadBegin(tries))
      else At(Acquire(SetStatus(s, i, Reading), i, id), id, PopClaim(tries, b))
    case PopClaim(tries, b) =>
      if s.begin != b || spurious then At(s, id, PopRollback(tries, b))
      else At(s.(begin := b + 1), id, PopRead(b))
    case PopRollback(tries, b) =>
      var i := Slot(b, s.cap);
      At(Free(SetStatus(s, i, Full), i), id, PopLoadBegin(tries))
    case PopRead(b) =>
      var value := s.cells[Slot(b, s.cap)].item;
      At(s.(popped := s.popped[b := value]), id, PopClear(b, value))
    case PopClear(b, value) =>
      At(SetItem(s, Slot(b, s.cap), s.blank), id, PopRelease(b, value))
    case PopRelease(b, value) =>
      var i := Slot(b, s.cap);
      At(Free(SetStatus(s, i, Empty), i), id, PopReturned(Some((b, value))))
    case _ => s
  }

  /** A call may start whenever the thread is not inside one; the loop counter of `push` starts at 0
      and that of `pop` at 1. */
  function Step<T>(s: State<T>, id: nat, act: Action<T>): State<T>
    requires Shaped(s) && id in s.threads
  {
    var pc := s.threads[id];
    match act
    case CallPush(item) => if pc.Running() then s else At(s, id, PushLoadEnd(item, 0))
    case CallPop => if pc.Running() then s else At(s, id, PopLoadBegin(1))
    case Run(spurious) =>
      if pc.Idle? || pc.PushReturned? || pc.PopReturned? then s
      else if pc.PopLoadBegin? || pc.PopLoadStatus? || pc.PopLock? || pc.HoldsReading() then StepPop(s, id, spurious)
      else StepPush(s, id, spurious)
  }

  // ---------------------------------------------------------------- invariant

  /** What the cell of a pushed and not yet claimed ticket looks like. */
  ghost predicate OccupiedOk<T>(s: State<T>, t: nat)
    requires Shaped(s)
  {
    var i := Slot(t, s.cap);
    && t < |s.pushed|
    && if i in s.holder then
         s.holder[i] in s.threads &&
         var pc := s.threads[s.holder[i]];
         || (pc.CommittedWriter() && pc.ticket == t)
         || ((pc.PopClaim? || pc.PopRollback?) && s.cells[i].item == s.pushed[t])
       else
         s.cells[i].status == Full && s.cells[i].item == s.pushed[t]
  }

  /** What the cell of a ticket not yet granted to a producer looks like. */
  ghost predicate VacantOk<T>(s: State<T>, t: nat)
    requires Shaped(s)
  {
    var i := Slot(t, s.cap);
    if i in s.holder then
      s.holder[i] in s.threads &&
      var pc := s.threads[s.holder[i]];
      || pc.PushClaim? || pc.PushRollback?
      || (pc.CommittedReader() && pc.ticket + s.cap == t)
    else
      s.cells[i].status == Empty
  }

  /** What is known about thread `id` from its own program counter. */
  ghost predicate ThreadOk<T>(s: State<T>, id: nat)
    requires Shaped(s) && id in s.threads
  {
    var pc := s.threads[id];
    && (pc.Holds() ==> Slot(pc.ticket, s.cap) in s.holder && s.holder[Slot(pc.ticket, s.cap)] == id)
    && (pc.CommittedWriter() ==>
          s.begin <= pc.ticket < s.end && pc.ticket < |s.pushed| && pc.item == s.pushed[pc.ticket])
    && (pc.PushPublish? ==> s.cells[Slot(pc.ticket, s.cap)].item == pc.item)
    && (pc.CommittedReader() ==> pc.ticket < s.begin && s.end <= pc.ticket + s.cap && pc.ticket < |s.pushed|)
    && (pc.PopRead? ==> pc.ticket !in s.popped && s.cells[Slot(pc.ticket, s.cap)].item == s.pushed[pc.ticket])
    && (pc.PopClear? || pc.PopRelease? ==> pc.ticket in s.popped && pc.value == s.popped[pc.ticket])
    && (pc.PopReturned? && pc.got.Some? ==> pc.got.value.0 in s.popped && s.popped[pc.got.value.0] == pc.got.value.1)
  }

  /** A busy cell has exactly the holder that made it busy. */
  ghost predicate CellOk<T>(s: State<T>, i: nat)
    requires Shaped(s) && i < s.cap
  {
    if i in s.holder then
      && s.holder[i] in s.threads
      && var pc := s.threads[s.holder[i]];
         pc.Holds() && Slot(pc.ticket, s.cap) == i
         && s.cells[i].status == (if pc.HoldsWriting() then Writing else Reading)
    else
      s.cells[i].status == Empty || s.cells[i].status == Full
  }

  /** A granted pop ticket has been read, or its owner is just about to read it. */
  ghost predicate ClaimedOk<T>(s: State<T>, t: nat)
    requires Shaped(s)
  {
    if t in s.popped then
      t < |s.pushed| && s.popped[t] == s.pushed[t]
    else
      var i := Slot(t, s.cap);
      i in s.holder && s.holder[i] in s.threads && s.threads[s.holder[i]] == PopRead(t)
  }

  ghost predicate Bounds<T>(s: State<T>) {
    && Shaped(s)
    && s.begin <= s.end <= s.begin + s.cap && |s.pushed| == s.end
    && (forall i | i in s.holder :: i < s.cap)
    && (forall t | t in s.popped :: t < s.begin)
  }

  ghost predicate Inv<T(!new)>(s: State<T>) {
    && Bounds(s)
    && (forall id | id in s.threads :: ThreadOk(s, id))
    && (forall i | 0 <= i < s.cap :: CellOk(s, i))
    && (forall t | s.begin <= t < s.end :: OccupiedOk(s, t))
    && (forall t | s.end <= t < s.begin + s.cap :: VacantOk(s, t))
    && (forall t | 0 <= t < s.begin :: ClaimedOk(s, t))
  }

  // ---------------------------------------------------------------- every step keeps the invariant

  lemma InitInv<T(!new)>(s: State<T>)
    requires Init(s)
    ensures Inv(s)
  {}

  lemma MoveKeeps<T(!new)>(s: State<T>, id: nat, pc: Pc<T>)
    requires Inv(s) && id in s.threads && !s.threads[id].Holds()
    requires !pc.Holds() && !(pc.PopReturned? && pc.got.Some?)
    ensures Inv(At(s, id, pc))
  {
    var s' := At(s, id, pc);
    forall k | k in s'.threads ensures ThreadOk(s', k) { assert k == id || ThreadOk(s, k); }
    forall i | 0 <= i < s.cap ensures CellOk(s', i) { assert CellOk(s, i); }
    forall t | s.begin <= t < s.end ensures OccupiedOk(s', t) { assert OccupiedOk(s, t) && CellOk(s, Slot(t, s.cap)); }
    forall t | s.end <= t < s.begin + s.cap ensures VacantOk(s', t) {
      assert VacantOk(s, t) && CellOk(s, Slot(t, s.cap));
    }
    forall t | 0 <= t < s.begin ensures ClaimedOk(s', t) { assert ClaimedOk(s, t); }
  }

  /** A failed claim only changes the holder's program counter. */
  lemma FailKeeps<T(!new)>(s: State<T>, id: nat, pc: Pc<T>)
    requires Inv(s) && id in s.threads
    requires var was := s.threads[id];
      || (was.PushClaim? && pc == PushRollback(was.item, was.tries, was.ticket))
      || (was.PopClaim? && pc == PopRollback(was.tries, was.ticket))
    ensures Inv(At(s, id, pc))
  {
    var s' := At(s, id, pc);
    forall k | k in s'.threads ensures ThreadOk(s', k) { assert ThreadOk(s, k); }
    forall i | 0 <= i < s.cap ensures CellOk(s', i) { assert CellOk(s, i); }
    forall t | s.begin <= t < s.end ensures OccupiedOk(s', t) { assert OccupiedOk(s, t); }
    forall t | s.end <= t < s.begin + s.cap ensures VacantOk(s', t) { assert VacantOk(s, t); }
    forall t | 0 <= t < s.begin ensures ClaimedOk(s', t) { assert ClaimedOk(s, t); }
  }

  /** `s'` differs from `s` only in thread `id` and cell `i`, which no other thread holds. */
  ghost predicate OnlyAt<T>(s: State<T>, s': State<T>, id: nat, i: nat)
    requires Shaped(s) && i < s.cap && id in s.threads
  {
    && s' == s.(cells := s'.cells, threads := s'.threads, holder := s'.holder)
    && |s'.cells| == s.cap && s'.cells == s.cells[i := s'.cells[i]]
    && s'.threads.Keys == s.threads.Keys && s'.threads == s.threads[id := s'.threads[id]]
    && (s.threads[id].Holds() ==> Slot(s.threads[id].ticket, s.cap) == i)
    && (i in s.holder ==> s.holder[i] == id)
    && s'.holder - {i} == s.holder - {i}
  }

  lemma HolderFrame<T>(s: State<T>, s': State<T>, id: nat, i: nat, j: nat)
    requires Shaped(s) && i < s.cap && id in s.threads && OnlyAt(s, s', id, i) && j != i
    ensures j in s'.holder <==> j in s.holder
    ensures j in s.holder ==> s'.holder[j] == s.holder[j]
  {
    assert j in s.holder <==> j in s.holder - {i};
    assert j in s'.holder <==> j in s'.holder - {i};
    if j in s.holder { assert s.holder[j] == (s.holder - {i})[j] == (s'.holder - {i})[j]; }
  }

  lemma ThreadFrame<T(!new)>(s: State<T>, s': State<T>, id: nat, i: nat, k: nat)
    requires Inv(s) && i < s.cap && id in s.threads && OnlyAt(s, s', id, i) && k in s.threads && k != id
    ensures ThreadOk(s', k)
  {
    assert ThreadOk(s, k);
    if s.threads[k].Holds() { HolderFrame(s, s', id, i, Slot(s.threads[k].ticket, s.cap)); }
  }

  lemma CellFrame<T(!new)>(s: State<T>, s': State<T>, id: nat, i: nat, j: nat)
    requires Inv(s) && i < s.cap && id in s.threads && OnlyAt(s, s', id, i) && j < s.cap && j != i
    ensures CellOk(s', j)
  {
    assert CellOk(s, j);
    HolderFrame(s, s', id, i, j);
  }

  lemma TicketFrame<T(!new)>(s: State<T>, s': State<T>, id: nat, i: nat, t: nat)
    requires Inv(s) && i < s.cap && id in s.threads && OnlyAt(s, s', id, i) && Slot(t, s.cap) != i
    ensures OccupiedOk(s, t) ==> OccupiedOk(s', t)
    ensures VacantOk(s, t) ==> VacantOk(s', t)
    ensures ClaimedOk(s, t) ==> ClaimedOk(s', t)
  {
    assert CellOk(s, Slot(t, s.cap));
    HolderFrame(s, s', id, i, Slot(t, s.cap));
  }

  /** A step at one cell keeps the invariant once it is checked at that cell. */
  lemma LocalKeeps<T(!new)>(s: State<T>, s': State<T>, id: nat, i: nat)
    requires Inv(s) && i < s.cap && id in s.threads && OnlyAt(s, s', id, i) && Bounds(s')
    requires ThreadOk(s', id) && CellOk(s', i)
    requires forall t | s.begin <= t < s.end && Slot(t, s.cap) == i :: OccupiedOk(s', t)
    requires forall t | s.end <= t < s.begin + s.cap && Slot(t, s.cap) == i :: VacantOk(s', t)
    requires forall t | 0 <= t < s.begin && Slot(t, s.cap) == i :: ClaimedOk(s', t)
    ensures Inv(s')
  {
    forall k | k in s'.threads ensures ThreadOk(s', k) { if k != id { ThreadFrame(s, s', id, i, k); } }
    forall j | 0 <= j < s.cap ensures CellOk(s', j) { if j != i { CellFrame(s, s', id, i, j); } }
    forall t | s.begin <= t < s.end ensures OccupiedOk(s', t) {
      if Slot(t, s.cap) != i { assert OccupiedOk(s, t); TicketFrame(s, s', id, i, t); }
    }
    forall t | s.end <= t < s.begin + s.cap ensures VacantOk(s', t) {
      if Slot(t, s.cap) != i { assert VacantOk(s, t); TicketFrame(s, s', id, i, t); }
    }
    forall t | 0 <= t < s.begin ensures ClaimedOk(s', t) {
      if Slot(t, s.cap) != i { assert ClaimedOk(s, t); TicketFrame(s, s', id, i, t); }
    }
  }

  lemma LockLocal<T(!new)>(s: State<T>, s': State<T>, id: nat, i: nat, st: Status, pc: Pc<T>)
    requires Inv(s) && id in s.threads && i < s.cap && !s.threads[id].Holds()
    requires s.cells[i].status == Empty || s.cells[i].status == Full
    requires s' == At(Acquire(SetStatus(s, i, st), i, id), id, pc)
    requires (pc.PushClaim? && st == Writing) || (pc.PopClaim? && st == Reading)
    requires Slot(pc.ticket, s.cap) == i
    ensures i !in s.holder && OnlyAt(s, s', id, i) && Bounds(s') && ThreadOk(s', id) && CellOk(s', i)
  {
    assert CellOk(s, i) && ThreadOk(s, id);
  }

  lemma LockKeeps<T(!new)>(s: State<T>, id: nat)
    requires Inv(s) && id in s.threads
    requires var pc := s.threads[id];
      || (pc.PushLock? && s.cells[Slot(pc.ticket, s.cap)].status == Empty)
      || (pc.PopLock? && s.cells[Slot(pc.ticket, s.cap)].status == Full)
    ensures Inv(Step(s, id, Run(false)))
  {
    var s', pc := Step(s, id, Run(false)), s.threads[id];
    var i := Slot(pc.ticket, s.cap);
    if pc.PushLock? { LockLocal(s, s', id, i, Writing, PushClaim(pc.item, pc.tries, pc.ticket)); }
    else { LockLocal(s, s', id, i, Reading, PopClaim(pc.tries, pc.ticket)); }
    forall t | s.begin <= t < s.end && Slot(t, s.cap) == i ensures OccupiedOk(s', t) { assert OccupiedOk(s, t); }
    forall t | s.end <= t < s.begin + s.cap && Slot(t, s.cap) == i ensures VacantOk(s', t) { assert VacantOk(s, t); }
    forall t | 0 <= t < s.begin && Slot(t, s.cap) == i ensures ClaimedOk(s', t) { assert ClaimedOk(s, t); }
    hide Step, Inv;
    LocalKeeps(s, s', id, i);
  }

  lemma GiveBackTicket<T(!new)>(s: State<T>, id: nat, spurious: bool, t: nat)
    requires Inv(s) && id in s.threads
    requires var pc := s.threads[id]; pc.PushRollback? || pc.PopRollback? || pc.PushPublish? || pc.PopRelease?
    requires t < s.begin + s.cap && Slot(t, s.cap) == Slot(s.threads[id].ticket, s.cap)
    ensures var s' := Step(s, id, Run(spurious));
      if t < s.begin then ClaimedOk(s', t) else if t < s.end then OccupiedOk(s', t) else VacantOk(s', t)
  {
    assert ThreadOk(s, id) && CellOk(s, Slot(t, s.cap));
    assert if t < s.begin then ClaimedOk(s, t) else if t < s.end then OccupiedOk(s, t) else VacantOk(s, t);
  }

  lemma GiveBackLocal<T(!new)>(s: State<T>, s': State<T>, id: nat, i: nat, st: Status, pc: Pc<T>)
    requires Inv(s) && id in s.threads && s.threads[id].Holds() && i == Slot(s.threads[id].ticket, s.cap)
    requires s' == At(Free(SetStatus(s, i, st), i), id, pc) && (st == Empty || st == Full)
    requires !pc.Holds() && (pc.PopReturned? && pc.got.Some? ==>
      s.threads[id].PopRelease? && pc.got.value == (s.threads[id].ticket, s.threads[id].value))
    ensures OnlyAt(s, s', id, i) && Bounds(s') && ThreadOk(s', id) && CellOk(s', i)
  {
    assert ThreadOk(s, id) && CellOk(s, i);
  }

  lemma GiveBackStep<T(!new)>(s: State<T>, id: nat, spurious: bool, st: Status)
    requires Shaped(s) && id in s.threads
    requires var pc := s.threads[id]; pc.PushRollback? || pc.PopRollback? || pc.PushPublish? || pc.PopRelease?
    requires var pc := s.threads[id]; st == if pc.PushRollback? || pc.PopRelease? then Empty else Full
    ensures var pc, s' := s.threads[id], Step(s, id, Run(spurious));
      && id in s'.threads && !s'.threads[id].Holds()
      && s' == At(Free(SetStatus(s, Slot(pc.ticket, s.cap), st), Slot(pc.ticket, s.cap)), id, s'.threads[id])
      && (s'.threads[id].PopReturned? && s'.threads[id].got.Some? ==>
            pc.PopRelease? && s'.threads[id].got.value == (pc.ticket, pc.value))
  {
    hide Slot;
  }

  /** Giving a cell back: a stale thread's rollback, a producer's publish and a consumer's release. */
  lemma GiveBackKeeps<T(!new)>(s: State<T>, id: nat, spurious: bool)
    requires Inv(s) && id in s.threads
    requires var pc := s.threads[id]; pc.PushRollback? || pc.PopRollback? || pc.PushPublish? || pc.PopRelease?
    ensures Inv(Step(s, id, Run(spurious)))
  {
    hide ClaimedOk, OccupiedOk, VacantOk, ThreadOk, CellOk;
    var s' := Step(s, id, Run(spurious));
    var i := Slot(s.threads[id].ticket, s.cap);
    var pc := s.threads[id];
    var st := if pc.PushRollback? || pc.PopRelease? then Empty else Full;
    GiveBackStep(s, id, spurious, st);
    hide Step, StepPush, StepPop;
    GiveBackLocal(s, s', id, i, st, s'.threads[id]);
    forall t | 0 <= t < s.begin + s.cap && Slot(t, s.cap) == i
      ensures if t < s.begin then ClaimedOk(s', t) else if t < s.end then OccupiedOk(s', t) else VacantOk(s', t)
    {
      GiveBackTicket(s, id, spurious, t);
    }
    LocalKeeps(s, s', id, i);
  }

  lemma ItemTicket<T(!new)>(s: State<T>, id: nat, spurious: bool, t: nat)
    requires Inv(s) && id in s.threads && (s.threads[id].PushWrite? || s.threads[id].PopClear?)
    requires t < s.begin + s.cap && Slot(t, s.cap) == Slot(s.threads[id].ticket, s.cap)
    ensures var s' := Step(s, id, Run(spurious));
      if t < s.begin then ClaimedOk(s', t) else if t < s.end then OccupiedOk(s', t) else VacantOk(s', t)
  {
    assert ThreadOk(s, id) && CellOk(s, Slot(t, s.cap));
    assert if t < s.begin then ClaimedOk(s, t) else if t < s.end then OccupiedOk(s, t) else VacantOk(s, t);
  }

  /** The owner of a ticket writes or clears its cell's item. */
  lemma ItemKeeps<T(!new)>(s: State<T>, id: nat, spurious: bool)
    requires Inv(s) && id in s.threads && (s.threads[id].PushWrite? || s.threads[id].PopClear?)
    ensures Inv(Step(s, id, Run(spurious)))
  {
    var s' := Step(s, id, Run(spurious));
    var i := Slot(s.threads[id].ticket, s.cap);
    assert CellOk(s, i) && ThreadOk(s, id);
    hide ClaimedOk, OccupiedOk, VacantOk;
    forall t | 0 <= t < s.begin + s.cap && Slot(t, s.cap) == i
      ensures if t < s.begin then ClaimedOk(s', t) else if t < s.end then OccupiedOk(s', t) else VacantOk(s', t)
    {
      ItemTicket(s, id, spurious, t);
    }
    LocalKeeps(s, s', id, i);
  }

  /** A producer whose claim succeeds holds the cell of a vacant ticket, so the ring was not full. */
  lemma ClaimPushRoom<T(!new)>(s: State<T>, id: nat)
    requires Inv(s) && id in s.threads && s.threads[id].PushClaim? && s.threads[id].ticket == s.end
    ensures s.end < s.begin + s.cap
  {
    if s.begin < s.end { assert OccupiedOk(s, s.begin); }
    assert ThreadOk(s, id);
    SlotLap(s.begin, s.cap);
  }

  lemma ClaimPushThread<T(!new)>(s: State<T>, id: nat, k: nat)
    requires Inv(s) && id in s.threads && s.threads[id].PushClaim? && s.threads[id].ticket == s.end
    requires k in s.threads
    ensures ThreadOk(Step(s, id, Run(false)), k)
  {
    assert ThreadOk(s, id) && ThreadOk(s, k);
    if k != id && s.threads[k].CommittedReader() { SlotLap(s.threads[k].ticket, s.cap); }
  }

  lemma ClaimPushTicket<T(!new)>(s: State<T>, id: nat, t: nat)
    requires Inv(s) && id in s.threads && s.threads[id].PushClaim? && s.threads[id].ticket == s.end
    requires s.end < s.begin + s.cap && s.begin <= t < s.begin + s.cap
    ensures t <= s.end ==> OccupiedOk(Step(s, id, Run(false)), t)
    ensures t > s.end ==> VacantOk(Step(s, id, Run(false)), t)
  {
    assert ThreadOk(s, id);
    if t != s.end && Slot(t, s.cap) == Slot(s.end, s.cap) { SlotInjective(t, s.end, s.cap); }
    if t < s.end { assert OccupiedOk(s, t) && CellOk(s, Slot(t, s.cap)); }
    if t > s.end { assert VacantOk(s, t) && CellOk(s, Slot(t, s.cap)); }
  }

  lemma ClaimPushKeeps<T(!new)>(s: State<T>, id: nat)
    requires Inv(s) && id in s.threads && s.threads[id].PushClaim? && s.threads[id].ticket == s.end
    ensures Inv(Step(s, id, Run(false)))
  {
    var s' := Step(s, id, Run(false));
    ClaimPushRoom(s, id);
    forall k | k in s'.threads ensures ThreadOk(s', k) { ClaimPushThread(s, id, k); }
    forall i | 0 <= i < s.cap ensures CellOk(s', i) { assert CellOk(s, i); }
    forall t | s.begin <= t < s'.end ensures OccupiedOk(s', t) { ClaimPushTicket(s, id, t); }
    forall t | s'.end <= t < s.begin + s.cap ensures VacantOk(s', t) { ClaimPushTicket(s, id, t); }
    forall t | 0 <= t < s.begin ensures ClaimedOk(s', t) { assert ClaimedOk(s, t); }
  }

  /** A consumer whose claim succeeds holds the cell of the oldest occupied ticket. */
  lemma ClaimPopRoom<T(!new)>(s: State<T>, id: nat)
    requires Inv(s) && id in s.threads && s.threads[id].PopClaim? && s.threads[id].ticket == s.begin
    ensures s.begin < s.end && s.cells[Slot(s.begin, s.cap)].item == s.pushed[s.begin]
  {
    assert ThreadOk(s, id);
    assert if s.begin < s.end then OccupiedOk(s, s.begin) else VacantOk(s, s.begin);
  }

  lemma ClaimPopThread<T(!new)>(s: State<T>, id: nat, k: nat)
    requires Inv(s) && id in s.threads && s.threads[id].PopClaim? && s.threads[id].ticket == s.begin
    requires k in s.threads
    ensures ThreadOk(Step(s, id, Run(false)), k)
  {
    ClaimPopRoom(s, id);
    assert ThreadOk(s, id) && ThreadOk(s, k);
  }

  lemma ClaimPopTicket<T(!new)>(s: State<T>, id: nat, t: nat)
    requires Inv(s) && id in s.threads && s.threads[id].PopClaim? && s.threads[id].ticket == s.begin
    requires s.begin < t <= s.begin + s.cap
    ensures t < s.end ==> OccupiedOk(Step(s, id, Run(false)), t)
    ensures t >= s.end ==> VacantOk(Step(s, id, Run(false)), t)
  {
    ClaimPopRoom(s, id);
    assert ThreadOk(s, id);
    if t == s.begin + s.cap {
      SlotLap(s.begin, s.cap);
    } else {
      if Slot(t, s.cap) == Slot(s.begin, s.cap) { SlotInjective(t, s.begin, s.cap); }
      assert CellOk(s, Slot(t, s.cap));
      assert if t < s.end then OccupiedOk(s, t) else VacantOk(s, t);
    }
  }

  lemma ClaimPopKeeps<T(!new)>(s: State<T>, id: nat)
    requires Inv(s) && id in s.threads && s.threads[id].PopClaim? && s.threads[id].ticket == s.begin
    ensures Inv(Step(s, id, Run(false)))
  {
    var s' := Step(s, id, Run(false));
    ClaimPopRoom(s, id);
    forall k | k in s'.threads ensures ThreadOk(s', k) { ClaimPopThread(s, id, k); }
    forall i | 0 <= i < s.cap ensures CellOk(s', i) { assert CellOk(s, i); }
    forall t | s'.begin <= t < s.end ensures OccupiedOk(s', t) { ClaimPopTicket(s, id, t); }
    forall t | s.end <= t < s'.begin + s.cap ensures VacantOk(s', t) { ClaimPopTicket(s, id, t); }
    forall t | 0 <= t < s'.begin ensures ClaimedOk(s', t) {
      if t < s.begin { assert ClaimedOk(s, t); } else { assert ThreadOk(s, id); }
    }
  }

  lemma ReadThread<T(!new)>(s: State<T>, id: nat, spurious: bool, k: nat)
    requires Inv(s) && id in s.threads && s.threads[id].PopRead? && k in s.threads
    ensures ThreadOk(Step(s, id, Run(spurious)), k)
  {
    assert ThreadOk(s, id) && ThreadOk(s, k);
  }

  lemma ReadKeeps<T(!new)>(s: State<T>, id: nat, spurious: bool)
    requires Inv(s) && id in s.threads && s.threads[id].PopRead?
    ensures Inv(Step(s, id, Run(spurious)))
  {
    var s' := Step(s, id, Run(spurious));
    assert ThreadOk(s, id);
    forall k | k in s'.threads ensures ThreadOk(s', k) { ReadThread(s, id, spurious, k); }
    forall i | 0 <= i < s.cap ensures CellOk(s', i) { assert CellOk(s, i); }
    forall t | s.begin <= t < s.end ensures OccupiedOk(s', t) { assert OccupiedOk(s, t); }
    forall t | s.end <= t < s.begin + s.cap ensures VacantOk(s', t) { assert VacantOk(s, t); }
    forall t | 0 <= t < s.begin ensures ClaimedOk(s', t) { assert ClaimedOk(s, t); }
  }

  /** A compare-exchange step either takes effect or only moves the program counter. */
  lemma CasKeepsInv<T(!new)>(s: State<T>, id: nat, spurious: bool)
    requires Inv(s) && id in s.threads
    requires var pc := s.threads[id]; pc.PushLock? || pc.PopLock? || pc.PushClaim? || pc.PopClaim?
    ensures Inv(Step(s, id, Run(spurious)))
  {
    var pc := s.threads[id];
    var i := Slot(pc.ticket, s.cap);
    if pc.PushLock? {
      if s.cells[i].status != Empty || spurious {
        MoveKeeps(s, id, PushLoadEnd(pc.item, pc.tries));
      } else {
        LockKeeps(s, id);
      }
    } else if pc.PopLock? {
      if s.cells[i].status != Full || spurious { MoveKeeps(s, id, PopLoadBegin(pc.tries)); } else { LockKeeps(s, id); }
    } else if pc.PushClaim? {
      if s.end != pc.ticket || spurious {
        FailKeeps(s, id, PushRollback(pc.item, pc.tries, pc.ticket));
      } else {
        ClaimPushKeeps(s, id);
      }
    } else {
      if s.begin != pc.ticket || spurious {
        FailKeeps(s, id, PopRollback(pc.tries, pc.ticket));
      } else {
        ClaimPopKeeps(s, id);
      }
    }
  }

  lemma LoadMoves<T>(s: State<T>, id: nat, spurious: bool) returns (pc: Pc<T>)
    requires Shaped(s) && id in s.threads
    requires var pc := s.threads[id]; pc.PushLoadEnd? || pc.PushLoadStatus? || pc.PopLoadBegin? || pc.PopLoadStatus?
    ensures Step(s, id, Run(spurious)) == At(s, id, pc)
    ensures !pc.Holds() && !(pc.PopReturned? && pc.got.Some?)
  {
    pc := Step(s, id, Run(spurious)).threads[id];
  }

  lemma LoadKeepsInv<T(!new)>(s: State<T>, id: nat, spurious: bool)
    requires Inv(s) && id in s.threads
    requires var pc := s.threads[id]; pc.PushLoadEnd? || pc.PushLoadStatus? || pc.PopLoadBegin? || pc.PopLoadStatus?
    ensures Inv(Step(s, id, Run(spurious)))
  {
    var pc := LoadMoves(s, id, spurious);
    MoveKeeps(s, id, pc);
  }

  lemma CallKeepsInv<T(!new)>(s: State<T>, id: nat, act: Action<T>)
    requires Inv(s) && id in s.threads && !act.Run? && !s.threads[id].Running()
    ensures Inv(Step(s, id, act))
  {
    MoveKeeps(s, id, if act.CallPop? then PopLoadBegin(1) else PushLoadEnd(act.item, 0));
  }

  /** Whatever thread moves and however its compare-exchanges turn out, the invariant survives. */
  lemma {:induction false} StepKeepsInv<T(!new)>(s: State<T>, id: nat, act: Action<T>)
    requires Inv(s) && id in s.threads
    ensures Inv(Step(s, id, act))
  {
    var pc := s.threads[id];
    if act.Run? && pc.Running() {
      if pc.PushLock? || pc.PopLock? || pc.PushClaim? || pc.PopClaim? { CasKeepsInv(s, id, act.spurious); }
      else if pc.PushWrite? || pc.PopClear? { ItemKeeps(s, id, act.spurious); }
      else if pc.PopRead? { ReadKeeps(s, id, act.spurious); }
      else if pc.Holds() { GiveBackKeeps(s, id, act.spurious); }
      else { LoadKeepsInv(s, id, act.spurious); }
    } else if !act.Run? && !pc.Running() {
      CallKeepsInv(s, id, act);
    }
  }

  /** What one step does to everything outside the cells. */
  ghost predicate Effect<T>(s: State<T>, s': State<T>, id: nat)
    requires id in s.threads
  {
    var pc := s.threads[id];
    && Shaped(s') && s'.cap == s.cap
    && id in s'.threads && s'.threads == s.threads[id := s'.threads[id]]
    && var pc' := s'.threads[id];
       && (if pc.PushClaim? && pc'.PushWrite? then
             pc' == PushWrite(pc.item, s.end) && s'.end == s.end + 1 && s'.pushed == s.pushed + [pc.item]
           else s'.end == s.end && s'.pushed == s.pushed)
       && (if pc.PopClaim? && pc'.PopRead? then pc' == PopRead(s.begin) && s'.begin == s.begin + 1
           else s'.begin == s.begin)
       && (if pc.PopRead? && pc'.PopClear? then pc'.ticket == pc.ticket && s'.popped == s.popped[pc.ticket := pc'.value]
           else s'.popped == s.popped)
       && (if pc.PushClaim? && pc'.PushWrite? then s'.cells == s.cells && pc.ticket == s.end else true)
       && (if pc.PopClaim? && pc'.PopRead? then s'.cells == s.cells && pc.ticket == s.begin else true)
  }

  /** How a thread's program counter can move. */
  ghost predicate Moves<T>(pc: Pc<T>, pc': Pc<T>, act: Action<T>) {
    && (pc'.PushWrite? ==> pc.PushClaim? || pc' == pc)
    && (pc'.PushPublish? ==> (pc.PushWrite? && pc'.ticket == pc.ticket) || pc' == pc)
    && (pc'.PopClear? ==> pc.PopRead? || pc' == pc)
    && (pc'.PopRelease? ==> (pc.PopClear? && pc'.ticket == pc.ticket && pc'.value == pc.value) || pc' == pc)
    && (pc.PushWrite? ==> pc'.CommittedWriter() && pc'.ticket == pc.ticket)
    && (pc.PopRead? ==> pc'.PopRead? || pc'.PopClear?)
    && (pc.PopClear? ==> pc'.PopClear? || pc'.PopRelease?)
    && (pc.PushPublish? ==> if act.Run? then pc' == PushReturned(true) else pc' == pc)
    && (pc.PopRelease? ==> if act.Run? then pc' == PopReturned(Some((pc.ticket, pc.value))) else pc' == pc)
  }

  lemma StepPushHoldingEffect<T>(s: State<T>, id: nat, spurious: bool)
    requires Shaped(s) && id in s.threads && s.threads[id].HoldsWriting()
    ensures Effect(s, StepPush(s, id, spurious), id)
  {
    hide Slot;
  }

  lemma StepPushFreeEffect<T>(s: State<T>, id: nat, spurious: bool)
    requires Shaped(s) && id in s.threads && !s.threads[id].HoldsWriting()
    ensures Effect(s, StepPush(s, id, spurious), id)
  {
    hide Slot;
  }

  lemma StepPushEffect<T>(s: State<T>, id: nat, spurious: bool)
    requires Shaped(s) && id in s.threads
    ensures Effect(s, StepPush(s, id, spurious), id)
  {
    hide StepPush, Effect;
    if s.threads[id].HoldsWriting() {
      StepPushHoldingEffect(s, id, spurious);
    } else {
      StepPushFreeEffect(s, id, spurious);
    }
  }

  lemma StepPopHoldingEffect<T>(s: State<T>, id: nat, spurious: bool)
    requires Shaped(s) && id in s.threads && s.threads[id].HoldsReading()
    ensures Effect(s, StepPop(s, id, spurious), id)
  {
    hide Slot;
  }

  lemma StepPopFreeEffect<T>(s: State<T>, id: nat, spurious: bool)
    requires Shaped(s) && id in s.threads && !s.threads[id].HoldsReading()
    ensures Effect(s, StepPop(s, id, spurious), id)
  {
    hide Slot;
  }

  lemma StepPopEffect<T>(s: State<T>, id: nat, spurious: bool)
    requires Shaped(s) && id in s.threads
    ensures Effect(s, StepPop(s, id, spurious), id)
  {
    hide StepPop, Effect;
    if s.threads[id].HoldsReading() {
      StepPopHoldingEffect(s, id, spurious);
    } else {
      StepPopFreeEffect(s, id, spurious);
    }
  }

  lemma StepEffect<T>(s: State<T>, id: nat, act: Action<T>)
    requires Shaped(s) && id in s.threads
    ensures Effect(s, Step(s, id, act), id)
  {
    if act.Run? {
      hide StepPush, StepPop;
      StepPushEffect(s, id, act.spurious);
      StepPopEffect(s, id, act.spurious);
    }
  }

  lemma StepPushMoves<T>(s: State<T>, id: nat, spurious: bool)
    requires Shaped(s) && id in s.threads && s.threads[id].HoldsWriting()
    ensures id in StepPush(s, id, spurious).threads
    ensures Moves(s.threads[id], StepPush(s, id, spurious).threads[id], Run(spurious))
  {
    hide Slot;
  }

  lemma StepPopMoves<T>(s: State<T>, id: nat, spurious: bool)
    requires Shaped(s) && id in s.threads && s.threads[id].HoldsReading()
    ensures id in StepPop(s, id, spurious).threads
    ensures Moves(s.threads[id], StepPop(s, id, spurious).threads[id], Run(spurious))
  {
    hide Slot;
  }

  lemma StepPushFreeMoves<T>(s: State<T>, id: nat, spurious: bool)
    requires Shaped(s) && id in s.threads
    requires s.threads[id].PushLoadEnd? || s.threads[id].PushLoadStatus? || s.threads[id].PushLock?
    ensures id in StepPush(s, id, spurious).threads
    ensures Moves(s.threads[id], StepPush(s, id, spurious).threads[id], Run(spurious))
  {
    hide Slot;
  }

  lemma StepPopFreeMoves<T>(s: State<T>, id: nat, spurious: bool)
    requires Shaped(s) && id in s.threads
    requires s.threads[id].PopLoadBegin? || s.threads[id].PopLoadStatus? || s.threads[id].PopLock?
    ensures id in StepPop(s, id, spurious).threads
    ensures Moves(s.threads[id], StepPop(s, id, spurious).threads[id], Run(spurious))
  {
    hide Slot;
  }

  lemma StepMoves<T>(s: State<T>, id: nat, act: Action<T>)
    requires Shaped(s) && id in s.threads
    ensures id in Step(s, id, act).threads && Moves(s.threads[id], Step(s, id, act).threads[id], act)
  {
    if act.Run? {
      hide StepPush, StepPop;
      var pc := s.threads[id];
      if pc.HoldsWriting() {
        StepPushMoves(s, id, act.spurious);
      } else if pc.HoldsReading() {
        StepPopMoves(s, id, act.spurious);
      } else if pc.PushLoadEnd? || pc.PushLoadStatus? || pc.PushLock? {
        StepPushFreeMoves(s, id, act.spurious);
      } else if pc.Running() {
        StepPopFreeMoves(s, id, act.spurious);
      }
    }
  }

  lemma StepShape<T>(s: State<T>, id: nat, act: Action<T>)
    requires Shaped(s) && id in s.threads
    ensures Shaped(Step(s, id, act)) && Step(s, id, act).threads.Keys == s.threads.Keys && Step(s, id, act).cap == s.cap
  {
    StepEffect(s, id, act);
  }

  // ---------------------------------------------------------------- whole runs

  datatype Event<T> = Event(id: nat, act: Action<T>)

  ghost predicate Events<T>(s: State<T>, run: seq<Event<T>>) {
    forall e | e in run :: e.id in s.threads
  }

  /** The state after an interleaving `run` of steps. */
  ghost function Exec<T>(s: State<T>, run: seq<Event<T>>): (r: State<T>)
    requires Shaped(s) && Events(s, run)
    ensures Shaped(r) && r.threads.Keys == s.threads.Keys && r.cap == s.cap
  {
    if run == [] then s
    else
      var last := run[|run| - 1];
      var before := Exec(s, run[..|run| - 1]);
      StepShape(before, last.id, last.act);
      Step(before, last.id, last.act)
  }

  /** Tickets and values that completed `pop` calls returned during a run, in the order of their return. */
  ghost function Returned<T>(s: State<T>, run: seq<Event<T>>): seq<(nat, T)>
    requires Shaped(s) && Events(s, run)
  {
    if run == [] then []
    else
      var last := run[|run| - 1];
      var before := Exec(s, run[..|run| - 1]);
      var pc := before.threads[last.id];
      Returned(s, run[..|run| - 1]) + if last.act.Run? && pc.PopRelease? then [(pc.ticket, pc.value)] else []
  }

  /** Tickets and items of the `push` calls that returned true during a run. */
  ghost function Accepted<T>(s: State<T>, run: seq<Event<T>>): seq<(nat, T)>
    requires Shaped(s) && Events(s, run)
  {
    if run == [] then []
    else
      var last := run[|run| - 1];
      var before := Exec(s, run[..|run| - 1]);
      var pc := before.threads[last.id];
      Accepted(s, run[..|run| - 1]) + if last.act.Run? && pc.PushPublish? then [(pc.ticket, pc.item)] else []
  }

  lemma {:induction false} RunKeepsInv<T(!new)>(s: State<T>, run: seq<Event<T>>)
    requires Init(s) && Events(s, run)
    ensures Inv(Exec(s, run))
  {
    if run == [] {
      InitInv(s);
    } else {
      RunKeepsInv(s, run[..|run| - 1]);
      StepKeepsInv(Exec(s, run[..|run| - 1]), run[|run| - 1].id, run[|run| - 1].act);
    }
  }

  /** No two threads ever have access to one cell at the same time. */
  lemma {:induction false} ExclusiveAccess<T(!new)>(s: State<T>, run: seq<Event<T>>, k: nat, m: nat)
    requires Init(s) && Events(s, run) && k in s.threads && m in s.threads && k != m
    requires Exec(s, run).threads[k].Holds() && Exec(s, run).threads[m].Holds()
    ensures Slot(Exec(s, run).threads[k].ticket, s.cap) != Slot(Exec(s, run).threads[m].ticket, s.cap)
  {
    RunKeepsInv(s, run);
    assert ThreadOk(Exec(s, run), k) && ThreadOk(Exec(s, run), m);
  }

  /** What a list of completed calls has to do with the history: distinct tickets below `bound`, each
      paired with the value pushed under it; a ticket missing from the list is still in some thread's hands. */
  ghost predicate Ledger<T>(pushed: seq<T>, log: seq<(nat, T)>, bound: nat) {
    && (forall i | 0 <= i < |log| :: log[i].0 < bound && log[i].0 < |pushed| && log[i].1 == pushed[log[i].0])
    && (forall i, j | 0 <= i < j < |log| :: log[i].0 != log[j].0)
  }

  ghost predicate Logged<T>(log: seq<(nat, T)>, t: nat) { exists i :: 0 <= i < |log| && log[i].0 == t }

  /** Ticket t's pop has read its value but not returned yet. */
  ghost predicate PopInFlight<T>(s: State<T>, t: nat, id: nat) {
    id in s.threads && (s.threads[id].PopClear? || s.threads[id].PopRelease?) && s.threads[id].ticket == t
  }

  ghost predicate PushInFlight<T>(s: State<T>, t: nat, id: nat) {
    id in s.threads && s.threads[id].CommittedWriter() && s.threads[id].ticket == t
  }

  ghost predicate PopLedger<T>(s: State<T>, log: seq<(nat, T)>) {
    && Ledger(s.pushed, log, s.begin)
    && (forall i | 0 <= i < |log| :: log[i].0 in s.popped)
    && (forall t, id | PopInFlight(s, t, id) :: !Logged(log, t))
    && (forall t | t in s.popped :: Logged(log, t) || exists id :: PopInFlight(s, t, id))
  }

  ghost predicate PushLedger<T>(s: State<T>, log: seq<(nat, T)>) {
    && Ledger(s.pushed, log, s.end)
    && (forall t, id | PushInFlight(s, t, id) :: !Logged(log, t))
    && (forall t | 0 <= t < s.end :: Logged(log, t) || exists id :: PushInFlight(s, t, id))
  }

  lemma LogSnoc<T>(log: seq<(nat, T)>, e: (nat, T), t: nat)
    ensures Logged(log + [e], t) <==> Logged(log, t) || e.0 == t
  {
    if Logged(log, t) {
      var i :| 0 <= i < |log| && log[i].0 == t;
      assert (log + [e])[i].0 == t;
    }
    if e.0 == t { assert (log + [e])[|log|].0 == t; }
  }

  lemma PopLedgerStep<T(!new)>(s: State<T>, s': State<T>, id: nat, act: Action<T>, log: seq<(nat, T)>)
    requires id in s.threads && Inv(s) && Effect(s, s', id) && Moves(s.threads[id], s'.threads[id], act)
    requires PopLedger(s, log)
    requires !(act.Run? && s.threads[id].PopRelease?)
    ensures PopLedger(s', log)
  {
    assert ThreadOk(s, id);
    forall t | t in s'.popped ensures Logged(log, t) || exists k :: PopInFlight(s', t, k) {
      if t in s.popped && !Logged(log, t) {
        var k :| PopInFlight(s, t, k);
        assert PopInFlight(s', t, k);
      } else if t !in s.popped {
        assert PopInFlight(s', t, id);
      }
    }
    forall t, k | PopInFlight(s', t, k) ensures !Logged(log, t) {
      if PopInFlight(s, t, k) {} else { assert k == id && s.threads[id] == PopRead(t); }
    }
  }

  lemma PopLedgerReturn<T(!new)>(s: State<T>, s': State<T>, id: nat, act: Action<T>, log: seq<(nat, T)>)
    requires id in s.threads && Inv(s) && Effect(s, s', id) && Moves(s.threads[id], s'.threads[id], act)
    requires PopLedger(s, log)
    requires act.Run? && s.threads[id].PopRelease?
    ensures PopLedger(s', log + [(s.threads[id].ticket, s.threads[id].value)])
  {
    var e := (s.threads[id].ticket, s.threads[id].value);
    assert ThreadOk(s, id) && PopInFlight(s, e.0, id) && ClaimedOk(s, e.0);
    forall i | 0 <= i < |log| ensures log[i].0 != e.0 { assert Logged(log, log[i].0); }
    forall t | t in s'.popped ensures Logged(log + [e], t) || exists k :: PopInFlight(s', t, k) {
      LogSnoc(log, e, t);
      if !Logged(log, t) && t != e.0 {
        var k :| PopInFlight(s, t, k);
        assert PopInFlight(s', t, k);
      }
    }
    forall t, k | PopInFlight(s', t, k) ensures !Logged(log + [e], t) {
      LogSnoc(log, e, t);
      assert PopInFlight(s, t, k) && ThreadOk(s, k);
    }
  }

  lemma PushLedgerStep<T(!new)>(s: State<T>, s': State<T>, id: nat, act: Action<T>, log: seq<(nat, T)>)
    requires id in s.threads && Inv(s) && Effect(s, s', id) && Moves(s.threads[id], s'.threads[id], act)
    requires PushLedger(s, log)
    requires !(act.Run? && s.threads[id].PushPublish?)
    ensures PushLedger(s', log)
  {
    assert ThreadOk(s, id);
    forall t | 0 <= t < s'.end ensures Logged(log, t) || exists k :: PushInFlight(s', t, k) {
      if t < s.end && !Logged(log, t) {
        var k :| PushInFlight(s, t, k);
        assert PushInFlight(s', t, k);
      } else if t >= s.end {
        assert PushInFlight(s', t, id);
      }
    }
    forall t, k | PushInFlight(s', t, k) ensures !Logged(log, t) {
      if PushInFlight(s, t, k) {} else { assert k == id && t == s.end; }
    }
  }

  lemma PushLedgerReturn<T(!new)>(s: State<T>, s': State<T>, id: nat, act: Action<T>, log: seq<(nat, T)>)
    requires id in s.threads && Inv(s) && Effect(s, s', id) && Moves(s.threads[id], s'.threads[id], act)
    requires PushLedger(s, log)
    requires act.Run? && s.threads[id].PushPublish?
    ensures PushLedger(s', log + [(s.threads[id].ticket, s.threads[id].item)])
  {
    var e := (s.threads[id].ticket, s.threads[id].item);
    assert ThreadOk(s, id) && PushInFlight(s, e.0, id);
    forall i | 0 <= i < |log| ensures log[i].0 != e.0 { assert Logged(log, log[i].0); }
    forall t | 0 <= t < s'.end ensures Logged(log + [e], t) || exists k :: PushInFlight(s', t, k) {
      LogSnoc(log, e, t);
      if !Logged(log, t) && t != e.0 {
        var k :| PushInFlight(s, t, k);
        assert PushInFlight(s', t, k);
      }
    }
    forall t, k | PushInFlight(s', t, k) ensures !Logged(log + [e], t) {
      LogSnoc(log, e, t);
      assert PushInFlight(s, t, k) && ThreadOk(s, k);
    }
  }

  lemma ExecEffect<T>(s: State<T>, run: seq<Event<T>>)
    requires Shaped(s) && Events(s, run) && run != []
    ensures var m, f, last := Exec(s, run[..|run| - 1]), Exec(s, run), run[|run| - 1];
      Effect(m, f, last.id) && Moves(m.threads[last.id], f.threads[last.id], last.act)
  {
    var m, last := Exec(s, run[..|run| - 1]), run[|run| - 1];
    StepEffect(m, last.id, last.act);
    StepMoves(m, last.id, last.act);
  }

  lemma InitLedgers<T(!new)>(s: State<T>)
    requires Init(s)
    ensures PopLedger(s, []) && PushLedger(s, [])
  {}

  lemma LedgersStep<T(!new)>(s: State<T>, s': State<T>, id: nat, act: Action<T>, got: seq<(nat, T)>, put: seq<(nat, T)>)
    requires id in s.threads && Inv(s) && Effect(s, s', id) && Moves(s.threads[id], s'.threads[id], act)
    requires PopLedger(s, got) && PushLedger(s, put)
    ensures var pc := s.threads[id];
      && PopLedger(s', got + if act.Run? && pc.PopRelease? then [(pc.ticket, pc.value)] else [])
      && PushLedger(s', put + if act.Run? && pc.PushPublish? then [(pc.ticket, pc.item)] else [])
  {
    hide PopLedger, PushLedger, Inv;
    assert got + [] == got && put + [] == put;
    if act.Run? && s.threads[id].PopRelease? {
      PopLedgerReturn(s, s', id, act, got);
    } else {
      PopLedgerStep(s, s', id, act, got);
    }
    if act.Run? && s.threads[id].PushPublish? {
      PushLedgerReturn(s, s', id, act, put);
    } else {
      PushLedgerStep(s, s', id, act, put);
    }
  }

  lemma {:induction false} RunLedgers<T(!new)>(s: State<T>, run: seq<Event<T>>)
    requires Init(s) && Events(s, run)
    ensures PopLedger(Exec(s, run), Returned(s, run))
    ensures PushLedger(Exec(s, run), Accepted(s, run))
  {
    hide Step, Inv, PopLedger, PushLedger, Effect, Moves;
    if run == [] {
      InitLedgers(s);
    } else {
      var before, last := run[..|run| - 1], run[|run| - 1];
      RunLedgers(s, before);
      RunKeepsInv(s, before);
      ExecEffect(s, run);
      LedgersStep(Exec(s, before), Exec(s, run), last.id, last.act, Returned(s, before), Accepted(s, before));
    }
  }

  ghost predicate Quiescent<T>(s: State<T>) { forall id | id in s.threads :: !s.threads[id].Running() }

  /** In every run, each successful `pop` returns the item pushed under its own begin ticket and no
      ticket is returned twice; each successful `push` put its item under its own end ticket.  Once no
      call is in progress, the begin tickets returned are exactly 0 .. begin-1 and the end tickets
      accepted exactly 0 .. end-1: nothing is lost, duplicated, invented or reordered. */
  lemma {:induction false} FifoOverRuns<T(!new)>(s: State<T>, run: seq<Event<T>>)
    requires Init(s) && Events(s, run)
    ensures var f := Exec(s, run);
      && f.begin <= f.end <= f.begin + f.cap && |f.pushed| == f.end
      && Ledger(f.pushed, Returned(s, run), f.begin)
      && Ledger(f.pushed, Accepted(s, run), f.end)
      && (Quiescent(f) ==>
            && (forall t | 0 <= t < f.begin :: Logged(Returned(s, run), t))
            && (forall t | 0 <= t < f.end :: Logged(Accepted(s, run), t)))
  {
    var f := Exec(s, run);
    RunKeepsInv(s, run);
    RunLedgers(s, run);
    if Quiescent(f) {
      forall t | 0 <= t < f.begin ensures Logged(Returned(s, run), t) { assert ClaimedOk(f, t); }
    }
  }

  // ---------------------------------------------------------------- refinement of a bounded FIFO

  /** The abstract queue: pushed tickets that no consumer has claimed. */
  ghost function Contents<T>(s: State<T>): seq<T>
    requires s.begin <= s.end <= |s.pushed|
  {
    s.pushed[s.begin..s.end]
  }

  lemma FifoEffect<T(!new)>(s: State<T>, s': State<T>, id: nat)
    requires id in s.threads && Inv(s) && Inv(s') && Effect(s, s', id)
    ensures var pc := s.threads[id];
      if pc.PushClaim? && s'.threads[id].PushWrite? then
        |Contents(s)| < s.cap && Contents(s') == Contents(s) + [pc.item]
      else if pc.PopClaim? && s'.threads[id].PopRead? then
        && Contents(s) != [] && Contents(s') == Contents(s)[1..]
        && Contents(s)[0] == s.pushed[s'.threads[id].ticket]
        && s'.cells[Slot(s'.threads[id].ticket, s.cap)].item == Contents(s)[0]
      else Contents(s') == Contents(s)
  {
    var pc := s.threads[id];
    if pc.PushClaim? && s'.threads[id].PushWrite? { ClaimPushRoom(s, id); }
    if pc.PopClaim? && s'.threads[id].PopRead? { ClaimPopRoom(s, id); }
  }

  /** Each step leaves the abstract queue alone, except that a producer's successful claim appends
      its item (and finds room) and a consumer's successful claim removes the head, which is still in
      the cell that the consumer now owns. */
  lemma {:induction false} StepRefinesFifo<T(!new)>(s: State<T>, id: nat, act: Action<T>)
    requires Inv(s) && id in s.threads
    ensures Inv(Step(s, id, act)) && id in Step(s, id, act).threads
    ensures var s', pc := Step(s, id, act), s.threads[id];
      if pc.PushClaim? && s'.threads[id].PushWrite? then
        |Contents(s)| < s.cap && Contents(s') == Contents(s) + [pc.item]
      else if pc.PopClaim? && s'.threads[id].PopRead? then
        && Contents(s) != [] && Contents(s') == Contents(s)[1..]
        && Contents(s)[0] == s.pushed[s'.threads[id].ticket]
        && s'.cells[Slot(s'.threads[id].ticket, s.cap)].item == Contents(s)[0]
      else Contents(s') == Contents(s)
  {
    StepKeepsInv(s, id, act);
    StepEffect(s, id, act);
    FifoEffect(s, Step(s, id, act), id);
  }

  // ---------------------------------------------------------------- progress

  /** Upper bound on the steps a thread can still take before its call returns. */
  function Fuel<T>(pc: Pc<T>): nat {
    match pc
    case PushLoadEnd(_, tries) => if tries <= PUSH_TRIES then 5 * (PUSH_TRIES - tries) + 1 else 0
    case PushLoadStatus(_, tries, _) => if tries <= PUSH_TRIES then 5 * (PUSH_TRIES - tries) + 5 else 0
    case PushLock(_, tries, _) => if tries <= PUSH_TRIES then 5 * (PUSH_TRIES - tries) + 4 else 0
    case PushClaim(_, tries, _) => if tries <= PUSH_TRIES then 5 * (PUSH_TRIES - tries) + 3 else 0
    case PushRollback(_, tries, _) => if tries <= PUSH_TRIES then 5 * (PUSH_TRIES - tries) + 2 else 0
    case PushWrite(_, _) => 2
    case PushPublish(_, _) => 1
    case PopLoadBegin(tries) => if tries <= POP_TRIES then 5 * (POP_TRIES - tries) + 2 else 0
    case PopLoadStatus(tries, _) => if tries <= POP_TRIES then 5 * (POP_TRIES - tries) + 6 else 0
    case PopLock(tries, _) => if tries <= POP_TRIES then 5 * (POP_TRIES - tries) + 5 else 0
    case PopClaim(tries, _) => if tries <= POP_TRIES then 5 * (POP_TRIES - tries) + 4 else 0
    case PopRollback(tries, _) => if tries <= POP_TRIES then 5 * (POP_TRIES - tries) + 3 else 0
    case PopRead(_) => 3
    case PopClear(_, _) => 2
    case PopRelease(_, _) => 1
    case _ => 0
  }

  predicate TriesOkAt<T>(pc: Pc<T>) {
    && (pc.PushLoadEnd? ==> pc.tries <= PUSH_TRIES) && (pc.PopLoadBegin? ==> pc.tries <= POP_TRIES)
    && (pc.PushLoadStatus? || pc.PushLock? || pc.PushClaim? || pc.PushRollback? ==> 1 <= pc.tries <= PUSH_TRIES)
    && (pc.PopLoadStatus? || pc.PopLock? || pc.PopClaim? || pc.PopRollback? ==> 1 <= pc.tries <= POP_TRIES)
  }

  ghost predicate TriesOk<T>(s: State<T>) {
    forall id | id in s.threads :: TriesOkAt(s.threads[id])
  }

  lemma PushFreeBurnsFuel<T>(s: State<T>, id: nat, spurious: bool)
    requires Shaped(s) && id in s.threads && TriesOkAt(s.threads[id])
    requires var pc := s.threads[id]; pc.PushLoadEnd? || pc.PushLoadStatus? || pc.PushLock?
    ensures var s' := StepPush(s, id, spurious);
      id in s'.threads && TriesOkAt(s'.threads[id]) && Fuel(s'.threads[id]) < Fuel(s.threads[id])
  {
    hide Slot;
  }

  lemma PushHoldingBurnsFuel<T>(s: State<T>, id: nat, spurious: bool)
    requires Shaped(s) && id in s.threads && TriesOkAt(s.threads[id])
    requires var pc := s.threads[id]; pc.HoldsWriting()
    ensures var s' := StepPush(s, id, spurious);
      id in s'.threads && TriesOkAt(s'.threads[id]) && Fuel(s'.threads[id]) < Fuel(s.threads[id])
  {
    hide Slot;
  }

  lemma PopFreeBurnsFuel<T>(s: State<T>, id: nat, spurious: bool)
    requires Shaped(s) && id in s.threads && TriesOkAt(s.threads[id])
    requires var pc := s.threads[id]; pc.PopLoadBegin? || pc.PopLoadStatus? || pc.PopLock?
    ensures var s' := StepPop(s, id, spurious);
      id in s'.threads && TriesOkAt(s'.threads[id]) && Fuel(s'.threads[id]) < Fuel(s.threads[id])
  {
    hide Slot;
  }

  lemma PopHoldingBurnsFuel<T>(s: State<T>, id: nat, spurious: bool)
    requires Shaped(s) && id in s.threads && TriesOkAt(s.threads[id])
    requires var pc := s.threads[id]; pc.HoldsReading()
    ensures var s' := StepPop(s, id, spurious);
      id in s'.threads && TriesOkAt(s'.threads[id]) && Fuel(s'.threads[id]) < Fuel(s.threads[id])
  {
    hide Slot;
  }

  /** Each step of a call uses up fuel. */
  lemma OwnBurnsFuel<T>(s: State<T>, id: nat, act: Action<T>)
    requires Shaped(s) && id in s.threads && TriesOkAt(s.threads[id])
    ensures var s' := Step(s, id, act);
      && id in s'.threads && TriesOkAt(s'.threads[id])
      && (act.Run? && s.threads[id].Running() ==> Fuel(s'.threads[id]) < Fuel(s.threads[id]))
  {
    var pc := s.threads[id];
    if act.Run? {
      hide StepPush, StepPop, Fuel, TriesOkAt;
      if pc.PopLoadBegin? || pc.PopLoadStatus? || pc.PopLock? {
        PopFreeBurnsFuel(s, id, act.spurious);
      } else if pc.HoldsReading() {
        PopHoldingBurnsFuel(s, id, act.spurious);
      } else if pc.HoldsWriting() {
        PushHoldingBurnsFuel(s, id, act.spurious);
      } else if pc.Running() {
        PushFreeBurnsFuel(s, id, act.spurious);
      }
    }
  }

  lemma EffectThreads<T>(s: State<T>, s': State<T>, id: nat)
    requires id in s.threads && Effect(s, s', id)
    ensures id in s'.threads && s'.threads == s.threads[id := s'.threads[id]]
  {}

  /** And every other thread is left where it was. */
  lemma StepBurnsFuel<T>(s: State<T>, s': State<T>, id: nat, act: Action<T>)
    requires Shaped(s) && id in s.threads && TriesOk(s) && s' == Step(s, id, act)
    ensures s'.threads.Keys == s.threads.Keys && TriesOk(s')
    ensures act.Run? && s.threads[id].Running() ==> Fuel(s'.threads[id]) < Fuel(s.threads[id])
    ensures forall k | k in s.threads && k != id :: s'.threads[k] == s.threads[k]
  {
    StepEffect(s, id, act);
    OwnBurnsFuel(s, id, act);
    hide Step, Effect, Fuel, TriesOkAt;
    EffectThreads(s, s', id);
  }

  /** How many steps thread id takes in a run. */
  ghost function OwnSteps<T>(run: seq<Event<T>>, id: nat): nat {
    if run == [] then 0
    else OwnSteps(run[..|run| - 1], id) + if run[|run| - 1].id == id && run[|run| - 1].act.Run? then 1 else 0
  }

  ghost predicate NoNewCall<T>(run: seq<Event<T>>, id: nat) {
    forall e | e in run && e.id == id :: e.act.Run?
  }

  lemma {:induction false} RunBurnsFuel<T>(s: State<T>, run: seq<Event<T>>, id: nat)
    requires Shaped(s) && Events(s, run) && TriesOk(s) && id in s.threads && NoNewCall(run, id)
    ensures var f := Exec(s, run);
      TriesOk(f) && (f.threads[id].Running() ==> OwnSteps(run, id) + Fuel(f.threads[id]) <= Fuel(s.threads[id]))
  {
    if run == [] {
    } else {
      var before, last := run[..|run| - 1], run[|run| - 1];
      RunBurnsFuel(s, before, id);
      StepBurnsFuel(Exec(s, before), Exec(s, run), last.id, last.act);
      hide Step;
    }
  }

  /** In every reachable state the loop counters are within their bounds. */
  lemma {:induction false} ReachableTries<T(!new)>(s: State<T>, run: seq<Event<T>>)
    requires Init(s) && Events(s, run)
    ensures TriesOk(Exec(s, run))
  {
    if run == [] {
    } else {
      var before, last := run[..|run| - 1], run[|run| - 1];
      ReachableTries(s, before);
      StepBurnsFuel(Exec(s, before), Exec(s, run), last.id, last.act);
    }
  }

  lemma {:induction false} ExecInParts<T>(s: State<T>, a: seq<Event<T>>, b: seq<Event<T>>)
    requires Shaped(s) && Events(s, a) && Events(s, b)
    ensures Events(s, a + b) && Exec(s, a + b) == Exec(Exec(s, a), b)
  {
    if b == [] {
      assert a + b == a;
    } else {
      hide Step;
      assert (a + b)[..|a + b| - 1] == a + b[..|b| - 1];
      ExecInParts(s, a, b[..|b| - 1]);
    }
  }

  lemma ReturnedInTime<T>(s: State<T>, run: seq<Event<T>>, id: nat)
    requires Shaped(s) && Events(s, run) && TriesOk(s) && id in s.threads && NoNewCall(run, id)
    requires Fuel(s.threads[id]) <= OwnSteps(run, id)
    ensures !Exec(s, run).threads[id].Running()
  {
    RunBurnsFuel(s, run, id);
    var pc := Exec(s, run).threads[id];
    assert TriesOkAt(pc);
    hide Exec, TriesOk, OwnSteps;
    assert pc.Running() ==> Fuel(pc) >= 1;
  }

  lemma CallStarts<T>(s: State<T>, id: nat, act: Action<T>)
    requires Shaped(s) && id in s.threads && !s.threads[id].Running() && !act.Run?
    ensures id in Step(s, id, act).threads && Fuel(Step(s, id, act).threads[id]) == if act.CallPush? then 26 else 22
  {}

  /** Both calls are bounded wait-free.  From any reachable state, whatever the other threads do there and afterwards
      and however often compare-exchange fails, a `push` returns within 26 of its own steps and a `pop` within 22. */
  lemma {:induction false} CallsReturn<T(!new)>(s: State<T>, before: seq<Event<T>>, call: Event<T>, run: seq<Event<T>>)
    requires Init(s) && Events(s, before) && call.id in s.threads && Events(s, run) && NoNewCall(run, call.id)
    requires !Exec(s, before).threads[call.id].Running() && !call.act.Run?
    requires OwnSteps(run, call.id) >= if call.act.CallPush? then 26 else 22
    ensures Events(s, before + [call] + run) && !Exec(s, before + [call] + run).threads[call.id].Running()
  {
    assert Events(s, before + [call]) && (before + [call])[..|before|] == before;
    var begun := Exec(s, before + [call]);
    assert begun == Step(Exec(s, before), call.id, call.act);
    CallStarts(Exec(s, before), call.id, call.act);
    ReachableTries(s, before + [call]);
    ExecInParts(s, before + [call], run);
    hide Exec, TriesOk, Step;
    ReturnedInTime(begun, run, call.id);
  }

  // ---------------------------------------------------------------- how often a call tries

  /** The step loads a ticket, which begins a try. */
  predicate Tries<T>(pc: Pc<T>, pc': Pc<T>) {
    (pc.PushLoadEnd? && pc'.PushLoadStatus?) || (pc.PopLoadBegin? && pc'.PopLoadStatus?)
  }

  /** How many tries thread id begins in a run. */
  ghost function TryCount<T>(s: State<T>, run: seq<Event<T>>, id: nat): nat
    requires Shaped(s) && Events(s, run) && id in s.threads
  {
    if run == [] then 0
    else
      var before, last := run[..|run| - 1], run[|run| - 1];
      TryCount(s, before, id)
      + if last.id == id && Tries(Exec(s, before).threads[id], Exec(s, run).threads[id]) then 1 else 0
  }

  /** Where a push can be after m tries. */
  predicate PushTried<T>(pc: Pc<T>, m: nat) {
    && (pc.PushLoadEnd? || pc.PushLoadStatus? || pc.PushLock? || pc.PushClaim? || pc.PushRollback?
        || pc.CommittedWriter() || pc.PushReturned?)
    && m <= 5 && (pc.PushLoadEnd? ==> pc.tries == m)
    && (pc.PushLoadStatus? || pc.PushLock? || pc.PushClaim? || pc.PushRollback? ==> pc.tries == m >= 1)
    && (pc.CommittedWriter() || pc == PushReturned(true) ==> m >= 1)
    && (pc == PushReturned(false) ==> m == 5)
  }

  /** Where a pop can be after m tries. */
  predicate PopTried<T>(pc: Pc<T>, m: nat) {
    && (pc.PopLoadBegin? || pc.PopLoadStatus? || pc.PopLock? || pc.PopClaim? || pc.PopRollback?
        || pc.CommittedReader() || pc.PopReturned?)
    && m <= 4 && (pc.PopLoadBegin? ==> pc.tries == m + 1)
    && (pc.PopLoadStatus? || pc.PopLock? || pc.PopClaim? || pc.PopRollback? ==> pc.tries == m + 1 >= 2)
    && (pc.CommittedReader() || (pc.PopReturned? && pc.got.Some?) ==> m >= 1)
    && (pc.PopReturned? && pc.got.None? ==> m == 4)
  }

  lemma PushStepTries<T>(s: State<T>, id: nat, spurious: bool, m: nat)
    requires Shaped(s) && id in s.threads && PushTried(s.threads[id], m)
    ensures id in StepPush(s, id, spurious).threads
    ensures var pc, pc' := s.threads[id], StepPush(s, id, spurious).threads[id];
      PushTried(pc', m + if Tries(pc, pc') then 1 else 0)
  {
    hide Slot;
  }

  lemma PopStepTries<T>(s: State<T>, id: nat, spurious: bool, m: nat)
    requires Shaped(s) && id in s.threads && PopTried(s.threads[id], m)
    ensures id in StepPop(s, id, spurious).threads
    ensures var pc, pc' := s.threads[id], StepPop(s, id, spurious).threads[id];
      PopTried(pc', m + if Tries(pc, pc') then 1 else 0)
  {
    hide Slot;
  }

  lemma PushDispatch<T>(s: State<T>, id: nat, spurious: bool, m: nat)
    requires Shaped(s) && id in s.threads && PushTried(s.threads[id], m)
    ensures Step(s, id, Run(spurious)) == StepPush(s, id, spurious)
  {
    hide Slot, SetStatus, SetItem, Acquire, Free;
  }

  lemma PopDispatch<T>(s: State<T>, id: nat, spurious: bool, m: nat)
    requires Shaped(s) && id in s.threads && PopTried(s.threads[id], m)
    ensures Step(s, id, Run(spurious)) == StepPop(s, id, spurious)
  {
    hide Slot, SetStatus, SetItem, Acquire, Free;
  }

  lemma RunStepTries<T>(s: State<T>, id: nat, spurious: bool, m: nat)
    requires Shaped(s) && id in s.threads
    ensures id in Step(s, id, Run(spurious)).threads
    ensures var pc, pc' := s.threads[id], Step(s, id, Run(spurious)).threads[id];
      var m' := m + if Tries(pc, pc') then 1 else 0;
      (PushTried(pc, m) ==> PushTried(pc', m')) && (PopTried(pc, m) ==> PopTried(pc', m'))
  {
    hide PushTried, PopTried, Tries, StepPush, StepPop, Step;
    StepShape(s, id, Run(spurious));
    if PushTried(s.threads[id], m) {
      PushDispatch(s, id, spurious, m);
      PushStepTries(s, id, spurious, m);
    }
    if PopTried(s.threads[id], m) {
      PopDispatch(s, id, spurious, m);
      PopStepTries(s, id, spurious, m);
    }
  }

  lemma {:induction false} RunTries<T>(s: State<T>, run: seq<Event<T>>, id: nat)
    requires Shaped(s) && Events(s, run) && id in s.threads && NoNewCall(run, id)
    ensures var pc, m := Exec(s, run).threads[id], TryCount(s, run, id);
      (PushTried(s.threads[id], 0) ==> PushTried(pc, m)) && (PopTried(s.threads[id], 0) ==> PopTried(pc, m))
  {
    hide PushTried, PopTried, Tries, Step, Effect;
    if run == [] {
    } else {
      var before, last := run[..|run| - 1], run[|run| - 1];
      RunTries(s, before, id);
      if last.id == id {
        assert last in run;
        RunStepTries(Exec(s, before), id, last.act.spurious, TryCount(s, before, id));
      } else {
        StepEffect(Exec(s, before), last.id, last.act);
        EffectThreads(Exec(s, before), Exec(s, run), last.id);
      }
    }
  }

  /** A push that fails has tried five times and a pop that fails four times, although both compare their counters
      with 5; none tries more often.  This holds from every state and whatever the other threads do. */
  lemma {:induction false} FailedAfterTries<T>(s: State<T>, call: Event<T>, run: seq<Event<T>>)
    requires Shaped(s) && call.id in s.threads && !s.threads[call.id].Running() && !call.act.Run?
    requires Events(s, run) && NoNewCall(run, call.id)
    ensures var begun := Step(s, call.id, call.act);
      && Shaped(begun) && begun.threads.Keys == s.threads.Keys
      && var pc, m := Exec(begun, run).threads[call.id], TryCount(begun, run, call.id);
         if call.act.CallPush? then m <= 5 && (pc == PushReturned(false) ==> m == 5)
         else m <= 4 && (pc == PopReturned(None) ==> m == 4)
  {
    var begun := Step(s, call.id, call.act);
    StepShape(s, call.id, call.act);
    assert if call.act.CallPush? then PushTried(begun.threads[call.id], 0) else PopTried(begun.threads[call.id], 0);
    hide Step, Exec, TryCount;
    RunTries(begun, run, call.id);
  }

  // ---------------------------------------------------------------- calls that run alone

  /** n steps of thread id with no other thread in between and no spurious failure. */
  ghost function Alone<T>(id: nat, n: nat): (run: seq<Event<T>>)
    ensures |run| == n && forall e | e in run :: e == Event(id, Run(false))
  {
    if n == 0 then [] else Alone(id, n - 1) + [Event(id, Run(false))]
  }

  function Twice<T>(s: State<T>, id: nat): State<T>
    requires Shaped(s) && id in s.threads
  {
    StepShape(s, id, Run(false));
    Step(Step(s, id, Run(false)), id, Run(false))
  }

  lemma AloneNone<T>(s: State<T>, id: nat)
    requires Shaped(s) && id in s.threads
    ensures Exec(s, Alone(id, 0)) == s
  {}

  lemma AloneOne<T>(s: State<T>, id: nat, n: nat)
    requires Shaped(s) && id in s.threads
    ensures Exec(s, Alone(id, n + 1)) == Step(Exec(s, Alone(id, n)), id, Run(false))
  {
    hide Step;
    var run := Alone<T>(id, n + 1);
    assert run[..n] == Alone<T>(id, n) && run[n] == Event(id, Run(false));
  }

  lemma AloneTwo<T>(s: State<T>, id: nat, n: nat)
    requires Shaped(s) && id in s.threads
    ensures Exec(s, Alone(id, n + 2)) == Twice(Exec(s, Alone(id, n)), id)
  {
    AloneOne(s, id, n);
    AloneOne(s, id, n + 1);
    hide Step, Exec, Alone;
  }

  /** With no call in progress no cell is held. */
  lemma QuietCells<T(!new)>(s: State<T>)
    requires Inv(s) && Quiescent(s)
    ensures s.begin < s.end ==>
      s.cells[Slot(s.begin, s.cap)].status == Full && s.cells[Slot(s.begin, s.cap)].item == s.pushed[s.begin]
    ensures s.begin == s.end ==> s.cells[Slot(s.begin, s.cap)].status == Empty
    ensures s.end < s.begin + s.cap ==> s.cells[Slot(s.end, s.cap)].status == Empty
    ensures s.end == s.begin + s.cap ==> s.cells[Slot(s.end, s.cap)].status == Full
  {
    forall i: nat | i < s.cap ensures i !in s.holder { assert CellOk(s, i); }
    if s.begin < s.end { assert OccupiedOk(s, s.begin); }
    if s.end < s.begin + s.cap { assert VacantOk(s, s.end); }
    if s.end == s.begin + s.cap { SlotLap(s.begin, s.cap); }
  }

  lemma PushLooks<T>(s: State<T>, id: nat, item: T, m: nat)
    requires Shaped(s) && id in s.threads && s.threads[id] == PushLoadEnd(item, m) && m < 5
    ensures Twice(s, id) == At(s, id,
      if s.cells[Slot(s.end, s.cap)].status == Empty then PushLock(item, m + 1, s.end) else PushLoadEnd(item, m + 1))
  {
    hide Slot;
    var pc := PushLoadStatus(item, m + 1, s.end);
    assert Step(s, id, Run(false)) == At(s, id, pc);
    assert forall pc' :: At(At(s, id, pc), id, pc') == At(s, id, pc');
  }

  lemma AtFacts<T>(s: State<T>, id: nat, pc: Pc<T>)
    requires Shaped(s) && id in s.threads
    ensures var t := At(s, id, pc);
      Shaped(t) && id in t.threads && t.threads[id] == pc && t.cells == s.cells && t.cap == s.cap && SameQueue(s, t)
    ensures SameQueue(s, At(s, id, pc)) ==> At(s, id, pc).end == s.end
    ensures At(At(s, id, s.threads[id]), id, pc) == At(s, id, pc) && At(s, id, s.threads[id]) == s
  {
    assert s.threads[id := s.threads[id]] == s.threads;
  }

  /** Nothing but the thread and the cells differs. */
  ghost predicate SameQueue<T>(s: State<T>, s': State<T>) {
    && s'.cap == s.cap && s'.blank == s.blank
    && s'.begin == s.begin && s'.end == s.end && s'.pushed == s.pushed && s'.popped == s.popped
  }

  lemma PushTakes<T>(s: State<T>, id: nat, item: T, m: nat)
    requires Shaped(s) && id in s.threads && s.threads[id] == PushLock(item, m, s.end)
    requires s.cells[Slot(s.end, s.cap)].status == Empty
    ensures var s' := Twice(s, id);
      && Shaped(s') && id in s'.threads && s'.threads[id] == PushWrite(item, s.end) && s'.pushed == s.pushed + [item]
      && s'.begin == s.begin && s'.end == s.end + 1 && s'.popped == s.popped && s'.cap == s.cap
  {
    hide Slot;
    assert Step(s, id, Run(false)).threads[id] == PushClaim(item, m, s.end);
  }

  lemma PushStores<T>(s: State<T>, id: nat)
    requires Shaped(s) && id in s.threads && s.threads[id].PushWrite?
    ensures var s', pc := Twice(s, id), s.threads[id];
      && id in s'.threads && s'.threads[id] == PushReturned(true) && SameQueue(s, s')
      && Shaped(s') && s'.cap == s.cap && s'.cells[Slot(pc.ticket, s.cap)] == Cell(Full, pc.item)
  {
    hide Slot;
    assert Step(s, id, Run(false)).threads[id].PushPublish?;
  }

  /** Claiming and storing, from a free cell on. */
  ghost predicate PushDone<T>(s: State<T>, s': State<T>, id: nat, item: T) {
    && id in s'.threads && s'.threads[id] == PushReturned(true)
    && s'.pushed == s.pushed + [item] && s'.begin == s.begin && s'.end == s.end + 1
    && Shaped(s) && Shaped(s') && s'.cap == s.cap && s'.cells[Slot(s.end, s.cap)] == Cell(Full, item)
  }

  lemma PushCommits<T>(s: State<T>, id: nat, item: T, m: nat)
    requires Shaped(s) && id in s.threads && s.threads[id] == PushLock(item, m, s.end)
    requires s.cells[Slot(s.end, s.cap)].status == Empty
    ensures var s' := Twice(s, id); Shaped(s') && id in s'.threads && PushDone(s, Twice(s', id), id, item)
  {
    PushTakes(s, id, item, m);
    var s' := Twice(s, id);
    hide Step, Slot, Twice;
    PushStores(s', id);
  }

  lemma PushLocks<T>(s: State<T>, id: nat, item: T)
    requires Shaped(s) && id in s.threads && s.threads[id] == PushLoadEnd(item, 0)
    requires s.cells[Slot(s.end, s.cap)].status == Empty
    ensures var t := Twice(s, id);
      && Shaped(t) && id in t.threads && SameQueue(s, t) && t.threads[id] == PushLock(item, 1, t.end)
      && t.cells[Slot(t.end, t.cap)].status == Empty
  {
    PushLooks(s, id, item, 0);
    hide Step, Slot, Twice;
  }

  lemma PushApproach<T>(s: State<T>, id: nat, item: T)
    requires Shaped(s) && id in s.threads && s.threads[id] == PushLoadEnd(item, 0)
    requires s.cells[Slot(s.end, s.cap)].status == Empty
    ensures var t := Twice(s, id);
      Shaped(t) && id in t.threads && Shaped(Twice(t, id)) && id in Twice(t, id).threads
      && PushDone(s, Twice(Twice(t, id), id), id, item)
  {
    PushLocks(s, id, item);
    hide *;
    var t := Twice(s, id);
    PushCommits(t, id, item, 1);
    PushDoneFrom(s, t, Twice(Twice(t, id), id), id, item);
  }

  lemma AloneSix<T>(s: State<T>, id: nat)
    requires Shaped(s) && id in s.threads
    ensures var s' := Twice(s, id);
      Shaped(s') && id in s'.threads && Shaped(Twice(s', id)) && id in Twice(s', id).threads
      && Exec(s, Alone(id, 6)) == Twice(Twice(s', id), id)
  {
    AloneNone(s, id);
    AloneTwo(s, id, 0);
    AloneTwo(s, id, 2);
    AloneTwo(s, id, 4);
    hide *;
  }

  lemma PushStraight<T>(s: State<T>, id: nat, item: T)
    requires Shaped(s) && id in s.threads && s.threads[id] == PushLoadEnd(item, 0)
    requires s.cells[Slot(s.end, s.cap)].status == Empty
    ensures PushDone(s, Exec(s, Alone(id, 6)), id, item)
  {
    PushApproach(s, id, item);
    AloneSix(s, id);
    hide *;
  }

  lemma PushDoneFrom<T>(s: State<T>, t: State<T>, s': State<T>, id: nat, item: T)
    requires SameQueue(s, t) && Shaped(s) && PushDone(t, s', id, item)
    ensures PushDone(s, s', id, item)
  {}

  lemma PushAgain<T>(s: State<T>, id: nat, item: T, m: nat)
    requires Shaped(s) && id in s.threads && m < 5 && s.cells[Slot(s.end, s.cap)].status != Empty
    ensures Shaped(At(s, id, PushLoadEnd(item, m)))
    ensures Twice(At(s, id, PushLoadEnd(item, m)), id) == At(s, id, PushLoadEnd(item, m + 1))
  {
    PushLooks(At(s, id, PushLoadEnd(item, m)), id, item, m);
    hide Twice, Slot;
  }

  lemma {:induction false} PushTurnedAway<T>(s: State<T>, id: nat, item: T, m: nat)
    requires Shaped(s) && id in s.threads && s.threads[id] == PushLoadEnd(item, 0) && m <= 5
    requires s.cells[Slot(s.end, s.cap)].status != Empty
    ensures Exec(s, Alone(id, 2 * m)) == At(s, id, PushLoadEnd(item, m))
  {
    hide Exec, Alone, Slot, Twice, At, Step, Shaped;
    if m == 0 {
      AloneNone(s, id);
      AtFacts(s, id, PushLoadEnd(item, 0));
    } else {
      PushTurnedAway(s, id, item, m - 1);
      AloneTwo(s, id, 2 * (m - 1));
      PushAgain(s, id, item, m - 1);
    }
  }

  lemma PushGivesUp<T>(s: State<T>, id: nat, item: T)
    requires Shaped(s) && id in s.threads && s.threads[id] == PushLoadEnd(item, 0)
    requires s.cells[Slot(s.end, s.cap)].status != Empty
    ensures Exec(s, Alone(id, 11)) == At(s, id, PushReturned(false))
  {
    PushTurnedAway(s, id, item, 5);
    AloneOne(s, id, 10);
    PushLast(s, id, item);
    hide *;
  }

  /** A queue in which no call is in progress. */
  ghost predicate Quiet<T(!new)>(s: State<T>) { Inv(s) && Quiescent(s) }

  lemma PushCalled<T(!new)>(s: State<T>, id: nat, item: T)
    requires Quiet(s) && id in s.threads
    ensures Shaped(s) && s.begin <= s.end <= |s.pushed| && |s.pushed| == s.end && s.end <= s.begin + s.cap
    ensures Step(s, id, CallPush(item)) == At(s, id, PushLoadEnd(item, 0))
    ensures s.cells[Slot(s.end, s.cap)].status == Empty <==> |Contents(s)| < s.cap
  {
    QuietCells(s);
  }

  lemma Appended<T>(s: seq<T>, begin: nat, item: T)
    requires begin <= |s|
    ensures (s + [item])[begin..|s| + 1] == s[begin..|s|] + [item]
  {}

  /** A push that runs alone returns true after six steps with its item appended, exactly if there is room; otherwise
      it returns false after eleven and changes nothing. */
  lemma {:induction false} PushAlone<T(!new)>(s: State<T>, id: nat, item: T)
    requires Quiet(s) && id in s.threads
    ensures var called := Step(s, id, CallPush(item));
      && Shaped(called) && id in called.threads
      && var after6, after11 := Exec(called, Alone(id, 6)), Exec(called, Alone(id, 11));
         && (after6.threads[id] == PushReturned(true) <==> |Contents(s)| < s.cap)
         && (|Contents(s)| < s.cap ==>
               && after6.begin <= after6.end <= |after6.pushed| && Contents(after6) == Contents(s) + [item]
               && after6.cells[Slot(s.end, s.cap)] == Cell(Full, item))
         && (|Contents(s)| == s.cap ==> after11.threads[id] == PushReturned(false) && SameQueue(s, after11))
  {
    PushCalled(s, id, item);
    hide Step, Exec, Alone, Slot, Quiet;
    var called := At(s, id, PushLoadEnd(item, 0));
    if |Contents(s)| < s.cap {
      PushStraight(called, id, item);
      Appended(s.pushed, s.begin, item);
    } else {
      PushTurnedAway(called, id, item, 3);
      PushGivesUp(called, id, item);
    }
  }

  lemma PopLooks<T>(s: State<T>, id: nat, m: nat)
    requires Shaped(s) && id in s.threads && s.threads[id] == PopLoadBegin(m) && m < 5
    ensures Twice(s, id) == At(s, id,
      if s.cells[Slot(s.begin, s.cap)].status == Full then PopLock(m + 1, s.begin) else PopLoadBegin(m + 1))
  {
    hide Slot;
    var pc := PopLoadStatus(m + 1, s.begin);
    assert Step(s, id, Run(false)) == At(s, id, pc);
    assert forall pc' :: At(At(s, id, pc), id, pc') == At(s, id, pc');
  }

  lemma PopTakes<T>(s: State<T>, id: nat, m: nat)
    requires Shaped(s) && id in s.threads && s.threads[id] == PopLock(m, s.begin)
    requires s.cells[Slot(s.begin, s.cap)].status == Full
    ensures var s' := Twice(s, id);
      && Shaped(s') && id in s'.threads && s'.threads[id] == PopRead(s.begin)
      && s'.cap == s.cap && s'.blank == s.blank
      && s'.begin == s.begin + 1 && s'.end == s.end && s'.pushed == s.pushed
      && s'.cells[Slot(s.begin, s.cap)].item == s.cells[Slot(s.begin, s.cap)].item
  {
    hide Slot;
    assert Step(s, id, Run(false)).threads[id] == PopClaim(m, s.begin);
  }

  lemma PopReads<T>(s: State<T>, id: nat, b: nat)
    requires Shaped(s) && id in s.threads && s.threads[id] == PopRead(b)
    ensures var s' := Twice(s, id);
      && Shaped(s') && id in s'.threads && s'.threads[id] == PopRelease(b, s.cells[Slot(b, s.cap)].item)
      && s'.cap == s.cap && s'.blank == s.blank && s'.cells[Slot(b, s.cap)].item == s.blank
      && s'.begin == s.begin && s'.end == s.end && s'.pushed == s.pushed
  {
    hide Slot;
    assert Step(s, id, Run(false)).threads[id].PopClear?;
  }

  lemma PopHandsOver<T>(s: State<T>, id: nat)
    requires Shaped(s) && id in s.threads && s.threads[id].PopRelease?
    ensures var s', pc := Step(s, id, Run(false)), s.threads[id];
      && id in s'.threads && s'.threads[id] == PopReturned(Some((pc.ticket, pc.value)))
      && s'.begin == s.begin && s'.end == s.end && s'.pushed == s.pushed
      && Shaped(s') && s'.cap == s.cap && s'.blank == s.blank
      && s'.cells[Slot(pc.ticket, s.cap)] == Cell(Empty, s.cells[Slot(pc.ticket, s.cap)].item)
  {
    hide Slot;
  }

  lemma PopStraight<T>(s: State<T>, id: nat)
    requires Shaped(s) && id in s.threads && s.threads[id] == PopLoadBegin(1)
    requires s.cells[Slot(s.begin, s.cap)].status == Full
    ensures var s' := Exec(s, Alone(id, 7));
      && s'.threads[id] == PopReturned(Some((s.begin, s.cells[Slot(s.begin, s.cap)].item)))
      && s'.begin == s.begin + 1 && s'.end == s.end && s'.pushed == s.pushed
      && s'.cap == s.cap && s'.cells[Slot(s.begin, s.cap)] == Cell(Empty, s.blank)
  {
    AloneNone(s, id);
    AloneTwo(s, id, 0);
    AloneTwo(s, id, 2);
    AloneTwo(s, id, 4);
    AloneOne(s, id, 6);
    hide Step, Exec, Alone, Slot, Twice;
    PopLooks(s, id, 1);
    PopTakes(Exec(s, Alone(id, 2)), id, 2);
    PopReads(Exec(s, Alone(id, 4)), id, s.begin);
    PopHandsOver(Exec(s, Alone(id, 6)), id);
  }

  lemma PopAgain<T>(s: State<T>, id: nat, m: nat)
    requires Shaped(s) && id in s.threads && m < 5 && s.cells[Slot(s.begin, s.cap)].status != Full
    ensures Shaped(At(s, id, PopLoadBegin(m)))
    ensures Twice(At(s, id, PopLoadBegin(m)), id) == At(s, id, PopLoadBegin(m + 1))
  {
    PopLooks(At(s, id, PopLoadBegin(m)), id, m);
    hide Twice, Slot;
  }

  lemma {:induction false} PopTurnedAway<T>(s: State<T>, id: nat, m: nat)
    requires Shaped(s) && id in s.threads && s.threads[id] == PopLoadBegin(1) && m <= 4
    requires s.cells[Slot(s.begin, s.cap)].status != Full
    ensures Exec(s, Alone(id, 2 * m)) == At(s, id, PopLoadBegin(m + 1))
  {
    hide Exec, Alone, Slot, Twice, At, Step, Shaped;
    if m == 0 {
      AloneNone(s, id);
      AtFacts(s, id, PopLoadBegin(1));
    } else {
      PopTurnedAway(s, id, m - 1);
      AloneTwo(s, id, 2 * (m - 1));
      PopAgain(s, id, m);
    }
  }

  lemma PopLast<T>(s: State<T>, id: nat, m: nat)
    requires Shaped(s) && id in s.threads && m <= 5
    ensures var t := At(s, id, PopLoadBegin(m));
      && Shaped(t) && id in Step(t, id, Run(false)).threads
      && (m < 5 ==> Step(t, id, Run(false)).threads[id].PopLoadStatus?)
      && (m == 5 ==> Step(t, id, Run(false)) == At(s, id, PopReturned(None)))
  {
    hide Slot;
  }

  lemma PushLast<T>(s: State<T>, id: nat, item: T)
    requires Shaped(s) && id in s.threads
    ensures var t := At(s, id, PushLoadEnd(item, 5));
      Shaped(t) && Step(t, id, Run(false)) == At(s, id, PushReturned(false))
  {
    hide Slot;
  }

  lemma PopStillTries<T>(s: State<T>, id: nat)
    requires Shaped(s) && id in s.threads && s.threads[id] == PopLoadBegin(1)
    requires s.cells[Slot(s.begin, s.cap)].status != Full
    ensures !Exec(s, Alone(id, 7)).threads[id].PopReturned?
  {
    PopTurnedAway(s, id, 3);
    AloneOne(s, id, 6);
    PopLast(s, id, 4);
    hide *;
  }

  lemma PopGivesUp<T>(s: State<T>, id: nat)
    requires Shaped(s) && id in s.threads && s.threads[id] == PopLoadBegin(1)
    requires s.cells[Slot(s.begin, s.cap)].status != Full
    ensures Exec(s, Alone(id, 9)) == At(s, id, PopReturned(None))
  {
    PopTurnedAway(s, id, 4);
    AloneOne(s, id, 8);
    PopLast(s, id, 5);
    hide *;
  }

  lemma PopCalled<T(!new)>(s: State<T>, id: nat)
    requires Quiet(s) && id in s.threads
    ensures Shaped(s) && s.begin <= s.end <= |s.pushed| && |s.pushed| == s.end
    ensures Step(s, id, CallPop) == At(s, id, PopLoadBegin(1))
    ensures var head := s.cells[Slot(s.begin, s.cap)];
      (head.status == Full <==> Contents(s) != []) && (Contents(s) != [] ==> head.item == Contents(s)[0])
  {
    QuietCells(s);
  }

  /** A pop that runs alone returns the oldest item after seven steps and removes it, exactly if there is one;
      otherwise it returns none after nine and changes nothing. */
  lemma {:induction false} PopAlone<T(!new)>(s: State<T>, id: nat)
    requires Quiet(s) && id in s.threads
    ensures var called := Step(s, id, CallPop);
      && Shaped(called) && id in called.threads
      && var after7, after9 := Exec(called, Alone(id, 7)), Exec(called, Alone(id, 9));
         && (after7.threads[id].PopReturned? <==> Contents(s) != [])
         && (Contents(s) != [] ==>
               && after7.threads[id].got.Some? && after7.threads[id].got.value.1 == Contents(s)[0]
               && after7.begin <= after7.end <= |after7.pushed| && Contents(after7) == Contents(s)[1..]
               && after7.cells[Slot(s.begin, s.cap)] == Cell(Empty, s.blank))
         && (Contents(s) == [] ==> after9.threads[id] == PopReturned(None) && SameQueue(s, after9))
  {
    PopCalled(s, id);
    hide Step, Exec, Alone, Slot, Quiet;
    var called := At(s, id, PopLoadBegin(1));
    if Contents(s) != [] {
      PopStraight(called, id);
    } else {
      PopStillTries(called, id);
      PopGivesUp(called, id);
    }
  }

  /** Every run that ends with no call in progress leaves such a queue. */
  lemma RunsEndQuiet<T(!new)>(s: State<T>, run: seq<Event<T>>)
    requires Init(s) && Events(s, run) && Quiescent(Exec(s, run))
    ensures Quiet(Exec(s, run))
  {
    RunKeepsInv(s, run);
  }

  // ---------------------------------------------------------------- why a claim fails

  /** The thread stands between loading a ticket and being granted one. */
  predicate PushLoaded<T>(pc: Pc<T>) { pc.PushLoadStatus? || pc.PushLock? || pc.PushClaim? || pc.PushRollback? }

  predicate PopLoaded<T>(pc: Pc<T>) { pc.PopLoadStatus? || pc.PopLock? || pc.PopClaim? || pc.PopRollback? }

  /** Where the ticket of such a thread comes from. */
  ghost predicate TicketFrom<T>(s: State<T>, pc: Pc<T>, pc': Pc<T>) {
    && (PushLoaded(pc') ==> (PushLoaded(pc) && pc'.ticket == pc.ticket) || (pc.PushLoadEnd? && pc'.ticket == s.end))
    && (PopLoaded(pc') ==> (PopLoaded(pc) && pc'.ticket == pc.ticket) || (pc.PopLoadBegin? && pc'.ticket == s.begin))
  }

  lemma PushTicketFrom<T>(s: State<T>, id: nat, spurious: bool)
    requires Shaped(s) && id in s.threads
    ensures id in StepPush(s, id, spurious).threads
    ensures TicketFrom(s, s.threads[id], StepPush(s, id, spurious).threads[id])
  {
    hide Slot, SetStatus, SetItem, Acquire, Free;
  }

  lemma PopTicketFrom<T>(s: State<T>, id: nat, spurious: bool)
    requires Shaped(s) && id in s.threads
    ensures id in StepPop(s, id, spurious).threads
    ensures TicketFrom(s, s.threads[id], StepPop(s, id, spurious).threads[id])
  {
    hide Slot, SetStatus, SetItem, Acquire, Free;
  }

  lemma StepTicketFrom<T>(s: State<T>, id: nat, act: Action<T>)
    requires Shaped(s) && id in s.threads
    ensures id in Step(s, id, act).threads && TicketFrom(s, s.threads[id], Step(s, id, act).threads[id])
  {
    if act.Run? {
      PushTicketFrom(s, id, act.spurious);
      PopTicketFrom(s, id, act.spurious);
      hide StepPush, StepPop, TicketFrom;
      SameTicket(s, s.threads[id]);
    }
  }

  lemma SameTicket<T>(s: State<T>, pc: Pc<T>)
    ensures TicketFrom(s, pc, pc)
  {}

  /** The n-th step of a run grants thread k the ticket t for a push (a pop). */
  ghost predicate PushGranted<T>(s: State<T>, run: seq<Event<T>>, n: nat, k: nat, t: nat)
    requires Shaped(s) && Events(s, run)
  {
    && n < |run| && run[n].id == k
    && Exec(s, run[..n]).threads[k].PushClaim?
    && var pc := Exec(s, run[..n + 1]).threads[k]; pc.PushWrite? && pc.ticket == t
  }

  ghost predicate PopGranted<T>(s: State<T>, run: seq<Event<T>>, n: nat, k: nat, t: nat)
    requires Shaped(s) && Events(s, run)
  {
    && n < |run| && run[n].id == k
    && Exec(s, run[..n]).threads[k].PopClaim?
    && var pc := Exec(s, run[..n + 1]).threads[k]; pc.PopRead? && pc.ticket == t
  }

  /** The counters never fall, and a loaded ticket is not beyond them. */
  ghost predicate Loads<T>(s: State<T>) {
    forall id | id in s.threads ::
      && (PushLoaded(s.threads[id]) ==> s.threads[id].ticket <= s.end)
      && (PopLoaded(s.threads[id]) ==> s.threads[id].ticket <= s.begin)
  }

  lemma StepLoads<T>(s: State<T>, s': State<T>, id: nat)
    requires id in s.threads && Effect(s, s', id) && TicketFrom(s, s.threads[id], s'.threads[id]) && Loads(s)
    ensures Loads(s') && s.end <= s'.end && s.begin <= s'.begin
  {
    hide Shaped;
  }

  lemma {:induction false} RunLoads<T(!new)>(s: State<T>, run: seq<Event<T>>)
    requires Init(s) && Events(s, run)
    ensures Loads(Exec(s, run))
  {
    if run == [] {
    } else {
      var before, last := run[..|run| - 1], run[|run| - 1];
      RunLoads(s, before);
      StepEffect(Exec(s, before), last.id, last.act);
      StepTicketFrom(Exec(s, before), last.id, last.act);
      hide Step, Effect, TicketFrom, Loads, Init;
      StepLoads(Exec(s, before), Exec(s, run), last.id);
    }
  }

  lemma GrantedEarlier<T>(s: State<T>, run: seq<Event<T>>, n: nat, k: nat, t: nat)
    requires Shaped(s) && Events(s, run) && run != []
    ensures PushGranted(s, run[..|run| - 1], n, k, t) ==> PushGranted(s, run, n, k, t)
    ensures PopGranted(s, run[..|run| - 1], n, k, t) ==> PopGranted(s, run, n, k, t)
    ensures n < |run| - 1 && PushGranted(s, run, n, k, t) ==> PushGranted(s, run[..|run| - 1], n, k, t)
    ensures n < |run| - 1 && PopGranted(s, run, n, k, t) ==> PopGranted(s, run[..|run| - 1], n, k, t)
  {
    hide Exec;
    var before := run[..|run| - 1];
    if n < |before| { assert before[..n] == run[..n] && before[..n + 1] == run[..n + 1]; }
  }

  /** Every ticket behind the counter was granted to somebody. */
  lemma {:induction false} PushGrantExists<T(!new)>(s: State<T>, run: seq<Event<T>>, t: nat) returns (n: nat, k: nat)
    requires Init(s) && Events(s, run) && t < Exec(s, run).end
    ensures PushGranted(s, run, n, k, t)
  {
    if run == [] {
      assert false;
    } else {
      var before, last := run[..|run| - 1], run[|run| - 1];
      var was, now := Exec(s, before), Exec(s, run);
      if t < was.end {
        n, k := PushGrantExists(s, before, t);
        GrantedEarlier(s, run, n, k, t);
      } else {
        StepEffect(was, last.id, last.act);
        n, k := |before|, last.id;
        assert run[..n + 1] == run;
        hide Exec, Step;
      }
    }
  }

  lemma {:induction false} PopGrantExists<T(!new)>(s: State<T>, run: seq<Event<T>>, t: nat) returns (n: nat, k: nat)
    requires Init(s) && Events(s, run) && t < Exec(s, run).begin
    ensures PopGranted(s, run, n, k, t)
  {
    if run == [] {
      assert false;
    } else {
      var before, last := run[..|run| - 1], run[|run| - 1];
      var was, now := Exec(s, before), Exec(s, run);
      if t < was.begin {
        n, k := PopGrantExists(s, before, t);
        GrantedEarlier(s, run, n, k, t);
      } else {
        StepEffect(was, last.id, last.act);
        n, k := |before|, last.id;
        assert run[..n + 1] == run;
        hide Exec, Step;
      }
    }
  }

  /** After a grant the counter is past the ticket, and the thread that has it never loads it again. */
  ghost predicate PastPush<T>(s: State<T>, id: nat, t: nat) {
    t < s.end && id in s.threads && (PushLoaded(s.threads[id]) ==> s.threads[id].ticket > t)
  }

  ghost predicate PastPop<T>(s: State<T>, id: nat, t: nat) {
    t < s.begin && id in s.threads && (PopLoaded(s.threads[id]) ==> s.threads[id].ticket > t)
  }

  lemma StepStaysPast<T>(s: State<T>, s': State<T>, id: nat, k: nat, t: nat)
    requires id in s.threads && Effect(s, s', id) && TicketFrom(s, s.threads[id], s'.threads[id])
    ensures PastPush(s, k, t) ==> PastPush(s', k, t)
    ensures PastPop(s, k, t) ==> PastPop(s', k, t)
  {
    hide Shaped;
  }

  lemma {:induction false} GrantedIsPast<T>(s: State<T>, run: seq<Event<T>>, n: nat, k: nat, t: nat)
    requires Shaped(s) && Events(s, run)
    ensures PushGranted(s, run, n, k, t) ==> PastPush(Exec(s, run), k, t)
    ensures PopGranted(s, run, n, k, t) ==> PastPop(Exec(s, run), k, t)
    decreases |run|
  {
    if run == [] {
    } else {
      var before, last := run[..|run| - 1], run[|run| - 1];
      StepEffect(Exec(s, before), last.id, last.act);
      if n < |before| {
        GrantedIsPast(s, before, n, k, t);
        GrantedEarlier(s, run, n, k, t);
        StepTicketFrom(Exec(s, before), last.id, last.act);
        hide Step, Effect, TicketFrom, PastPush, PastPop, PushGranted, PopGranted;
        StepStaysPast(Exec(s, before), Exec(s, run), last.id, k, t);
      } else if n == |before| {
        assert run[..n + 1] == run;
        hide Step, Exec;
      }
    }
  }

  /** In every reachable state a push that claims its ticket, without a spurious failure, is turned back exactly if
      another thread has been granted that ticket before; otherwise it gets it. */
  lemma {:induction false} PushClaimFailsIff<T(!new)>(s: State<T>, run: seq<Event<T>>, id: nat)
    requires Init(s) && Events(s, run) && id in s.threads && Exec(s, run).threads[id].PushClaim?
    ensures var now := Exec(s, run);
      var t, s' := now.threads[id].ticket, Step(now, id, Run(false));
      && id in s'.threads
      && (s'.threads[id].PushRollback? <==> exists n: nat, k: nat :: k != id && PushGranted(s, run, n, k, t))
      && (!s'.threads[id].PushRollback? ==> s'.threads[id].PushWrite?)
  {
    var now := Exec(s, run);
    var t := now.threads[id].ticket;
    RunLoads(s, run);
    ClaimOutcome(now, id);
    hide Exec, Step, PushGranted;
    if t < now.end {
      var n, k := PushGrantExists(s, run, t);
      GrantedIsPast(s, run, n, k, t);
      assert k != id;
    }
    forall n: nat, k: nat | PushGranted(s, run, n, k, t) ensures t < now.end { GrantedIsPast(s, run, n, k, t); }
  }

  lemma {:induction false} PopClaimFailsIff<T(!new)>(s: State<T>, run: seq<Event<T>>, id: nat)
    requires Init(s) && Events(s, run) && id in s.threads && Exec(s, run).threads[id].PopClaim?
    ensures var now := Exec(s, run);
      var t, s' := now.threads[id].ticket, Step(now, id, Run(false));
      && id in s'.threads
      && (s'.threads[id].PopRollback? <==> exists n: nat, k: nat :: k != id && PopGranted(s, run, n, k, t))
      && (!s'.threads[id].PopRollback? ==> s'.threads[id].PopRead?)
  {
    var now := Exec(s, run);
    var t := now.threads[id].ticket;
    RunLoads(s, run);
    ClaimOutcome(now, id);
    hide Exec, Step, PopGranted;
    if t < now.begin {
      var n, k := PopGrantExists(s, run, t);
      GrantedIsPast(s, run, n, k, t);
      assert k != id;
    }
    forall n: nat, k: nat | PopGranted(s, run, n, k, t) ensures t < now.begin { GrantedIsPast(s, run, n, k, t); }
  }

  /** A spurious failure sends the thread back as a real one would, and touches no cell. */
  lemma {:induction false} SpuriousFailure<T>(s: State<T>, id: nat)
    requires Shaped(s) && id in s.threads
    ensures var pc, s' := s.threads[id], Step(s, id, Run(true));
      && (pc.PushLock? ==> s' == At(s, id, PushLoadEnd(pc.item, pc.tries)))
      && (pc.PushClaim? ==> s' == At(s, id, PushRollback(pc.item, pc.tries, pc.ticket)))
      && (pc.PopLock? ==> s' == At(s, id, PopLoadBegin(pc.tries)))
      && (pc.PopClaim? ==> s' == At(s, id, PopRollback(pc.tries, pc.ticket)))
  {
    hide Slot;
  }

  lemma ClaimOutcome<T>(s: State<T>, id: nat)
    requires Shaped(s) && id in s.threads && (s.threads[id].PushClaim? || s.threads[id].PopClaim?)
    ensures var pc, s' := s.threads[id], Step(s, id, Run(false));
      && id in s'.threads
      && (pc.PushClaim? ==> if pc.ticket == s.end then s'.threads[id].PushWrite? else s'.threads[id].PushRollback?)
      && (pc.PopClaim? ==> if pc.ticket == s.begin then s'.threads[id].PopRead? else s'.threads[id].PopRollback?)
  {
    hide Slot;
  }
}
