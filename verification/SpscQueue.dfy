/** The single-producer, single-consumer ring queue of lock_free_circular_queue_ss.h as a step machine.

    One producer and one consumer thread; every status load or store, every counter update and every
    access to a cell's item is one step.  A run is any interleaving of such steps; memory is
    sequentially consistent.  The counters m_begin and m_end wrap at 2^bits, as their C++ type does.

    `pushed` and `popped` are history variables: no step reads them to choose what to do. */
module SpscQueue {
  import opened Ring
  import opened Wrappers

  datatype Status = Empty | Full

  datatype Cell<T> = Cell(status: Status, item: T)

  const MAX_POW := 24
  const PUSH_TRIES := 3
  const POP_TRIES := 3

  /** `i` is the loop counter of the call, `pos` the cell it computed on entry. */
  datatype Producer<T> =
    | NotPushing
    | PushCheck(item: T, i: nat, pos: nat)
    | PushAdvance(item: T, pos: nat)
    | PushWrite(item: T, pos: nat)
    | PushPublish(item: T, pos: nat)
    | PushReturned(ok: bool)
  {
    predicate Running() { !NotPushing? && !PushReturned? }
    predicate Committed() { PushAdvance? || PushWrite? || PushPublish? }
    /** m_end has been moved but the cell is not published yet. */
    predicate Ahead() { PushWrite? || PushPublish? }
  }

  datatype Consumer<T> =
    | NotPopping
    | PopCheck(i: nat, pos: nat)
    | PopAdvance(pos: nat)
    | PopRead(pos: nat)
    | PopClear(pos: nat, value: T)
    | PopRelease(pos: nat, value: T)
    | PopReturned(got: Option<T>)
  {
    predicate Running() { !NotPopping? && !PopReturned? }
    predicate Committed() { PopAdvance? || PopRead? || PopClear? || PopRelease? }
    predicate Ahead() { PopRead? || PopClear? || PopRelease? }
  }

  datatype Action<T> = CallPush(item: T) | CallPop | RunProducer | RunConsumer

  datatype State<T> = State(
    pow: nat, bits: nat, blank: T,
    begin: nat, end: nat, cells: seq<Cell<T>>,
    producer: Producer<T>, consumer: Consumer<T>,
    pushed: seq<T>, popped: seq<T>)
  {
    function Cap(): (c: nat)
      ensures c > 0
    {
      Pow2(pow)
    }
  }

  predicate Shaped<T>(s: State<T>) {
    s.pow <= MAX_POW <= s.bits && |s.cells| == s.Cap()
  }

  /** The ring has 2^powArg cells, at most 2^24. */
  ghost predicate Init<T>(s: State<T>, powArg: nat) {
    && s.pow == (if powArg < MAX_POW then powArg else MAX_POW)
    && Shaped(s)
    && s.begin == 0 && s.end == 0 && s.pushed == [] && s.popped == []
    && s.producer == NotPushing && s.consumer == NotPopping
    && (forall i | 0 <= i < s.Cap() :: s.cells[i].status == Empty)
  }

  /** The constructor: whatever power is asked for, there is such a queue. */
  function NewQueue<T>(powArg: nat, bits: nat, blank: T): (s: State<T>)
    requires bits >= 24
    ensures Init(s, powArg) && s.Cap() == Pow2(if powArg < 24 then powArg else 24)
  {
    var pow := if powArg < MAX_POW then powArg else MAX_POW;
    State(pow, bits, blank, 0, 0, seq(Pow2(pow), i => Cell(Empty, blank)), NotPushing, NotPopping, [], [])
  }

  /** The cell that a counter points at: the source masks instead of dividing. */
  function RealPos<T>(s: State<T>, counter: nat): (pos: nat)
    ensures pos < s.Cap()
  {
    BitAnd(counter, s.Cap() - 1)
  }

  function SetStatus<T>(s: State<T>, i: nat, st: Status): State<T>
    requires i < |s.cells|
  {
    s.(cells := s.cells[i := s.cells[i].(status := st)])
  }

  function SetItem<T>(s: State<T>, i: nat, item: T): State<T>
    requires i < |s.cells|
  {
    s.(cells := s.cells[i := s.cells[i].(item := item)])
  }

  function Next<T>(s: State<T>, counter: nat): nat { Wrap(counter + 1, s.bits) }

  predicate PosOk<T>(s: State<T>) {
    && (s.producer.Running() ==> s.producer.pos < |s.cells|)
    && (s.consumer.Running() ==> s.consumer.pos < |s.cells|)
  }

  function StepProducer<T>(s: State<T>): State<T>
    requires Shaped(s) && PosOk(s)
  {
    match s.producer
    case PushCheck(item, i, pos) =>
      if i + 1 == PUSH_TRIES then s.(producer := PushReturned(false))
      else if s.cells[pos].status == Empty then s.(producer := PushAdvance(item, pos))
      else s.(producer := PushCheck(item, i + 1, pos))
    case PushAdvance(item, pos) => s.(end := Next(s, s.end), producer := PushWrite(item, pos))
    case PushWrite(item, pos) => SetItem(s, pos, item).(producer := PushPublish(item, pos))
    case PushPublish(item, pos) =>
      SetStatus(s, pos, Full).(producer := PushReturned(true), pushed := s.pushed + [item])
    case _ => s
  }

  function StepConsumer<T>(s: State<T>): State<T>
    requires Shaped(s) && PosOk(s)
  {
    match s.consumer
    case PopCheck(i, pos) =>
      if i == POP_TRIES then s.(consumer := PopReturned(None))
      else if s.cells[pos].status == Full then s.(consumer := PopAdvance(pos))
      else s.(consumer := PopCheck(i + 1, pos))
    case PopAdvance(pos) => s.(begin := Next(s, s.begin), consumer := PopRead(pos))
    case PopRead(pos) => s.(consumer := PopClear(pos, s.cells[pos].item))
    case PopClear(pos, value) => SetItem(s, pos, s.blank).(consumer := PopRelease(pos, value))
    case PopRelease(pos, value) =>
      SetStatus(s, pos, Empty).(consumer := PopReturned(Some(value)), popped := s.popped + [value])
    case _ => s
  }

  function Step<T>(s: State<T>, act: Action<T>): State<T>
    requires Shaped(s) && PosOk(s)
  {
    match act
    case CallPush(item) =>
      if s.producer.Running() then s else s.(producer := PushCheck(item, 0, RealPos(s, s.end)))
    case CallPop => if s.consumer.Running() then s else s.(consumer := PopCheck(0, RealPos(s, s.begin)))
    case RunProducer => StepProducer(s)
    case RunConsumer => StepConsumer(s)
  }

  /** What `full()` and `empty()` answer when their one load happens in state s. */
  predicate FullSeen<T>(s: State<T>)
    requires Shaped(s)
  {
    s.cells[RealPos(s, s.end)].status == Full
  }

  predicate EmptySeen<T>(s: State<T>)
    requires Shaped(s)
  {
    s.cells[RealPos(s, s.begin)].status == Empty
  }

  // ---------------------------------------------------------------- invariant

  /** A published item that has not been released. */
  ghost predicate OccupiedOk<T>(s: State<T>, t: nat)
    requires Shaped(s) && t < |s.pushed|
  {
    var cell := s.cells[Slot(t, s.Cap())];
    cell.status == Full && (cell.item == s.pushed[t] || (t == |s.popped| && s.consumer.PopRelease?))
  }

  ghost predicate VacantOk<T>(s: State<T>, t: nat)
    requires Shaped(s)
  {
    s.cells[Slot(t, s.Cap())].status == Empty
  }

  ghost predicate ProducerOk<T>(s: State<T>)
    requires Shaped(s)
  {
    var p, n := s.producer, |s.pushed|;
    && s.end == Wrap(n + if p.Ahead() then 1 else 0, s.bits)
    && (p.Running() ==> p.pos == Slot(n, s.Cap()))
    && (p.Committed() ==> n < |s.popped| + s.Cap())
    && (p.PushPublish? ==> s.cells[p.pos].item == p.item)
    && (p.PushCheck? ==> p.i < PUSH_TRIES)
  }

  ghost predicate ConsumerOk<T>(s: State<T>)
    requires Shaped(s)
  {
    var c, n := s.consumer, |s.popped|;
    && s.begin == Wrap(n + if c.Ahead() then 1 else 0, s.bits)
    && (c.Running() ==> c.pos == Slot(n, s.Cap()))
    && (c.Committed() ==> n < |s.pushed|)
    && (c.PopClear? || c.PopRelease? ==> c.value == s.pushed[n])
    && (c.PopCheck? ==> c.i <= POP_TRIES)
  }

  ghost predicate Inv<T>(s: State<T>) {
    && Shaped(s)
    && |s.popped| <= |s.pushed| <= |s.popped| + s.Cap()
    && s.popped == s.pushed[..|s.popped|]
    && ProducerOk(s) && ConsumerOk(s)
    && (forall t {:trigger OccupiedOk(s, t)} | |s.popped| <= t < |s.pushed| :: OccupiedOk(s, t))
    && (forall t {:trigger VacantOk(s, t)} | |s.pushed| <= t < |s.popped| + s.Cap() :: VacantOk(s, t))
  }

  /** The abstract queue: published and not yet released items, oldest first. */
  ghost function Contents<T>(s: State<T>): seq<T>
    requires |s.popped| <= |s.pushed|
  {
    s.pushed[|s.popped|..]
  }

  lemma InvPos<T>(s: State<T>)
    requires Inv(s)
    ensures PosOk(s)
  {}

  lemma InvBounds<T>(s: State<T>)
    requires Inv(s)
    ensures |s.popped| <= |s.pushed| <= |s.popped| + s.Cap() && s.popped == s.pushed[..|s.popped|]
  {}

  lemma InitInv<T>(s: State<T>, powArg: nat)
    requires Init(s, powArg)
    ensures Inv(s)
  {
    WrapZero(s.bits);
    hide Slot, Wrap, Pow2;
    forall t | 0 <= t < s.Cap() ensures VacantOk(s, t) {}
  }

  /** The cell where the next push goes is free exactly when the abstract queue has room. */
  lemma TailCell<T>(s: State<T>)
    requires Inv(s)
    ensures s.cells[Slot(|s.pushed|, s.Cap())].status == (if |Contents(s)| < s.Cap() then Empty else Full)
  {
    if |Contents(s)| < s.Cap() {
      assert VacantOk(s, |s.pushed|);
    } else {
      assert OccupiedOk(s, |s.popped|);
      SlotLap(|s.popped|, s.Cap());
    }
  }

  /** The cell where the next pop looks is taken exactly when the abstract queue is not empty. */
  lemma HeadCell<T>(s: State<T>)
    requires Inv(s)
    ensures s.cells[Slot(|s.popped|, s.Cap())].status == (if Contents(s) == [] then Empty else Full)
  {
    if Contents(s) == [] {
      assert VacantOk(s, |s.popped|);
    } else {
      assert OccupiedOk(s, |s.popped|);
    }
  }

  lemma CallPos<T>(s: State<T>)
    requires Inv(s)
    ensures !s.producer.Ahead() ==> RealPos(s, s.end) == Slot(|s.pushed|, s.Cap())
    ensures !s.consumer.Ahead() ==> RealPos(s, s.begin) == Slot(|s.popped|, s.Cap())
  {
    WrappedSlot(|s.pushed|, s.pow, s.bits);
    WrappedSlot(|s.popped|, s.pow, s.bits);
  }

  /** When the two sides work on an item at the same time, they work on different cells. */
  lemma ItemsApart<T>(s: State<T>)
    requires Inv(s) && s.producer.Ahead() && s.consumer.Ahead()
    ensures s.producer.pos != s.consumer.pos
  {
    TailCell(s);
    HeadCell(s);
  }

  // ---------------------------------------------------------------- every step keeps the invariant

  lemma CallKeepsInv<T>(s: State<T>, act: Action<T>)
    requires Inv(s) && (act.CallPush? || act.CallPop?)
    ensures Inv(Step(s, act))
  {
    CallPos(s);
    var s' := Step(s, act);
    forall t | |s.popped| <= t < |s.pushed| ensures OccupiedOk(s', t) { assert OccupiedOk(s, t); }
    forall t | |s.pushed| <= t < |s.popped| + s.Cap() ensures VacantOk(s', t) { assert VacantOk(s, t); }
  }

  /** `s'` has the cells and the history of s. */
  ghost predicate SameCells<T>(s: State<T>, s': State<T>) {
    s' == s.(begin := s'.begin, end := s'.end, producer := s'.producer, consumer := s'.consumer)
  }

  lemma SameCellsKeep<T>(s: State<T>, s': State<T>)
    requires Inv(s) && SameCells(s, s') && ProducerOk(s') && ConsumerOk(s')
    requires s.consumer.PopRelease? ==> s'.consumer == s.consumer
    ensures Inv(s')
  {
    forall t | |s.popped| <= t < |s.pushed| ensures OccupiedOk(s', t) { assert OccupiedOk(s, t); }
    forall t | |s.pushed| <= t < |s.popped| + s.Cap() ensures VacantOk(s', t) { assert VacantOk(s, t); }
  }

  lemma ProducerChecks<T>(s: State<T>)
    requires Inv(s) && (s.producer.PushCheck? || s.producer.PushAdvance?)
    ensures Inv(Step(s, RunProducer))
  {
    var s' := Step(s, RunProducer);
    TailCell(s);
    WrapNext(|s.pushed|, s.bits);
    hide Slot, Wrap, Pow2, Inv;
    SameCellsKeep(s, s');
  }

  lemma ConsumerChecks<T>(s: State<T>)
    requires Inv(s) && (s.consumer.PopCheck? || s.consumer.PopAdvance?)
    ensures Inv(Step(s, RunConsumer))
  {
    var s' := Step(s, RunConsumer);
    HeadCell(s);
    WrapNext(|s.popped|, s.bits);
    hide Slot, Wrap, Pow2, Inv;
    SameCellsKeep(s, s');
  }

  lemma ConsumerReads<T>(s: State<T>)
    requires Inv(s) && s.consumer.PopRead?
    ensures Inv(Step(s, RunConsumer))
  {
    var s' := Step(s, RunConsumer);
    assert OccupiedOk(s, |s.popped|);
    hide Slot, Wrap, Pow2, Inv;
    SameCellsKeep(s, s');
  }

  lemma ItemKeepsInv<T>(s: State<T>, act: Action<T>)
    requires Inv(s)
    requires (act.RunProducer? && s.producer.PushWrite?) || (act.RunConsumer? && s.consumer.PopClear?)
    ensures Inv(Step(s, act))
  {
    var s' := Step(s, act);
    TailCell(s);
    HeadCell(s);
    forall t | |s.popped| <= t < |s.pushed| ensures OccupiedOk(s', t) {
      assert OccupiedOk(s, t);
      if act.RunConsumer? && Slot(t, s.Cap()) == s.consumer.pos { SlotInjective(t, |s.popped|, s.Cap()); }
    }
    forall t | |s.pushed| <= t < |s.popped| + s.Cap() ensures VacantOk(s', t) { assert VacantOk(s, t); }
  }

  lemma PublishKeepsInv<T>(s: State<T>)
    requires Inv(s) && s.producer.PushPublish?
    ensures Inv(Step(s, RunProducer))
  {
    var s' := Step(s, RunProducer);
    forall t | |s'.popped| <= t < |s'.pushed| ensures OccupiedOk(s', t) {
      if t < |s.pushed| { assert OccupiedOk(s, t); }
      if t < |s.pushed| && Slot(t, s.Cap()) == s.producer.pos { SlotInjective(t, |s.pushed|, s.Cap()); }
    }
    forall t | |s'.pushed| <= t < |s'.popped| + s.Cap() ensures VacantOk(s', t) {
      assert VacantOk(s, t);
      if Slot(t, s.Cap()) == s.producer.pos { SlotInjective(t, |s.pushed|, s.Cap()); }
    }
  }

  lemma ReleaseKeepsInv<T>(s: State<T>)
    requires Inv(s) && s.consumer.PopRelease?
    ensures Inv(Step(s, RunConsumer))
  {
    var s' := Step(s, RunConsumer);
    forall t | |s'.popped| <= t < |s'.pushed| ensures OccupiedOk(s', t) {
      assert OccupiedOk(s, t);
      if Slot(t, s.Cap()) == s.consumer.pos { SlotInjective(t, |s.popped|, s.Cap()); }
    }
    SlotLap(|s.popped|, s.Cap());
    forall t | |s'.pushed| <= t < |s'.popped| + s.Cap() ensures VacantOk(s', t) {
      if t < |s.popped| + s.Cap() { assert VacantOk(s, t); }
    }
  }

  lemma {:induction false} StepKeepsInv<T>(s: State<T>, act: Action<T>)
    requires Inv(s)
    ensures PosOk(s) && Inv(Step(s, act))
  {
    InvPos(s);
    match act
    case CallPush(_) => CallKeepsInv(s, act);
    case CallPop => CallKeepsInv(s, act);
    case RunProducer =>
      if s.producer.PushCheck? || s.producer.PushAdvance? { ProducerChecks(s); }
      else if s.producer.PushWrite? { ItemKeepsInv(s, act); }
      else if s.producer.PushPublish? { PublishKeepsInv(s); }
    case RunConsumer =>
      if s.consumer.PopCheck? || s.consumer.PopAdvance? { ConsumerChecks(s); }
      else if s.consumer.PopRead? { ConsumerReads(s); }
      else if s.consumer.PopClear? { ItemKeepsInv(s, act); }
      else if s.consumer.PopRelease? { ReleaseKeepsInv(s); }
  }

  // ---------------------------------------------------------------- refinement of a bounded FIFO

  /** Publishing appends the item, for which there is room; releasing removes and yields the head; no other
      step changes the abstract queue. */
  lemma {:induction false} StepRefinesFifo<T>(s: State<T>, act: Action<T>)
    requires Inv(s) && PosOk(s)
    ensures Inv(Step(s, act)) && Step(s, act).pow == s.pow
    ensures var s' := Step(s, act);
      if act.RunProducer? && s.producer.PushPublish? then
        |Contents(s)| < s.Cap() && Contents(s') == Contents(s) + [s.producer.item]
      else if act.RunConsumer? && s.consumer.PopRelease? then
        Contents(s) == [s.consumer.value] + Contents(s')
      else Contents(s') == Contents(s)
  {
    StepKeepsInv(s, act);
    StepHistory(s, act);
    CommittedFacts(s);
    InvBounds(s);
    hide Step, Inv, State.Cap;
    var s' := Step(s, act);
    if act.RunProducer? && s.producer.PushPublish? {
      assert s'.pushed == s.pushed + [s.producer.item];
    } else if act.RunConsumer? && s.consumer.PopRelease? {
      assert s.pushed[|s.popped|..] == [s.consumer.value] + s.pushed[|s.popped| + 1..];
    }
  }

  lemma StepHistory<T>(s: State<T>, act: Action<T>)
    requires Shaped(s) && PosOk(s)
    ensures var s' := Step(s, act);
      && s'.pow == s.pow
      && s'.pushed == s.pushed + (if act.RunProducer? && s.producer.PushPublish? then [s.producer.item] else [])
      && s'.popped == s.popped + (if act.RunConsumer? && s.consumer.PopRelease? then [s.consumer.value] else [])
  {
    hide RealPos, Next;
  }

  lemma CommittedFacts<T>(s: State<T>)
    requires Inv(s)
    ensures Shaped(s) && |s.popped| <= |s.pushed|
    ensures s.producer.PushPublish? ==> |Contents(s)| < s.Cap()
    ensures s.consumer.PopRelease? ==> |s.popped| < |s.pushed| && s.consumer.value == s.pushed[|s.popped|]
  {}

  /** A status check goes on exactly when the abstract queue has room (for a push) or an item (for a pop),
      so a call fails only after it has seen the queue full, or empty, at every look. */
  lemma {:induction false} ChecksAreExact<T>(s: State<T>)
    requires Inv(s) && PosOk(s)
    ensures var p := s.producer;
      p.PushCheck? ==>
        StepProducer(s).producer ==
          if p.i + 1 == PUSH_TRIES then PushReturned(false)
          else if |Contents(s)| < s.Cap() then PushAdvance(p.item, p.pos)
          else PushCheck(p.item, p.i + 1, p.pos)
    ensures var c := s.consumer;
      c.PopCheck? ==>
        StepConsumer(s).consumer ==
          if c.i == POP_TRIES then PopReturned(None)
          else if Contents(s) != [] then PopAdvance(c.pos)
          else PopCheck(c.i + 1, c.pos)
  {
    TailCell(s);
    HeadCell(s);
    hide Slot, Wrap, Pow2, OccupiedOk, VacantOk;
  }

  /** Between its own calls each side's question is answered exactly. */
  lemma QuestionsAreExact<T>(s: State<T>)
    requires Inv(s)
    ensures !s.producer.Ahead() ==> (FullSeen(s) <==> |Contents(s)| == s.Cap())
    ensures !s.consumer.Ahead() ==> (EmptySeen(s) <==> Contents(s) == [])
  {
    CallPos(s);
    TailCell(s);
    HeadCell(s);
  }

  // ---------------------------------------------------------------- whole runs

  lemma StepShape<T>(s: State<T>, act: Action<T>)
    requires Shaped(s) && PosOk(s)
    ensures Shaped(Step(s, act)) && PosOk(Step(s, act))
  {
    hide RealPos, Next;
  }

  /** The state after an interleaving `run` of steps. */
  ghost function Exec<T>(s: State<T>, run: seq<Action<T>>): (r: State<T>)
    requires Shaped(s) && PosOk(s)
    ensures Shaped(r) && PosOk(r)
  {
    if run == [] then s
    else
      var before, last := Exec(s, run[..|run| - 1]), run[|run| - 1];
      StepShape(before, last);
      Step(before, last)
  }

  lemma {:induction false} RunKeepsInv<T>(s: State<T>, run: seq<Action<T>>)
    requires Inv(s)
    ensures PosOk(s) && Inv(Exec(s, run))
  {
    InvPos(s);
    hide Inv, Step;
    if run == [] {
    } else {
      RunKeepsInv(s, run[..|run| - 1]);
      StepKeepsInv(Exec(s, run[..|run| - 1]), run[|run| - 1]);
    }
  }

  /** The items of the `push` calls that returned true during a run, in the order of their return. */
  ghost function Accepted<T>(s: State<T>, run: seq<Action<T>>): seq<T>
    requires Shaped(s) && PosOk(s)
  {
    if run == [] then []
    else
      var before, after := Exec(s, run[..|run| - 1]), Exec(s, run);
      Accepted(s, run[..|run| - 1])
      + if before.producer.Running() && after.producer == PushReturned(true) then [before.producer.item] else []
  }

  /** The values that `pop` calls returned during a run, in the order of their return. */
  ghost function Returned<T>(s: State<T>, run: seq<Action<T>>): seq<T>
    requires Shaped(s) && PosOk(s)
  {
    if run == [] then []
    else
      var before, after := Exec(s, run[..|run| - 1]), Exec(s, run);
      Returned(s, run[..|run| - 1])
      + if before.consumer.Running() && after.consumer.PopReturned? && after.consumer.got.Some? then
          [after.consumer.got.value] else []
  }

  lemma StepLogs<T>(s: State<T>, act: Action<T>)
    requires Shaped(s) && PosOk(s)
    ensures var s' := Step(s, act);
      && s'.pushed == s.pushed
           + (if s.producer.Running() && s'.producer == PushReturned(true) then [s.producer.item] else [])
      && s'.popped == s.popped
           + (if s.consumer.Running() && s'.consumer.PopReturned? && s'.consumer.got.Some? then
                [s'.consumer.got.value] else [])
      && s'.pow == s.pow
  {
    hide RealPos, Next;
  }

  lemma {:induction false} RunLogs<T>(s: State<T>, run: seq<Action<T>>)
    requires Shaped(s) && PosOk(s)
    ensures Exec(s, run).pushed == s.pushed + Accepted(s, run)
    ensures Exec(s, run).popped == s.popped + Returned(s, run)
    ensures Exec(s, run).pow == s.pow
  {
    hide Shaped, PosOk;
    if run == [] {
    } else {
      var before, last := run[..|run| - 1], run[|run| - 1];
      RunLogs(s, before);
      StepLogs(Exec(s, before), last);
      hide Step;
      assert Exec(s, run).pushed == s.pushed + Accepted(s, run);
    }
  }

  /** Over every interleaving, the values returned so far are a prefix of the items accepted so far,
      and at most a ringful of accepted items is still unreturned. */
  lemma {:induction false} FifoOverRuns<T>(s: State<T>, powArg: nat, run: seq<Action<T>>)
    requires Init(s, powArg)
    ensures Returned(s, run) <= Accepted(s, run)
    ensures |Accepted(s, run)| <= |Returned(s, run)| + Pow2(if powArg < MAX_POW then powArg else MAX_POW)
  {
    InitInv(s, powArg);
    RunKeepsInv(s, run);
    RunLogs(s, run);
    InvBounds(Exec(s, run));
    assert s.pushed == [] && s.popped == [];
    hide Inv, Exec, Accepted, Returned, Shaped, Init;
    assert [] + Accepted(s, run) == Accepted(s, run) && [] + Returned(s, run) == Returned(s, run);
  }

  /** No interleaving lets both sides work on the same cell's item. */
  lemma {:induction false} NoSharedCell<T>(s: State<T>, powArg: nat, run: seq<Action<T>>)
    requires Init(s, powArg) && Exec(s, run).producer.Ahead() && Exec(s, run).consumer.Ahead()
    ensures Exec(s, run).producer.pos != Exec(s, run).consumer.pos
  {
    InitInv(s, powArg);
    RunKeepsInv(s, run);
    ItemsApart(Exec(s, run));
  }

  // ---------------------------------------------------------------- a question answered no is a promise

  ghost predicate NoPush<T>(run: seq<Action<T>>) { forall a | a in run :: !a.CallPush? }

  ghost predicate NoPop<T>(run: seq<Action<T>>) { forall a | a in run :: !a.CallPop? }

  ghost function Count<T(!new)>(run: seq<Action<T>>, which: Action<T> -> bool): nat {
    if run == [] then 0 else Count(run[..|run| - 1], which) + if which(run[|run| - 1]) then 1 else 0
  }

  /** Where the producer is after k steps of a push that finds room. */
  ghost function PushPath<T>(item: T, pos: nat, k: nat): Producer<T> {
    if k == 0 then PushCheck(item, 0, pos) else if k == 1 then PushAdvance(item, pos)
    else if k == 2 then PushWrite(item, pos) else if k == 3 then PushPublish(item, pos) else PushReturned(true)
  }

  /** Where the consumer is after k steps of a pop that finds `value` at the head. */
  ghost function PopPath<T>(value: T, pos: nat, k: nat): Consumer<T> {
    if k == 0 then PopCheck(0, pos) else if k == 1 then PopAdvance(pos) else if k == 2 then PopRead(pos)
    else if k == 3 then PopClear(pos, value) else if k == 4 then PopRelease(pos, value) else PopReturned(Some(value))
  }

  lemma PushPathStep<T>(s: State<T>, act: Action<T>, item: T, pos: nat, k: nat, n: nat)
    requires Inv(s) && !act.CallPush? && s.producer == PushPath(item, pos, k) && (k == 0 ==> |Contents(s)| < s.Cap())
    requires |s.pushed| == if k < 4 then n else n + 1
    ensures PosOk(s)
    ensures var s', k' := Step(s, act), k + if act.RunProducer? then 1 else 0;
      && s'.producer == PushPath(item, pos, k') && |s.popped| <= |s'.popped| && s'.pow == s.pow
      && |s'.pushed| == if k' < 4 then n else n + 1
  {
    TailCell(s);
  }

  lemma {:induction false} PushFollowsPath<T(!new)>(s: State<T>, run: seq<Action<T>>, item: T, pos: nat)
    requires Inv(s) && s.producer == PushCheck(item, 0, pos) && |Contents(s)| < s.Cap() && NoPush(run)
    ensures PosOk(s)
    ensures var f, k := Exec(s, run), Count(run, (a: Action<T>) => a.RunProducer?);
      && f.producer == PushPath(item, pos, k) && |s.popped| <= |f.popped| && f.pow == s.pow
      && |f.pushed| == |s.pushed| + if k < 4 then 0 else 1
  {
    if run == [] {
    } else {
      var before, last := run[..|run| - 1], run[|run| - 1];
      PushFollowsPath(s, before, item, pos);
      RunKeepsInv(s, before);
      PushPathStep(Exec(s, before), last, item, pos, Count(before, (a: Action<T>) => a.RunProducer?), |s.pushed|);
    }
  }

  /** A consumer about to give back its cell has reset the item in it. */
  ghost predicate Cleared<T>(s: State<T>) {
    s.consumer.PopRelease? ==> s.consumer.pos < |s.cells| && s.cells[s.consumer.pos].item == s.blank
  }

  lemma StepClears<T>(s: State<T>, act: Action<T>)
    requires Inv(s) && Cleared(s)
    ensures PosOk(s) && Cleared(Step(s, act)) && Step(s, act).blank == s.blank
  {
    InvPos(s);
    if s.producer.Ahead() && s.consumer.Ahead() { ItemsApart(s); }
    hide Inv, RealPos, Next;
  }

  lemma {:induction false} RunClears<T>(s: State<T>, run: seq<Action<T>>)
    requires Inv(s) && Cleared(s)
    ensures PosOk(s) && Cleared(Exec(s, run)) && Exec(s, run).blank == s.blank
  {
    InvPos(s);
    hide Inv, Step, Cleared;
    if run == [] {
    } else {
      RunClears(s, run[..|run| - 1]);
      RunKeepsInv(s, run[..|run| - 1]);
      StepClears(Exec(s, run[..|run| - 1]), run[|run| - 1]);
    }
  }

  lemma PopPathStep<T>(s: State<T>, act: Action<T>, value: T, pos: nat, k: nat, n: nat)
    requires Inv(s) && !act.CallPop? && s.consumer == PopPath(value, pos, k)
    requires |s.popped| == (if k < 5 then n else n + 1) && n < |s.pushed| && s.pushed[n] == value
    ensures PosOk(s)
    ensures var s', k' := Step(s, act), k + if act.RunConsumer? then 1 else 0;
      && s'.consumer == PopPath(value, pos, k') && s.pushed <= s'.pushed
      && |s'.popped| == if k' < 5 then n else n + 1
  {
    HeadCell(s);
    assert n < |s.pushed| && k < 5 ==> OccupiedOk(s, n);
  }

  lemma {:induction false} PopFollowsPath<T(!new)>(s: State<T>, run: seq<Action<T>>, pos: nat)
    requires Inv(s) && s.consumer == PopCheck(0, pos) && Contents(s) != [] && NoPop(run)
    ensures PosOk(s)
    ensures var f, k := Exec(s, run), Count(run, (a: Action<T>) => a.RunConsumer?);
      && f.consumer == PopPath(Contents(s)[0], pos, k) && s.pushed <= f.pushed
      && |f.popped| == |s.popped| + if k < 5 then 0 else 1
  {
    if run == [] {
    } else {
      var before, last := run[..|run| - 1], run[|run| - 1];
      PopFollowsPath(s, before, pos);
      RunKeepsInv(s, before);
      var own := Count(before, (a: Action<T>) => a.RunConsumer?);
      PopPathStep(Exec(s, before), last, Contents(s)[0], pos, own, |s.popped|);
    }
  }

  ghost predicate OnlyConsumer<T>(run: seq<Action<T>>) { forall a | a in run :: a.CallPop? || a.RunConsumer? }

  ghost predicate OnlyProducer<T>(run: seq<Action<T>>) { forall a | a in run :: a.CallPush? || a.RunProducer? }

  lemma ConsumerStep<T>(s: State<T>, act: Action<T>)
    requires Shaped(s) && PosOk(s) && (act.CallPop? || act.RunConsumer?)
    ensures var s' := Step(s, act);
      s'.producer == s.producer && s'.pushed == s.pushed && s.popped <= s'.popped && s'.pow == s.pow
  {}

  lemma {:induction false} ConsumerMakesRoom<T>(s: State<T>, run: seq<Action<T>>)
    requires Shaped(s) && PosOk(s) && OnlyConsumer(run)
    ensures var f := Exec(s, run);
      f.producer == s.producer && f.pushed == s.pushed && s.popped <= f.popped && f.pow == s.pow
  {
    hide Step;
    if run == [] {
    } else {
      ConsumerMakesRoom(s, run[..|run| - 1]);
      ConsumerStep(Exec(s, run[..|run| - 1]), run[|run| - 1]);
    }
  }

  lemma ProducerStep<T>(s: State<T>, act: Action<T>)
    requires Shaped(s) && PosOk(s) && (act.CallPush? || act.RunProducer?)
    ensures var s' := Step(s, act); s'.consumer == s.consumer && s.pushed <= s'.pushed && s'.popped == s.popped
  {}

  lemma {:induction false} ProducerAddsItems<T>(s: State<T>, run: seq<Action<T>>)
    requires Shaped(s) && PosOk(s) && OnlyProducer(run)
    ensures var f := Exec(s, run); f.consumer == s.consumer && s.pushed <= f.pushed && f.popped == s.popped
  {
    hide Step;
    if run == [] {
    } else {
      ProducerAddsItems(s, run[..|run| - 1]);
      ProducerStep(Exec(s, run[..|run| - 1]), run[|run| - 1]);
    }
  }

  /** Once the producer has seen `full()` false, its next push succeeds in four steps: whatever the
      consumer does before the call and during it, the call never looks twice and never fails. */
  lemma {:induction false} NotFullMeansPushSucceeds<T(!new)>(s: State<T>, idle: seq<Action<T>>, item: T,
                                                             run: seq<Action<T>>)
    requires Inv(s) && PosOk(s) && !s.producer.Running() && !FullSeen(s)
    requires OnlyConsumer(idle) && NoPush(run)
    ensures var ready := Exec(s, idle);
      var f, k := Exec(s, idle + [CallPush(item)] + run), Count(run, (a: Action<T>) => a.RunProducer?);
      && f.producer == PushPath(item, RealPos(ready, ready.end), k)
      && (k >= 4 ==> f.producer == PushReturned(true) && |f.pushed| == |s.pushed| + 1)
  {
    QuestionsAreExact(s);
    ConsumerMakesRoom(s, idle);
    RunKeepsInv(s, idle);
    var ready := Exec(s, idle);
    StepKeepsInv(ready, CallPush(item));
    PushFollowsPath(Step(ready, CallPush(item)), run, item, RealPos(ready, ready.end));
    ExecSplit(s, idle, CallPush(item), run);
  }

  /** Once the consumer has seen `empty()` false, its next pop succeeds in five steps and returns the
      item that was the oldest then, whatever the producer does. */
  lemma {:induction false} NotEmptyMeansPopSucceeds<T(!new)>(s: State<T>, idle: seq<Action<T>>, run: seq<Action<T>>)
    requires Inv(s) && PosOk(s) && !s.consumer.Running() && !EmptySeen(s)
    requires OnlyProducer(idle) && NoPop(run)
    ensures Contents(s) != []
    ensures var ready := Exec(s, idle);
      var f, k := Exec(s, idle + [CallPop] + run), Count(run, (a: Action<T>) => a.RunConsumer?);
      && f.consumer == PopPath(Contents(s)[0], RealPos(ready, ready.begin), k)
      && (k >= 5 ==> f.consumer == PopReturned(Some(Contents(s)[0])))
  {
    QuestionsAreExact(s);
    ProducerAddsItems(s, idle);
    RunKeepsInv(s, idle);
    var ready := Exec(s, idle);
    StepKeepsInv(ready, CallPop);
    PopFollowsPath(Step(ready, CallPop), run, RealPos(ready, ready.begin));
    ExecSplit(s, idle, CallPop, run);
  }

  lemma ExecSnoc<T>(s: State<T>, run: seq<Action<T>>, last: Action<T>)
    requires Shaped(s) && PosOk(s)
    ensures Exec(s, run + [last]) == Step(Exec(s, run), last)
  {
    assert (run + [last])[..|run|] == run;
  }

  /** A run can be cut in two at a call. */
  lemma {:induction false} ExecSplit<T>(s: State<T>, idle: seq<Action<T>>, call: Action<T>, run: seq<Action<T>>)
    requires Shaped(s) && PosOk(s)
    ensures Shaped(Step(Exec(s, idle), call)) && PosOk(Step(Exec(s, idle), call))
    ensures Exec(s, idle + [call] + run) == Exec(Step(Exec(s, idle), call), run)
    decreases |run|
  {
    hide Step, Shaped, PosOk, Exec;
    StepShape(Exec(s, idle), call);
    ExecSnoc(s, idle, call);
    if run == [] {
      ExecNone(Step(Exec(s, idle), call));
      assert idle + [call] + run == idle + [call];
    } else {
      var init, last := run[..|run| - 1], run[|run| - 1];
      ExecSplit(s, idle, call, init);
      ExecSnoc(s, idle + [call] + init, last);
      ExecSnoc(Step(Exec(s, idle), call), init, last);
      assert idle + [call] + init + [last] == idle + [call] + run && init + [last] == run;
    }
  }

  lemma ExecNone<T>(s: State<T>)
    requires Shaped(s) && PosOk(s)
    ensures Exec(s, []) == s
  {}

  // ---------------------------------------------------------------- how often a call looks

  /** How often a push looks in a run and finds the queue full. */
  ghost function FullLooks<T>(s: State<T>, run: seq<Action<T>>): nat
    requires Shaped(s) && PosOk(s)
  {
    if run == [] then 0
    else
      var before, last := Exec(s, run[..|run| - 1]), run[|run| - 1];
      FullLooks(s, run[..|run| - 1]) + if last.RunProducer? && SeesFull(before) then 1 else 0
  }

  ghost predicate SeesFull<T>(s: State<T>) {
    s.producer.PushCheck? && s.producer.i + 1 != PUSH_TRIES && |s.pushed| == |s.popped| + s.Cap()
  }

  /** How often a pop looks in a run and finds the queue empty. */
  ghost function EmptyLooks<T>(s: State<T>, run: seq<Action<T>>): nat
    requires Shaped(s) && PosOk(s)
  {
    if run == [] then 0
    else
      var before, last := Exec(s, run[..|run| - 1]), run[|run| - 1];
      EmptyLooks(s, run[..|run| - 1]) + if last.RunConsumer? && SeesEmpty(before) then 1 else 0
  }

  ghost predicate SeesEmpty<T>(s: State<T>) {
    s.consumer.PopCheck? && s.consumer.i != POP_TRIES && |s.pushed| == |s.popped|
  }

  /** Where a push can be after m looks at a full queue. */
  predicate PushLooked<T>(p: Producer<T>, m: nat) {
    && !p.NotPushing? && m <= 2 && (p.PushCheck? ==> p.i == m)
    && (p.Committed() ==> m < 2) && (p.PushReturned? ==> (p.ok <==> m < 2))
  }

  /** Where a pop can be after m looks at an empty queue. */
  predicate PopLooked<T>(c: Consumer<T>, m: nat) {
    && !c.NotPopping? && m <= 3 && (c.PopCheck? ==> c.i == m)
    && (c.Committed() ==> m < 3) && (c.PopReturned? ==> (c.got.Some? <==> m < 3))
  }

  lemma PushLookStep<T>(s: State<T>, act: Action<T>, m: nat)
    requires Inv(s) && !act.CallPush? && PushLooked(s.producer, m)
    ensures PosOk(s)
    ensures PushLooked(Step(s, act).producer, m + if act.RunProducer? && SeesFull(s) then 1 else 0)
  {
    InvPos(s);
    InvBounds(s);
    ChecksAreExact(s);
    hide Inv, Shaped, PosOk, RealPos, Next;
  }

  lemma PopLookStep<T>(s: State<T>, act: Action<T>, m: nat)
    requires Inv(s) && !act.CallPop? && PopLooked(s.consumer, m)
    ensures PosOk(s)
    ensures PopLooked(Step(s, act).consumer, m + if act.RunConsumer? && SeesEmpty(s) then 1 else 0)
  {
    InvPos(s);
    InvBounds(s);
    ChecksAreExact(s);
    hide Inv, Shaped, PosOk, RealPos, Next;
  }

  lemma {:induction false} PushLooks<T>(s: State<T>, run: seq<Action<T>>)
    requires Inv(s) && NoPush(run) && PushLooked(s.producer, 0)
    ensures PosOk(s) && PushLooked(Exec(s, run).producer, FullLooks(s, run))
  {
    InvPos(s);
    hide Inv, Step, PushLooked, SeesFull;
    if run == [] {
    } else {
      var before, last := run[..|run| - 1], run[|run| - 1];
      PushLooks(s, before);
      RunKeepsInv(s, before);
      PushLookStep(Exec(s, before), last, FullLooks(s, before));
    }
  }

  lemma {:induction false} PopLooks<T>(s: State<T>, run: seq<Action<T>>)
    requires Inv(s) && NoPop(run) && PopLooked(s.consumer, 0)
    ensures PosOk(s) && PopLooked(Exec(s, run).consumer, EmptyLooks(s, run))
  {
    InvPos(s);
    hide Inv, Step, PopLooked, SeesEmpty;
    if run == [] {
    } else {
      var before, last := run[..|run| - 1], run[|run| - 1];
      PopLooks(s, before);
      RunKeepsInv(s, before);
      PopLookStep(Exec(s, before), last, EmptyLooks(s, before));
    }
  }

  /** A push looks at the queue at most twice, although it compares with 3, and fails exactly if it was full both
      times, whatever the consumer does meanwhile. */
  lemma {:induction false} PushFailsIffFullTwice<T>(s: State<T>, item: T, run: seq<Action<T>>)
    requires Inv(s) && PosOk(s) && !s.producer.Running() && NoPush(run)
    ensures var begun := Step(s, CallPush(item));
      && Shaped(begun) && PosOk(begun)
      && var p, m := Exec(begun, run).producer, FullLooks(begun, run);
         m <= 2 && (p.PushReturned? ==> (p.ok <==> m < 2))
  {
    var begun := Step(s, CallPush(item));
    StepKeepsInv(s, CallPush(item));
    InvPos(begun);
    assert PushLooked(begun.producer, 0);
    hide Step, Exec, FullLooks;
    PushLooks(begun, run);
  }

  /** A pop looks at most three times, and fails exactly if the queue was empty all three times. */
  lemma {:induction false} PopFailsIffEmptyThrice<T>(s: State<T>, run: seq<Action<T>>)
    requires Inv(s) && PosOk(s) && !s.consumer.Running() && NoPop(run)
    ensures var begun := Step(s, CallPop);
      && Shaped(begun) && PosOk(begun)
      && var c, m := Exec(begun, run).consumer, EmptyLooks(begun, run);
         m <= 3 && (c.PopReturned? ==> (c.got.Some? <==> m < 3))
  {
    var begun := Step(s, CallPop);
    StepKeepsInv(s, CallPop);
    InvPos(begun);
    assert PopLooked(begun.consumer, 0);
    hide Step, Exec, EmptyLooks;
    PopLooks(begun, run);
  }
}
