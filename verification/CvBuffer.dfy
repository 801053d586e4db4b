/** The bounded buffer with a mutex and two condition variables, shared by one producer and one consumer. */
module CvBuffer {
  import opened BoundedQueue

  /** Where a thread is in one iteration: the same places in both loops. Waiting is inside pthread_cond_wait before a wake-up,
      Waking after it, when the mutex is still to be taken back. */
  datatype Place = Start | Check | Waiting | Waking | Access | Move | Resize | Signal | Unlock

  datatype Thread = Thread(place: Place, i: nat)

  /** `taken` is what the consumer has read so far. */
  datatype State = State(
    items: seq<int>, inPos: nat, outPos: nat, size: int, locked: bool,
    producer: Thread, consumer: Thread, taken: seq<int>)

  datatype Action = Produce | Consume | WakeProducer | WakeConsumer

  /** Capacity of the buffer, iterations of both loops. */
  datatype Config = Config(capacity: nat, iterations: nat)

  ghost predicate Init(cfg: Config, s: State) {
    && |s.items| == cfg.capacity > 0
    && s == State(s.items, 0, 0, 0, false, Thread(Start, 0), Thread(Start, 0), [])
  }

  predicate Finished(cfg: Config, t: Thread) {
    t.place.Start? && t.i == cfg.iterations
  }

  predicate Over(cfg: Config, s: State) {
    Finished(cfg, s.producer) && Finished(cfg, s.consumer)
  }

  predicate Steps(cfg: Config, locked: bool, t: Thread) {
    if t.place.Start? then !locked && t.i < cfg.iterations
    else if t.place.Waking? then !locked
    else !t.place.Waiting?
  }

  predicate Enabled(cfg: Config, s: State, a: Action) {
    match a
    case Produce => Steps(cfg, s.locked, s.producer)
    case Consume => Steps(cfg, s.locked, s.consumer)
    case WakeProducer => s.producer.place.Waiting?
    case WakeConsumer => s.consumer.place.Waiting?
  }

  function Woken(t: Thread): Thread {
    if t.place.Waiting? then t.(place := Waking) else t
  }

  predicate InBounds(s: State) {
    0 < |s.items| && s.inPos < |s.items| && s.outPos < |s.items|
  }

  /** The places between taking the mutex and giving it back. */
  predicate Holding(t: Thread) {
    !(t.place.Start? || t.place.Waiting? || t.place.Waking?)
  }

  /** The next place of a thread; `blocked` is the condition of its waiting loop. */
  function Advance(t: Thread, blocked: bool): Thread {
    match t.place
    case Start => t.(place := Check)
    case Waking => t.(place := Check)
    case Check => t.(place := if blocked then Waiting else Access)
    case Access => t.(place := Move)
    case Move => t.(place := Resize)
    case Resize => t.(place := Signal)
    case Signal => t.(place := Unlock)
    case Unlock => Thread(Start, t.i + 1)
    case Waiting => t
  }

  function Step(cfg: Config, s: State, a: Action): State
    requires Enabled(cfg, s, a) && InBounds(s)
  {
    var p, c := s.producer, s.consumer;
    match a
    case WakeProducer => s.(producer := Woken(p))
    case WakeConsumer => s.(consumer := Woken(c))
    case Produce =>
      var next := Advance(p, s.size >= |s.items|);
      s.(items := if p.place.Access? then s.items[s.inPos := p.i] else s.items,
         inPos := if p.place.Move? then Cell(s.inPos + 1, |s.items|) else s.inPos,
         size := if p.place.Resize? then s.size + 1 else s.size,
         locked := Holding(next),
         producer := next,
         consumer := if p.place.Signal? then Woken(c) else c)
    case Consume =>
      var next := Advance(c, s.size == 0);
      s.(taken := if c.place.Access? then s.taken + [s.items[s.outPos]] else s.taken,
         outPos := if c.place.Move? then Cell(s.outPos + 1, |s.items|) else s.outPos,
         size := if c.place.Resize? then s.size - 1 else s.size,
         locked := Holding(next),
         consumer := next,
         producer := if c.place.Signal? then Woken(p) else p)
  }

  ghost predicate Next(cfg: Config, s: State, t: State) {
    InBounds(s) && exists a :: Enabled(cfg, s, a) && t == Step(cfg, s, a)
  }

  /** States, each reached from the one before by a step. */
  ghost predicate IsPath(cfg: Config, path: seq<State>) {
    path != [] && forall i :: 0 <= i < |path| - 1 ==> Next(cfg, path[i], path[i + 1])
  }

  /** A path from the initial state. */
  ghost predicate IsRun(cfg: Config, run: seq<State>) {
    IsPath(cfg, run) && Init(cfg, run[0])
  }

  /** The states of all runs. */
  ghost predicate Reachable(cfg: Config, s: State) {
    exists run :: IsRun(cfg, run) && run[|run| - 1] == s
  }

  // ----- what every step keeps

  /** How many items a thread has dealt with in the cells, by its position, and in the size. */
  function Accessed(t: Thread): nat {
    t.i + if t.place.Move? || t.place.Resize? || t.place.Signal? || t.place.Unlock? then 1 else 0
  }

  function Moved(t: Thread): nat {
    t.i + if t.place.Resize? || t.place.Signal? || t.place.Unlock? then 1 else 0
  }

  function Counted(t: Thread): nat {
    t.i + if t.place.Signal? || t.place.Unlock? then 1 else 0
  }

  predicate Changing(t: Thread) {
    t.place.Access? || t.place.Move? || t.place.Resize?
  }

  /** Who holds the mutex, how full the buffer is, and that nobody waits in vain: a thread waiting for a wake-up waits for
      something that is not so, unless the other is about to signal. */
  ghost predicate Control(cfg: Config, s: State) {
    var p, c := s.producer, s.consumer;
    && |s.items| == cfg.capacity > 0
    && !(Holding(p) && Holding(c)) && s.locked == (Holding(p) || Holding(c))
    && p.i <= cfg.iterations && c.i <= cfg.iterations
    && (p.i == cfg.iterations ==> p.place.Start?) && (c.i == cfg.iterations ==> c.place.Start?)
    && s.size == Counted(p) - Counted(c) && 0 <= s.size <= cfg.capacity
    && (Changing(p) ==> s.size < cfg.capacity) && (Changing(c) ==> s.size > 0)
    && (p.place.Waiting? ==> s.size == cfg.capacity || c.place.Signal?)
    && (c.place.Waiting? ==> s.size == 0 || p.place.Signal?)
  }

  ghost predicate InPlace(s: State) {
    && 0 < |s.items|
    && s.inPos == Cell(Moved(s.producer), |s.items|) && s.outPos == Cell(Moved(s.consumer), |s.items|)
  }

  ghost predicate InRing(s: State) {
    && Holds(s.items, Accessed(s.consumer), Accessed(s.producer))
    && s.taken == Interval(0, Accessed(s.consumer))
  }

  ghost predicate Inv(cfg: Config, s: State) {
    Control(cfg, s) && InPlace(s) && InRing(s)
  }

  ghost function AsQueue(s: State): Queue
    requires 0 < |s.items| && Accessed(s.consumer) <= Accessed(s.producer)
  {
    Abstract(s.items, Accessed(s.consumer), Accessed(s.producer), s.taken)
  }

  /** A step of the program is a step of the bounded queue, or none. */
  ghost predicate Refines(cfg: Config, s: State, t: State)
    requires InRing(s) && InRing(t)
  {
    AsQueue(t) == AsQueue(s) || Put(cfg.capacity, AsQueue(s), AsQueue(t)) || Take(AsQueue(s), AsQueue(t))
  }

  lemma ControlKept(cfg: Config, s: State, a: Action)
    requires Control(cfg, s) && Enabled(cfg, s, a) && InBounds(s)
    ensures Control(cfg, Step(cfg, s, a))
  {
  }

  lemma PositionsKept(cfg: Config, s: State, a: Action)
    requires InPlace(s) && InBounds(s) && Enabled(cfg, s, a)
    ensures InPlace(Step(cfg, s, a))
  {
    var t := Step(cfg, s, a);
    assert |t.items| == |s.items|;
    assert t.inPos == Cell(Moved(t.producer), |s.items|) by {
      if a.Produce? && s.producer.place.Move? { NextCell(s.producer.i, |s.items|); }
    }
    assert t.outPos == Cell(Moved(t.consumer), |s.items|) by {
      if a.Consume? && s.consumer.place.Move? { NextCell(s.consumer.i, |s.items|); }
    }
  }

  predicate Accesses(s: State, a: Action) {
    (a.Produce? && s.producer.place.Access?) || (a.Consume? && s.consumer.place.Access?)
  }

  lemma RingLeftAlone(cfg: Config, s: State, a: Action)
    requires InRing(s) && InBounds(s) && Enabled(cfg, s, a) && !Accesses(s, a)
    ensures InRing(Step(cfg, s, a)) && Refines(cfg, s, Step(cfg, s, a))
  {
  }

  lemma RingWritten(cfg: Config, s: State)
    requires Inv(cfg, s) && InBounds(s) && s.producer.place.Access?
    ensures InRing(Step(cfg, s, Produce)) && Refines(cfg, s, Step(cfg, s, Produce))
  {
    var lo, hi, t := Accessed(s.consumer), Accessed(s.producer), Step(cfg, s, Produce);
    assert t.items == s.items[Cell(hi, |s.items|) := hi] && t.taken == s.taken;
    assert Accessed(t.consumer) == lo && Accessed(t.producer) == hi + 1;
    PutInRing(s.items, lo, hi, s.taken);
  }

  lemma RingRead(cfg: Config, s: State)
    requires Inv(cfg, s) && InBounds(s) && s.consumer.place.Access?
    ensures InRing(Step(cfg, s, Consume)) && Refines(cfg, s, Step(cfg, s, Consume))
  {
    var lo, hi, t := Accessed(s.consumer), Accessed(s.producer), Step(cfg, s, Consume);
    TakeFromRing(s.items, lo, hi, s.taken);
    assert t.items == s.items && t.taken == s.taken + [lo];
    assert Accessed(t.consumer) == lo + 1 && Accessed(t.producer) == hi;
  }

  lemma StepRefines(cfg: Config, s: State, a: Action)
    requires Inv(cfg, s) && Enabled(cfg, s, a)
    ensures InBounds(s) && Inv(cfg, Step(cfg, s, a)) && Refines(cfg, s, Step(cfg, s, a))
  {
    ControlKept(cfg, s, a);
    PositionsKept(cfg, s, a);
    if !Accesses(s, a) {
      RingLeftAlone(cfg, s, a);
    } else if a.Produce? {
      RingWritten(cfg, s);
    } else {
      RingRead(cfg, s);
    }
  }

  lemma {:induction false} RunInv(cfg: Config, run: seq<State>)
    requires IsRun(cfg, run)
    ensures Inv(cfg, run[|run| - 1])
  {
    if |run| > 1 {
      var r, s := run[|run| - 2], run[|run| - 1];
      RunInv(cfg, run[..|run| - 1]);
      assert Next(cfg, r, s);
      var a :| Enabled(cfg, r, a) && s == Step(cfg, r, a);
      StepRefines(cfg, r, a);
    }
  }

  lemma ReachableInv(cfg: Config, s: State)
    requires Reachable(cfg, s)
    ensures Inv(cfg, s)
  {
    var run :| IsRun(cfg, run) && run[|run| - 1] == s;
    RunInv(cfg, run);
  }

  lemma InControl(cfg: Config, s: State)
    requires Reachable(cfg, s)
    ensures Control(cfg, s)
  {
    ReachableInv(cfg, s);
  }

  lemma PrefixReachable(cfg: Config, run: seq<State>, i: nat)
    requires IsRun(cfg, run) && i < |run|
    ensures Reachable(cfg, run[i])
  {
    assert IsRun(cfg, run[..i + 1]);
  }

  lemma Extended(cfg: Config, run: seq<State>, a: Action)
    requires IsRun(cfg, run) && InBounds(run[|run| - 1]) && Enabled(cfg, run[|run| - 1], a)
    ensures IsRun(cfg, run + [Step(cfg, run[|run| - 1], a)])
  {
    assert Next(cfg, run[|run| - 1], Step(cfg, run[|run| - 1], a));
  }

  lemma Continued(cfg: Config, s: State, a: Action)
    requires Reachable(cfg, s) && InBounds(s) && Enabled(cfg, s, a)
    ensures Reachable(cfg, Step(cfg, s, a))
  {
    var run :| IsRun(cfg, run) && run[|run| - 1] == s;
    Extended(cfg, run, a);
  }

  // ----- the guarantees

  ghost predicate AllInRing(run: seq<State>) {
    forall i :: 0 <= i < |run| ==> InRing(run[i])
  }

  /** The queues that the states of a run stand for. */
  ghost function Queues(run: seq<State>): (queues: seq<Queue>)
    requires AllInRing(run)
    ensures |queues| == |run| && forall i :: 0 <= i < |run| ==> queues[i] == AsQueue(run[i])
  {
    seq(|run|, i requires 0 <= i < |run| => AsQueue(run[i]))
  }

  /** Every run is a run of the bounded queue: it starts with the empty queue, and each step adds one item at
      the back, takes one from the front, or leaves the queue as it is. So nothing is lost, repeated or reordered. */
  lemma RunsAreQueueRuns(cfg: Config, run: seq<State>)
    requires IsRun(cfg, run)
    ensures AllInRing(run) && IsQueueRun(cfg.capacity, Queues(run))
    ensures Ordered(cfg.capacity, AsQueue(run[|run| - 1]))
  {
    forall i | 0 <= i < |run| ensures InRing(run[i]) {
      PrefixReachable(cfg, run, i);
      ReachableInv(cfg, run[i]);
    }
    var queues := Queues(run);
    forall i | 0 <= i < |run| - 1
      ensures queues[i + 1] == queues[i] || Put(cfg.capacity, queues[i], queues[i + 1]) || Take(queues[i], queues[i + 1])
    {
      PrefixReachable(cfg, run, i);
      NextRefines(cfg, run[i], run[i + 1]);
    }
    QueueRunsKeepOrder(cfg.capacity, queues);
  }

  lemma NextRefines(cfg: Config, s: State, t: State)
    requires Reachable(cfg, s) && Next(cfg, s, t)
    ensures InRing(s) && InRing(t) && Refines(cfg, s, t)
  {
    ReachableInv(cfg, s);
    var a :| Enabled(cfg, s, a) && t == Step(cfg, s, a);
    StepRefines(cfg, s, a);
  }

  lemma InRingOrdered(s: State)
    requires InRing(s)
    ensures Ordered(|s.items|, AsQueue(s))
  {
    var lo, hi := Accessed(s.consumer), Accessed(s.producer);
    assert AsQueue(s).waiting == Interval(lo, hi);
    assert Interval(0, lo) + Interval(lo, hi) == Interval(0, hi);
  }

  /** A thread that waits unsignalled while the mutex is free has reason to. */
  lemma NoLostWakeUp(cfg: Config, s: State)
    requires Reachable(cfg, s) && !s.locked
    ensures s.producer.place.Waiting? ==> s.size == cfg.capacity
    ensures s.consumer.place.Waiting? ==> s.size == 0
  {
    ReachableInv(cfg, s);
  }

  /** With the mutex free, `in` is `size` cells ahead of `out`. */
  lemma PositionsAddUp(cfg: Config, s: State)
    requires Reachable(cfg, s) && !s.locked
    ensures s.size >= 0 && cfg.capacity > 0 && s.inPos == (s.outPos + s.size) % cfg.capacity
  {
    ReachableInv(cfg, s);
    LaterCell(s.consumer.i, s.size, cfg.capacity);
    CellIsRemainder(s.outPos + s.size, cfg.capacity);
  }

  /** Until both loops are over, one of the threads can go on by itself. */
  lemma NoDeadlock(cfg: Config, s: State)
    requires Reachable(cfg, s) && !Over(cfg, s)
    ensures Enabled(cfg, s, Produce) || Enabled(cfg, s, Consume)
  {
    ReachableInv(cfg, s);
  }

  /** When both loops are over, every item was consumed, in order, and the buffer is empty. */
  lemma AllConsumed(cfg: Config, s: State)
    requires Reachable(cfg, s) && Over(cfg, s)
    ensures s.size == 0 && s.taken == Interval(0, cfg.iterations)
  {
    ReachableInv(cfg, s);
  }

  /** A bound on the steps a thread takes of its own accord. A signal costs its sender what it gives the other thread to do:
      taking the mutex back and testing again. */
  function StepsLeft(cfg: Config, t: Thread): int {
    10 * (cfg.iterations - t.i)
    + match t.place
      case Start => 10 case Waking => 10 case Check => 9 case Waiting => 8 case Access => 7
      case Move => 6 case Resize => 5 case Signal => 4 case Unlock => 1
  }

  function AllLeft(cfg: Config, s: State): int { StepsLeft(cfg, s.producer) + StepsLeft(cfg, s.consumer) }

  lemma AdvanceUses(cfg: Config, t: Thread, blocked: bool)
    requires !t.place.Waiting?
    ensures StepsLeft(cfg, Advance(t, blocked)) <= StepsLeft(cfg, t) - if t.place.Signal? then 3 else 1
  {
  }

  lemma StepUses(cfg: Config, s: State, a: Action)
    requires InBounds(s) && Enabled(cfg, s, a)
    ensures if a.Produce? || a.Consume? then AllLeft(cfg, Step(cfg, s, a)) < AllLeft(cfg, s)
            else AllLeft(cfg, Step(cfg, s, a)) == AllLeft(cfg, s) + 2
  {
    match a
    case Produce => AdvanceUses(cfg, s.producer, s.size >= |s.items|);
    case Consume => AdvanceUses(cfg, s.consumer, s.size == 0);
    case _ =>
  }

  lemma LeftBounded(cfg: Config, s: State)
    requires Control(cfg, s)
    ensures 0 <= AllLeft(cfg, s)
  {
  }

  /** Every step of a thread uses up some of the bound, and a spurious wake-up adds 2 to it. */
  lemma RunsEnd(cfg: Config, s: State, a: Action)
    requires Reachable(cfg, s) && InBounds(s) && Enabled(cfg, s, a)
    ensures 0 <= AllLeft(cfg, s)
    ensures if a.Produce? || a.Consume? then AllLeft(cfg, Step(cfg, s, a)) < AllLeft(cfg, s)
            else AllLeft(cfg, Step(cfg, s, a)) == AllLeft(cfg, s) + 2
  {
    ReachableInv(cfg, s);
    LeftBounded(cfg, s);
    StepUses(cfg, s, a);
  }

  predicate Spurious(s: State, t: State) {
    || (s.producer.place.Waiting? && t == s.(producer := Woken(s.producer)))
    || (s.consumer.place.Waiting? && t == s.(consumer := Woken(s.consumer)))
  }

  /** How many spurious wake-ups there are in a run. */
  function WakeUps(run: seq<State>): nat {
    if |run| < 2 then 0
    else WakeUps(run[..|run| - 1]) + if Spurious(run[|run| - 2], run[|run| - 1]) then 1 else 0
  }

  lemma NextUses(cfg: Config, s: State, t: State)
    requires Reachable(cfg, s) && Next(cfg, s, t)
    ensures AllLeft(cfg, t) < AllLeft(cfg, s) + if Spurious(s, t) then 3 else 0
  {
    var a :| Enabled(cfg, s, a) && t == Step(cfg, s, a);
    RunsEnd(cfg, s, a);
  }

  lemma {:induction false} RunUses(cfg: Config, run: seq<State>)
    requires IsRun(cfg, run)
    ensures AllLeft(cfg, run[|run| - 1]) + |run| - 1 <= 20 * cfg.iterations + 20 + 3 * WakeUps(run)
  {
    if |run| > 1 {
      var k := |run| - 2;
      RunUses(cfg, run[..k + 1]);
      PrefixReachable(cfg, run, k);
      assert Next(cfg, run[k], run[k + 1]);
      NextUses(cfg, run[k], run[k + 1]);
    }
  }

  /** So a run is no longer than its spurious wake-ups allow ... */
  lemma RunsAreFinite(cfg: Config, run: seq<State>)
    requires IsRun(cfg, run)
    ensures |run| <= 20 * cfg.iterations + 21 + 3 * WakeUps(run)
  {
    var s := run[|run| - 1];
    RunUses(cfg, run);
    ReachableInv(cfg, s);
    LeftBounded(cfg, s);
  }

  /** A step that is not a spurious wake-up. */
  ghost predicate OwnStep(cfg: Config, s: State, t: State) {
    Next(cfg, s, t) && !Spurious(s, t)
  }

  /** ... and from every reachable state, without a spurious wake-up, both loops can be brought to their end. */
  lemma RunsFinish(cfg: Config, s: State) returns (path: seq<State>)
    requires Reachable(cfg, s)
    ensures IsPath(cfg, path) && path[0] == s && Over(cfg, path[|path| - 1])
    ensures forall i :: 0 <= i < |path| - 1 ==> OwnStep(cfg, path[i], path[i + 1])
    decreases AllLeft(cfg, s)
  {
    LeftInRuns(cfg, s);
    if Over(cfg, s) {
      path := [s];
    } else {
      var t := OneMore(cfg, s);
      path := RunsFinish(cfg, t);
      path := [s] + path;
    }
  }

  lemma OneMore(cfg: Config, s: State) returns (t: State)
    requires Reachable(cfg, s) && !Over(cfg, s)
    ensures Reachable(cfg, t) && OwnStep(cfg, s, t) && AllLeft(cfg, t) < AllLeft(cfg, s)
  {
    NoDeadlock(cfg, s);
    var a := if Enabled(cfg, s, Produce) then Produce else Consume;
    ReachableInv(cfg, s);
    Continued(cfg, s, a);
    t := Step(cfg, s, a);
    RunsEnd(cfg, s, a);
    SpuriousAdds(cfg, s, t);
  }

  lemma LeftInRuns(cfg: Config, s: State)
    requires Reachable(cfg, s)
    ensures 0 <= AllLeft(cfg, s)
  {
    ReachableInv(cfg, s);
    LeftBounded(cfg, s);
  }

  lemma SpuriousAdds(cfg: Config, s: State, t: State)
    ensures Spurious(s, t) ==> AllLeft(cfg, t) == AllLeft(cfg, s) + 2
  {
  }

  // ----- the program, in place

  class Program {
    const cfg: Config
    const items: array<int>
    var inPos: nat
    var outPos: nat
    var size: int
    var locked: bool
    var producer: Thread
    var consumer: Thread
    var taken: seq<int>

    constructor (cfg: Config)
      requires cfg.capacity > 0
      ensures this.cfg == cfg && fresh(items)
      ensures Valid() && Init(cfg, Now())
    {
      this.cfg := cfg;
      items := new int[cfg.capacity](_ => 0);
      inPos, outPos, size, locked := 0, 0, 0, false;
      producer, consumer, taken := Thread(Start, 0), Thread(Start, 0), [];
      new;
      assert IsRun(cfg, [Now()]);
    }

    ghost function Now(): State
      reads this, items
    {
      State(items[..], inPos, outPos, size, locked, producer, consumer, taken)
    }

    ghost predicate Valid()
      reads this, items
    {
      InBounds(Now()) && Reachable(cfg, Now())
    }

    /** The buffer is a bounded queue that has kept the order, and in the end all items have gone through it. */
    ghost predicate Safe()
      reads this, items
      requires Valid()
    {
      && InRing(Now()) && Ordered(cfg.capacity, AsQueue(Now()))
      && (Over(cfg, Now()) ==> taken == Interval(0, cfg.iterations))
    }

    lemma IsSafe()
      requires Valid()
      ensures Safe()
    {
      ReachableInv(cfg, Now());
      InRingOrdered(Now());
      if Over(cfg, Now()) { AllConsumed(cfg, Now()); }
    }

    lemma Stepped(s: State, a: Action)
      requires Reachable(cfg, s) && InBounds(s) && Enabled(cfg, s, a) && Now() == Step(cfg, s, a)
      ensures Valid() && Safe() && InRing(s) && Refines(cfg, s, Now())
    {
      ReachableInv(cfg, s);
      StepRefines(cfg, s, a);
      Continued(cfg, s, a);
      IsSafe();
    }

    /** The next atomic step of the producer's loop. */
    method ProducerStep()
      requires Valid() && Enabled(cfg, Now(), Produce)
      modifies this, items
      ensures Valid() && Safe()
      ensures Now() == Step(cfg, old(Now()), Produce)
      ensures InRing(old(Now())) && Refines(cfg, old(Now()), Now())
    {
      ghost var s := Now();
      InControl(cfg, s);
      match producer.place {
        case Start => locked, producer := true, producer.(place := Check);
        case Waking => locked, producer := true, producer.(place := Check);
        case Check =>
          if size >= items.Length {
            locked, producer := false, producer.(place := Waiting);
          } else {
            producer := producer.(place := Access);
          }
        case Access =>
          items[inPos] := producer.i;
          producer := producer.(place := Move);
        case Move =>
          inPos := Cell(inPos + 1, items.Length);
          producer := producer.(place := Resize);
        case Resize =>
          size := size + 1;
          producer := producer.(place := Signal);
        case Signal =>
          if consumer.place.Waiting? { consumer := consumer.(place := Waking); }
          producer := producer.(place := Unlock);
        case Unlock => locked, producer := false, Thread(Start, producer.i + 1);
      }
      assert Now() == Step(cfg, s, Produce);
      Stepped(s, Produce);
    }

    /** The next atomic step of the consumer's loop. */
    method ConsumerStep()
      requires Valid() && Enabled(cfg, Now(), Consume)
      modifies this
      ensures Valid() && Safe()
      ensures Now() == Step(cfg, old(Now()), Consume)
      ensures InRing(old(Now())) && Refines(cfg, old(Now()), Now())
    {
      ghost var s := Now();
      InControl(cfg, s);
      match consumer.place {
        case Start => locked, consumer := true, consumer.(place := Check);
        case Waking => locked, consumer := true, consumer.(place := Check);
        case Check =>
          if size == 0 {
            locked, consumer := false, consumer.(place := Waiting);
          } else {
            consumer := consumer.(place := Access);
          }
        case Access =>
          var item := items[outPos];
          taken := taken + [item];
          consumer := consumer.(place := Move);
        case Move =>
          outPos := Cell(outPos + 1, items.Length);
          consumer := consumer.(place := Resize);
        case Resize =>
          size := size - 1;
          consumer := consumer.(place := Signal);
        case Signal =>
          if producer.place.Waiting? { producer := producer.(place := Waking); }
          consumer := consumer.(place := Unlock);
        case Unlock => locked, consumer := false, Thread(Start, consumer.i + 1);
      }
      assert Now() == Step(cfg, s, Consume);
      Stepped(s, Consume);
    }
  }
}
