/** The bounded buffer with three semaphores, shared by one producer and one consumer: two threads, or two processes. */
module SemBuffer {
  import opened BoundedQueue

  /** Where a thread is in one iteration. The token is a unit of `empty` for the producer, of `nonempty` for the consumer. */
  datatype Place = WaitToken | WaitMutex | Access | Move | PostMutex | PostToken

  datatype Thread = Thread(place: Place, i: nat)

  /** `taken` is what the consumer has read so far, `corrupted` whether it ever complained. */
  datatype State = State(
    items: seq<int>, inPos: nat, outPos: nat, empty: int, nonempty: int, mutex: int,
    producer: Thread, consumer: Thread, taken: seq<int>, corrupted: bool)

  datatype Who = Producer | Consumer

  datatype Config = Config(capacity: nat, iterations: nat)

  ghost predicate Init(cfg: Config, s: State) {
    && |s.items| == cfg.capacity > 0
    && s == State(s.items, 0, 0, cfg.capacity, 0, 1, Thread(WaitToken, 0), Thread(WaitToken, 0), [], false)
  }

  predicate Finished(cfg: Config, t: Thread) {
    t.place.WaitToken? && t.i == cfg.iterations
  }

  predicate Over(cfg: Config, s: State) {
    Finished(cfg, s.producer) && Finished(cfg, s.consumer)
  }

  predicate Steps(cfg: Config, mutex: int, tokens: int, t: Thread) {
    match t.place
    case WaitToken => tokens > 0 && t.i < cfg.iterations
    case WaitMutex => mutex > 0
    case _ => true
  }

  predicate Enabled(cfg: Config, s: State, who: Who) {
    match who
    case Producer => Steps(cfg, s.mutex, s.empty, s.producer)
    case Consumer => Steps(cfg, s.mutex, s.nonempty, s.consumer)
  }

  predicate InBounds(s: State) {
    0 < |s.items| && s.inPos < |s.items| && s.outPos < |s.items|
  }

  function Advance(t: Thread): Thread {
    match t.place
    case WaitToken => t.(place := WaitMutex)
    case WaitMutex => t.(place := Access)
    case Access => t.(place := Move)
    case Move => t.(place := PostMutex)
    case PostMutex => t.(place := PostToken)
    case PostToken => Thread(WaitToken, t.i + 1)
  }

  function MutexAfter(t: Thread, mutex: int): int {
    if t.place.WaitMutex? then mutex - 1 else if t.place.PostMutex? then mutex + 1 else mutex
  }

  function Step(cfg: Config, s: State, who: Who): State
    requires Enabled(cfg, s, who) && InBounds(s)
  {
    var p, c := s.producer, s.consumer;
    match who
    case Producer =>
      s.(items := if p.place.Access? then s.items[s.inPos := p.i] else s.items,
         inPos := if p.place.Move? then Cell(s.inPos + 1, |s.items|) else s.inPos,
         empty := if p.place.WaitToken? then s.empty - 1 else s.empty,
         nonempty := if p.place.PostToken? then s.nonempty + 1 else s.nonempty,
         mutex := MutexAfter(p, s.mutex),
         producer := Advance(p))
    case Consumer =>
      s.(taken := if c.place.Access? then s.taken + [s.items[s.outPos]] else s.taken,
         corrupted := s.corrupted || (c.place.Access? && s.items[s.outPos] != c.i),
         outPos := if c.place.Move? then Cell(s.outPos + 1, |s.items|) else s.outPos,
         nonempty := if c.place.WaitToken? then s.nonempty - 1 else s.nonempty,
         empty := if c.place.PostToken? then s.empty + 1 else s.empty,
         mutex := MutexAfter(c, s.mutex),
         consumer := Advance(c))
  }

  ghost predicate Next(cfg: Config, s: State, t: State) {
    InBounds(s) && exists who :: Enabled(cfg, s, who) && t == Step(cfg, s, who)
  }

  /** States, each reached from the one before by a step. */
  ghost predicate IsPath(cfg: Config, path: seq<State>) {
    path != [] && forall i :: 0 <= i < |path| - 1 ==> Next(cfg, path[i], path[i + 1])
  }

  /** A path from the initial state. */
  ghost predicate IsRun(cfg: Config, run: seq<State>) {
    IsPath(cfg, run) && Init(cfg, run[0])
  }

  /** The states of all runs. */
  ghost predicate Reachable(cfg: Config, s: State) {
    exists run :: IsRun(cfg, run) && run[|run| - 1] == s
  }

  // ----- what every step keeps

  predicate Holding(t: Thread) {
    t.place.Access? || t.place.Move? || t.place.PostMutex?
  }

  /** How many items a thread has taken a token for, dealt with in the cells, and by its position. */
  function Claimed(t: Thread): nat {
    t.i + if t.place.WaitToken? then 0 else 1
  }

  function Accessed(t: Thread): nat {
    t.i + if t.place.Move? || t.place.PostMutex? || t.place.PostToken? then 1 else 0
  }

  function Moved(t: Thread): nat {
    t.i + if t.place.PostMutex? || t.place.PostToken? then 1 else 0
  }

  /** The tokens: each is in a semaphore or with a thread that has not given the matching one back,
      so their number is the capacity. */
  ghost predicate Control(cfg: Config, s: State) {
    var p, c := s.producer, s.consumer;
    && |s.items| == cfg.capacity > 0
    && s.mutex == 1 - (if Holding(p) then 1 else 0) - (if Holding(c) then 1 else 0) && s.mutex >= 0
    && p.i <= cfg.iterations && c.i <= cfg.iterations
    && (p.i == cfg.iterations ==> p.place.WaitToken?) && (c.i == cfg.iterations ==> c.place.WaitToken?)
    && 0 <= s.empty == cfg.capacity + c.i - Claimed(p)
    && 0 <= s.nonempty == p.i - Claimed(c)
  }

  ghost predicate InPlace(s: State) {
    && 0 < |s.items|
    && s.inPos == Cell(Moved(s.producer), |s.items|) && s.outPos == Cell(Moved(s.consumer), |s.items|)
  }

  ghost predicate InRing(s: State) {
    && Holds(s.items, Accessed(s.consumer), Accessed(s.producer))
    && s.taken == Interval(0, Accessed(s.consumer)) && !s.corrupted
  }

  ghost predicate Inv(cfg: Config, s: State) {
    Control(cfg, s) && InPlace(s) && InRing(s)
  }

  ghost function AsQueue(s: State): Queue
    requires 0 < |s.items| && Accessed(s.consumer) <= Accessed(s.producer)
  {
    Abstract(s.items, Accessed(s.consumer), Accessed(s.producer), s.taken)
  }

  ghost predicate Refines(cfg: Config, s: State, t: State)
    requires InRing(s) && InRing(t)
  {
    AsQueue(t) == AsQueue(s) || Put(cfg.capacity, AsQueue(s), AsQueue(t)) || Take(AsQueue(s), AsQueue(t))
  }

  lemma ControlKept(cfg: Config, s: State, who: Who)
    requires Control(cfg, s) && Enabled(cfg, s, who) && InBounds(s)
    ensures Control(cfg, Step(cfg, s, who))
  {
  }

  lemma PositionsKept(cfg: Config, s: State, who: Who)
    requires InPlace(s) && InBounds(s) && Enabled(cfg, s, who)
    ensures InPlace(Step(cfg, s, who))
  {
    var t := Step(cfg, s, who);
    assert |t.items| == |s.items|;
    assert t.inPos == Cell(Moved(t.producer), |s.items|) by {
      if who.Producer? && s.producer.place.Move? { NextCell(s.producer.i, |s.items|); }
    }
    assert t.outPos == Cell(Moved(t.consumer), |s.items|) by {
      if who.Consumer? && s.consumer.place.Move? { NextCell(s.consumer.i, |s.items|); }
    }
  }

  predicate Accesses(s: State, who: Who) {
    (who.Producer? && s.producer.place.Access?) || (who.Consumer? && s.consumer.place.Access?)
  }

  lemma RingLeftAlone(cfg: Config, s: State, who: Who)
    requires InRing(s) && InBounds(s) && Enabled(cfg, s, who) && !Accesses(s, who)
    ensures InRing(Step(cfg, s, who)) && Refines(cfg, s, Step(cfg, s, who))
  {
  }

  lemma RingAccessed(cfg: Config, s: State, who: Who)
    requires Inv(cfg, s) && InBounds(s) && Enabled(cfg, s, who) && Accesses(s, who)
    ensures InRing(Step(cfg, s, who)) && Refines(cfg, s, Step(cfg, s, who))
  {
    var lo, hi, t := Accessed(s.consumer), Accessed(s.producer), Step(cfg, s, who);
    if who.Producer? {
      assert t.items == s.items[Cell(hi, |s.items|) := hi] && t.taken == s.taken;
      assert Accessed(t.consumer) == lo && Accessed(t.producer) == hi + 1;
      PutInRing(s.items, lo, hi, s.taken);
    } else {
      TakeFromRing(s.items, lo, hi, s.taken);
      assert t.items == s.items && t.taken == s.taken + [lo];
      assert Accessed(t.consumer) == lo + 1 && Accessed(t.producer) == hi;
    }
  }

  lemma StepRefines(cfg: Config, s: State, who: Who)
    requires Inv(cfg, s) && Enabled(cfg, s, who)
    ensures InBounds(s) && Inv(cfg, Step(cfg, s, who)) && Refines(cfg, s, Step(cfg, s, who))
  {
    ControlKept(cfg, s, who);
    PositionsKept(cfg, s, who);
    if Accesses(s, who) { RingAccessed(cfg, s, who); } else { RingLeftAlone(cfg, s, who); }
  }

  lemma {:induction false} RunInv(cfg: Config, run: seq<State>)
    requires IsRun(cfg, run)
    ensures Inv(cfg, run[|run| - 1])
  {
    if |run| > 1 {
      var r, s := run[|run| - 2], run[|run| - 1];
      RunInv(cfg, run[..|run| - 1]);
      assert Next(cfg, r, s);
      var who :| Enabled(cfg, r, who) && s == Step(cfg, r, who);
      StepRefines(cfg, r, who);
    }
  }

  lemma ReachableInv(cfg: Config, s: State)
    requires Reachable(cfg, s)
    ensures Inv(cfg, s)
  {
    var run :| IsRun(cfg, run) && run[|run| - 1] == s;
    RunInv(cfg, run);
  }

  lemma PrefixReachable(cfg: Config, run: seq<State>, i: nat)
    requires IsRun(cfg, run) && i < |run|
    ensures Reachable(cfg, run[i])
  {
    assert IsRun(cfg, run[..i + 1]);
  }

  lemma Extended(cfg: Config, run: seq<State>, who: Who)
    requires IsRun(cfg, run) && InBounds(run[|run| - 1]) && Enabled(cfg, run[|run| - 1], who)
    ensures IsRun(cfg, run + [Step(cfg, run[|run| - 1], who)])
  {
    assert Next(cfg, run[|run| - 1], Step(cfg, run[|run| - 1], who));
  }

  lemma Continued(cfg: Config, s: State, who: Who)
    requires Reachable(cfg, s) && InBounds(s) && Enabled(cfg, s, who)
    ensures Reachable(cfg, Step(cfg, s, who))
  {
    var run :| IsRun(cfg, run) && run[|run| - 1] == s;
    Extended(cfg, run, who);
  }

  // ----- the guarantees

  ghost predicate AllInRing(run: seq<State>) {
    forall i :: 0 <= i < |run| ==> InRing(run[i])
  }

  /** The queues that the states of a run stand for. */
  ghost function Queues(run: seq<State>): (queues: seq<Queue>)
    requires AllInRing(run)
    ensures |queues| == |run| && forall i :: 0 <= i < |run| ==> queues[i] == AsQueue(run[i])
  {
    seq(|run|, i requires 0 <= i < |run| => AsQueue(run[i]))
  }

  /** Every run is a run of the bounded queue, the same one that the condition-variable program runs: it starts with the empty queue, and each step adds one item at
      the back, takes one from the front, or leaves the queue as it is. So nothing is lost, repeated or reordered. */
  lemma RunsAreQueueRuns(cfg: Config, run: seq<State>)
    requires IsRun(cfg, run)
    ensures AllInRing(run) && IsQueueRun(cfg.capacity, Queues(run))
    ensures Ordered(cfg.capacity, AsQueue(run[|run| - 1]))
  {
    forall i | 0 <= i < |run| ensures InRing(run[i]) {
      PrefixReachable(cfg, run, i);
      ReachableInv(cfg, run[i]);
    }
    var queues := Queues(run);
    forall i | 0 <= i < |run| - 1
      ensures queues[i + 1] == queues[i] || Put(cfg.capacity, queues[i], queues[i + 1]) || Take(queues[i], queues[i + 1])
    {
      PrefixReachable(cfg, run, i);
      NextRefines(cfg, run[i], run[i + 1]);
    }
    QueueRunsKeepOrder(cfg.capacity, queues);
  }

  lemma NextRefines(cfg: Config, s: State, t: State)
    requires Reachable(cfg, s) && Next(cfg, s, t)
    ensures InRing(s) && InRing(t) && Refines(cfg, s, t)
  {
    ReachableInv(cfg, s);
    var a :| Enabled(cfg, s, a) && t == Step(cfg, s, a);
    StepRefines(cfg, s, a);
  }

  lemma InRingOrdered(s: State)
    requires InRing(s)
    ensures Ordered(|s.items|, AsQueue(s))
  {
    var lo, hi := Accessed(s.consumer), Accessed(s.producer);
    assert AsQueue(s).waiting == Interval(lo, hi);
    assert Interval(0, lo) + Interval(lo, hi) == Interval(0, hi);
  }

  /** The units of both semaphores and those in the hands of the threads always add up to the capacity;
      the buffer's critical sections exclude each other; and "item corruption!" is never printed. */
  lemma Conservation(cfg: Config, s: State)
    requires Reachable(cfg, s)
    ensures
      var inHand := (if s.producer.place.WaitToken? then 0 else 1) + (if s.consumer.place.WaitToken? then 0 else 1);
      && s.empty >= 0 && s.nonempty >= 0 && s.empty + s.nonempty + inHand == cfg.capacity
    ensures !(Holding(s.producer) && Holding(s.consumer)) && !s.corrupted
  {
    ReachableInv(cfg, s);
  }

  /** The producer only ever writes to a cell whose item was read, or that never held one. */
  lemma NoOverwrite(cfg: Config, s: State, k: nat)
    requires Reachable(cfg, s) && s.producer.place.Access? && |s.taken| <= k < s.producer.i
    ensures s.inPos < |s.items| && s.items != [] && Cell(k, |s.items|) != s.inPos
  {
    ReachableInv(cfg, s);
    OwnCell(k, s.producer.i, |s.items|);
  }

  lemma NoDeadlock(cfg: Config, s: State)
    requires Reachable(cfg, s) && !Over(cfg, s)
    ensures Enabled(cfg, s, Producer) || Enabled(cfg, s, Consumer)
  {
    ReachableInv(cfg, s);
  }

  lemma AllConsumed(cfg: Config, s: State)
    requires Reachable(cfg, s) && Over(cfg, s)
    ensures s.empty == cfg.capacity && s.nonempty == 0 && s.taken == Interval(0, cfg.iterations)
  {
    ReachableInv(cfg, s);
  }

  function StepsLeft(cfg: Config, t: Thread): int {
    6 * (cfg.iterations - t.i)
    - match t.place case WaitToken => 0 case WaitMutex => 1 case Access => 2 case Move => 3 case PostMutex => 4 case PostToken => 5
  }

  function AllLeft(cfg: Config, s: State): int { StepsLeft(cfg, s.producer) + StepsLeft(cfg, s.consumer) }

  lemma StepCounts(cfg: Config, s: State, who: Who)
    requires Enabled(cfg, s, who) && InBounds(s)
    ensures AllLeft(cfg, Step(cfg, s, who)) == AllLeft(cfg, s) - 1
  {
  }

  lemma LeftBounded(cfg: Config, s: State)
    requires Control(cfg, s)
    ensures 0 <= AllLeft(cfg, s)
  {
  }

  lemma RunsEnd(cfg: Config, s: State, t: State)
    requires Reachable(cfg, s) && Next(cfg, s, t)
    ensures 0 <= AllLeft(cfg, t) == AllLeft(cfg, s) - 1
  {
    var who :| Enabled(cfg, s, who) && t == Step(cfg, s, who);
    StepCounts(cfg, s, who);
    ReachableInv(cfg, s);
    StepRefines(cfg, s, who);
    LeftBounded(cfg, t);
  }

  /** No run is longer than all steps of both loops ... */
  lemma {:induction false} RunsAreFinite(cfg: Config, run: seq<State>)
    requires IsRun(cfg, run)
    ensures 0 <= AllLeft(cfg, run[|run| - 1]) == 12 * cfg.iterations + 1 - |run|
  {
    if |run| > 1 {
      var k := |run| - 2;
      RunsAreFinite(cfg, run[..k + 1]);
      PrefixReachable(cfg, run, k);
      assert Next(cfg, run[k], run[k + 1]);
      RunsEnd(cfg, run[k], run[k + 1]);
    }
  }

  /** ... and from every reachable state both loops can be brought to their end. */
  lemma RunsFinish(cfg: Config, s: State) returns (path: seq<State>)
    requires Reachable(cfg, s)
    ensures IsPath(cfg, path) && path[0] == s && Over(cfg, path[|path| - 1])
    decreases AllLeft(cfg, s)
  {
    ReachableInv(cfg, s);
    LeftBounded(cfg, s);
    if Over(cfg, s) {
      path := [s];
    } else {
      NoDeadlock(cfg, s);
      var who := if Enabled(cfg, s, Producer) then Producer else Consumer;
      Continued(cfg, s, who);
      StepCounts(cfg, s, who);
      path := RunsFinish(cfg, Step(cfg, s, who));
      path := [s] + path;
    }
  }

  // ----- the program, in place

  class Program {
    const cfg: Config
    const items: array<int>
    var inPos: nat
    var outPos: nat
    var empty: int
    var nonempty: int
    var mutex: int
    var producer: Thread
    var consumer: Thread
    var taken: seq<int>
    var corrupted: bool

    constructor (cfg: Config)
      requires cfg.capacity > 0
      ensures this.cfg == cfg && fresh(items)
      ensures Valid() && Init(cfg, Now())
    {
      this.cfg := cfg;
      items := new int[cfg.capacity](_ => 0);
      inPos, outPos, empty, nonempty, mutex := 0, 0, cfg.capacity, 0, 1;
      producer, consumer, taken, corrupted := Thread(WaitToken, 0), Thread(WaitToken, 0), [], false;
      new;
      assert IsRun(cfg, [Now()]);
    }

    ghost function Now(): State
      reads this, items
    {
      State(items[..], inPos, outPos, empty, nonempty, mutex, producer, consumer, taken, corrupted)
    }

    ghost predicate Valid()
      reads this, items
    {
      InBounds(Now()) && Reachable(cfg, Now())
    }

    /** The buffer is a bounded queue that has kept the order, and in the end all items have gone through it. */
    ghost predicate Safe()
      reads this, items
      requires Valid()
    {
      && InRing(Now()) && Ordered(cfg.capacity, AsQueue(Now()))
      && !corrupted && !(Holding(producer) && Holding(consumer))
      && (Over(cfg, Now()) ==> taken == Interval(0, cfg.iterations))
    }

    lemma IsSafe()
      requires Valid()
      ensures Safe()
    {
      ReachableInv(cfg, Now());
      InRingOrdered(Now());
      if Over(cfg, Now()) { AllConsumed(cfg, Now()); }
    }

    lemma Stepped(s: State, who: Who)
      requires Reachable(cfg, s) && InBounds(s) && Enabled(cfg, s, who) && Now() == Step(cfg, s, who)
      ensures Valid() && Safe() && InRing(s) && Refines(cfg, s, Now())
    {
      ReachableInv(cfg, s);
      StepRefines(cfg, s, who);
      Continued(cfg, s, who);
      IsSafe();
    }

    /** The next atomic step of the producer's loop. */
    method ProducerStep()
      requires Valid() && Enabled(cfg, Now(), Producer)
      modifies this, items
      ensures Valid() && Safe()
      ensures Now() == Step(cfg, old(Now()), Producer)
      ensures InRing(old(Now())) && Refines(cfg, old(Now()), Now())
    {
      ghost var s := Now();
      match producer.place {
        case WaitToken => empty, producer := empty - 1, producer.(place := WaitMutex);
        case WaitMutex => mutex, producer := mutex - 1, producer.(place := Access);
        case Access =>
          items[inPos] := producer.i;
          producer := producer.(place := Move);
        case Move => inPos, producer := Cell(inPos + 1, items.Length), producer.(place := PostMutex);
        case PostMutex => mutex, producer := mutex + 1, producer.(place := PostToken);
        case PostToken => nonempty, producer := nonempty + 1, Thread(WaitToken, producer.i + 1);
      }
      assert Now() == Step(cfg, s, Producer);
      Stepped(s, Producer);
    }

    /** The next atomic step of the consumer's loop. */
    method ConsumerStep()
      requires Valid() && Enabled(cfg, Now(), Consumer)
      modifies this
      ensures Valid() && Safe()
      ensures Now() == Step(cfg, old(Now()), Consumer)
      ensures InRing(old(Now())) && Refines(cfg, old(Now()), Now())
    {
      ghost var s := Now();
      match consumer.place {
        case WaitToken => nonempty, consumer := nonempty - 1, consumer.(place := WaitMutex);
        case WaitMutex => mutex, consumer := mutex - 1, consumer.(place := Access);
        case Access =>
          var item := items[outPos];
          if item != consumer.i { corrupted := true; }
          taken, consumer := taken + [item], consumer.(place := Move);
        case Move => outPos, consumer := Cell(outPos + 1, items.Length), consumer.(place := PostMutex);
        case PostMutex => mutex, consumer := mutex + 1, consumer.(place := PostToken);
        case PostToken => empty, consumer := empty + 1, Thread(WaitToken, consumer.i + 1);
      }
      assert Now() == Step(cfg, s, Consumer);
      Stepped(s, Consumer);
    }
  }
}
