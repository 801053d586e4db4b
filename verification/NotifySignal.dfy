/** Message-queue notification by a signal: the reader sleeps in sigsuspend with the signal blocked otherwise,
    registers anew when it wakes up, and empties the queue. SIGINT makes it leave its loop. */
module NotifySignal {
  import opened Counting

  type Message = string

  datatype Place = Suspended | Registering | Draining | Exited

  /** `pending` is SIGUSR1 sent and not yet delivered, `interrupt` is SIGINT. */
  datatype State = State(queue: seq<Message>, registered: bool, pending: bool, interrupt: bool, reader: Place,
                         sent: seq<Message>, received: seq<Message>, clash: bool)

  /** Wake is a return of sigsuspend; it delivers SIGUSR1, SIGINT, or both. */
  datatype Action = Send(m: Message) | Interrupt | Wake(usr1: bool, stop: bool) | Read

  const INIT := State([], true, false, false, Suspended, [], [], false)

  predicate Enabled(capacity: nat, s: State, a: Action) {
    match a
    case Send(_) => |s.queue| < capacity
    case Interrupt => true
    case Wake(usr1, stop) =>
      s.reader.Suspended? && (usr1 || stop) && (usr1 ==> s.pending) && (stop ==> s.interrupt)
    case Read => s.reader.Registering? || s.reader.Draining?
  }

  function Step(capacity: nat, s: State, a: Action): State
    requires Enabled(capacity, s, a)
  {
    match a
    case Send(m) =>
      var first := s.queue == [] && s.registered;
      s.(queue := s.queue + [m], sent := s.sent + [m],
         registered := s.registered && !first, pending := s.pending || first)
    case Interrupt => s.(interrupt := true)
    case Wake(usr1, stop) =>
      s.(pending := s.pending && !usr1, interrupt := s.interrupt && !stop, reader := if stop then Exited else Registering)
    case Read =>
      if s.reader.Registering? then s.(registered := true, clash := s.clash || s.registered, reader := Draining)
      else if s.queue != [] then s.(queue := s.queue[1..], received := s.received + [s.queue[0]])
      else s.(reader := Suspended)
  }

  ghost predicate Next(capacity: nat, s: State, t: State) {
    exists a :: Enabled(capacity, s, a) && t == Step(capacity, s, a)
  }

  /** States, each reached from the one before by a step. */
  ghost predicate IsPath(capacity: nat, path: seq<State>) {
    path != [] && forall i :: 0 <= i < |path| - 1 ==> Next(capacity, path[i], path[i + 1])
  }

  /** A path from the initial state. */
  ghost predicate IsRun(capacity: nat, run: seq<State>) {
    IsPath(capacity, run) && run[0] == INIT
  }

  /** The states of all runs. */
  ghost predicate Reachable(capacity: nat, s: State) {
    exists run :: IsRun(capacity, run) && run[|run| - 1] == s
  }

  ghost predicate Inv(s: State) {
    && !s.clash
    && s.received + s.queue == s.sent
    && (!s.reader.Exited? ==>
          && Bit(s.registered) + Bit(s.pending) + Bit(s.reader.Registering?) == 1
          && (s.queue != [] ==> s.pending || s.reader.Registering? || s.reader.Draining?))
  }

  lemma StepInv(capacity: nat, s: State, a: Action)
    requires Inv(s) && Enabled(capacity, s, a)
    ensures Inv(Step(capacity, s, a))
  {
    var t := Step(capacity, s, a);
    if a.Send? {
      assert t.received + t.queue == s.received + s.queue + [a.m];
    } else if a.Read? && s.reader.Draining? && s.queue != [] {
      assert s.queue == [s.queue[0]] + s.queue[1..];
      assert t.received + t.queue == s.received + ([s.queue[0]] + s.queue[1..]);
    }
  }

  lemma {:induction false} RunInv(capacity: nat, run: seq<State>)
    requires IsRun(capacity, run)
    ensures Inv(run[|run| - 1])
  {
    if |run| > 1 {
      var r, s := run[|run| - 2], run[|run| - 1];
      RunInv(capacity, run[..|run| - 1]);
      assert Next(capacity, r, s);
      var a :| Enabled(capacity, r, a) && s == Step(capacity, r, a);
      StepInv(capacity, r, a);
    }
  }

  lemma ReachableInv(capacity: nat, s: State)
    requires Reachable(capacity, s)
    ensures Inv(s)
  {
    var run :| IsRun(capacity, run) && run[|run| - 1] == s;
    RunInv(capacity, run);
  }

  lemma Reach(capacity: nat, s: State, a: Action) returns (t: State)
    requires Reachable(capacity, s) && Enabled(capacity, s, a)
    ensures t == Step(capacity, s, a) && Reachable(capacity, t)
  {
    t := Step(capacity, s, a);
    var run :| IsRun(capacity, run) && run[|run| - 1] == s;
    assert Next(capacity, s, t);
    assert IsRun(capacity, run + [t]);
  }

  lemma NextReachable(capacity: nat, s: State, t: State)
    requires Reachable(capacity, s) && Next(capacity, s, t)
    ensures Reachable(capacity, t)
  {
    var a :| Enabled(capacity, s, a) && t == Step(capacity, s, a);
    var u := Reach(capacity, s, a);
  }

  // ----- the guarantees

  /** Until SIGINT ends the loop: the notification is registered, pending, or about to be registered again, exactly one of these;
      and a message in the queue has a signal pending for it or a reader that has not seen the queue empty. */
  lemma NoStrandedMessage(capacity: nat, s: State)
    requires Reachable(capacity, s) && !s.reader.Exited?
    ensures !s.clash && Bit(s.registered) + Bit(s.pending) + Bit(s.reader.Registering?) == 1
    ensures s.received <= s.sent && s.received + s.queue == s.sent
    ensures s.queue != [] ==> s.pending || s.reader.Registering? || s.reader.Draining?
  {
    ReachableInv(capacity, s);
  }

  /** SIGUSR1 becomes pending exactly when a message comes to an empty queue with a registration, which it uses up. */
  lemma SignalledOnEdge(capacity: nat, s: State, a: Action)
    requires Enabled(capacity, s, a) && !s.pending
    ensures
      var t := Step(capacity, s, a);
      && (t.pending <==> a.Send? && s.queue == [] && s.registered)
      && (t.pending ==> !t.registered)
      && (a.Send? ==> t.queue == s.queue + [a.m] && t.sent == s.sent + [a.m])
  {
  }

  /** The reader's next step, when SIGINT does not come first. */
  function ReaderAction(s: State): Action {
    if s.reader.Suspended? then Wake(true, false) else Read
  }

  /** How many steps the reader takes before it sleeps with nothing pending. */
  function Work(s: State): nat {
    |s.queue| + 3 * Bit(s.pending) + match s.reader case Registering => 2 case Draining => 1 case _ => 0
  }

  ghost function Settled(capacity: nat, s: State): (t: State)
    requires Inv(s) && !s.reader.Exited?
    ensures Inv(t) && t.sent == s.sent && t.reader.Suspended? && !t.pending
    decreases Work(s)
  {
    if Enabled(capacity, s, ReaderAction(s)) then
      StepInv(capacity, s, ReaderAction(s));
      Settled(capacity, Step(capacity, s, ReaderAction(s)))
    else s
  }

  /** Left to itself the reader goes to sleep after finitely many steps, with every message received and the next one announced. */
  lemma EverythingIsReceived(capacity: nat, s: State)
    requires Reachable(capacity, s) && !s.reader.Exited?
    ensures Inv(s)
    ensures Settled(capacity, s).queue == [] && Settled(capacity, s).received == s.sent && Settled(capacity, s).registered
  {
    ReachableInv(capacity, s);
  }

  /** SIGINT is the one exception: it makes the reader leave with whatever is in the queue. That can be something only
      while SIGUSR1 is pending too. */
  lemma LeftAtExit(capacity: nat, s: State, usr1: bool)
    requires Reachable(capacity, s) && Enabled(capacity, s, Wake(usr1, true))
    ensures
      var t := Step(capacity, s, Wake(usr1, true));
      && t.reader.Exited?
      && (t.received == t.sent <==> s.queue == [])
      && (!s.pending ==> t.received == t.sent)
  {
    ReachableInv(capacity, s);
    if s.queue != [] {
      assert |s.received + s.queue| > |s.received|;
    }
  }

  /** The sender sends nothing along the path. */
  ghost predicate Silent(path: seq<State>) {
    forall i :: 0 <= i < |path| ==> path[i].sent == path[0].sent
  }

  lemma NoMoreLeft(capacity: nat, s: State, t: State)
    requires Inv(s) && Next(capacity, s, t) && t.sent == s.sent
    requires s.queue == [] || s.reader.Registering? || s.reader.Draining?
    ensures t.queue == [] || t.reader.Registering? || t.reader.Draining?
  {
    var a :| Enabled(capacity, s, a) && t == Step(capacity, s, a);
    assert a.Send? ==> |t.sent| == |s.sent| + 1;
  }

  lemma {:induction false} NothingLeft(capacity: nat, path: seq<State>)
    requires IsPath(capacity, path) && Silent(path) && Reachable(capacity, path[0])
    requires path[0].queue == [] || path[0].reader.Registering? || path[0].reader.Draining?
    ensures var t := path[|path| - 1]; t.reader.Exited? ==> t.received == t.sent
  {
    ReachableInv(capacity, path[0]);
    if |path| > 1 {
      var s, t := path[0], path[1];
      assert Next(capacity, s, t);
      NoMoreLeft(capacity, s, t);
      NextReachable(capacity, s, t);
      NothingLeft(capacity, path[1..]);
    }
  }

  /** Once the sender is silent, as it is when it sends SIGINT, the reader can leave messages behind if and only if it is
      still asleep with a message in the queue: a reader that is awake receives everything before it looks at the signal. */
  lemma LeavesIffAsleep(capacity: nat, s: State)
    requires Reachable(capacity, s) && !s.reader.Exited?
    ensures (exists path: seq<State> ::
               && IsPath(capacity, path) && Silent(path) && path[0] == s
               && path[|path| - 1].reader.Exited? && path[|path| - 1].received != s.sent)
            <==> s.reader.Suspended? && s.queue != []
  {
    if s.reader.Suspended? && s.queue != [] {
      ReachableInv(capacity, s);
      var t := Reach(capacity, s, Interrupt);
      var u := Reach(capacity, t, Wake(false, true));
      assert Next(capacity, s, t) && Next(capacity, t, u);
      assert |s.received + s.queue| > |s.received|;
      assert IsPath(capacity, [s, t, u]) && Silent([s, t, u]);
    } else {
      forall path: seq<State> | IsPath(capacity, path) && Silent(path) && path[0] == s && path[|path| - 1].reader.Exited?
        ensures path[|path| - 1].received == s.sent
      {
        NothingLeft(capacity, path);
      }
    }
  }

  /** And it does happen. */
  lemma CanLeaveMessages(capacity: nat)
    requires capacity > 0
    ensures exists s :: Reachable(capacity, s) && s.reader.Exited? && s.received != s.sent
  {
    assert IsRun(capacity, [INIT]);
    var s := Reach(capacity, INIT, Send("text"));
    s := Reach(capacity, s, Interrupt);
    s := Reach(capacity, s, Wake(true, true));
  }

  // ----- the program, in place

  class Reader {
    const capacity: nat
    var queue: seq<Message>
    var registered: bool
    var pending: bool
    var interrupt: bool
    var reader: Place
    var sent: seq<Message>
    var received: seq<Message>
    var clash: bool

    constructor (capacity: nat)
      ensures this.capacity == capacity
      ensures Valid() && Now() == INIT
    {
      this.capacity := capacity;
      queue, registered, pending, interrupt, reader := [], true, false, false, Suspended;
      sent, received, clash := [], [], false;
      new;
      assert IsRun(capacity, [Now()]);
    }

    ghost function Now(): State
      reads this
    {
      State(queue, registered, pending, interrupt, reader, sent, received, clash)
    }

    ghost predicate Valid()
      reads this
    {
      Reachable(capacity, Now())
    }

    /** mq_send() by the other process, with the signal it may cause; it fails when the queue is full. */
    method Put(m: Message) returns (ok: bool)
      requires Valid()
      modifies this
      ensures Valid()
      ensures ok <==> |old(queue)| < capacity
      ensures ok ==> queue == old(queue) + [m] && sent == old(sent) + [m]
      ensures Now() == if ok then Step(capacity, old(Now()), Send(m)) else old(Now())
    {
      ghost var s := Now();
      ok := |queue| < capacity;
      if ok {
        if queue == [] && registered { registered, pending := false, true; }
        queue := queue + [m];
        sent := sent + [m];
        ghost var t := Reach(capacity, s, Send(m));
      }
    }

    /** kill(): SIGINT from the other process. */
    method Stop()
      requires Valid()
      modifies this
      ensures Valid() && Now() == Step(capacity, old(Now()), Interrupt)
    {
      ghost var s := Now();
      interrupt := true;
      ghost var t := Reach(capacity, s, Interrupt);
    }

    /** sigsuspend() returning, and the test of should_exit. */
    method WakeUp(usr1: bool, stop: bool)
      requires Valid() && Enabled(capacity, Now(), Wake(usr1, stop))
      modifies this
      ensures Valid() && Now() == Step(capacity, old(Now()), Wake(usr1, stop))
      ensures reader.Exited? && !old(pending) ==> received == sent
    {
      ghost var s := Now();
      var shouldExit := false;
      if usr1 { pending := false; }
      if stop { interrupt, shouldExit := false, true; }
      reader := if shouldExit then Exited else Registering;
      ghost var t := Reach(capacity, s, Wake(usr1, stop));
      if stop { LeftAtExit(capacity, s, usr1); }
    }

    /** mq_notify(), then mq_receive() until the queue is empty, with nobody else writing to the queue meanwhile. */
    method RegisterAndDrain()
      requires Valid() && reader.Registering?
      modifies this
      ensures Valid() && reader.Suspended? && registered && queue == [] && received == sent && !clash
      ensures sent == old(sent) && pending == old(pending) && interrupt == old(interrupt)
    {
      ghost var s := Now();
      clash := clash || registered;
      registered := true;
      reader := Draining;
      s := Reach(capacity, s, Read);
      while true
        invariant Valid() && reader.Draining? && registered
        invariant sent == old(sent) && pending == old(pending) && interrupt == old(interrupt)
        decreases |queue|
      {
        s := Now();
        if queue == [] { break; }
        received, queue := received + [queue[0]], queue[1..];
        s := Reach(capacity, s, Read);
      }
      reader := Suspended;
      s := Reach(capacity, s, Read);
      ReachableInv(capacity, s);
    }
  }
}
