/** Message-queue notification that starts a thread: one registration serves one notification, which is given when a message
    arrives in an empty queue; each handler registers anew and empties the queue. Any number of handlers may be running. */
module NotifyThreads {
  import opened Counting

  type Message = string

  /** Whether handlers register before they empty the queue, or after. */
  datatype Order = NotifyFirst | DrainFirst

  datatype Place = Registering | Draining | Ended

  /** `sent` and `received` are all messages so far, `clash` whether mq_notify ever found a registration in place. */
  datatype State = State(queue: seq<Message>, registered: bool, handlers: seq<Place>,
                         sent: seq<Message>, received: seq<Message>, clash: bool)

  datatype Action = Send(m: Message) | Run(i: nat)

  datatype Config = Config(capacity: nat, order: Order)

  const INIT := State([], true, [], [], [], false)

  predicate Enabled(cfg: Config, s: State, a: Action) {
    match a
    case Send(_) => |s.queue| < cfg.capacity
    case Run(i) => i < |s.handlers| && !s.handlers[i].Ended?
  }

  function Step(cfg: Config, s: State, a: Action): State
    requires Enabled(cfg, s, a)
  {
    match a
    case Send(m) =>
      var s' := s.(queue := s.queue + [m], sent := s.sent + [m]);
      if s.queue == [] && s.registered then
        s'.(registered := false, handlers := s.handlers + [if cfg.order.NotifyFirst? then Registering else Draining])
      else s'
    case Run(i) =>
      if s.handlers[i].Registering? then
        s.(registered := true, clash := s.clash || s.registered,
           handlers := s.handlers[i := if cfg.order.NotifyFirst? then Draining else Ended])
      else if s.queue != [] then
        s.(queue := s.queue[1..], received := s.received + [s.queue[0]])
      else
        s.(handlers := s.handlers[i := if cfg.order.NotifyFirst? then Ended else Registering])
  }

  ghost predicate Next(cfg: Config, s: State, t: State) {
    exists a :: Enabled(cfg, s, a) && t == Step(cfg, s, a)
  }

  /** A run: from the initial state, one step after the other. */
  ghost predicate IsRun(cfg: Config, run: seq<State>) {
    && run != [] && run[0] == INIT
    && forall i :: 0 <= i < |run| - 1 ==> Next(cfg, run[i], run[i + 1])
  }

  /** The states of all runs. */
  ghost predicate Reachable(cfg: Config, s: State) {
    exists run :: IsRun(cfg, run) && run[|run| - 1] == s
  }

  // ----- what every step keeps

  predicate IsRegistering(p: Place) { p.Registering? }
  predicate IsActive(p: Place) { !p.Ended? }

  ghost predicate Inv(s: State) {
    && !s.clash
    && Bit(s.registered) + Count(s.handlers, IsRegistering) == 1
    && (s.queue != [] ==> Count(s.handlers, IsActive) > 0)
    && s.received + s.queue == s.sent
  }

  lemma SendKeeps(cfg: Config, s: State, m: Message)
    requires cfg.order.NotifyFirst? && Inv(s) && Enabled(cfg, s, Send(m))
    ensures Inv(Step(cfg, s, Send(m)))
  {
    CountPositive(s.handlers, IsRegistering);
    CountPositive(s.handlers, IsActive);
    var t := Step(cfg, s, Send(m));
    assert t.received + t.queue == s.received + s.queue + [m];
    if t.handlers != s.handlers {
      assert t.handlers[..|s.handlers|] == s.handlers;
    } else if s.queue == [] {
      var i :| 0 <= i < |s.handlers| && IsRegistering(s.handlers[i]);
      assert IsActive(s.handlers[i]);
    }
  }

  lemma ReceiveKeeps(cfg: Config, s: State, i: nat)
    requires Inv(s) && Enabled(cfg, s, Run(i)) && !s.handlers[i].Registering? && s.queue != []
    ensures Inv(Step(cfg, s, Run(i)))
  {
    var t := Step(cfg, s, Run(i));
    assert s.queue == [s.queue[0]] + s.queue[1..];
    assert t.received + t.queue == s.received + ([s.queue[0]] + s.queue[1..]);
    assert IsActive(s.handlers[i]);
    CountPositive(s.handlers, IsActive);
  }

  /** The two steps that bring a handler on. */
  lemma MoveKeeps(cfg: Config, s: State, i: nat)
    requires cfg.order.NotifyFirst? && Inv(s) && Enabled(cfg, s, Run(i)) && (s.handlers[i].Registering? || s.queue == [])
    ensures Inv(Step(cfg, s, Run(i)))
  {
    var next := if s.handlers[i].Registering? then Draining else Ended;
    CountUpdate(s.handlers, IsRegistering, i, next);
    CountUpdate(s.handlers, IsActive, i, next);
    CountPositive(s.handlers, IsRegistering);
    assert s.handlers[i].Registering? ==> IsRegistering(s.handlers[i]) && IsActive(s.handlers[i]);
  }

  lemma RunKeeps(cfg: Config, s: State, i: nat)
    requires cfg.order.NotifyFirst? && Inv(s) && Enabled(cfg, s, Run(i))
    ensures Inv(Step(cfg, s, Run(i)))
  {
    if s.handlers[i].Registering? || s.queue == [] { MoveKeeps(cfg, s, i); } else { ReceiveKeeps(cfg, s, i); }
  }

  lemma {:induction false} RunInv(cfg: Config, run: seq<State>)
    requires cfg.order.NotifyFirst? && IsRun(cfg, run)
    ensures Inv(run[|run| - 1])
  {
    if |run| > 1 {
      var r, s := run[|run| - 2], run[|run| - 1];
      RunInv(cfg, run[..|run| - 1]);
      assert Next(cfg, r, s);
      var a :| Enabled(cfg, r, a) && s == Step(cfg, r, a);
      match a
      case Send(m) => SendKeeps(cfg, r, m);
      case Run(i) => RunKeeps(cfg, r, i);
    }
  }

  lemma ReachableInv(cfg: Config, s: State)
    requires cfg.order.NotifyFirst? && Reachable(cfg, s)
    ensures Inv(s)
  {
    var run :| IsRun(cfg, run) && run[|run| - 1] == s;
    RunInv(cfg, run);
  }

  lemma Reach(cfg: Config, s: State, a: Action) returns (t: State)
    requires Reachable(cfg, s) && Enabled(cfg, s, a)
    ensures t == Step(cfg, s, a) && Reachable(cfg, t)
  {
    t := Step(cfg, s, a);
    var run :| IsRun(cfg, run) && run[|run| - 1] == s;
    assert Next(cfg, s, t);
    assert IsRun(cfg, run + [t]);
  }

  // ----- the guarantees

  /** At every moment there is exactly one registration, in the queue or still to be made by one handler; so no mq_notify
      ever meets another registration. Messages are received in the order sent, whichever handlers receive them,
      and a message in the queue has a handler that has still to see the queue empty. */
  lemma NoStrandedMessage(cfg: Config, s: State)
    requires cfg.order.NotifyFirst? && Reachable(cfg, s)
    ensures !s.clash && Bit(s.registered) + Count(s.handlers, IsRegistering) == 1
    ensures s.received <= s.sent && s.received + s.queue == s.sent
    ensures s.queue != [] ==> exists i :: 0 <= i < |s.handlers| && IsActive(s.handlers[i])
  {
    ReachableInv(cfg, s);
    CountPositive(s.handlers, IsActive);
  }

  /** A handler is started exactly when a message comes to an empty queue with a registration, which it uses up. */
  lemma StartedOnEdge(cfg: Config, s: State, a: Action)
    requires Enabled(cfg, s, a)
    ensures
      var t := Step(cfg, s, a);
      && |s.handlers| <= |t.handlers| <= |s.handlers| + 1
      && (|t.handlers| == |s.handlers| + 1 <==> a.Send? && s.queue == [] && s.registered)
      && (|t.handlers| == |s.handlers| + 1 ==> !t.registered)
      && (a.Send? ==> t.queue == s.queue + [a.m] && t.sent == s.sent + [a.m])
  {
  }

  /** The number of steps that handlers can still take before they need another message. */
  function Weight(p: Place): int { if p.Registering? then 2 else if p.Draining? then 1 else 0 }
  function Work(s: State): int { |s.queue| + Sum(s.handlers, Weight) }

  lemma {:induction false} SumWeights(hs: seq<Place>)
    ensures Sum(hs, Weight) >= 0
    ensures Sum(hs, Weight) == 0 <==> forall i :: 0 <= i < |hs| ==> hs[i].Ended?
  {
    if hs != [] {
      var rest := hs[..|hs| - 1];
      SumWeights(rest);
      assert forall i :: 0 <= i < |rest| ==> hs[i] == rest[i];
      assert hs[|rest|].Ended? <==> Weight(hs[|rest|]) == 0;
    }
  }

  /** A schedule of handlers' steps, and where it leads. */
  ghost predicate Runs(cfg: Config, s: State, schedule: seq<nat>)
    decreases |schedule|
  {
    schedule != [] ==>
      Enabled(cfg, s, Run(schedule[0])) && Runs(cfg, Step(cfg, s, Run(schedule[0])), schedule[1..])
  }

  ghost function After(cfg: Config, s: State, schedule: seq<nat>): State
    requires Runs(cfg, s, schedule)
    decreases |schedule|
  {
    if schedule == [] then s else After(cfg, Step(cfg, s, Run(schedule[0])), schedule[1..])
  }

  lemma {:induction false} WorkDone(cfg: Config, s: State, schedule: seq<nat>)
    requires cfg.order.NotifyFirst? && Inv(s) && Runs(cfg, s, schedule)
    ensures Inv(After(cfg, s, schedule)) && Work(After(cfg, s, schedule)) == Work(s) - |schedule|
    ensures After(cfg, s, schedule).sent == s.sent
    decreases |schedule|
  {
    if schedule != [] {
      var i := schedule[0];
      var t := Step(cfg, s, Run(i));
      RunKeeps(cfg, s, i);
      SumUpdate(s.handlers, Weight, i, t.handlers[i]);
      assert s.handlers == s.handlers[i := s.handlers[i]];
      WorkDone(cfg, t, schedule[1..]);
    }
  }

  /** However the handlers are scheduled, they take at most `Work(s)` more steps, they can take all of them, and then
      every message sent has been received, in order, and the next one will be announced. */
  lemma EverythingIsReceived(cfg: Config, s: State, schedule: seq<nat>)
    requires cfg.order.NotifyFirst? && Reachable(cfg, s) && Runs(cfg, s, schedule)
    ensures |schedule| <= Work(s)
    ensures
      var t := After(cfg, s, schedule);
      if |schedule| < Work(s) then exists i :: Enabled(cfg, t, Run(i))
      else t.queue == [] && t.received == s.sent && t.registered
  {
    ReachableInv(cfg, s);
    WorkDone(cfg, s, schedule);
    var t := After(cfg, s, schedule);
    SumWeights(t.handlers);
    CountPositive(t.handlers, IsRegistering);
    CountPositive(t.handlers, IsActive);
    if |schedule| < Work(s) {
      var i :| 0 <= i < |t.handlers| && !t.handlers[i].Ended?;
      assert Enabled(cfg, t, Run(i));
    }
  }

  /** Everything at rest with a message in the queue. */
  ghost predicate Stranded(s: State) {
    s.queue != [] && forall i :: 0 <= i < |s.handlers| ==> s.handlers[i].Ended?
  }

  /** The order matters: a message can be stranded exactly when handlers empty the queue before they register. */
  lemma OrderMatters(cfg: Config)
    requires cfg.capacity > 0
    ensures (exists s :: Reachable(cfg, s) && Stranded(s)) <==> cfg.order.DrainFirst?
  {
    if cfg.order.DrainFirst? {
      assert IsRun(cfg, [INIT]);
      var s := Reach(cfg, INIT, Send("a"));
      s := Reach(cfg, s, Run(0));
      s := Reach(cfg, s, Run(0));
      s := Reach(cfg, s, Send("b"));
      s := Reach(cfg, s, Run(0));
      assert Stranded(s);
    } else {
      forall s | Reachable(cfg, s) ensures !Stranded(s) {
        ReachableInv(cfg, s);
        CountPositive(s.handlers, IsActive);
      }
    }
  }

  // ----- the program, in place

  class Queue {
    const cfg: Config
    var queue: seq<Message>
    var registered: bool
    var handlers: seq<Place>
    var sent: seq<Message>
    var received: seq<Message>
    var clash: bool

    constructor (capacity: nat)
      ensures cfg == Config(capacity, NotifyFirst)
      ensures Valid() && Now() == INIT
    {
      cfg := Config(capacity, NotifyFirst);
      queue, registered, handlers, sent, received, clash := [], true, [], [], [], false;
      new;
      assert IsRun(cfg, [Now()]);
    }

    ghost function Now(): State
      reads this
    {
      State(queue, registered, handlers, sent, received, clash)
    }

    ghost predicate Valid()
      reads this
    {
      cfg.order.NotifyFirst? && Reachable(cfg, Now())
    }

    /** No clash, nothing lost or reordered, and a handler for whatever is in the queue. */
    ghost predicate Safe()
      reads this
    {
      && !clash && received + queue == sent
      && (queue != [] ==> exists i :: 0 <= i < |handlers| && IsActive(handlers[i]))
    }

    lemma Stepped(s: State, a: Action)
      requires cfg.order.NotifyFirst? && Reachable(cfg, s) && Enabled(cfg, s, a) && Now() == Step(cfg, s, a)
      ensures Valid() && Safe()
    {
      var t := Reach(cfg, s, a);
      NoStrandedMessage(cfg, t);
    }

    /** mq_send(), with the notification it may cause; it fails when the queue is full. */
    method Put(m: Message) returns (ok: bool)
      requires Valid()
      modifies this
      ensures Valid() && (ok ==> Safe())
      ensures ok <==> |old(queue)| < cfg.capacity
      ensures ok ==> queue == old(queue) + [m] && sent == old(sent) + [m]
      ensures Now() == if ok then Step(cfg, old(Now()), Send(m)) else old(Now())
    {
      ghost var s := Now();
      ok := |queue| < cfg.capacity;
      if ok {
        if queue == [] && registered {
          registered := false;
          handlers := handlers + [Registering];
        }
        queue := queue + [m];
        sent := sent + [m];
        Stepped(s, Send(m));
      }
    }

    /** The next atomic step of handler i: mq_notify(), or one mq_receive(). */
    method Handle(i: nat)
      requires Valid() && Enabled(cfg, Now(), Run(i))
      modifies this
      ensures Valid() && Safe()
      ensures Now() == Step(cfg, old(Now()), Run(i))
    {
      ghost var s := Now();
      if handlers[i].Registering? {
        clash := clash || registered;
        registered := true;
        handlers := handlers[i := Draining];
      } else if queue != [] {
        var m := queue[0];
        queue := queue[1..];
        received := received + [m];
      } else {
        handlers := handlers[i := Ended];
      }
      Stepped(s, Run(i));
    }
  }
}
