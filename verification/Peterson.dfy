/** Peterson's lock around a shared counter: one thread counts up, the other down. Every read and write of a shared variable
    is a step of its own, in one total order, as for sequentially consistent atomics. */
module Peterson {
  type Id = i: nat | i < 2

  /** Where a thread is: outside, about to write turn, about to read the other's flag, about to read turn,
      and inside the lock about to load the counter, to store it, or to clear its own flag. */
  datatype Place = Outside | WriteTurn | ReadFlag | ReadTurn | Load | Store | Leave

  datatype Thread = Thread(place: Place, reg: int, rounds: nat)

  datatype State = State(flag: seq<bool>, turn: Id, counter: int, threads: seq<Thread>)

  function Other(i: Id): Id { 1 - i }

  predicate Shaped(s: State) {
    |s.flag| == |s.threads| == 2
  }

  ghost predicate Init(s: State) {
    s == State([false, false], 0, 0, [Thread(Outside, 0, 0), Thread(Outside, 0, 0)])
  }

  /** n is the number of rounds of each thread. */
  predicate Finished(n: nat, s: State, i: Id)
    requires Shaped(s)
  {
    s.threads[i].place.Outside? && s.threads[i].rounds == n
  }

  function Step(s: State, i: Id): (t: State)
    requires Shaped(s)
    ensures Shaped(t)
  {
    var th, j := s.threads[i], Other(i);
    match th.place
    case Outside => s.(flag := s.flag[i := true], threads := s.threads[i := th.(place := WriteTurn)])
    case WriteTurn => s.(turn := j, threads := s.threads[i := th.(place := ReadFlag)])
    case ReadFlag => s.(threads := s.threads[i := th.(place := if s.flag[j] then ReadTurn else Load)])
    case ReadTurn => s.(threads := s.threads[i := th.(place := if s.turn == j then ReadFlag else Load)])
    case Load => s.(threads := s.threads[i := th.(place := Store, reg := s.counter)])
    case Store =>
      s.(counter := if i == 0 then th.reg + 1 else th.reg - 1, threads := s.threads[i := th.(place := Leave)])
    case Leave =>
      s.(flag := s.flag[i := false], threads := s.threads[i := th.(place := Outside, rounds := th.rounds + 1)])
  }

  ghost predicate Next(n: nat, s: State, t: State) {
    Shaped(s) && exists i: Id :: !Finished(n, s, i) && t == Step(s, i)
  }

  /** A run: from the initial state, one step after the other. */
  ghost predicate IsRun(n: nat, run: seq<State>) {
    && run != [] && Init(run[0])
    && forall i :: 0 <= i < |run| - 1 ==> Next(n, run[i], run[i + 1])
  }

  /** The states of all runs. */
  ghost predicate Reachable(n: nat, s: State) {
    exists run :: IsRun(n, run) && run[|run| - 1] == s
  }

  predicate Inside(t: Thread) {
    t.place.Load? || t.place.Store? || t.place.Leave?
  }

  /** Past writing turn, not yet inside. */
  predicate Trying(t: Thread) {
    t.place.ReadFlag? || t.place.ReadTurn?
  }

  /** Spinning with nothing to gain: the other wants in and it is the other's turn. */
  predicate Blocked(s: State, i: Id)
    requires Shaped(s)
  {
    Trying(s.threads[i]) && s.flag[Other(i)] && s.turn == Other(i)
  }

  // ----- what every step keeps

  /** The rounds a thread has entered in the counter. */
  function Stored(t: Thread): nat {
    t.rounds + if t.place.Leave? then 1 else 0
  }

  ghost predicate Good(n: nat, s: State, i: Id)
    requires Shaped(s)
  {
    var t, u := s.threads[i], s.threads[Other(i)];
    && (s.flag[i] <==> !t.place.Outside?)
    && (Inside(t) && (Trying(u) || Inside(u)) ==> s.turn == i)
    && (t.place.Store? ==> t.reg == s.counter)
    && t.rounds <= n && (t.rounds == n ==> t.place.Outside?)
  }

  ghost predicate Inv(n: nat, s: State) {
    && Shaped(s) && Good(n, s, 0) && Good(n, s, 1)
    && s.counter == Stored(s.threads[0]) - Stored(s.threads[1])
  }

  lemma StepInv(n: nat, s: State, i: Id)
    requires Inv(n, s) && !Finished(n, s, i)
    ensures Inv(n, Step(s, i))
  {
    assert i == 0 || i == 1;
  }

  lemma {:induction false} RunInv(n: nat, run: seq<State>)
    requires IsRun(n, run)
    ensures Inv(n, run[|run| - 1])
  {
    if |run| > 1 {
      var r, s := run[|run| - 2], run[|run| - 1];
      RunInv(n, run[..|run| - 1]);
      assert Next(n, r, s);
      var i: Id :| !Finished(n, r, i) && s == Step(r, i);
      StepInv(n, r, i);
    }
  }

  lemma ReachableInv(n: nat, s: State)
    requires Reachable(n, s)
    ensures Inv(n, s)
  {
    var run :| IsRun(n, run) && run[|run| - 1] == s;
    RunInv(n, run);
  }

  lemma Continued(n: nat, s: State, i: Id)
    requires Reachable(n, s) && Shaped(s) && !Finished(n, s, i)
    ensures Reachable(n, Step(s, i))
  {
    var run :| IsRun(n, run) && run[|run| - 1] == s;
    assert Next(n, s, Step(s, i));
    assert IsRun(n, run + [Step(s, i)]);
  }

  // ----- the guarantees

  lemma MutualExclusion(n: nat, s: State)
    requires Reachable(n, s)
    ensures Shaped(s) && !(Inside(s.threads[0]) && Inside(s.threads[1]))
  {
    ReachableInv(n, s);
  }

  /** The threads are never both blocked, and a blocked thread's partner still has steps to take. */
  lemma NeverStuck(n: nat, s: State, i: Id)
    requires Reachable(n, s)
    ensures Shaped(s)
    ensures Blocked(s, i) ==> !Blocked(s, Other(i)) && !Finished(n, s, Other(i))
  {
    ReachableInv(n, s);
    assert i == 0 || i == 1;
  }

  /** No update of the counter is lost: when both threads are done it is back at 0. */
  lemma CounterReturns(n: nat, s: State)
    requires Reachable(n, s) && Shaped(s) && Finished(n, s, 0) && Finished(n, s, 1)
    ensures s.counter == 0
  {
    ReachableInv(n, s);
  }

  // ----- how long a thread can wait

  /** Thread i is trying now and after each step of the schedule, which names the thread that takes each step. */
  ghost predicate WaitsThrough(n: nat, s: State, schedule: seq<Id>, i: Id)
    requires Shaped(s)
    decreases |schedule|
  {
    && Trying(s.threads[i])
    && (schedule != [] ==>
          !Finished(n, s, schedule[0]) && WaitsThrough(n, Step(s, schedule[0]), schedule[1..], i))
  }

  /** How often thread j enters the lock during the schedule. */
  ghost function Entries(s: State, schedule: seq<Id>, j: Id): nat
    requires Shaped(s)
    decreases |schedule|
  {
    if schedule == [] then 0
    else
      var t := Step(s, schedule[0]);
      (if !Inside(s.threads[j]) && Inside(t.threads[j]) then 1 else 0) + Entries(t, schedule[1..], j)
  }

  /** How many steps thread j takes during the schedule without being blocked. */
  ghost function FreeSteps(s: State, schedule: seq<Id>, j: Id): nat
    requires Shaped(s)
    decreases |schedule|
  {
    if schedule == [] then 0
    else
      (if schedule[0] == j && !Blocked(s, j) then 1 else 0) + FreeSteps(Step(s, schedule[0]), schedule[1..], j)
  }

  /** While the other thread keeps trying, thread j can still enter once if it is trying too and it is its turn. */
  function EntriesLeft(s: State, j: Id): nat
    requires Shaped(s)
  {
    if Trying(s.threads[j]) && s.turn == j then 1 else 0
  }

  /** ... and can still take this many steps before it is blocked. */
  function StepsLeft(s: State, j: Id): nat
    requires Shaped(s)
  {
    match s.threads[j].place
    case WriteTurn => 1
    case Outside => 2
    case Leave => 3
    case Store => 4
    case Load => 5
    case ReadTurn => if s.turn == j then 6 else 0
    case ReadFlag => if s.turn == j then 7 else 0
  }

  /** A thread that has written turn is overtaken at most once, and the other one can take at most seven steps
      before it is blocked in its turn. */
  lemma {:induction false} BoundedWait(n: nat, s: State, schedule: seq<Id>, i: Id)
    requires Inv(n, s) && WaitsThrough(n, s, schedule, i)
    ensures Entries(s, schedule, Other(i)) <= EntriesLeft(s, Other(i)) <= 1
    ensures FreeSteps(s, schedule, Other(i)) <= StepsLeft(s, Other(i)) <= 7
    decreases |schedule|
  {
    if schedule != [] {
      assert i == 0 || i == 1;
      StepInv(n, s, schedule[0]);
      BoundedWait(n, Step(s, schedule[0]), schedule[1..], i);
    }
  }

  lemma BoundedOvertaking(n: nat, s: State, schedule: seq<Id>, i: Id)
    requires Reachable(n, s) && Shaped(s) && WaitsThrough(n, s, schedule, i)
    ensures Entries(s, schedule, Other(i)) <= 1
    ensures FreeSteps(s, schedule, Other(i)) <= 7
  {
    ReachableInv(n, s);
    BoundedWait(n, s, schedule, i);
  }

  /** Once the other thread is blocked, or outside, two steps of its own let a waiting thread in. */
  lemma EntersInTwo(n: nat, s: State, i: Id)
    requires Reachable(n, s) && Shaped(s) && Trying(s.threads[i])
    requires Blocked(s, Other(i)) || s.threads[Other(i)].place.Outside?
    ensures Inside(Step(s, i).threads[i]) || Inside(Step(Step(s, i), i).threads[i])
  {
    ReachableInv(n, s);
    assert i == 0 || i == 1;
  }

  // ----- the program, in place

  class Program {
    const n: nat
    const flag: array<bool>
    var turn: Id
    var counter: int
    const threads: array<Thread>

    constructor (n: nat)
      ensures this.n == n && fresh(flag) && fresh(threads)
      ensures Valid() && Init(Now())
    {
      this.n := n;
      flag := new bool[2](_ => false);
      threads := new Thread[2](_ => Thread(Outside, 0, 0));
      turn, counter := 0, 0;
      new;
      assert flag[..] == [false, false];
      assert threads[..] == [Thread(Outside, 0, 0), Thread(Outside, 0, 0)];
      assert IsRun(n, [Now()]);
    }

    ghost function Now(): State
      reads this, flag, threads
    {
      State(flag[..], turn, counter, threads[..])
    }

    ghost predicate Valid()
      reads this, flag, threads
    {
      Shaped(Now()) && Reachable(n, Now())
    }

    /** Never both inside the lock, never both spinning, and the counter back at 0 in the end. */
    ghost predicate Safe()
      reads this, flag, threads
      requires Shaped(Now())
    {
      && !(Inside(threads[0]) && Inside(threads[1]))
      && !(Blocked(Now(), 0) && Blocked(Now(), 1))
      && (Finished(n, Now(), 0) && Finished(n, Now(), 1) ==> counter == 0)
    }

    /** The next atomic step of thread i. */
    method Run(i: Id)
      requires Valid() && !Finished(n, Now(), i)
      modifies this, flag, threads
      ensures Valid() && Safe()
      ensures Now() == old(Step(Now(), i))
    {
      ghost var s := Now();
      Continued(n, s, i);
      var j := 1 - i;
      var th := threads[i];
      match th.place {
        case Outside => flag[i], threads[i] := true, th.(place := WriteTurn);
        case WriteTurn => turn, threads[i] := j, th.(place := ReadFlag);
        case ReadFlag => threads[i] := th.(place := if flag[j] then ReadTurn else Load);
        case ReadTurn => threads[i] := th.(place := if turn == j then ReadFlag else Load);
        case Load => threads[i] := th.(place := Store, reg := counter);
        case Store =>
          counter := if i == 0 then th.reg + 1 else th.reg - 1;
          threads[i] := th.(place := Leave);
        case Leave => flag[i], threads[i] := false, th.(place := Outside, rounds := th.rounds + 1);
      }
      assert threads[..] == s.threads[i := threads[i]];
      assert Now() == Step(s, i);
      MutualExclusion(n, Now());
      NeverStuck(n, Now(), 0);
      if Finished(n, Now(), 0) && Finished(n, Now(), 1) { CounterReturns(n, Now()); }
    }
  }
}
