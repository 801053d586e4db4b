/** Dining philosophers, each taking the left chopstick before the right one. Philosopher i has chopstick i on the left
    and chopstick i + 1 on the right, the last one chopstick 0. */
module Philosophers {
  import opened Counting

  /** Waiting for the left chopstick, waiting for the right one, eating (holding both), about to put down the left one. */
  datatype Place = Hungry | HasLeft | Eating | PutsLeft

  datatype Philosopher = Philosopher(place: Place, meals: nat)

  datatype State = State(chopsticks: seq<int>, table: seq<Philosopher>)

  /** How many philosophers, how many rounds each. */
  datatype Config = Config(n: nat, rounds: nat)

  function Right(n: nat, i: nat): nat
    requires i < n
  {
    if i + 1 == n then 0 else i + 1
  }

  function Left(n: nat, i: nat): nat
    requires i < n
  {
    if i == 0 then n - 1 else i - 1
  }

  predicate Shaped(cfg: Config, s: State) {
    cfg.n >= 2 && |s.chopsticks| == |s.table| == cfg.n
  }

  ghost function Init(cfg: Config): State {
    State(seq(cfg.n, _ => 1), seq(cfg.n, _ => Philosopher(Hungry, 0)))
  }

  predicate Enabled(cfg: Config, s: State, i: nat)
    requires Shaped(cfg, s)
  {
    && i < cfg.n
    && (s.table[i].place.Hungry? ==> s.chopsticks[i] > 0 && s.table[i].meals < cfg.rounds)
    && (s.table[i].place.HasLeft? ==> s.chopsticks[Right(cfg.n, i)] > 0)
  }

  function Step(cfg: Config, s: State, i: nat): State
    requires Shaped(cfg, s) && i < cfg.n
  {
    var p, r := s.table[i], Right(cfg.n, i);
    match p.place
    case Hungry => State(s.chopsticks[i := s.chopsticks[i] - 1], s.table[i := p.(place := HasLeft)])
    case HasLeft => State(s.chopsticks[r := s.chopsticks[r] - 1], s.table[i := p.(place := Eating)])
    case Eating => State(s.chopsticks[r := s.chopsticks[r] + 1], s.table[i := p.(place := PutsLeft)])
    case PutsLeft => State(s.chopsticks[i := s.chopsticks[i] + 1], s.table[i := Philosopher(Hungry, p.meals + 1)])
  }

  ghost predicate Next(cfg: Config, s: State, t: State) {
    Shaped(cfg, s) && exists i :: Enabled(cfg, s, i) && t == Step(cfg, s, i)
  }

  /** States, each reached from the one before by a step. */
  ghost predicate IsPath(cfg: Config, path: seq<State>) {
    path != [] && forall i :: 0 <= i < |path| - 1 ==> Next(cfg, path[i], path[i + 1])
  }

  /** A path from the initial state. */
  ghost predicate IsRun(cfg: Config, run: seq<State>) {
    cfg.n >= 2 && IsPath(cfg, run) && run[0] == Init(cfg)
  }

  /** The states of all runs. */
  ghost predicate Reachable(cfg: Config, s: State) {
    exists run :: IsRun(cfg, run) && run[|run| - 1] == s
  }

  // ----- what every step keeps

  function HoldsLeft(p: Philosopher): int { if p.place.Hungry? then 0 else 1 }
  function HoldsRight(p: Philosopher): int { if p.place.Eating? then 1 else 0 }

  /** Every chopstick is on the table or in one hand of one of its two philosophers. */
  ghost predicate Inv(cfg: Config, s: State) {
    && Shaped(cfg, s)
    && forall i :: 0 <= i < cfg.n ==>
         && 0 <= s.chopsticks[i] == 1 - HoldsLeft(s.table[i]) - HoldsRight(s.table[Left(cfg.n, i)])
         && s.table[i].meals <= cfg.rounds
         && (s.table[i].meals == cfg.rounds ==> s.table[i].place.Hungry?)
  }

  lemma StepInv(cfg: Config, s: State, i: nat)
    requires Inv(cfg, s) && Enabled(cfg, s, i)
    ensures Inv(cfg, Step(cfg, s, i))
  {
    assert Left(cfg.n, Right(cfg.n, i)) == i;
  }

  lemma {:induction false} RunInv(cfg: Config, run: seq<State>)
    requires IsRun(cfg, run)
    ensures Inv(cfg, run[|run| - 1])
  {
    if |run| > 1 {
      var r, s := run[|run| - 2], run[|run| - 1];
      RunInv(cfg, run[..|run| - 1]);
      assert Next(cfg, r, s);
      var i :| Enabled(cfg, r, i) && s == Step(cfg, r, i);
      StepInv(cfg, r, i);
    }
  }

  lemma ReachableInv(cfg: Config, s: State)
    requires Reachable(cfg, s)
    ensures Inv(cfg, s)
  {
    var run :| IsRun(cfg, run) && run[|run| - 1] == s;
    RunInv(cfg, run);
  }

  lemma Extended(cfg: Config, run: seq<State>, i: nat)
    requires IsRun(cfg, run) && Shaped(cfg, run[|run| - 1]) && Enabled(cfg, run[|run| - 1], i)
    ensures IsRun(cfg, run + [Step(cfg, run[|run| - 1], i)])
  {
    assert Next(cfg, run[|run| - 1], Step(cfg, run[|run| - 1], i));
  }

  lemma Continued(cfg: Config, s: State, i: nat)
    requires Reachable(cfg, s) && Shaped(cfg, s) && Enabled(cfg, s, i)
    ensures Reachable(cfg, Step(cfg, s, i))
  {
    var run :| IsRun(cfg, run) && run[|run| - 1] == s;
    Extended(cfg, run, i);
  }

  // ----- the guarantees

  lemma NeighboursNeverEatTogether(cfg: Config, s: State, i: nat)
    requires Reachable(cfg, s) && i < cfg.n
    ensures Shaped(cfg, s) && !(s.table[i].place.Eating? && s.table[Right(cfg.n, i)].place.Eating?)
  {
    ReachableInv(cfg, s);
    var r := Right(cfg.n, i);
    assert s.chopsticks[r] == 1 - HoldsLeft(s.table[r]) - HoldsRight(s.table[Left(cfg.n, r)]);
  }

  ghost predicate Stuck(cfg: Config, s: State)
    requires Shaped(cfg, s)
  {
    && (forall i :: !Enabled(cfg, s, i))
    && exists i :: 0 <= i < cfg.n && s.table[i].meals < cfg.rounds
  }

  ghost predicate AllHoldLeft(cfg: Config, s: State)
    requires Shaped(cfg, s)
  {
    forall i :: 0 <= i < cfg.n ==> s.table[i].place.HasLeft?
  }

  /** When nobody can move, a philosopher waiting for the right chopstick sits next to another one. */
  lemma NextAlsoWaits(cfg: Config, s: State, i: nat)
    requires Inv(cfg, s) && (forall j :: !Enabled(cfg, s, j)) && i < cfg.n && s.table[i].place.HasLeft?
    ensures s.table[Right(cfg.n, i)].place.HasLeft?
  {
    var r := Right(cfg.n, i);
    assert Left(cfg.n, r) == i && !Enabled(cfg, s, i) && !Enabled(cfg, s, r);
  }

  lemma {:induction false} AllWait(cfg: Config, s: State, i: nat, k: nat)
    requires Inv(cfg, s) && (forall j :: !Enabled(cfg, s, j)) && i < cfg.n && s.table[i].place.HasLeft?
    ensures forall j :: i <= j < cfg.n && j <= i + k ==> s.table[j].place.HasLeft?
    ensures i + k >= cfg.n ==> forall j :: 0 <= j < cfg.n && j <= i + k - cfg.n ==> s.table[j].place.HasLeft?
  {
    if k > 0 {
      AllWait(cfg, s, i, k - 1);
      var last := i + k - 1;
      if last < cfg.n {
        NextAlsoWaits(cfg, s, last);
      } else if last - cfg.n < cfg.n {
        NextAlsoWaits(cfg, s, last - cfg.n);
      }
    }
  }

  /** The program stops before its end exactly when every philosopher holds the left chopstick. */
  lemma StuckIffAllHoldLeft(cfg: Config, s: State)
    requires Reachable(cfg, s)
    ensures Shaped(cfg, s) && (Stuck(cfg, s) <==> AllHoldLeft(cfg, s))
  {
    ReachableInv(cfg, s);
    if Stuck(cfg, s) {
      var i :| 0 <= i < cfg.n && s.table[i].meals < cfg.rounds;
      SomeHasLeft(cfg, s, i);
      var j :| 0 <= j < cfg.n && s.table[j].place.HasLeft?;
      AllWait(cfg, s, j, 2 * cfg.n);
    }
    if AllHoldLeft(cfg, s) {
      assert s.table[0].meals < cfg.rounds;
    }
  }

  lemma SomeHasLeft(cfg: Config, s: State, i: nat)
    requires Inv(cfg, s) && (forall j :: !Enabled(cfg, s, j)) && i < cfg.n && s.table[i].meals < cfg.rounds
    ensures exists j :: 0 <= j < cfg.n && s.table[j].place.HasLeft?
  {
    assert !Enabled(cfg, s, i);
    var l := Left(cfg.n, i);
    assert !Enabled(cfg, s, l);
  }

  /** The state after the first k philosophers each took their left chopstick. */
  ghost function FirstTook(cfg: Config, k: nat): State
    requires k <= cfg.n
  {
    State(seq(cfg.n, i => if i < k then 0 else 1), seq(cfg.n, i => Philosopher(if i < k then HasLeft else Hungry, 0)))
  }

  lemma {:induction false} FirstTookReachable(cfg: Config, k: nat)
    requires cfg.n >= 2 && cfg.rounds > 0 && k <= cfg.n
    ensures Reachable(cfg, FirstTook(cfg, k))
  {
    if k == 0 {
      assert FirstTook(cfg, 0) == Init(cfg);
      assert IsRun(cfg, [Init(cfg)]);
    } else {
      FirstTookReachable(cfg, k - 1);
      var r := FirstTook(cfg, k - 1);
      assert Enabled(cfg, r, k - 1);
      assert Step(cfg, r, k - 1) == FirstTook(cfg, k);
      Continued(cfg, r, k - 1);
    }
  }

  /** And that can happen, however many philosophers there are. */
  lemma CanGetStuck(cfg: Config)
    requires cfg.n >= 2 && cfg.rounds > 0
    ensures exists s :: Reachable(cfg, s) && Shaped(cfg, s) && Stuck(cfg, s)
  {
    FirstTookReachable(cfg, cfg.n);
    StuckIffAllHoldLeft(cfg, FirstTook(cfg, cfg.n));
  }

  /** How many steps a philosopher has taken. */
  function Taken(p: Philosopher): int {
    4 * p.meals + match p.place case Hungry => 0 case HasLeft => 1 case Eating => 2 case PutsLeft => 3
  }

  /** Nobody can go on for ever: every step counts ... */
  lemma EveryStepCounts(cfg: Config, s: State, t: State)
    requires Next(cfg, s, t)
    ensures Sum(t.table, Taken) == Sum(s.table, Taken) + 1
  {
    var i: nat :| Enabled(cfg, s, i) && t == Step(cfg, s, i);
    SumUpdate(s.table, Taken, i, t.table[i]);
  }

  /** ... and each philosopher takes at most 4 in a round. */
  lemma StepsBounded(cfg: Config, s: State)
    requires Reachable(cfg, s)
    ensures forall i :: 0 <= i < |s.table| ==> Taken(s.table[i]) <= 4 * cfg.rounds
  {
    ReachableInv(cfg, s);
  }

  lemma {:induction false} RunTaken(cfg: Config, run: seq<State>)
    requires IsRun(cfg, run)
    ensures Sum(run[|run| - 1].table, Taken) == |run| - 1
  {
    if |run| == 1 {
      SumZero(run[0].table, Taken);
    } else {
      RunTaken(cfg, run[..|run| - 1]);
      assert Next(cfg, run[|run| - 2], run[|run| - 1]);
      EveryStepCounts(cfg, run[|run| - 2], run[|run| - 1]);
    }
  }

  function Bound(cfg: Config): int { cfg.n * (4 * cfg.rounds) }

  lemma TakenBounded(cfg: Config, s: State)
    requires Reachable(cfg, s)
    ensures Sum(s.table, Taken) <= Bound(cfg)
  {
    ReachableInv(cfg, s);
    StepsBounded(cfg, s);
    SumAtMost(s.table, Taken, 4 * cfg.rounds);
  }

  lemma RunsAreFinite(cfg: Config, run: seq<State>)
    requires IsRun(cfg, run)
    ensures |run| <= Bound(cfg) + 1
  {
    RunTaken(cfg, run);
    TakenBounded(cfg, run[|run| - 1]);
  }

  ghost predicate Finished(cfg: Config, s: State) {
    forall i :: 0 <= i < |s.table| ==> s.table[i].meals == cfg.rounds
  }

  /** So every run comes to a state without a step, and that is the end of all rounds, or everybody holding the left chopstick. */
  lemma StopsIffFinishedOrStuck(cfg: Config, s: State)
    requires Reachable(cfg, s)
    ensures Shaped(cfg, s)
    ensures (forall i :: !Enabled(cfg, s, i)) <==> Finished(cfg, s) || AllHoldLeft(cfg, s)
  {
    ReachableInv(cfg, s);
    StuckIffAllHoldLeft(cfg, s);
  }

  lemma RunsEnd(cfg: Config, s: State) returns (path: seq<State>)
    requires Reachable(cfg, s)
    ensures IsPath(cfg, path) && path[0] == s && Shaped(cfg, path[|path| - 1])
    ensures Finished(cfg, path[|path| - 1]) || AllHoldLeft(cfg, path[|path| - 1])
    decreases Bound(cfg) - Sum(s.table, Taken)
  {
    TakenBounded(cfg, s);
    StopsIffFinishedOrStuck(cfg, s);
    if i :| Enabled(cfg, s, i) {
      Continued(cfg, s, i);
      assert Next(cfg, s, Step(cfg, s, i));
      EveryStepCounts(cfg, s, Step(cfg, s, i));
      path := RunsEnd(cfg, Step(cfg, s, i));
      path := [s] + path;
    } else {
      path := [s];
    }
  }

  /** All chopsticks on the table. */
  ghost function Laid(cfg: Config, table: seq<Philosopher>): State {
    State(seq(cfg.n, _ => 1), table)
  }

  /** One philosopher eats while the others wait. */
  lemma OneMeal(cfg: Config, table: seq<Philosopher>, i: nat)
    requires Reachable(cfg, Laid(cfg, table)) && |table| == cfg.n >= 2 && i < cfg.n
    requires table[i].place.Hungry? && table[i].meals < cfg.rounds
    ensures Reachable(cfg, Laid(cfg, table[i := Philosopher(Hungry, table[i].meals + 1)]))
  {
    var ones, r, p := seq(cfg.n, _ => 1), Right(cfg.n, i), table[i];
    var s1 := State(ones[i := 0], table[i := p.(place := HasLeft)]);
    var s2 := State(ones[i := 0][r := 0], table[i := p.(place := Eating)]);
    var s3 := State(ones[i := 0], table[i := p.(place := PutsLeft)]);
    Continued(cfg, Laid(cfg, table), i);
    assert Step(cfg, Laid(cfg, table), i) == s1;
    Continued(cfg, s1, i);
    assert Step(cfg, s1, i) == s2;
    Continued(cfg, s2, i);
    assert Step(cfg, s2, i) == s3;
    Continued(cfg, s3, i);
    assert ones[i := 0][i := 1] == ones;
  }

  lemma AllMeals(cfg: Config, table: seq<Philosopher>)
    requires Reachable(cfg, Laid(cfg, table)) && forall i :: 0 <= i < |table| ==> table[i].place.Hungry?
    ensures exists s :: Reachable(cfg, s) && Shaped(cfg, s) && Finished(cfg, s)
    decreases Bound(cfg) - Sum(table, Taken)
  {
    var s := Laid(cfg, table);
    ReachableInv(cfg, s);
    TakenBounded(cfg, s);
    if i :| 0 <= i < |table| && table[i].meals < cfg.rounds {
      var next := table[i := Philosopher(Hungry, table[i].meals + 1)];
      OneMeal(cfg, table, i);
      SumUpdate(table, Taken, i, next[i]);
      AllMeals(cfg, next);
    } else {
      MealsBounded(cfg, s);
      assert Finished(cfg, s);
    }
  }

  /** But getting stuck is not inevitable: some run finishes all rounds. */
  lemma CanFinish(cfg: Config)
    requires cfg.n >= 2
    ensures exists s :: Reachable(cfg, s) && Shaped(cfg, s) && Finished(cfg, s)
  {
    assert IsRun(cfg, [Init(cfg)]);
    assert Laid(cfg, Init(cfg).table) == Init(cfg);
    AllMeals(cfg, Init(cfg).table);
  }

  lemma MealsBounded(cfg: Config, s: State)
    requires Reachable(cfg, s)
    ensures forall i :: 0 <= i < |s.table| ==> s.table[i].meals <= cfg.rounds
  {
    ReachableInv(cfg, s);
  }

  // ----- the program, in place

  class Program {
    const cfg: Config
    const chopsticks: array<int>
    const table: array<Philosopher>

    constructor (cfg: Config)
      requires cfg.n >= 2
      ensures this.cfg == cfg && fresh(chopsticks) && fresh(table)
      ensures Valid() && Now() == Init(cfg)
    {
      this.cfg := cfg;
      chopsticks := new int[cfg.n](_ => 1);
      table := new Philosopher[cfg.n](_ => Philosopher(Hungry, 0));
      new;
      assert chopsticks[..] == Init(cfg).chopsticks;
      assert table[..] == Init(cfg).table;
      assert IsRun(cfg, [Now()]);
    }

    ghost function Now(): State
      reads chopsticks, table
    {
      State(chopsticks[..], table[..])
    }

    ghost predicate Valid()
      reads chopsticks, table
    {
      Shaped(cfg, Now()) && Reachable(cfg, Now())
    }

    /** Neighbours do not eat together, and no chopstick is taken twice. */
    ghost predicate Safe()
      reads chopsticks, table
      requires Shaped(cfg, Now())
    {
      && (forall i :: 0 <= i < cfg.n ==> 0 <= chopsticks[i] <= 1)
      && forall i :: 0 <= i < cfg.n ==> !(table[i].place.Eating? && table[Right(cfg.n, i)].place.Eating?)
    }

    lemma IsSafe()
      requires Valid()
      ensures Safe()
    {
      ReachableInv(cfg, Now());
      forall i | 0 <= i < cfg.n ensures !(table[i].place.Eating? && table[Right(cfg.n, i)].place.Eating?) {
        NeighboursNeverEatTogether(cfg, Now(), i);
      }
      forall i | 0 <= i < cfg.n ensures 0 <= chopsticks[i] <= 1 {
        assert chopsticks[i] == Now().chopsticks[i];
      }
    }

    /** The next atomic step of philosopher i. */
    method Run(i: nat)
      requires Valid() && Enabled(cfg, Now(), i)
      modifies chopsticks, table
      ensures Valid() && Safe()
      ensures Now() == Step(cfg, old(Now()), i)
    {
      ghost var s := Now();
      Continued(cfg, s, i);
      var p, left, right := table[i], i, Right(cfg.n, i);
      match p.place {
        case Hungry =>
          chopsticks[left] := chopsticks[left] - 1;
          table[i] := p.(place := HasLeft);
        case HasLeft =>
          chopsticks[right] := chopsticks[right] - 1;
          table[i] := p.(place := Eating);
        case Eating =>
          chopsticks[right] := chopsticks[right] + 1;
          table[i] := p.(place := PutsLeft);
        case PutsLeft =>
          chopsticks[left] := chopsticks[left] + 1;
          table[i] := p.(place := Hungry, meals := p.meals + 1);
      }
      assert table[..] == s.table[i := table[i]];
      IsSafe();
    }
  }
}
