/** Throwers that move balls from a counter to bins, and the main thread that adds the bins up without locking them. */
module BallsAndBins {
  import opened Counting

  const BINS := 11

  /** At the head of the loop, with a ball in hand, with its bin updated but not yet the count of balls thrown, and gone.
      Each update is under a mutex of its own, so it is one step. */
  datatype Thrower = AtHead | InHand(bin: nat) | Landed | Gone

  /** The main thread polls the count of thrown balls; then it adds up the bins, `at` the next one. */
  datatype Main = Polling | Adding(at: nat, total: int)

  /** `rolled` are the rolls of the balls taken so far. */
  datatype State = State(waiting: int, thrown: int, bins: seq<int>, throwers: seq<Thrower>, main: Main, rolled: seq<seq<bool>>)

  datatype Action = Throw(i: nat, rolls: seq<bool>) | Poll | Add

  datatype Config = Config(balls: nat, throwers: nat)

  /** throwBall(): one step to the right for every roll above one half. */
  method ThrowBall(rolls: seq<bool>) returns (bin: nat)
    requires |rolls| == BINS - 1
    ensures bin == Count(rolls, IsRight) && bin < BINS
  {
    bin := 0;
    for i := 0 to BINS - 1
      invariant bin == Count(rolls[..i], IsRight) <= i
    {
      assert rolls[..i + 1][..i] == rolls[..i];
      if rolls[i] { bin := bin + 1; }
    }
    assert rolls[..BINS - 1] == rolls;
  }

  predicate IsRight(roll: bool) { roll }

  ghost function Init(cfg: Config): State {
    State(cfg.balls, 0, seq(BINS, _ => 0), seq(cfg.throwers, _ => AtHead), Polling, [])
  }

  predicate Enabled(s: State, a: Action) {
    match a
    case Throw(i, rolls) => i < |s.throwers| && !s.throwers[i].Gone? && |rolls| == BINS - 1
    case Poll => s.main.Polling?
    case Add => s.main.Adding? && s.main.at < |s.bins|
  }

  predicate InBounds(s: State) {
    |s.bins| == BINS && forall i :: 0 <= i < |s.throwers| && s.throwers[i].InHand? ==> s.throwers[i].bin < BINS
  }

  function Step(cfg: Config, s: State, a: Action): State
    requires Enabled(s, a) && InBounds(s)
  {
    match a
    case Throw(i, rolls) =>
      (match s.throwers[i]
       case AtHead =>
         if s.waiting > 0 then
           s.(waiting := s.waiting - 1, throwers := s.throwers[i := InHand(Count(rolls, IsRight))], rolled := s.rolled + [rolls])
         else s.(throwers := s.throwers[i := Gone])
       case InHand(bin) => s.(bins := s.bins[bin := s.bins[bin] + 1], throwers := s.throwers[i := Landed])
       case Landed => s.(thrown := s.thrown + 1, throwers := s.throwers[i := AtHead]))
    case Poll => if s.thrown < cfg.balls then s else s.(main := Adding(0, 0))
    case Add => s.(main := Adding(s.main.at + 1, s.main.total + s.bins[s.main.at]))
  }

  ghost predicate Next(cfg: Config, s: State, t: State) {
    InBounds(s) && exists a :: Enabled(s, a) && t == Step(cfg, s, a)
  }

  /** A run: from the initial state, one step after the other. */
  ghost predicate IsRun(cfg: Config, run: seq<State>) {
    && run != [] && run[0] == Init(cfg)
    && forall i :: 0 <= i < |run| - 1 ==> Next(cfg, run[i], run[i + 1])
  }

  /** The states of all runs. */
  ghost predicate Reachable(cfg: Config, s: State) {
    exists run :: IsRun(cfg, run) && run[|run| - 1] == s
  }

  // ----- what every step keeps

  predicate HasBall(t: Thrower) { t.InHand? }
  predicate HasLanded(t: Thrower) { t.Landed? }
  function Value(x: int): int { x }

  ghost predicate Inv(cfg: Config, s: State) {
    && InBounds(s) && |s.throwers| == cfg.throwers && s.waiting >= 0
    && s.waiting + Count(s.throwers, HasBall) + Sum(s.bins, Value) == cfg.balls
    && Sum(s.bins, Value) == s.thrown + Count(s.throwers, HasLanded)
    && (s.main.Adding? ==>
          s.main.at <= BINS && s.thrown >= cfg.balls && s.main.total == Sum(s.bins[..s.main.at], Value))
  }

  lemma {:induction false} CountRights(rolls: seq<bool>)
    ensures Count(rolls, IsRight) <= |rolls|
  {
    if rolls != [] { CountRights(rolls[..|rolls| - 1]); }
  }

  lemma ThrowKeeps(cfg: Config, s: State, i: nat, rolls: seq<bool>)
    requires Inv(cfg, s) && Enabled(s, Throw(i, rolls))
    ensures Inv(cfg, Step(cfg, s, Throw(i, rolls)))
  {
    var t := Step(cfg, s, Throw(i, rolls));
    CountRights(rolls);
    CountUpdate(s.throwers, HasBall, i, t.throwers[i]);
    CountUpdate(s.throwers, HasLanded, i, t.throwers[i]);
    if s.throwers[i].InHand? {
      var bin := s.throwers[i].bin;
      SumUpdate(s.bins, Value, bin, s.bins[bin] + 1);
    }
  }

  lemma StepInv(cfg: Config, s: State, a: Action)
    requires Inv(cfg, s) && Enabled(s, a)
    ensures Inv(cfg, Step(cfg, s, a))
  {
    match a
    case Throw(i, rolls) => ThrowKeeps(cfg, s, i, rolls);
    case Poll =>
    case Add => assert s.bins[..s.main.at + 1][..s.main.at] == s.bins[..s.main.at];
  }

  lemma InitInv(cfg: Config)
    ensures Inv(cfg, Init(cfg))
  {
    CountPositive(Init(cfg).throwers, HasBall);
    CountPositive(Init(cfg).throwers, HasLanded);
    SumZero(Init(cfg).bins, Value);
  }

  lemma {:induction false} RunInv(cfg: Config, run: seq<State>)
    requires IsRun(cfg, run)
    ensures Inv(cfg, run[|run| - 1])
  {
    if |run| == 1 {
      InitInv(cfg);
    } else {
      var r, s := run[|run| - 2], run[|run| - 1];
      RunInv(cfg, run[..|run| - 1]);
      assert Next(cfg, r, s);
      var a :| Enabled(r, a) && s == Step(cfg, r, a);
      StepInv(cfg, r, a);
    }
  }

  lemma ReachableInv(cfg: Config, s: State)
    requires Reachable(cfg, s)
    ensures Inv(cfg, s)
  {
    var run :| IsRun(cfg, run) && run[|run| - 1] == s;
    RunInv(cfg, run);
  }

  lemma Continued(cfg: Config, s: State, a: Action)
    requires Reachable(cfg, s) && InBounds(s) && Enabled(s, a)
    ensures Reachable(cfg, Step(cfg, s, a))
  {
    var run :| IsRun(cfg, run) && run[|run| - 1] == s;
    assert Next(cfg, s, Step(cfg, s, a));
    assert IsRun(cfg, run + [Step(cfg, s, a)]);
  }

  // ----- the guarantees

  /** Balls are never lost or made: each is waiting, in a hand or in a bin; and the bins are ahead of the count of thrown balls
      by the throwers between the two updates. */
  lemma Conservation(cfg: Config, s: State)
    requires Reachable(cfg, s)
    ensures s.waiting + Count(s.throwers, HasBall) + Sum(s.bins, Value) == cfg.balls
    ensures Sum(s.bins, Value) - s.thrown == Count(s.throwers, HasLanded)
    ensures s.waiting >= 0 && InBounds(s)
  {
    ReachableInv(cfg, s);
  }

  // ----- the single bins

  function InBin(b: nat): Thrower -> bool { (t: Thrower) => t == InHand(b) }
  function EndsIn(b: nat): seq<bool> -> bool { (rolls: seq<bool>) => Count(rolls, IsRight) == b }

  /** Each throw that ends in bin b is in that bin, or in the hand of a thrower about to put it there. */
  ghost predicate BinRight(cfg: Config, s: State, b: nat) {
    && InBounds(s) && b < BINS
    && s.bins[b] + Count(s.throwers, InBin(b)) == Count(s.rolled, EndsIn(b))
    && s.waiting + |s.rolled| == cfg.balls
  }

  lemma CountOneMore<T>(s: seq<T>, p: T -> bool, x: T)
    ensures Count(s + [x], p) == Count(s, p) + Bit(p(x))
  {
    assert (s + [x])[..|s|] == s;
  }

  lemma StepBinRight(cfg: Config, s: State, a: Action, b: nat)
    requires BinRight(cfg, s, b) && Enabled(s, a)
    ensures BinRight(cfg, Step(cfg, s, a), b)
  {
    if a.Throw? {
      CountRights(a.rolls);
      CountUpdate(s.throwers, InBin(b), a.i, Step(cfg, s, a).throwers[a.i]);
      CountOneMore(s.rolled, EndsIn(b), a.rolls);
    }
  }

  lemma {:induction false} RunBinRight(cfg: Config, run: seq<State>, b: nat)
    requires IsRun(cfg, run) && b < BINS
    ensures BinRight(cfg, run[|run| - 1], b)
  {
    if |run| == 1 {
      CountNone(run[0].throwers, InBin(b));
    } else {
      var r, s := run[|run| - 2], run[|run| - 1];
      RunBinRight(cfg, run[..|run| - 1], b);
      assert Next(cfg, r, s);
      var a :| Enabled(r, a) && s == Step(cfg, r, a);
      StepBinRight(cfg, r, a, b);
    }
  }

  /** A bin and the hands of the throwers on their way to it hold exactly the balls whose rolls went to the right b times. */
  lemma BinCounts(cfg: Config, s: State, b: nat)
    requires Reachable(cfg, s) && b < BINS
    ensures |s.bins| == BINS && s.bins[b] + Count(s.throwers, InBin(b)) == Count(s.rolled, EndsIn(b))
    ensures s.waiting + |s.rolled| == cfg.balls
  {
    var run :| IsRun(cfg, run) && run[|run| - 1] == s;
    RunBinRight(cfg, run, b);
  }

  /** A ball that is taken is on record with its own rolls, and comes to the hand for the bin they lead to. */
  lemma TakesBall(cfg: Config, s: State, i: nat, rolls: seq<bool>)
    requires InBounds(s) && Enabled(s, Throw(i, rolls)) && s.throwers[i].AtHead? && s.waiting > 0
    ensures
      var t := Step(cfg, s, Throw(i, rolls));
      && t.rolled == s.rolled + [rolls] && t.waiting == s.waiting - 1
      && t.throwers[i].InHand? && EndsIn(t.throwers[i].bin)(rolls)
  {
  }

  /** So what main finds in a bin is the number of balls that ended there, of all the balls. */
  lemma BinsAreThrows(cfg: Config, s: State, b: nat)
    requires Reachable(cfg, s) && s.main.Adding? && b < BINS
    ensures |s.bins| == BINS && s.bins[b] == Count(s.rolled, EndsIn(b)) && |s.rolled| == cfg.balls
  {
    BinCounts(cfg, s, b);
    ReachableInv(cfg, s);
    CountPositive(s.throwers, HasBall);
    forall i | 0 <= i < |s.throwers| ensures !InBin(b)(s.throwers[i]) {
      assert !HasBall(s.throwers[i]);
    }
    CountNone(s.throwers, InBin(b));
  }

  // ----- all balls are thrown

  /** How many steps the throwers can still take. */
  function Left(t: Thrower): int {
    match t case InHand(_) => 3 case Landed => 2 case AtHead => 1 case Gone => 0
  }

  function AllLeft(s: State): int { 3 * s.waiting + Sum(s.throwers, Left) }

  lemma ThrowCounts(cfg: Config, s: State, i: nat, rolls: seq<bool>)
    requires InBounds(s) && Enabled(s, Throw(i, rolls))
    ensures AllLeft(Step(cfg, s, Throw(i, rolls))) == AllLeft(s) - 1
  {
    SumUpdate(s.throwers, Left, i, Step(cfg, s, Throw(i, rolls)).throwers[i]);
  }

  lemma {:induction false} SumLeft(ts: seq<Thrower>)
    ensures Sum(ts, Left) >= 0
  {
    if ts != [] { SumLeft(ts[..|ts| - 1]); }
  }

  /** A thrower leaves only when no ball is waiting; when all have left, all balls have been thrown. */
  lemma GoneOnlyWhenNoneWaits(cfg: Config, s: State)
    requires Reachable(cfg, s)
    ensures forall i :: 0 <= i < |s.throwers| && s.throwers[i].Gone? ==> s.waiting == 0
    ensures cfg.throwers > 0 && (forall i :: 0 <= i < |s.throwers| ==> s.throwers[i].Gone?) ==> s.thrown == cfg.balls
  {
    var run :| IsRun(cfg, run) && run[|run| - 1] == s;
    RunGone(cfg, run);
    ReachableInv(cfg, s);
    if forall i :: 0 <= i < |s.throwers| ==> s.throwers[i].Gone? {
      CountNone(s.throwers, HasBall);
      CountNone(s.throwers, HasLanded);
    }
  }

  lemma {:induction false} RunGone(cfg: Config, run: seq<State>)
    requires IsRun(cfg, run)
    ensures var s := run[|run| - 1]; forall i :: 0 <= i < |s.throwers| && s.throwers[i].Gone? ==> s.waiting == 0
  {
    if |run| > 1 {
      var r, s := run[|run| - 2], run[|run| - 1];
      assert IsRun(cfg, run[..|run| - 1]);
      RunGone(cfg, run[..|run| - 1]);
      ReachableInv(cfg, r);
      assert Next(cfg, r, s);
      var a :| Enabled(r, a) && s == Step(cfg, r, a);
    }
  }

  /** From every reachable state main can come to see all balls thrown, if there are throwers at all. */
  lemma CanSeeAllThrown(cfg: Config, s: State) returns (t: State, path: seq<State>)
    requires Reachable(cfg, s) && cfg.throwers > 0
    ensures path != [] && path[0] == s && path[|path| - 1] == t && t.main.Adding?
    ensures forall i :: 0 <= i < |path| - 1 ==> Next(cfg, path[i], path[i + 1])
    decreases AllLeft(s)
  {
    ReachableInv(cfg, s);
    SumLeft(s.throwers);
    if s.main.Adding? {
      t, path := s, [s];
    } else if i: nat :| i < |s.throwers| && !s.throwers[i].Gone? {
      var rolls := seq(BINS - 1, _ => true);
      Continued(cfg, s, Throw(i, rolls));
      ThrowCounts(cfg, s, i, rolls);
      assert Next(cfg, s, Step(cfg, s, Throw(i, rolls)));
      t, path := CanSeeAllThrown(cfg, Step(cfg, s, Throw(i, rolls)));
      path := [s] + path;
    } else {
      GoneOnlyWhenNoneWaits(cfg, s);
      t := Step(cfg, s, Poll);
      assert Next(cfg, s, t);
      path := [s, t];
    }
  }

  // ----- the sum

  /** Once the main thread has seen all balls thrown no bin changes any more, though nothing stops the throwers from running. */
  lemma BinsSettled(cfg: Config, s: State, t: State)
    requires Reachable(cfg, s) && s.main.Adding? && Next(cfg, s, t)
    ensures t.bins == s.bins
  {
    ReachableInv(cfg, s);
    CountPositive(s.throwers, HasBall);
  }

  /** So the total it adds up without locks is the number of balls. */
  lemma TotalIsBalls(cfg: Config, s: State)
    requires Reachable(cfg, s) && s.main.Adding? && s.main.at == BINS
    ensures s.main.total == cfg.balls
  {
    ReachableInv(cfg, s);
    assert s.bins[..BINS] == s.bins;
  }

  // ----- the program, in place

  class Program {
    const cfg: Config
    var waiting: int
    var thrown: int
    const bins: array<int>
    const throwers: array<Thrower>
    var main: Main
    ghost var rolled: seq<seq<bool>>

    constructor (cfg: Config)
      ensures this.cfg == cfg && fresh(bins) && fresh(throwers)
      ensures Valid() && Now() == Init(cfg)
    {
      this.cfg := cfg;
      waiting, thrown, main, rolled := cfg.balls, 0, Polling, [];
      bins := new int[BINS](_ => 0);
      throwers := new Thrower[cfg.throwers](_ => AtHead);
      new;
      assert bins[..] == Init(cfg).bins;
      assert throwers[..] == Init(cfg).throwers;
      assert IsRun(cfg, [Now()]);
    }

    ghost function Now(): State
      reads this, bins, throwers
    {
      State(waiting, thrown, bins[..], throwers[..], main, rolled)
    }

    ghost predicate Valid()
      reads this, bins, throwers
    {
      InBounds(Now()) && Reachable(cfg, Now())
    }

    /** No ball is lost or made, each is in its own bin, and a total that is complete is the number of balls. */
    ghost predicate Safe()
      reads this, bins, throwers
      requires bins.Length == BINS
    {
      && waiting + Count(throwers[..], HasBall) + Sum(bins[..], Value) == cfg.balls
      && (main.Adding? && main.at == BINS ==> main.total == cfg.balls)
      && (forall b :: 0 <= b < BINS ==> bins[b] + Count(throwers[..], InBin(b)) == Count(rolled, EndsIn(b)))
    }

    lemma Stepped(s: State, a: Action)
      requires InBounds(s) && Reachable(cfg, s) && Enabled(s, a) && Now() == Step(cfg, s, a)
      ensures Valid() && Safe()
    {
      Continued(cfg, s, a);
      Conservation(cfg, Now());
      forall b | 0 <= b < BINS ensures bins[b] + Count(throwers[..], InBin(b)) == Count(rolled, EndsIn(b)) {
        BinCounts(cfg, Now(), b);
      }
      if main.Adding? && main.at == BINS { TotalIsBalls(cfg, Now()); }
    }

    /** One look of the main thread at the count of thrown balls. */
    method Look()
      requires Valid() && Enabled(Now(), Poll)
      modifies this
      ensures Valid() && Safe()
      ensures Now() == Step(cfg, old(Now()), Poll)
    {
      ghost var s := Now();
      if !(thrown < cfg.balls) { main := Adding(0, 0); }
      Stepped(s, Poll);
    }

    /** The loop of the main thread over the bins, when the throwers do not happen to run in between. */
    method AddUp() returns (total: int)
      requires Valid() && main == Adding(0, 0)
      modifies `main
      ensures Valid() && total == cfg.balls
    {
      while main.at < bins.Length
        invariant Valid() && main.Adding? && main.at <= bins.Length
        decreases bins.Length - main.at
      {
        ghost var s := Now();
        main := Adding(main.at + 1, main.total + bins[main.at]);
        Stepped(s, Add);
      }
      TotalIsBalls(cfg, Now());
      total := main.total;
    }

    /** The next step of thrower i: one of the three places where it holds a mutex. */
    method RunThrower(i: nat, rolls: seq<bool>)
      requires Valid() && Enabled(Now(), Throw(i, rolls))
      modifies this, bins, throwers
      ensures Valid() && Safe()
      ensures Now() == Step(cfg, old(Now()), Throw(i, rolls))
    {
      ghost var s := Now();
      match throwers[i] {
        case AtHead =>
          if waiting > 0 {
            waiting := waiting - 1;
            var bin := ThrowBall(rolls);
            throwers[i] := InHand(bin);
            rolled := rolled + [rolls];
          } else {
            throwers[i] := Gone;
          }
        case InHand(bin) =>
          bins[bin] := bins[bin] + 1;
          throwers[i] := Landed;
        case Landed =>
          thrown := thrown + 1;
          throwers[i] := AtHead;
      }
      Stepped(s, Throw(i, rolls));
    }
  }
}
