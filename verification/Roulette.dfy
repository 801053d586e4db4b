/** The roulette of Lab 5: a croupier and any number of players, each joined to it by a pipe in both directions.
    A pipe is the sequence of integers written and not yet read; reading an empty one waits, or reports the end if the writer has left. */
module Roulette {
  import opened Counting

  const NUMBERS := 37

  /** About to decide, having written the amount, waiting for the lucky number, and gone. */
  datatype Seat = Deciding | WroteAmount | Waiting | Gone

  /** `bets` is what the player has bet, `received` the lucky numbers it has read, `collected` the bets the croupier has read from it. */
  datatype Player = Player(seat: Seat, money: int, amount: int, number: int, toCroupier: seq<int>, toPlayer: seq<int>,
                           bets: seq<(int, int)>, received: seq<int>, collected: seq<(int, int)>)

  /** Reading the amount and then the number of player i; writing the lucky number to player i; the end, and the error exits:
      a bet cut short, or a write to a player that has gone. */
  datatype Phase = Collect(i: nat) | CollectNumber(i: nat, amount: int) | Pay(i: nat) | Stopped | Failed

  datatype State = State(players: seq<Player>, open: seq<bool>, count: int, phase: Phase, draws: seq<int>)

  datatype Action = Bet(p: nat, amount: int, number: int) | Leave(p: nat) | PlayOn(p: nat) | Deal | Draw(lucky: int)

  datatype Config = Config(n: nat, money: int)

  ghost function Init(cfg: Config): State {
    State(seq(cfg.n, _ => Player(Deciding, cfg.money, 0, 0, [], [], [], [], [])), seq(cfg.n, _ => true), cfg.n, Collect(0), [])
  }

  predicate Shaped(cfg: Config, s: State) {
    && |s.players| == |s.open| == cfg.n
    && match s.phase
       case Collect(i) => i <= cfg.n
       case CollectNumber(i, _) => i < cfg.n
       case Pay(i) => i <= cfg.n && s.draws != []
       case _ => true
  }

  predicate Enabled(cfg: Config, s: State, a: Action)
    requires Shaped(cfg, s)
  {
    match a
    case Bet(p, amount, number) =>
      p < cfg.n && s.players[p].seat.Deciding? && 1 <= amount <= s.players[p].money && 0 <= number < NUMBERS
    case Leave(p) => p < cfg.n && s.players[p].seat.Deciding?
    case PlayOn(p) => p < cfg.n && (s.players[p].seat.WroteAmount? || (s.players[p].seat.Waiting? && s.players[p].toPlayer != []))
    case Draw(lucky) => 0 <= lucky < NUMBERS && s.phase == Collect(cfg.n) && s.count > 0
    case Deal =>
      match s.phase
      case Collect(i) =>
        if i == cfg.n then s.count <= 0
        else !s.open[i] || s.players[i].toCroupier != [] || s.players[i].seat.Gone?
      case CollectNumber(i, _) => s.players[i].toCroupier != [] || s.players[i].seat.Gone?
      case Pay(_) => true
      case _ => false
  }

  /** The step of one player. */
  function Played(q: Player, a: Action): Player {
    match a
    case Bet(_, amount, number) =>
      q.(seat := WroteAmount, amount := amount, number := number, toCroupier := q.toCroupier + [amount])
    case Leave(_) => q.(seat := Gone)
    case _ =>
      if q.seat.WroteAmount? then
        q.(seat := Waiting, toCroupier := q.toCroupier + [q.number], bets := q.bets + [(q.amount, q.number)])
      else if q.toPlayer == [] then q
      else
        var lucky := q.toPlayer[0];
        var money := if lucky == q.number then q.money + 35 * q.amount else q.money - q.amount;
        q.(seat := if money <= 0 then Gone else Deciding, money := money,
           toPlayer := q.toPlayer[1..], received := q.received + [lucky])
  }

  function Dealt(cfg: Config, s: State): State
    requires Shaped(cfg, s) && Enabled(cfg, s, Deal)
  {
    match s.phase
    case Collect(i) =>
      if i == cfg.n then s.(phase := Stopped)
      else
        var q := s.players[i];
        if !s.open[i] then s.(phase := Collect(i + 1))
        else if q.toCroupier != [] then
          s.(players := s.players[i := q.(toCroupier := q.toCroupier[1..])], phase := CollectNumber(i, q.toCroupier[0]))
        else s.(open := s.open[i := false], count := s.count - 1, phase := Collect(i + 1))
    case CollectNumber(i, amount) =>
      var q := s.players[i];
      if q.toCroupier == [] then s.(phase := Failed)
      else
        s.(players := s.players[i := q.(toCroupier := q.toCroupier[1..], collected := q.collected + [(amount, q.toCroupier[0])])],
           phase := Collect(i + 1))
    case Pay(i) =>
      if i == cfg.n then s.(phase := Collect(0))
      else
        var q := s.players[i];
        if !s.open[i] then s.(phase := Pay(i + 1))
        else if q.seat.Gone? then s.(phase := Failed)
        else s.(players := s.players[i := q.(toPlayer := q.toPlayer + [s.draws[|s.draws| - 1]])], phase := Pay(i + 1))
  }

  function Step(cfg: Config, s: State, a: Action): State
    requires Shaped(cfg, s) && Enabled(cfg, s, a)
  {
    match a
    case Draw(lucky) => s.(draws := s.draws + [lucky], phase := Pay(0))
    case Deal => Dealt(cfg, s)
    case _ => s.(players := s.players[a.p := Played(s.players[a.p], a)])
  }

  ghost predicate Next(cfg: Config, s: State, t: State) {
    Shaped(cfg, s) && exists a :: Enabled(cfg, s, a) && t == Step(cfg, s, a)
  }

  /** A run: from the initial state, one step after the other. */
  ghost predicate IsRun(cfg: Config, run: seq<State>) {
    && cfg.n >= 1 && cfg.money >= 1 && run != [] && run[0] == Init(cfg)
    && forall i :: 0 <= i < |run| - 1 ==> Next(cfg, run[i], run[i + 1])
  }

  /** The states of all runs. */
  ghost predicate Reachable(cfg: Config, s: State) {
    exists run :: IsRun(cfg, run) && run[|run| - 1] == s
  }

  // ----- what every step keeps

  /** How far the croupier is with one player in the present round: its bet is still to be read, half read, or read. */
  datatype Progress = Before | Halfway(amount: int) | Read

  function ProgressWith(phase: Phase, p: nat): Progress {
    match phase
    case Collect(i) => if p < i then Read else Before
    case CollectNumber(i, amount) => if p < i then Read else if p == i then Halfway(amount) else Before
    case Pay(i) => if p < i then Before else Read
    case _ => Before
  }

  /** How many draws have been written to player p, as long as it is in the game. */
  function Announced(s: State, p: nat): int {
    |s.draws| - if s.phase.Pay? && p >= s.phase.i then 1 else 0
  }

  predicate Solvent(q: Player) {
    && q.money >= 0
    && (q.seat.Deciding? ==> q.money > 0)
    && (q.seat.WroteAmount? || q.seat.Waiting? ==> 1 <= q.amount <= q.money)
  }

  /** Player and croupier in step: which of the amount, the number and the lucky number are under way between them. */
  predicate LockStep(q: Player, progress: Progress) {
    match progress
    case Read => q.seat.Waiting? && q.toCroupier == [] && q.toPlayer == [] && q.collected == q.bets
    case Halfway(amount) =>
      && q.toPlayer == [] && amount == q.amount
      && ((q.seat.WroteAmount? && q.toCroupier == [] && q.collected == q.bets)
          || (q.seat.Waiting? && q.toCroupier == [q.number] && q.bets == q.collected + [(q.amount, q.number)]))
    case Before =>
      match q.seat
      case WroteAmount => q.toCroupier == [q.amount] && q.toPlayer == [] && q.collected == q.bets
      case Waiting =>
        || (q.toCroupier == [q.amount, q.number] && q.toPlayer == [] && q.bets == q.collected + [(q.amount, q.number)])
        || (q.toCroupier == [] && |q.toPlayer| == 1 && q.collected == q.bets)
      case _ => q.toCroupier == [] && q.toPlayer == [] && q.collected == q.bets
  }

  ghost predicate Right(s: State, p: nat)
    requires p < |s.players| == |s.open|
  {
    var q := s.players[p];
    && Solvent(q)
    && if s.open[p] then
         && LockStep(q, ProgressWith(s.phase, p))
         && 0 <= Announced(s, p) && q.received + q.toPlayer == s.draws[..Announced(s, p)]
       else
         q.seat.Gone? && q.collected == q.bets && q.received <= s.draws
  }

  predicate IsOpen(b: bool) { b }

  ghost predicate Inv(cfg: Config, s: State) {
    && Shaped(cfg, s) && !s.phase.Failed?
    && s.count == Count(s.open, IsOpen)
    && (s.phase.Stopped? ==> s.count <= 0)
    && (s.phase.CollectNumber? ==> s.open[s.phase.i])
    && forall p :: 0 <= p < cfg.n ==> Right(s, p)
  }

  lemma PlayedInStep(q: Player, a: Action, progress: Progress)
    requires Solvent(q) && LockStep(q, progress) && (a.Bet? || a.Leave? || a.PlayOn?)
    requires match a
             case Bet(_, amount, number) => q.seat.Deciding? && 1 <= amount <= q.money
             case Leave(_) => q.seat.Deciding?
             case _ => q.seat.WroteAmount? || (q.seat.Waiting? && q.toPlayer != [])
    ensures Solvent(Played(q, a)) && LockStep(Played(q, a), progress)
    ensures Played(q, a).received + Played(q, a).toPlayer == q.received + q.toPlayer
  {
    if a.PlayOn? && q.seat.Waiting? {
      assert q.toPlayer == [q.toPlayer[0]] + q.toPlayer[1..];
    }
  }

  lemma PlayerKeeps(cfg: Config, s: State, a: Action)
    requires Inv(cfg, s) && Enabled(cfg, s, a) && (a.Bet? || a.Leave? || a.PlayOn?)
    ensures Inv(cfg, Step(cfg, s, a))
  {
    var t := Step(cfg, s, a);
    assert Right(s, a.p);
    PlayedInStep(s.players[a.p], a, ProgressWith(s.phase, a.p));
    forall p | 0 <= p < cfg.n ensures Right(t, p) {
      assert Right(s, p);
    }
  }

  lemma DrawKeeps(cfg: Config, s: State, lucky: int)
    requires Inv(cfg, s) && Enabled(cfg, s, Draw(lucky))
    ensures Inv(cfg, Step(cfg, s, Draw(lucky)))
  {
    var t := Step(cfg, s, Draw(lucky));
    forall p | 0 <= p < cfg.n ensures Right(t, p) {
      assert Right(s, p);
      assert t.draws[..|s.draws|] == s.draws == s.draws[..|s.draws|];
    }
  }

  /** A step of the croupier at player i brings the others no further. */
  lemma OthersKept(cfg: Config, s: State, t: State, p: nat)
    requires Shaped(cfg, s) && Shaped(cfg, t) && p < cfg.n
    requires t.players[p] == s.players[p] && t.open[p] == s.open[p] && t.draws == s.draws
    requires Right(s, p)
    requires s.open[p] ==> ProgressWith(t.phase, p) == ProgressWith(s.phase, p) && Announced(t, p) == Announced(s, p)
    ensures Right(t, p)
  {
  }

  lemma CollectKeeps(cfg: Config, s: State)
    requires Inv(cfg, s) && Enabled(cfg, s, Deal) && s.phase.Collect? && s.phase.i < cfg.n
    ensures Inv(cfg, Dealt(cfg, s))
  {
    var t, i := Dealt(cfg, s), s.phase.i;
    CountUpdate(s.open, IsOpen, i, false);
    forall p | 0 <= p < cfg.n ensures Right(t, p) {
      assert Right(s, p);
      if p != i { OthersKept(cfg, s, t, p); }
    }
  }

  lemma CollectNumberKeeps(cfg: Config, s: State)
    requires Inv(cfg, s) && Enabled(cfg, s, Deal) && s.phase.CollectNumber?
    ensures Inv(cfg, Dealt(cfg, s))
  {
    var t, i := Dealt(cfg, s), s.phase.i;
    assert Right(s, i);
    forall p | 0 <= p < cfg.n ensures Right(t, p) {
      assert Right(s, p);
      if p != i { OthersKept(cfg, s, t, p); }
    }
  }

  lemma PayKeeps(cfg: Config, s: State)
    requires Inv(cfg, s) && s.phase.Pay? && s.phase.i < cfg.n
    ensures Inv(cfg, Dealt(cfg, s))
  {
    var t, i := Dealt(cfg, s), s.phase.i;
    assert Right(s, i);
    forall p | 0 <= p < cfg.n ensures Right(t, p) {
      assert Right(s, p);
      if p != i { OthersKept(cfg, s, t, p); }
    }
  }

  lemma DealKeeps(cfg: Config, s: State)
    requires Inv(cfg, s) && Enabled(cfg, s, Deal)
    ensures Inv(cfg, Dealt(cfg, s))
  {
    match s.phase
    case Collect(i) => if i < cfg.n { CollectKeeps(cfg, s); } else { RightKept(cfg, s); }
    case CollectNumber(_, _) => CollectNumberKeeps(cfg, s);
    case Pay(i) => if i < cfg.n { PayKeeps(cfg, s); } else { RightKept(cfg, s); }
    case _ =>
  }

  /** The end of a round of reading or writing. */
  lemma RightKept(cfg: Config, s: State)
    requires Inv(cfg, s) && Enabled(cfg, s, Deal) && (s.phase == Collect(cfg.n) || s.phase == Pay(cfg.n))
    ensures Inv(cfg, Dealt(cfg, s))
  {
    CountPositive(s.open, IsOpen);
    forall p | 0 <= p < cfg.n ensures Right(Dealt(cfg, s), p) {
      assert Right(s, p);
      assert s.phase.Collect? ==> !IsOpen(s.open[p]);
    }
  }

  lemma InitInv(cfg: Config)
    requires cfg.n >= 1 && cfg.money >= 1
    ensures Inv(cfg, Init(cfg))
  {
    AllCounted(Init(cfg).open);
  }

  lemma {:induction false} AllCounted(open: seq<bool>)
    requires forall i :: 0 <= i < |open| ==> open[i]
    ensures Count(open, IsOpen) == |open|
  {
    if open != [] { AllCounted(open[..|open| - 1]); }
  }

  lemma {:induction false} RunInv(cfg: Config, run: seq<State>)
    requires IsRun(cfg, run)
    ensures Inv(cfg, run[|run| - 1])
  {
    if |run| == 1 {
      InitInv(cfg);
    } else {
      var r, s := run[|run| - 2], run[|run| - 1];
      RunInv(cfg, run[..|run| - 1]);
      assert Next(cfg, r, s);
      var a :| Enabled(cfg, r, a) && s == Step(cfg, r, a);
      match a
      case Draw(lucky) => DrawKeeps(cfg, r, lucky);
      case Deal => DealKeeps(cfg, r);
      case _ => PlayerKeeps(cfg, r, a);
    }
  }

  lemma ReachableInv(cfg: Config, s: State)
    requires Reachable(cfg, s)
    ensures Inv(cfg, s)
  {
    var run :| IsRun(cfg, run) && run[|run| - 1] == s;
    RunInv(cfg, run);
  }

  lemma Continued(cfg: Config, s: State, a: Action)
    requires Reachable(cfg, s) && Shaped(cfg, s) && Enabled(cfg, s, a)
    ensures Reachable(cfg, Step(cfg, s, a))
  {
    var run :| IsRun(cfg, run) && run[|run| - 1] == s;
    assert Next(cfg, s, Step(cfg, s, a));
    assert IsRun(cfg, run + [Step(cfg, s, a)]);
  }

  // ----- the guarantees

  /** What `start` becomes by the rounds played: 35 times the amount for a number that came up, minus the amount otherwise. */
  function Balance(start: int, bets: seq<(int, int)>, received: seq<int>): int
    requires |received| <= |bets|
  {
    if received == [] then start
    else
      var k := |received| - 1;
      Balance(start, bets, received[..k])
      + if received[k] == bets[k].1 then 35 * bets[k].0 else -bets[k].0
  }

  lemma {:induction false} BalanceOneMoreBet(start: int, bets: seq<(int, int)>, bet: (int, int), received: seq<int>)
    requires |received| <= |bets|
    ensures Balance(start, bets + [bet], received) == Balance(start, bets, received)
  {
    if received != [] { BalanceOneMoreBet(start, bets, bet, received[..|received| - 1]); }
  }

  /** A player's money follows from its bets and the numbers it has received; it has received a number for each bet, but for
      the one it is waiting for. */
  ghost predicate Accounted(cfg: Config, q: Player) {
    && |q.bets| == |q.received| + (if q.seat.Waiting? then 1 else 0)
    && q.money == Balance(cfg.money, q.bets, q.received)
    && (q.seat.Waiting? ==> q.bets[|q.bets| - 1] == (q.amount, q.number))
  }

  lemma PlayedAccounted(cfg: Config, q: Player, a: Action)
    requires Accounted(cfg, q) && !q.seat.Gone? && (a.Bet? || a.Leave? || a.PlayOn?)
    requires a.Bet? || a.Leave? ==> q.seat.Deciding?
    requires a.PlayOn? ==> q.seat.WroteAmount? || (q.seat.Waiting? && q.toPlayer != [])
    ensures Accounted(cfg, Played(q, a))
  {
    if a.PlayOn? {
      if q.seat.WroteAmount? {
        BalanceOneMoreBet(cfg.money, q.bets, (q.amount, q.number), q.received);
      } else {
        assert (q.received + [q.toPlayer[0]])[..|q.received|] == q.received;
      }
    }
  }

  lemma StepAccounted(cfg: Config, s: State, a: Action, p: nat)
    requires Shaped(cfg, s) && Enabled(cfg, s, a) && p < cfg.n && Accounted(cfg, s.players[p])
    ensures p < |Step(cfg, s, a).players| && Accounted(cfg, Step(cfg, s, a).players[p])
  {
    if a.Bet? || a.Leave? || a.PlayOn? {
      if a.p == p { PlayedAccounted(cfg, s.players[p], a); }
    }
  }

  lemma {:induction false} RunAccounted(cfg: Config, run: seq<State>, p: nat)
    requires IsRun(cfg, run) && p < cfg.n
    ensures p < |run[|run| - 1].players| && Accounted(cfg, run[|run| - 1].players[p])
  {
    if |run| > 1 {
      var r, s := run[|run| - 2], run[|run| - 1];
      RunAccounted(cfg, run[..|run| - 1], p);
      assert Next(cfg, r, s);
      var a :| Enabled(cfg, r, a) && s == Step(cfg, r, a);
      StepAccounted(cfg, r, a, p);
    }
  }

  /** A player's money is what it came with, plus 35 times each amount bet on a number that came up, minus each other amount;
      it is never negative, and a player is broke exactly when that balance is 0, and then gone. */
  lemma MoneyIsBalance(cfg: Config, s: State, p: nat)
    requires Reachable(cfg, s) && p < cfg.n
    ensures p < |s.players|
    ensures
      var q := s.players[p];
      && |q.received| <= |q.bets| <= |q.received| + 1
      && q.money == Balance(cfg.money, q.bets, q.received) >= 0
      && (q.money == 0 ==> q.seat.Gone?)
  {
    var run :| IsRun(cfg, run) && run[|run| - 1] == s;
    RunAccounted(cfg, run, p);
    ReachableInv(cfg, s);
    assert Right(s, p);
  }

  /** A bet goes to the croupier, and on record, as the player chose it. */
  lemma BetStands(cfg: Config, s: State, p: nat, amount: int, number: int)
    requires Shaped(cfg, s) && Enabled(cfg, s, Bet(p, amount, number))
    ensures
      var t := Step(cfg, s, Bet(p, amount, number));
      && Shaped(cfg, t) && Enabled(cfg, t, PlayOn(p))
      && var u := Step(cfg, t, PlayOn(p));
         && u.players[p].toCroupier == s.players[p].toCroupier + [amount, number]
         && u.players[p].bets == s.players[p].bets + [(amount, number)]
         && u.players[p].seat.Waiting?
  {
  }

  /** A player goes only because it decided to, or because it is broke. */
  lemma WhyGone(cfg: Config, s: State, t: State, p: nat)
    requires Next(cfg, s, t) && p < cfg.n && !s.players[p].seat.Gone?
    ensures p < |t.players|
    ensures t.players[p].seat.Gone? ==> s.players[p].seat.Deciding? || t.players[p].money <= 0
  {
    var a :| Enabled(cfg, s, a) && t == Step(cfg, s, a);
  }

  /** Each player's k-th number is the k-th draw; the croupier pairs up the integers it reads into exactly the bets made, in order;
      nobody bets money it has not got; and the croupier never meets half a bet or writes to a player that has gone. */
  lemma PlayersInStep(cfg: Config, s: State, p: nat)
    requires Reachable(cfg, s) && p < cfg.n
    ensures p < |s.players| && !s.phase.Failed?
    ensures
      var q := s.players[p];
      && q.received <= s.draws
      && q.collected <= q.bets && |q.bets| <= |q.collected| + 1
      && q.money >= 0 && (q.seat.Deciding? ==> q.money > 0)
      && (q.seat.WroteAmount? || q.seat.Waiting? ==> 1 <= q.amount <= q.money)
  {
    ReachableInv(cfg, s);
    assert Right(s, p);
    var q := s.players[p];
    if s.open[p] {
      BetsPaired(q, ProgressWith(s.phase, p));
      Prefix(q.received, q.toPlayer, s.draws, Announced(s, p));
    }
  }

  lemma BetsPaired(q: Player, progress: Progress)
    requires LockStep(q, progress)
    ensures q.collected <= q.bets && |q.bets| <= |q.collected| + 1
  {
  }

  lemma Prefix(a: seq<int>, b: seq<int>, s: seq<int>, k: int)
    requires 0 <= k <= |s| && a + b == s[..k]
    ensures a <= s
  {
    assert a == s[..|a|] by { assert a == (a + b)[..|a|]; }
  }

  /** At the end of each round of reading the croupier draws if some player has not left, and stops if none is there. */
  lemma StopsWhenAllLeft(cfg: Config, s: State)
    requires Reachable(cfg, s)
    ensures Shaped(cfg, s)
    ensures s.phase == Collect(cfg.n) ==>
      var allGone := forall p :: 0 <= p < cfg.n ==> s.players[p].seat.Gone?;
      && (s.count <= 0 <==> allGone)
      && (forall lucky :: 0 <= lucky < NUMBERS ==> (Enabled(cfg, s, Draw(lucky)) <==> !allGone))
      && (Enabled(cfg, s, Deal) <==> allGone)
      && (allGone ==> Step(cfg, s, Deal).phase.Stopped?)
    ensures s.phase.Stopped? ==> forall p :: 0 <= p < cfg.n ==>
      s.players[p].seat.Gone? && s.players[p].collected == s.players[p].bets
  {
    ReachableInv(cfg, s);
    CountPositive(s.open, IsOpen);
    forall p | 0 <= p < cfg.n
      ensures s.count <= 0 ==> s.players[p].seat.Gone? && s.players[p].collected == s.players[p].bets
      ensures s.phase == Collect(cfg.n) && s.players[p].seat.Gone? ==> !s.open[p]
    {
      assert Right(s, p);
      assert s.count <= 0 ==> !IsOpen(s.open[p]);
    }
  }

  /** Until the croupier stops, somebody can take a step. */
  lemma NoDeadlock(cfg: Config, s: State) returns (a: Action)
    requires Reachable(cfg, s) && !s.phase.Stopped?
    ensures Shaped(cfg, s) && Enabled(cfg, s, a)
  {
    ReachableInv(cfg, s);
    if s.phase == Collect(cfg.n) {
      a := if s.count > 0 then Draw(0) else Deal;
    } else if Enabled(cfg, s, Deal) {
      a := Deal;
    } else {
      var i := s.phase.i;
      assert Right(s, i);
      a := if s.players[i].seat.Deciding? then Leave(i) else PlayOn(i);
    }
  }

  /** The error exits are never met; numbers and bets arrive in order; and all money is accounted for. */
  ghost predicate Sound(cfg: Config, s: State) {
    && !s.phase.Failed?
    && (forall p :: 0 <= p < |s.players| ==>
          var q := s.players[p];
          && q.received <= s.draws && q.collected <= q.bets && |q.received| <= |q.bets|
          && q.money == Balance(cfg.money, q.bets, q.received) >= 0)
    && (s.phase.Stopped? ==> forall p :: 0 <= p < |s.players| ==> s.players[p].seat.Gone?)
  }

  lemma ReachableSound(cfg: Config, s: State)
    requires Reachable(cfg, s)
    ensures Shaped(cfg, s) && Sound(cfg, s)
  {
    ReachableInv(cfg, s);
    forall p | 0 <= p < |s.players|
      ensures
        var q := s.players[p];
        && q.received <= s.draws && q.collected <= q.bets && |q.received| <= |q.bets|
        && q.money == Balance(cfg.money, q.bets, q.received) >= 0
    {
      PlayersInStep(cfg, s, p);
      MoneyIsBalance(cfg, s, p);
    }
    StopsWhenAllLeft(cfg, s);
  }

  // ----- the program, in place

  class Program {
    const cfg: Config
    const players: array<Player>
    const open: array<bool>
    var count: int
    var phase: Phase
    var draws: seq<int>

    constructor (cfg: Config)
      requires cfg.n >= 1 && cfg.money >= 1
      ensures this.cfg == cfg && fresh(players) && fresh(open)
      ensures Valid() && Now() == Init(cfg)
    {
      this.cfg := cfg;
      players := new Player[cfg.n](_ => Player(Deciding, cfg.money, 0, 0, [], [], [], [], []));
      open := new bool[cfg.n](_ => true);
      count, phase, draws := cfg.n, Collect(0), [];
      new;
      assert players[..] == Init(cfg).players;
      assert open[..] == Init(cfg).open;
      assert IsRun(cfg, [Now()]);
    }

    ghost function Now(): State
      reads this, players, open
    {
      State(players[..], open[..], count, phase, draws)
    }

    ghost predicate Valid()
      reads this, players, open
    {
      Shaped(cfg, Now()) && Reachable(cfg, Now())
    }

    ghost predicate Safe()
      reads this, players, open
    {
      Sound(cfg, Now())
    }

    /** Drawing the lucky number. */
    method DrawOn(lucky: int)
      requires Valid() && Enabled(cfg, Now(), Draw(lucky))
      modifies this
      ensures Valid() && Safe()
      ensures Now() == Step(cfg, old(Now()), Draw(lucky))
      ensures draws == old(draws) + [lucky]
    {
      ghost var s := Now();
      draws := draws + [lucky];
      phase := Pay(0);
      assert Now() == Step(cfg, s, Draw(lucky));
      Continued(cfg, s, Draw(lucky));
      ReachableSound(cfg, Now());
    }

    /** The next atomic step of the croupier's loops, except drawing the number. */
    method DealOn()
      requires Valid() && Enabled(cfg, Now(), Deal)
      modifies this, players, open
      ensures Valid() && Safe()
      ensures Now() == Dealt(cfg, old(Now()))
    {
      ghost var s := Now();
      match phase {
        case Collect(i) =>
          if i == cfg.n {
            phase := Stopped;
          } else if !open[i] {
            phase := Collect(i + 1);
          } else if players[i].toCroupier != [] {
            var amount := players[i].toCroupier[0];
            players[i] := players[i].(toCroupier := players[i].toCroupier[1..]);
            phase := CollectNumber(i, amount);
          } else {
            open[i] := false;
            count := count - 1;
            phase := Collect(i + 1);
          }
        case CollectNumber(i, amount) =>
          if players[i].toCroupier == [] {
            phase := Failed;
          } else {
            var bet := (amount, players[i].toCroupier[0]);
            players[i] := players[i].(toCroupier := players[i].toCroupier[1..], collected := players[i].collected + [bet]);
            phase := Collect(i + 1);
          }
        case Pay(i) =>
          if i == cfg.n {
            phase := Collect(0);
          } else if !open[i] {
            phase := Pay(i + 1);
          } else if players[i].seat.Gone? {
            phase := Failed;
          } else {
            players[i] := players[i].(toPlayer := players[i].toPlayer + [draws[|draws| - 1]]);
            phase := Pay(i + 1);
          }
      }
      assert Now() == Step(cfg, s, Deal);
      Continued(cfg, s, Deal);
      ReachableSound(cfg, Now());
    }

    /** A player's decision to stay, and its first write. */
    method PlaceBet(p: nat, amount: int, number: int)
      requires Valid() && Enabled(cfg, Now(), Bet(p, amount, number))
      modifies players
      ensures Valid() && Safe()
      ensures Now() == Step(cfg, old(Now()), Bet(p, amount, number))
    {
      ghost var s := Now();
      var q := players[p];
      players[p] := q.(seat := WroteAmount, amount := amount, number := number, toCroupier := q.toCroupier + [amount]);
      assert Now() == Step(cfg, s, Bet(p, amount, number));
      Continued(cfg, s, Bet(p, amount, number));
      ReachableSound(cfg, Now());
    }

    /** The other decision: the player saves its money and leaves. */
    method GoHome(p: nat)
      requires Valid() && Enabled(cfg, Now(), Leave(p))
      modifies players
      ensures Valid() && Safe()
      ensures Now() == Step(cfg, old(Now()), Leave(p))
    {
      ghost var s := Now();
      players[p] := players[p].(seat := Gone);
      assert Now() == Step(cfg, s, Leave(p));
      Continued(cfg, s, Leave(p));
      ReachableSound(cfg, Now());
    }

    /** The player's second write, or its read and what it makes of the lucky number. */
    method PlayerOn(p: nat)
      requires Valid() && Enabled(cfg, Now(), PlayOn(p))
      modifies players
      ensures Valid() && Safe()
      ensures Now() == Step(cfg, old(Now()), PlayOn(p))
    {
      ghost var s := Now();
      var q := players[p];
      if q.seat.WroteAmount? {
        players[p] := q.(seat := Waiting, toCroupier := q.toCroupier + [q.number], bets := q.bets + [(q.amount, q.number)]);
      } else {
        var lucky, money := q.toPlayer[0], q.money;
        if lucky == q.number { money := money + 35 * q.amount; } else { money := money - q.amount; }
        players[p] := q.(seat := if money <= 0 then Gone else Deciding, money := money,
                         toPlayer := q.toPlayer[1..], received := q.received + [lucky]);
      }
      assert Now() == Step(cfg, s, PlayOn(p));
      Continued(cfg, s, PlayOn(p));
      ReachableSound(cfg, Now());
    }
  }
}
