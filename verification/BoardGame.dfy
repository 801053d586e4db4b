/** Clients that search the fields of a shared board under a robust mutex, and may die while holding it. */
module BoardGame {
  import opened Counting

  /** Waiting for the mutex; holding it; having looked at field (x, y) with p points; having scored them;
      holding it with the field cleared, or found empty; and out of the game, dead or finished. */
  datatype Place = WantLock | Holding | Found(field: nat) | Scored(field: nat) | Cleared | FoundEmpty | Dead | Finished

  /** `searches` counts the searches that found points. */
  datatype Client = Client(place: Place, score: int, searches: nat)

  /** The mutex is free, held by a client, or left by one that died, which the next owner is told about. */
  datatype Mutex = Free | HeldBy(i: nat) | OwnerDied

  datatype State = State(board: seq<int>, mutex: Mutex, clients: seq<Client>)

  /** Draw: the client dies if `d` is 1, or searches field (x, y). */
  datatype Action = Run(i: nat) | Draw(i: nat, d: int, x: nat, y: nat)

  datatype Config = Config(n: nat, board: seq<int>, clients: nat)

  /** The server's board: N fields a side, 1 to 9 points on each. */
  predicate Sensible(cfg: Config) {
    cfg.n > 0 && |cfg.board| == cfg.n * cfg.n && forall f :: 0 <= f < |cfg.board| ==> 1 <= cfg.board[f] <= 9
  }

  ghost function Init(cfg: Config): State {
    State(cfg.board, Free, seq(cfg.clients, _ => Client(WantLock, 0, 0)))
  }

  function Field(n: nat, x: nat, y: nat): nat { n * y + x }

  /** Every field of the board has its own place in the flat array. */
  lemma FieldsApart(n: nat, x: nat, y: nat, u: nat, v: nat)
    requires x < n && y < n && u < n && v < n
    ensures 0 <= Field(n, x, y) < n * n
    ensures Field(n, x, y) == Field(n, u, v) ==> x == u && y == v
  {
    RowBelow(n, y, n);
    if y < v { RowBelow(n, y, v); } else if v < y { RowBelow(n, v, y); }
  }

  lemma RowBelow(n: nat, y: nat, v: nat)
    requires y < v
    ensures n * y + n <= n * v
  {
    assert n * v == n * (y + 1) + n * (v - y - 1);
  }

  predicate Enabled(cfg: Config, s: State, a: Action) {
    match a
    case Draw(i, d, x, y) => i < |s.clients| && s.clients[i].place.Holding? && 1 <= d <= 9 && x < cfg.n && y < cfg.n
    case Run(i) =>
      && i < |s.clients|
      && match s.clients[i].place
         case WantLock => !s.mutex.HeldBy?
         case Holding => false
         case Dead => false
         case Finished => false
         case _ => true
  }

  predicate InBounds(s: State) {
    forall i :: 0 <= i < |s.clients| ==>
      match s.clients[i].place
      case Found(f) => f < |s.board|
      case Scored(f) => f < |s.board|
      case _ => true
  }

  /** Client i looks at field f. */
  function Looked(s: State, i: nat, f: nat): State
    requires i < |s.clients| && f < |s.board|
  {
    s.(clients := s.clients[i := s.clients[i].(place := if s.board[f] == 0 then FoundEmpty else Found(f))])
  }

  function Step(cfg: Config, s: State, a: Action): State
    requires Sensible(cfg) && |s.board| == |cfg.board| && Enabled(cfg, s, a) && InBounds(s)
  {
    var c := s.clients[a.i];
    match a
    case Draw(i, d, x, y) =>
      if d == 1 then s.(mutex := OwnerDied, clients := s.clients[i := c.(place := Dead)])
      else
        FieldsApart(cfg.n, x, y, x, y);
        Looked(s, i, Field(cfg.n, x, y))
    case Run(i) =>
      match c.place
      case WantLock => s.(mutex := HeldBy(i), clients := s.clients[i := c.(place := Holding)])
      case Found(f) => s.(clients := s.clients[i := Client(Scored(f), c.score + s.board[f], c.searches + 1)])
      case Scored(f) => s.(board := s.board[f := 0], clients := s.clients[i := c.(place := Cleared)])
      case Cleared => s.(mutex := Free, clients := s.clients[i := c.(place := WantLock)])
      case FoundEmpty => s.(mutex := Free, clients := s.clients[i := c.(place := Finished)])
      case _ => s
  }

  ghost predicate Next(cfg: Config, s: State, t: State) {
    && Sensible(cfg) && |s.board| == |cfg.board| && InBounds(s)
    && exists a :: Enabled(cfg, s, a) && t == Step(cfg, s, a)
  }

  /** A run: from the initial state, one step after the other. */
  ghost predicate IsRun(cfg: Config, run: seq<State>) {
    && Sensible(cfg) && run != [] && run[0] == Init(cfg)
    && forall i :: 0 <= i < |run| - 1 ==> Next(cfg, run[i], run[i + 1])
  }

  /** The states of all runs. */
  ghost predicate Reachable(cfg: Config, s: State) {
    exists run :: IsRun(cfg, run) && run[|run| - 1] == s
  }

  // ----- what every step keeps

  predicate HasMutex(c: Client) {
    c.place.Holding? || c.place.Found? || c.place.Scored? || c.place.Cleared? || c.place.FoundEmpty?
  }

  predicate Filled(points: int) { points != 0 }
  function Points(points: int): int { points }
  function Score(c: Client): int { c.score }
  function Searches(c: Client): int { c.searches }

  /** The field whose points are scored but still on the board. */
  function Doubled(s: State): int {
    if s.mutex.HeldBy? && s.mutex.i < |s.clients| && s.clients[s.mutex.i].place.Scored?
       && s.clients[s.mutex.i].place.field < |s.board|
    then s.board[s.clients[s.mutex.i].place.field] else 0
  }

  ghost predicate Inv(cfg: Config, s: State) {
    && Sensible(cfg) && |s.board| == |cfg.board| && |s.clients| == cfg.clients
    && (forall i :: 0 <= i < |s.clients| ==> (HasMutex(s.clients[i]) <==> s.mutex == HeldBy(i)))
    && (forall i :: 0 <= i < |s.clients| ==>
          match s.clients[i].place
          case Found(f) => f < |s.board| && Filled(s.board[f])
          case Scored(f) => f < |s.board| && Filled(s.board[f])
          case _ => true)
    && (s.mutex.HeldBy? ==> s.mutex.i < |s.clients|)
    && Sum(s.board, Points) + Sum(s.clients, Score) == Sum(cfg.board, Points) + Doubled(s)
    && Sum(s.clients, Searches) + Count(s.board, Filled) == |cfg.board| + Bit(Doubled(s) != 0)
  }

  lemma LookedKeeps(cfg: Config, s: State, i: nat, f: nat)
    requires Inv(cfg, s) && i < |s.clients| && s.clients[i].place.Holding? && f < |s.board|
    ensures Inv(cfg, Looked(s, i, f))
  {
    var c := Looked(s, i, f).clients[i];
    SumUpdate(s.clients, Score, i, c);
    SumUpdate(s.clients, Searches, i, c);
  }

  lemma DrawKeeps(cfg: Config, s: State, a: Action)
    requires Inv(cfg, s) && Enabled(cfg, s, a) && a.Draw?
    ensures InBounds(s) && Inv(cfg, Step(cfg, s, a))
  {
    if a.d == 1 {
      var c := s.clients[a.i].(place := Dead);
      SumUpdate(s.clients, Score, a.i, c);
      SumUpdate(s.clients, Searches, a.i, c);
    } else {
      FieldsApart(cfg.n, a.x, a.y, a.x, a.y);
      LookedKeeps(cfg, s, a.i, Field(cfg.n, a.x, a.y));
    }
  }

  lemma RunKeeps(cfg: Config, s: State, a: Action)
    requires Inv(cfg, s) && Enabled(cfg, s, a) && a.Run?
    ensures InBounds(s) && Inv(cfg, Step(cfg, s, a))
  {
    var t := Step(cfg, s, a);
    SumUpdate(s.clients, Score, a.i, t.clients[a.i]);
    SumUpdate(s.clients, Searches, a.i, t.clients[a.i]);
    if s.clients[a.i].place.Scored? {
      var f := s.clients[a.i].place.field;
      SumUpdate(s.board, Points, f, 0);
      CountUpdate(s.board, Filled, f, 0);
    }
  }

  lemma {:induction false} AllFilled(board: seq<int>)
    requires forall f :: 0 <= f < |board| ==> board[f] != 0
    ensures Count(board, Filled) == |board|
  {
    if board != [] { AllFilled(board[..|board| - 1]); }
  }

  lemma InitInv(cfg: Config)
    requires Sensible(cfg)
    ensures Inv(cfg, Init(cfg))
  {
    AllFilled(cfg.board);
    SumZero(Init(cfg).clients, Score);
    SumZero(Init(cfg).clients, Searches);
  }

  lemma {:induction false} RunInv(cfg: Config, run: seq<State>)
    requires IsRun(cfg, run)
    ensures Inv(cfg, run[|run| - 1])
  {
    if |run| == 1 {
      InitInv(cfg);
    } else {
      var r, s := run[|run| - 2], run[|run| - 1];
      RunInv(cfg, run[..|run| - 1]);
      assert Next(cfg, r, s);
      var a :| Enabled(cfg, r, a) && s == Step(cfg, r, a);
      if a.Draw? { DrawKeeps(cfg, r, a); } else { RunKeeps(cfg, r, a); }
    }
  }

  lemma ReachableInv(cfg: Config, s: State)
    requires Reachable(cfg, s)
    ensures Inv(cfg, s)
  {
    var run :| IsRun(cfg, run) && run[|run| - 1] == s;
    RunInv(cfg, run);
  }

  lemma Continued(cfg: Config, s: State, a: Action)
    requires Reachable(cfg, s) && Enabled(cfg, s, a)
    ensures Sensible(cfg) && |s.board| == |cfg.board| && InBounds(s)
    ensures Reachable(cfg, Step(cfg, s, a))
  {
    ReachableInv(cfg, s);
    var run :| IsRun(cfg, run) && run[|run| - 1] == s;
    assert Next(cfg, s, Step(cfg, s, a));
    assert IsRun(cfg, run + [Step(cfg, s, a)]);
  }

  // ----- the guarantees

  /** Whenever no living client holds the mutex, the points on the board and all scores, those of the dead included,
      add up to the points the server put on it: recovering the mutex of a dead client needs no repair of the board. */
  lemma PointsConserved(cfg: Config, s: State)
    requires Reachable(cfg, s) && !s.mutex.HeldBy?
    ensures Sum(s.board, Points) + Sum(s.clients, Score) == Sum(cfg.board, Points)
  {
    ReachableInv(cfg, s);
  }

  /** No field is scored twice: at most N * N searches ever find points. */
  lemma SearchesBounded(cfg: Config, s: State)
    requires Reachable(cfg, s)
    ensures Sum(s.clients, Searches) <= cfg.n * cfg.n
  {
    ReachableInv(cfg, s);
    if Doubled(s) != 0 {
      CountPositive(s.board, Filled);
      assert Filled(s.board[s.clients[s.mutex.i].place.field]);
    }
  }

  lemma MutualExclusion(cfg: Config, s: State, i: nat, j: nat)
    requires Reachable(cfg, s) && i < j < |s.clients| && HasMutex(s.clients[i])
    ensures !HasMutex(s.clients[j])
  {
    ReachableInv(cfg, s);
  }

  // ----- one search

  /** Client i has found p points on field f, and had `score` points before: the field is emptied after the points are scored. */
  ghost predicate Searching(s: State, i: nat, f: nat, p: int, score: int) {
    && i < |s.clients| && f < |s.board|
    && match s.clients[i].place
       case Found(g) => g == f && s.clients[i].score == score && s.board[f] == p
       case Scored(g) => g == f && s.clients[i].score == score + p && s.board[f] == p
       case Cleared => s.clients[i].score == score + p && s.board[f] == 0
       case _ => false
  }

  /** What a client does with the field it draws: it goes on to score the points if there are any, else it ends the game. */
  lemma DrawLooks(cfg: Config, s: State, i: nat, d: int, x: nat, y: nat)
    requires Reachable(cfg, s) && Enabled(cfg, s, Draw(i, d, x, y)) && d != 1
    ensures Sensible(cfg) && |s.board| == |cfg.board| && InBounds(s) && 0 <= Field(cfg.n, x, y) < |s.board|
    ensures
      var t, f := Step(cfg, s, Draw(i, d, x, y)), Field(cfg.n, x, y);
      && t.board == s.board
      && if s.board[f] != 0 then Searching(t, i, f, s.board[f], s.clients[i].score)
         else t.clients[i] == s.clients[i].(place := FoundEmpty)
  {
    ReachableInv(cfg, s);
    FieldsApart(cfg.n, x, y, x, y);
  }

  /** A client that draws a 1 dies with the mutex; board and scores stay, and whoever waits for the mutex can have it. */
  lemma DiesWithMutex(cfg: Config, s: State, i: nat, x: nat, y: nat)
    requires Reachable(cfg, s) && Enabled(cfg, s, Draw(i, 1, x, y))
    ensures Sensible(cfg) && |s.board| == |cfg.board| && InBounds(s)
    ensures
      var t := Step(cfg, s, Draw(i, 1, x, y));
      && t.board == s.board && t.clients == s.clients[i := s.clients[i].(place := Dead)]
      && forall j :: 0 <= j < |t.clients| && t.clients[j].place.WantLock? ==> Enabled(cfg, t, Run(j))
  {
    ReachableInv(cfg, s);
  }

  /** As long as a client is in the game some client can take a step, though others died with the mutex. */
  lemma NoDeadlock(cfg: Config, s: State) returns (a: Action)
    requires Reachable(cfg, s)
    requires exists i :: 0 <= i < |s.clients| && !s.clients[i].place.Dead? && !s.clients[i].place.Finished?
    ensures Enabled(cfg, s, a)
  {
    ReachableInv(cfg, s);
    if s.mutex.HeldBy? {
      a := if s.clients[s.mutex.i].place.Holding? then Draw(s.mutex.i, 2, 0, 0) else Run(s.mutex.i);
    } else {
      var i: nat :| i < |s.clients| && !s.clients[i].place.Dead? && !s.clients[i].place.Finished?;
      assert !HasMutex(s.clients[i]);
      a := Run(i);
    }
  }

  /** Whatever the others do meanwhile, a search goes on to its end, and ends with the points scored and the field empty. */
  lemma SearchGoesOn(cfg: Config, s: State, t: State, i: nat, f: nat, p: int, score: int)
    requires Reachable(cfg, s) && Next(cfg, s, t) && Searching(s, i, f, p, score)
    ensures Enabled(cfg, s, Run(i))
    ensures Searching(t, i, f, p, score)
            || (i < |t.clients| && f < |t.board| && t.clients[i].place.WantLock?
                && t.clients[i].score == score + p && t.board[f] == 0)
  {
    ReachableInv(cfg, s);
    var a :| Enabled(cfg, s, a) && t == Step(cfg, s, a);
    assert HasMutex(s.clients[i]);
    assert a.i != i && HasMutex(s.clients[a.i]) ==> s.mutex == HeldBy(i) && s.mutex == HeldBy(a.i);
  }

  lemma {:induction false} SearchEnds(cfg: Config, path: seq<State>, i: nat, f: nat, p: int, score: int)
    requires path != [] && Reachable(cfg, path[0]) && Searching(path[0], i, f, p, score)
    requires forall k :: 0 <= k < |path| - 1 ==> Next(cfg, path[k], path[k + 1])
    requires forall k :: 0 < k < |path| - 1 ==> i < |path[k].clients| && HasMutex(path[k].clients[i])
    ensures
      var t := path[|path| - 1];
      && i < |t.clients| && f < |t.board|
      && (!HasMutex(t.clients[i]) ==>
            t.clients[i].place.WantLock? && t.clients[i].score == score + p && t.board[f] == 0)
  {
    if |path| > 1 {
      assert Next(cfg, path[0], path[1]);
      SearchGoesOn(cfg, path[0], path[1], i, f, p, score);
      if |path| > 2 {
        NextReachable(cfg, path[0], path[1]);
        assert HasMutex(path[1].clients[i]);
        SearchEnds(cfg, path[1..], i, f, p, score);
      }
    }
  }

  lemma NextReachable(cfg: Config, s: State, t: State)
    requires Reachable(cfg, s) && Next(cfg, s, t)
    ensures Reachable(cfg, t)
  {
    var run :| IsRun(cfg, run) && run[|run| - 1] == s;
    assert IsRun(cfg, run + [t]);
  }

  /** A client ends the game only behind an empty field. */
  lemma FinishedBehindEmpty(cfg: Config, s: State, t: State, i: nat)
    requires Reachable(cfg, s) && Next(cfg, s, t) && i < |s.clients|
    ensures i < |t.clients|
    ensures t.clients[i].place.Finished? && !s.clients[i].place.Finished? ==> s.clients[i].place.FoundEmpty?
    ensures t.clients[i].place.FoundEmpty? && !s.clients[i].place.FoundEmpty? ==>
      exists x: nat, y: nat :: x < cfg.n && y < cfg.n && 0 <= Field(cfg.n, x, y) < |s.board| && s.board[Field(cfg.n, x, y)] == 0
  {
    ReachableInv(cfg, s);
    var a :| Enabled(cfg, s, a) && t == Step(cfg, s, a);
    if a.Draw? {
      FieldsApart(cfg.n, a.x, a.y, a.x, a.y);
      assert Field(cfg.n, a.x, a.y) < |s.board|;
    }
  }

  // ----- the program, in place

  class Program {
    const cfg: Config
    const board: array<int>
    var mutex: Mutex
    const clients: array<Client>

    constructor (cfg: Config)
      requires Sensible(cfg)
      ensures this.cfg == cfg && fresh(board) && fresh(clients)
      ensures Valid() && Now() == Init(cfg)
    {
      this.cfg := cfg;
      board := new int[|cfg.board|](f requires 0 <= f < |cfg.board| => cfg.board[f]);
      clients := new Client[cfg.clients](_ => Client(WantLock, 0, 0));
      mutex := Free;
      new;
      assert board[..] == cfg.board;
      assert clients[..] == Init(cfg).clients;
      assert IsRun(cfg, [Now()]);
    }

    ghost function Now(): State
      reads this, board, clients
    {
      State(board[..], mutex, clients[..])
    }

    ghost predicate Valid()
      reads this, board, clients
    {
      && Sensible(cfg) && board.Length == |cfg.board| && InBounds(Now())
      && Reachable(cfg, Now())
    }

    /** One client has the mutex, and when none has it all points are on the board or scored. */
    ghost predicate Safe()
      reads this, board, clients
    {
      && (forall i, j :: 0 <= i < j < clients.Length ==> !(HasMutex(clients[i]) && HasMutex(clients[j])))
      && (!mutex.HeldBy? ==> Sum(board[..], Points) + Sum(clients[..], Score) == Sum(cfg.board, Points))
    }

    lemma Stepped(s: State, a: Action)
      requires Sensible(cfg) && |s.board| == |cfg.board| && InBounds(s)
      requires Reachable(cfg, s) && Enabled(cfg, s, a) && Now() == Step(cfg, s, a)
      ensures Valid() && Safe()
    {
      Continued(cfg, s, a);
      ReachableInv(cfg, Now());
      assert |Now().board| == |cfg.board|;
      forall i, j | 0 <= i < j < clients.Length ensures !(HasMutex(clients[i]) && HasMutex(clients[j])) {
        if HasMutex(clients[i]) { MutualExclusion(cfg, Now(), i, j); }
      }
    }

    /** The draw of client i: it dies on a 1, else looks at a field. */
    method DrawOne(i: nat, d: int, x: nat, y: nat)
      requires Valid() && Enabled(cfg, Now(), Draw(i, d, x, y))
      modifies this, clients
      ensures Valid() && Safe()
      ensures Now() == Step(cfg, old(Now()), Draw(i, d, x, y))
    {
      ghost var s := Now();
      FieldsApart(cfg.n, x, y, x, y);
      if d == 1 {
        mutex := OwnerDied;
        clients[i] := clients[i].(place := Dead);
      } else {
        var f := Field(cfg.n, x, y);
        var p := board[f];
        clients[i] := clients[i].(place := if p == 0 then FoundEmpty else Found(f));
      }
      Stepped(s, Draw(i, d, x, y));
    }

    /** The other steps of client i. */
    method RunOne(i: nat)
      requires Valid() && Enabled(cfg, Now(), Run(i))
      modifies this, board, clients
      ensures Valid() && Safe()
      ensures Now() == Step(cfg, old(Now()), Run(i))
    {
      ghost var s := Now();
      var c := clients[i];
      match c.place {
        case WantLock =>
          mutex := HeldBy(i);
          clients[i] := c.(place := Holding);
        case Found(f) => clients[i] := c.(place := Scored(f), score := c.score + board[f], searches := c.searches + 1);
        case Scored(f) =>
          board[f] := 0;
          clients[i] := c.(place := Cleared);
        case Cleared =>
          mutex := Free;
          clients[i] := c.(place := WantLock);
        case FoundEmpty =>
          mutex := Free;
          clients[i] := c.(place := Finished);
      }
      Stepped(s, Run(i));
    }
  }
}
