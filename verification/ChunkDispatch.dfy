/** Worker threads that claim the chunks of a file from a counter under a mutex. */
module ChunkDispatch {
  import opened Arithmetic
  import opened Counting

  /** Waiting for the mutex; holding it at the test; holding it with chunk k noted, before and after the increment;
      k's node to be added to the thread's list; holding the mutex to leave; and gone. */
  datatype Place = WantLock | Test | Increment(k: nat) | Unlock(k: nat) | Add(k: nat) | UnlockLast | Ended

  /** The chunks in the worker's list, newest first. */
  datatype Worker = Worker(place: Place, chunks: seq<nat>)

  /** `owner` says which worker claimed each chunk so far. */
  datatype State = State(next: nat, locked: bool, workers: seq<Worker>, owner: seq<nat>)

  /** `size` bytes, cut for `m` chunks, by `threads` threads. */
  datatype Config = Config(size: nat, m: nat, threads: nat)

  predicate Sensible(cfg: Config) { 1 <= cfg.m <= cfg.size }

  function Chunk(cfg: Config): nat
    requires Sensible(cfg)
    ensures Chunk(cfg) >= 1
  {
    AtLeastOne(cfg.size, cfg.m);
    cfg.size / cfg.m
  }

  function Total(cfg: Config): nat
    requires Sensible(cfg)
  {
    cfg.size / Chunk(cfg)
  }

  ghost function Init(cfg: Config): State {
    State(0, false, seq(cfg.threads, _ => Worker(WantLock, [])), [])
  }

  predicate Enabled(s: State, i: nat) {
    i < |s.workers| && !s.workers[i].place.Ended? && (s.workers[i].place.WantLock? ==> !s.locked)
  }

  function Step(cfg: Config, s: State, i: nat): State
    requires Sensible(cfg) && Enabled(s, i)
  {
    var w := s.workers[i];
    match w.place
    case WantLock => s.(locked := true, workers := s.workers[i := w.(place := Test)])
    case Test => s.(workers := s.workers[i := w.(place := if s.next >= Total(cfg) then UnlockLast else Increment(s.next))])
    case Increment(k) => s.(next := s.next + 1, workers := s.workers[i := w.(place := Unlock(k))], owner := s.owner + [i])
    case Unlock(k) => s.(locked := false, workers := s.workers[i := w.(place := Add(k))])
    case Add(k) => s.(workers := s.workers[i := Worker(WantLock, [k] + w.chunks)])
    case UnlockLast => s.(locked := false, workers := s.workers[i := w.(place := Ended)])
  }

  ghost predicate Next(cfg: Config, s: State, t: State) {
    Sensible(cfg) && exists i :: Enabled(s, i) && t == Step(cfg, s, i)
  }

  /** States, each reached from the one before by a step. */
  ghost predicate IsPath(cfg: Config, path: seq<State>) {
    path != [] && forall i :: 0 <= i < |path| - 1 ==> Next(cfg, path[i], path[i + 1])
  }

  /** A path from the initial state. */
  ghost predicate IsRun(cfg: Config, run: seq<State>) {
    Sensible(cfg) && IsPath(cfg, run) && run[0] == Init(cfg)
  }

  /** The states of all runs. */
  ghost predicate Reachable(cfg: Config, s: State) {
    exists run :: IsRun(cfg, run) && run[|run| - 1] == s
  }

  // ----- cutting the file

  lemma AtLeastOne(a: nat, b: nat)
    requires 1 <= b <= a
    ensures a / b >= 1
  {
  }

  /** A chunk is as large as m equal ones can be; there are at least m of them, and less than one chunk is left over
      at the end of the file. */
  lemma ChunkCount(cfg: Config)
    requires Sensible(cfg)
    ensures cfg.m * Chunk(cfg) <= cfg.size < cfg.m * (Chunk(cfg) + 1)
    ensures cfg.m <= Total(cfg)
    ensures Total(cfg) * Chunk(cfg) + cfg.size % Chunk(cfg) == cfg.size
  {
    var c := Chunk(cfg);
    assert cfg.size == c * cfg.m + cfg.size % cfg.m;
    assert cfg.m * (c + 1) == c * cfg.m + cfg.m;
    QuotientAtLeast(cfg.m, c, cfg.size);
  }

  lemma QuotientAtLeast(m: nat, c: nat, size: nat)
    requires c > 0 && m * c <= size
    ensures m <= size / c
  {
    assert (size / c + 1) * c == size / c * c + c > size;
    if size / c + 1 <= m { Times(size / c + 1, m, c); }
  }

  /** The chunks lie one behind the other inside the file. */
  lemma Extents(cfg: Config, j: nat, k: nat)
    requires Sensible(cfg) && j < k < Total(cfg)
    ensures (j + 1) * Chunk(cfg) <= k * Chunk(cfg) < (k + 1) * Chunk(cfg) <= cfg.size
  {
    var c := Chunk(cfg);
    Times(j + 1, k, c);
    Times(k + 1, Total(cfg), c);
    assert (k + 1) * c == k * c + c;
  }

  // ----- what every step keeps

  predicate Holding(w: Worker) {
    w.place.Test? || w.place.Increment? || w.place.Unlock? || w.place.UnlockLast?
  }

  /** The chunks a worker has claimed, with the one that is not in its list yet. */
  function Claimed(w: Worker): seq<nat> {
    match w.place
    case Unlock(k) => [k] + w.chunks
    case Add(k) => [k] + w.chunks
    case _ => w.chunks
  }

  ghost predicate Descending(s: seq<nat>) {
    forall i, j :: 0 <= i < j < |s| ==> s[i] > s[j]
  }

  ghost predicate Right(cfg: Config, s: State, i: nat)
    requires i < |s.workers| && Sensible(cfg)
  {
    var w := s.workers[i];
    && (w.place.Increment? ==> w.place.k == s.next < Total(cfg))
    && (w.place.UnlockLast? || w.place.Ended? ==> s.next == Total(cfg))
    && Descending(Claimed(w))
    && |s.owner| == s.next
    && forall k :: k in Claimed(w) <==> 0 <= k < s.next && s.owner[k] == i
  }

  ghost predicate Locked(s: State) {
    && (forall i, j :: 0 <= i < j < |s.workers| ==> !(Holding(s.workers[i]) && Holding(s.workers[j])))
    && (forall i :: 0 <= i < |s.workers| && Holding(s.workers[i]) ==> s.locked)
    && (s.locked ==> exists i :: 0 <= i < |s.workers| && Holding(s.workers[i]))
  }

  ghost predicate Inv(cfg: Config, s: State) {
    && Sensible(cfg) && |s.workers| == cfg.threads && |s.owner| == s.next <= Total(cfg)
    && (forall k :: 0 <= k < s.next ==> s.owner[k] < cfg.threads)
    && (forall i :: 0 <= i < cfg.threads ==> Right(cfg, s, i))
    && Locked(s)
  }

  lemma StepLocked(cfg: Config, s: State, i: nat)
    requires Sensible(cfg) && Locked(s) && Enabled(s, i)
    ensures Locked(Step(cfg, s, i))
  {
    var t := Step(cfg, s, i);
    if t.locked {
      var h := if Holding(t.workers[i]) then i else var h :| 0 <= h < |s.workers| && Holding(s.workers[h]); h;
      assert Holding(t.workers[h]);
    }
  }

  lemma Prepend(k: nat, s: seq<nat>)
    requires Descending(s) && forall x :: x in s ==> x < k
    ensures Descending([k] + s)
  {
    assert forall i :: 0 <= i < |s| ==> s[i] in s;
  }

  lemma StepOwn(cfg: Config, s: State, i: nat)
    requires Inv(cfg, s) && Enabled(s, i)
    ensures Right(cfg, Step(cfg, s, i), i)
  {
    assert Right(cfg, s, i);
    var w, t := s.workers[i], Step(cfg, s, i);
    if w.place.Increment? {
      Prepend(s.next, w.chunks);
      assert forall k :: k in Claimed(t.workers[i]) <==> k == s.next || k in w.chunks;
    } else {
      assert Claimed(t.workers[i]) == Claimed(w);
    }
  }

  lemma StepOther(cfg: Config, s: State, i: nat, j: nat)
    requires Inv(cfg, s) && Enabled(s, i) && j < cfg.threads && j != i
    ensures Right(cfg, Step(cfg, s, i), j)
  {
    assert Right(cfg, s, i) && Right(cfg, s, j);
    assert s.workers[i].place.Increment? ==> !Holding(s.workers[j]);
  }

  lemma StepInv(cfg: Config, s: State, i: nat)
    requires Inv(cfg, s) && Enabled(s, i)
    ensures Inv(cfg, Step(cfg, s, i))
  {
    StepLocked(cfg, s, i);
    StepOwn(cfg, s, i);
    forall j | 0 <= j < cfg.threads && j != i ensures Right(cfg, Step(cfg, s, i), j) {
      StepOther(cfg, s, i, j);
    }
    assert Right(cfg, s, i);
  }

  lemma {:induction false} RunInv(cfg: Config, run: seq<State>)
    requires IsRun(cfg, run)
    ensures Inv(cfg, run[|run| - 1])
  {
    if |run| > 1 {
      var r, s := run[|run| - 2], run[|run| - 1];
      RunInv(cfg, run[..|run| - 1]);
      assert Next(cfg, r, s);
      var i :| Enabled(r, i) && s == Step(cfg, r, i);
      StepInv(cfg, r, i);
    }
  }

  lemma ReachableInv(cfg: Config, s: State)
    requires Reachable(cfg, s)
    ensures Inv(cfg, s)
  {
    var run :| IsRun(cfg, run) && run[|run| - 1] == s;
    RunInv(cfg, run);
  }

  lemma Continued(cfg: Config, s: State, i: nat)
    requires Reachable(cfg, s) && Enabled(s, i)
    ensures Sensible(cfg) && Reachable(cfg, Step(cfg, s, i))
  {
    var run :| IsRun(cfg, run) && run[|run| - 1] == s;
    assert Next(cfg, s, Step(cfg, s, i));
    assert IsRun(cfg, run + [Step(cfg, s, i)]);
  }

  // ----- the guarantees

  /** No chunk is claimed twice, and every thread's list is in descending order. */
  lemma ClaimedOnce(cfg: Config, s: State, i: nat, j: nat)
    requires Reachable(cfg, s) && i < j < |s.workers|
    ensures forall k :: k in s.workers[i].chunks ==> k !in s.workers[j].chunks
    ensures Descending(s.workers[i].chunks) && Descending(s.workers[j].chunks)
  {
    ReachableInv(cfg, s);
    ChunksClaimed(cfg, s, i);
    ChunksClaimed(cfg, s, j);
  }

  lemma ChunksClaimed(cfg: Config, s: State, i: nat)
    requires Inv(cfg, s) && i < |s.workers|
    ensures Descending(s.workers[i].chunks)
    ensures forall k :: k in s.workers[i].chunks ==> 0 <= k < s.next && s.owner[k] == i
  {
    assert Right(cfg, s, i);
    var w := s.workers[i];
    if w.place.Unlock? || w.place.Add? {
      assert Claimed(w) == [w.place.k] + w.chunks && w.chunks == Claimed(w)[1..];
    }
    forall k | k in w.chunks ensures k in Claimed(w) { }
  }

  /** When all threads are gone (and there is at least one), exactly the chunks of the file are in their lists. */
  lemma AllChunksClaimed(cfg: Config, s: State, k: nat)
    requires Reachable(cfg, s) && cfg.threads > 0
    requires forall i :: 0 <= i < |s.workers| ==> s.workers[i].place.Ended?
    ensures k < Total(cfg) <==> exists i :: 0 <= i < |s.workers| && k in s.workers[i].chunks
  {
    ReachableInv(cfg, s);
    assert Right(cfg, s, 0);
    if k < Total(cfg) { assert Right(cfg, s, s.owner[k]); }
    if i :| 0 <= i < |s.workers| && k in s.workers[i].chunks { ChunksClaimed(cfg, s, i); }
  }

  /** The threads never block each other for good. */
  lemma NoDeadlock(cfg: Config, s: State) returns (i: nat)
    requires Reachable(cfg, s) && exists i :: 0 <= i < |s.workers| && !s.workers[i].place.Ended?
    ensures Enabled(s, i)
  {
    ReachableInv(cfg, s);
    i :| 0 <= i < |s.workers| && (if s.locked then Holding(s.workers[i]) else !s.workers[i].place.Ended?);
  }

  /** How many steps are left for a worker that finds no more chunks, and what a claimed chunk adds to that. */
  function WorkerLeft(w: Worker): int {
    match w.place
    case Unlock(_) => 5 case Add(_) => 4 case WantLock => 3 case Test => 2
    case Increment(_) => 1 case UnlockLast => 1 case Ended => 0
  }

  function AllLeft(cfg: Config, s: State): int
    requires Sensible(cfg)
  {
    5 * (Total(cfg) - s.next) + Sum(s.workers, WorkerLeft)
  }

  lemma StepCounts(cfg: Config, s: State, i: nat)
    requires Sensible(cfg) && Enabled(s, i)
    ensures AllLeft(cfg, Step(cfg, s, i)) == AllLeft(cfg, s) - 1
  {
    SumUpdate(s.workers, WorkerLeft, i, Step(cfg, s, i).workers[i]);
  }

  lemma {:induction false} WorkersLeft(workers: seq<Worker>)
    ensures Sum(workers, WorkerLeft) >= 0
  {
    if workers != [] { WorkersLeft(workers[..|workers| - 1]); }
  }

  lemma LeftBounded(cfg: Config, s: State)
    requires Reachable(cfg, s)
    ensures Sensible(cfg) && 0 <= AllLeft(cfg, s)
  {
    ReachableInv(cfg, s);
    WorkersLeft(s.workers);
  }

  lemma {:induction false} RunCounts(cfg: Config, run: seq<State>)
    requires IsRun(cfg, run)
    ensures AllLeft(cfg, run[|run| - 1]) == 5 * Total(cfg) + cfg.threads * 3 + 1 - |run|
  {
    if |run| == 1 {
      SumConstant(run[0].workers, WorkerLeft, 3);
    } else {
      RunCounts(cfg, run[..|run| - 1]);
      var r, s := run[|run| - 2], run[|run| - 1];
      assert Next(cfg, r, s);
      var i :| Enabled(r, i) && s == Step(cfg, r, i);
      StepCounts(cfg, r, i);
    }
  }

  /** The threads take five steps for each chunk and three to leave, and no more ... */
  lemma RunsAreFinite(cfg: Config, run: seq<State>)
    requires IsRun(cfg, run)
    ensures |run| <= 5 * Total(cfg) + cfg.threads * 3 + 1
  {
    RunCounts(cfg, run);
    LeftBounded(cfg, run[|run| - 1]);
  }

  predicate AllEnded(s: State) {
    forall i :: 0 <= i < |s.workers| ==> s.workers[i].place.Ended?
  }

  /** ... and from every reachable state all of them can come to their end. */
  lemma RunsFinish(cfg: Config, s: State) returns (path: seq<State>)
    requires Reachable(cfg, s)
    ensures IsPath(cfg, path) && path[0] == s && AllEnded(path[|path| - 1])
    ensures Sensible(cfg)
    decreases if Sensible(cfg) then AllLeft(cfg, s) else 0
  {
    LeftBounded(cfg, s);
    if AllEnded(s) {
      path := [s];
    } else {
      var i := NoDeadlock(cfg, s);
      Continued(cfg, s, i);
      StepCounts(cfg, s, i);
      path := RunsFinish(cfg, Step(cfg, s, i));
      path := [s] + path;
    }
  }

  // ----- the program, in place

  /** The workers of the dispatch, from the places and the chunks of the threads. */
  function Zipped(places: seq<Place>, chunks: seq<seq<nat>>): (ws: seq<Worker>)
    requires |places| == |chunks|
    ensures |ws| == |places| && forall i :: 0 <= i < |ws| ==> ws[i] == Worker(places[i], chunks[i])
  {
    seq(|places|, i requires 0 <= i < |places| => Worker(places[i], chunks[i]))
  }

  class Dispatch {
    const cfg: Config
    var next: nat
    var locked: bool
    const places: array<Place>
    ghost var chunks: seq<seq<nat>>
    ghost var owner: seq<nat>

    constructor (cfg: Config)
      requires Sensible(cfg)
      ensures this.cfg == cfg && fresh(places)
      ensures Valid() && Now() == Init(cfg)
    {
      this.cfg := cfg;
      next, locked, owner := 0, false, [];
      places := new Place[cfg.threads](_ => WantLock);
      chunks := seq(cfg.threads, _ => []);
      new;
      assert Now().workers == Init(cfg).workers;
      assert IsRun(cfg, [Now()]);
    }

    ghost function Now(): State
      reads this, places
      requires places.Length == |chunks|
    {
      State(next, locked, Zipped(places[..], chunks), owner)
    }

    ghost predicate Valid()
      reads this, places
    {
      Sensible(cfg) && places.Length == |chunks| == cfg.threads && Reachable(cfg, Now())
    }

    /** The next step of thread i. */
    method Run(i: nat)
      requires Valid() && Enabled(Now(), i)
      modifies this, places
      ensures Valid() && Now() == Step(cfg, old(Now()), i)
      ensures chunks == if old(places[i]).Add? then old(chunks)[i := [old(places[i]).k] + old(chunks)[i]] else old(chunks)
    {
      ghost var s := Now();
      var place;
      match places[i] {
        case WantLock => locked, place := true, Test;
        case Test => place := if next >= Total(cfg) then UnlockLast else Increment(next);
        case Increment(k) => next, place, owner := next + 1, Unlock(k), owner + [i];
        case Unlock(k) => locked, place := false, Add(k);
        case Add(k) => place, chunks := WantLock, chunks[i := [k] + chunks[i]];
        case UnlockLast => locked, place := false, Ended;
      }
      places[i] := place;
      assert Now().workers == s.workers[i := Worker(places[i], chunks[i])];
      Continued(cfg, s, i);
    }
  }
}
