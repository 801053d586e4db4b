/** Readers and writers with a counted group of readers: any number of each. */
module ReadersWriters {
  import opened Counting

  /** A writer waits for rw_mtx, loads the counter, stores it, and posts rw_mtx. */
  datatype WriterPlace = Queueing | Load | Store | Post

  /** A reader waits for mtx, registers, takes rw_mtx if it is the first, posts mtx, reads and waits for mtx again, deregisters,
      gives rw_mtx back if it is the last, and posts mtx. What it does to readers_count under mtx is one step with the test after it. */
  datatype ReaderPlace = Arriving | Register | Take | PostIn | Reading | Deregister | Give | PostOut

  datatype Writer = Writer(place: WriterPlace, reg: int, rounds: nat)
  datatype Reader = Reader(place: ReaderPlace, rounds: nat)

  datatype State = State(mtx: int, readersCount: int, rwMtx: int, counter: int, writers: seq<Writer>, readers: seq<Reader>)

  datatype Action = Write(i: nat) | Read(i: nat)

  /** How many threads of each kind, and how many rounds each of them does. */
  datatype Config = Config(writers: nat, readers: nat, rounds: nat)

  ghost predicate Init(cfg: Config, s: State) {
    && |s.writers| == cfg.writers && (forall i :: 0 <= i < cfg.writers ==> s.writers[i] == Writer(Queueing, 0, 0))
    && |s.readers| == cfg.readers && (forall i :: 0 <= i < cfg.readers ==> s.readers[i] == Reader(Arriving, 0))
    && s.mtx == 1 && s.readersCount == 0 && s.rwMtx == 1 && s.counter == 0
  }

  predicate Enabled(cfg: Config, s: State, a: Action) {
    match a
    case Write(i) => i < |s.writers| && (s.writers[i].place.Queueing? ==> s.rwMtx > 0 && s.writers[i].rounds < cfg.rounds)
    case Read(i) =>
      && i < |s.readers|
      && match s.readers[i].place
         case Arriving => s.mtx > 0 && s.readers[i].rounds < cfg.rounds
         case Reading => s.mtx > 0
         case Take => s.rwMtx > 0
         case _ => true
  }

  function WriteStep(s: State, i: nat): State
    requires i < |s.writers|
  {
    var w := s.writers[i];
    match w.place
    case Queueing => s.(rwMtx := s.rwMtx - 1, writers := s.writers[i := w.(place := Load)])
    case Load => s.(writers := s.writers[i := w.(place := Store, reg := s.counter)])
    case Store => s.(counter := w.reg + 1, writers := s.writers[i := w.(place := Post)])
    case Post => s.(rwMtx := s.rwMtx + 1, writers := s.writers[i := Writer(Queueing, w.reg, w.rounds + 1)])
  }

  function ReadStep(s: State, i: nat): State
    requires i < |s.readers|
  {
    var r := s.readers[i];
    match r.place
    case Arriving => s.(mtx := s.mtx - 1, readers := s.readers[i := r.(place := Register)])
    case Register =>
      var n := s.readersCount + 1;
      s.(readersCount := n, readers := s.readers[i := r.(place := if n == 1 then Take else PostIn)])
    case Take => s.(rwMtx := s.rwMtx - 1, readers := s.readers[i := r.(place := PostIn)])
    case PostIn => s.(mtx := s.mtx + 1, readers := s.readers[i := r.(place := Reading)])
    case Reading => s.(mtx := s.mtx - 1, readers := s.readers[i := r.(place := Deregister)])
    case Deregister =>
      var n := s.readersCount - 1;
      s.(readersCount := n, readers := s.readers[i := r.(place := if n == 0 then Give else PostOut)])
    case Give => s.(rwMtx := s.rwMtx + 1, readers := s.readers[i := r.(place := PostOut)])
    case PostOut => s.(mtx := s.mtx + 1, readers := s.readers[i := Reader(Arriving, r.rounds + 1)])
  }

  function Step(s: State, a: Action): State
    requires match a case Write(i) => i < |s.writers| case Read(i) => i < |s.readers|
  {
    match a
    case Write(i) => WriteStep(s, i)
    case Read(i) => ReadStep(s, i)
  }

  ghost predicate Next(cfg: Config, s: State, t: State) {
    exists a :: Enabled(cfg, s, a) && t == Step(s, a)
  }

  /** States, each reached from the one before by a step. */
  ghost predicate IsPath(cfg: Config, path: seq<State>) {
    path != [] && forall i :: 0 <= i < |path| - 1 ==> Next(cfg, path[i], path[i + 1])
  }

  /** A path from the initial state. */
  ghost predicate IsRun(cfg: Config, run: seq<State>) {
    IsPath(cfg, run) && Init(cfg, run[0])
  }

  /** The states of all runs. */
  ghost predicate Reachable(cfg: Config, s: State) {
    exists run :: IsRun(cfg, run) && run[|run| - 1] == s
  }

  predicate Finished(cfg: Config, s: State) {
    && (forall i :: 0 <= i < |s.writers| ==> s.writers[i].place.Queueing? && s.writers[i].rounds == cfg.rounds)
    && (forall i :: 0 <= i < |s.readers| ==> s.readers[i].place.Arriving? && s.readers[i].rounds == cfg.rounds)
  }

  // ----- what every step keeps

  predicate Writing(w: Writer) { !w.place.Queueing? }
  predicate Taking(r: Reader) { r.place.Take? }
  predicate Giving(r: Reader) { r.place.Give? }
  predicate Busy(r: Reader) { r.place.Register? || r.place.PostIn? || r.place.Deregister? || r.place.PostOut? }
  predicate Registered(r: Reader) {
    r.place.Take? || r.place.PostIn? || r.place.Reading? || r.place.Deregister?
  }

  /** How many readers are about to take rw_mtx, about to give it back, otherwise holding mtx, and registered. */
  datatype Tally = Tally(taking: int, giving: int, busy: int, registered: int)

  function TallyOf(readers: seq<Reader>): Tally {
    Tally(Count(readers, Taking), Count(readers, Giving), Count(readers, Busy), Count(readers, Registered))
  }

  function Single(r: Reader): Tally {
    Tally(Bit(Taking(r)), Bit(Giving(r)), Bit(Busy(r)), Bit(Registered(r)))
  }

  lemma TallyUpdate(readers: seq<Reader>, i: nat, r: Reader)
    requires i < |readers|
    ensures
      var t, t', x, y := TallyOf(readers), TallyOf(readers[i := r]), Single(readers[i]), Single(r);
      && t' == Tally(t.taking - x.taking + y.taking, t.giving - x.giving + y.giving,
                     t.busy - x.busy + y.busy, t.registered - x.registered + y.registered)
      && x.taking <= t.taking && x.giving <= t.giving && x.busy <= t.busy && x.registered <= t.registered
  {
    CountUpdate(readers, Taking, i, r);
    CountUpdate(readers, Giving, i, r);
    CountUpdate(readers, Busy, i, r);
    CountUpdate(readers, Registered, i, r);
    CountsPositive(readers);
  }

  lemma CountsPositive(readers: seq<Reader>)
    ensures Count(readers, Taking) > 0 <==> exists i :: 0 <= i < |readers| && Taking(readers[i])
    ensures Count(readers, Giving) > 0 <==> exists i :: 0 <= i < |readers| && Giving(readers[i])
    ensures Count(readers, Busy) > 0 <==> exists i :: 0 <= i < |readers| && Busy(readers[i])
    ensures Count(readers, Registered) > 0 <==> exists i :: 0 <= i < |readers| && Registered(readers[i])
  {
    CountPositive(readers, Taking);
    CountPositive(readers, Giving);
    CountPositive(readers, Busy);
    CountPositive(readers, Registered);
  }

  /** The readers hold rw_mtx as a group: from when the first one has taken it until the last one gives it back. */
  predicate GroupHolds(readersCount: int, t: Tally) {
    (readersCount > 0 && t.taking == 0) || t.giving > 0
  }

  predicate Balanced(mtx: int, readersCount: int, rwMtx: int, writing: int, t: Tally) {
    && 0 <= mtx == 1 - t.taking - t.giving - t.busy
    && readersCount == t.registered
    && (t.taking > 0 ==> readersCount == 1)
    && (t.giving > 0 ==> readersCount == 0)
    && 0 <= rwMtx == 1 - writing - Bit(GroupHolds(readersCount, t))
  }

  function Stored(w: Writer): int { w.rounds + Bit(w.place.Post?) }

  ghost predicate Semaphores(s: State) {
    Balanced(s.mtx, s.readersCount, s.rwMtx, Count(s.writers, Writing), TallyOf(s.readers))
  }

  ghost predicate Writes(cfg: Config, s: State) {
    && s.counter == Sum(s.writers, Stored)
    && forall i :: 0 <= i < |s.writers| ==>
         && (s.writers[i].place.Store? ==> s.writers[i].reg == s.counter)
         && s.writers[i].rounds <= cfg.rounds
         && (s.writers[i].rounds == cfg.rounds ==> s.writers[i].place.Queueing?)
  }

  ghost predicate Inv(cfg: Config, s: State) {
    && |s.writers| == cfg.writers && |s.readers| == cfg.readers
    && Semaphores(s) && Writes(cfg, s)
    && forall i :: 0 <= i < |s.readers| ==>
         && s.readers[i].rounds <= cfg.rounds
         && (s.readers[i].rounds == cfg.rounds ==> s.readers[i].place.Arriving?)
  }

  lemma OneWriter(s: State, i: nat, j: nat)
    requires Semaphores(s) && i < |s.writers| && j < |s.writers| && Writing(s.writers[i]) && Writing(s.writers[j])
    ensures i == j
  {
    if i < j { CountTwo(s.writers, Writing, i, j); } else if j < i { CountTwo(s.writers, Writing, j, i); }
  }

  lemma ReadKeepsSemaphores(cfg: Config, s: State, i: nat)
    requires Semaphores(s) && Enabled(cfg, s, Read(i))
    ensures Semaphores(ReadStep(s, i))
  {
    TallyUpdate(s.readers, i, ReadStep(s, i).readers[i]);
  }

  lemma ReadKeeps(cfg: Config, s: State, i: nat)
    requires Inv(cfg, s) && Enabled(cfg, s, Read(i))
    ensures Inv(cfg, ReadStep(s, i))
  {
    ReadKeepsSemaphores(cfg, s, i);
  }

  lemma WriteKeepsSemaphores(cfg: Config, s: State, i: nat)
    requires Semaphores(s) && Enabled(cfg, s, Write(i))
    ensures Semaphores(WriteStep(s, i))
  {
    CountUpdate(s.writers, Writing, i, WriteStep(s, i).writers[i]);
  }

  lemma WriteKeeps(cfg: Config, s: State, i: nat)
    requires Inv(cfg, s) && Enabled(cfg, s, Write(i))
    ensures Inv(cfg, WriteStep(s, i))
  {
    WriteKeepsSemaphores(cfg, s, i);
    SumUpdate(s.writers, Stored, i, WriteStep(s, i).writers[i]);
    if s.writers[i].place.Store? {
      forall j | 0 <= j < |s.writers| && s.writers[j].place.Store? ensures j == i {
        OneWriter(s, i, j);
      }
    }
  }

  lemma InitSemaphores(cfg: Config, s: State)
    requires Init(cfg, s)
    ensures Semaphores(s)
  {
    CountNone(s.writers, Writing);
    CountNone(s.readers, Taking);
    CountNone(s.readers, Giving);
    CountNone(s.readers, Busy);
    CountNone(s.readers, Registered);
  }

  lemma InitWrites(cfg: Config, s: State)
    requires Init(cfg, s)
    ensures Writes(cfg, s)
  {
    forall i | 0 <= i < |s.writers| ensures Stored(s.writers[i]) == 0 {
      assert s.writers[i] == Writer(Queueing, 0, 0);
    }
    SumZero(s.writers, Stored);
  }

  lemma InitInv(cfg: Config, s: State)
    requires Init(cfg, s)
    ensures Inv(cfg, s)
  {
    InitSemaphores(cfg, s);
    InitWrites(cfg, s);
  }

  lemma {:induction false} RunInv(cfg: Config, run: seq<State>)
    requires IsRun(cfg, run)
    ensures Inv(cfg, run[|run| - 1])
  {
    if |run| == 1 {
      InitInv(cfg, run[0]);
    } else {
      var r, s := run[|run| - 2], run[|run| - 1];
      RunInv(cfg, run[..|run| - 1]);
      assert Next(cfg, r, s);
      var a :| Enabled(cfg, r, a) && s == Step(r, a);
      match a
      case Write(i) => WriteKeeps(cfg, r, i);
      case Read(i) => ReadKeeps(cfg, r, i);
    }
  }

  lemma ReachableInv(cfg: Config, s: State)
    requires Reachable(cfg, s)
    ensures Inv(cfg, s)
  {
    var run :| IsRun(cfg, run) && run[|run| - 1] == s;
    RunInv(cfg, run);
  }

  lemma Extended(cfg: Config, run: seq<State>, a: Action)
    requires IsRun(cfg, run) && Enabled(cfg, run[|run| - 1], a)
    ensures IsRun(cfg, run + [Step(run[|run| - 1], a)])
  {
    assert Next(cfg, run[|run| - 1], Step(run[|run| - 1], a));
  }

  lemma Continued(cfg: Config, s: State, a: Action)
    requires Reachable(cfg, s) && Enabled(cfg, s, a)
    ensures Reachable(cfg, Step(s, a))
  {
    var run :| IsRun(cfg, run) && run[|run| - 1] == s;
    Extended(cfg, run, a);
  }

  // ----- the guarantees

  /** A writer in its section is alone: no other writer writes and no reader reads. */
  lemma Exclusion(cfg: Config, s: State, i: nat)
    requires Reachable(cfg, s) && i < |s.writers| && Writing(s.writers[i])
    ensures forall j :: 0 <= j < |s.writers| && j != i ==> !Writing(s.writers[j])
    ensures forall j :: 0 <= j < |s.readers| ==> !s.readers[j].place.Reading?
  {
    ReachableInv(cfg, s);
    CountPositive(s.writers, Writing);
    forall j | 0 <= j < |s.writers| && Writing(s.writers[j]) ensures i == j {
      OneWriter(s, i, j);
    }
    forall j | 0 <= j < |s.readers| ensures !s.readers[j].place.Reading? {
      if s.readers[j].place.Reading? { ReaderIsInGroup(s, j); }
    }
  }

  lemma ReaderIsInGroup(s: State, j: nat)
    requires Semaphores(s) && j < |s.readers| && s.readers[j].place.Reading?
    ensures GroupHolds(s.readersCount, TallyOf(s.readers))
  {
    assert Registered(s.readers[j]);
    CountsPositive(s.readers);
    if k :| 0 <= k < |s.readers| && Taking(s.readers[k]) {
      if j < k { CountTwo(s.readers, Registered, j, k); } else { CountTwo(s.readers, Registered, k, j); }
    }
  }

  /** rw_mtx is free, or held by one writer, or by the group of readers; and readers_count is the number of registered readers. */
  lemma RwMtxHeldOnce(cfg: Config, s: State)
    requires Reachable(cfg, s)
    ensures s.rwMtx + Count(s.writers, Writing) + Bit(GroupHolds(s.readersCount, TallyOf(s.readers))) == 1 && 0 <= s.rwMtx
    ensures s.readersCount == Count(s.readers, Registered)
  {
    ReachableInv(cfg, s);
  }

  /** As long as some thread has rounds to go, some thread can take a step. */
  lemma NoDeadlock(cfg: Config, s: State) returns (a: Action)
    requires Reachable(cfg, s) && !Finished(cfg, s)
    ensures Enabled(cfg, s, a)
  {
    ReachableInv(cfg, s);
    CountPositive(s.writers, Writing);
    CountsPositive(s.readers);
    if i :| 0 <= i < |s.writers| && Writing(s.writers[i]) {
      a := Write(i);
    } else if i :| 0 <= i < |s.readers| && (Giving(s.readers[i]) || Busy(s.readers[i])) {
      a := Read(i);
    } else if i :| 0 <= i < |s.readers| && Taking(s.readers[i]) {
      a := Read(i);
    } else if i :| 0 <= i < |s.readers| && (s.readers[i].place.Reading? || s.readers[i].rounds < cfg.rounds) {
      a := Read(i);
    } else {
      var i :| 0 <= i < |s.writers| && s.writers[i].rounds < cfg.rounds;
      a := Write(i);
    }
  }

  /** No write is lost: at the end the counter is the number of all writes. */
  lemma AllWritesCount(cfg: Config, s: State)
    requires Reachable(cfg, s) && Finished(cfg, s)
    ensures s.counter == cfg.writers * cfg.rounds && s.mtx == 1 && s.rwMtx == 1
  {
    ReachableInv(cfg, s);
    SumConstant(s.writers, Stored, cfg.rounds);
    CountPositive(s.writers, Writing);
    CountsPositive(s.readers);
  }

  // ----- readers share

  /** The first k readers read; nobody else has begun. */
  ghost function Sharing(cfg: Config, k: nat, place: ReaderPlace, mtx: int, count: nat, rwMtx: int): State
    requires k <= cfg.readers
  {
    State(mtx, count, rwMtx, 0, seq(cfg.writers, _ => Writer(Queueing, 0, 0)),
          seq(cfg.readers, i => if i < k then Reader(Reading, 0) else if i == k then Reader(place, 0) else Reader(Arriving, 0)))
  }

  lemma Shared(cfg: Config, k: nat, place: ReaderPlace, mtx: int, count: nat, rwMtx: int, next: State)
    requires k < cfg.readers && cfg.rounds > 0
    requires Reachable(cfg, Sharing(cfg, k, place, mtx, count, rwMtx))
    requires Enabled(cfg, Sharing(cfg, k, place, mtx, count, rwMtx), Read(k))
    requires next == ReadStep(Sharing(cfg, k, place, mtx, count, rwMtx), k)
    ensures Reachable(cfg, next)
  {
    Continued(cfg, Sharing(cfg, k, place, mtx, count, rwMtx), Read(k));
  }

  lemma OneMoreReads(cfg: Config, k: nat)
    requires k < cfg.readers && cfg.rounds > 0
    requires Reachable(cfg, Sharing(cfg, k, Arriving, 1, k, if k == 0 then 1 else 0))
    ensures Reachable(cfg, Sharing(cfg, k + 1, Arriving, 1, k + 1, 0))
  {
    var free := if k == 0 then 1 else 0;
    Shared(cfg, k, Arriving, 1, k, free, Sharing(cfg, k, Register, 0, k, free));
    if k == 0 {
      Shared(cfg, k, Register, 0, k, free, Sharing(cfg, k, Take, 0, k + 1, free));
      Shared(cfg, k, Take, 0, k + 1, free, Sharing(cfg, k, PostIn, 0, k + 1, 0));
    } else {
      Shared(cfg, k, Register, 0, k, free, Sharing(cfg, k, PostIn, 0, k + 1, 0));
    }
    Shared(cfg, k, PostIn, 0, k + 1, 0, Sharing(cfg, k + 1, Arriving, 1, k + 1, 0));
  }

  lemma {:induction false} SharingReachable(cfg: Config, k: nat)
    requires k <= cfg.readers && cfg.rounds > 0
    ensures Reachable(cfg, Sharing(cfg, k, Arriving, 1, k, if k == 0 then 1 else 0))
  {
    if k == 0 {
      assert IsRun(cfg, [Sharing(cfg, 0, Arriving, 1, 0, 1)]);
    } else {
      SharingReachable(cfg, k - 1);
      OneMoreReads(cfg, k - 1);
    }
  }

  /** Readers do not shut each other out: any number of them can be reading at once. */
  lemma ReadersShare(cfg: Config, k: nat)
    requires k <= cfg.readers && cfg.rounds > 0
    ensures exists s ::
              && Reachable(cfg, s) && |s.readers| == cfg.readers
              && forall i :: 0 <= i < cfg.readers ==> (s.readers[i].place.Reading? <==> i < k)
  {
    SharingReachable(cfg, k);
    var s := Sharing(cfg, k, Arriving, 1, k, if k == 0 then 1 else 0);
    assert |s.readers| == cfg.readers;
  }

  // ----- progress

  /** How many steps a thread has taken, a reader's optional two included. */
  function WriterTaken(w: Writer): int {
    4 * w.rounds + match w.place case Queueing => 0 case Load => 1 case Store => 2 case Post => 3
  }

  function ReaderTaken(r: Reader): int {
    8 * r.rounds
    + match r.place
      case Arriving => 0 case Register => 1 case Take => 2 case PostIn => 3
      case Reading => 4 case Deregister => 5 case Give => 6 case PostOut => 7
  }

  function AllTaken(s: State): int { Sum(s.writers, WriterTaken) + Sum(s.readers, ReaderTaken) }

  lemma WriteCounts(s: State, i: nat)
    requires i < |s.writers|
    ensures AllTaken(s) < AllTaken(WriteStep(s, i))
  {
    SumUpdate(s.writers, WriterTaken, i, WriteStep(s, i).writers[i]);
  }

  lemma ReadCounts(s: State, i: nat)
    requires i < |s.readers|
    ensures AllTaken(s) < AllTaken(ReadStep(s, i))
  {
    var r := ReadStep(s, i).readers[i];
    SumUpdate(s.readers, ReaderTaken, i, r);
    assert ReaderTaken(s.readers[i]) < ReaderTaken(r);
  }

  /** No run is endless: every step counts ... */
  lemma EveryStepCounts(cfg: Config, s: State, t: State)
    requires Next(cfg, s, t)
    ensures AllTaken(s) < AllTaken(t)
  {
    var a :| Enabled(cfg, s, a) && t == Step(s, a);
    match a
    case Write(i) => WriteCounts(s, i);
    case Read(i) => ReadCounts(s, i);
  }

  lemma WriterBounded(w: Writer, rounds: nat)
    requires w.rounds <= rounds && (w.rounds == rounds ==> w.place.Queueing?)
    ensures WriterTaken(w) <= 4 * rounds
  {}

  lemma ReaderBounded(r: Reader, rounds: nat)
    requires r.rounds <= rounds && (r.rounds == rounds ==> r.place.Arriving?)
    ensures ReaderTaken(r) <= 8 * rounds
  {}

  /** ... and each thread has only so many. With NoDeadlock, every run that goes on as long as it can ends with all rounds done. */
  lemma StepsBounded(cfg: Config, s: State)
    requires Reachable(cfg, s)
    ensures forall i :: 0 <= i < |s.writers| ==> WriterTaken(s.writers[i]) <= 4 * cfg.rounds
    ensures forall i :: 0 <= i < |s.readers| ==> ReaderTaken(s.readers[i]) <= 8 * cfg.rounds
  {
    ReachableInv(cfg, s);
    forall i | 0 <= i < |s.writers| ensures WriterTaken(s.writers[i]) <= 4 * cfg.rounds {
      WriterBounded(s.writers[i], cfg.rounds);
    }
    forall i | 0 <= i < |s.readers| ensures ReaderTaken(s.readers[i]) <= 8 * cfg.rounds {
      ReaderBounded(s.readers[i], cfg.rounds);
    }
  }

  lemma {:induction false} RunTaken(cfg: Config, run: seq<State>)
    requires IsRun(cfg, run)
    ensures AllTaken(run[|run| - 1]) >= |run| - 1
  {
    if |run| == 1 {
      SumZero(run[0].writers, WriterTaken);
      SumZero(run[0].readers, ReaderTaken);
    } else {
      RunTaken(cfg, run[..|run| - 1]);
      assert Next(cfg, run[|run| - 2], run[|run| - 1]);
      EveryStepCounts(cfg, run[|run| - 2], run[|run| - 1]);
    }
  }

  /** The most steps that all threads together can take. */
  function Bound(cfg: Config): int { cfg.writers * (4 * cfg.rounds) + cfg.readers * (8 * cfg.rounds) }

  /** So no run is longer than this ... */
  lemma RunsAreFinite(cfg: Config, run: seq<State>)
    requires IsRun(cfg, run)
    ensures |run| <= Bound(cfg) + 1
  {
    RunTaken(cfg, run);
    TakenBounded(cfg, run[|run| - 1]);
  }

  lemma TakenBounded(cfg: Config, s: State)
    requires Reachable(cfg, s)
    ensures AllTaken(s) <= Bound(cfg)
  {
    StepsBounded(cfg, s);
    ReachableInv(cfg, s);
    SumAtMost(s.writers, WriterTaken, 4 * cfg.rounds);
    SumAtMost(s.readers, ReaderTaken, 8 * cfg.rounds);
  }

  /** ... and from every reachable state the end of all rounds can be reached. */
  lemma RunsFinish(cfg: Config, s: State) returns (path: seq<State>)
    requires Reachable(cfg, s)
    ensures IsPath(cfg, path) && path[0] == s && Finished(cfg, path[|path| - 1])
    decreases Bound(cfg) - AllTaken(s)
  {
    TakenBounded(cfg, s);
    if Finished(cfg, s) {
      path := [s];
    } else {
      var a := NoDeadlock(cfg, s);
      Continued(cfg, s, a);
      EveryStepCounts(cfg, s, Step(s, a));
      path := RunsFinish(cfg, Step(s, a));
      path := [s] + path;
    }
  }

  // ----- the program, in place

  class Program {
    const cfg: Config
    var mtx: int
    var readersCount: int
    var rwMtx: int
    var counter: int
    const writers: array<Writer>
    const readers: array<Reader>

    constructor (cfg: Config)
      ensures this.cfg == cfg && fresh(writers) && fresh(readers)
      ensures Valid() && Init(cfg, Now())
    {
      this.cfg := cfg;
      mtx, readersCount, rwMtx, counter := 1, 0, 1, 0;
      writers := new Writer[cfg.writers](_ => Writer(Queueing, 0, 0));
      readers := new Reader[cfg.readers](_ => Reader(Arriving, 0));
      new;
      assert IsRun(cfg, [Now()]);
    }

    ghost function Now(): State
      reads this, writers, readers
    {
      State(mtx, readersCount, rwMtx, counter, writers[..], readers[..])
    }

    ghost predicate Valid()
      reads this, writers, readers
    {
      Reachable(cfg, Now())
    }

    /** A writer in its section is alone, and at the end every write has counted. */
    ghost predicate Safe()
      reads this, writers, readers
    {
      && (forall i, j :: 0 <= i < writers.Length && 0 <= j < writers.Length && Writing(writers[i]) && Writing(writers[j]) ==> i == j)
      && (forall i, j :: 0 <= i < writers.Length && 0 <= j < readers.Length && Writing(writers[i]) ==> !readers[j].place.Reading?)
      && 0 <= mtx <= 1 && 0 <= rwMtx <= 1
      && (Finished(cfg, Now()) ==> counter == cfg.writers * cfg.rounds)
    }

    lemma IsSafe()
      requires Valid()
      ensures Safe()
    {
      var s := Now();
      ReachableInv(cfg, s);
      forall i | 0 <= i < writers.Length && Writing(writers[i])
        ensures forall j :: 0 <= j < writers.Length && Writing(writers[j]) ==> i == j
        ensures forall j :: 0 <= j < readers.Length ==> !readers[j].place.Reading?
      {
        Exclusion(cfg, s, i);
      }
      CountsPositive(s.readers);
      CountPositive(s.writers, Writing);
      if Finished(cfg, s) { AllWritesCount(cfg, s); }
    }

    /** The next atomic step of writer i. */
    method WriterStep(i: nat)
      requires Valid() && Enabled(cfg, Now(), Write(i))
      modifies this, writers
      ensures Valid() && Safe()
      ensures Now() == WriteStep(old(Now()), i)
    {
      ghost var s := Now();
      Continued(cfg, s, Write(i));
      var w := writers[i];
      match w.place {
        case Queueing =>
          rwMtx := rwMtx - 1;
          writers[i] := w.(place := Load);
        case Load => writers[i] := w.(place := Store, reg := counter);
        case Store =>
          counter := w.reg + 1;
          writers[i] := w.(place := Post);
        case Post =>
          rwMtx := rwMtx + 1;
          writers[i] := w.(place := Queueing, rounds := w.rounds + 1);
      }
      assert writers[..] == s.writers[i := writers[i]];
      IsSafe();
    }

    /** The next atomic step of reader i. */
    method ReaderStep(i: nat)
      requires Valid() && Enabled(cfg, Now(), Read(i))
      modifies this, readers
      ensures Valid() && Safe()
      ensures Now() == ReadStep(old(Now()), i)
    {
      ghost var s := Now();
      Continued(cfg, s, Read(i));
      var r := readers[i];
      match r.place {
        case Arriving =>
          mtx := mtx - 1;
          readers[i] := r.(place := Register);
        case Register =>
          readersCount := readersCount + 1;
          readers[i] := r.(place := if readersCount == 1 then Take else PostIn);
        case Take =>
          rwMtx := rwMtx - 1;
          readers[i] := r.(place := PostIn);
        case PostIn =>
          mtx := mtx + 1;
          readers[i] := r.(place := Reading);
        case Reading =>
          mtx := mtx - 1;
          readers[i] := r.(place := Deregister);
        case Deregister =>
          readersCount := readersCount - 1;
          readers[i] := r.(place := if readersCount == 0 then Give else PostOut);
        case Give =>
          rwMtx := rwMtx + 1;
          readers[i] := r.(place := PostOut);
        case PostOut =>
          mtx := mtx + 1;
          readers[i] := r.(place := Arriving, rounds := r.rounds + 1);
      }
      assert readers[..] == s.readers[i := readers[i]];
      IsSafe();
    }
  }
}
