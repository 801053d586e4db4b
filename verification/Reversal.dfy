/** Reversing a segment of an array cell by cell under per-cell mutexes, while any number of threads print the whole array. */
module Reversal {
  import opened Counting

  /** Between requests; waiting for the mutex of cell a, then of cell b; the three statements of the swap; the two unlocks;
      and moving a and b on. */
  datatype Place = Idle | LockA | LockB | Save | WriteA | WriteB | UnlockB | UnlockA | MoveOn

  datatype Main = Main(place: Place, a: int, b: int, temp: int)

  /** A printing thread takes the mutexes in ascending order, prints, and gives them back in descending order:
      `next` is the mutex or cell to come, or one more than the mutex to come. */
  datatype Printer = Locking(next: nat) | Printing(next: nat, out: seq<int>) | Unlocking(next: nat, out: seq<int>)

  datatype Owner = Nobody | TheMain | ThePrinter(p: nat)

  /** Beside the shared array and the mutexes: the array and the segment a request started from. */
  datatype State = State(cells: seq<int>, locks: seq<Owner>, main: Main, printers: seq<Printer>,
                         base: seq<int>, first: int, last: int)

  datatype Action = Request(a: nat, b: nat) | Spawn | MainStep | PrinterStep(p: nat)

  ghost function Init(n: nat): State {
    var cells := seq(n, i => i);
    State(cells, seq(n, _ => Nobody), Main(Idle, 0, -1, 0), [], cells, 0, -1)
  }

  /** Sizes and indices that make all accesses legal. */
  predicate Shaped(n: nat, s: State) {
    && |s.cells| == |s.locks| == |s.base| == n
    && (!s.main.place.Idle? && !s.main.place.MoveOn? ==> 0 <= s.main.a <= s.main.b < n)
    && forall p :: 0 <= p < |s.printers| ==>
         match s.printers[p]
         case Locking(k) => k <= n
         case Printing(k, out) => k <= n
         case Unlocking(k, out) => k <= n
  }

  predicate Done(p: Printer) {
    p.Unlocking? && p.next == 0
  }

  predicate Enabled(n: nat, s: State, act: Action)
    requires Shaped(n, s)
  {
    match act
    case Request(a, b) => s.main.place.Idle? && a <= b < n
    case Spawn => s.main.place.Idle?
    case MainStep =>
      && !s.main.place.Idle?
      && (s.main.place.LockA? ==> s.locks[s.main.a] == Nobody)
      && (s.main.place.LockB? ==> s.locks[s.main.b] == Nobody)
    case PrinterStep(p) =>
      && p < |s.printers| && !Done(s.printers[p])
      && (s.printers[p].Locking? && s.printers[p].next < n ==> s.locks[s.printers[p].next] == Nobody)
  }

  function AdvanceMain(s: State): State
    requires Shaped(|s.cells|, s) && !s.main.place.Idle?
  {
    var m := s.main;
    match m.place
    case LockA => s.(locks := s.locks[m.a := TheMain], main := m.(place := LockB))
    case LockB => s.(locks := s.locks[m.b := TheMain], main := m.(place := Save))
    case Save => s.(main := m.(place := WriteA, temp := s.cells[m.a]))
    case WriteA => s.(cells := s.cells[m.a := s.cells[m.b]], main := m.(place := WriteB))
    case WriteB => s.(cells := s.cells[m.b := m.temp], main := m.(place := UnlockB))
    case UnlockB => s.(locks := s.locks[m.b := Nobody], main := m.(place := UnlockA))
    case UnlockA => s.(locks := s.locks[m.a := Nobody], main := m.(place := MoveOn))
    case MoveOn => s.(main := Main(if m.a + 1 >= m.b - 1 then Idle else LockA, m.a + 1, m.b - 1, m.temp))
  }

  function AdvancePrinter(s: State, p: nat): State
    requires Shaped(|s.cells|, s) && p < |s.printers| && !Done(s.printers[p])
  {
    match s.printers[p]
    case Locking(k) =>
      if k < |s.cells| then s.(locks := s.locks[k := ThePrinter(p)], printers := s.printers[p := Locking(k + 1)])
      else s.(printers := s.printers[p := Printing(0, [])])
    case Printing(k, out) =>
      if k < |s.cells| then s.(printers := s.printers[p := Printing(k + 1, out + [s.cells[k]])])
      else s.(printers := s.printers[p := Unlocking(|s.cells|, out)])
    case Unlocking(k, out) =>
      s.(locks := s.locks[k - 1 := Nobody], printers := s.printers[p := Unlocking(k - 1, out)])
  }

  function Step(n: nat, s: State, act: Action): State
    requires Shaped(n, s) && Enabled(n, s, act)
  {
    match act
    case Request(a, b) => s.(main := Main(LockA, a, b, 0), base := s.cells, first := a, last := b)
    case Spawn => s.(printers := s.printers + [Locking(0)])
    case MainStep => AdvanceMain(s)
    case PrinterStep(p) => AdvancePrinter(s, p)
  }

  ghost predicate Next(n: nat, s: State, t: State) {
    Shaped(n, s) && exists act :: Enabled(n, s, act) && t == Step(n, s, act)
  }

  /** States, each reached from the one before by a step. */
  ghost predicate IsPath(n: nat, path: seq<State>) {
    path != [] && forall i :: 0 <= i < |path| - 1 ==> Next(n, path[i], path[i + 1])
  }

  /** A path from the initial state. */
  ghost predicate IsRun(n: nat, run: seq<State>) {
    IsPath(n, run) && run[0] == Init(n)
  }

  /** The states of all runs. */
  ghost predicate Reachable(n: nat, s: State) {
    exists run :: IsRun(n, run) && run[|run| - 1] == s
  }

  // ----- reversing a segment

  /** The segment first..last of an array turned round. */
  function Reversed(s: seq<int>, first: int, last: int): seq<int>
    requires 0 <= first && last < |s|
  {
    seq(|s|, x requires 0 <= x < |s| => if first <= x <= last then s[first + last - x] else s[x])
  }

  /** The same, done only outside a..b. */
  function Partly(s: seq<int>, first: int, last: int, a: int, b: int): seq<int>
    requires 0 <= first <= a && b <= last < |s| && a - first == last - b
  {
    seq(|s|, x requires 0 <= x < |s| => if first <= x <= last && (x < a || b < x) then s[first + last - x] else s[x])
  }

  function Swap(s: seq<int>, i: int, j: int): seq<int>
    requires 0 <= i < |s| && 0 <= j < |s|
  {
    s[i := s[j]][j := s[i]]
  }

  lemma PartlyNext(s: seq<int>, first: int, last: int, a: int, b: int)
    requires 0 <= first <= a < b <= last < |s| && a - first == last - b
    ensures Swap(Partly(s, first, last, a, b), a, b) == Partly(s, first, last, a + 1, b - 1)
  {
  }

  lemma PartlyAll(s: seq<int>, first: int, last: int, a: int, b: int)
    requires 0 <= first <= a && b <= last < |s| && a - first == last - b && b <= a <= b + 2
    ensures Partly(s, first, last, a, b) == Reversed(s, first, last)
  {
  }

  lemma SwapPermutes(s: seq<int>, i: int, j: int)
    requires 0 <= i < |s| && 0 <= j < |s|
    ensures multiset(Swap(s, i, j)) == multiset(s)
  {
  }

  /** Turning a segment round twice gives the array back. */
  lemma ReversedTwice(s: seq<int>, first: int, last: int)
    requires 0 <= first && last < |s|
    ensures Reversed(Reversed(s, first, last), first, last) == s
  {
  }

  /** The loop of mainWork by itself, in place. */
  method ReverseInPlace(cells: array<int>, first: int, last: int)
    requires 0 <= first < last < cells.Length
    modifies cells
    ensures cells[..] == Reversed(old(cells[..]), first, last)
  {
    ghost var base := cells[..];
    var a, b := first, last;
    assert Partly(base, first, last, a, b) == base;
    while true
      invariant first <= a < b <= last && a - first == last - b
      invariant cells[..] == Partly(base, first, last, a, b)
      decreases b - a
    {
      PartlyNext(base, first, last, a, b);
      var temp := cells[a];
      cells[a] := cells[b];
      cells[b] := temp;
      a, b := a + 1, b - 1;
      if a >= b { break; }
    }
    PartlyAll(base, first, last, a, b);
  }

  // ----- what every step keeps

  ghost predicate MainHolds(m: Main, x: int) {
    match m.place
    case LockB => x == m.a
    case Save => x == m.a || x == m.b
    case WriteA => x == m.a || x == m.b
    case WriteB => x == m.a || x == m.b
    case UnlockB => x == m.a || x == m.b
    case UnlockA => x == m.a
    case _ => false
  }

  ghost predicate PrinterHolds(n: nat, p: Printer, x: int) {
    match p
    case Locking(k) => x < k
    case Printing(_, _) => x < n
    case Unlocking(k, _) => x < k
  }

  /** A mutex is owned by whoever is between locking and unlocking it. */
  ghost predicate LocksRight(n: nat, s: State)
    requires Shaped(n, s)
  {
    forall x :: 0 <= x < n ==>
      && (s.locks[x] == TheMain <==> MainHolds(s.main, x))
      && (s.locks[x].ThePrinter? ==> s.locks[x].p < |s.printers|)
      && forall p :: 0 <= p < |s.printers| ==> (s.locks[x] == ThePrinter(p) <==> PrinterHolds(n, s.printers[p], x))
  }

  predicate InRange(s: State) {
    && 0 <= s.first && s.last < |s.base|
    && s.first <= s.main.a && s.main.b <= s.last && s.main.a - s.first == s.last - s.main.b
  }

  /** Whether the swap of the present cells is over. */
  predicate Swapped(m: Main) {
    m.place.UnlockB? || m.place.UnlockA? || m.place.MoveOn?
  }

  /** The array as it is between two swaps: before the present one, or after it. */
  ghost function Whole(s: State): seq<int>
    requires InRange(s)
  {
    var d := if Swapped(s.main) then 1 else 0;
    Partly(s.base, s.first, s.last, s.main.a + d, s.main.b - d)
  }

  ghost predicate CellsRight(n: nat, s: State)
    requires Shaped(n, s)
  {
    var m := s.main;
    && InRange(s)
    && (match m.place
        case Idle => m.b <= m.a <= m.b + 2 && s.first != s.last
        case LockA => m.a <= m.b && (m.a == m.b ==> s.first == s.last)
        case LockB => m.a <= m.b && (m.a == m.b ==> s.first == s.last)
        case _ => m.a < m.b)
    && (m.place.WriteA? ==> m.temp == Whole(s)[m.a])
    && if m.place.WriteB? then m.temp == Whole(s)[m.a] && s.cells == Whole(s)[m.a := Whole(s)[m.b]]
       else s.cells == Whole(s)
  }

  function Numbers(n: nat): seq<int> { seq(n, i => i) }

  ghost predicate Permutes(n: nat, s: seq<int>) {
    |s| == n && multiset(s) == multiset(Numbers(n))
  }

  /** What a thread has printed so far is the array as it is; what it has printed in the end was the array. */
  ghost predicate PrintedRight(n: nat, cells: seq<int>, p: Printer) {
    match p
    case Locking(_) => true
    case Printing(k, out) => k <= |cells| && out == cells[..k]
    case Unlocking(_, out) => Permutes(n, out)
  }

  ghost predicate Inv(n: nat, s: State) {
    && Shaped(n, s) && LocksRight(n, s) && CellsRight(n, s)
    && Permutes(n, Whole(s))
    && forall p :: 0 <= p < |s.printers| ==> PrintedRight(n, s.cells, s.printers[p])
  }

  /** The array between swaps changes when a swap is completed, and then by that swap. */
  lemma WholeMoves(n: nat, s: State)
    requires Shaped(n, s) && CellsRight(n, s) && Enabled(n, s, MainStep)
    requires s.main.place.LockB? ==> s.main.a < s.main.b
    ensures InRange(AdvanceMain(s))
    ensures Whole(AdvanceMain(s)) ==
      if s.main.place.WriteB? then Swap(Whole(s), s.main.a, s.main.b) else Whole(s)
  {
    if s.main.place.WriteB? { PartlyNext(s.base, s.first, s.last, s.main.a, s.main.b); }
  }

  lemma MainKeepsCells(n: nat, s: State)
    requires Shaped(n, s) && CellsRight(n, s) && Enabled(n, s, MainStep)
    requires s.main.place.LockB? ==> s.main.a < s.main.b
    ensures Shaped(n, AdvanceMain(s)) && CellsRight(n, AdvanceMain(s))
  {
    WholeMoves(n, s);
    var w := Whole(s);
    var m, t := s.main, AdvanceMain(s);
    assert m.place.WriteA? ==> t.cells == w[m.a := w[m.b]];
    assert m.place.WriteB? ==> t.cells == Swap(w, m.a, m.b);
  }

  /** What main's taking or giving back a mutex does to the owners. */
  lemma MainSetsLock(n: nat, s: State, t: State, x: int, owner: Owner)
    requires Shaped(n, s) && Shaped(n, t) && LocksRight(n, s) && 0 <= x < n && t.printers == s.printers
    requires t.locks == s.locks[x := owner] && !s.locks[x].ThePrinter? && !owner.ThePrinter?
    requires forall y :: MainHolds(t.main, y) <==> if y == x then owner == TheMain else MainHolds(s.main, y)
    ensures LocksRight(n, t)
  {
    forall y | 0 <= y < n
      ensures t.locks[y] == TheMain <==> MainHolds(t.main, y)
      ensures t.locks[y].ThePrinter? ==> t.locks[y].p < |t.printers|
      ensures forall p :: 0 <= p < |t.printers| ==> (t.locks[y] == ThePrinter(p) <==> PrinterHolds(n, t.printers[p], y))
    {
      assert y != x ==> t.locks[y] == s.locks[y];
    }
  }

  lemma MainKeepsLocks(n: nat, s: State)
    requires Shaped(n, s) && LocksRight(n, s) && CellsRight(n, s) && Enabled(n, s, MainStep)
    ensures Shaped(n, AdvanceMain(s)) && LocksRight(n, AdvanceMain(s))
    ensures s.main.place.LockB? ==> s.main.a < s.main.b
  {
    var m, t := s.main, AdvanceMain(s);
    match m.place
    case LockA => MainSetsLock(n, s, t, m.a, TheMain);
    case LockB =>
      assert s.locks[m.a] == TheMain;
      MainSetsLock(n, s, t, m.b, TheMain);
    case UnlockB =>
      assert s.locks[m.b] == TheMain;
      MainSetsLock(n, s, t, m.b, Nobody);
    case UnlockA =>
      assert s.locks[m.a] == TheMain;
      MainSetsLock(n, s, t, m.a, Nobody);
    case Idle =>
    case Save | WriteA | WriteB | MoveOn =>
      assert forall y :: MainHolds(t.main, y) <==> MainHolds(s.main, y);
  }

  /** A thread that prints holds every mutex, so the array stands still. */
  lemma PrintingExcludes(n: nat, s: State, p: nat)
    requires Shaped(n, s) && LocksRight(n, s) && p < |s.printers| && s.printers[p].Printing?
    ensures forall x :: 0 <= x < n ==> !MainHolds(s.main, x)
    ensures !s.main.place.WriteA? && !s.main.place.WriteB?
  {
    forall x | 0 <= x < n ensures s.locks[x] == ThePrinter(p) {
      assert PrinterHolds(n, s.printers[p], x);
    }
    assert s.main.place.WriteA? || s.main.place.WriteB? ==> MainHolds(s.main, s.main.a);
  }

  lemma MainKeeps(n: nat, s: State)
    requires Inv(n, s) && Enabled(n, s, MainStep)
    ensures Inv(n, AdvanceMain(s))
  {
    MainKeepsLocks(n, s);
    MainKeepsCells(n, s);
    WholeMoves(n, s);
    if s.main.place.WriteB? { SwapPermutes(Whole(s), s.main.a, s.main.b); }
    var t := AdvanceMain(s);
    forall p | 0 <= p < |t.printers| ensures PrintedRight(n, t.cells, t.printers[p]) {
      if s.printers[p].Printing? { PrintingExcludes(n, s, p); }
    }
  }

  lemma PrinterKeepsLocks(n: nat, s: State, p: nat)
    requires Shaped(n, s) && LocksRight(n, s) && Enabled(n, s, PrinterStep(p))
    ensures Shaped(n, AdvancePrinter(s, p)) && LocksRight(n, AdvancePrinter(s, p))
  {
  }

  lemma PrinterKeepsPrint(n: nat, s: State, p: nat)
    requires Inv(n, s) && Enabled(n, s, PrinterStep(p))
    ensures PrintedRight(n, s.cells, AdvancePrinter(s, p).printers[p])
  {
    assert PrintedRight(n, s.cells, s.printers[p]);
    if s.printers[p].Printing? {
      PrintingExcludes(n, s, p);
      assert s.cells[..n] == s.cells;
    }
  }

  lemma CellsUntouched(n: nat, s: State, t: State)
    requires Shaped(n, s) && Shaped(n, t) && CellsRight(n, s)
    requires t == s.(locks := t.locks, printers := t.printers)
    ensures CellsRight(n, t) && Whole(t) == Whole(s)
  {
  }

  lemma PrinterKeeps(n: nat, s: State, p: nat)
    requires Inv(n, s) && Enabled(n, s, PrinterStep(p))
    ensures Inv(n, AdvancePrinter(s, p))
  {
    PrinterKeepsLocks(n, s, p);
    PrinterKeepsPrint(n, s, p);
    var t := AdvancePrinter(s, p);
    CellsUntouched(n, s, t);
    assert forall q :: 0 <= q < |s.printers| && q != p ==> t.printers[q] == s.printers[q];
  }

  lemma RequestKeeps(n: nat, s: State, a: nat, b: nat)
    requires Inv(n, s) && Enabled(n, s, Request(a, b))
    ensures Inv(n, Step(n, s, Request(a, b)))
  {
    var t := Step(n, s, Request(a, b));
    assert Partly(s.cells, a, b, a, b) == s.cells;
    assert forall x :: MainHolds(s.main, x) <==> MainHolds(t.main, x);
  }

  lemma SpawnKeeps(n: nat, s: State)
    requires Inv(n, s) && Enabled(n, s, Spawn)
    ensures Inv(n, Step(n, s, Spawn))
  {
  }

  lemma InitInv(n: nat)
    ensures Inv(n, Init(n))
  {
    assert Partly(Numbers(n), 0, -1, 0, -1) == Numbers(n);
  }

  lemma {:induction false} RunInv(n: nat, run: seq<State>)
    requires IsRun(n, run)
    ensures Inv(n, run[|run| - 1])
  {
    if |run| == 1 {
      InitInv(n);
    } else {
      var r, s := run[|run| - 2], run[|run| - 1];
      RunInv(n, run[..|run| - 1]);
      assert Next(n, r, s);
      var act :| Enabled(n, r, act) && s == Step(n, r, act);
      match act
      case Request(a, b) => RequestKeeps(n, r, a, b);
      case Spawn => SpawnKeeps(n, r);
      case MainStep => MainKeeps(n, r);
      case PrinterStep(p) => PrinterKeeps(n, r, p);
    }
  }

  lemma ReachableInv(n: nat, s: State)
    requires Reachable(n, s)
    ensures Inv(n, s)
  {
    var run :| IsRun(n, run) && run[|run| - 1] == s;
    RunInv(n, run);
  }

  lemma Extended(n: nat, run: seq<State>, act: Action)
    requires IsRun(n, run) && Shaped(n, run[|run| - 1]) && Enabled(n, run[|run| - 1], act)
    ensures IsRun(n, run + [Step(n, run[|run| - 1], act)])
  {
    assert Next(n, run[|run| - 1], Step(n, run[|run| - 1], act));
  }

  lemma Continued(n: nat, s: State, act: Action)
    requires Reachable(n, s) && Shaped(n, s) && Enabled(n, s, act)
    ensures Reachable(n, Step(n, s, act))
  {
    var run :| IsRun(n, run) && run[|run| - 1] == s;
    Extended(n, run, act);
  }

  lemma NextReachable(n: nat, s: State, t: State)
    requires Reachable(n, s) && Next(n, s, t)
    ensures Reachable(n, t)
  {
    var act :| Enabled(n, s, act) && t == Step(n, s, act);
    Continued(n, s, act);
  }

  // ----- the guarantees

  /** A request that is over has turned exactly its segment round. */
  lemma RequestReverses(n: nat, s: State)
    requires Reachable(n, s) && s.main.place.Idle?
    ensures 0 <= s.first && s.last < |s.base| && s.cells == Reversed(s.base, s.first, s.last)
  {
    ReachableInv(n, s);
    PartlyAll(s.base, s.first, s.last, s.main.a, s.main.b);
  }

  /** A step that is not a new request. */
  ghost predicate Continues(n: nat, s: State, t: State) {
    Shaped(n, s) && exists act: Action :: !act.Request? && Enabled(n, s, act) && t == Step(n, s, act)
  }

  lemma ContinuesKeeps(n: nat, s: State, t: State)
    requires Reachable(n, s) && Continues(n, s, t)
    ensures Reachable(n, t) && t.base == s.base && t.first == s.first && t.last == s.last
  {
    var act: Action :| !act.Request? && Enabled(n, s, act) && t == Step(n, s, act);
    Continued(n, s, act);
  }

  lemma {:induction false} RequestKept(n: nat, path: seq<State>)
    requires path != [] && Reachable(n, path[0]) && forall i :: 0 <= i < |path| - 1 ==> Continues(n, path[i], path[i + 1])
    ensures
      var t := path[|path| - 1];
      Reachable(n, t) && t.base == path[0].base && t.first == path[0].first && t.last == path[0].last
  {
    if |path| > 1 {
      ContinuesKeeps(n, path[0], path[1]);
      RequestKept(n, path[1..]);
    }
  }

  /** The request for a and b, in any interleaving with printing threads: when it is over, the cells from a to b of the array
      that it met are reversed, and the others are as they were. */
  lemma RequestDone(n: nat, s: State, a: nat, b: nat, path: seq<State>)
    requires Reachable(n, s) && Shaped(n, s) && Enabled(n, s, Request(a, b))
    requires path != [] && path[0] == Step(n, s, Request(a, b))
    requires forall i :: 0 <= i < |path| - 1 ==> Continues(n, path[i], path[i + 1])
    requires path[|path| - 1].main.place.Idle?
    ensures a <= b < |s.cells| && path[|path| - 1].cells == Reversed(s.cells, a, b)
  {
    Continued(n, s, Request(a, b));
    RequestKept(n, path);
    RequestReverses(n, path[|path| - 1]);
  }

  /** What a thread prints is the array at the moment it starts printing, which is a moment between two swaps,
      and a permutation of 0..n-1. */
  lemma PrintsSnapshot(n: nat, s: State, p: nat)
    requires Reachable(n, s) && p < |s.printers|
    ensures s.printers[p].Printing? ==>
      var k := s.printers[p].next;
      && k <= |s.cells| && s.printers[p].out == s.cells[..k]
      && InRange(s) && s.cells == Whole(s) && Permutes(n, s.cells)
    ensures s.printers[p].Unlocking? ==> Permutes(n, s.printers[p].out)
  {
    ReachableInv(n, s);
    assert PrintedRight(n, s.cells, s.printers[p]);
    if s.printers[p].Printing? { PrintingExcludes(n, s, p); }
  }

  /** Nothing changes the array while a thread prints it. */
  lemma ArrayStandsStill(n: nat, s: State, t: State, p: nat)
    requires Reachable(n, s) && Next(n, s, t) && p < |s.printers| && s.printers[p].Printing?
    ensures t.cells == s.cells
  {
    ReachableInv(n, s);
    PrintingExcludes(n, s, p);
  }

  /** So the finished print is the whole array at one moment between two swaps. */
  lemma PrintIsWhole(n: nat, s: State, t: State, p: nat)
    requires Reachable(n, s) && Next(n, s, t) && p < |s.printers| && s.printers[p].Printing?
    requires p < |t.printers| && t.printers[p].Unlocking?
    ensures InRange(s) && t.printers[p].out == Whole(s) == s.cells == t.cells && Permutes(n, t.printers[p].out)
  {
    ArrayStandsStill(n, s, t, p);
    PrintsSnapshot(n, s, p);
    var act :| Enabled(n, s, act) && t == Step(n, s, act);
    assert act == PrinterStep(p);
    assert s.cells[..n] == s.cells;
  }

  /** Waiting for a mutex that main has itself. */
  predicate SelfLocked(s: State) {
    s.main.place.LockB? && s.main.a == s.main.b
  }

  /** That happens only in a request for one cell. */
  lemma SelfLockedOnlyForOneCell(n: nat, s: State)
    requires Reachable(n, s) && SelfLocked(s)
    ensures s.first == s.last
  {
    ReachableInv(n, s);
  }

  /** Who takes a step. */
  function Taker(act: Action): Owner {
    match act
    case MainStep => TheMain
    case PrinterStep(p) => ThePrinter(p)
    case _ => Nobody
  }

  /** Mutexes are taken in ascending order: whoever owns mutex x can go on, or waits for a later one whose owner can. */
  lemma Unblocked(n: nat, s: State, x: nat) returns (y: nat, act: Action)
    requires Inv(n, s) && !SelfLocked(s) && x < n && s.locks[x] != Nobody
    ensures x <= y < n && s.locks[y] == Taker(act) != Nobody && Enabled(n, s, act)
    decreases n - x
  {
    match s.locks[x] {
      case TheMain =>
        if s.main.place.LockB? && s.locks[s.main.b] != Nobody {
          y, act := Unblocked(n, s, s.main.b);
        } else {
          y, act := x, MainStep;
        }
      case ThePrinter(p) =>
        assert PrinterHolds(n, s.printers[p], x);
        var next := s.printers[p].next;
        if s.printers[p].Locking? && next < n && s.locks[next] != Nobody {
          y, act := Unblocked(n, s, next);
        } else {
          y, act := x, PrinterStep(p);
        }
    }
  }

  /** Main can go on, or some owner of the mutex it waits for, or of a later one. */
  lemma MainUnblocked(n: nat, s: State) returns (act: Action)
    requires Inv(n, s) && !SelfLocked(s) && !s.main.place.Idle?
    ensures Enabled(n, s, act) && Taker(act) != Nobody
  {
    var y;
    if s.main.place.LockA? && s.locks[s.main.a] != Nobody {
      y, act := Unblocked(n, s, s.main.a);
    } else if s.main.place.LockB? && s.locks[s.main.b] != Nobody {
      y, act := Unblocked(n, s, s.main.b);
    } else {
      act := MainStep;
    }
  }

  /** With requests for a < b there is no deadlock: as long as a request or a printing thread is under way,
      one of them can take a step. */
  lemma NoDeadlock(n: nat, s: State) returns (act: Action)
    requires Reachable(n, s) && (s.main.place.Idle? || s.first < s.last)
    requires !s.main.place.Idle? || exists p :: 0 <= p < |s.printers| && !Done(s.printers[p])
    ensures Shaped(n, s) && Enabled(n, s, act) && Taker(act) != Nobody
  {
    ReachableInv(n, s);
    if !s.main.place.Idle? {
      act := MainUnblocked(n, s);
    } else {
      var p :| 0 <= p < |s.printers| && !Done(s.printers[p]);
      var next := s.printers[p].next;
      if s.printers[p].Locking? && next < n && s.locks[next] != Nobody {
        var y;
        y, act := Unblocked(n, s, next);
      } else {
        act := PrinterStep(p);
      }
    }
  }

  // ----- how a request ends

  /** How many steps are left for main in its request, and for a printing thread. */
  function MainLeft(m: Main): int {
    4 * (m.b - m.a)
    + match m.place
      case LockA => 8 case LockB => 7 case Save => 6 case WriteA => 5 case WriteB => 4
      case UnlockB => 3 case UnlockA => 2 case MoveOn => 1 case Idle => 8
  }

  function PrinterLeft(n: nat): Printer -> int {
    (p: Printer) =>
      match p
      case Locking(k) => 3 * n + 2 - k
      case Printing(k, _) => 2 * n + 1 - k
      case Unlocking(k, _) => k
  }

  function AllLeft(n: nat, s: State): int { MainLeft(s.main) + Sum(s.printers, PrinterLeft(n)) }

  lemma StepCounts(n: nat, s: State, act: Action)
    requires Shaped(n, s) && Enabled(n, s, act) && Taker(act) != Nobody
    ensures AllLeft(n, Step(n, s, act)) == AllLeft(n, s) - 1
  {
    if act.PrinterStep? {
      SumUpdate(s.printers, PrinterLeft(n), act.p, Step(n, s, act).printers[act.p]);
    }
  }

  lemma {:induction false} PrintersLeft(n: nat, printers: seq<Printer>)
    requires forall p :: 0 <= p < |printers| ==> PrinterLeft(n)(printers[p]) >= 0
    ensures Sum(printers, PrinterLeft(n)) >= 0
  {
    if printers != [] { PrintersLeft(n, printers[..|printers| - 1]); }
  }

  lemma LeftBounded(n: nat, s: State)
    requires Inv(n, s)
    ensures 0 <= AllLeft(n, s)
  {
    PrintersLeft(n, s.printers);
  }

  /** A request for more than one cell that is under way can be carried to its end, whatever the printing threads have locked:
      any steps of the threads under way will do. */
  lemma RequestEnds(n: nat, s: State) returns (path: seq<State>)
    requires Reachable(n, s) && (s.main.place.Idle? || s.first < s.last)
    ensures IsPath(n, path) && path[0] == s && path[|path| - 1].main.place.Idle?
    decreases AllLeft(n, s)
  {
    ReachableInv(n, s);
    LeftBounded(n, s);
    if s.main.place.Idle? {
      path := [s];
    } else {
      var act := NoDeadlock(n, s);
      Continued(n, s, act);
      StepCounts(n, s, act);
      path := RequestEnds(n, Step(n, s, act));
      path := [s] + path;
    }
  }

  predicate AllOver(s: State) {
    s.main.place.Idle? && forall p :: 0 <= p < |s.printers| ==> Done(s.printers[p])
  }

  /** Nothing is under way, and all k printing threads have printed a permutation of 0..n-1. */
  ghost predicate AllPrinted(n: nat, k: nat, s: State) {
    AllOver(s) && |s.printers| == k && forall p :: 0 <= p < k ==> Permutes(n, s.printers[p].out)
  }

  lemma OverIsPrinted(n: nat, s: State)
    requires Reachable(n, s) && AllOver(s)
    ensures AllPrinted(n, |s.printers|, s)
  {
    forall p | 0 <= p < |s.printers| ensures Permutes(n, s.printers[p].out) { PrintsSnapshot(n, s, p); }
  }

  lemma OneMoreStep(n: nat, s: State) returns (t: State)
    requires Reachable(n, s) && (s.main.place.Idle? || s.first < s.last) && !AllOver(s)
    ensures Next(n, s, t) && Reachable(n, t) && 0 <= AllLeft(n, t) < AllLeft(n, s)
    ensures (t.main.place.Idle? || t.first < t.last) && |t.printers| == |s.printers|
  {
    var act := NoDeadlock(n, s);
    Continued(n, s, act);
    StepCounts(n, s, act);
    t := Step(n, s, act);
    ReachableInv(n, t);
    LeftBounded(n, t);
  }

  /** And so can everything that is under way: the request, and every printing thread with its print. */
  lemma EverythingEnds(n: nat, s: State) returns (path: seq<State>)
    requires Reachable(n, s) && (s.main.place.Idle? || s.first < s.last)
    ensures IsPath(n, path) && path[0] == s && AllPrinted(n, |s.printers|, path[|path| - 1])
    decreases AllLeft(n, s)
  {
    if AllOver(s) {
      OverIsPrinted(n, s);
      path := [s];
    } else {
      var t := OneMoreStep(n, s);
      path := EverythingEnds(n, t);
      path := [s] + path;
    }
  }

  /** A request for one cell stays before or behind its first lock, whatever happens. */
  lemma OneCellStays(n: nat, s: State, t: State)
    requires Reachable(n, s) && Next(n, s, t) && s.first == s.last
    ensures s.main.place.LockA? || s.main.place.LockB?
    ensures t.first == t.last == s.first && (t.main.place.LockA? || t.main.place.LockB?)
  {
    ReachableInv(n, s);
    NextReachable(n, s, t);
    ReachableInv(n, t);
  }

  lemma {:induction false} OneCellNeverEnds(n: nat, path: seq<State>)
    requires IsPath(n, path) && Reachable(n, path[0]) && path[0].first == path[0].last
    ensures !path[|path| - 1].main.place.Idle?
  {
    if |path| == 1 {
      ReachableInv(n, path[0]);
    } else {
      assert Next(n, path[0], path[1]);
      OneCellStays(n, path[0], path[1]);
      NextReachable(n, path[0], path[1]);
      OneCellNeverEnds(n, path[1..]);
    }
  }

  /** A request can be carried to its end if and only if it is for more than one cell. */
  lemma EndsIffMoreThanOneCell(n: nat, s: State, a: nat, b: nat)
    requires Reachable(n, s) && Shaped(n, s) && Enabled(n, s, Request(a, b))
    ensures
      var t := Step(n, s, Request(a, b));
      (exists path: seq<State> :: IsPath(n, path) && path[0] == t && path[|path| - 1].main.place.Idle?) <==> a < b
  {
    var t := Step(n, s, Request(a, b));
    Continued(n, s, Request(a, b));
    if a < b {
      var path := RequestEnds(n, t);
    } else {
      forall path: seq<State> | IsPath(n, path) && path[0] == t ensures !path[|path| - 1].main.place.Idle? {
        OneCellNeverEnds(n, path);
      }
    }
  }

  /** Main does lock itself out, for every cell of every array. */
  lemma CanLockItselfOut(n: nat, a: nat)
    requires a < n
    ensures exists s :: Reachable(n, s) && SelfLocked(s) && s.main.a == a
  {
    assert IsRun(n, [Init(n)]);
    Continued(n, Init(n), Request(a, a));
    var s := Step(n, Init(n), Request(a, a));
    Continued(n, s, MainStep);
    assert SelfLocked(AdvanceMain(s));
  }

  /** From then on it cannot move. */
  lemma SelfLockStays(n: nat, s: State, t: State)
    requires Reachable(n, s) && SelfLocked(s) && Next(n, s, t)
    ensures !Enabled(n, s, MainStep) && SelfLocked(t) && t.main == s.main
  {
    ReachableInv(n, s);
    assert MainHolds(s.main, s.main.a);
  }

  // ----- the program, in place

  class Program {
    const n: nat
    const cells: array<int>
    const locks: array<Owner>
    var main: Main
    var printers: seq<Printer>
    ghost var base: seq<int>
    ghost var first: int
    ghost var last: int

    /** prepareArray() */
    constructor (n: nat)
      ensures this.n == n && fresh(cells) && fresh(locks)
      ensures Valid() && Now() == Init(n)
    {
      this.n := n;
      cells := new int[n](i => i);
      locks := new Owner[n](_ => Nobody);
      main, printers := Main(Idle, 0, -1, 0), [];
      base, first, last := seq(n, i => i), 0, -1;
      new;
      assert cells[..] == Init(n).cells;
      assert locks[..] == Init(n).locks;
      assert IsRun(n, [Now()]);
    }

    ghost function Now(): State
      reads this, cells, locks
    {
      State(cells[..], locks[..], main, printers, base, first, last)
    }

    ghost predicate Valid()
      reads this, cells, locks
    {
      Shaped(n, Now()) && Reachable(n, Now())
    }

    /** Between requests the array is the one before the last request with its segment reversed; and what the printing threads
        have printed are permutations of 0..n-1. */
    ghost predicate Safe()
      reads this, cells, locks
    {
      && (main.place.Idle? ==> 0 <= first && last < |base| && cells[..] == Reversed(base, first, last))
      && (forall p :: 0 <= p < |printers| && printers[p].Unlocking? ==> Permutes(n, printers[p].out))
    }

    lemma Stepped(s: State, act: Action)
      requires Shaped(n, s) && Reachable(n, s) && Enabled(n, s, act) && Now() == Step(n, s, act)
      ensures Valid() && Safe()
    {
      Continued(n, s, act);
      ReachableInv(n, Now());
      if main.place.Idle? { RequestReverses(n, Now()); }
      forall p | 0 <= p < |printers| && printers[p].Unlocking? ensures Permutes(n, printers[p].out) {
        PrintsSnapshot(n, Now(), p);
      }
    }

    /** What a signal starts: a request for the segment a..b. */
    method Start(a: nat, b: nat)
      requires Valid() && main.place.Idle? && a <= b < n
      modifies this
      ensures Valid() && Now() == Step(n, old(Now()), Request(a, b))
      ensures base == old(cells[..]) && first == a && last == b && !main.place.Idle?
    {
      ghost var s := Now();
      base, first, last := cells[..], a, b;
      main := Main(LockA, a, b, 0);
      Stepped(s, Request(a, b));
    }

    /** What the other signal starts: a printing thread. */
    method StartPrinter()
      requires Valid() && main.place.Idle?
      modifies this
      ensures Valid() && Now() == Step(n, old(Now()), Spawn)
      ensures printers == old(printers) + [Locking(0)]
    {
      ghost var s := Now();
      printers := printers + [Locking(0)];
      Stepped(s, Spawn);
    }

    /** The next atomic step of mainWork inside a request. */
    method RunMain()
      requires Valid() && Enabled(n, Now(), MainStep)
      modifies this, cells, locks
      ensures Valid() && Safe()
      ensures Now() == old(AdvanceMain(Now()))
    {
      ghost var s := Now();
      var a, b := main.a, main.b;
      match main.place {
        case LockA =>
          locks[a] := TheMain;
          main := main.(place := LockB);
        case LockB =>
          locks[b] := TheMain;
          main := main.(place := Save);
        case Save => main := main.(temp := cells[a], place := WriteA);
        case WriteA =>
          cells[a] := cells[b];
          main := main.(place := WriteB);
        case WriteB =>
          cells[b] := main.temp;
          main := main.(place := UnlockB);
        case UnlockB =>
          locks[b] := Nobody;
          main := main.(place := UnlockA);
        case UnlockA =>
          locks[a] := Nobody;
          main := main.(place := MoveOn);
        case MoveOn =>
          a, b := a + 1, b - 1;
          main := Main(if a >= b then Idle else LockA, a, b, main.temp);
      }
      assert Now() == Step(n, s, MainStep);
      Stepped(s, MainStep);
    }

    /** The next step of the locking loop of printing thread p. */
    method LockOn(p: nat)
      requires Valid() && Enabled(n, Now(), PrinterStep(p)) && printers[p].Locking?
      modifies this, locks
      ensures Valid() && Safe()
      ensures Now() == old(AdvancePrinter(Now(), p))
    {
      ghost var s := Now();
      var i := printers[p].next;
      if i < cells.Length {
        locks[i] := ThePrinter(p);
        printers := printers[p := Locking(i + 1)];
      } else {
        printers := printers[p := Printing(0, [])];
      }
      assert Now() == Step(n, s, PrinterStep(p));
      Stepped(s, PrinterStep(p));
    }

    /** The next step of its printing loop. */
    method PrintOn(p: nat)
      requires Valid() && Enabled(n, Now(), PrinterStep(p)) && printers[p].Printing?
      modifies this
      ensures Valid() && Safe()
      ensures Now() == old(AdvancePrinter(Now(), p))
    {
      ghost var s := Now();
      var i, out := printers[p].next, printers[p].out;
      if i < cells.Length {
        printers := printers[p := Printing(i + 1, out + [cells[i]])];
      } else {
        printers := printers[p := Unlocking(cells.Length, out)];
      }
      assert Now() == Step(n, s, PrinterStep(p));
      Stepped(s, PrinterStep(p));
    }

    /** The next step of its unlocking loop. */
    method UnlockOn(p: nat)
      requires Valid() && Enabled(n, Now(), PrinterStep(p)) && printers[p].Unlocking?
      modifies this, locks
      ensures Valid() && Safe()
      ensures Now() == old(AdvancePrinter(Now(), p))
    {
      ghost var s := Now();
      var i, out := printers[p].next - 1, printers[p].out;
      locks[i] := Nobody;
      printers := printers[p := Unlocking(i, out)];
      assert Now() == Step(n, s, PrinterStep(p));
      Stepped(s, PrinterStep(p));
    }
  }
}
