/** The bounded queue that all producer-consumer programs of the lecture implement, and its ring-buffer representation. */
module BoundedQueue {
  import Arithmetic

  /** Waiting items, how many were put in so far, and what was taken out so far. The producer puts in 0, 1, 2, ... */
  datatype Queue = Queue(waiting: seq<int>, added: nat, taken: seq<int>)

  const EMPTY := Queue([], 0, [])

  ghost predicate Put(capacity: nat, q: Queue, r: Queue) {
    |q.waiting| < capacity && r == Queue(q.waiting + [q.added], q.added + 1, q.taken)
  }

  ghost predicate Take(q: Queue, r: Queue) {
    q.waiting != [] && r == Queue(q.waiting[1..], q.added, q.taken + [q.waiting[0]])
  }

  /** The numbers lo, lo + 1, ..., hi - 1. */
  function Interval(lo: nat, hi: nat): (s: seq<int>)
    requires lo <= hi
    ensures |s| == hi - lo && forall k :: 0 <= k < |s| ==> s[k] == lo + k
  {
    seq(hi - lo, k => lo + k)
  }

  /** A bounded queue neither loses, repeats nor reorders items. */
  ghost predicate Ordered(capacity: nat, q: Queue) {
    |q.waiting| <= capacity && q.taken + q.waiting == Interval(0, q.added)
  }

  lemma QueueKeepsOrder(capacity: nat, q: Queue, r: Queue)
    requires Ordered(capacity, q) && (Put(capacity, q, r) || Take(q, r))
    ensures Ordered(capacity, r)
  {
    assert r.taken + r.waiting == q.taken + q.waiting + if Put(capacity, q, r) then [q.added] else [];
  }

  /** A run of the queue in which some steps may leave it as it is. */
  ghost predicate IsQueueRun(capacity: nat, run: seq<Queue>) {
    && run != [] && run[0] == EMPTY
    && forall i :: 0 <= i < |run| - 1 ==>
         run[i + 1] == run[i] || Put(capacity, run[i], run[i + 1]) || Take(run[i], run[i + 1])
  }

  lemma {:induction false} QueueRunsKeepOrder(capacity: nat, run: seq<Queue>)
    requires IsQueueRun(capacity, run)
    ensures Ordered(capacity, run[|run| - 1])
  {
    if |run| > 1 {
      var q, r := run[|run| - 2], run[|run| - 1];
      QueueRunsKeepOrder(capacity, run[..|run| - 1]);
      assert r == q || Put(capacity, q, r) || Take(q, r);
      if r != q { QueueKeepsOrder(capacity, q, r); }
    }
  }

  // ----- the ring buffer

  /** The cell of position k in a ring of n cells: the remainder k % n, written out. */
  function Cell(k: nat, n: nat): (c: nat)
    requires 0 < n
    ensures c < n
  {
    if k < n then k else Cell(k - n, n)
  }

  lemma {:induction false} CellIsRemainder(k: nat, n: nat)
    requires 0 < n
    ensures Cell(k, n) == k % n
  {
    if k >= n {
      CellIsRemainder(k - n, n);
      var q, r := (k - n) / n, (k - n) % n;
      assert k == (q + 1) * n + r by { assert (q + 1) * n == q * n + n; }
      Arithmetic.Quotient(q + 1, r, n);
    }
  }

  /** Items number lo up to hi - 1 are in the ring, each in its own cell. */
  ghost predicate Holds(items: seq<int>, lo: nat, hi: nat) {
    && 0 < |items|
    && lo <= hi <= lo + |items|
    && forall k :: lo <= k < hi ==> items[Cell(k, |items|)] == k
  }

  /** The queue that a ring stands for. */
  ghost function Abstract(items: seq<int>, lo: nat, hi: nat, taken: seq<int>): Queue
    requires 0 < |items| && lo <= hi
  {
    Queue(seq(hi - lo, k requires 0 <= k < hi - lo => items[Cell(lo + k, |items|)]), hi, taken)
  }

  /** Stepping a position on, modulo the size of the ring, goes to the next item's cell. */
  lemma {:induction false} NextCell(k: nat, n: nat)
    requires 0 < n
    ensures Cell(Cell(k, n) + 1, n) == Cell(k + 1, n)
  {
    if k >= n { NextCell(k - n, n); }
  }

  lemma {:induction false} LaterCell(k: nat, m: nat, n: nat)
    requires 0 < n
    ensures Cell(Cell(k, n) + m, n) == Cell(k + m, n)
  {
    if k >= n { LaterCell(k - n, m, n); }
  }

  /** Items less than n apart share no cell. */
  lemma {:induction false} OwnCell(j: nat, k: nat, n: nat)
    requires j < k < j + n
    ensures Cell(j, n) != Cell(k, n)
  {
    if j >= n { OwnCell(j - n, k - n, n); }
  }

  /** Writing the next item where a cell is free puts it at the back of the queue. */
  lemma PutInRing(items: seq<int>, lo: nat, hi: nat, taken: seq<int>)
    requires Holds(items, lo, hi) && hi < lo + |items|
    ensures
      var next := items[Cell(hi, |items|) := hi];
      Holds(next, lo, hi + 1) && Put(|items|, Abstract(items, lo, hi, taken), Abstract(next, lo, hi + 1, taken))
  {
    var next := items[Cell(hi, |items|) := hi];
    forall k | lo <= k < hi ensures next[Cell(k, |items|)] == items[Cell(k, |items|)] {
      OwnCell(k, hi, |items|);
    }
    assert Abstract(next, lo, hi + 1, taken).waiting == Abstract(items, lo, hi, taken).waiting + [hi];
  }

  /** Reading the oldest item takes it from the front of the queue. */
  lemma TakeFromRing(items: seq<int>, lo: nat, hi: nat, taken: seq<int>)
    requires Holds(items, lo, hi) && lo < hi
    ensures items[Cell(lo, |items|)] == lo && Holds(items, lo + 1, hi)
    ensures Take(Abstract(items, lo, hi, taken), Abstract(items, lo + 1, hi, taken + [lo]))
  {
    assert Abstract(items, lo + 1, hi, taken + [lo]).waiting == Abstract(items, lo, hi, taken).waiting[1..];
  }
}
