/** The heap lists of Lab 4: each thread pushes nodes to the front of its own list; at the end the lists are hung together,
    printed and freed. */
module ChunkLists {
  import opened ChunkDispatch

  class Node {
    var chunk: nat
    var next: Node?
    var freed: bool

    constructor (chunk: nat, next: Node?)
      ensures this.chunk == chunk && this.next == next && !freed
    {
      this.chunk, this.next, freed := chunk, next, false;
    }

    /** A node may be looked at and changed until it is freed, and freed once: the program gets at the fields only by these. */
    method Line() returns (c: nat)
      requires !freed
      ensures c == chunk
    {
      c := chunk;
    }

    method Following() returns (n: Node?)
      requires !freed
      ensures n == next
    {
      n := next;
    }

    method Link(n: Node)
      requires !freed
      modifies `next
      ensures next == n
    {
      next := n;
    }

    method Free()
      requires !freed
      modifies `freed
      ensures freed
    {
      freed := true;
    }
  }

  /** What comes after node i of a list. */
  ghost function After(nodes: seq<Node>, i: nat): Node? {
    if i + 1 < |nodes| then nodes[i + 1] else null
  }

  /** `nodes` are the nodes met from `head` on, up to the one without a next; all of them distinct and allocated. */
  ghost predicate IsList(head: Node?, nodes: seq<Node>)
    reads nodes
  {
    && (forall i, j :: 0 <= i < j < |nodes| ==> nodes[i] != nodes[j])
    && (forall i :: 0 <= i < |nodes| ==> !nodes[i].freed)
    && head == (if nodes == [] then null else nodes[0])
    && forall i :: 0 <= i < |nodes| ==> nodes[i].next == After(nodes, i)
  }

  ghost function Chunks(nodes: seq<Node>): (c: seq<nat>)
    reads nodes
    ensures |c| == |nodes| && forall i :: 0 <= i < |nodes| ==> c[i] == nodes[i].chunk
  {
    seq(|nodes|, i requires 0 <= i < |nodes| reads nodes => nodes[i].chunk)
  }

  lemma Longer(first: Node, head: Node?, nodes: seq<Node>)
    requires IsList(head, nodes) && first !in nodes && first.next == head && !first.freed
    ensures IsList(first, [first] + nodes)
  {
    var all := [first] + nodes;
    assert forall i :: 0 < i < |all| ==> all[i] == nodes[i - 1];
    forall i | 0 <= i < |all| ensures all[i].next == After(all, i) && !all[i].freed {
      assert i > 0 ==> After(all, i) == After(nodes, i - 1);
    }
    forall i, j | 0 <= i < j < |all| ensures all[i] != all[j] {
      assert all[j] == nodes[j - 1];
    }
  }

  lemma ChunksLonger(first: Node, nodes: seq<Node>)
    ensures Chunks([first] + nodes) == [first.chunk] + Chunks(nodes)
  {
    var all := [first] + nodes;
    forall i | 0 <= i < |all| ensures Chunks(all)[i] == ([first.chunk] + Chunks(nodes))[i] {
      assert i > 0 ==> all[i] == nodes[i - 1];
    }
  }

  /** The end of thread_work's loop: a new node at the front. */
  method Push(head: Node?, chunk: nat, ghost nodes: seq<Node>) returns (newHead: Node)
    requires IsList(head, nodes)
    ensures fresh(newHead) && IsList(newHead, [newHead] + nodes)
    ensures Chunks([newHead] + nodes) == [chunk] + Chunks(nodes)
  {
    newHead := new Node(chunk, head);
    Longer(newHead, head, nodes);
    ChunksLonger(newHead, nodes);
  }

  /** print_list(): what is printed, from the head on. */
  method PrintList(head: Node?, ghost nodes: seq<Node>) returns (out: seq<nat>)
    requires IsList(head, nodes)
    ensures out == Chunks(nodes)
  {
    out := [];
    var tmp := head;
    while tmp != null
      invariant |out| <= |nodes|
      invariant tmp == if |out| < |nodes| then nodes[|out|] else null
      invariant forall i :: 0 <= i < |out| ==> out[i] == nodes[i].chunk
      decreases |nodes| - |out|
    {
      var line := tmp.Line();
      out := out + [line];
      tmp := tmp.Following();
    }
  }

  /** free_list(): every node is freed, and no node is freed twice or looked at after it was freed. */
  method FreeList(start: Node?, ghost nodes: seq<Node>)
    requires IsList(start, nodes)
    modifies nodes
    ensures forall n :: n in nodes ==> n.freed && n.next == old(n.next)
  {
    var head := start;
    ghost var k := 0;
    while head != null
      invariant 0 <= k <= |nodes|
      invariant head == if k < |nodes| then nodes[k] else null
      invariant forall i :: 0 <= i < |nodes| ==> (nodes[i].freed <==> i < k) && nodes[i].next == old(nodes[i].next)
      decreases |nodes| - k
    {
      var tmp := head;
      head := head.Following();
      tmp.Free();
      k := k + 1;
    }
  }

  function Flat<T>(lists: seq<seq<T>>): seq<T> {
    if lists == [] then [] else Flat(lists[..|lists| - 1]) + lists[|lists| - 1]
  }

  lemma {:induction false} FlatPrefix<T>(lists: seq<seq<T>>, i: nat)
    requires i <= |lists|
    ensures Flat(lists[..i]) <= Flat(lists)
  {
    if i == |lists| {
      assert lists[..i] == lists;
    } else {
      var front := lists[..|lists| - 1];
      FlatPrefix(front, i);
      assert front[..i] == lists[..i];
    }
  }

  /** The one list holds what the threads' lists hold, in the order of the threads. */
  lemma {:induction false} FlatChunks(lists: seq<seq<Node>>, chunks: seq<seq<nat>>)
    requires |chunks| == |lists| && forall i :: 0 <= i < |lists| ==> chunks[i] == Chunks(lists[i])
    ensures Chunks(Flat(lists)) == Flat(chunks)
  {
    if lists != [] {
      FlatChunks(lists[..|lists| - 1], chunks[..|lists| - 1]);
    }
  }

  ghost predicate Apart(a: seq<Node>, b: seq<Node>) {
    forall i, j :: 0 <= i < |a| && 0 <= j < |b| ==> a[i] != b[j]
  }

  /** Hanging one list behind another: only the last node of the first one is rewired. */
  lemma Joined(head: Node?, a: seq<Node>, b: seq<Node>)
    requires forall i, j :: 0 <= i < j < |a| ==> a[i] != a[j]
    requires forall i, j :: 0 <= i < j < |b| ==> b[i] != b[j]
    requires Apart(a, b) && a != [] && b != []
    requires head == a[0]
    requires forall i :: 0 <= i < |a| ==> !a[i].freed && a[i].next == if i + 1 < |a| then After(a, i) else b[0]
    requires forall i :: 0 <= i < |b| ==> !b[i].freed && b[i].next == After(b, i)
    ensures IsList(head, a + b)
  {
    var all := a + b;
    forall i | 0 <= i < |all| ensures all[i].next == After(all, i) {
      if i >= |a| {
        assert all[i] == b[i - |a|] && After(all, i) == After(b, i - |a|);
      } else {
        assert all[i] == a[i] && After(all, i) == if i + 1 < |a| then After(a, i) else b[0];
      }
    }
  }

  /** Following a list to its last node. */
  method LastOf(head: Node, ghost nodes: seq<Node>) returns (tmp: Node)
    requires IsList(head, nodes)
    ensures tmp == nodes[|nodes| - 1]
  {
    tmp := head;
    ghost var k := 0;
    while true
      invariant 0 <= k < |nodes| && tmp == nodes[k]
      decreases |nodes| - k
    {
      var next := tmp.Following();
      if next == null { break; }
      tmp := next;
      k := k + 1;
    }
  }

  /** `tail->next = ...`: list b behind list a. */
  method HangBehind(head: Node, tail: Node, other: Node, ghost a: seq<Node>, ghost b: seq<Node>)
    requires IsList(head, a) && IsList(other, b) && Apart(a, b) && tail == a[|a| - 1]
    modifies tail`next
    ensures IsList(head, a + b)
    ensures IsList(other, b)
  {
    tail.Link(other);
    Joined(head, a, b);
  }

  /** The lists before the i-th have no node in common with a later one. */
  lemma {:induction false} FlatApart(lists: seq<seq<Node>>, i: nat, j: nat)
    requires i <= j < |lists| && forall k, l :: 0 <= k < l < |lists| ==> Apart(lists[k], lists[l])
    ensures Apart(Flat(lists[..i]), lists[j])
  {
    if i > 0 {
      FlatApart(lists, i - 1, j);
      assert lists[..i][..i - 1] == lists[..i - 1];
      assert Apart(lists[i - 1], lists[j]);
    }
  }

  ghost predicate EndsAt(tail: Node?, nodes: seq<Node>) {
    tail == if nodes == [] then null else nodes[|nodes| - 1]
  }

  /** One round of that loop: the next thread's list behind the others, with its last node the new tail. */
  method AddList(head: Node?, tail: Node?, other: Node?, ghost done: seq<Node>, ghost mine: seq<Node>)
    returns (newHead: Node?, newTail: Node?)
    requires IsList(head, done) && IsList(other, mine) && Apart(done, mine) && EndsAt(tail, done)
    modifies (if tail == null then {} else {tail})`next
    ensures IsList(newHead, done + mine) && EndsAt(newTail, done + mine)
  {
    newHead, newTail := head, tail;
    if other != null {
      if head == null {
        newHead := other;
        assert done + mine == mine;
      } else {
        HangBehind(head, tail, other, done, mine);
      }
      newTail := LastOf(other, mine);
      assert (done + mine)[|done + mine| - 1] == mine[|mine| - 1];
    } else {
      assert done + mine == done;
    }
  }

  /** The same round among all the lists: those still to come stay as they are. */
  method AddNext(head: Node?, tail: Node?, heads: seq<Node?>, i: nat, ghost lists: seq<seq<Node>>)
    returns (newHead: Node?, newTail: Node?)
    requires i < |heads| == |lists| && IsList(head, Flat(lists[..i])) && EndsAt(tail, Flat(lists[..i]))
    requires forall j :: i <= j < |lists| ==> IsList(heads[j], lists[j]) && Apart(Flat(lists[..i]), lists[j])
    modifies (if tail == null then {} else {tail})`next
    ensures IsList(newHead, Flat(lists[..i + 1])) && EndsAt(newTail, Flat(lists[..i + 1]))
    ensures forall j :: i < j < |lists| ==> IsList(heads[j], lists[j])
  {
    ghost var done := Flat(lists[..i]);
    newHead, newTail := AddList(head, tail, heads[i], done, lists[i]);
    assert lists[..i + 1][..i] == lists[..i];
    forall j | i < j < |lists| ensures IsList(heads[j], lists[j]) {
      assert Apart(done, lists[j]);
      assert forall k :: 0 <= k < |lists[j]| ==> unchanged(lists[j][k]);
    }
  }

  /** The loop of concat_and_print: the lists in the order of their threads, as one. */
  method Concat(heads: seq<Node?>, ghost lists: seq<seq<Node>>) returns (head: Node?)
    requires |heads| == |lists| && forall i :: 0 <= i < |lists| ==> IsList(heads[i], lists[i])
    requires forall i, j :: 0 <= i < j < |lists| ==> Apart(lists[i], lists[j])
    modifies (set n | n in Flat(lists))`next
    ensures IsList(head, Flat(lists))
  {
    head := null;
    var tail: Node? := null;
    var i := 0;
    while i < |heads|
      invariant 0 <= i <= |heads|
      invariant IsList(head, Flat(lists[..i])) && EndsAt(tail, Flat(lists[..i]))
      invariant forall j :: i <= j < |lists| ==> IsList(heads[j], lists[j])
    {
      FlatPrefix(lists, i);
      assert tail != null ==> tail == Flat(lists)[|Flat(lists[..i])| - 1];
      forall j | i <= j < |lists| ensures Apart(Flat(lists[..i]), lists[j]) { FlatApart(lists, i, j); }
      head, tail := AddNext(head, tail, heads, i, lists);
      i := i + 1;
    }
    assert lists[..i] == lists;
  }

  /** concat_and_print: one list of all the threads' lists, printed and freed. */
  method ConcatAndPrint(heads: seq<Node?>, ghost lists: seq<seq<Node>>) returns (out: seq<nat>)
    requires |heads| == |lists| && forall i :: 0 <= i < |lists| ==> IsList(heads[i], lists[i])
    requires forall i, j :: 0 <= i < j < |lists| ==> Apart(lists[i], lists[j])
    modifies Flat(lists)
    ensures out == old(Chunks(Flat(lists)))
    ensures forall n :: n in Flat(lists) ==> n.freed
  {
    ghost var nodes, chunks := Flat(lists), Chunks(Flat(lists));
    var head := Concat(heads, lists);
    assert forall i :: 0 <= i < |nodes| ==> nodes[i].chunk == chunks[i];
    out := PrintList(head, nodes);
    assert out == chunks;
    FreeList(head, nodes);
  }

  // ----- what is printed

  lemma {:induction false} FlatMember<T>(lists: seq<seq<T>>, x: T)
    ensures x in Flat(lists) <==> exists i :: 0 <= i < |lists| && x in lists[i]
  {
    if lists != [] {
      var front := lists[..|lists| - 1];
      FlatMember(front, x);
      assert forall i :: 0 <= i < |front| ==> front[i] == lists[i];
    }
  }

  ghost predicate AllDifferent<T>(s: seq<T>) {
    forall i, j :: 0 <= i < j < |s| ==> s[i] != s[j]
  }

  lemma DifferentTogether<T>(a: seq<T>, b: seq<T>)
    requires AllDifferent(a) && AllDifferent(b) && forall x :: x in a ==> x !in b
    ensures AllDifferent(a + b)
  {
    forall i, j | 0 <= i < j < |a + b| ensures (a + b)[i] != (a + b)[j] {
      if i < |a| <= j { assert a[i] in a; }
    }
  }

  lemma {:induction false} FlatDifferent<T>(lists: seq<seq<T>>)
    requires forall i :: 0 <= i < |lists| ==> AllDifferent(lists[i])
    requires forall i, j, x :: 0 <= i < j < |lists| && x in lists[i] ==> x !in lists[j]
    ensures AllDifferent(Flat(lists))
  {
    if lists != [] {
      var front, last := lists[..|lists| - 1], lists[|lists| - 1];
      FlatDifferent(front);
      forall x | x in Flat(front) ensures x !in last { FlatMember(front, x); }
      DifferentTogether(Flat(front), last);
    }
  }

  /** However the threads were interleaved, the one list at the end holds every chunk of the file exactly once. */
  lemma EveryChunkOnce(cfg: Config, s: State)
    requires Reachable(cfg, s) && cfg.threads > 0
    requires AllEnded(s)
    ensures
      var all := Flat(seq(|s.workers|, i requires 0 <= i < |s.workers| => s.workers[i].chunks));
      AllDifferent(all) && forall k: nat :: k in all <==> k < Total(cfg)
  {
    var lists := seq(|s.workers|, i requires 0 <= i < |s.workers| => s.workers[i].chunks);
    forall k: nat ensures k in Flat(lists) <==> k < Total(cfg) {
      FlatMember(lists, k);
      AllChunksClaimed(cfg, s, k);
      assert forall i :: 0 <= i < |lists| ==> lists[i] == s.workers[i].chunks;
    }
    ReachableInv(cfg, s);
    forall i | 0 <= i < |lists| ensures AllDifferent(lists[i]) { ChunksClaimed(cfg, s, i); }
    forall i, j, x | 0 <= i < j < |lists| && x in lists[i] ensures x !in lists[j] { ClaimedOnce(cfg, s, i, j); }
    FlatDifferent(lists);
  }

  // ----- the program, in place

  /** Each thread has an acyclic list of its own on the heap, which holds its chunks. */
  ghost predicate Stored(heads: seq<Node?>, lists: seq<seq<Node>>, chunks: seq<seq<nat>>, repr: set<Node>)
    reads repr
  {
    && |heads| == |lists| == |chunks|
    && (forall i, j :: 0 <= i < |lists| && 0 <= j < |lists[i]| ==> lists[i][j] in repr)
    && (forall i :: 0 <= i < |lists| ==> IsList(heads[i], lists[i]) && Chunks(lists[i]) == chunks[i])
    && (forall i, j :: 0 <= i < j < |lists| ==> Apart(lists[i], lists[j]))
  }

  /** A new node at the front of one of the lists. */
  lemma StoredMore(heads: seq<Node?>, lists: seq<seq<Node>>, chunks: seq<seq<nat>>, repr: set<Node>, i: nat, node: Node, k: nat)
    requires Stored(heads, lists, chunks, repr) && i < |lists| && node !in repr
    requires IsList(node, [node] + lists[i]) && Chunks([node] + lists[i]) == [k] + chunks[i]
    ensures Stored(heads[i := node], lists[i := [node] + lists[i]], chunks[i := [k] + chunks[i]], repr + {node})
  {
    var lists' := lists[i := [node] + lists[i]];
    forall a, b | 0 <= a < b < |lists'| ensures Apart(lists'[a], lists'[b]) {
      assert Apart(lists[a], lists[b]);
    }
  }

  lemma ChunksOnce(cfg: Config, s: State, places: seq<Place>, chunks: seq<seq<nat>>)
    requires Reachable(cfg, s) && cfg.threads > 0 && AllEnded(s)
    requires |places| == |chunks| && s.workers == Zipped(places, chunks)
    ensures Sensible(cfg) && AllDifferent(Flat(chunks)) && forall k: nat :: k in Flat(chunks) <==> k < Total(cfg)
  {
    EveryChunkOnce(cfg, s);
    assert seq(|s.workers|, i requires 0 <= i < |s.workers| => s.workers[i].chunks) == chunks;
  }

  /** The heap lists of all threads. */
  class Lists {
    const heads: array<Node?>
    ghost var lists: seq<seq<Node>>
    ghost var chunks: seq<seq<nat>>
    ghost var repr: set<Node>

    constructor (threads: nat)
      ensures heads.Length == threads && fresh(heads) && fresh(repr)
      ensures Valid() && chunks == seq(threads, _ => [])
    {
      heads := new Node?[threads](_ => null);
      lists, chunks, repr := seq(threads, _ => []), seq(threads, _ => []), {};
    }

    ghost predicate Valid()
      reads this, heads, repr
    {
      Stored(heads[..], lists, chunks, repr)
    }

    /** The end of the loop of thread i: chunk k goes to the front of its list. */
    method AddNode(i: nat, k: nat)
      requires Valid() && i < heads.Length
      modifies this, heads
      ensures Valid() && fresh(repr - old(repr))
      ensures chunks == old(chunks)[i := [k] + old(chunks)[i]]
    {
      var node := Push(heads[i], k, lists[i]);
      assert Stored(heads[..], lists, chunks, repr);
      StoredMore(heads[..], lists, chunks, repr, i, node, k);
      ghost var heads' := heads[..][i := node];
      heads[i] := node;
      lists, chunks, repr := lists[i := [node] + lists[i]], chunks[i := [k] + chunks[i]], repr + {node};
      assert heads[..] == heads';
    }

    /** concat_and_print, on all of them. */
    method PrintAndFree() returns (out: seq<nat>)
      requires Valid()
      modifies Flat(lists)
      ensures out == Flat(chunks)
      ensures forall n :: n in Flat(lists) ==> n.freed
    {
      FlatChunks(lists, chunks);
      out := ConcatAndPrint(heads[..], lists);
    }
  }

  /** The threads of the dispatch with their lists. */
  class Program {
    const dispatch: Dispatch
    const heap: Lists

    constructor (cfg: Config)
      requires Sensible(cfg)
      ensures fresh(dispatch) && fresh(dispatch.places) && fresh(heap) && fresh(heap.heads) && fresh(heap.repr)
      ensures Valid() && dispatch.cfg == cfg && dispatch.Now() == Init(cfg)
    {
      dispatch := new Dispatch(cfg);
      heap := new Lists(cfg.threads);
      new;
      assert dispatch.chunks == heap.chunks;
    }

    /** What the threads have claimed and read is what their lists on the heap hold. */
    ghost predicate Valid()
      reads this, dispatch, dispatch.places, heap, heap.heads, heap.repr
    {
      dispatch.Valid() && heap.Valid() && heap.chunks == dispatch.chunks
    }

    /** The next step of thread i. */
    method Run(i: nat)
      requires Valid() && Enabled(dispatch.Now(), i)
      modifies dispatch, dispatch.places, heap, heap.heads
      ensures Valid() && fresh(heap.repr - old(heap.repr))
      ensures dispatch.Now() == Step(dispatch.cfg, old(dispatch.Now()), i)
    {
      if dispatch.places[i].Add? { heap.AddNode(i, dispatch.places[i].k); }
      dispatch.Run(i);
    }

    /** The end of the program: every chunk of the file is printed exactly once, and every node is freed. */
    method Finish() returns (out: seq<nat>)
      requires Valid() && AllEnded(dispatch.Now()) && dispatch.cfg.threads > 0
      modifies Flat(heap.lists)
      ensures Sensible(dispatch.cfg)
      ensures AllDifferent(out) && forall k: nat :: k in out <==> k < Total(dispatch.cfg)
      ensures forall n :: n in Flat(heap.lists) ==> n.freed
    {
      ChunksOnce(dispatch.cfg, dispatch.Now(), dispatch.places[..], dispatch.chunks);
      out := heap.PrintAndFree();
    }
  }
}
