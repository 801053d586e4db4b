/** Length-prefixed frames that many children write to one pipe and the parent reads back. A child writes a frame with one
    write of at most PIPE_BUF bytes, which does not interleave with others; so a run is any order of whole frames. */
module Framing {
  import opened Octets

  const MAX_BUFF := 200

  /** A frame is a length from 1 to MAX_BUFF and that many copies of one character. */
  datatype Frame = Frame(c: Byte, length: nat)

  predicate Sendable(f: Frame) { 1 <= f.length <= MAX_BUFF }

  function Body(f: Frame): seq<Byte> { seq(f.length, _ => f.c) }

  function Bytes(f: Frame): seq<Byte>
    requires Sendable(f)
  {
    [f.length] + Body(f)
  }

  /** The bytes of several frames in a row. */
  function Stream(frames: seq<Frame>): seq<Byte>
    requires forall i :: 0 <= i < |frames| ==> Sendable(frames[i])
  {
    if frames == [] then [] else Bytes(frames[0]) + Stream(frames[1..])
  }

  /** Reading the one-byte header; reading a body of `length` bytes; and the error exit after a short body. */
  datatype Phase = Header | InBody(length: nat) | Failed

  datatype State = State(pipe: seq<Byte>, phase: Phase, written: seq<Frame>, read: seq<seq<Byte>>)

  datatype Action = Write(f: Frame) | Read

  const INIT := State([], Header, [], [])

  predicate Enabled(s: State, a: Action) {
    match a
    case Write(f) => Sendable(f)
    case Read => !s.phase.Failed? && s.pipe != []
  }

  function Step(s: State, a: Action): State
    requires Enabled(s, a)
  {
    match a
    case Write(f) => s.(pipe := s.pipe + Bytes(f), written := s.written + [f])
    case Read =>
      match s.phase
      case Header => s.(pipe := s.pipe[1..], phase := InBody(s.pipe[0]))
      case InBody(n) =>
        if |s.pipe| < n then s.(pipe := [], phase := Failed)
        else s.(pipe := s.pipe[n..], phase := Header, read := s.read + [s.pipe[..n]])
      case Failed => s
  }

  ghost predicate Next(s: State, t: State) {
    exists a :: Enabled(s, a) && t == Step(s, a)
  }

  /** A run: from the initial state, one step after the other. */
  ghost predicate IsRun(run: seq<State>) {
    && run != [] && run[0] == INIT
    && forall i :: 0 <= i < |run| - 1 ==> Next(run[i], run[i + 1])
  }

  /** The states of all runs. */
  ghost predicate Reachable(s: State) {
    exists run :: IsRun(run) && run[|run| - 1] == s
  }

  // ----- what every step keeps

  ghost predicate AllSendable(frames: seq<Frame>) {
    forall i :: 0 <= i < |frames| ==> Sendable(frames[i])
  }

  /** The bytes of the frames not yet read, the first one without its header when that is read. */
  ghost function Unread(phase: Phase, k: nat, written: seq<Frame>): seq<Byte>
    requires AllSendable(written) && k <= |written| && (phase.InBody? ==> k < |written|)
  {
    if phase.InBody? then Body(written[k]) + Stream(written[k + 1..]) else Stream(written[k..])
  }

  ghost predicate Inv(s: State) {
    var k := |s.read|;
    && AllSendable(s.written) && k <= |s.written| && !s.phase.Failed?
    && (forall i :: 0 <= i < k ==> s.read[i] == Body(s.written[i]))
    && (s.phase.InBody? ==> k < |s.written| && s.phase.length == s.written[k].length)
    && s.pipe == Unread(s.phase, k, s.written)
  }

  lemma {:induction false} StreamAppend(frames: seq<Frame>, f: Frame)
    requires AllSendable(frames) && Sendable(f)
    ensures AllSendable(frames + [f]) && Stream(frames + [f]) == Stream(frames) + Bytes(f)
  {
    if frames == [] {
      assert [f][1..] == [];
    } else {
      StreamAppend(frames[1..], f);
      assert (frames + [f])[1..] == frames[1..] + [f];
    }
  }

  lemma UnreadAppend(phase: Phase, k: nat, written: seq<Frame>, f: Frame)
    requires AllSendable(written) && k <= |written| && (phase.InBody? ==> k < |written|) && Sendable(f)
    ensures AllSendable(written + [f])
    ensures Unread(phase, k, written + [f]) == Unread(phase, k, written) + Bytes(f)
  {
    var from := if phase.InBody? then k + 1 else k;
    assert (written + [f])[from..] == written[from..] + [f];
    StreamAppend(written[from..], f);
  }

  lemma WriteKeeps(s: State, f: Frame)
    requires Inv(s) && Sendable(f)
    ensures Inv(Step(s, Write(f)))
  {
    UnreadAppend(s.phase, |s.read|, s.written, f);
  }

  lemma ReadKeeps(s: State)
    requires Inv(s) && Enabled(s, Read)
    ensures Inv(Step(s, Read))
  {
    var k := |s.read|;
    if s.phase.Header? {
      var rest := s.written[k..];
      assert rest[1..] == s.written[k + 1..];
      assert s.pipe == [rest[0].length] + (Body(rest[0]) + Stream(rest[1..]));
    }
  }

  lemma {:induction false} RunInv(run: seq<State>)
    requires IsRun(run)
    ensures Inv(run[|run| - 1])
  {
    if |run| > 1 {
      var r, s := run[|run| - 2], run[|run| - 1];
      RunInv(run[..|run| - 1]);
      assert Next(r, s);
      var a :| Enabled(r, a) && s == Step(r, a);
      match a
      case Write(f) => WriteKeeps(r, f);
      case Read => ReadKeeps(r);
    }
  }

  lemma ReachableInv(s: State)
    requires Reachable(s)
    ensures Inv(s)
  {
    var run :| IsRun(run) && run[|run| - 1] == s;
    RunInv(run);
  }

  lemma Continued(s: State, a: Action)
    requires Reachable(s) && Enabled(s, a)
    ensures Reachable(Step(s, a))
  {
    var run :| IsRun(run) && run[|run| - 1] == s;
    assert Next(s, Step(s, a));
    assert IsRun(run + [Step(s, a)]);
  }

  // ----- the guarantees

  /** The parent never meets a short body. What it has read are the bodies of the frames in the order they were written, each
      of the frame's length and nothing but its character,
      and an empty pipe means it has read them all. */
  lemma FramesRecovered(s: State)
    requires Reachable(s)
    ensures !s.phase.Failed? && |s.read| <= |s.written|
    ensures forall i :: 0 <= i < |s.read| ==> s.read[i] == Body(s.written[i])
    ensures forall i, j :: 0 <= i < |s.read| && 0 <= j < |s.read[i]| ==> s.read[i][j] == s.written[i].c
    ensures forall i :: 0 <= i < |s.read| ==> |s.read[i]| == s.written[i].length
    ensures s.pipe == [] ==> s.phase.Header? && |s.read| == |s.written|
  {
    ReachableInv(s);
    var rest := s.written[|s.read|..];
    if s.phase.Header? && rest != [] {
      assert |Stream(rest)| >= |Bytes(rest[0])| > 0;
    }
  }

  // ----- the parent's code

  class Parent {
    var pipe: seq<Byte>
    var phase: Phase
    ghost var written: seq<Frame>
    var read: seq<seq<Byte>>

    constructor ()
      ensures Valid() && Now() == INIT
    {
      pipe, phase, written, read := [], Header, [], [];
      new;
      assert IsRun([Now()]);
    }

    ghost function Now(): State
      reads this
    {
      State(pipe, phase, written, read)
    }

    ghost predicate Valid()
      reads this
    {
      Reachable(Now())
    }

    /** A child's write() of one frame. */
    method Arrive(f: Frame)
      requires Valid() && Sendable(f)
      modifies this
      ensures Valid() && Now() == Step(old(Now()), Write(f))
      ensures written == old(written) + [f]
      ensures |pipe| == |old(pipe)| + 1 + f.length && pipe[..|old(pipe)|] == old(pipe) && pipe[|old(pipe)|] == f.length
      ensures forall j :: |old(pipe)| < j < |pipe| ==> pipe[j] == f.c
    {
      ghost var s := Now();
      pipe := pipe + Bytes(f);
      written := written + [f];
      Continued(s, Write(f));
    }

    /** read(): up to `count` bytes of what is in the pipe. */
    method ReadSome(count: nat) returns (buf: seq<Byte>)
      modifies `pipe
      ensures buf == (if |old(pipe)| < count then old(pipe) else old(pipe)[..count])
      ensures pipe == old(pipe)[|buf|..]
    {
      var n := if |pipe| < count then |pipe| else count;
      buf, pipe := pipe[..n], pipe[n..];
    }

    /** One round of the parent's loop when the pipe is not empty: the header, then the body of the next frame. */
    method ReadFrame()
      requires Valid() && pipe != [] && phase.Header?
      modifies this
      ensures Valid() && phase.Header? && written == old(written) && |old(read)| < |written|
      ensures read == old(read) + [Body(written[|old(read)|])]
    {
      ghost var s := Now();
      var c := ReadSome(1);
      phase := InBody(c[0]);
      Continued(s, Read);
      s := Now();
      FramesRecovered(s);
      var buf := ReadSome(c[0]);
      var whole := |buf| >= c[0];
      phase := if whole then Header else Failed;
      read := read + if whole then [buf] else [];
      Continued(s, Read);
      FramesRecovered(Now());
      assert read[|old(read)|] == Body(written[|old(read)|]);
    }
  }

  /** The search for a child that is still there: round the array from `start`, at most to the end of the second round. */
  method FindLive(fds: array<int>, start: nat) returns (i: nat)
    requires start < fds.Length
    ensures i < fds.Length
    ensures fds[i] != 0 <==> exists j :: 0 <= j < fds.Length && fds[j] != 0
    ensures forall j :: 0 <= j < fds.Length && (if start <= i then start <= j < i else j >= start || j < i) ==> fds[j] == 0
  {
    var n := fds.Length;
    i := start;
    while fds[i % n] == 0 && i < 2 * n
      invariant start <= i <= 2 * n
      invariant forall j :: 0 <= j < n && (start <= j < i || start <= j + n < i) ==> fds[j] == 0
      decreases 2 * n - i
    {
      SecondRound(i, n);
      i := i + 1;
    }
    SecondRound(i, n);
    i := i % n;
  }

  lemma SecondRound(i: nat, n: nat)
    requires 0 < n && i <= 2 * n
    ensures i % n == if i < n then i else if i < 2 * n then i - n else 0
  {
  }
}
