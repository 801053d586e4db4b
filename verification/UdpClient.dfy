/** The client of the UDP transfer: reading a part, sending it and waiting for its echo, a bounded number of times. */
module UdpClient {
  import opened Octets
  import opened UdpParts

  datatype Option<T> = None | Some(value: T)

  datatype Status = Sending | Finished | GaveUp

  /** The part being sent, how often it was sent, whether an answer is awaited. */
  datatype Client = Client(chunkNo: nat, tries: nat, waiting: bool, status: Status)

  /** What the client exchanges with the network. */
  datatype Event = Sent(d: Datagram) | Received(d: Datagram) | TimedOut

  const START := Client(1, 0, false, Sending)

  ghost predicate InRange(data: seq<Byte>, size: nat, c: Client) {
    size > 0 && 1 <= c.chunkNo <= PartCount(data, size)
  }

  predicate Allowed(data: seq<Byte>, size: nat, c: Client, e: Event)
    requires InRange(data, size, c)
  {
    && c.status.Sending?
    && match e
       case Sent(d) => !c.waiting && d == Part(data, size, c.chunkNo)
       case Received(_) => c.waiting
       case TimedOut => c.waiting
  }

  /** The client after an event; `limit` is the number of retransmissions. */
  function After(data: seq<Byte>, size: nat, limit: nat, c: Client, e: Event): (n: Client)
    requires InRange(data, size, c)
    ensures InRange(data, size, n)
  {
    match e
    case Sent(_) => c.(tries := c.tries + 1, waiting := true)
    case Received(d) =>
      if d.chunkNo != c.chunkNo then Unconfirmed(limit, c)
      else if c.chunkNo == PartCount(data, size) then c.(waiting := false, status := Finished)
      else Client(c.chunkNo + 1, 0, false, Sending)
    case TimedOut => Unconfirmed(limit, c)
  }

  function Unconfirmed(limit: nat, c: Client): Client {
    c.(waiting := false, status := if c.tries > limit then GaveUp else Sending)
  }

  /** The client that a sequence of events leads to, if the client would have taken part in all of them. */
  ghost function Replay(data: seq<Byte>, size: nat, limit: nat, events: seq<Event>): (c: Option<Client>)
    requires size > 0
    ensures c.Some? ==> InRange(data, size, c.value)
  {
    if events == [] then Some(START)
    else
      var e := events[|events| - 1];
      match Replay(data, size, limit, events[..|events| - 1])
      case None => None
      case Some(c) => if Allowed(data, size, c, e) then Some(After(data, size, limit, c, e)) else None
  }

  lemma ReplayOne(data: seq<Byte>, size: nat, limit: nat, events: seq<Event>, e: Event)
    requires size > 0 && Replay(data, size, limit, events).Some?
    requires Allowed(data, size, Replay(data, size, limit, events).value, e)
    ensures Replay(data, size, limit, events + [e])
            == Some(After(data, size, limit, Replay(data, size, limit, events).value, e))
  {
    assert (events + [e])[..|events|] == events;
  }

  // ----- what the events of a client look like

  /** The answer `e` confirms part k: it carries its number. */
  predicate Confirms(k: nat, e: Event) {
    e.Received? && e.d.chunkNo == k
  }

  /** An answer that does not: the timer, or another number. */
  predicate Fails(k: nat, e: Event) {
    e.TimedOut? || (e.Received? && e.d.chunkNo != k)
  }

  /** One part sent again and again, each time with the answer that followed. */
  ghost function Exchange(part: Datagram, answers: seq<Event>): (events: seq<Event>)
    ensures |events| == 2 * |answers|
  {
    if answers == [] then [] else Exchange(part, answers[..|answers| - 1]) + [Sent(part), answers[|answers| - 1]]
  }

  /** Parts 1, 2, ... so sent: `answers[k - 1]` are the answers to part k. */
  ghost function Exchanges(data: seq<Byte>, size: nat, answers: seq<seq<Event>>): seq<Event>
    requires size > 0 && |answers| <= PartCount(data, size)
  {
    if answers == [] then []
    else
      var n := |answers|;
      Exchanges(data, size, answers[..n - 1]) + Exchange(Part(data, size, n), answers[n - 1])
  }

  ghost predicate AllFail(k: nat, answers: seq<Event>) {
    forall i :: 0 <= i < |answers| ==> Fails(k, answers[i])
  }

  /** At most `limit` failed tries and then the confirmation. */
  ghost predicate Answered(limit: nat, k: nat, answers: seq<Event>) {
    && 1 <= |answers| <= limit + 1
    && AllFail(k, answers[..|answers| - 1]) && Confirms(k, answers[|answers| - 1])
  }

  /** The events of a client in terms of the answers alone: every part before the present one was sent until it was confirmed,
      at most `limit` + 1 times. The present one was sent as often in vain, fewer than `limit` + 1 times if the client goes on
      and exactly `limit` + 1 times if it gave up; or it is the final one and confirmed. */
  ghost predicate Explains(data: seq<Byte>, size: nat, limit: nat, events: seq<Event>, answers: seq<seq<Event>>, c: Client)
    requires size > 0
  {
    var k := |answers|;
    && 1 <= k <= PartCount(data, size) && c.chunkNo == k
    && (forall j :: 0 <= j < k - 1 ==> Answered(limit, j + 1, answers[j]))
    && events == Exchanges(data, size, answers) + (if c.waiting then [Sent(Part(data, size, k))] else [])
    && var tries := answers[k - 1];
    && c.tries == |tries| + (if c.waiting then 1 else 0)
    && match c.status
       case Sending => AllFail(k, tries) && |tries| <= limit
       case GaveUp => AllFail(k, tries) && |tries| == limit + 1 && !c.waiting
       case Finished => Answered(limit, k, tries) && k == PartCount(data, size) && !c.waiting
  }

  lemma ExchangesEnd(data: seq<Byte>, size: nat, answers: seq<seq<Event>>, e: Event)
    requires size > 0 && 1 <= |answers| <= PartCount(data, size)
    ensures
      var k := |answers|;
      Exchanges(data, size, answers[k - 1 := answers[k - 1] + [e]])
      == Exchanges(data, size, answers) + [Sent(Part(data, size, k)), e]
  {
    var k := |answers|;
    var more := answers[k - 1 := answers[k - 1] + [e]];
    assert more[..k - 1] == answers[..k - 1];
    assert (answers[k - 1] + [e])[..|answers[k - 1]|] == answers[k - 1];
  }

  lemma ExchangesNext(data: seq<Byte>, size: nat, answers: seq<seq<Event>>)
    requires size > 0 && |answers| < PartCount(data, size)
    ensures Exchanges(data, size, answers + [[]]) == Exchanges(data, size, answers)
  {
    assert (answers + [[]])[..|answers|] == answers;
  }

  lemma SendExplained(data: seq<Byte>, size: nat, limit: nat, events: seq<Event>, answers: seq<seq<Event>>, c: Client, e: Event)
    requires size > 0 && Explains(data, size, limit, events, answers, c) && InRange(data, size, c)
    requires Allowed(data, size, c, e) && e.Sent?
    ensures Explains(data, size, limit, events + [e], answers, After(data, size, limit, c, e))
  {
  }

  /** One more answer belongs to the present part. */
  lemma LastAnswerExplained(data: seq<Byte>, size: nat, limit: nat, events: seq<Event>, answers: seq<seq<Event>>,
                            c: Client, e: Event)
    requires size > 0 && Explains(data, size, limit, events, answers, c) && InRange(data, size, c)
    requires Allowed(data, size, c, e) && !e.Sent?
    ensures
      var k, more := |answers|, answers[|answers| - 1 := answers[|answers| - 1] + [e]];
      && events + [e] == Exchanges(data, size, more)
      && if Confirms(k, e) then Answered(limit, k, more[k - 1]) else AllFail(k, more[k - 1])
  {
    var k := |answers|;
    ExchangesEnd(data, size, answers, e);
    assert (answers[k - 1] + [e])[..|answers[k - 1]|] == answers[k - 1];
    assert Exchanges(data, size, answers) + [Sent(Part(data, size, k))] + [e]
        == Exchanges(data, size, answers) + [Sent(Part(data, size, k)), e];
  }

  lemma StillExplained(data: seq<Byte>, size: nat, limit: nat, events: seq<Event>, answers: seq<seq<Event>>, c: Client, e: Event)
    requires size > 0 && Explains(data, size, limit, events, answers, c) && InRange(data, size, c)
    requires Allowed(data, size, c, e) && !e.Sent? && (Fails(c.chunkNo, e) || c.chunkNo == PartCount(data, size))
    ensures
      var more := answers[|answers| - 1 := answers[|answers| - 1] + [e]];
      Explains(data, size, limit, events + [e], more, After(data, size, limit, c, e))
  {
    LastAnswerExplained(data, size, limit, events, answers, c, e);
    var more := answers[|answers| - 1 := answers[|answers| - 1] + [e]];
    assert forall j :: 0 <= j < |more| - 1 ==> more[j] == answers[j];
  }

  lemma NextExplained(data: seq<Byte>, size: nat, limit: nat, events: seq<Event>, answers: seq<seq<Event>>, c: Client, e: Event)
    requires size > 0 && Explains(data, size, limit, events, answers, c) && InRange(data, size, c)
    requires Allowed(data, size, c, e) && !e.Sent? && Confirms(c.chunkNo, e) && c.chunkNo < PartCount(data, size)
    ensures
      var more := answers[|answers| - 1 := answers[|answers| - 1] + [e]];
      Explains(data, size, limit, events + [e], more + [[]], After(data, size, limit, c, e))
  {
    LastAnswerExplained(data, size, limit, events, answers, c, e);
    var more := answers[|answers| - 1 := answers[|answers| - 1] + [e]];
    ExchangesNext(data, size, more);
    forall j | 0 <= j < |more| ensures Answered(limit, j + 1, more[j]) {
      if j < |more| - 1 { assert more[j] == answers[j]; }
    }
  }

  /** Every run of a client looks like that ... */
  lemma {:induction false} EventsExplained(data: seq<Byte>, size: nat, limit: nat, events: seq<Event>)
    returns (answers: seq<seq<Event>>)
    requires size > 0 && Replay(data, size, limit, events).Some?
    ensures Explains(data, size, limit, events, answers, Replay(data, size, limit, events).value)
  {
    if events == [] {
      answers := [[]];
      ExchangesNext(data, size, []);
    } else {
      var before, e := events[..|events| - 1], events[|events| - 1];
      var c := Replay(data, size, limit, before).value;
      answers := EventsExplained(data, size, limit, before);
      assert events == before + [e];
      if e.Sent? {
        SendExplained(data, size, limit, before, answers, c, e);
      } else {
        var more := answers[|answers| - 1 := answers[|answers| - 1] + [e]];
        if Confirms(c.chunkNo, e) && c.chunkNo < PartCount(data, size) {
          NextExplained(data, size, limit, before, answers, c, e);
          answers := more + [[]];
        } else {
          StillExplained(data, size, limit, before, answers, c, e);
          answers := more;
        }
      }
    }
  }

  /** The last answer and the send before it taken away. */
  lemma LastExchange(data: seq<Byte>, size: nat, answers: seq<seq<Event>>)
    requires size > 0 && 1 <= |answers| <= PartCount(data, size) && answers[|answers| - 1] != []
    ensures
      var k, tries, events := |answers|, answers[|answers| - 1], Exchanges(data, size, answers);
      var fewer := answers[k - 1 := tries[..|tries| - 1]];
      && events != [] && events[|events| - 1] == tries[|tries| - 1]
      && events[..|events| - 1] == Exchanges(data, size, fewer) + [Sent(Part(data, size, k))]
  {
    var k, tries := |answers|, answers[|answers| - 1];
    var e, fewer := tries[|tries| - 1], answers[k - 1 := tries[..|tries| - 1]];
    ExchangesEnd(data, size, fewer, e);
    assert tries[..|tries| - 1] + [e] == tries;
    assert fewer[k - 1 := fewer[k - 1] + [e]] == answers;
  }

  /** ... and whatever looks like that is a run of the client. */
  lemma {:induction false} ExplainedReplays(data: seq<Byte>, size: nat, limit: nat, events: seq<Event>,
                                            answers: seq<seq<Event>>, c: Client)
    requires size > 0 && Explains(data, size, limit, events, answers, c)
    ensures Replay(data, size, limit, events) == Some(c)
    decreases |events|, 2
  {
    if c.waiting {
      WaitingReplays(data, size, limit, events, answers, c);
    } else if answers[|answers| - 1] != [] {
      TriedReplays(data, size, limit, events, answers, c);
    } else if |answers| > 1 {
      ConfirmedReplays(data, size, limit, events, answers, c);
    } else {
      assert answers == [] + [[]];
      ExchangesNext(data, size, []);
    }
  }

  lemma WaitingReplays(data: seq<Byte>, size: nat, limit: nat, events: seq<Event>, answers: seq<seq<Event>>, c: Client)
    requires size > 0 && Explains(data, size, limit, events, answers, c) && c.waiting
    ensures Replay(data, size, limit, events) == Some(c)
    decreases |events|, 0
  {
    var before := events[..|events| - 1];
    assert before == Exchanges(data, size, answers) && events == before + [Sent(Part(data, size, |answers|))];
    ExplainedReplays(data, size, limit, before, answers, c.(tries := |answers[|answers| - 1]|, waiting := false));
  }

  /** Before its last answer, the client was waiting for it. */
  lemma BeforeAnswer(data: seq<Byte>, size: nat, limit: nat, events: seq<Event>, answers: seq<seq<Event>>)
    requires size > 0 && 1 <= |answers| <= PartCount(data, size) && events == Exchanges(data, size, answers)
    requires forall j :: 0 <= j < |answers| - 1 ==> Answered(limit, j + 1, answers[j])
    requires var tries := answers[|answers| - 1]; 1 <= |tries| <= limit + 1 && AllFail(|answers|, tries[..|tries| - 1])
    ensures events != [] && events[|events| - 1] == answers[|answers| - 1][|answers[|answers| - 1]| - 1]
    ensures Replay(data, size, limit, events[..|events| - 1])
            == Some(Client(|answers|, |answers[|answers| - 1]|, true, Sending))
    decreases |events|, 0
  {
    var k, tries := |answers|, answers[|answers| - 1];
    LastExchange(data, size, answers);
    var fewer, c := answers[k - 1 := tries[..|tries| - 1]], Client(k, |tries|, true, Sending);
    assert Explains(data, size, limit, events[..|events| - 1], fewer, c);
    ExplainedReplays(data, size, limit, events[..|events| - 1], fewer, c);
  }

  lemma TriedReplays(data: seq<Byte>, size: nat, limit: nat, events: seq<Event>, answers: seq<seq<Event>>, c: Client)
    requires size > 0 && Explains(data, size, limit, events, answers, c)
    requires !c.waiting && answers[|answers| - 1] != []
    ensures Replay(data, size, limit, events) == Some(c)
    decreases |events|, 1
  {
    BeforeAnswer(data, size, limit, events, answers);
  }

  lemma ConfirmedReplays(data: seq<Byte>, size: nat, limit: nat, events: seq<Event>, answers: seq<seq<Event>>, c: Client)
    requires size > 0 && Explains(data, size, limit, events, answers, c)
    requires !c.waiting && |answers| > 1 && answers[|answers| - 1] == []
    ensures Replay(data, size, limit, events) == Some(c)
    decreases |events|, 1
  {
    var k := |answers| - 1;
    var before := answers[..k];
    assert before + [[]] == answers;
    ExchangesNext(data, size, before);
    assert Answered(limit, k, before[k - 1]);
    BeforeAnswer(data, size, limit, events, before);
  }

  /** So the client is known from its events alone: who gave up sent one part `limit` + 1 times in vain, who finished had
      every part confirmed, and who has failed no more than `limit` times goes on. */
  lemma ReplayIffExplained(data: seq<Byte>, size: nat, limit: nat, events: seq<Event>, c: Client)
    requires size > 0
    ensures Replay(data, size, limit, events) == Some(c) <==> exists answers :: Explains(data, size, limit, events, answers, c)
  {
    if Replay(data, size, limit, events) == Some(c) {
      var answers := EventsExplained(data, size, limit, events);
    }
    forall answers | Explains(data, size, limit, events, answers, c) ensures Replay(data, size, limit, events) == Some(c) {
      ExplainedReplays(data, size, limit, events, answers, c);
    }
  }

  /** In particular, behind a give-up are `limit` + 1 sends of one part, each followed by the timer or another number. */
  lemma GivenUpTail(data: seq<Byte>, size: nat, limit: nat, events: seq<Event>)
    requires size > 0 && Replay(data, size, limit, events).Some? && Replay(data, size, limit, events).value.status.GaveUp?
    ensures
      var k := Replay(data, size, limit, events).value.chunkNo;
      exists tries :: |tries| == limit + 1 && AllFail(k, tries)
        && |events| >= 2 * (limit + 1)
        && events[|events| - 2 * (limit + 1)..] == Exchange(Part(data, size, k), tries)
  {
    var answers := EventsExplained(data, size, limit, events);
    var tries := answers[|answers| - 1];
    assert events == Exchanges(data, size, answers[..|answers| - 1]) + Exchange(Part(data, size, |answers|), tries);
  }

  // ----- reading the file

  class File {
    const data: seq<Byte>
    var pos: nat

    constructor (data: seq<Byte>)
      ensures this.data == data && pos == 0
    {
      this.data := data;
      pos := 0;
    }

    /** read(): any number of bytes up to what was asked for, 0 only at the end of the file, or a failure. */
    method Read(buf: array<Byte>, off: nat, count: nat) returns (c: int)
      requires pos <= |data| && off + count <= buf.Length
      modifies `pos, buf
      ensures old(pos) <= pos <= |data| && -1 <= c <= count
      ensures c == -1 ==> pos == old(pos)
      ensures c == 0 <==> c != -1 && (count == 0 || old(pos) == |data|)
      ensures c >= 0 ==> pos == old(pos) + c && buf[off..off + c] == data[old(pos)..pos]
      ensures forall i :: 0 <= i < buf.Length && !(off <= i < off + count) ==> buf[i] == old(buf[i])
    {
      if * { return -1; }
      if count == 0 || pos == |data| { return 0; }
      var n: nat :| 1 <= n <= count && n <= |data| - pos;
      forall i | 0 <= i < n { buf[off + i] := data[pos + i]; }
      pos := pos + n;
      return n;
    }

    /** bulk_read(): however short the single reads are, what is asked for or all that is left. */
    method BulkRead(buf: array<Byte>, off: nat, wanted: nat) returns (len: int)
      requires pos <= |data| && off + wanted <= buf.Length
      modifies `pos, buf
      ensures pos <= |data| && -1 <= len <= wanted
      ensures len >= 0 ==>
        && len == Smaller(wanted, |data| - old(pos))
        && pos == old(pos) + len
        && buf[off..off + len] == data[old(pos)..pos]
      ensures forall i :: 0 <= i < buf.Length && !(off <= i < off + wanted) ==> buf[i] == old(buf[i])
    {
      var at, count: nat := off, wanted;
      len := 0;
      while true
        invariant 0 <= len <= wanted && at == off + len && count == wanted - len
        invariant pos == old(pos) + len <= |data|
        invariant buf[off..off + len] == data[old(pos)..pos]
        invariant forall i :: 0 <= i < buf.Length && !(off <= i < off + wanted) ==> buf[i] == old(buf[i])
        decreases count
      {
        ghost var have, from := buf[off..at], pos;
        var c := Read(buf, at, count);
        if c < 0 { return c; }
        assert buf[off..at] == have;
        assert buf[off..at + c] == have + buf[at..at + c];
        assert data[old(pos)..pos] == data[old(pos)..from] + data[from..pos];
        if c == 0 { return; }
        at, len, count := at + c, len + c, count - c;
        if count == 0 { return; }
      }
    }
  }

  // ----- talking to the server

  /** The socket, with everything that went through it. */
  class Link {
    ghost var events: seq<Event>

    constructor ()
      ensures events == []
    {
      events := [];
    }

    /** sendAndConfirm(): one datagram out, then any datagram in or none before the timer. */
    method SendAndConfirm(d: Datagram) returns (answer: Option<Datagram>)
      modifies this
      ensures events == old(events) + [Sent(d), if answer.Some? then Received(answer.value) else TimedOut]
    {
      answer := *;
      events := events + [Sent(d), if answer.Some? then Received(answer.value) else TimedOut];
    }
  }

  datatype Outcome = Done(status: Status) | ReadFailed

  /** The inner loop of doClient: one part, sent until its echo comes or `limit` retransmissions are used up. */
  method Confirm(link: Link, d: Datagram, limit: nat, ghost data: seq<Byte>, ghost size: nat) returns (confirmed: bool)
    requires size > 0 && 1 <= d.chunkNo <= PartCount(data, size) && d == Part(data, size, d.chunkNo)
    requires Replay(data, size, limit, link.events) == Some(Client(d.chunkNo, 0, false, Sending))
    modifies link
    ensures Replay(data, size, limit, link.events).Some?
    ensures
      var c := Replay(data, size, limit, link.events).value;
      if !confirmed then c.status.GaveUp?
      else if d.last then c.status.Finished?
      else c == Client(d.chunkNo + 1, 0, false, Sending)
  {
    var got, counter := 0, 0;
    while true
      invariant 0 <= counter <= limit && got != d.chunkNo
      invariant Replay(data, size, limit, link.events) == Some(Client(d.chunkNo, counter, false, Sending))
      decreases limit - counter
    {
      counter := counter + 1;
      ghost var before := link.events;
      var answer := link.SendAndConfirm(d);
      ReplayOne(data, size, limit, before, Sent(d));
      ghost var e := if answer.Some? then Received(answer.value) else TimedOut;
      ReplayOne(data, size, limit, before + [Sent(d)], e);
      assert before + [Sent(d)] + [e] == link.events;
      if answer.Some? { got := answer.value.chunkNo; }
      if !(got != d.chunkNo && counter <= limit) { break; }
    }
    confirmed := !(got != d.chunkNo && counter > limit);
  }

  /** The top of doClient's loop: reading part `chunkNo` and filling it up. */
  method PreparePart(file: File, buf: array<Byte>, chunkNo: nat) returns (len: int, d: Datagram)
    requires buf.Length > 0 && 1 <= chunkNo <= PartCount(file.data, buf.Length) && file.pos == Full(chunkNo - 1, buf.Length) <= |file.data|
    modifies file`pos, buf
    ensures -1 <= len <= buf.Length
    ensures len >= 0 ==>
      && d == Part(file.data, buf.Length, chunkNo) && (d.last <==> len != buf.Length)
      && file.pos == PartEnd(file.data, buf.Length, chunkNo)
  {
    var last := false;
    d := Datagram(chunkNo, last, []);
    len := file.BulkRead(buf, 0, buf.Length);
    if len < 0 { return; }
    PartBounds(file.data, buf.Length, chunkNo);
    if len < buf.Length {
      last := true;
      forall i | len <= i < buf.Length { buf[i] := 0; }
    }
    d := Datagram(chunkNo, last, buf[..]);
  }

  /** doClient(): whatever the reads return and whatever the network answers, the client sends and accepts what `Replay` allows,
      and it leaves its loops only finished or after `limit` unconfirmed retransmissions. */
  method DoClient(file: File, link: Link, size: nat, limit: nat) returns (outcome: Outcome, ghost answers: seq<seq<Event>>)
    requires file.pos == 0 && link.events == [] && size > 0
    modifies file`pos, link
    ensures Replay(file.data, size, limit, link.events).Some?
    ensures outcome.Done? ==>
      && !outcome.status.Sending?
      && outcome.status == Replay(file.data, size, limit, link.events).value.status
    ensures Explains(file.data, size, limit, link.events, answers, Replay(file.data, size, limit, link.events).value)
  {
    ghost var data := file.data;
    var buf := new Byte[size](_ => 0);
    var chunkNo := 0;
    while true
      invariant fresh(buf) && buf.Length == size
      invariant 0 <= chunkNo < PartCount(data, size)
      invariant file.pos == Full(chunkNo, size) <= |data|
      invariant Replay(data, size, limit, link.events) == Some(Client(chunkNo + 1, 0, false, Sending))
      decreases PartCount(data, size) - chunkNo
    {
      chunkNo := chunkNo + 1;
      var len, d := PreparePart(file, buf, chunkNo);
      if len < 0 {
        answers := EventsExplained(data, size, limit, link.events);
        return ReadFailed, answers;
      }
      PartBounds(data, size, chunkNo);
      var confirmed := Confirm(link, d, limit, data, size);
      if !confirmed || len != size {
        answers := EventsExplained(data, size, limit, link.events);
        return Done(if confirmed then Finished else GaveUp), answers;
      }
    }
  }
}
