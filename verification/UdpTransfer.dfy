/** The whole UDP transfer: one server, any number of clients, and a network that may lose, duplicate and reorder
    datagrams: what was once sent can be received never, once or many times, at any later moment. */
module UdpTransfer {
  import opened Octets
  import opened UdpParts
  import opened UdpServer
  import opened UdpClient

  datatype Config = Config(files: map<Addr, seq<Byte>>, size: nat, limit: nat, slots: nat)

  /** Beside the server's counters: what it delivered from each address since that address got its present slot (`current`),
      and in each earlier tenancy of a slot (`closed`). */
  datatype State = State(
    counters: map<Addr, int>,
    current: map<Addr, seq<Datagram>>,
    closed: map<Addr, seq<seq<Datagram>>>,
    clients: map<Addr, Client>,
    toServer: set<(Addr, Datagram)>,
    toClients: set<(Addr, Datagram)>)

  /** A step of a client or of the server, or the network losing all copies of a datagram on its way. */
  datatype Action = ClientStep(a: Addr, e: Event) | ServerStep(a: Addr, d: Datagram)
                  | LoseToServer(a: Addr, d: Datagram) | LoseToClient(a: Addr, d: Datagram)

  ghost function Init(cfg: Config): State {
    State(map[], map[], map a | a in cfg.files :: [], map a | a in cfg.files :: START, {}, {})
  }

  ghost predicate Shaped(cfg: Config, s: State) {
    && cfg.size > 0
    && s.clients.Keys == s.closed.Keys == cfg.files.Keys
    && forall a :: a in cfg.files ==> InRange(cfg.files[a], cfg.size, s.clients[a])
  }

  ghost predicate Enabled(cfg: Config, s: State, act: Action)
    requires Shaped(cfg, s)
  {
    match act
    case ClientStep(a, e) =>
      && a in cfg.files
      && Allowed(cfg.files[a], cfg.size, s.clients[a], e)
      && (e.Received? ==> (a, e.d) in s.toClients)
    case ServerStep(a, d) => a in cfg.files && (a, d) in s.toServer
    case LoseToServer(a, d) => (a, d) in s.toServer
    case LoseToClient(a, d) => (a, d) in s.toClients
  }

  ghost function Current(s: State, a: Addr): seq<Datagram> {
    if a in s.current then s.current[a] else []
  }

  ghost function Step(cfg: Config, s: State, act: Action): State
    requires Shaped(cfg, s) && Enabled(cfg, s, act)
  {
    match act
    case ClientStep(a, e) =>
      s.(clients := s.clients[a := After(cfg.files[a], cfg.size, cfg.limit, s.clients[a], e)],
         toServer := if e.Sent? then s.toServer + {(a, e.d)} else s.toServer)
    case ServerStep(a, d) =>
      var r := Receive(s.counters, cfg.slots, a, d);
      var log := if r.delivered then Current(s, a) + [d] else Current(s, a);
      State(
        r.counters,
        if a in r.counters then s.current[a := log] else if r.delivered then s.current - {a} else s.current,
        if a !in r.counters && r.delivered then s.closed[a := s.closed[a] + [log]] else s.closed,
        s.clients,
        s.toServer,
        if r.echoed then s.toClients + {(a, d)} else s.toClients)
    case LoseToServer(a, d) => s.(toServer := s.toServer - {(a, d)})
    case LoseToClient(a, d) => s.(toClients := s.toClients - {(a, d)})
  }

  ghost predicate Next(cfg: Config, s: State, t: State) {
    Shaped(cfg, s) && exists act :: Enabled(cfg, s, act) && t == Step(cfg, s, act)
  }

  /** States, each reached from the one before by a step. */
  ghost predicate IsPath(cfg: Config, path: seq<State>) {
    path != [] && forall i :: 0 <= i < |path| - 1 ==> Next(cfg, path[i], path[i + 1])
  }

  /** A path from the initial state. */
  ghost predicate IsRun(cfg: Config, run: seq<State>) {
    cfg.size > 0 && IsPath(cfg, run) && run[0] == Init(cfg)
  }

  /** The states of all runs. */
  ghost predicate Reachable(cfg: Config, s: State) {
    exists run :: IsRun(cfg, run) && run[|run| - 1] == s
  }

  // ----- what every step keeps

  ghost function Final(cfg: Config, a: Addr): nat
    requires a in cfg.files && cfg.size > 0
  {
    PartCount(cfg.files[a], cfg.size)
  }

  /** The server holds a prefix of the client's parts in the open tenancy, the whole file in every closed one, and,
      as long as none was closed, it is level with the client or one part ahead of what the client has confirmed. */
  ghost predicate InStep(cfg: Config, s: State, a: Addr)
    requires Shaped(cfg, s) && a in cfg.files
  {
    var m, n := |Current(s, a)|, s.clients[a].chunkNo;
    && (a in s.counters <==> a in s.current)
    && Accepted(s.counters, a) == m
    && m <= n && m < Final(cfg, a)
    && Current(s, a) == Parts(cfg.files[a], cfg.size, m)
    && (forall t :: t in s.closed[a] ==> t == Parts(cfg.files[a], cfg.size, Final(cfg, a)))
    && (s.closed[a] == [] ==> n - 1 <= m)
    && (s.clients[a].status.Finished? ==> s.closed[a] != [])
  }

  /** A datagram in the network is one of the parts its client has sent; an echo is of a part the server has accepted. */
  ghost predicate Genuine(cfg: Config, s: State, a: Addr, d: Datagram)
    requires Shaped(cfg, s)
  {
    && a in cfg.files
    && 1 <= d.chunkNo <= s.clients[a].chunkNo
    && d == Part(cfg.files[a], cfg.size, d.chunkNo)
  }

  ghost predicate Inv(cfg: Config, s: State) {
    && Shaped(cfg, s)
    && (forall a :: a in cfg.files ==> InStep(cfg, s, a))
    && (forall x :: x in s.toServer ==> Genuine(cfg, s, x.0, x.1))
    && (forall x :: x in s.toClients ==>
          Genuine(cfg, s, x.0, x.1) && (s.closed[x.0] == [] ==> x.1.chunkNo <= |Current(s, x.0)|))
  }

  lemma ClientKeepsOwn(cfg: Config, s: State, a: Addr, e: Event)
    requires Shaped(cfg, s) && Enabled(cfg, s, ClientStep(a, e)) && InStep(cfg, s, a)
    requires e.Received? && s.closed[a] == [] ==> e.d.chunkNo <= |Current(s, a)|
    ensures InStep(cfg, Step(cfg, s, ClientStep(a, e)), a)
  {
  }

  /** A client never goes back, and what it sends is its present part. */
  ghost predicate ClientMove(cfg: Config, s: State, t: State, a: Addr)
    requires Shaped(cfg, s) && a in cfg.files
  {
    && Shaped(cfg, t)
    && t == s.(clients := t.clients, toServer := t.toServer)
    && s.clients[a].chunkNo <= t.clients[a].chunkNo
    && (forall b :: b in cfg.files && b != a ==> t.clients[b] == s.clients[b])
    && forall x :: x in t.toServer && x !in s.toServer ==> x == (a, Part(cfg.files[a], cfg.size, s.clients[a].chunkNo))
  }

  lemma ClientMoveKeeps(cfg: Config, s: State, t: State, a: Addr)
    requires Inv(cfg, s) && a in cfg.files && ClientMove(cfg, s, t, a) && InStep(cfg, t, a)
    ensures Inv(cfg, t)
  {
    forall b | b in cfg.files ensures InStep(cfg, t, b) {
      assert InStep(cfg, s, b);
    }
  }

  lemma ClientKeeps(cfg: Config, s: State, a: Addr, e: Event)
    requires Inv(cfg, s) && Enabled(cfg, s, ClientStep(a, e))
    ensures Inv(cfg, Step(cfg, s, ClientStep(a, e)))
  {
    assert InStep(cfg, s, a);
    if e.Received? { assert Genuine(cfg, s, (a, e.d).0, (a, e.d).1); }
    ClientKeepsOwn(cfg, s, a, e);
    StepShaped(cfg, s, ClientStep(a, e));
    ClientMoveKeeps(cfg, s, Step(cfg, s, ClientStep(a, e)), a);
  }

  /** What the server did with the parts of one address: nothing, accepted the next one, or accepted the last one. */
  ghost predicate Kept(s: State, t: State, a: Addr) {
    && (a in t.counters <==> a in t.current)
    && Accepted(t.counters, a) == |Current(t, a)|
    && a in s.closed && a in t.closed
    && Current(t, a) == Current(s, a) && t.closed[a] == s.closed[a]
  }

  ghost predicate Accepts(s: State, t: State, a: Addr, d: Datagram) {
    && (a in t.counters <==> a in t.current)
    && Accepted(t.counters, a) == |Current(t, a)|
    && a in s.closed && a in t.closed
    && d.chunkNo == |Current(s, a)| + 1
    && if d.last then Current(t, a) == [] && t.closed[a] == s.closed[a] + [Current(s, a) + [d]]
       else Current(t, a) == Current(s, a) + [d] && t.closed[a] == s.closed[a]
  }

  lemma ServerEffect(cfg: Config, s: State, a: Addr, d: Datagram)
    requires Shaped(cfg, s) && Enabled(cfg, s, ServerStep(a, d)) && InStep(cfg, s, a)
    ensures
      var t := Step(cfg, s, ServerStep(a, d));
      if Receive(s.counters, cfg.slots, a, d).delivered then Accepts(s, t, a, d) else Kept(s, t, a)
    ensures Receive(s.counters, cfg.slots, a, d).echoed ==>
      d.chunkNo <= |Current(s, a)| || Receive(s.counters, cfg.slots, a, d).delivered
  {
  }

  lemma ServerElsewhere(cfg: Config, s: State, a: Addr, d: Datagram, b: Addr)
    requires Shaped(cfg, s) && Enabled(cfg, s, ServerStep(a, d)) && b in cfg.files && InStep(cfg, s, b) && b != a
    ensures Kept(s, Step(cfg, s, ServerStep(a, d)), b)
  {
    ReceiveIsLocal(s.counters, cfg.slots, a, d, b);
  }

  lemma KeptInStep(cfg: Config, s: State, t: State, a: Addr)
    requires Shaped(cfg, s) && Shaped(cfg, t) && a in cfg.files && s.clients == t.clients
    requires InStep(cfg, s, a) && Kept(s, t, a)
    ensures InStep(cfg, t, a)
  {
  }

  lemma AcceptsInStep(cfg: Config, s: State, t: State, a: Addr, d: Datagram)
    requires Shaped(cfg, s) && Shaped(cfg, t) && a in cfg.files && s.clients == t.clients
    requires InStep(cfg, s, a) && Genuine(cfg, s, a, d) && Accepts(s, t, a, d)
    ensures InStep(cfg, t, a)
  {
    var data, m := cfg.files[a], |Current(s, a)|;
    assert Parts(data, cfg.size, m) + [d] == Parts(data, cfg.size, m + 1);
    assert d.last <==> m + 1 == Final(cfg, a);
  }

  /** What a step of the server may change, as the clients see it. */
  ghost predicate ServerMove(cfg: Config, s: State, t: State, a: Addr, d: Datagram)
    requires Shaped(cfg, s)
  {
    && Shaped(cfg, t) && t.clients == s.clients && t.toServer == s.toServer
    && (forall b :: b in cfg.files && b != a ==> Kept(s, t, b))
    && (Accepts(s, t, a, d) || Kept(s, t, a))
    && forall x :: x in t.toClients && x !in s.toClients ==>
         x == (a, d) && (Accepts(s, t, a, d) || d.chunkNo <= |Current(s, a)|)
  }

  /** What is new on its way to the clients. */
  lemma OnlyEcho(cfg: Config, s: State, a: Addr, d: Datagram)
    requires Shaped(cfg, s) && Enabled(cfg, s, ServerStep(a, d))
    ensures
      var t := Step(cfg, s, ServerStep(a, d));
      && t.clients == s.clients && t.toServer == s.toServer
      && t.toClients == if Receive(s.counters, cfg.slots, a, d).echoed then s.toClients + {(a, d)} else s.toClients
  {
  }

  lemma IsServerMove(cfg: Config, s: State, t: State, a: Addr, d: Datagram, delivered: bool, echoed: bool)
    requires Shaped(cfg, s) && Shaped(cfg, t) && t.clients == s.clients && t.toServer == s.toServer
    requires t.toClients == if echoed then s.toClients + {(a, d)} else s.toClients
    requires if delivered then Accepts(s, t, a, d) else Kept(s, t, a)
    requires echoed ==> d.chunkNo <= |Current(s, a)| || delivered
    requires forall b :: b in cfg.files && b != a ==> Kept(s, t, b)
    ensures ServerMove(cfg, s, t, a, d)
  {
  }

  lemma ServerMoves(cfg: Config, s: State, a: Addr, d: Datagram)
    requires Inv(cfg, s) && Enabled(cfg, s, ServerStep(a, d))
    ensures ServerMove(cfg, s, Step(cfg, s, ServerStep(a, d)), a, d)
  {
    var t, r := Step(cfg, s, ServerStep(a, d)), Receive(s.counters, cfg.slots, a, d);
    StepShaped(cfg, s, ServerStep(a, d));
    OnlyEcho(cfg, s, a, d);
    assert InStep(cfg, s, a);
    ServerEffect(cfg, s, a, d);
    forall b | b in cfg.files && b != a ensures Kept(s, t, b) {
      assert InStep(cfg, s, b);
      ServerElsewhere(cfg, s, a, d, b);
    }
    IsServerMove(cfg, s, t, a, d, r.delivered, r.echoed);
  }

  lemma ServerKeepsInStep(cfg: Config, s: State, t: State, a: Addr, d: Datagram, b: Addr)
    requires Inv(cfg, s) && (a, d) in s.toServer && ServerMove(cfg, s, t, a, d) && b in cfg.files
    ensures InStep(cfg, t, b)
  {
    assert Genuine(cfg, s, (a, d).0, (a, d).1) && InStep(cfg, s, b);
    if b == a && Accepts(s, t, a, d) {
      AcceptsInStep(cfg, s, t, a, d);
    } else {
      KeptInStep(cfg, s, t, b);
    }
  }

  lemma ServerKeepsEchoes(cfg: Config, s: State, t: State, a: Addr, d: Datagram, x: (Addr, Datagram))
    requires Inv(cfg, s) && (a, d) in s.toServer && ServerMove(cfg, s, t, a, d) && x in t.toClients
    ensures Genuine(cfg, t, x.0, x.1) && (t.closed[x.0] == [] ==> x.1.chunkNo <= |Current(t, x.0)|)
  {
    assert Genuine(cfg, s, (a, d).0, (a, d).1);
    if x in s.toClients { assert Genuine(cfg, s, x.0, x.1); }
    assert InStep(cfg, s, x.0);
  }

  lemma ServerMoveKeeps(cfg: Config, s: State, t: State, a: Addr, d: Datagram)
    requires Inv(cfg, s) && (a, d) in s.toServer && ServerMove(cfg, s, t, a, d)
    ensures Inv(cfg, t)
  {
    forall b | b in cfg.files ensures InStep(cfg, t, b) { ServerKeepsInStep(cfg, s, t, a, d, b); }
    forall x | x in t.toServer ensures Genuine(cfg, t, x.0, x.1) { assert Genuine(cfg, s, x.0, x.1); }
    forall x | x in t.toClients
      ensures Genuine(cfg, t, x.0, x.1) && (t.closed[x.0] == [] ==> x.1.chunkNo <= |Current(t, x.0)|)
    {
      ServerKeepsEchoes(cfg, s, t, a, d, x);
    }
  }

  lemma LossKeeps(cfg: Config, s: State, t: State)
    requires Inv(cfg, s) && t.toServer <= s.toServer && t.toClients <= s.toClients
    requires t == s.(toServer := t.toServer, toClients := t.toClients)
    ensures Inv(cfg, t)
  {
    forall a | a in cfg.files ensures InStep(cfg, t, a) { assert InStep(cfg, s, a); }
    forall x | x in t.toServer ensures Genuine(cfg, t, x.0, x.1) { assert Genuine(cfg, s, x.0, x.1); }
    forall x | x in t.toClients
      ensures Genuine(cfg, t, x.0, x.1) && (t.closed[x.0] == [] ==> x.1.chunkNo <= |Current(t, x.0)|)
    {
      assert Genuine(cfg, s, x.0, x.1);
    }
  }

  lemma StepInv(cfg: Config, s: State, act: Action)
    requires Inv(cfg, s) && Enabled(cfg, s, act)
    ensures Inv(cfg, Step(cfg, s, act))
  {
    match act
    case ClientStep(a, e) => ClientKeeps(cfg, s, a, e);
    case ServerStep(a, d) =>
      ServerMoves(cfg, s, a, d);
      ServerMoveKeeps(cfg, s, Step(cfg, s, act), a, d);
    case _ => LossKeeps(cfg, s, Step(cfg, s, act));
  }

  lemma {:induction false} RunInv(cfg: Config, run: seq<State>)
    requires IsRun(cfg, run)
    ensures Inv(cfg, run[|run| - 1])
  {
    if |run| > 1 {
      var r, s := run[|run| - 2], run[|run| - 1];
      RunInv(cfg, run[..|run| - 1]);
      assert Next(cfg, r, s);
      var act :| Enabled(cfg, r, act) && s == Step(cfg, r, act);
      StepInv(cfg, r, act);
    }
  }

  lemma ReachableInv(cfg: Config, s: State)
    requires Reachable(cfg, s)
    ensures Inv(cfg, s)
  {
    var run :| IsRun(cfg, run) && run[|run| - 1] == s;
    RunInv(cfg, run);
  }

  // ----- the guarantees

  /** Until the server first accepts a client's last part, its counter for that client is the part being sent or the one before,
      and it has delivered exactly the parts up to that counter, once each and in order. */
  lemma LockStep(cfg: Config, s: State, a: Addr)
    requires Reachable(cfg, s) && a in cfg.files
    ensures a in s.closed && a in s.clients
    ensures s.closed[a] == [] ==>
      var m := Accepted(s.counters, a);
      && s.clients[a].chunkNo - 1 <= m <= s.clients[a].chunkNo
      && 0 <= m <= Final(cfg, a) && Current(s, a) == Parts(cfg.files[a], cfg.size, m)
  {
    ReachableInv(cfg, s);
    assert InStep(cfg, s, a);
  }

  /** Whatever the network does, what is delivered in a tenancy of a slot is the client's parts 1, 2, 3, ... without gap or repeat,
      and a tenancy ends only with the whole file. */
  lemma Tenancies(cfg: Config, s: State, a: Addr)
    requires Reachable(cfg, s) && a in cfg.files
    ensures a in s.closed
    ensures forall t :: t in s.closed[a] ==> t == Parts(cfg.files[a], cfg.size, Final(cfg, a))
    ensures |Current(s, a)| < Final(cfg, a) && Current(s, a) == Parts(cfg.files[a], cfg.size, |Current(s, a)|)
    ensures Accepted(s.counters, a) == |Current(s, a)|
  {
    ReachableInv(cfg, s);
    assert InStep(cfg, s, a);
  }

  lemma FinishedIsDelivered(cfg: Config, s: State, a: Addr)
    requires Reachable(cfg, s) && a in cfg.files && a in s.clients && s.clients[a].status.Finished?
    ensures cfg.size > 0 && a in s.closed && s.closed[a] != []
    ensures s.closed[a][0] == Parts(cfg.files[a], cfg.size, Final(cfg, a))
  {
    ReachableInv(cfg, s);
    assert InStep(cfg, s, a);
    assert s.closed[a][0] in s.closed[a];
  }

  /** A client that leaves its loop without giving up has had its file delivered in full, and the delivered payloads
      give the file back up to the zeros at its end. */
  lemma EndToEnd(cfg: Config, s: State, a: Addr)
    requires Reachable(cfg, s) && a in cfg.files && a in s.clients && s.clients[a].status.Finished?
    ensures cfg.size > 0 && a in s.closed && s.closed[a] != []
    ensures
      var data, first := cfg.files[a], s.closed[a][0];
      && |first| == PartCount(data, cfg.size)
      && (forall i :: 0 <= i < |first| ==> first[i].chunkNo == i + 1 && (first[i].last <==> i == |first| - 1))
      && data <= Joined(first) && |data| < |Joined(first)| <= |data| + cfg.size
      && (forall i :: |data| <= i < |Joined(first)| ==> Joined(first)[i] == 0)
      && (Stripped(Joined(first)) == data <==> !EndsInZero(data))
  {
    FinishedIsDelivered(cfg, s, a);
    AllTogether(cfg.files[a], cfg.size);
    Reassembly(cfg.files[a], cfg.size);
  }

  ghost predicate DeliveredBefore(s: State, a: Addr, d: Datagram)
    requires a in s.closed
  {
    d in Current(s, a) || exists i :: 0 <= i < |s.closed[a]| && d in s.closed[a][i]
  }

  /** Delivery is not exactly once: a part that the server accepts is a repeat exactly when it has already freed
      a slot of that client after a last part. */
  lemma RepeatedDelivery(cfg: Config, s: State, a: Addr, d: Datagram)
    requires Reachable(cfg, s) && a in cfg.files && (a, d) in s.toServer
    requires Receive(s.counters, cfg.slots, a, d).delivered
    ensures a in s.closed
    ensures DeliveredBefore(s, a, d) <==> s.closed[a] != []
  {
    ReachableInv(cfg, s);
    NextPart(cfg, s, a, d);
    if s.closed[a] != [] { ClosedHasAll(cfg, s, a, d.chunkNo); }
  }

  lemma ClosedHasAll(cfg: Config, s: State, a: Addr, k: nat)
    requires Shaped(cfg, s) && a in cfg.files && InStep(cfg, s, a) && s.closed[a] != [] && 1 <= k <= Final(cfg, a)
    ensures Part(cfg.files[a], cfg.size, k) in s.closed[a][0]
  {
    assert s.closed[a][0] in s.closed[a];
    assert s.closed[a][0][k - 1] == Part(cfg.files[a], cfg.size, k);
  }

  lemma NextPart(cfg: Config, s: State, a: Addr, d: Datagram)
    requires Inv(cfg, s) && a in cfg.files && (a, d) in s.toServer
    requires Receive(s.counters, cfg.slots, a, d).delivered
    ensures d !in Current(s, a)
    ensures 1 <= d.chunkNo <= Final(cfg, a) && d == Part(cfg.files[a], cfg.size, d.chunkNo)
  {
    assert InStep(cfg, s, a) && Genuine(cfg, s, (a, d).0, (a, d).1);
  }

  lemma ReachableNext(cfg: Config, s: State, t: State)
    requires Reachable(cfg, s) && Next(cfg, s, t)
    ensures Reachable(cfg, t)
  {
    var run :| IsRun(cfg, run) && run[|run| - 1] == s;
    assert IsRun(cfg, run + [t]);
  }

  lemma StepShaped(cfg: Config, s: State, act: Action)
    requires Shaped(cfg, s) && Enabled(cfg, s, act)
    ensures Shaped(cfg, Step(cfg, s, act))
  {
  }

  lemma ReachableStep(cfg: Config, s: State, act: Action) returns (t: State)
    requires Reachable(cfg, s) && Shaped(cfg, s) && Enabled(cfg, s, act)
    ensures t == Step(cfg, s, act) && Reachable(cfg, t) && Shaped(cfg, t)
  {
    t := Step(cfg, s, act);
    StepShaped(cfg, s, act);
    assert Next(cfg, s, t);
    ReachableNext(cfg, s, t);
  }

  // ----- what the server does with one datagram

  /** Whether the server can serve a client: it has a slot, or one is free. */
  ghost predicate HasRoom(cfg: Config, s: State, a: Addr) {
    a in s.counters || |s.counters| < cfg.slots
  }

  /** The next part is delivered and echoed, and the slot is kept or, after the last part, freed. */
  lemma NextPartTaken(cfg: Config, s: State, a: Addr, d: Datagram)
    requires Reachable(cfg, s) && Shaped(cfg, s) && Enabled(cfg, s, ServerStep(a, d)) && HasRoom(cfg, s, a)
    requires d.chunkNo == |Current(s, a)| + 1
    ensures
      var t := Step(cfg, s, ServerStep(a, d));
      && t.toClients == s.toClients + {(a, d)}
      && if d.last then a !in t.counters && Current(t, a) == [] && t.closed == s.closed[a := s.closed[a] + [Current(s, a) + [d]]]
         else a in t.counters && Current(t, a) == Current(s, a) + [d] && t.closed == s.closed
  {
    ReachableInv(cfg, s);
    assert InStep(cfg, s, a);
  }

  /** A part that was delivered before is echoed again and not delivered again. */
  lemma OldPartEchoed(cfg: Config, s: State, a: Addr, d: Datagram)
    requires Reachable(cfg, s) && Shaped(cfg, s) && Enabled(cfg, s, ServerStep(a, d)) && HasRoom(cfg, s, a)
    requires d.chunkNo <= |Current(s, a)|
    ensures
      var t := Step(cfg, s, ServerStep(a, d));
      && t.toClients == s.toClients + {(a, d)}
      && a in t.counters && Current(t, a) == Current(s, a) && t.closed == s.closed
  {
    ReachableInv(cfg, s);
    assert InStep(cfg, s, a);
    ReceiveServes(s.counters, cfg.slots, a, d);
  }

  /** A part beyond the next one is neither delivered nor echoed, but its client has a slot from then on. */
  lemma FuturePartDropped(cfg: Config, s: State, a: Addr, d: Datagram)
    requires Reachable(cfg, s) && Shaped(cfg, s) && Enabled(cfg, s, ServerStep(a, d)) && HasRoom(cfg, s, a)
    requires d.chunkNo > |Current(s, a)| + 1
    ensures
      var t := Step(cfg, s, ServerStep(a, d));
      && t.toClients == s.toClients
      && a in t.counters && Current(t, a) == Current(s, a) && t.closed == s.closed
  {
    ReachableInv(cfg, s);
    assert InStep(cfg, s, a);
    ReceiveServes(s.counters, cfg.slots, a, d);
  }

  /** And whatever comes from an address for which there is no room changes nothing. */
  lemma NoRoomIgnored(cfg: Config, s: State, a: Addr, d: Datagram)
    requires Shaped(cfg, s) && Enabled(cfg, s, ServerStep(a, d)) && !HasRoom(cfg, s, a)
    ensures Step(cfg, s, ServerStep(a, d)) == s
  {
  }

  // ----- progress

  lemma SendNow(cfg: Config, s: State, a: Addr) returns (t: State)
    requires Reachable(cfg, s) && Shaped(cfg, s) && a in cfg.files
    requires s.clients[a].status.Sending? && !s.clients[a].waiting
    ensures Next(cfg, s, t) && Reachable(cfg, t) && Shaped(cfg, t)
    ensures t == s.(clients := t.clients, toServer := t.toServer)
    ensures t.clients[a] == s.clients[a].(tries := s.clients[a].tries + 1, waiting := true)
    ensures t.toServer == s.toServer + {Copy(cfg, a, s.clients[a].chunkNo)}
  {
    var act := ClientStep(a, Sent(Copy(cfg, a, s.clients[a].chunkNo).1));
    t := ReachableStep(cfg, s, act);
    assert Next(cfg, s, t);
  }

  lemma ServeNow(cfg: Config, s: State, a: Addr, k: nat) returns (t: State)
    requires Reachable(cfg, s) && Shaped(cfg, s) && a in cfg.files && s.closed[a] == [] && HasRoom(cfg, s, a)
    requires 1 <= k <= Final(cfg, a) && k == s.clients[a].chunkNo && Copy(cfg, a, k) in s.toServer
    ensures Next(cfg, s, t) && Reachable(cfg, t) && Shaped(cfg, t)
    ensures t.clients == s.clients && Copy(cfg, a, k) in t.toClients
    ensures k < Final(cfg, a) ==> a in t.counters && t.closed == s.closed
  {
    var d := Copy(cfg, a, k).1;
    t := ReachableStep(cfg, s, ServerStep(a, d));
    assert Next(cfg, s, t);
    LockStep(cfg, s, a);
    if k == |Current(s, a)| + 1 { NextPartTaken(cfg, s, a, d); } else { OldPartEchoed(cfg, s, a, d); }
  }

  lemma ConfirmNow(cfg: Config, s: State, a: Addr) returns (t: State)
    requires Reachable(cfg, s) && Shaped(cfg, s) && a in cfg.files && s.clients[a].status.Sending? && s.clients[a].waiting
    requires Copy(cfg, a, s.clients[a].chunkNo) in s.toClients
    ensures Next(cfg, s, t) && Reachable(cfg, t) && Shaped(cfg, t) && t == s.(clients := t.clients)
    ensures
      var k := s.clients[a].chunkNo;
      if k == Final(cfg, a) then t.clients[a].status.Finished? else t.clients[a] == Client(k + 1, 0, false, Sending)
  {
    var act := ClientStep(a, Received(Copy(cfg, a, s.clients[a].chunkNo).1));
    t := ReachableStep(cfg, s, act);
    assert Next(cfg, s, t);
  }

  /** From any state in which the client may send its part, that part can be sent, served and confirmed, whether or not it was
      delivered before. */
  lemma Confirmable(cfg: Config, s: State, a: Addr) returns (t: State, u: State, v: State)
    requires Reachable(cfg, s) && Shaped(cfg, s) && a in cfg.files && s.closed[a] == [] && HasRoom(cfg, s, a)
    requires s.clients[a].status.Sending? && !s.clients[a].waiting
    ensures Next(cfg, s, t) && Next(cfg, t, u) && Next(cfg, u, v)
    ensures Reachable(cfg, v) && Shaped(cfg, v)
    ensures
      var k := s.clients[a].chunkNo;
      if k == Final(cfg, a) then v.clients[a].status.Finished?
      else v.clients[a] == Client(k + 1, 0, false, Sending) && v.closed[a] == [] && HasRoom(cfg, v, a)
  {
    t := SendNow(cfg, s, a);
    u := ServeNow(cfg, t, a, s.clients[a].chunkNo);
    v := ConfirmNow(cfg, u, a);
  }

  lemma Prepended(cfg: Config, s: State, path: seq<State>)
    requires IsPath(cfg, path) && Next(cfg, s, path[0])
    ensures IsPath(cfg, [s] + path)
  {
    var all := [s] + path;
    forall i | 0 <= i < |all| - 1 ensures Next(cfg, all[i], all[i + 1]) {
      if i > 0 { assert all[i] == path[i - 1]; }
    }
  }

  /** Whatever was lost, repeated or delayed before, and whatever the other clients do: as long as its file was not delivered,
      a client that may still send, and for which there is room, can still be served to the end. */
  lemma CanAlwaysFinish(cfg: Config, s: State, a: Addr) returns (path: seq<State>)
    requires Reachable(cfg, s) && Shaped(cfg, s) && a in cfg.files && s.closed[a] == [] && HasRoom(cfg, s, a)
    requires s.clients[a].status.Sending? && (s.clients[a].waiting ==> s.clients[a].tries <= cfg.limit)
    ensures IsPath(cfg, path) && path[0] == s && FinishedAt(path[|path| - 1], a)
    decreases Final(cfg, a) - s.clients[a].chunkNo + 1, s.clients[a].waiting
  {
    if s.clients[a].waiting {
      var t := ReachableStep(cfg, s, ClientStep(a, TimedOut));
      assert Next(cfg, s, t);
      path := CanAlwaysFinish(cfg, t, a);
      Prepended(cfg, s, path);
      path := [s] + path;
    } else {
      var t, u, v := Confirmable(cfg, s, a);
      path := FinishFrom(cfg, v, a, s.clients[a].chunkNo);
      Prepended(cfg, u, path);
      Prepended(cfg, t, [u] + path);
      Prepended(cfg, s, [t] + ([u] + path));
      path := [s] + ([t] + ([u] + path));
    }
  }

  lemma FinishFrom(cfg: Config, s: State, a: Addr, k: nat) returns (path: seq<State>)
    requires Reachable(cfg, s) && Shaped(cfg, s) && a in cfg.files && k <= Final(cfg, a)
    requires if k == Final(cfg, a) then s.clients[a].status.Finished?
             else s.clients[a] == Client(k + 1, 0, false, Sending) && s.closed[a] == [] && HasRoom(cfg, s, a)
    ensures IsPath(cfg, path) && path[0] == s && FinishedAt(path[|path| - 1], a)
    decreases Final(cfg, a) - k, true
  {
    if k == Final(cfg, a) { path := [s]; } else { path := CanAlwaysFinish(cfg, s, a); }
  }

  // ----- a network that loses nothing

  /** Only client `a` has a slot, if any, and the server has accepted its parts before k in the present tenancy. */
  ghost predicate Alone(s: State, a: Addr, k: int) {
    s.counters.Keys <= {a} && Accepted(s.counters, a) == k - 1
  }

  ghost function Copy(cfg: Config, a: Addr, k: nat): (Addr, Datagram)
    requires cfg.size > 0 && a in cfg.files && 1 <= k <= Final(cfg, a)
  {
    (a, Part(cfg.files[a], cfg.size, k))
  }

  ghost predicate AllSentBefore(cfg: Config, s: State, a: Addr, n: nat)
    requires cfg.size > 0 && a in cfg.files && n <= Final(cfg, a) + 1
  {
    forall k :: 1 <= k < n ==> Copy(cfg, a, k) in s.toServer
  }

  lemma AloneReceive(counters: map<Addr, int>, slots: nat, a: Addr, d: Datagram)
    requires counters.Keys <= {a} && slots > 0 && d.chunkNo == Accepted(counters, a) + 1
    ensures
      var r := Receive(counters, slots, a, d);
      r.delivered && r.echoed && r.counters == if d.last then map[] else map[a := d.chunkNo]
  {
    if a !in counters { assert counters == map[]; }
  }

  lemma EchoPart(cfg: Config, s: State, a: Addr, k: nat) returns (t: State)
    requires Reachable(cfg, s) && Shaped(cfg, s) && a in cfg.files && cfg.slots > 0 && 1 <= k <= Final(cfg, a)
    requires Alone(s, a, k) && Copy(cfg, a, k) in s.toServer
    ensures Reachable(cfg, t) && Shaped(cfg, t)
    ensures t.clients == s.clients && t.toServer == s.toServer && Copy(cfg, a, k) in t.toClients
    ensures if k == Final(cfg, a) then Alone(t, a, 1) && |t.closed[a]| == |s.closed[a]| + 1
            else Alone(t, a, k + 1) && t.closed == s.closed
  {
    AloneReceive(s.counters, cfg.slots, a, Copy(cfg, a, k).1);
    t := ReachableStep(cfg, s, ServerStep(a, Copy(cfg, a, k).1));
  }

  lemma OneMoreSent(cfg: Config, s: State, t: State, a: Addr, k: nat)
    requires cfg.size > 0 && a in cfg.files && 1 <= k <= Final(cfg, a) && AllSentBefore(cfg, s, a, k)
    requires t.toServer == s.toServer + {Copy(cfg, a, k)}
    ensures AllSentBefore(cfg, t, a, k + 1)
  {
  }

  lemma Trip(cfg: Config, s: State, a: Addr, k: nat) returns (t: State)
    requires Reachable(cfg, s) && Shaped(cfg, s) && a in cfg.files && cfg.slots > 0 && Alone(s, a, k)
    requires s.clients[a] == Client(k, 0, false, Sending)
    ensures Reachable(cfg, t) && Shaped(cfg, t) && t.toServer == s.toServer + {Copy(cfg, a, k)}
    ensures if k == Final(cfg, a)
            then Alone(t, a, 1) && |t.closed[a]| == |s.closed[a]| + 1 && t.clients[a].status.Finished?
            else Alone(t, a, k + 1) && t.closed == s.closed && t.clients[a] == Client(k + 1, 0, false, Sending)
  {
    var u := SendNow(cfg, s, a);
    var v := EchoPart(cfg, u, a, k);
    t := ConfirmNow(cfg, v, a);
  }

  lemma Trips(cfg: Config, s: State, a: Addr, k: nat) returns (t: State)
    requires Reachable(cfg, s) && Shaped(cfg, s) && a in cfg.files && cfg.slots > 0 && Alone(s, a, k)
    requires s.clients[a] == Client(k, 0, false, Sending) && AllSentBefore(cfg, s, a, k)
    ensures Reachable(cfg, t) && Shaped(cfg, t) && Alone(t, a, 1) && AllSentBefore(cfg, t, a, Final(cfg, a) + 1)
    ensures t.clients[a].status.Finished? && |t.closed[a]| == |s.closed[a]| + 1
    decreases Final(cfg, a) - k
  {
    t := Trip(cfg, s, a, k);
    OneMoreSent(cfg, s, t, a, k);
    if k != Final(cfg, a) { t := Trips(cfg, t, a, k + 1); }
  }

  lemma Again(cfg: Config, s: State, a: Addr, k: nat) returns (t: State)
    requires Reachable(cfg, s) && Shaped(cfg, s) && a in cfg.files && cfg.slots > 0
    requires 1 <= k <= Final(cfg, a) && Alone(s, a, k) && AllSentBefore(cfg, s, a, Final(cfg, a) + 1)
    ensures Reachable(cfg, t) && Shaped(cfg, t) && |t.closed[a]| == |s.closed[a]| + 1
    decreases Final(cfg, a) - k
  {
    t := EchoPart(cfg, s, a, k);
    assert AllSentBefore(cfg, t, a, Final(cfg, a) + 1);
    if k != Final(cfg, a) { t := Again(cfg, t, a, k + 1); }
  }

  /** Every client can finish, whatever its file, when no datagram is lost and there is a slot for it. */
  lemma CanFinish(cfg: Config, a: Addr)
    requires cfg.size > 0 && cfg.slots > 0 && a in cfg.files
    ensures exists s :: Reachable(cfg, s) && a in s.clients && s.clients[a].status.Finished?
  {
    assert IsRun(cfg, [Init(cfg)]);
    var s := Trips(cfg, Init(cfg), a, 1);
  }

  /** And every file can be delivered twice, by copies that arrive after its slot was freed. */
  lemma CanRepeat(cfg: Config, a: Addr)
    requires cfg.size > 0 && cfg.slots > 0 && a in cfg.files
    ensures exists s :: Reachable(cfg, s) && a in s.closed && |s.closed[a]| == 2
  {
    assert IsRun(cfg, [Init(cfg)]);
    var s := Trips(cfg, Init(cfg), a, 1);
    s := Again(cfg, s, a, 1);
  }

  // ----- when the echo of the last part is lost

  /** A step in which the network does not bring the server an earlier part of client a. */
  ghost predicate LateNext(cfg: Config, s: State, t: State, a: Addr)
    requires cfg.size > 0 && a in cfg.files
  {
    && Shaped(cfg, s)
    && exists act ::
         && Enabled(cfg, s, act) && t == Step(cfg, s, act)
         && (act.ServerStep? && act.a == a ==> act.d == Copy(cfg, a, Final(cfg, a)).1)
  }

  ghost predicate IsLatePath(cfg: Config, path: seq<State>, a: Addr)
    requires cfg.size > 0 && a in cfg.files
  {
    path != [] && forall i :: 0 <= i < |path| - 1 ==> LateNext(cfg, path[i], path[i + 1], a)
  }

  /** The server has no part of client a in the present tenancy, if there is one, and no echo of its last part is on the way. */
  ghost predicate Unanswered(cfg: Config, s: State, a: Addr)
    requires cfg.size > 0 && a in cfg.files
  {
    && a in s.clients && !s.clients[a].status.Finished?
    && Accepted(s.counters, a) == 0 && Copy(cfg, a, Final(cfg, a)) !in s.toClients
  }

  /** What does not change for client a: what was delivered, and its slot once it has one. */
  ghost predicate Frozen(s: State, t: State, a: Addr) {
    && a in s.closed && a in t.closed && t.closed[a] == s.closed[a]
    && (a in s.counters ==> a in t.counters)
  }

  lemma LastPartRefused(counters: map<Addr, int>, slots: nat, a: Addr, d: Datagram)
    requires Accepted(counters, a) == 0 && d.chunkNo > 1
    ensures
      var r := Receive(counters, slots, a, d);
      !r.delivered && !r.echoed && Accepted(r.counters, a) == 0 && (a in counters ==> a in r.counters)
  {
  }

  lemma ServerStaysUnanswered(cfg: Config, s: State, a: Addr, b: Addr, d: Datagram)
    requires Shaped(cfg, s) && a in cfg.files && Final(cfg, a) > 1 && Unanswered(cfg, s, a)
    requires Enabled(cfg, s, ServerStep(b, d)) && (b == a ==> d == Copy(cfg, a, Final(cfg, a)).1)
    ensures Unanswered(cfg, Step(cfg, s, ServerStep(b, d)), a) && Frozen(s, Step(cfg, s, ServerStep(b, d)), a)
  {
    if b == a { LastPartRefused(s.counters, cfg.slots, a, d); } else { ReceiveIsLocal(s.counters, cfg.slots, b, d, a); }
  }

  lemma ClientStaysUnanswered(cfg: Config, s: State, a: Addr, b: Addr, e: Event)
    requires Inv(cfg, s) && a in cfg.files && Unanswered(cfg, s, a) && Enabled(cfg, s, ClientStep(b, e))
    ensures Unanswered(cfg, Step(cfg, s, ClientStep(b, e)), a) && Frozen(s, Step(cfg, s, ClientStep(b, e)), a)
  {
    if e.Received? { assert Genuine(cfg, s, (b, e.d).0, (b, e.d).1); }
  }

  lemma StaysUnanswered(cfg: Config, s: State, t: State, a: Addr)
    requires Inv(cfg, s) && a in cfg.files && Final(cfg, a) > 1 && Unanswered(cfg, s, a) && LateNext(cfg, s, t, a)
    ensures Inv(cfg, t) && Unanswered(cfg, t, a) && Frozen(s, t, a)
  {
    var act :|
      && Enabled(cfg, s, act) && t == Step(cfg, s, act)
      && (act.ServerStep? && act.a == a ==> act.d == Copy(cfg, a, Final(cfg, a)).1);
    StepInv(cfg, s, act);
    match act
    case ClientStep(b, e) => ClientStaysUnanswered(cfg, s, a, b, e);
    case ServerStep(b, d) => ServerStaysUnanswered(cfg, s, a, b, d);
    case _ =>
  }

  /** When the echo of a last part is lost, its slot is already gone. However often the client of a file of several parts
      sends it again, and whatever the other clients do, it is never echoed nor delivered, the slot it takes keeps its
      counter 0, and the client does not finish. */
  lemma {:induction false} LateLastPart(cfg: Config, path: seq<State>, a: Addr)
    requires cfg.size > 0 && a in cfg.files && Final(cfg, a) > 1 && IsLatePath(cfg, path, a)
    requires Inv(cfg, path[0]) && Unanswered(cfg, path[0], a)
    ensures Unanswered(cfg, path[|path| - 1], a) && Frozen(path[0], path[|path| - 1], a)
  {
    if |path| > 1 {
      assert LateNext(cfg, path[0], path[1], a);
      StaysUnanswered(cfg, path[0], path[1], a);
      LateLastPart(cfg, path[1..], a);
    }
  }

  /** A step that brings the client the echo it waits for. */
  lemma AnswerReceived(cfg: Config, s: State, a: Addr) returns (t: State)
    requires Shaped(cfg, s) && a in cfg.files && Copy(cfg, a, Final(cfg, a)) in s.toClients
    requires s.clients[a].chunkNo == Final(cfg, a) && s.clients[a].waiting && s.clients[a].status.Sending?
    ensures LateNext(cfg, s, t, a) && a in t.clients && t.clients[a].status.Finished?
  {
    var act := ClientStep(a, Received(Copy(cfg, a, Final(cfg, a)).1));
    assert Enabled(cfg, s, act);
    t := Step(cfg, s, act);
  }

  /** The only part of a file is accepted again, and echoed. */
  lemma OnlyPartAgain(cfg: Config, s: State, a: Addr) returns (t: State)
    requires Shaped(cfg, s) && a in cfg.files && Final(cfg, a) == 1 && Accepted(s.counters, a) == 0
    requires (a in s.counters || |s.counters| < cfg.slots) && Copy(cfg, a, 1) in s.toServer
    ensures Shaped(cfg, t) && LateNext(cfg, s, t, a) && t.clients == s.clients && Copy(cfg, a, 1) in t.toClients
  {
    var act := ServerStep(a, Copy(cfg, a, 1).1);
    assert Enabled(cfg, s, act);
    t := Step(cfg, s, act);
    StepShaped(cfg, s, act);
  }

  /** A client that waits for the echo of its last part, of which the server has forgotten it: it can still finish, without
      the server being sent earlier parts again, if and only if an echo is on the way or the file has only one part. */
  lemma FinishesIffAnswered(cfg: Config, s: State, a: Addr)
    requires Reachable(cfg, s) && Shaped(cfg, s) && a in cfg.files
    requires s.clients[a].chunkNo == Final(cfg, a) && s.clients[a].waiting && s.clients[a].status.Sending?
    requires Accepted(s.counters, a) == 0 && (a in s.counters || |s.counters| < cfg.slots)
    requires Copy(cfg, a, Final(cfg, a)) in s.toServer
    ensures (exists path :: IsLatePath(cfg, path, a) && path[0] == s && FinishedAt(path[|path| - 1], a))
            <==> Copy(cfg, a, Final(cfg, a)) in s.toClients || Final(cfg, a) == 1
  {
    ReachableInv(cfg, s);
    if Copy(cfg, a, Final(cfg, a)) in s.toClients {
      var t := AnswerReceived(cfg, s, a);
      assert IsLatePath(cfg, [s, t], a);
    } else if Final(cfg, a) == 1 {
      var t := OnlyPartAgain(cfg, s, a);
      var u := AnswerReceived(cfg, t, a);
      assert IsLatePath(cfg, [s, t, u], a);
    } else {
      forall path | IsLatePath(cfg, path, a) && path[0] == s ensures !FinishedAt(path[|path| - 1], a) {
        LateLastPart(cfg, path, a);
      }
    }
  }

  ghost predicate FinishedAt(s: State, a: Addr) {
    a in s.clients && s.clients[a].status.Finished?
  }

  /** A client that has been answered up to its last part. */
  lemma Approach(cfg: Config, s: State, a: Addr, k: nat) returns (t: State)
    requires Reachable(cfg, s) && Shaped(cfg, s) && a in cfg.files && cfg.slots > 0 && Alone(s, a, k)
    requires k <= Final(cfg, a) && s.clients[a] == Client(k, 0, false, Sending)
    ensures Reachable(cfg, t) && Shaped(cfg, t) && Alone(t, a, Final(cfg, a))
    ensures t.clients[a] == Client(Final(cfg, a), 0, false, Sending)
    decreases Final(cfg, a) - k
  {
    if k == Final(cfg, a) {
      t := s;
    } else {
      t := Trip(cfg, s, a, k);
      t := Approach(cfg, t, a, k + 1);
    }
  }

  /** And whose last part was delivered, but the echo lost. */
  lemma EchoLost(cfg: Config, a: Addr) returns (t: State)
    requires cfg.size > 0 && cfg.slots > 0 && a in cfg.files
    ensures Reachable(cfg, t) && Shaped(cfg, t) && t.closed[a] != [] && Unanswered(cfg, t, a)
    ensures t.clients[a] == Client(Final(cfg, a), 1, true, Sending) && Copy(cfg, a, Final(cfg, a)) in t.toServer
  {
    assert IsRun(cfg, [Init(cfg)]);
    var k := Final(cfg, a);
    t := Approach(cfg, Init(cfg), a, 1);
    t := SendNow(cfg, t, a);
    t := EchoPart(cfg, t, a, k);
    t := ReachableStep(cfg, t, LoseToClient(a, Copy(cfg, a, k).1));
  }

  /** Its retransmissions and time-outs, up to the last one. */
  lemma Retries(cfg: Config, s: State, a: Addr, tries: nat) returns (t: State)
    requires Reachable(cfg, s) && Shaped(cfg, s) && a in cfg.files && 1 <= tries
    requires s.clients[a] == Client(Final(cfg, a), tries, true, Sending)
    ensures Reachable(cfg, t) && Shaped(cfg, t) && t.closed == s.closed && t.clients[a].status.GaveUp?
    decreases cfg.limit - tries
  {
    t := ReachableStep(cfg, s, ClientStep(a, TimedOut));
    if tries <= cfg.limit {
      t := ReachableStep(cfg, t, ClientStep(a, Sent(Copy(cfg, a, Final(cfg, a)).1)));
      t := Retries(cfg, t, a, tries + 1);
    }
  }

  /** So every client can give up although its file was delivered in full. */
  lemma CanGiveUpDelivered(cfg: Config, a: Addr)
    requires cfg.size > 0 && cfg.slots > 0 && a in cfg.files
    ensures exists s :: Reachable(cfg, s) && a in s.clients && s.clients[a].status.GaveUp? && a in s.closed && s.closed[a] != []
  {
    var s := EchoLost(cfg, a);
    s := Retries(cfg, s, a, 1);
  }
}
