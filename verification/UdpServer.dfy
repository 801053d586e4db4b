/** The server of the UDP transfer: a small table from client address to the number of parts accepted. */
module UdpServer {
  import opened UdpParts

  type Addr = nat

  datatype Slot = Slot(free: bool, chunkNo: int, addr: Addr)

  /** The new counters, and what the server did with the datagram. */
  datatype Reply = Reply(counters: map<Addr, int>, delivered: bool, echoed: bool)

  /** The number of parts accepted from an address: 0 when it has no counter. */
  function Accepted(counters: map<Addr, int>, a: Addr): int {
    if a in counters then counters[a] else 0
  }

  /** What one datagram does to a table of at most `capacity` counters. An address without a counter gets one,
      starting at 0, whatever its datagram says; the counter goes away when a part flagged last is accepted. */
  function Receive(counters: map<Addr, int>, capacity: nat, a: Addr, d: Datagram): Reply {
    if a !in counters && |counters| >= capacity then Reply(counters, false, false)
    else
      var n := Accepted(counters, a);
      var seated := counters[a := n];
      if d.chunkNo > n + 1 then Reply(seated, false, false)
      else if d.chunkNo == n + 1 then Reply(if d.last then seated - {a} else seated[a := n + 1], true, true)
      else Reply(seated, false, true)
  }

  /** When an address can be served: it has a counter, or there is room for one. */
  predicate Seated(counters: map<Addr, int>, capacity: nat, a: Addr) {
    a in counters || |counters| < capacity
  }

  /** What the rules of the table come to: of an address that can be served, the next part is delivered, it and all earlier ones
      are echoed, and the counter counts deliveries until the last part; of any other address nothing is. */
  ghost predicate Serves(before: map<Addr, int>, after: map<Addr, int>, capacity: nat, a: Addr, d: Datagram,
                         delivered: bool, echoed: bool)
  {
    var n, seated := Accepted(before, a), Seated(before, capacity, a);
    && (delivered <==> seated && d.chunkNo == n + 1)
    && (echoed <==> seated && d.chunkNo <= n + 1)
    && (delivered && d.last ==> a !in after)
    && (seated && !(delivered && d.last) ==> a in after && after[a] == if delivered then n + 1 else n)
    && (!seated ==> a !in after)
    && forall b :: b != a ==> (b in after <==> b in before) && Accepted(after, b) == Accepted(before, b)
  }

  lemma ReceiveServes(counters: map<Addr, int>, capacity: nat, a: Addr, d: Datagram)
    ensures
      var r := Receive(counters, capacity, a, d);
      Serves(counters, r.counters, capacity, a, d, r.delivered, r.echoed)
  {
    forall b | b != a
      ensures
        var after := Receive(counters, capacity, a, d).counters;
        (b in after <==> b in counters) && Accepted(after, b) == Accepted(counters, b)
    {
      ReceiveIsLocal(counters, capacity, a, d, b);
    }
  }

  /** Datagrams of one address never create, change or remove the counter of another. */
  lemma ReceiveIsLocal(counters: map<Addr, int>, capacity: nat, a: Addr, d: Datagram, b: Addr)
    requires b != a
    ensures
      var after := Receive(counters, capacity, a, d).counters;
      && (b in after <==> b in counters)
      && Accepted(after, b) == Accepted(counters, b)
  {
  }

  /** The server after some datagrams: its counters, and all it delivered and echoed. */
  datatype Session = Session(counters: map<Addr, int>, parts: seq<(Addr, Datagram)>, echoes: seq<(Addr, Datagram)>)

  function Served(s: Session, capacity: nat, inbox: seq<(Addr, Datagram)>): Session {
    if inbox == [] then s
    else
      var before, x := Served(s, capacity, inbox[..|inbox| - 1]), inbox[|inbox| - 1];
      var r := Receive(before.counters, capacity, x.0, x.1);
      Session(r.counters,
              before.parts + if r.delivered then [x] else [],
              before.echoes + if r.echoed then [x] else [])
  }

  lemma ServedOneMore(s: Session, capacity: nat, inbox: seq<(Addr, Datagram)>, i: nat, reply: Reply)
    requires i < |inbox|
    requires reply == Receive(Served(s, capacity, inbox[..i]).counters, capacity, inbox[i].0, inbox[i].1)
    ensures
      var before := Served(s, capacity, inbox[..i]);
      Served(s, capacity, inbox[..i + 1])
      == Session(reply.counters,
                 if reply.delivered then before.parts + [inbox[i]] else before.parts,
                 if reply.echoed then before.echoes + [inbox[i]] else before.echoes)
  {
    assert inbox[..i + 1][..i] == inbox[..i];
  }

  // ----- the table of slots

  /** `home` gives the slot of every address that occupies one; so occupied slots hold distinct addresses. */
  ghost predicate Indexed(con: seq<Slot>, home: map<Addr, nat>) {
    && (forall a :: a in home ==> home[a] < |con| && !con[home[a]].free && con[home[a]].addr == a)
    && (forall i :: 0 <= i < |con| && !con[i].free ==> con[i].addr in home && home[con[i].addr] == i)
  }

  /** The counters a table of slots stands for. */
  ghost function Counters(con: seq<Slot>, home: map<Addr, nat>): map<Addr, int>
    requires Indexed(con, home)
  {
    map a | a in home :: con[home[a]].chunkNo
  }

  /** The table is full exactly when it holds as many counters as it has slots. */
  lemma {:induction false} TableSize(con: seq<Slot>, home: map<Addr, nat>)
    requires Indexed(con, home)
    ensures |home| <= |con|
    ensures |home| == |con| <==> forall i :: 0 <= i < |con| ==> !con[i].free
  {
    if con == [] {
      assert home == map[];
    } else {
      var rest, top := con[..|con| - 1], con[|con| - 1];
      if top.free {
        TableSize(rest, home);
      } else {
        TableSize(rest, home - {top.addr});
        assert home.Keys == (home - {top.addr}).Keys + {top.addr};
      }
    }
  }

  class Server {
    const con: array<Slot>
    ghost var home: map<Addr, nat>

    constructor (slots: nat)
      ensures fresh(con) && con.Length == slots
      ensures Valid() && View() == map[]
    {
      con := new Slot[slots](_ => Slot(true, 0, 0));
      home := map[];
    }

    ghost predicate Valid()
      reads this, con
    {
      Indexed(con[..], home)
    }

    ghost function View(): map<Addr, int>
      reads this, con
      requires Valid()
    {
      Counters(con[..], home)
    }

    /** The slot of an address: the one it has, else the last free one, which it then takes; -1 if there is none. */
    method FindIndex(addr: Addr) returns (pos: int)
      requires Valid()
      modifies this, con
      ensures Valid() && -1 <= pos < con.Length
      ensures pos == -1 <==> addr !in old(View()) && |old(View())| >= con.Length
      ensures pos == -1 ==> View() == old(View())
      ensures pos >= 0 ==>
        && addr in home && home[addr] == pos
        && (addr !in old(View()) ==> old(con[pos].free) && forall j :: pos < j < con.Length ==> !old(con[j].free))
        && View() == old(View())[addr := Accepted(old(View()), addr)]
    {
      TableSize(con[..], home);
      assert |View()| == |home| by { assert View().Keys == home.Keys; }
      var empty := -1;
      pos := -1;
      var i := 0;
      while i < con.Length
        modifies {}
        invariant 0 <= i <= con.Length && pos == -1
        invariant -1 <= empty < i
        invariant empty >= 0 ==> con[empty].free && forall j :: empty < j < i ==> !con[j].free
        invariant empty == -1 ==> forall j :: 0 <= j < i ==> !con[j].free
        invariant forall j :: 0 <= j < i ==> con[j].free || con[j].addr != addr
      {
        if con[i].free {
          empty := i;
        } else if con[i].addr == addr {
          pos := i;
          break;
        }
        i := i + 1;
      }
      if pos == -1 && empty != -1 {
        con[empty] := Slot(false, 0, addr);
        pos := empty;
        home := home[addr := pos];
      }
    }

    /** Counts one more part for the client in slot `i`, and frees the slot after its last part. */
    method Advance(i: nat, last: bool)
      requires Valid() && i < con.Length && !con[i].free
      modifies this, con
      ensures Valid()
      ensures
        var addr := old(con[i].addr);
        && addr in old(View())
        && View() == if last then old(View()) - {addr} else old(View())[addr := old(View())[addr] + 1]
    {
      if last {
        home := home - {con[i].addr};
        con[i] := con[i].(free := true);
      }
      con[i] := con[i].(chunkNo := con[i].chunkNo + 1);
    }

    /** One round of the receive loop. The echo carries the datagram back unchanged. */
    method Accept(addr: Addr, d: Datagram) returns (delivered: bool, echoed: bool)
      requires Valid()
      modifies this, con
      ensures Valid()
      ensures Reply(View(), delivered, echoed) == Receive(old(View()), con.Length, addr, d)
      ensures Serves(old(View()), View(), con.Length, addr, d, delivered, echoed)
    {
      ReceiveServes(View(), con.Length, addr, d);
      delivered, echoed := false, false;
      var i := FindIndex(addr);
      if i >= 0 {
        assert con[i].addr == addr && con[i].chunkNo == View()[addr];
        if d.chunkNo > con[i].chunkNo + 1 {
          return;
        } else if d.chunkNo == con[i].chunkNo + 1 {
          delivered := true;
          Advance(i, d.last);
        }
        echoed := true;
      }
    }

    /** The loop of doServer over the datagrams that arrive: what it delivers and what it echoes, in order. */
    method DoServer(inbox: seq<(Addr, Datagram)>) returns (parts: seq<(Addr, Datagram)>, echoes: seq<(Addr, Datagram)>)
      requires Valid()
      modifies this, con
      ensures Valid()
      ensures Session(View(), parts, echoes) == Served(Session(old(View()), [], []), con.Length, inbox)
    {
      parts, echoes := [], [];
      ghost var start := Session(View(), [], []);
      for i := 0 to |inbox|
        invariant Valid()
        invariant Session(View(), parts, echoes) == Served(start, con.Length, inbox[..i])
      {
        var delivered, echoed := Accept(inbox[i].0, inbox[i].1);
        ServedOneMore(start, con.Length, inbox, i, Reply(View(), delivered, echoed));
        if delivered { parts := parts + [inbox[i]]; }
        if echoed { echoes := echoes + [inbox[i]]; }
      }
      assert inbox[..|inbox|] == inbox;
    }
  }
}
