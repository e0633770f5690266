/** Packets on the connections of the control plane, and the transport that writes them. */
module Transports {
  import opened Messages

  /** One envelope written to the connection from one node to a neighbour. */
  datatype Packet = Packet(from: string, to: string, msg: Message)

  /** What one broadcast puts on the wire: a packet for every connected neighbour. */
  function Fanout(from: string, conns: set<string>, msg: Message): set<Packet> {
    set to | to in conns :: Packet(from, to, msg)
  }

  lemma {:induction false} FanoutSize(from: string, conns: set<string>, msg: Message)
    ensures |Fanout(from, conns, msg)| == |conns|
  {
    if conns != {} {
      var c :| c in conns;
      FanoutSize(from, conns - {c}, msg);
      assert Fanout(from, conns, msg) == Fanout(from, conns - {c}, msg) + {Packet(from, c, msg)};
    }
  }

  /** A tracked connection; `outbound` is the address it was dialled at, empty if it was accepted. */
  datatype Conn = Conn(serial: nat, peer: string, outbound: string)

  /** One envelope written to one connection. */
  datatype Sent = Sent(conn: Conn, msg: Message)

  function Writes(conns: set<Conn>, msg: Message): set<Sent> {
    set c | c in conns :: Sent(c, msg)
  }

  function PeersAt(conns: set<Conn>): set<string> {
    set c | c in conns :: c.peer
  }

  /** What is written to the connections are the packets to their peers. */
  lemma WritesArePackets(from: string, conns: set<Conn>, msg: Message)
    ensures (set w | w in Writes(conns, msg) :: Packet(from, w.conn.peer, w.msg)) == Fanout(from, PeersAt(conns), msg)
  {
    forall p | p in Fanout(from, PeersAt(conns), msg)
      ensures p in set w | w in Writes(conns, msg) :: Packet(from, w.conn.peer, w.msg)
    {
      var c :| c in conns && c.peer == p.to;
      assert Sent(c, msg) in Writes(conns, msg);
    }
    forall w | w in Writes(conns, msg) ensures Packet(from, w.conn.peer, w.msg) in Fanout(from, PeersAt(conns), msg) {
      assert w.conn in conns;
    }
  }

  /** No two connections were dialled at the same address. */
  ghost predicate OneEach(conns: set<Conn>) {
    forall c, d :: c in conns && d in conns && c.outbound == d.outbound != "" ==> c == d
  }

  class Server {
    const node: string
    var next: nat
    var conns: set<Conn>
    var closed: set<Conn>
    var wire: multiset<Sent>

    ghost predicate Valid()
      reads this
    {
      && OneEach(conns)
      && (forall c :: c in conns + closed ==> c.serial < next)
      && (forall c, d :: c in conns && d in conns && c.serial == d.serial ==> c == d)
    }

    /** The connections a broadcast gets through to: tracked, not closed, and the write succeeds. */
    function Live(writes: Conn -> bool): set<Conn>
      reads this
    {
      set c | c in conns && c !in closed && writes(c)
    }

    constructor (node: string)
      ensures Valid() && this.node == node && conns == {} && closed == {} && wire == multiset{}
    {
      this.node := node;
      next, conns, closed, wire := 0, {}, {}, multiset{};
    }

    method HasOutbound(addr: string) returns (found: bool)
      ensures found <==> exists c :: c in conns && c.outbound == addr
    {
      found := false;
      var todo := conns;
      while todo != {}
        invariant todo <= conns && forall c :: c in conns - todo ==> c.outbound != addr
        decreases todo
      {
        var c :| c in todo;
        if c.outbound == addr {
          return true;
        }
        todo := todo - {c};
      }
    }

    /**
    Dials an address unless a connection dialled there is tracked; `connects` is what the network answers. However
    often it is called, there is at most one such connection, and exactly one after a success.
    */
    method Dial(addr: string, peer: string, connects: bool) returns (ok: bool)
      requires Valid()
      modifies this
      ensures Valid() && old(conns) <= conns && |conns - old(conns)| <= 1
      ensures wire == old(wire) && closed == old(closed)
      ensures ok <==> connects || exists c :: c in old(conns) && c.outbound == addr
      ensures ok ==> exists c :: c in conns && c.outbound == addr
      ensures forall c, d :: addr != "" && c in conns && d in conns && c.outbound == d.outbound == addr ==> c == d
      ensures !ok || (exists c :: c in old(conns) && c.outbound == addr) ==> conns == old(conns)
      ensures forall c :: c in conns - old(conns) ==> c.peer == peer && c.outbound == addr
    {
      var had := HasOutbound(addr);
      if had {
        assert conns - old(conns) == {};
        return true;
      }
      if !connects {
        assert conns - old(conns) == {};
        return false;
      }
      var c := Conn(next, peer, addr);
      conns, next := conns + {c}, next + 1;
      assert conns - old(conns) == {c};
      return true;
    }

    /** Takes in a connection that asked for gossip. */
    method Accept(peer: string) returns (c: Conn)
      requires Valid()
      modifies this
      ensures Valid() && c !in old(conns) && c.peer == peer && c.outbound == "" && conns == old(conns) + {c}
      ensures wire == old(wire) && closed == old(closed)
    {
      c := Conn(next, peer, "");
      conns, next := conns + {c}, next + 1;
    }

    /** The end of a connection: its address can be dialled again. */
    method Untrack(c: Conn)
      requires Valid()
      modifies this
      ensures Valid() && conns == old(conns) - {c} && wire == old(wire) && closed == old(closed)
      ensures c in old(conns) && c.outbound != "" ==> forall d :: d in conns ==> d.outbound != c.outbound
    {
      conns := conns - {c};
    }

    /**
    Writes the envelope once to every connection tracked when the broadcast starts. A connection that cannot be
    written to is closed, and stays tracked until its reader gives up.
    */
    method Broadcast(msg: Message, writes: Conn -> bool)
      modifies this
      ensures conns == old(conns) && next == old(next)
      ensures wire == old(wire) + multiset(Writes(old(Live(writes)), msg))
      ensures closed == old(closed) + (conns - old(Live(writes)))
      ensures Live(writes) == old(Live(writes))
      ensures forall c, m :: wire[Sent(c, m)] ==
                old(wire)[Sent(c, m)] + if m == msg && c in conns && c !in old(closed) && writes(c) then 1 else 0
    {
      ghost var live := Live(writes);
      var todo := conns;
      while todo != {}
        invariant conns == old(conns) && todo <= conns && next == old(next)
        invariant wire == old(wire) + multiset(Writes(live - todo, msg))
        invariant closed == old(closed) + (conns - live - todo)
        decreases todo
      {
        var c :| c in todo;
        if c !in closed && writes(c) {
          assert Writes(live - (todo - {c}), msg) == Writes(live - todo, msg) + {Sent(c, msg)};
          wire := wire + multiset{Sent(c, msg)};
        } else {
          assert live - (todo - {c}) == live - todo;
          closed := closed + {c};
        }
        todo := todo - {c};
      }
      assert live - todo == live;
    }
  }
}
