/** The gossip control plane of one node: its state as a value, and the object that keeps it. */
module Planes {
  import opened Addresses
  import opened Claims
  import opened Graphs
  import opened Messages
  import opened Results
  import opened Topologies
  import opened Transports

  /** The host-file key lookup, if one is installed, and the signature check of the library. */
  datatype Auth = Auth(lookup: Option<string -> Option<EdKey>>, check: (EdKey, Message) -> bool)

  datatype PlaneView = PlaneView(
    name: string,
    seen: map<string, int>,
    outbox: map<string, Message>,
    topo: Topology,
    pubKeys: map<string, EdKey>,
    endpoints: map<string, string>,
    inners: map<string, Addr>,
    underlays: map<string, Addr>)

  function NewPlane(name: string): PlaneView {
    PlaneView(name, map[], map[], EMPTY, map[], map[], map[], map[])
  }

  /** A host-file key wins over a key learned from a hello; an empty key is no key. */
  function KeyFor(auth: Auth, v: PlaneView, origin: string): EdKey {
    var pinned := if auth.lookup.None? then None else auth.lookup.value(origin);
    if pinned.Some? && pinned.value != "" then pinned.value
    else if origin in v.pubKeys then v.pubKeys[origin]
    else ""
  }

  /** A host file gives the origin this key. */
  ghost predicate Pinned(auth: Auth, origin: string, k: EdKey) {
    k != "" && auth.lookup.Some? && auth.lookup.value(origin) == Some(k)
  }

  ghost predicate Unpinned(auth: Auth, origin: string) {
    forall k :: !Pinned(auth, origin, k)
  }

  predicate Verifies(auth: Auth, v: PlaneView, m: Message) {
    if auth.lookup.None? && m.origin !in v.pubKeys then true
    else KeyFor(auth, v, m.origin) != "" && auth.check(KeyFor(auth, v, m.origin), m)
  }

  lemma PinnedOrNot(auth: Auth, origin: string)
    ensures Unpinned(auth, origin) <==>
              auth.lookup.None? || auth.lookup.value(origin).None? || auth.lookup.value(origin).value == ""
  {
    if auth.lookup.Some? && auth.lookup.value(origin).Some? && auth.lookup.value(origin).value != "" {
      assert Pinned(auth, origin, auth.lookup.value(origin).value);
    }
  }

  function StampOf(m: Message): Stamp {
    Stamp(m.id, m.ts)
  }

  function WithHello(v: PlaneView, h: Hello): PlaneView {
    v.(topo := WithNode(v.topo, h.name),
       pubKeys := if h.edKey.Some? then v.pubKeys[h.name := h.edKey.value] else v.pubKeys,
       endpoints := if h.endpoint != "" then v.endpoints[h.name := h.endpoint] else v.endpoints,
       inners := if h.inner.Some? then v.inners[h.name := h.inner.value] else v.inners,
       underlays := if h.underlay.Some? then v.underlays[h.name := h.underlay.value] else v.underlays)
  }

  function WithoutHello(v: PlaneView, name: string): PlaneView {
    v.(topo := Isolated(v.topo, {name}), pubKeys := v.pubKeys - {name}, endpoints := v.endpoints - {name},
       inners := v.inners - {name}, underlays := v.underlays - {name})
  }

  function Applied(v: PlaneView, b: Body): PlaneView {
    match b
    case AddNode(h) => WithHello(v, h)
    case DelNode(h) => if h.name == "" then v else WithoutHello(v, h.name)
    case AddEdge(from, to, w) => v.(topo := WithEdge(v.topo, Edge(from, to, w)))
    case DelEdge(from, to) => v.(topo := WithoutEdge(v.topo, from, to))
    case AddSubnet(o, s) => v.(topo := WithSubnet(v.topo, o, s))
    case DelSubnet(o, s) => v.(topo := WithoutSubnet(v.topo, o, s))
    case Undecodable => v
    case Unhandled => v
  }

  predicate Accepts(auth: Auth, v: PlaneView, m: Message) {
    Verifies(auth, v, m) && Newer(v.seen, StampOf(m))
  }

  function Received(auth: Auth, v: PlaneView, m: Message): PlaneView {
    if Accepts(auth, v, m) then Applied(v.(seen := Claimed(v.seen, StampOf(m))), m.body) else v
  }

  function Originated(v: PlaneView, m: Message): PlaneView {
    Applied(v.(seen := v.seen[m.id := m.ts], outbox := v.outbox[m.id := m]), m.body)
  }

  lemma AppliedKeepsTables(v: PlaneView, b: Body)
    ensures Applied(v, b).name == v.name
    ensures Applied(v, b).seen == v.seen && Applied(v, b).outbox == v.outbox
  {}

  /** Only the two subnet bodies change who holds a subnet, and each only for its own owner and subnet. */
  lemma AppliedSubnets(v: PlaneView, b: Body, owner: string, subnet: string)
    ensures HoldsSubnet(Applied(v, b).topo, owner, subnet) <==>
              b == AddSubnet(owner, subnet) || (HoldsSubnet(v.topo, owner, subnet) && b != DelSubnet(owner, subnet))
  {}

  /** The node knows what it has announced. */
  ghost predicate Shown(v: PlaneView, a: Announcement) {
    match a
    case SayHello(h) =>
      && h.name in v.topo.nodes && (h.edKey.Some? ==> Lookup(v.pubKeys, h.name) == h.edKey)
      && (h.endpoint != "" ==> Lookup(v.endpoints, h.name) == Some(h.endpoint))
      && (h.inner.Some? ==> Lookup(v.inners, h.name) == h.inner)
      && (h.underlay.Some? ==> Lookup(v.underlays, h.name) == h.underlay)
    case SayAddEdge(to, w) =>
      HasEdge(v.topo, v.name, to) && HasEdge(v.topo, to, v.name) && v.topo.adj[v.name][to].weight == w
    case SayDelEdge(to) => !HasEdge(v.topo, v.name, to) && !HasEdge(v.topo, to, v.name)
    case SayAddSubnet(s) => HoldsSubnet(v.topo, v.name, s)
    case SayDelSubnet(s) => !HoldsSubnet(v.topo, v.name, s)
  }

  lemma AppliedShows(v: PlaneView, a: Announcement)
    ensures Shown(Applied(v, BodyOf(v.name, a)), a)
  {}

  // The object

  class Plane {
    const name: string
    const auth: Auth
    const sign: Message -> string
    const g: Graph
    const transport: Server
    var seen: map<string, int>
    var outbox: map<string, Message>
    var pubKeys: map<string, EdKey>
    var endpoints: map<string, string>
    var inners: map<string, Addr>
    var underlays: map<string, Addr>

    function View(): PlaneView
      reads this, g
    {
      PlaneView(name, seen, outbox, g.View(), pubKeys, endpoints, inners, underlays)
    }

    ghost predicate Valid()
      reads this, g, transport
    {
      && g.Valid() && transport.node == name
      && outbox.Keys <= seen.Keys
      && forall id :: id in outbox ==> outbox[id].id == id
    }

    constructor (name: string, auth: Auth, sign: Message -> string, g: Graph, transport: Server)
      requires g.Valid() && g.View() == EMPTY && transport.node == name
      ensures Valid() && View() == NewPlane(name)
      ensures this.auth == auth && this.sign == sign && this.g == g && this.transport == transport
    {
      this.name, this.auth, this.sign, this.g, this.transport := name, auth, sign, g, transport;
      seen, outbox, pubKeys, endpoints, inners, underlays := map[], map[], map[], map[], map[], map[];
    }

    /** Compare-and-swap on the table of newest time stamps. */
    method Claim(id: string, ts: int) returns (won: bool)
      requires Valid()
      modifies this
      ensures Valid() && won == old(Newer(seen, Stamp(id, ts)))
      ensures View() == old(View()).(seen := Claimed(old(seen), Stamp(id, ts)))
    {
      if id in seen && ts <= seen[id] {
        return false;
      }
      seen := seen[id := ts];
      return true;
    }

    /** Applies a decoded body; the listener is told unless the payload is rejected. */
    method Apply(b: Body) returns (notified: bool)
      requires Valid()
      modifies this, g
      ensures Valid() && View() == Applied(old(View()), b)
      ensures !notified <==> b.Undecodable? || (b.DelNode? && b.hello.name == "")
    {
      notified := true;
      match b
      case AddNode(h) =>
        g.AddNode(h.name);
        if h.edKey.Some? { pubKeys := pubKeys[h.name := h.edKey.value]; }
        if h.endpoint != "" { endpoints := endpoints[h.name := h.endpoint]; }
        if h.inner.Some? { inners := inners[h.name := h.inner.value]; }
        if h.underlay.Some? { underlays := underlays[h.name := h.underlay.value]; }
      case DelNode(h) =>
        if h.name == "" { return false; }
        g.ClearEdgesOf(h.name);
        endpoints, inners := endpoints - {h.name}, inners - {h.name};
        underlays, pubKeys := underlays - {h.name}, pubKeys - {h.name};
      case AddEdge(from, to, w) => g.AddEdge(Edge(from, to, w));
      case DelEdge(from, to) => g.DelEdge(from, to);
      case AddSubnet(o, s) => g.AddSubnet(o, s);
      case DelSubnet(o, s) => g.DelSubnet(o, s);
      case Undecodable => return false;
      case Unhandled =>
    }

    /**
    Verify, claim, apply, and forward what was new to every connection that takes it. A pinned key alone decides where
    there is one; else a learned key; without any key everything is turned away, except that a node without a lookup
    takes it. What is turned away leaves no trace.
    */
    method Receive(m: Message, writes: Conn -> bool) returns (ok: bool)
      requires Valid()
      modifies this, g, transport
      ensures Valid() && ok == old(Verifies(auth, View(), m))
      ensures forall k :: Pinned(auth, m.origin, k) ==> (ok <==> auth.check(k, m))
      ensures Unpinned(auth, m.origin) && m.origin in old(pubKeys) ==>
                (ok <==> old(pubKeys)[m.origin] != "" && auth.check(old(pubKeys)[m.origin], m))
      ensures Unpinned(auth, m.origin) && m.origin !in old(pubKeys) ==> (ok <==> auth.lookup.None?)
      ensures !ok ==> View() == old(View()) && transport.wire == old(transport.wire)
      ensures View() == Received(auth, old(View()), m)
      ensures transport.conns == old(transport.conns)
      ensures transport.wire == old(transport.wire) +
                multiset(if old(Accepts(auth, View(), m)) then Writes(old(transport.Live(writes)), m) else {})
    {
      PinnedOrNot(auth, m.origin);
      if !Verifies(auth, View(), m) {
        return false;
      }
      ok := true;
      var won := Claim(m.id, m.ts);
      if won {
        AppliedKeepsTables(View(), m.body);
        var _ := Apply(m.body);
        transport.Broadcast(m, writes);
      }
    }

    /** Mints, signs, records, applies and broadcasts one announcement; nothing if the payload does not encode. */
    method Announce(a: Announcement, ts: int, encodes: bool, writes: Conn -> bool) returns (r: Result<Message>)
      requires Valid()
      modifies this, g, transport
      ensures Valid() && transport.conns == old(transport.conns)
      ensures !encodes ==> r.Err? && View() == old(View()) && transport.wire == old(transport.wire)
      ensures encodes ==>
                && r == Ok(Mint(name, a, ts, sign(Mint(name, a, ts, "")))) && View() == Originated(old(View()), r.value)
                && transport.wire == old(transport.wire) + multiset(Writes(old(transport.Live(writes)), r.value))
      ensures encodes ==> Shown(View(), a) && r.value.origin == name && r.value.ts == ts && Stable(name, a, r.value.id)
      ensures encodes ==> r.value.signature == sign(r.value.(signature := ""))
    {
      if !encodes {
        return Err("payload does not encode");
      }
      var m := Mint(name, a, ts, "");
      m := m.(signature := sign(m));
      outbox := outbox[m.id := m];
      seen := seen[m.id := m.ts];
      AppliedKeepsTables(View(), m.body);
      AppliedShows(View(), a);
      var _ := Apply(m.body);
      transport.Broadcast(m, writes);
      return Ok(m);
    }

    /** Broadcasts every envelope of the outbox once. */
    method ResendOutbox(writes: Conn -> bool)
      requires Valid()
      modifies transport
      ensures transport.conns == old(transport.conns)
      ensures transport.wire == old(transport.wire) + Resent(View(), old(transport.Live(writes)), outbox.Keys)
    {
      ghost var live := transport.Live(writes);
      var todo := outbox.Keys;
      while todo != {}
        invariant transport.conns == old(transport.conns) && transport.Live(writes) == live && todo <= outbox.Keys
        invariant transport.wire == old(transport.wire) + Resent(View(), live, outbox.Keys - todo)
        decreases todo
      {
        var id :| id in todo;
        ResentOneMore(View(), live, outbox.Keys - todo, id);
        assert outbox.Keys - (todo - {id}) == outbox.Keys - todo + {id};
        todo := todo - {id};
        transport.Broadcast(outbox[id], writes);
      }
      assert outbox.Keys - todo == outbox.Keys;
    }
  }

  /** What a resend of the outbox entries `ids` writes. */
  ghost function Resent(v: PlaneView, conns: set<Conn>, ids: set<string>): multiset<Sent>
    requires ids <= v.outbox.Keys
  {
    multiset(set id, c | id in ids && c in conns :: Sent(c, v.outbox[id]))
  }

  lemma ResentOneMore(v: PlaneView, conns: set<Conn>, ids: set<string>, id: string)
    requires ids <= v.outbox.Keys && id in v.outbox.Keys - ids
    requires forall id :: id in v.outbox ==> v.outbox[id].id == id
    ensures Resent(v, conns, ids + {id}) == Resent(v, conns, ids) + multiset(Writes(conns, v.outbox[id]))
  {
    var all := set i, c | i in ids + {id} && c in conns :: Sent(c, v.outbox[i]);
    var some := set i, c | i in ids && c in conns :: Sent(c, v.outbox[i]);
    assert all == some + Writes(conns, v.outbox[id]);
    assert some !! Writes(conns, v.outbox[id]);
  }
}
