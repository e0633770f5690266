/** The desired data-plane state: which peers a node wants, and with which addresses. */
module Peers {
  import opened Addresses
  import opened Macs
  import opened Planes
  import opened Results
  import opened Topologies

  datatype Mode = Switch | Hub | Router

  datatype Peer = Peer(
    name: string,
    key: WgKey,
    endpoint: Option<AddrPort>,
    inner: Option<Addr>,
    underlay: Option<Addr>,
    allowed: seq<Prefix>)

  /** A host file: each entry that is present and parses. */
  datatype Host = Host(key: Option<WgKey>, address: Option<Addr>, port: Option<int>, inner: Option<Addr>,
                       underlay: Option<Addr>)

  /** What a node knows when it builds the state; hosts without a readable file are absent. */
  datatype Local = Local(
    self: string,
    mode: Mode,
    listenPort: int,
    hosts: map<string, Host>,
    plane: PlaneView,
    parseEndpoint: string -> Option<AddrPort>,
    parseSubnet: string -> Option<Prefix>)

  /** Conversion of an int to a 16-bit port number. */
  function Uint16(x: int): nat {
    x % 0x1_0000
  }

  predicate Eligible(l: Local, name: string) {
    name != l.self && name in l.hosts && l.hosts[name].key.Some?
  }

  /** The endpoint learned from gossip if it parses, else the address and port of the host file. */
  function EndpointFor(l: Local, name: string): Option<AddrPort>
    requires name in l.hosts
  {
    var h := l.hosts[name];
    var learned := if name in l.plane.endpoints then l.parseEndpoint(l.plane.endpoints[name]) else None;
    if learned.Some? then learned
    else if h.address.Some? then
      Some(AddrPort(h.address.value, Uint16(if h.port.Some? then h.port.value else l.listenPort)))
    else None
  }

  function SubnetsOf(t: Topology, name: string): set<string> {
    if name in t.nodes then t.nodes[name] else {}
  }

  function Readable(l: Local, subnets: set<string>): set<string> {
    set s | s in subnets && l.parseSubnet(s).Some?
  }

  /** In switch and hub mode a peer may send from its underlay address alone, in router mode from all its subnets. */
  ghost predicate AllowedFor(l: Local, name: string, underlay: Option<Addr>, allowed: seq<Prefix>) {
    if l.mode != Router then allowed == if underlay.Some? then [HostPrefix(underlay.value)] else []
    else
      && (forall q :: q in allowed <==> exists s :: HoldsSubnet(l.plane.topo, name, s) && l.parseSubnet(s) == Some(q))
      && |allowed| == |Readable(l, SubnetsOf(l.plane.topo, name))|
  }

  ghost predicate Describes(l: Local, p: Peer) {
    && Eligible(l, p.name)
    && p.key == l.hosts[p.name].key.value
    && p.endpoint == EndpointFor(l, p.name)
    && p.inner == OrElse(Lookup(l.plane.inners, p.name), l.hosts[p.name].inner)
    && p.underlay == OrElse(Lookup(l.plane.underlays, p.name), l.hosts[p.name].underlay)
    && AllowedFor(l, p.name, p.underlay, p.allowed)
  }

  /** The prefixes are those of the subnets that parse, one for each. */
  ghost predicate Collected(l: Local, subnets: set<string>, out: seq<Prefix>) {
    (forall q :: q in out <==> Given(l, subnets, q)) && |out| == |Readable(l, subnets)|
  }

  ghost predicate Given(l: Local, subnets: set<string>, q: Prefix) {
    exists s :: s in subnets && l.parseSubnet(s) == Some(q)
  }

  lemma OneMoreSubnet(l: Local, subnets: set<string>, out: seq<Prefix>, s: string)
    requires Collected(l, subnets, out) && s !in subnets
    ensures var sub := l.parseSubnet(s);
            Collected(l, subnets + {s}, if sub.Some? then out + [sub.value] else out)
  {
    var sub := l.parseSubnet(s);
    assert Readable(l, subnets + {s}) == Readable(l, subnets) + if sub.Some? then {s} else {};
    forall q ensures Given(l, subnets + {s}, q) <==> Given(l, subnets, q) || sub == Some(q) {
      OneMoreGiven(l, subnets, s, q);
    }
  }

  lemma OneMoreGiven(l: Local, subnets: set<string>, s: string, q: Prefix)
    ensures Given(l, subnets + {s}, q) <==> Given(l, subnets, q) || l.parseSubnet(s) == Some(q)
  {
    assert forall t :: t in subnets + {s} <==> t in subnets || t == s;
    assert s in subnets + {s};
  }

  method AllowedIpsFor(l: Local, name: string, underlay: Option<Addr>) returns (out: seq<Prefix>)
    ensures AllowedFor(l, name, underlay, out)
  {
    out := [];
    if l.mode != Router {
      if underlay.Some? {
        out := [HostPrefix(underlay.value)];
      }
      return;
    }
    var subnets := SubnetsOf(l.plane.topo, name);
    var todo := subnets;
    while todo != {}
      invariant todo <= subnets
      invariant Collected(l, subnets - todo, out)
      decreases todo
    {
      var s :| s in todo;
      var sub := l.parseSubnet(s);
      assert subnets - (todo - {s}) == subnets - todo + {s};
      OneMoreSubnet(l, subnets - todo, out, s);
      if sub.Some? {
        out := out + [sub.value];
      }
      todo := todo - {s};
    }
    assert subnets - todo == subnets;
  }

  /** The eligible names among the nodes, in order. */
  function EligibleNames(l: Local, nodes: seq<string>): seq<string> {
    if nodes == [] then [] else
      var rest := EligibleNames(l, nodes[..|nodes| - 1]);
      var n := nodes[|nodes| - 1];
      if Eligible(l, n) then rest + [n] else rest
  }

  function Names(peers: seq<Peer>): seq<string> {
    seq(|peers|, i requires 0 <= i < |peers| => peers[i].name)
  }

  /** The 16-bit port number that is congruent to the configured one, and equal to it where that is a port. */
  predicate IsPort(port: nat, configured: int) {
    && port < 0x1_0000 && (configured - port) % 0x1_0000 == 0
    && (0 <= configured < 0x1_0000 ==> port == configured)
  }

  /** What gossip has brought wins wherever it is there and parses; the host file gives the rest. */
  ghost predicate GossipFirst(l: Local, p: Peer)
    requires p.name in l.hosts
  {
    var h, v := l.hosts[p.name], l.plane;
    && (forall ep :: p.name in v.endpoints && l.parseEndpoint(v.endpoints[p.name]) == Some(ep) ==>
          p.endpoint == Some(ep))
    && (p.name !in v.endpoints || l.parseEndpoint(v.endpoints[p.name]).None? ==>
          && (h.address.None? ==> p.endpoint.None?)
          && (h.address.Some? ==> p.endpoint.Some? && p.endpoint.value.addr == h.address.value)
          && (h.address.Some? && h.port.Some? ==> IsPort(p.endpoint.value.port, h.port.value))
          && (h.address.Some? && h.port.None? ==> IsPort(p.endpoint.value.port, l.listenPort)))
    && (if p.name in v.inners then p.inner == Some(v.inners[p.name]) else p.inner == h.inner)
    && (if p.name in v.underlays then p.underlay == Some(v.underlays[p.name]) else p.underlay == h.underlay)
  }

  /** One peer for every graph node with a readable WireGuard key, this node excepted. */
  method BuildPeers(l: Local, nodes: seq<string>) returns (peers: seq<Peer>)
    ensures Names(peers) == EligibleNames(l, nodes)
    ensures forall p :: p in peers ==> Describes(l, p)
    ensures forall p :: p in peers ==> p.name != l.self && p.name in l.hosts && GossipFirst(l, p)
  {
    peers := [];
    for i := 0 to |nodes|
      invariant Names(peers) == EligibleNames(l, nodes[..i])
      invariant forall p :: p in peers ==> Describes(l, p)
    {
      var n := nodes[i];
      assert nodes[..i + 1][..i] == nodes[..i];
      if Eligible(l, n) {
        var h := l.hosts[n];
        var underlay := OrElse(Lookup(l.plane.underlays, n), h.underlay);
        var allowed := AllowedIpsFor(l, n, underlay);
        var p := Peer(n, h.key.value, EndpointFor(l, n), OrElse(Lookup(l.plane.inners, n), h.inner), underlay, allowed);
        assert Names(peers + [p]) == Names(peers) + [n];
        peers := peers + [p];
      }
    }
    assert nodes[..|nodes|] == nodes;
  }

  /** Distinct nodes give distinct eligible names: exactly the nodes that are eligible, each once. */
  lemma {:induction false} EligibleNamesLaw(l: Local, nodes: seq<string>)
    requires forall i, j :: 0 <= i < j < |nodes| ==> nodes[i] != nodes[j]
    ensures forall n :: n in EligibleNames(l, nodes) <==>
              n in nodes && n != l.self && n in l.hosts && l.hosts[n].key.Some?
    ensures forall i, j :: 0 <= i < j < |EligibleNames(l, nodes)| ==>
              EligibleNames(l, nodes)[i] != EligibleNames(l, nodes)[j]
  {
    if nodes != [] {
      var k := |nodes| - 1;
      EligibleNamesLaw(l, nodes[..k]);
      assert nodes[k] !in nodes[..k];
      assert nodes == nodes[..k] + [nodes[k]];
    }
  }
}
