/** The two halves of the data plane together: what the forwarding table points at, WireGuard carries. */
module Routable {
  import opened Addresses
  import opened Macs
  import opened Peers
  import opened Results
  import Fdb
  import WireGuard

  ghost predicate DistinctKeys(peers: seq<Peer>) {
    forall i, j :: 0 <= i < j < |peers| ==> peers[i].key != peers[j].key
  }

  /** Some peer on the device may send from, and is sent to at, the address alone. */
  ghost predicate Routes(d: WireGuard.Device, ip: Addr) {
    exists k :: k in d.peers && HostPrefix(ip) in d.peers[k].allowed
  }

  /** Every row the reconciler manages leads to a peer WireGuard routes to. */
  ghost predicate AllRoutable(hash: WgKey -> Digest, peers: seq<Peer>, rows: set<Fdb.Row>, d: WireGuard.Device) {
    forall r :: r in rows && r.mac in Fdb.Managed(hash, peers) ==> Routes(d, r.ip)
  }

  /**
  For peers built in switch or hub mode with distinct keys, a successful reconcile of both halves leaves every
  managed row routable, whatever the table and the device held before.
  */
  lemma ManagedRowsRoutable(l: Local, hash: WgKey -> Digest, peers: seq<Peer>, rows: set<Fdb.Row>,
                            d: WireGuard.Device, present: set<WgKey>, cs: seq<WireGuard.PeerConfig>)
    requires l.mode != Router && (forall p :: p in peers ==> Describes(l, p)) && DistinctKeys(peers)
    requires WireGuard.ConfigFor(peers, present, cs)
    ensures AllRoutable(hash, peers, Fdb.Reconciled(rows, hash, peers), WireGuard.ConfigureAll(d, cs))
  {
    var d' := WireGuard.ConfigureAll(d, cs);
    forall r | r in Fdb.Reconciled(rows, hash, peers) && r.mac in Fdb.Managed(hash, peers) ensures Routes(d', r.ip) {
      assert r in Fdb.Desired(hash, peers);
      var p :| p in Fdb.Reachables(peers) && r.ip == p.underlay.value;
      PeerRouted(l, peers, d, present, cs, p);
    }
  }

  lemma PeerRouted(l: Local, peers: seq<Peer>, d: WireGuard.Device, present: set<WgKey>,
                   cs: seq<WireGuard.PeerConfig>, p: Peer)
    requires l.mode != Router && DistinctKeys(peers) && p in peers && Describes(l, p) && p.underlay.Some?
    requires WireGuard.ConfigFor(peers, present, cs)
    ensures Routes(WireGuard.ConfigureAll(d, cs), p.underlay.value)
  {
    var i: nat :| i < |peers| && peers[i] == p;
    WireGuard.AllowedAfter(d, peers, present, cs, i);
    assert HostPrefix(p.underlay.value) in p.allowed;
  }

  /** Peer `i` is the last of its key, so its configuration is the one that stays. */
  ghost predicate LastOfKey(peers: seq<Peer>, i: nat) {
    i < |peers| && forall j :: i < j < |peers| ==> peers[j].key != peers[i].key
  }

  ghost predicate Serves(peers: seq<Peer>, i: nat, underlay: Option<Addr>) {
    LastOfKey(peers, i) && peers[i].underlay == underlay
  }

  /** Every underlay address in use is that of the last peer of some key. */
  ghost predicate Served(peers: seq<Peer>) {
    forall p :: p in Fdb.Reachables(peers) ==> exists i: nat :: Serves(peers, i, p.underlay)
  }

  /** Without distinct keys: on a readable device all managed rows are routable exactly when all are served. */
  lemma RoutableIffServed(l: Local, hash: WgKey -> Digest, peers: seq<Peer>, rows: set<Fdb.Row>,
                          d: WireGuard.Device, cs: seq<WireGuard.PeerConfig>)
    requires l.mode != Router && forall p :: p in peers ==> Describes(l, p)
    requires WireGuard.ConfigFor(peers, d.peers.Keys, cs)
    ensures AllRoutable(hash, peers, Fdb.Reconciled(rows, hash, peers), WireGuard.ConfigureAll(d, cs)) <==>
              Served(peers)
  {
    var d', table := WireGuard.ConfigureAll(d, cs), Fdb.Reconciled(rows, hash, peers);
    if Served(peers) {
      forall r | r in table && r.mac in Fdb.Managed(hash, peers) ensures Routes(d', r.ip) {
        assert r in Fdb.Desired(hash, peers);
        var p :| p in Fdb.Reachables(peers) && r.ip == p.underlay.value;
        var i: nat :| Serves(peers, i, p.underlay);
        WireGuard.AllowedAfter(d, peers, d.peers.Keys, cs, i);
        assert Describes(l, peers[i]);
        assert HostPrefix(r.ip) in peers[i].allowed;
      }
    }
    if AllRoutable(hash, peers, table, d') {
      forall p | p in Fdb.Reachables(peers) ensures exists i: nat :: Serves(peers, i, p.underlay) {
        assert Fdb.Row(BROADCAST, p.underlay.value) in table;
        RoutedIsServed(l, peers, d, cs, p.underlay.value);
      }
    }
  }

  lemma RoutedIsServed(l: Local, peers: seq<Peer>, d: WireGuard.Device, cs: seq<WireGuard.PeerConfig>, ip: Addr)
    requires l.mode != Router && forall p :: p in peers ==> Describes(l, p)
    requires WireGuard.ConfigFor(peers, d.peers.Keys, cs) && Routes(WireGuard.ConfigureAll(d, cs), ip)
    ensures exists i: nat :: Serves(peers, i, Some(ip))
  {
    var d' := WireGuard.ConfigureAll(d, cs);
    var k :| k in d'.peers && HostPrefix(ip) in d'.peers[k].allowed;
    WireGuard.KeysAfter(d, peers, true, cs);
    var p :| p in peers && p.key == k;
    var i := LastIndexOf(peers, k);
    WireGuard.AllowedAfter(d, peers, d.peers.Keys, cs, i);
    assert Describes(l, peers[i]);
    assert Serves(peers, i, Some(ip));
  }

  lemma {:induction false} LastIndexOf(peers: seq<Peer>, k: WgKey) returns (i: nat)
    requires exists p :: p in peers && p.key == k
    ensures LastOfKey(peers, i) && peers[i].key == k
  {
    var n := |peers| - 1;
    if peers[n].key == k {
      i := n;
    } else {
      var p :| p in peers && p.key == k;
      assert p in peers[..n];
      i := LastIndexOf(peers[..n], k);
    }
  }

  /** Two peers with one key and two addresses are not both served. */
  lemma SharedKeyNotServed(p: Peer, q: Peer)
    requires p.key == q.key && p.underlay.Some? && p.underlay != q.underlay
    ensures !Served([p, q])
  {
    assert p in Fdb.Reachables([p, q]);
    forall i: nat ensures !Serves([p, q], i, p.underlay) {
      assert i == 0 ==> [p, q][1].key == [p, q][0].key;
    }
  }
}
