/** Configuring the peers of the WireGuard device without disturbing the sessions that stay. */
module WireGuard {
  import opened Addresses
  import opened Macs
  import opened Peers
  import opened Results

  /** A peer on the device; the session number changes only when the peer is created anew. */
  datatype DevicePeer = DevicePeer(allowed: seq<Prefix>, endpoint: Option<AddrPort>, session: nat)

  datatype Device = Device(peers: map<WgKey, DevicePeer>, sessions: nat)

  datatype PeerConfig = Update(key: WgKey, allowed: seq<Prefix>, endpoint: Option<AddrPort>) | Remove(key: WgKey)

  /** One entry of a device configuration: an update keeps an existing session, an absent endpoint the old one. */
  function Configure(d: Device, c: PeerConfig): Device {
    match c
    case Remove(k) => d.(peers := d.peers - {k})
    case Update(k, allowed, endpoint) =>
      if k in d.peers
      then d.(peers := d.peers[k := DevicePeer(allowed, OrElse(endpoint, d.peers[k].endpoint), d.peers[k].session)])
      else Device(d.peers[k := DevicePeer(allowed, endpoint, d.sessions)], d.sessions + 1)
  }

  function ConfigureAll(d: Device, cs: seq<PeerConfig>): Device {
    if cs == [] then d else Configure(ConfigureAll(d, cs[..|cs| - 1]), cs[|cs| - 1])
  }

  function UpdateOf(p: Peer): PeerConfig {
    Update(p.key, p.allowed, p.endpoint)
  }

  function Updates(peers: seq<Peer>): seq<PeerConfig> {
    seq(|peers|, i requires 0 <= i < |peers| => UpdateOf(peers[i]))
  }

  function KeysOf(peers: seq<Peer>): set<WgKey> {
    set p | p in peers :: p.key
  }

  /** The configuration for the peers: an update for each in order, then removals of exactly the unwanted keys. */
  ghost predicate ConfigFor(peers: seq<Peer>, present: set<WgKey>, cs: seq<PeerConfig>) {
    && |peers| <= |cs| && cs[..|peers|] == Updates(peers)
    && (forall i :: |peers| <= i < |cs| ==> cs[i].Remove?)
    && (forall k :: Remove(k) in cs <==> k in present && k !in KeysOf(peers))
  }

  /** Builds the configuration; an unreadable device shows no peers, so nothing is removed. */
  method BuildConfig(peers: seq<Peer>, device: Device, readable: bool) returns (cs: seq<PeerConfig>)
    ensures ConfigFor(peers, if readable then device.peers.Keys else {}, cs)
  {
    var desired: set<WgKey> := {};
    cs := [];
    for i := 0 to |peers|
      invariant desired == KeysOf(peers[..i]) && cs == Updates(peers[..i])
    {
      assert peers[..i + 1] == peers[..i] + [peers[i]];
      assert Updates(peers[..i + 1]) == Updates(peers[..i]) + [UpdateOf(peers[i])];
      desired := desired + {peers[i].key};
      cs := cs + [UpdateOf(peers[i])];
    }
    assert peers[..|peers|] == peers;
    if readable {
      var todo := device.peers.Keys;
      while todo != {}
        invariant todo <= device.peers.Keys
        invariant |peers| <= |cs| && cs[..|peers|] == Updates(peers)
        invariant forall i :: |peers| <= i < |cs| ==> cs[i].Remove?
        invariant forall k :: Remove(k) in cs <==> k in device.peers.Keys - todo && k !in desired
        decreases todo
      {
        var k :| k in todo;
        todo := todo - {k};
        if k !in desired {
          cs := cs + [Remove(k)];
        }
      }
    }
  }

  class Link {
    var device: Device

    /** One reconcile of the peers; `readable` and `accepted` are what the system calls answer. */
    method ConfigurePeers(peers: seq<Peer>, readable: bool, accepted: bool) returns (cs: seq<PeerConfig>)
      modifies this
      ensures ConfigFor(peers, if readable then old(device).peers.Keys else {}, cs)
      ensures device == if accepted then ConfigureAll(old(device), cs) else old(device)
    {
      cs := BuildConfig(peers, device, readable);
      if accepted {
        device := ConfigureAll(device, cs);
      }
    }
  }

  // What a configuration does

  lemma {:induction false} SessionKept(d: Device, cs: seq<PeerConfig>, k: WgKey)
    requires k in d.peers && Remove(k) !in cs
    ensures k in ConfigureAll(d, cs).peers && ConfigureAll(d, cs).peers[k].session == d.peers[k].session
  {
    if cs != [] {
      var n := |cs| - 1;
      assert forall c :: c in cs[..n] ==> c in cs;
      SessionKept(d, cs[..n], k);
      assert cs[n] in cs;
    }
  }

  lemma {:induction false} UpdatesAddKeys(d: Device, peers: seq<Peer>)
    ensures ConfigureAll(d, Updates(peers)).peers.Keys == d.peers.Keys + KeysOf(peers)
  {
    if peers != [] {
      var n := |peers| - 1;
      UpdatesAddKeys(d, peers[..n]);
      assert Updates(peers)[..n] == Updates(peers[..n]);
      assert peers == peers[..n] + [peers[n]];
      assert KeysOf(peers) == KeysOf(peers[..n]) + {peers[n].key};
    }
  }

  lemma {:induction false} LastUpdateStays(d: Device, peers: seq<Peer>, i: nat)
    requires i < |peers| && forall j :: i < j < |peers| ==> peers[j].key != peers[i].key
    ensures var peers' := ConfigureAll(d, Updates(peers)).peers;
            peers[i].key in peers' && peers'[peers[i].key].allowed == peers[i].allowed
    decreases |peers|
  {
    var n := |peers| - 1;
    assert Updates(peers)[..n] == Updates(peers[..n]) && Updates(peers)[n] == UpdateOf(peers[n]);
    if i < n {
      assert forall j :: 0 <= j < n ==> peers[..n][j] == peers[j];
      LastUpdateStays(d, peers[..n], i);
    }
  }

  lemma {:induction false} RemovalsOnly(d: Device, cs: seq<PeerConfig>, from: nat)
    requires from <= |cs| && forall i :: from <= i < |cs| ==> cs[i].Remove?
    ensures var mid, end := ConfigureAll(d, cs[..from]), ConfigureAll(d, cs);
            && end.peers.Keys == mid.peers.Keys - (set i | from <= i < |cs| :: cs[i].key)
            && (forall k :: k in end.peers ==> end.peers[k] == mid.peers[k])
    decreases |cs|
  {
    if from < |cs| {
      var n := |cs| - 1;
      RemovalsOnly(d, cs[..n], from);
      assert cs[..n][..from] == cs[..from];
      assert (set i | from <= i < |cs| :: cs[i].key) == (set i | from <= i < n :: cs[..n][i].key) + {cs[n].key};
    } else {
      assert cs[..from] == cs;
    }
  }

  /** After one reconcile the device has the desired keys, and besides them only what could not be read. */
  lemma KeysAfter(d: Device, peers: seq<Peer>, readable: bool, cs: seq<PeerConfig>)
    requires ConfigFor(peers, if readable then d.peers.Keys else {}, cs)
    ensures ConfigureAll(d, cs).peers.Keys == KeysOf(peers) + if readable then {} else d.peers.Keys
  {
    UpdatesAddKeys(d, peers);
    RemovalsOnly(d, cs, |peers|);
    assert forall i :: 0 <= i < |peers| ==> cs[i] == cs[..|peers|][i] && cs[i].Update?;
    var removed := set i | |peers| <= i < |cs| :: cs[i].key;
    forall k ensures k in removed <==> Remove(k) in cs {
      if Remove(k) in cs {
        var i :| 0 <= i < |cs| && cs[i] == Remove(k);
        assert |peers| <= i;
      }
    }
  }

  /** The last peer with a key decides what that key may send. */
  lemma AllowedAfter(d: Device, peers: seq<Peer>, present: set<WgKey>, cs: seq<PeerConfig>, i: nat)
    requires ConfigFor(peers, present, cs) && i < |peers|
    requires forall j :: i < j < |peers| ==> peers[j].key != peers[i].key
    ensures peers[i].key in ConfigureAll(d, cs).peers
    ensures ConfigureAll(d, cs).peers[peers[i].key].allowed == peers[i].allowed
  {
    LastUpdateStays(d, peers, i);
    RemovalsOnly(d, cs, |peers|);
    assert peers[i] in peers && Remove(peers[i].key) !in cs;
  }

  // Endpoints

  function EndpointOf(d: Device, k: WgKey): Option<AddrPort> {
    if k in d.peers then d.peers[k].endpoint else None
  }

  /** Peer `j` is the last with the key that has an endpoint. */
  ghost predicate LastEndpoint(peers: seq<Peer>, k: WgKey, j: nat) {
    && j < |peers| && peers[j].key == k && peers[j].endpoint.Some?
    && forall i :: j < i < |peers| && peers[i].key == k ==> peers[i].endpoint.None?
  }

  /** The last endpoint wanted for the key is set; the old one stays where none is wanted. */
  ghost predicate EndpointDecided(before: Option<AddrPort>, peers: seq<Peer>, k: WgKey, after: Option<AddrPort>) {
    && (forall j: nat :: LastEndpoint(peers, k, j) ==> after == peers[j].endpoint)
    && ((forall i :: 0 <= i < |peers| && peers[i].key == k ==> peers[i].endpoint.None?) ==> after == before)
  }

  lemma OneMoreEndpoint(before: Option<AddrPort>, peers: seq<Peer>, k: WgKey, mid: Option<AddrPort>, p: Peer)
    requires EndpointDecided(before, peers, k, mid)
    ensures EndpointDecided(before, peers + [p], k, if p.key == k then OrElse(p.endpoint, mid) else mid)
  {
    var all := peers + [p];
    assert all[|peers|] == p && forall i :: 0 <= i < |peers| ==> all[i] == peers[i];
    forall j: nat | LastEndpoint(all, k, j)
      ensures (if p.key == k then OrElse(p.endpoint, mid) else mid) == all[j].endpoint
    {
      if j < |peers| { assert LastEndpoint(peers, k, j) && all[|peers|] == p; }
    }
  }

  /** The endpoint of the key after an update for each of the peers. */
  function EndpointUpdated(d: Device, peers: seq<Peer>, k: WgKey): Option<AddrPort> {
    EndpointOf(ConfigureAll(d, Updates(peers)), k)
  }

  lemma UpdatedOnce(d: Device, peers: seq<Peer>, p: Peer, k: WgKey)
    ensures var mid := EndpointUpdated(d, peers, k);
            EndpointUpdated(d, peers + [p], k) == if p.key == k then OrElse(p.endpoint, mid) else mid
  {
    assert Updates(peers + [p])[..|peers|] == Updates(peers);
  }

  lemma {:induction false} UpdatesSetEndpoints(d: Device, peers: seq<Peer>, k: WgKey)
    ensures EndpointDecided(EndpointOf(d, k), peers, k, EndpointUpdated(d, peers, k))
  {
    if peers == [] {
      assert EndpointUpdated(d, peers, k) == EndpointOf(d, k);
    } else {
      var before, p := peers[..|peers| - 1], peers[|peers| - 1];
      assert peers == before + [p];
      UpdatesSetEndpoints(d, before, k);
      UpdatedOnce(d, before, p, k);
      OneMoreEndpoint(EndpointOf(d, k), before, k, EndpointUpdated(d, before, k), p);
    }
  }

  /**
  After one accepted call a key that is not removed has the last endpoint wanted for it; where none is wanted, it has
  the one it had before.
  */
  lemma EndpointAfter(d: Device, peers: seq<Peer>, present: set<WgKey>, cs: seq<PeerConfig>, k: WgKey)
    requires ConfigFor(peers, present, cs) && Remove(k) !in cs
    ensures EndpointDecided(EndpointOf(d, k), peers, k, EndpointOf(ConfigureAll(d, cs), k))
    ensures k in ConfigureAll(d, cs).peers <==> k in d.peers || k in KeysOf(peers)
  {
    UpdatesSetEndpoints(d, peers, k);
    UpdatesAddKeys(d, peers);
    RemovalsOnly(d, cs, |peers|);
    assert k !in set i | |peers| <= i < |cs| :: cs[i].key by {
      assert forall i :: |peers| <= i < |cs| ==> cs[i] == Remove(cs[i].key) && cs[i] in cs;
    }
  }

  // Runs of reconciles

  /** One reconcile: what was wanted, what the system calls answered, and the configuration that was sent. */
  datatype Round = Round(peers: seq<Peer>, readable: bool, accepted: bool, cs: seq<PeerConfig>)

  function After(d: Device, r: Round): Device {
    if r.accepted then ConfigureAll(d, r.cs) else d
  }

  function AfterAll(d: Device, rounds: seq<Round>): Device {
    if rounds == [] then d else After(AfterAll(d, rounds[..|rounds| - 1]), rounds[|rounds| - 1])
  }

  /** Each configuration of the run is one the reconciler sends to the device it finds. */
  ghost predicate Legal(d: Device, rounds: seq<Round>) {
    forall i :: 0 <= i < |rounds| ==>
      ConfigFor(rounds[i].peers, if rounds[i].readable then AfterAll(d, rounds[..i]).peers.Keys else {}, rounds[i].cs)
  }

  /** A key wanted in every round is never removed and keeps its session through the whole run. */
  lemma {:induction false} SessionSurvivesRun(d: Device, rounds: seq<Round>, k: WgKey)
    requires Legal(d, rounds) && k in d.peers
    requires forall i :: 0 <= i < |rounds| ==> k in KeysOf(rounds[i].peers)
    ensures forall i :: 0 <= i < |rounds| ==> Remove(k) !in rounds[i].cs
    ensures k in AfterAll(d, rounds).peers && AfterAll(d, rounds).peers[k].session == d.peers[k].session
  {
    if rounds != [] {
      var n := |rounds| - 1;
      var before := rounds[..n];
      assert forall i :: 0 <= i < n ==> before[i] == rounds[i] && before[..i] == rounds[..i];
      SessionSurvivesRun(d, before, k);
      var mid, r := AfterAll(d, before), rounds[n];
      assert ConfigFor(r.peers, if r.readable then mid.peers.Keys else {}, r.cs);
      assert Remove(k) !in r.cs;
      SessionKept(mid, r.cs, k);
    }
  }

  /** Whatever came before: an accepted round on a readable device leaves exactly the wanted keys. */
  lemma KeysAfterRun(d: Device, rounds: seq<Round>)
    requires Legal(d, rounds) && rounds != []
    requires rounds[|rounds| - 1].readable && rounds[|rounds| - 1].accepted
    ensures AfterAll(d, rounds).peers.Keys == KeysOf(rounds[|rounds| - 1].peers)
  {
    var n := |rounds| - 1;
    KeysAfter(AfterAll(d, rounds[..n]), rounds[n].peers, true, rounds[n].cs);
  }

  /** An endpoint once configured stays over any run until another one is wanted or the key is removed. */
  lemma {:induction false} EndpointStays(d: Device, rounds: seq<Round>, k: WgKey, e: AddrPort)
    requires Legal(d, rounds) && EndpointOf(d, k) == Some(e)
    requires forall i :: 0 <= i < |rounds| ==> Remove(k) !in rounds[i].cs
    requires forall i, p :: 0 <= i < |rounds| && p in rounds[i].peers && p.key == k ==> p.endpoint in {None, Some(e)}
    ensures EndpointOf(AfterAll(d, rounds), k) == Some(e)
  {
    if rounds != [] {
      var n := |rounds| - 1;
      var before, r := rounds[..n], rounds[n];
      assert forall i :: 0 <= i < n ==> before[i] == rounds[i] && before[..i] == rounds[..i];
      EndpointStays(d, before, k, e);
      var mid := AfterAll(d, before);
      assert ConfigFor(r.peers, if r.readable then mid.peers.Keys else {}, r.cs);
      EndpointAfter(mid, r.peers, if r.readable then mid.peers.Keys else {}, r.cs, k);
      NoOtherWanted(Some(e), r.peers, k, e, EndpointOf(ConfigureAll(mid, r.cs), k));
    }
  }

  lemma NoOtherWanted(before: Option<AddrPort>, peers: seq<Peer>, k: WgKey, e: AddrPort, after: Option<AddrPort>)
    requires EndpointDecided(before, peers, k, after) && before == Some(e)
    requires forall p :: p in peers && p.key == k ==> p.endpoint in {None, Some(e)}
    ensures after == Some(e)
  {
    if exists i :: 0 <= i < |peers| && peers[i].key == k && peers[i].endpoint.Some? {
      var j := LastOfThem(peers, k);
      assert peers[j] in peers;
    }
  }

  lemma {:induction false} LastOfThem(peers: seq<Peer>, k: WgKey) returns (j: nat)
    requires exists i :: 0 <= i < |peers| && peers[i].key == k && peers[i].endpoint.Some?
    ensures LastEndpoint(peers, k, j)
  {
    j := |peers| - 1;
    if !(peers[j].key == k && peers[j].endpoint.Some?) {
      var before := peers[..j];
      var i :| 0 <= i < |peers| && peers[i].key == k && peers[i].endpoint.Some?;
      assert before[i] == peers[i];
      j := LastOfThem(before, k);
      assert forall i :: 0 <= i < |before| ==> before[i] == peers[i];
    }
  }
}
