/**
What a plane knows after its whole life, told from the bodies it has applied: each thing it knows is what the last body
about that thing said.
*/
module Histories {
  import opened Addresses
  import opened EdgeOrder
  import opened Messages
  import opened Planes
  import opened Results
  import opened Tables
  import opened Topologies

  /** Event `i` was applied: an announcement, or an envelope that verified and was news when it came. */
  ghost predicate TookEffect(auth: Auth, name: string, events: seq<Event>, i: nat)
    requires i < |events|
  {
    events[i].Announced? || Accepts(auth, Life(auth, name, events[..i]), events[i].msg)
  }

  /** The bodies applied, in order. */
  ghost function Diary(auth: Auth, name: string, events: seq<Event>): seq<Body> {
    if events == [] then [] else
      var k := |events| - 1;
      Diary(auth, name, events[..k])
      + if TookEffect(auth, name, events, k) then [MessageOf(name, events[k]).body] else []
  }

  // The last word

  /** What one body says about one thing. */
  datatype Word<+V> = Silent | Gone | Now(value: V)

  function Heard<V>(known: Option<V>, w: Word<V>): Option<V> {
    match w
    case Silent => known
    case Gone => None
    case Now(x) => Some(x)
  }

  ghost predicate LastWord<V>(says: Body -> Word<V>, log: seq<Body>, i: nat) {
    && i < |log| && !says(log[i]).Silent?
    && forall j :: i < j < |log| ==> says(log[j]).Silent?
  }

  /** The last body that says anything decides; nothing is known when none does. */
  ghost predicate Remembers<V>(says: Body -> Word<V>, log: seq<Body>, known: Option<V>) {
    && (forall i: nat :: LastWord(says, log, i) ==> known == Heard(None, says(log[i])))
    && ((forall i :: 0 <= i < |log| ==> says(log[i]).Silent?) ==> known == None)
  }

  lemma OneMoreWord<V>(says: Body -> Word<V>, log: seq<Body>, known: Option<V>, b: Body)
    requires Remembers(says, log, known)
    ensures Remembers(says, log + [b], Heard(known, says(b)))
  {
    var all := log + [b];
    assert all[|log|] == b && forall i :: 0 <= i < |log| ==> all[i] == log[i];
    forall i: nat | LastWord(says, all, i) ensures Heard(known, says(b)) == Heard(None, says(all[i])) {
      if i < |log| { assert says(all[|log|]).Silent? && LastWord(says, log, i); }
    }
    if forall i :: 0 <= i < |all| ==> says(all[i]).Silent? {
      assert forall i :: 0 <= i < |log| ==> says(log[i]) == says(all[i]);
      assert says(all[|log|]).Silent?;
    }
  }

  // What bodies say

  /** A hello of the node that carries the field sets it, a DelNode of the node takes it away. */
  function AboutNode<V>(n: string, b: Body, carried: Option<V>): Word<V> {
    if b.AddNode? && b.hello.name == n && carried.Some? then Now(carried.value)
    else if b.DelNode? && b.hello.name == n && n != "" then Gone
    else Silent
  }

  function KeyWord(n: string): Body -> Word<EdKey> {
    (b: Body) => AboutNode(n, b, if b.AddNode? then b.hello.edKey else None)
  }

  function EndpointWord(n: string): Body -> Word<string> {
    (b: Body) => AboutNode(n, b, if b.AddNode? && b.hello.endpoint != "" then Some(b.hello.endpoint) else None)
  }

  function InnerWord(n: string): Body -> Word<Addr> {
    (b: Body) => AboutNode(n, b, if b.AddNode? then b.hello.inner else None)
  }

  function UnderlayWord(n: string): Body -> Word<Addr> {
    (b: Body) => AboutNode(n, b, if b.AddNode? then b.hello.underlay else None)
  }

  /** Either end may be named first, and a DelNode of either end takes the edge away. */
  function EdgeWord(x: string, y: string): Body -> Word<int> {
    (b: Body) =>
      if b.AddEdge? && SamePair(x, y, b.from, b.to) then Now(b.weight)
      else if b.DelEdge? && SamePair(x, y, b.from, b.to) then Gone
      else if b.DelNode? && b.hello.name != "" && (b.hello.name == x || b.hello.name == y) then Gone
      else Silent
  }

  function SubnetWord(owner: string, subnet: string): Body -> Word<string> {
    (b: Body) =>
      if b == AddSubnet(owner, subnet) then Now(subnet)
      else if b == DelSubnet(owner, subnet) then Gone
      else Silent
  }

  function HeldAt(t: Topology, owner: string, subnet: string): Option<string> {
    if HoldsSubnet(t, owner, subnet) then Some(subnet) else None
  }

  /** The body brings the node into the graph. */
  predicate Mentions(b: Body, n: string) {
    || (b.AddNode? && b.hello.name == n)
    || (b.AddEdge? && (b.from == n || b.to == n))
    || (b.AddSubnet? && b.owner == n)
  }

  // What applying one body does

  lemma AppliedHello(v: PlaneView, b: Body, n: string)
    ensures Lookup(Applied(v, b).pubKeys, n) == Heard(Lookup(v.pubKeys, n), KeyWord(n)(b))
    ensures Lookup(Applied(v, b).endpoints, n) == Heard(Lookup(v.endpoints, n), EndpointWord(n)(b))
    ensures Lookup(Applied(v, b).inners, n) == Heard(Lookup(v.inners, n), InnerWord(n)(b))
    ensures Lookup(Applied(v, b).underlays, n) == Heard(Lookup(v.underlays, n), UnderlayWord(n)(b))
  {
    AppliedKey(v, b, n);
    AppliedEndpoint(v, b, n);
    AppliedAddresses(v, b, n);
  }

  lemma AppliedKey(v: PlaneView, b: Body, n: string)
    ensures Lookup(Applied(v, b).pubKeys, n) == Heard(Lookup(v.pubKeys, n), KeyWord(n)(b))
  {}

  lemma AppliedEndpoint(v: PlaneView, b: Body, n: string)
    ensures Lookup(Applied(v, b).endpoints, n) == Heard(Lookup(v.endpoints, n), EndpointWord(n)(b))
  {}

  lemma AppliedAddresses(v: PlaneView, b: Body, n: string)
    ensures Lookup(Applied(v, b).inners, n) == Heard(Lookup(v.inners, n), InnerWord(n)(b))
    ensures Lookup(Applied(v, b).underlays, n) == Heard(Lookup(v.underlays, n), UnderlayWord(n)(b))
  {}

  lemma AppliedNode(v: PlaneView, b: Body, n: string)
    ensures n in Applied(v, b).topo.nodes <==> n in v.topo.nodes || Mentions(b, n)
  {}

  lemma AppliedEdge(v: PlaneView, b: Body, x: string, y: string)
    requires WellFormed(v.topo)
    ensures WellFormed(Applied(v, b).topo)
    ensures EdgeAt(Applied(v, b).topo, x, y) == Heard(EdgeAt(v.topo, x, y), EdgeWord(x, y)(b))
  {
    if b.DelNode? {
      GoneEdge(v, b.hello, x, y);
    } else {
      AppliedEdgeAt(v, b, x, y);
    }
  }

  lemma GoneEdge(v: PlaneView, h: Hello, x: string, y: string)
    requires WellFormed(v.topo)
    ensures WellFormed(Applied(v, DelNode(h)).topo)
    ensures EdgeAt(Applied(v, DelNode(h)).topo, x, y) == Heard(EdgeAt(v.topo, x, y), EdgeWord(x, y)(DelNode(h)))
  {
    IsolatedWellFormed(v.topo, {h.name});
  }

  lemma AppliedSubnet(v: PlaneView, b: Body, owner: string, subnet: string)
    ensures HeldAt(Applied(v, b).topo, owner, subnet) ==
              Heard(HeldAt(v.topo, owner, subnet), SubnetWord(owner, subnet)(b))
  {
    AppliedSubnets(v, b, owner, subnet);
  }

  // Whole lives

  /** An event that took effect applies its body to a plane that differs in its tables only. */
  lemma LifeStep(auth: Auth, name: string, events: seq<Event>) returns (v: PlaneView)
    requires events != []
    ensures var k := |events| - 1;
            var before := Life(auth, name, events[..k]);
            if TookEffect(auth, name, events, k)
            then Life(auth, name, events) == Applied(v, MessageOf(name, events[k]).body)
                 && v == before.(seen := v.seen, outbox := v.outbox)
            else Life(auth, name, events) == before
  {
    var k := |events| - 1;
    var before, m := Life(auth, name, events[..k]), MessageOf(name, events[k]);
    LifeLedger(auth, name, events[..k]);
    if events[k].Announced? {
      v := before.(seen := before.seen[m.id := m.ts], outbox := before.outbox[m.id := m]);
    } else {
      v := before.(seen := Claims.Claimed(before.seen, StampOf(m)));
    }
  }

  /** The key, endpoint and addresses of a node are those of the last body that said anything about each. */
  ghost predicate KnowsNode(v: PlaneView, log: seq<Body>, n: string) {
    && Remembers(KeyWord(n), log, Lookup(v.pubKeys, n))
    && Remembers(EndpointWord(n), log, Lookup(v.endpoints, n))
    && Remembers(InnerWord(n), log, Lookup(v.inners, n))
    && Remembers(UnderlayWord(n), log, Lookup(v.underlays, n))
  }

  lemma AppliedKnowsNode(v: PlaneView, b: Body, log: seq<Body>, n: string)
    requires KnowsNode(v, log, n)
    ensures KnowsNode(Applied(v, b), log + [b], n)
  {
    AppliedHello(v, b, n);
    OneMoreWord(KeyWord(n), log, Lookup(v.pubKeys, n), b);
    OneMoreWord(EndpointWord(n), log, Lookup(v.endpoints, n), b);
    OneMoreWord(InnerWord(n), log, Lookup(v.inners, n), b);
    OneMoreWord(UnderlayWord(n), log, Lookup(v.underlays, n), b);
  }

  lemma DiaryStep(auth: Auth, name: string, events: seq<Event>)
    requires events != []
    ensures var k := |events| - 1;
            Diary(auth, name, events) ==
              if TookEffect(auth, name, events, k)
              then Diary(auth, name, events[..k]) + [MessageOf(name, events[k]).body]
              else Diary(auth, name, events[..k])
  {}

  /**
  After any life: the signing key known for a node is that of the last hello of the node that carried one, unless a
  DelNode of it came later; so are its endpoint, its inner and its underlay address.
  */
  lemma {:induction false} HelloHistory(auth: Auth, name: string, events: seq<Event>, n: string)
    ensures KnowsNode(Life(auth, name, events), Diary(auth, name, events), n)
  {
    if events != [] {
      var k := |events| - 1;
      HelloHistory(auth, name, events[..k], n);
      DiaryStep(auth, name, events);
      var v := LifeStep(auth, name, events);
      if TookEffect(auth, name, events, k) {
        AppliedKnowsNode(v, MessageOf(name, events[k]).body, Diary(auth, name, events[..k]), n);
      }
    }
  }

  /** After any life: a node is in the graph exactly when a hello, an edge or a subnet has brought it there. */
  lemma {:induction false} NodeHistory(auth: Auth, name: string, events: seq<Event>, n: string)
    ensures n in Life(auth, name, events).topo.nodes <==> exists b :: b in Diary(auth, name, events) && Mentions(b, n)
  {
    if events != [] {
      var k := |events| - 1;
      NodeHistory(auth, name, events[..k], n);
      DiaryStep(auth, name, events);
      var v := LifeStep(auth, name, events);
      if TookEffect(auth, name, events, k) {
        var b, log := MessageOf(name, events[k]).body, Diary(auth, name, events[..k]);
        AppliedNode(v, b, n);
        assert forall x :: x in log + [b] <==> x in log || x == b;
      }
    }
  }

  /**
  After any life: an edge is there, with the weight last given to it, exactly when the last body about its pair of nodes
  added it and no DelNode of either end came later.
  */
  lemma {:induction false} EdgeLifeHistory(auth: Auth, name: string, events: seq<Event>, x: string, y: string)
    ensures WellFormed(Life(auth, name, events).topo)
    ensures Remembers(EdgeWord(x, y), Diary(auth, name, events), EdgeAt(Life(auth, name, events).topo, x, y))
  {
    if events != [] {
      var k := |events| - 1;
      EdgeLifeHistory(auth, name, events[..k], x, y);
      DiaryStep(auth, name, events);
      var v := LifeStep(auth, name, events);
      if TookEffect(auth, name, events, k) {
        var b, log := MessageOf(name, events[k]).body, Diary(auth, name, events[..k]);
        AppliedEdge(v, b, x, y);
        OneMoreWord(EdgeWord(x, y), log, EdgeAt(v.topo, x, y), b);
      }
    }
  }

  /** After any life: a subnet is held exactly when the last body about it added it. */
  lemma {:induction false} SubnetLifeHistory(auth: Auth, name: string, events: seq<Event>, owner: string,
                                             subnet: string)
    ensures Remembers(SubnetWord(owner, subnet), Diary(auth, name, events),
                      HeldAt(Life(auth, name, events).topo, owner, subnet))
  {
    if events != [] {
      var k := |events| - 1;
      SubnetLifeHistory(auth, name, events[..k], owner, subnet);
      DiaryStep(auth, name, events);
      var v := LifeStep(auth, name, events);
      if TookEffect(auth, name, events, k) {
        var b, log := MessageOf(name, events[k]).body, Diary(auth, name, events[..k]);
        AppliedSubnet(v, b, owner, subnet);
        OneMoreWord(SubnetWord(owner, subnet), log, HeldAt(v.topo, owner, subnet), b);
      }
    }
  }
}
