/**
Edges and the order of delivery. The two ends of an edge announce it under two different IDs, so the newest envelopes
of both IDs take part in deciding it.
*/
module EdgeOrder {
  import opened Claims
  import opened Facts
  import opened Messages
  import opened OrderIndependence
  import opened Planes
  import opened Results
  import opened Topologies

  predicate AboutPair(b: Body, x: string, y: string) {
    (b.AddEdge? || b.DelEdge?) && SamePair(x, y, b.from, b.to)
  }

  /** What an edge envelope says: the weight of the edge, or that there is none. */
  function Effect(b: Body): Option<int> {
    if b.AddEdge? then Some(b.weight) else None
  }

  function EdgeAt(t: Topology, x: string, y: string): Option<int> {
    if HasEdge(t, x, y) then Some(t.adj[x][y].weight) else None
  }

  /** Honest envelopes under one ID are about the same pair of nodes. */
  lemma HonestSamePair(m: Message, n: Message, x: string, y: string)
    requires Honest(m) && Honest(n) && m.id == n.id && AboutPair(m.body, x, y)
    ensures AboutPair(n.body, x, y)
  {
    var a :| m == Mint(m.origin, a, m.ts, m.signature);
    var b :| n == Mint(n.origin, b, n.ts, n.signature);
    FactIdInjective(m.origin, FactOf(a), n.origin, FactOf(b));
  }

  function OpOf(b: Body): Op
    requires !b.DelNode? && !b.Undecodable? && !b.Unhandled?
  {
    match b
    case AddNode(h) => OpAddNode(h.name)
    case AddEdge(from, to, w) => OpAddEdge(Edge(from, to, w))
    case DelEdge(from, to) => OpDelEdge(from, to)
    case AddSubnet(o, s) => OpAddSubnet(o, s)
    case DelSubnet(o, s) => OpDelSubnet(o, s)
  }

  lemma AppliedEdgeAt(v: PlaneView, b: Body, x: string, y: string)
    requires WellFormed(v.topo) && !b.DelNode?
    ensures WellFormed(Applied(v, b).topo)
    ensures EdgeAt(Applied(v, b).topo, x, y) == if AboutPair(b, x, y) then Effect(b) else EdgeAt(v.topo, x, y)
  {
    if !b.Undecodable? && !b.Unhandled? {
      PerformWellFormed(v.topo, OpOf(b));
      PerformEdges(v.topo, OpOf(b), x, y);
      assert Applied(v, b).topo == Perform(v.topo, OpOf(b));
    }
  }

  /** Nothing about the pair was verified and there is no edge, or a newest envelope about it says what there is. */
  ghost predicate Decided(vs: seq<Message>, x: string, y: string, edge: Option<int>) {
    || (edge == None && forall m :: m in vs ==> !AboutPair(m.body, x, y))
    || exists m :: Newest(Elements(vs), m) && AboutPair(m.body, x, y) && Effect(m.body) == edge
  }

  /** One more envelope, news or not. */
  lemma DecidedKept(vs: seq<Message>, n: Message, x: string, y: string, edge: Option<int>)
    requires (forall m :: m in vs ==> Honest(m)) && Honest(n) && Decided(vs, x, y, edge)
    ensures var news := Newer(TakeAll(vs).seen, StampOf(n));
            Decided(vs + [n], x, y, if news && AboutPair(n.body, x, y) then Effect(n.body) else edge)
  {
    NewerIff(vs, n);
    ElementsSnoc(vs, n);
    if Newer(TakeAll(vs).seen, StampOf(n)) && AboutPair(n.body, x, y) {
      NewsIsNewest(vs, n);
    } else if m :| Newest(Elements(vs), m) && AboutPair(m.body, x, y) && Effect(m.body) == edge {
      StaysNewest(vs, m, n, x, y);
    } else {
      NothingYet(vs, n, x, y);
    }
  }

  lemma NewsIsNewest(vs: seq<Message>, n: Message)
    requires forall x :: x in vs && x.id == n.id ==> x.ts < n.ts
    ensures Newest(Elements(vs) + {n}, n)
  {}

  lemma StaysNewest(vs: seq<Message>, m: Message, n: Message, x: string, y: string)
    requires Honest(m) && Honest(n) && Newest(Elements(vs), m) && AboutPair(m.body, x, y)
    requires (forall k :: k in vs && k.id == n.id ==> k.ts < n.ts) ==> !AboutPair(n.body, x, y)
    ensures Newest(Elements(vs) + {n}, m)
  {
    if n.id == m.id {
      HonestSamePair(m, n, x, y);
      var k :| k in vs && k.id == n.id && k.ts >= n.ts;
      assert k in Elements(vs);
    }
  }

  lemma NothingYet(vs: seq<Message>, n: Message, x: string, y: string)
    requires (forall m :: m in vs ==> Honest(m)) && Honest(n) && forall m :: m in vs ==> !AboutPair(m.body, x, y)
    requires (forall k :: k in vs && k.id == n.id ==> k.ts < n.ts) ==> !AboutPair(n.body, x, y)
    ensures forall m :: m in vs + [n] ==> !AboutPair(m.body, x, y)
  {
    if AboutPair(n.body, x, y) {
      var k :| k in vs && k.id == n.id && k.ts >= n.ts;
      HonestSamePair(n, k, x, y);
    }
  }

  /** After any deliveries an edge is decided by a newest envelope of one of its two IDs. */
  lemma {:induction false} NewestDecidesEdge(auth: Auth, name: string, ms: seq<Message>, x: string, y: string)
    requires forall m :: m in Verified(auth, name, ms) ==> Honest(m)
    ensures WellFormed(Deliver(auth, name, ms).topo)
    ensures Decided(Verified(auth, name, ms), x, y, EdgeAt(Deliver(auth, name, ms).topo, x, y))
  {
    if ms != [] {
      var before, n := ms[..|ms| - 1], ms[|ms| - 1];
      var vs, v := Verified(auth, name, before), Deliver(auth, name, before);
      assert forall m :: m in vs ==> m in Verified(auth, name, ms);
      NewestDecidesEdge(auth, name, before, x, y);
      if Verifies(auth, v, n) {
        assert Verified(auth, name, ms) == vs + [n] && n in vs + [n];
        DeliverLedger(auth, name, before);
        OneMoreDelivered(auth, v, vs, n, x, y);
      } else {
        assert Verified(auth, name, ms) == vs;
      }
    }
  }

  lemma OneMoreDelivered(auth: Auth, v: PlaneView, vs: seq<Message>, n: Message, x: string, y: string)
    requires (forall m :: m in vs ==> Honest(m)) && Honest(n) && Verifies(auth, v, n)
    requires WellFormed(v.topo) && v.seen == TakeAll(vs).seen && Decided(vs, x, y, EdgeAt(v.topo, x, y))
    ensures WellFormed(Received(auth, v, n).topo) && Decided(vs + [n], x, y, EdgeAt(Received(auth, v, n).topo, x, y))
  {
    DecidedKept(vs, n, x, y, EdgeAt(v.topo, x, y));
    AppliedEdgeAt(v.(seen := Claimed(v.seen, StampOf(n))), n.body, x, y);
  }

  /** All newest envelopes about one pair, of both IDs, say the same. */
  ghost predicate EdgesAgree(s: set<Message>) {
    forall m, n, x, y :: Newest(s, m) && Newest(s, n) && AboutPair(m.body, x, y) && AboutPair(n.body, x, y) ==>
      Effect(m.body) == Effect(n.body)
  }

  ghost predicate EdgesOrderFree(auth: Auth, name: string, s: set<Message>) {
    forall ms, ns :: Elements(ms) == s && Elements(ns) == s ==>
      SameEdges(Deliver(auth, name, ms).topo, Deliver(auth, name, ns).topo)
  }

  lemma AgreeingEdge(auth: Auth, name: string, s: set<Message>, ms: seq<Message>, ns: seq<Message>, x: string,
                     y: string)
    requires (forall m :: m in s ==> Honest(m)) && Steady(auth, name, s) && EdgesAgree(s)
    requires Elements(ms) == s && Elements(ns) == s
    ensures WellFormed(Deliver(auth, name, ms).topo) && WellFormed(Deliver(auth, name, ns).topo)
    ensures EdgeAt(Deliver(auth, name, ms).topo, x, y) == EdgeAt(Deliver(auth, name, ns).topo, x, y)
  {
    SteadyVerified(auth, name, s, ms);
    SteadyVerified(auth, name, s, ns);
    assert forall m :: m in ms ==> m in Elements(ms);
    assert forall m :: m in ns ==> m in Elements(ns);
    NewestDecidesEdge(auth, name, ms, x, y);
    NewestDecidesEdge(auth, name, ns, x, y);
    SameDecision(ms, ns, x, y, EdgeAt(Deliver(auth, name, ms).topo, x, y), EdgeAt(Deliver(auth, name, ns).topo, x, y));
  }

  lemma SameDecision(ms: seq<Message>, ns: seq<Message>, x: string, y: string, e: Option<int>, f: Option<int>)
    requires Elements(ms) == Elements(ns) && EdgesAgree(Elements(ms)) && Decided(ms, x, y, e) && Decided(ns, x, y, f)
    ensures e == f
  {
    assert forall m :: m in ms <==> m in Elements(ms);
    assert forall m :: m in ns <==> m in Elements(ns);
  }

  lemma SameEdgeAt(t: Topology, u: Topology)
    requires WellFormed(t) && WellFormed(u) && forall x, y :: EdgeAt(t, x, y) == EdgeAt(u, x, y)
    ensures SameEdges(t, u)
  {
    forall x, y ensures (HasEdge(u, x, y) <==> HasEdge(t, x, y)) && (HasEdge(u, x, y) ==> u.adj[x][y] == t.adj[x][y]) {
      assert EdgeAt(t, x, y) == EdgeAt(u, x, y);
    }
  }

  /** Two newest envelopes about one pair that disagree: either can be the last to be applied. */
  lemma DisagreementMatters(auth: Auth, name: string, s: set<Message>, m: Message, n: Message, x: string, y: string)
    requires (forall m :: m in s ==> Honest(m)) && Steady(auth, name, s)
    requires Newest(s, m) && Newest(s, n) && AboutPair(m.body, x, y) && AboutPair(n.body, x, y)
    requires Effect(m.body) != Effect(n.body)
    ensures !EdgesOrderFree(auth, name, s)
  {
    var ms := NewestDecidesLast(auth, name, s, m, x, y);
    var ns := NewestDecidesLast(auth, name, s, n, x, y);
    assert !SameEdges(Deliver(auth, name, ms).topo, Deliver(auth, name, ns).topo);
  }

  lemma NewestDecidesLast(auth: Auth, name: string, s: set<Message>, m: Message, x: string, y: string)
    returns (ms: seq<Message>)
    requires (forall m :: m in s ==> Honest(m)) && Steady(auth, name, s) && Newest(s, m) && AboutPair(m.body, x, y)
    ensures Elements(ms) == s && EdgeAt(Deliver(auth, name, ms).topo, x, y) == Effect(m.body)
  {
    var v;
    ms, v := NewestCanDecide(auth, name, s, m);
    var before :| Elements(before) <= s && v.topo == Deliver(auth, name, before).topo;
    SteadyVerified(auth, name, s, before);
    assert forall k :: k in before ==> k in Elements(before);
    NewestDecidesEdge(auth, name, before, x, y);
    AppliedEdgeAt(v, m.body, x, y);
  }

  /**
  All orders of delivery leave the same edges with the same weights exactly when, for every pair of nodes, all newest
  envelopes about the pair agree: those of one end and those of the other.
  */
  lemma EdgesOrderFreeIffAgree(auth: Auth, name: string, s: set<Message>)
    requires (forall m :: m in s ==> Honest(m)) && Steady(auth, name, s)
    ensures EdgesOrderFree(auth, name, s) <==> EdgesAgree(s)
  {
    if EdgesAgree(s) {
      forall ms, ns | Elements(ms) == s && Elements(ns) == s
        ensures SameEdges(Deliver(auth, name, ms).topo, Deliver(auth, name, ns).topo)
      {
        AgreeingEdges(auth, name, s, ms, ns);
      }
    } else {
      var m, n, x, y :| Newest(s, m) && Newest(s, n) && AboutPair(m.body, x, y) && AboutPair(n.body, x, y)
        && Effect(m.body) != Effect(n.body);
      DisagreementMatters(auth, name, s, m, n, x, y);
    }
  }

  lemma AgreeingEdges(auth: Auth, name: string, s: set<Message>, ms: seq<Message>, ns: seq<Message>)
    requires (forall m :: m in s ==> Honest(m)) && Steady(auth, name, s) && EdgesAgree(s)
    requires Elements(ms) == s && Elements(ns) == s
    ensures SameEdges(Deliver(auth, name, ms).topo, Deliver(auth, name, ns).topo)
  {
    forall x, y ensures EdgeAt(Deliver(auth, name, ms).topo, x, y) == EdgeAt(Deliver(auth, name, ns).topo, x, y) {
      AgreeingEdge(auth, name, s, ms, ns, x, y);
    }
    AgreeingEdge(auth, name, s, ms, ns, "", "");
    SameEdgeAt(Deliver(auth, name, ms).topo, Deliver(auth, name, ns).topo);
  }
}
