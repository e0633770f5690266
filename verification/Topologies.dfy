/** The topology a node learns from gossip: nodes, the subnets they own and the undirected edges between them. */
module Topologies {
  import opened Paths

  datatype Edge = Edge(from: string, to: string, weight: int)

  /** `nodes` maps a node to its subnets, `adj` maps it to its half-edges by neighbour. */
  datatype Topology = Topology(nodes: map<string, set<string>>, adj: map<string, map<string, Edge>>)

  const EMPTY := Topology(map[], map[])

  function Neighbours(t: Topology): (links: Links)
    ensures links.Keys == t.adj.Keys
  {
    map a | a in t.adj :: t.adj[a].Keys
  }

  predicate HasEdge(t: Topology, a: string, b: string) {
    a in t.adj && b in t.adj[a]
  }

  predicate HoldsSubnet(t: Topology, owner: string, subnet: string) {
    owner in t.nodes && subnet in t.nodes[owner]
  }

  /** Both maps have the same nodes, and each half-edge names its ends and has a mirror of the same weight. */
  ghost predicate WellFormed(t: Topology) {
    && t.nodes.Keys == t.adj.Keys
    && forall a, b :: HasEdge(t, a, b) ==>
        && HasEdge(t, b, a)
        && t.adj[a][b] == Edge(a, b, t.adj[a][b].weight)
        && t.adj[b][a] == Edge(b, a, t.adj[a][b].weight)
  }

  function WithNode(t: Topology, n: string): Topology {
    if n in t.nodes then t else Topology(t.nodes[n := {}], t.adj[n := map[]])
  }

  /** Stores a half-edge; on a well-formed graph the node is there already. */
  function SetHalf(t: Topology, e: Edge): Topology {
    var row := if e.from in t.adj then t.adj[e.from] else map[];
    t.(adj := t.adj[e.from := row[e.to := e]])
  }

  function DropHalf(t: Topology, from: string, to: string): Topology {
    if from in t.adj then t.(adj := t.adj[from := t.adj[from] - {to}]) else t
  }

  function WithEdge(t: Topology, e: Edge): Topology {
    var t1 := WithNode(WithNode(t, e.from), e.to);
    SetHalf(SetHalf(t1, e), Edge(e.to, e.from, e.weight))
  }

  function WithoutEdge(t: Topology, from: string, to: string): Topology {
    DropHalf(DropHalf(t, from, to), to, from)
  }

  function WithSubnet(t: Topology, owner: string, subnet: string): Topology {
    var t1 := WithNode(t, owner);
    t1.(nodes := t1.nodes[owner := t1.nodes[owner] + {subnet}])
  }

  function WithoutSubnet(t: Topology, owner: string, subnet: string): Topology {
    if owner in t.nodes then t.(nodes := t.nodes[owner := t.nodes[owner] - {subnet}]) else t
  }

  predicate SamePair(a: string, b: string, c: string, d: string) {
    (a == c && b == d) || (a == d && b == c)
  }

  lemma WithEdgeAt(t: Topology, e: Edge, a: string, b: string)
    requires WellFormed(t)
    ensures HasEdge(WithEdge(t, e), a, b) <==> HasEdge(t, a, b) || SamePair(a, b, e.from, e.to)
    ensures HasEdge(WithEdge(t, e), a, b) ==>
              WithEdge(t, e).adj[a][b] == if SamePair(a, b, e.from, e.to) then Edge(a, b, e.weight) else t.adj[a][b]
  {}

  /** AddEdge stores both halves, keeps every other edge and touches no subnet. */
  lemma WithEdgeLaw(t: Topology, e: Edge)
    requires WellFormed(t)
    ensures WellFormed(WithEdge(t, e))
    ensures WithEdge(t, e).nodes.Keys == t.nodes.Keys + {e.from, e.to}
    ensures forall a, b :: HasEdge(WithEdge(t, e), a, b) <==> HasEdge(t, a, b) || SamePair(a, b, e.from, e.to)
    ensures forall o, s :: HoldsSubnet(WithEdge(t, e), o, s) <==> HoldsSubnet(t, o, s)
  {
    forall a, b
      ensures HasEdge(WithEdge(t, e), a, b) <==> HasEdge(t, a, b) || SamePair(a, b, e.from, e.to)
      ensures HasEdge(WithEdge(t, e), a, b) ==>
                && HasEdge(WithEdge(t, e), b, a)
                && WithEdge(t, e).adj[a][b] == Edge(a, b, WithEdge(t, e).adj[a][b].weight)
                && WithEdge(t, e).adj[b][a] == Edge(b, a, WithEdge(t, e).adj[a][b].weight)
    {
      WithEdgeAt(t, e, a, b);
      WithEdgeAt(t, e, b, a);
    }
  }

  lemma WithoutEdgeAt(t: Topology, from: string, to: string, a: string, b: string)
    requires WellFormed(t)
    ensures HasEdge(WithoutEdge(t, from, to), a, b) <==> HasEdge(t, a, b) && !SamePair(a, b, from, to)
    ensures HasEdge(WithoutEdge(t, from, to), a, b) ==> WithoutEdge(t, from, to).adj[a][b] == t.adj[a][b]
  {}

  /** DelEdge removes both halves, in whichever order the ends are given, and nothing else. */
  lemma WithoutEdgeLaw(t: Topology, from: string, to: string)
    requires WellFormed(t)
    ensures WellFormed(WithoutEdge(t, from, to))
    ensures WithoutEdge(t, from, to).nodes == t.nodes
    ensures forall a, b :: HasEdge(WithoutEdge(t, from, to), a, b) <==> HasEdge(t, a, b) && !SamePair(a, b, from, to)
  {
    var u := WithoutEdge(t, from, to);
    forall a, b
      ensures HasEdge(u, a, b) <==> HasEdge(t, a, b) && !SamePair(a, b, from, to)
      ensures HasEdge(u, a, b) ==>
                && HasEdge(u, b, a)
                && u.adj[a][b] == Edge(a, b, u.adj[a][b].weight)
                && u.adj[b][a] == Edge(b, a, u.adj[a][b].weight)
    {
      WithoutEdgeAt(t, from, to, a, b);
      WithoutEdgeAt(t, from, to, b, a);
    }
  }

  // Histories

  datatype Op =
    | OpAddNode(name: string)
    | OpAddEdge(edge: Edge)
    | OpDelEdge(from: string, to: string)
    | OpAddSubnet(owner: string, subnet: string)
    | OpDelSubnet(owner: string, subnet: string)

  function Perform(t: Topology, op: Op): Topology {
    match op
    case OpAddNode(n) => WithNode(t, n)
    case OpAddEdge(e) => WithEdge(t, e)
    case OpDelEdge(a, b) => WithoutEdge(t, a, b)
    case OpAddSubnet(o, s) => WithSubnet(t, o, s)
    case OpDelSubnet(o, s) => WithoutSubnet(t, o, s)
  }

  /** Operations on nodes and subnets leave every edge as it is. */
  ghost predicate SameEdges(t: Topology, u: Topology) {
    forall a, b :: (HasEdge(u, a, b) <==> HasEdge(t, a, b)) && (HasEdge(u, a, b) ==> u.adj[a][b] == t.adj[a][b])
  }

  lemma SameEdgesWellFormed(t: Topology, u: Topology)
    requires WellFormed(t) && SameEdges(t, u) && u.nodes.Keys == u.adj.Keys
    ensures WellFormed(u)
  {}

  lemma NodeOpsKeepEdges(t: Topology, op: Op)
    requires WellFormed(t) && !op.OpAddEdge? && !op.OpDelEdge?
    ensures SameEdges(t, Perform(t, op)) && WellFormed(Perform(t, op))
  {
    var u := Perform(t, op);
    match op
    case OpAddNode(n) =>
    case OpAddSubnet(o, s) => assert u.adj == WithNode(t, o).adj;
    case OpDelSubnet(o, s) => assert u.adj == t.adj && u.nodes.Keys == t.nodes.Keys;
    SameEdgesWellFormed(t, u);
  }

  /** Every operation keeps the graph invariant. */
  lemma PerformWellFormed(t: Topology, op: Op)
    requires WellFormed(t)
    ensures WellFormed(Perform(t, op))
  {
    match op
    case OpAddEdge(e) => WithEdgeLaw(t, e);
    case OpDelEdge(a, b) => WithoutEdgeLaw(t, a, b);
    case _ => NodeOpsKeepEdges(t, op);
  }

  /** The graph after a history of operations on a new graph. */
  ghost function Replay(ops: seq<Op>): (t: Topology)
    ensures WellFormed(t)
  {
    if ops == [] then EMPTY
    else
      var before, op := Replay(ops[..|ops| - 1]), ops[|ops| - 1];
      PerformWellFormed(before, op);
      Perform(before, op)
  }

  predicate Adds(op: Op, a: string, b: string) {
    op.OpAddEdge? && SamePair(a, b, op.edge.from, op.edge.to)
  }

  predicate Deletes(op: Op, a: string, b: string) {
    op.OpDelEdge? && SamePair(a, b, op.from, op.to)
  }

  /** The last operation about the pair, in either order of its ends, added it. */
  ghost predicate LastlyAdded(ops: seq<Op>, a: string, b: string, i: nat) {
    && i < |ops| && Adds(ops[i], a, b)
    && forall j :: i < j < |ops| ==> !Adds(ops[j], a, b) && !Deletes(ops[j], a, b)
  }

  lemma LastlyAddedKept(before: seq<Op>, op: Op, a: string, b: string, i: nat)
    requires i < |before|
    ensures LastlyAdded(before + [op], a, b, i) <==>
              LastlyAdded(before, a, b, i) && !Adds(op, a, b) && !Deletes(op, a, b)
  {
    var ops := before + [op];
    assert ops[|before|] == op && forall j :: 0 <= j < |before| ==> ops[j] == before[j];
  }

  /** An edge is present, with the weight last given to it, exactly when the last operation on its pair added it. */
  lemma {:induction false} EdgeHistory(ops: seq<Op>, a: string, b: string)
    ensures HasEdge(Replay(ops), a, b) <==> exists i: nat :: LastlyAdded(ops, a, b, i)
    ensures forall i: nat :: LastlyAdded(ops, a, b, i) && HasEdge(Replay(ops), a, b) ==>
              Replay(ops).adj[a][b] == Edge(a, b, ops[i].edge.weight)
  {
    if ops != [] {
      var k := |ops| - 1;
      var before, op := ops[..k], ops[k];
      EdgeHistory(before, a, b);
      PerformEdges(Replay(before), op, a, b);
      assert ops == before + [op];
      forall i: nat | i < k
        ensures LastlyAdded(ops, a, b, i) <==> LastlyAdded(before, a, b, i) && !Adds(op, a, b) && !Deletes(op, a, b)
      {
        LastlyAddedKept(before, op, a, b, i);
      }
      assert LastlyAdded(ops, a, b, k) <==> Adds(op, a, b);
    }
  }

  lemma PerformEdges(t: Topology, op: Op, a: string, b: string)
    requires WellFormed(t)
    ensures HasEdge(Perform(t, op), a, b) <==> Adds(op, a, b) || (HasEdge(t, a, b) && !Deletes(op, a, b))
    ensures HasEdge(Perform(t, op), a, b) ==>
              Perform(t, op).adj[a][b] == if Adds(op, a, b) then Edge(a, b, op.edge.weight) else t.adj[a][b]
  {
    match op
    case OpAddEdge(e) => WithEdgeAt(t, e, a, b);
    case OpDelEdge(c, d) => WithoutEdgeAt(t, c, d, a, b);
    case _ => NodeOpsKeepEdges(t, op);
  }

  /** Paths over the edges of a well-formed graph can be walked both ways. */
  lemma ReachabilitySymmetric(t: Topology, a: string, b: string)
    requires WellFormed(t)
    ensures Connected(Neighbours(t), a, b) <==> Connected(Neighbours(t), b, a)
  {
    var links := Neighbours(t);
    assert forall x, y :: x in links && y in links[x] ==> HasEdge(t, x, y) && HasEdge(t, y, x);
    if Connected(links, a, b) { ConnectedSymmetric(links, a, b); }
    if Connected(links, b, a) { ConnectedSymmetric(links, b, a); }
  }

  // Removing edges

  /** The topology without the half-edges in `gone`. */
  function WithoutHalves(t: Topology, gone: set<(string, string)>): Topology {
    t.(adj := map a | a in t.adj :: map b | b in t.adj[a] && (a, b) !in gone :: t.adj[a][b])
  }

  lemma WithoutEdgeIsWithoutHalves(t: Topology, a: string, b: string)
    ensures WithoutEdge(t, a, b) == WithoutHalves(t, {(a, b), (b, a)})
  {
    var u, v := WithoutEdge(t, a, b), WithoutHalves(t, {(a, b), (b, a)});
    forall x | x in t.adj ensures u.adj[x] == v.adj[x] {
      assert u.adj[x].Keys == v.adj[x].Keys;
    }
    assert u.adj == v.adj;
  }

  lemma WithoutNoHalves(t: Topology)
    ensures WithoutHalves(t, {}) == t
  {
    var u := WithoutHalves(t, {});
    forall x | x in t.adj ensures u.adj[x] == t.adj[x] {
      assert u.adj[x].Keys == t.adj[x].Keys;
    }
    assert u.adj == t.adj;
  }

  lemma WithoutHalvesTwice(t: Topology, r: set<(string, string)>, s: set<(string, string)>)
    ensures WithoutHalves(WithoutHalves(t, r), s) == WithoutHalves(t, r + s)
  {
    var u, v := WithoutHalves(WithoutHalves(t, r), s), WithoutHalves(t, r + s);
    forall x | x in t.adj ensures u.adj[x] == v.adj[x] {
      assert u.adj[x].Keys == v.adj[x].Keys;
    }
    assert u.adj == v.adj;
  }

  /** The topology without any edge that has an end in `s`. */
  function Isolated(t: Topology, s: set<string>): Topology {
    t.(adj := map a | a in t.adj :: map b | b in t.adj[a] && a !in s && b !in s :: t.adj[a][b])
  }

  lemma IsolatedNone(t: Topology)
    ensures Isolated(t, {}) == t
  {
    var u := Isolated(t, {});
    forall x | x in t.adj ensures u.adj[x] == t.adj[x] {
      assert u.adj[x].Keys == t.adj[x].Keys;
    }
    assert u.adj == t.adj;
  }

  lemma IsolatedWellFormed(t: Topology, s: set<string>)
    requires WellFormed(t)
    ensures WellFormed(Isolated(t, s))
    ensures forall a, b :: HasEdge(Isolated(t, s), a, b) <==> HasEdge(t, a, b) && a !in s && b !in s
  {}

  lemma IsolatedTwice(t: Topology, r: set<string>, s: set<string>)
    ensures Isolated(Isolated(t, r), s) == Isolated(t, r + s)
  {
    var u, v := Isolated(Isolated(t, r), s), Isolated(t, r + s);
    forall x | x in t.adj ensures u.adj[x] == v.adj[x] {
      assert u.adj[x].Keys == v.adj[x].Keys;
    }
    assert u.adj == v.adj;
  }

  lemma IsolatedByHalves(t: Topology, n: string, gone: set<(string, string)>)
    requires forall a, b :: HasEdge(t, a, b) ==> ((a, b) in gone <==> a == n || b == n)
    ensures WithoutHalves(t, gone) == Isolated(t, {n})
  {
    var u, v := WithoutHalves(t, gone), Isolated(t, {n});
    forall x | x in t.adj ensures u.adj[x] == v.adj[x] {
      assert forall y :: y in t.adj[x] ==> HasEdge(t, x, y);
      assert u.adj[x].Keys == v.adj[x].Keys;
    }
    assert u.adj == v.adj;
  }

  /** Only half-edges at the node are gone, and all of those that are not in `todo`. */
  ghost predicate Clearing(t: Topology, n: string, gone: set<(string, string)>, todo: set<Edge>) {
    && (forall a, b :: (a, b) in gone ==> a == n || b == n)
    && (forall a, b :: HasEdge(t, a, b) && t.adj[a][b] !in todo && (a == n || b == n) ==> (a, b) in gone)
  }

  lemma ClearingStep(t: Topology, n: string, gone: set<(string, string)>, todo: set<Edge>, e: Edge)
    requires WellFormed(t) && Clearing(t, n, gone, todo)
    ensures e.from == n || e.to == n ==> Clearing(t, n, gone + {(e.from, e.to), (e.to, e.from)}, todo - {e})
    ensures e.from != n && e.to != n ==> Clearing(t, n, gone, todo - {e})
  {
    assert forall a, b :: HasEdge(t, a, b) && t.adj[a][b] == e ==> e.from == a && e.to == b;
  }

  lemma WithoutOneMore(t: Topology, gone: set<(string, string)>, a: string, b: string)
    ensures WithoutEdge(WithoutHalves(t, gone), a, b) == WithoutHalves(t, gone + {(a, b), (b, a)})
  {
    WithoutEdgeIsWithoutHalves(WithoutHalves(t, gone), a, b);
    WithoutHalvesTwice(t, gone, {(a, b), (b, a)});
  }

  lemma ClearedIsIsolated(t: Topology, n: string, gone: set<(string, string)>)
    requires Clearing(t, n, gone, {})
    ensures WithoutHalves(t, gone) == Isolated(t, {n})
  {
    IsolatedByHalves(t, n, gone);
  }

  /**
  Isolating everything a node cannot reach keeps exactly the edges between nodes it can reach, and keeps
  what it can reach.
  */
  lemma PurgeLaw(t: Topology, self: string, lost: set<string>)
    requires WellFormed(t)
    requires forall n :: n in lost <==> n in t.nodes && !Connected(Neighbours(t), self, n)
    ensures WellFormed(Isolated(t, lost))
    ensures forall a, b :: HasEdge(Isolated(t, lost), a, b) <==>
              HasEdge(t, a, b) && Connected(Neighbours(t), self, a) && Connected(Neighbours(t), self, b)
    ensures forall n :: Connected(Neighbours(Isolated(t, lost)), self, n) <==> Connected(Neighbours(t), self, n)
  {
    var u := Isolated(t, lost);
    IsolatedWellFormed(t, lost);
    forall a, b
      ensures HasEdge(u, a, b) <==>
                HasEdge(t, a, b) && Connected(Neighbours(t), self, a) && Connected(Neighbours(t), self, b)
    {
      assert HasEdge(t, a, b) ==> HasEdge(t, b, a);
    }
    forall n ensures Connected(Neighbours(u), self, n) <==> Connected(Neighbours(t), self, n) {
      if Connected(Neighbours(u), self, n) { MoreLinksMorePaths(Neighbours(u), Neighbours(t), self, n); }
      if Connected(Neighbours(t), self, n) { PathAvoidsLost(t, self, lost, n); }
    }
  }

  lemma PathAvoidsLost(t: Topology, self: string, lost: set<string>, n: string)
    requires WellFormed(t)
    requires forall n :: n in lost ==> !Connected(Neighbours(t), self, n)
    requires Connected(Neighbours(t), self, n)
    ensures Connected(Neighbours(Isolated(t, lost)), self, n)
  {
    var links := Neighbours(t);
    var p :| IsPath(links, p) && p[0] == self && p[|p| - 1] == n;
    forall i | 0 <= i < |p| ensures p[i] !in lost {
      assert IsPath(links, p[..i + 1]);
      assert Connected(links, self, p[i]);
    }
    assert IsPath(Neighbours(Isolated(t, lost)), p);
  }
}
