/** The topology graph object, its breadth-first search and the removal of edges around it. */
module Graphs {
  import opened Paths
  import opened Topologies

  class Graph {
    var nodes: map<string, set<string>>
    var adj: map<string, map<string, Edge>>

    function View(): Topology
      reads this
    {
      Topology(nodes, adj)
    }

    ghost predicate Valid()
      reads this
    {
      WellFormed(View())
    }

    constructor ()
      ensures Valid() && View() == EMPTY
    {
      nodes, adj := map[], map[];
    }

    method AddNode(name: string)
      requires Valid()
      modifies this
      ensures Valid() && View() == WithNode(old(View()), name)
    {
      if name !in nodes {
        nodes := nodes[name := {}];
        adj := adj[name := map[]];
      }
    }

    method AddEdge(e: Edge)
      requires Valid()
      modifies this
      ensures Valid() && View() == WithEdge(old(View()), e)
    {
      WithEdgeLaw(View(), e);
      AddNode(e.from);
      AddNode(e.to);
      adj := adj[e.from := adj[e.from][e.to := e]];
      adj := adj[e.to := adj[e.to][e.from := Edge(e.to, e.from, e.weight)]];
    }

    method DelEdge(from: string, to: string)
      requires Valid()
      modifies this
      ensures Valid() && View() == WithoutEdge(old(View()), from, to)
    {
      WithoutEdgeLaw(View(), from, to);
      if from in adj {
        adj := adj[from := adj[from] - {to}];
      }
      if to in adj {
        adj := adj[to := adj[to] - {from}];
      }
    }

    method AddSubnet(owner: string, subnet: string)
      requires Valid()
      modifies this
      ensures Valid() && View() == WithSubnet(old(View()), owner, subnet)
    {
      AddNode(owner);
      nodes := nodes[owner := nodes[owner] + {subnet}];
    }

    method DelSubnet(owner: string, subnet: string)
      requires Valid()
      modifies this
      ensures Valid() && View() == WithoutSubnet(old(View()), owner, subnet)
    {
      PerformWellFormed(View(), OpDelSubnet(owner, subnet));
      if owner in nodes {
        nodes := nodes[owner := nodes[owner] - {subnet}];
      }
    }

    /** Breadth-first search: the result is everything joined to `start` by a path, and nothing if it is no node. */
    method Reachable(start: string) returns (visited: set<string>)
      requires Valid()
      ensures forall n :: n in visited <==> Connected(Neighbours(View()), start, n)
    {
      ghost var links := Neighbours(View());
      visited := {};
      if start !in nodes {
        return;
      }
      var queue := [start];
      visited := {start};
      ConnectedSelf(links, start);
      while queue != []
        invariant start in visited && visited <= links.Keys
        invariant forall n :: n in queue ==> n in visited
        invariant forall n :: n in visited ==> Connected(links, start, n)
        invariant forall n :: n in visited && n !in queue ==> links[n] <= visited
        decreases links.Keys - visited, |queue|
      {
        var n := queue[0];
        queue := queue[1..];
        visited, queue := Visit(n, adj[n].Keys, visited, queue, start);
      }
      forall n | Connected(links, start, n) ensures n in visited {
        ClosedContainsConnected(links, visited, start, n);
      }
    }

    /** The inner loop of the search: neighbours seen for the first time are marked and queued. */
    method Visit(n: string, neighbours: set<string>, visited0: set<string>, queue0: seq<string>, ghost start: string)
      returns (visited: set<string>, queue: seq<string>)
      requires Valid() && n in adj && neighbours == adj[n].Keys
      requires forall v :: v in visited0 ==> Connected(Neighbours(View()), start, v)
      requires n in visited0 && visited0 <= adj.Keys
      ensures visited == visited0 + neighbours && visited <= adj.Keys
      ensures forall v :: v in queue <==> v in queue0 || v in neighbours - visited0
      ensures forall v :: v in visited ==> Connected(Neighbours(View()), start, v)
      ensures visited == visited0 ==> queue == queue0
    {
      visited, queue := visited0, queue0;
      var todo := neighbours;
      while todo != {}
        invariant todo <= neighbours
        invariant visited == visited0 + (neighbours - todo)
        invariant forall v :: v in queue <==> v in queue0 || v in neighbours - todo - visited0
        invariant forall v :: v in visited ==> Connected(Neighbours(View()), start, v)
        invariant visited == visited0 ==> queue == queue0
        decreases todo
      {
        var next :| next in todo;
        todo := todo - {next};
        ConnectedStep(Neighbours(View()), start, n, next);
        if next !in visited {
          visited := visited + {next};
          queue := queue + [next];
        }
      }
      assert forall v :: v in neighbours ==> HasEdge(View(), n, v);
    }

    function Edges(): (es: set<Edge>)
      reads this
      requires Valid()
    {
      set a, b | a in adj && b in adj[a] :: adj[a][b]
    }

    /** Deletes every edge at a node, going through a snapshot of the edges. */
    method ClearEdgesOf(n: string)
      requires Valid()
      modifies this
      ensures Valid() && View() == Isolated(old(View()), {n})
    {
      ghost var t := View();
      var todo := Edges();
      ghost var gone: set<(string, string)> := {};
      WithoutNoHalves(t);
      while todo != {}
        invariant Valid() && View() == WithoutHalves(t, gone)
        invariant Clearing(t, n, gone, todo)
        decreases todo
      {
        var e :| e in todo;
        ClearingStep(t, n, gone, todo, e);
        todo := todo - {e};
        if e.from == n || e.to == n {
          WithoutOneMore(t, gone, e.from, e.to);
          DelEdge(e.from, e.to);
          gone := gone + {(e.from, e.to), (e.to, e.from)};
        }
      }
      ClearedIsIsolated(t, n, gone);
    }
  }

  /**
  The purge request: clears the edges of every node that `self` cannot reach. Afterwards exactly the edges
  between reachable nodes remain, unchanged, and `self` reaches what it reached before.
  */
  method Purge(g: Graph, self: string)
    requires g.Valid()
    modifies g
    ensures g.Valid() && g.nodes == old(g.nodes)
    ensures forall a, b :: HasEdge(g.View(), a, b) <==> old(HasEdge(g.View(), a, b)
                && Connected(Neighbours(g.View()), self, a) && Connected(Neighbours(g.View()), self, b))
    ensures forall a, b :: HasEdge(g.View(), a, b) ==> g.adj[a][b] == old(g.View()).adj[a][b]
    ensures forall n :: Connected(Neighbours(g.View()), self, n) <==> old(Connected(Neighbours(g.View()), self, n))
  {
    ghost var t := g.View();
    var reach := g.Reachable(self);
    var todo := g.nodes.Keys;
    ghost var lost: set<string> := {};
    IsolatedNone(t);
    while todo != {}
      invariant g.Valid() && g.View() == Isolated(t, lost)
      invariant todo <= t.nodes.Keys && lost == (t.nodes.Keys - todo) - reach
      decreases todo
    {
      var n :| n in todo;
      todo := todo - {n};
      if n !in reach {
        IsolatedTwice(t, lost, {n});
        g.ClearEdgesOf(n);
        lost := lost + {n};
      }
    }
    PurgeLaw(t, self, lost);
  }
}
