/** Paths over a neighbour map, shared by the topology graph and the connections of the control plane. */
module Paths {
  type Links = map<string, set<string>>

  ghost predicate Symmetric(links: Links) {
    forall a, b :: a in links && b in links[a] ==> b in links && a in links[b]
  }

  ghost predicate IsPath(links: Links, p: seq<string>) {
    && p != [] && p[0] in links
    && forall i :: 0 <= i < |p| - 1 ==> p[i] in links && p[i + 1] in links[p[i]]
  }

  ghost predicate Connected(links: Links, a: string, b: string) {
    exists p :: IsPath(links, p) && p[0] == a && p[|p| - 1] == b
  }

  lemma ConnectedSelf(links: Links, a: string)
    requires a in links
    ensures Connected(links, a, a)
  {
    assert IsPath(links, [a]);
  }

  lemma ConnectedStep(links: Links, a: string, b: string, c: string)
    requires Connected(links, a, b) && b in links && c in links[b]
    ensures Connected(links, a, c)
  {
    var p :| IsPath(links, p) && p[0] == a && p[|p| - 1] == b;
    assert IsPath(links, p + [c]);
  }

  /** A set closed under the links contains everything a path from it can reach. */
  lemma {:induction false} ClosedUnderPath(links: Links, s: set<string>, p: seq<string>)
    requires forall a, b :: a in s && a in links && b in links[a] ==> b in s
    requires IsPath(links, p) && p[0] in s
    ensures p[|p| - 1] in s
  {
    if |p| > 1 {
      var q := p[..|p| - 1];
      assert IsPath(links, q);
      ClosedUnderPath(links, s, q);
      assert p[|p| - 2 + 1] in links[p[|p| - 2]];
    }
  }

  lemma ClosedContainsConnected(links: Links, s: set<string>, a: string, b: string)
    requires forall x, y :: x in s && x in links && y in links[x] ==> y in s
    requires a in s && Connected(links, a, b)
    ensures b in s
  {
    var p :| IsPath(links, p) && p[0] == a && p[|p| - 1] == b;
    ClosedUnderPath(links, s, p);
  }

  lemma ConnectedTransitive(links: Links, a: string, b: string, c: string)
    requires Connected(links, a, b) && Connected(links, b, c)
    ensures Connected(links, a, c)
  {
    var p :| IsPath(links, p) && p[0] == a && p[|p| - 1] == b;
    var q :| IsPath(links, q) && q[0] == b && q[|q| - 1] == c;
    var r := p + q[1..];
    forall i | 0 <= i < |r| - 1 ensures r[i] in links && r[i + 1] in links[r[i]] {
      if i >= |p| - 1 {
        assert r[i] == q[i - |p| + 1];
        assert r[i + 1] == q[(i - |p| + 1) + 1];
      }
    }
    assert IsPath(links, r);
  }

  /** On a symmetric neighbour map a path can be walked backwards. */
  lemma {:induction false} PathReverses(links: Links, p: seq<string>)
    requires Symmetric(links) && IsPath(links, p)
    ensures Connected(links, p[|p| - 1], p[0])
    decreases |p|
  {
    if |p| == 1 {
      ConnectedSelf(links, p[0]);
    } else {
      var x, b := p[|p| - 2], p[|p| - 2 + 1];
      assert IsPath(links, p[..|p| - 1]);
      PathReverses(links, p[..|p| - 1]);
      assert b in links[x] && x in links[b];
      ConnectedSelf(links, b);
      ConnectedStep(links, b, b, x);
      ConnectedTransitive(links, b, x, p[0]);
    }
  }

  lemma ConnectedSymmetric(links: Links, a: string, b: string)
    requires Symmetric(links) && Connected(links, a, b)
    ensures Connected(links, b, a)
  {
    var p :| IsPath(links, p) && p[0] == a && p[|p| - 1] == b;
    PathReverses(links, p);
  }

  lemma MoreLinksMorePaths(few: Links, more: Links, a: string, b: string)
    requires forall x :: x in few ==> x in more && few[x] <= more[x]
    requires Connected(few, a, b)
    ensures Connected(more, a, b)
  {
    var p :| IsPath(few, p) && p[0] == a && p[|p| - 1] == b;
    assert IsPath(more, p);
  }

  /** The links that lead to a node of the set. */
  function Into(links: Links, nodes: set<string>): Links {
    map a | a in links :: links[a] * nodes
  }
}
