/** Node names and the stable IDs of the facts a node announces. */
module Facts {
  import opened Separators

  /** What an announcement is about: the node itself, a link to a peer, or a subnet. */
  datatype Fact = HelloFact | EdgeFact(to: string) | SubnetFact(subnet: string)

  predicate IsNameRune(c: char) {
    'a' <= c <= 'z' || 'A' <= c <= 'Z' || '0' <= c <= '9' || c == '_'
  }

  predicate ValidName(name: string) {
    name != "" && forall c :: c in name ==> IsNameRune(c)
  }

  function FactId(origin: string, fact: Fact): string {
    match fact
    case HelloFact => origin + "/hello"
    case EdgeFact(to) => origin + "/edge/" + to
    case SubnetFact(subnet) => origin + "/subnet/" + subnet
  }

  /** The part of a stable ID after the origin and its slash. */
  function FactKey(fact: Fact): string {
    match fact
    case HelloFact => "hello"
    case EdgeFact(to) => "edge/" + to
    case SubnetFact(subnet) => "subnet/" + subnet
  }

  lemma FactIdSplits(origin: string, fact: Fact)
    ensures FactId(origin, fact) == origin + ['/'] + FactKey(fact)
  {
    assert "/hello" == ['/'] + "hello";
    assert "/edge/" == ['/'] + "edge/";
    assert "/subnet/" == ['/'] + "subnet/";
  }

  lemma FactKeyInjective(f: Fact, g: Fact)
    requires FactKey(f) == FactKey(g)
    ensures f == g
  {
    assert FactKey(f)[0] == FactKey(g)[0];
    match f
    case HelloFact =>
    case EdgeFact(to) => assert to == FactKey(f)[5..]; assert g.EdgeFact? ==> g.to == FactKey(g)[5..];
    case SubnetFact(subnet) =>
      assert subnet == FactKey(f)[7..]; assert g.SubnetFact? ==> g.subnet == FactKey(g)[7..];
  }

  /** Slash-free names keep the IDs of different facts apart, although subnets contain slashes. */
  lemma FactIdInjective(o: string, f: Fact, p: string, g: Fact)
    requires '/' !in o && '/' !in p
    requires FactId(o, f) == FactId(p, g)
    ensures o == p && f == g
  {
    FactIdSplits(o, f);
    FactIdSplits(p, g);
    CutIsUnique('/', o, FactKey(f), p, FactKey(g));
    FactKeyInjective(f, g);
  }

  /** The names the program accepts have no slash. */
  lemma ValidNameHasNoSlash(name: string)
    requires ValidName(name)
    ensures '/' !in name
  {
    assert !IsNameRune('/');
  }

  /** The name `p` is `o` followed by a slash and the kind, ending there or going on with a slash. */
  predicate Shadows(o: string, p: string, kind: string) {
    o + ['/'] + kind <= p && (|p| == |o| + 1 + |kind| || p[|o| + 1 + |kind|] == '/')
  }

  predicate Extends(o: string, p: string) {
    Shadows(o, p, "edge") || Shadows(o, p, "subnet")
  }

  ghost predicate Collide(o: string, p: string) {
    exists f, g :: FactId(o, f) == FactId(p, g)
  }

  /** One name keeps all its facts apart, whatever characters it has. */
  lemma FactsOfOneName(o: string, f: Fact, g: Fact)
    requires FactId(o, f) == FactId(o, g)
    ensures f == g
  {
    FactIdSplits(o, f);
    FactIdSplits(o, g);
    assert FactKey(f) == FactId(o, f)[|o| + 1..] && FactKey(g) == FactId(o, g)[|o| + 1..];
    FactKeyInjective(f, g);
  }

  /** Two cuts of one string: the part between the cuts starts the longer rest. */
  lemma Overlap(o: string, r: string, p: string, s: string)
    requires o + ['/'] + r == p + ['/'] + s && |o| < |p|
    ensures p == o + ['/'] + p[|o| + 1..]
    ensures |p[|o| + 1..]| < |r| && p[|o| + 1..] == r[..|p| - |o| - 1] && r[|p| - |o| - 1] == '/'
  {
    var all := o + ['/'] + r;
    assert all[..|p|] == p && all[|p|] == '/' && all[|o|] == '/' && all[..|o|] == o;
    assert r == all[|o| + 1..];
    assert p == p[..|o|] + [p[|o|]] + p[|o| + 1..];
    assert p[..|o|] == o;
  }

  lemma CollisionExtends(o: string, f: Fact, p: string, g: Fact)
    requires FactId(o, f) == FactId(p, g) && |o| <= |p| && o != p
    ensures Extends(o, p)
  {
    FactIdSplits(o, f);
    FactIdSplits(p, g);
    if |o| == |p| {
      SameLengthSame(o, FactKey(f), p, FactKey(g));
    }
    Overlap(o, FactKey(f), p, FactKey(g));
    KeyExtends(o, p, f);
  }

  lemma SameLengthSame(o: string, r: string, p: string, s: string)
    requires o + ['/'] + r == p + ['/'] + s && |o| == |p|
    ensures o == p
  {
    assert o == (o + ['/'] + r)[..|o|];
  }

  lemma KeyExtends(o: string, p: string, f: Fact)
    requires |o| < |p| && p == o + ['/'] + p[|o| + 1..] && |p[|o| + 1..]| < |FactKey(f)|
    requires p[|o| + 1..] == FactKey(f)[..|p| - |o| - 1] && FactKey(f)[|p| - |o| - 1] == '/'
    ensures Extends(o, p)
  {
    var r := p[|o| + 1..];
    match f
    case HelloFact =>
    case EdgeFact(to) =>
      KeyParts(f, "edge", to);
      RestExtends(o, p, r, "edge", to);
    case SubnetFact(subnet) =>
      KeyParts(f, "subnet", subnet);
      RestExtends(o, p, r, "subnet", subnet);
  }

  lemma KeyParts(f: Fact, kind: string, tail: string)
    requires (kind == "edge" && f == EdgeFact(tail)) || (kind == "subnet" && f == SubnetFact(tail))
    ensures FactKey(f) == kind + ['/'] + tail && '/' !in kind
  {
    assert "edge/" == "edge" + ['/'] && "subnet/" == "subnet" + ['/'];
  }

  lemma RestExtends(o: string, p: string, r: string, kind: string, tail: string)
    requires p == o + ['/'] + r && '/' !in kind
    requires var key := kind + ['/'] + tail; |r| < |key| && r == key[..|r|] && key[|r|] == '/'
    ensures Shadows(o, p, kind)
  {
    var key := kind + ['/'] + tail;
    assert forall i :: 0 <= i < |kind| ==> key[i] == kind[i] && kind[i] in kind;
    assert |r| >= |kind|;
    assert r[..|kind|] == kind;
    assert p[..|o| + 1 + |kind|] == o + ['/'] + kind;
  }

  lemma ExtensionTail(o: string, p: string, kind: string) returns (tail: string)
    requires Shadows(o, p, kind)
    ensures p + ['/'] + "hello" == o + ['/'] + (kind + ['/'] + tail)
  {
    var rest := p[|o| + 1 + |kind|..] + ['/'] + "hello";
    assert p == o + ['/'] + kind + p[|o| + 1 + |kind|..];
    assert rest[0] == '/';
    tail := rest[1..];
    assert rest == ['/'] + tail;
    assert p + ['/'] + "hello" == o + ['/'] + kind + rest;
  }

  /** The hello of a name that extends another one has the ID of a fact of that other one. */
  lemma ExtensionCollides(o: string, p: string) returns (f: Fact)
    requires Extends(o, p)
    ensures FactId(o, f) == FactId(p, HelloFact)
  {
    if Shadows(o, p, "edge") {
      var tail := ExtensionTail(o, p, "edge");
      f := EdgeFact(tail);
      assert FactKey(f) == "edge" + ['/'] + tail;
    } else {
      var tail := ExtensionTail(o, p, "subnet");
      f := SubnetFact(tail);
      assert FactKey(f) == "subnet" + ['/'] + tail;
    }
    FactIdSplits(o, f);
    FactIdSplits(p, HelloFact);
  }

  /** Two different names can have colliding IDs exactly when one extends the other by an edge or a subnet part. */
  lemma NamesCollideIff(o: string, p: string)
    requires o != p
    ensures Collide(o, p) <==> Extends(o, p) || Extends(p, o)
  {
    if Collide(o, p) {
      var f, g :| FactId(o, f) == FactId(p, g);
      if |o| <= |p| { CollisionExtends(o, f, p, g); } else { CollisionExtends(p, g, o, f); }
    }
    if Extends(o, p) { var f := ExtensionCollides(o, p); }
    if Extends(p, o) { var f := ExtensionCollides(p, o); }
  }
}
