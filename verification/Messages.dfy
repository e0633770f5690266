/** Gossip envelopes after decoding, and the five announcements that mint them. */
module Messages {
  import opened Addresses
  import opened Facts
  import opened Results

  type EdKey = string

  /** A hello as its receiver reads it: keys and addresses that do not parse are absent. */
  datatype Hello = Hello(name: string, edKey: Option<EdKey>, endpoint: string, inner: Option<Addr>,
                         underlay: Option<Addr>)

  /** The kind of an envelope together with what its payload decodes to under that kind. */
  datatype Body =
    | AddNode(hello: Hello)
    | DelNode(hello: Hello)
    | AddEdge(from: string, to: string, weight: int)
    | DelEdge(from: string, to: string)
    | AddSubnet(owner: string, subnet: string)
    | DelSubnet(owner: string, subnet: string)
    | Undecodable  // a handled kind whose payload does not decode
    | Unhandled    // hello, ping, pong and unknown kinds

  datatype Message = Message(id: string, origin: string, body: Body, ts: int, signature: string)

  datatype Announcement =
    | SayHello(hello: Hello)
    | SayAddEdge(to: string, weight: int)
    | SayDelEdge(to: string)
    | SayAddSubnet(subnet: string)
    | SayDelSubnet(subnet: string)

  /** What an announcement is about; Add and Del of one thing are about the same fact. */
  function FactOf(a: Announcement): Fact {
    match a
    case SayHello(_) => HelloFact
    case SayAddEdge(to, _) => EdgeFact(to)
    case SayDelEdge(to) => EdgeFact(to)
    case SayAddSubnet(s) => SubnetFact(s)
    case SayDelSubnet(s) => SubnetFact(s)
  }

  function BodyOf(name: string, a: Announcement): Body {
    match a
    case SayHello(h) => AddNode(h)
    case SayAddEdge(to, w) => AddEdge(name, to, w)
    case SayDelEdge(to) => DelEdge(name, to)
    case SayAddSubnet(s) => AddSubnet(name, s)
    case SayDelSubnet(s) => DelSubnet(name, s)
  }

  /** What the ID of an announcement looks like: it names what is announced and not whether that comes or goes. */
  predicate Stable(name: string, a: Announcement, id: string) {
    match a
    case SayHello(_) => id == name + "/hello"
    case SayAddEdge(to, _) => id == name + "/edge/" + to
    case SayDelEdge(to) => id == name + "/edge/" + to
    case SayAddSubnet(s) => id == name + "/subnet/" + s
    case SayDelSubnet(s) => id == name + "/subnet/" + s
  }

  /** The envelope a node mints for an announcement. */
  function Mint(name: string, a: Announcement, ts: int, signature: string): Message {
    Message(FactId(name, FactOf(a)), name, BodyOf(name, a), ts, signature)
  }

  /** The envelope was minted by one of the five announcements of a node with a slash-free name. */
  ghost predicate Honest(m: Message) {
    '/' !in m.origin && exists a :: m == Mint(m.origin, a, m.ts, m.signature)
  }

  predicate IsSubnetBody(b: Body) {
    b.AddSubnet? || b.DelSubnet?
  }

  function SubnetId(owner: string, subnet: string): string {
    FactId(owner, SubnetFact(subnet))
  }

  /** An honest envelope under the ID of a subnet fact speaks about that subnet, and no other honest one does. */
  lemma HonestSubnetId(m: Message, owner: string, subnet: string)
    requires Honest(m) && '/' !in owner
    ensures m.id == SubnetId(owner, subnet) <==>
              m.body == AddSubnet(owner, subnet) || m.body == DelSubnet(owner, subnet)
    ensures m.id == SubnetId(owner, subnet) ==> m.origin == owner
  {
    var a :| m == Mint(m.origin, a, m.ts, m.signature);
    if m.id == SubnetId(owner, subnet) {
      FactIdInjective(m.origin, FactOf(a), owner, SubnetFact(subnet));
    }
  }

  /** Honest envelopes share the ID of a subnet envelope exactly when they are about the same subnet. */
  lemma HonestSameId(m: Message, n: Message, owner: string, subnet: string)
    requires Honest(m) && Honest(n)
    requires m.body == AddSubnet(owner, subnet) || m.body == DelSubnet(owner, subnet)
    ensures m.id == n.id <==> n.body == AddSubnet(owner, subnet) || n.body == DelSubnet(owner, subnet)
  {
    HonestSubnetId(m, m.origin, subnet);
    HonestSubnetId(n, m.origin, subnet);
  }

  /** Honest envelopes under one ID have one origin. */
  lemma HonestSameOrigin(m: Message, n: Message)
    requires Honest(m) && Honest(n) && m.id == n.id
    ensures m.origin == n.origin
  {
    var a :| m == Mint(m.origin, a, m.ts, m.signature);
    var b :| n == Mint(n.origin, b, n.ts, n.signature);
    FactIdInjective(m.origin, FactOf(a), n.origin, FactOf(b));
  }
}
