/**
The network again, now with whole planes: every node runs the announcements and the serial Receive of its
plane. Its tables move as the flood model says, and its subnets end up where their owners put them.
*/
module Convergence {
  import opened Claims
  import opened Facts
  import opened Flood
  import opened Ledgers
  import opened Messages
  import opened Paths
  import opened Planes
  import opened Reach
  import opened Repairs
  import opened Results
  import Rewiring
  import opened Topologies
  import opened Transports

  datatype World = World(
    links: Links,
    planes: map<string, PlaneView>,
    pending: multiset<Packet>,
    flight: multiset<Packet>,
    minted: set<Message>)

  datatype Act =
    | Announce(node: string, a: Announcement, ts: int, signature: string)
    | Write(p: Packet)
    | Receive(p: Packet)
    | Beat(node: string)
    | Drop(p: Packet)
    | Connect(node: string, peer: string)
    | Hangup(node: string, peer: string)

  /** Everything but a change of the connections. */
  predicate IsGossip(act: Act) {
    !act.Connect? && !act.Hangup?
  }

  /** The key lookups and signature checks of the nodes. */
  type Auths = string -> Auth

  function PlaneAt(w: World, n: string): PlaneView {
    if n in w.planes then w.planes[n] else NewPlane(n)
  }

  predicate Ready(w: World, act: Act) {
    match act
    case Announce(n, _, _, _) => n in w.links
    case Write(p) => p in w.pending
    case Receive(p) => p in w.flight
    case Beat(n) => n in w.links
    case Drop(p) => p in w.flight
    case Connect(a, b) => a in w.links && b in w.links && a != b
    case Hangup(a, b) => a in w.links && b in w.links
  }

  function Minted(act: Act): Message
    requires act.Announce?
  {
    Mint(act.node, act.a, act.ts, act.signature)
  }

  function Sending(w: World, n: string, m: Message): World {
    w.(pending := w.pending + multiset(Fanout(n, if n in w.links then w.links[n] else {}, m)))
  }

  function Installed(w: World, n: string, v: PlaneView): World {
    w.(planes := w.planes[n := v])
  }

  ghost function Done(auths: Auths, w: World, act: Act): World {
    match act
    case Announce(n, _, _, _) =>
      var m := Minted(act);
      Sending(Installed(w, n, Originated(PlaneAt(w, n), m)).(minted := w.minted + {m}), n, m)
    case Write(p) => w.(pending := w.pending - multiset{p}, flight := w.flight + multiset{p})
    case Receive(p) =>
      var v := PlaneAt(w, p.to);
      var w1 := Installed(w, p.to, Received(auths(p.to), v, p.msg)).(flight := w.flight - multiset{p});
      if Accepts(auths(p.to), v, p.msg) then Sending(w1, p.to, p.msg) else w1
    case Beat(n) => w.(pending := w.pending + multiset(OutboxPackets(NetOf(w), n)))
    case Drop(p) => w.(flight := w.flight - multiset{p})
    case Connect(a, b) => w.(links := Rewiring.Joined(w.links, a, b))
    case Hangup(a, b) => w.(links := Rewiring.Parted(w.links, a, b))
  }

  function Each<V, W>(m: map<string, V>, f: V -> W): map<string, W> {
    map n | n in m :: f(m[n])
  }

  function SeenIn(v: PlaneView): Seen { v.seen }

  function OutboxIn(v: PlaneView): map<string, Message> { v.outbox }

  /** The tables and packets of the world. */
  function NetOf(w: World): Net {
    Net(w.links, Each(w.planes, SeenIn), Each(w.planes, OutboxIn), w.pending, w.flight, w.minted)
  }

  lemma EachUpdated<V, W>(m: map<string, V>, f: V -> W, n: string, v: V)
    ensures Each(m[n := v], f) == Each(m, f)[n := f(v)]
  {}

  /** The step of the flood model that an act is. */
  ghost function StepOf(auths: Auths, w: World, act: Act): Step
    requires IsGossip(act)
  {
    match act
    case Announce(_, _, _, _) => Originate(Minted(act))
    case Write(p) => Transmit(p)
    case Receive(p) => Deliver(p, Verifies(auths(p.to), PlaneAt(w, p.to), p.msg))
    case Beat(n) => Resend(n)
    case Drop(p) => Lose(p)
  }

  lemma TablesOfNet(w: World, n: string)
    ensures SeenAt(NetOf(w), n) == PlaneAt(w, n).seen && OutboxAt(NetOf(w), n) == PlaneAt(w, n).outbox
  {}

  ghost predicate Housed(w: World) {
    && w.planes.Keys == w.links.Keys
    && forall n :: n in w.planes ==> w.planes[n].name == n && '/' !in n
  }

  lemma InstalledNet(w: World, n: string, v: PlaneView)
    requires Housed(w) && n in w.links && v.name == n
    ensures NetOf(Installed(w, n, v)) ==
              NetOf(w).(seen := NetOf(w).seen[n := v.seen], outbox := NetOf(w).outbox[n := v.outbox])
    ensures Housed(Installed(w, n, v))
  {
    EachUpdated(w.planes, SeenIn, n, v);
    EachUpdated(w.planes, OutboxIn, n, v);
  }

  lemma AnnounceRefines(auths: Auths, w: World, act: Act)
    requires Housed(w) && Ready(w, act) && act.Announce?
    ensures NetOf(Done(auths, w, act)) == After(NetOf(w), StepOf(auths, w, act))
    ensures Housed(Done(auths, w, act))
  {
    var n, m, v := act.node, Minted(act), w.planes[act.node];
    OriginatedLedger(v, m);
    InstalledNet(w, n, Originated(v, m));
  }

  lemma ReceiveRefines(auths: Auths, w: World, act: Act)
    requires Housed(w) && Ready(w, act) && act.Receive? && act.p.to in w.links
    ensures NetOf(Done(auths, w, act)) == After(NetOf(w), StepOf(auths, w, act))
    ensures Housed(Done(auths, w, act))
  {
    var p, v := act.p, w.planes[act.p.to];
    ReceivedLedger(auths(p.to), v, p.msg);
    InstalledNet(w, p.to, Received(auths(p.to), v, p.msg));
    SameValue(NetOf(w).outbox, p.to, v.outbox);
    SameValue(NetOf(w).seen, p.to, v.seen);
    if Accepts(auths(p.to), v, p.msg) {
      TakenNet(auths, w, p);
    }
  }

  lemma SameValue<V>(m: map<string, V>, n: string, v: V)
    requires n in m && m[n] == v
    ensures m[n := v] == m
  {}

  lemma TakenNet(auths: Auths, w: World, p: Packet)
    requires Housed(w) && p.to in w.links && Accepts(auths(p.to), w.planes[p.to], p.msg)
    ensures LedgerOf(Received(auths(p.to), w.planes[p.to], p.msg)).seen == SeenAt(NetOf(w), p.to)[p.msg.id := p.msg.ts]
    ensures LedgerOf(Received(auths(p.to), w.planes[p.to], p.msg)).outbox == w.planes[p.to].outbox
  {
    TablesOfNet(w, p.to);
    ReceivedLedger(auths(p.to), w.planes[p.to], p.msg);
  }

  /** Each act of the planes, but for a change of connections, is one step of the flood model. */
  lemma ActRefines(auths: Auths, w: World, act: Act)
    requires Housed(w) && Accounted(NetOf(w)) && Ready(w, act) && IsGossip(act)
    ensures Enabled(NetOf(w), StepOf(auths, w, act))
    ensures NetOf(Done(auths, w, act)) == After(NetOf(w), StepOf(auths, w, act))
    ensures Housed(Done(auths, w, act))
  {
    match act
    case Announce(_, _, _, _) => AnnounceRefines(auths, w, act);
    case Write(p) =>
    case Receive(p) =>
      assert p in Transit(NetOf(w));
      ReceiveRefines(auths, w, act);
    case Beat(n) =>
    case Drop(p) =>
  }

  /** A node stamps each announcement newer than what it has seen. */
  ghost predicate Stamped(w: World, act: Act) {
    act.Announce? ==> Newer(PlaneAt(w, act.node).seen, StampOf(Minted(act)))
  }

  /**
  Under one ID: exactly the nodes in `able` verify what they receive, and nothing is lost. Connections stay as they are;
  what happens under other IDs is free.
  */
  ghost predicate Proper(auths: Auths, able: set<string>, id: string, w: World, act: Act) {
    && IsGossip(act) && (act.Drop? ==> act.p.msg.id != id)
    && (act.Receive? && act.p.msg.id == id ==>
          (Verifies(auths(act.p.to), PlaneAt(w, act.p.to), act.p.msg) <==> act.p.to in able))
  }

  lemma ProperIsSound(auths: Auths, able: set<string>, id: string, w: World, act: Act)
    requires Stamped(w, act) && Proper(auths, able, id, w, act)
    ensures Sound(able, id, NetOf(w), StepOf(auths, w, act))
  {
    if act.Announce? { StampedIsClockOk(w, act); }
  }

  lemma StampedIsClockOk(w: World, act: Act)
    requires Stamped(w, act) && act.Announce?
    ensures ClockOk(NetOf(w), Minted(act))
  {
    TablesOfNet(w, act.node);
  }

  ghost function Play(auths: Auths, w: World, acts: seq<Act>): World {
    if acts == [] then w else Done(auths, Play(auths, w, acts[..|acts| - 1]), acts[|acts| - 1])
  }

  /** Losses and failed verifications may happen. */
  ghost predicate Playable(auths: Auths, w: World, acts: seq<Act>) {
    acts == [] ||
    (&& Playable(auths, w, acts[..|acts| - 1])
     && Ready(Play(auths, w, acts[..|acts| - 1]), acts[|acts| - 1])
     && Stamped(Play(auths, w, acts[..|acts| - 1]), acts[|acts| - 1]))
  }

  ghost predicate AllProper(auths: Auths, able: set<string>, id: string, w: World, acts: seq<Act>) {
    acts == [] ||
    (&& AllProper(auths, able, id, w, acts[..|acts| - 1])
     && Proper(auths, able, id, Play(auths, w, acts[..|acts| - 1]), acts[|acts| - 1]))
  }

  ghost predicate NewWorld(w: World) {
    && Symmetric(w.links) && Housed(w) && (forall n :: n in w.planes ==> w.planes[n] == NewPlane(n))
    && w.pending == multiset{} && w.flight == multiset{} && w.minted == {}
  }

  // What every world reached keeps

  ghost predicate AllHonest(w: World) {
    forall m :: m in w.minted ==> Honest(m)
  }

  /** No two envelopes share ID and time stamp. */
  ghost predicate StampsUnique(w: World) {
    forall m, n :: m in w.minted && n in w.minted && StampOf(m) == StampOf(n) ==> m == n
  }

  /** The outbox entry of an ID is the newest its owner has seen, and every minted ID has one. */
  ghost predicate OutboxLeads(w: World) {
    && (forall n, id :: n in w.links && id in PlaneAt(w, n).outbox ==>
          id in PlaneAt(w, n).seen && PlaneAt(w, n).seen[id] == PlaneAt(w, n).outbox[id].ts)
    && (forall m :: m in w.minted ==> m.id in PlaneAt(w, m.origin).outbox)
  }

  /** The envelope adds the subnet and is the newest the ledger has of its ID. */
  ghost predicate Shows(minted: set<Message>, l: Ledger, m: Message, owner: string, subnet: string) {
    m in minted && m.body == AddSubnet(owner, subnet) && m.id in l.seen && l.seen[m.id] == m.ts
  }

  /** A ledger holds a subnet exactly when the newest envelope it has about it adds it. */
  ghost predicate LedgerRight(minted: set<Message>, l: Ledger) {
    forall o, s :: (o, s) in l.held <==> exists m :: Shows(minted, l, m, o, s)
  }

  ghost predicate LedgersRight(w: World) {
    forall n :: n in w.links ==> LedgerRight(w.minted, LedgerOf(PlaneAt(w, n)))
  }

  ghost predicate Leading(w: World) {
    forall m :: m in w.minted ==> Has(NetOf(w), m.origin, StampOf(m))
  }

  ghost predicate Converging(w: World) {
    && Housed(w) && Accounted(NetOf(w)) && Leading(w)
    && AllHonest(w) && StampsUnique(w) && OutboxLeads(w) && LedgersRight(w)
  }

  /** Recording an honest envelope, strictly newer than the entry of its ID, keeps the ledger right. */
  lemma RecordingKeepsRight(minted: set<Message>, l: Ledger, m: Message, l': Ledger)
    requires LedgerRight(minted, l) && m in minted
    requires forall x :: x in minted ==> Honest(x)
    requires forall x, y :: x in minted && y in minted && StampOf(x) == StampOf(y) ==> x == y
    requires l'.seen == l.seen[m.id := m.ts] && l'.held == Posted(l.held, m.body)
    ensures LedgerRight(minted, l')
  {
    forall o, s ensures (o, s) in l'.held <==> exists x :: Shows(minted, l', x, o, s) {
      RecordingAt(minted, l, m, l', o, s);
    }
  }

  lemma RecordingAt(minted: set<Message>, l: Ledger, m: Message, l': Ledger, o: string, s: string)
    requires LedgerRight(minted, l) && m in minted
    requires forall x :: x in minted ==> Honest(x)
    requires forall x, y :: x in minted && y in minted && StampOf(x) == StampOf(y) ==> x == y
    requires l'.seen == l.seen[m.id := m.ts] && l'.held == Posted(l.held, m.body)
    ensures (o, s) in l'.held <==> exists x :: Shows(minted, l', x, o, s)
  {
    if m.body == AddSubnet(o, s) {
      assert Shows(minted, l', m, o, s);
    } else {
      forall x | x in minted && x.body == AddSubnet(o, s)
        ensures Shows(minted, l', x, o, s) <==> Shows(minted, l, x, o, s) && m.body != DelSubnet(o, s)
      {
        HonestSameId(x, m, o, s);
      }
    }
  }

  /** An announcement gets a stamp no envelope had before. */
  lemma StampIsNew(w: World, m: Message)
    requires Converging(w) && Honest(m) && Newer(PlaneAt(w, m.origin).seen, StampOf(m))
    ensures forall x :: x in w.minted ==> StampOf(x) != StampOf(m)
    ensures forall n, id :: n in w.links && id in PlaneAt(w, n).seen ==> Stamp(id, PlaneAt(w, n).seen[id]) != StampOf(m)
  {
    forall x | x in w.minted ensures StampOf(x) != StampOf(m) {
      if x.id == m.id {
        HonestSameOrigin(x, m);
        TablesOfNet(w, m.origin);
        assert Has(NetOf(w), x.origin, StampOf(x));
      }
    }
    forall n, id | n in w.links && id in PlaneAt(w, n).seen
      ensures Stamp(id, PlaneAt(w, n).seen[id]) != StampOf(m)
    {
      TablesOfNet(w, n);
      assert MintedAnywhere(NetOf(w), Stamp(id, PlaneAt(w, n).seen[id]));
    }
  }

  /** An envelope nobody has seen changes no ledger. */
  lemma MintingKeepsRight(minted: set<Message>, m: Message, l: Ledger)
    requires LedgerRight(minted, l)
    requires forall id :: id in l.seen ==> Stamp(id, l.seen[id]) != StampOf(m)
    ensures LedgerRight(minted + {m}, l)
  {
    forall o, s ensures (o, s) in l.held <==> exists x :: Shows(minted + {m}, l, x, o, s) {
      assert forall x :: Shows(minted + {m}, l, x, o, s) <==> Shows(minted, l, x, o, s);
    }
  }

  lemma MintedHonest(act: Act)
    requires act.Announce? && '/' !in act.node
    ensures Honest(Minted(act)) && Minted(act).origin == act.node
  {}

  /** The world after `m` was minted, as the ledgers see it. */
  ghost predicate MintsTo(w: World, m: Message, w': World) {
    && w'.links == w.links && w'.minted == w.minted + {m} && m.origin in w.links
    && LedgerOf(PlaneAt(w', m.origin)) == Entered(LedgerOf(PlaneAt(w, m.origin)), m)
    && forall n :: n in w.links && n != m.origin ==> LedgerOf(PlaneAt(w', n)) == LedgerOf(PlaneAt(w, n))
  }

  /** The world after `n` took `m` from the wire, as the ledgers see it. */
  ghost predicate TakesTo(w: World, n: string, m: Message, w': World) {
    && w'.links == w.links && w'.minted == w.minted
    && LedgerOf(PlaneAt(w', n)) == Taken(LedgerOf(PlaneAt(w, n)), m)
    && forall k :: k in w.links && k != n ==> LedgerOf(PlaneAt(w', k)) == LedgerOf(PlaneAt(w, k))
  }

  lemma AnnounceMints(auths: Auths, w: World, act: Act)
    requires Housed(w) && Ready(w, act) && act.Announce?
    ensures MintsTo(w, Minted(act), Done(auths, w, act))
  {
    OriginatedLedger(PlaneAt(w, act.node), Minted(act));
  }

  lemma ReceiveTakes(auths: Auths, w: World, act: Act)
    requires Ready(w, act) && act.Receive? && Verifies(auths(act.p.to), PlaneAt(w, act.p.to), act.p.msg)
    ensures TakesTo(w, act.p.to, act.p.msg, Done(auths, w, act))
  {
    ReceivedLedger(auths(act.p.to), PlaneAt(w, act.p.to), act.p.msg);
  }

  lemma MintingLedgers(w: World, m: Message, w': World)
    requires AllHonest(w) && StampsUnique(w) && LedgersRight(w) && Honest(m) && MintsTo(w, m, w')
    requires forall x :: x in w.minted ==> StampOf(x) != StampOf(m)
    requires forall n, id :: n in w.links && id in PlaneAt(w, n).seen ==>
               Stamp(id, PlaneAt(w, n).seen[id]) != StampOf(m)
    ensures AllHonest(w') && StampsUnique(w') && LedgersRight(w')
  {
    forall n | n in w'.links ensures LedgerRight(w'.minted, LedgerOf(PlaneAt(w', n))) {
      MintingKeepsRight(w.minted, m, LedgerOf(PlaneAt(w, n)));
      if n == m.origin {
        RecordingKeepsRight(w'.minted, LedgerOf(PlaneAt(w, n)), m, LedgerOf(PlaneAt(w', n)));
      }
    }
  }

  lemma MintingOutbox(w: World, m: Message, w': World)
    requires OutboxLeads(w) && MintsTo(w, m, w') && forall x :: x in w.minted ==> x.origin in w.links
    ensures OutboxLeads(w')
  {
    forall n, id | n in w'.links && id in PlaneAt(w', n).outbox
      ensures id in PlaneAt(w', n).seen && PlaneAt(w', n).seen[id] == PlaneAt(w', n).outbox[id].ts
    {
      var l, l' := LedgerOf(PlaneAt(w, n)), LedgerOf(PlaneAt(w', n));
      assert l' == Entered(l, m) || l' == l;
    }
    forall x | x in w'.minted ensures x.id in PlaneAt(w', x.origin).outbox {
      var l, l' := LedgerOf(PlaneAt(w, x.origin)), LedgerOf(PlaneAt(w', x.origin));
      assert l' == Entered(l, m) || l' == l;
    }
  }

  lemma TakingLedgers(w: World, n: string, m: Message, w': World)
    requires LedgersRight(w) && AllHonest(w) && StampsUnique(w) && TakesTo(w, n, m, w') && m in w.minted
    ensures LedgersRight(w')
  {
    forall k | k in w'.links ensures LedgerRight(w'.minted, LedgerOf(PlaneAt(w', k))) {
      var l, l' := LedgerOf(PlaneAt(w, k)), LedgerOf(PlaneAt(w', k));
      if l' != l {
        RecordingKeepsRight(w.minted, l, m, l');
      }
    }
  }

  /** A node never takes a newer envelope under an ID of its own. */
  lemma OwnIdsNotTaken(w: World, n: string, m: Message)
    requires Converging(w) && n in w.links && m in w.minted && m.id in PlaneAt(w, n).outbox
    ensures !Newer(PlaneAt(w, n).seen, StampOf(m))
  {
    TablesOfNet(w, n);
    assert PlaneAt(w, n).outbox[m.id] in w.minted;
    HonestSameOrigin(PlaneAt(w, n).outbox[m.id], m);
    assert Has(NetOf(w), n, StampOf(m));
  }

  lemma TakingOutbox(w: World, n: string, m: Message, w': World)
    requires OutboxLeads(w) && TakesTo(w, n, m, w') && forall x :: x in w.minted ==> x.origin in w.links
    requires m.id in PlaneAt(w, n).outbox ==> !Newer(PlaneAt(w, n).seen, StampOf(m))
    ensures OutboxLeads(w')
  {
    forall k, id | k in w'.links && id in PlaneAt(w', k).outbox
      ensures id in PlaneAt(w', k).seen && PlaneAt(w', k).seen[id] == PlaneAt(w', k).outbox[id].ts
    {
      var l, l' := LedgerOf(PlaneAt(w, k)), LedgerOf(PlaneAt(w', k));
      assert l'.outbox == l.outbox;
    }
    forall x | x in w'.minted ensures x.id in PlaneAt(w', x.origin).outbox {
      assert LedgerOf(PlaneAt(w', x.origin)).outbox == LedgerOf(PlaneAt(w, x.origin)).outbox;
    }
  }

  lemma AnnounceKeepsConverging(auths: Auths, w: World, act: Act)
    requires Converging(w) && Ready(w, act) && Stamped(w, act) && act.Announce?
    ensures var w' := Done(auths, w, act); AllHonest(w') && StampsUnique(w') && OutboxLeads(w') && LedgersRight(w')
  {
    MintedHonest(act);
    AnnounceMints(auths, w, act);
    StampIsNew(w, Minted(act));
    MintingLedgers(w, Minted(act), Done(auths, w, act));
    MintingOutbox(w, Minted(act), Done(auths, w, act));
  }

  lemma ReceiveKeepsConverging(auths: Auths, w: World, act: Act)
    requires Converging(w) && Ready(w, act) && act.Receive?
    requires Verifies(auths(act.p.to), PlaneAt(w, act.p.to), act.p.msg)
    ensures var w' := Done(auths, w, act); AllHonest(w') && StampsUnique(w') && OutboxLeads(w') && LedgersRight(w')
  {
    assert act.p in Transit(NetOf(w));
    ReceiveTakes(auths, w, act);
    TakingLedgers(w, act.p.to, act.p.msg, Done(auths, w, act));
    if act.p.msg.id in PlaneAt(w, act.p.to).outbox { OwnIdsNotTaken(w, act.p.to, act.p.msg); }
    TakingOutbox(w, act.p.to, act.p.msg, Done(auths, w, act));
  }

  /** The planes stay as they are. */
  lemma SamePlanesKeep(w: World, w': World)
    requires AllHonest(w) && StampsUnique(w) && OutboxLeads(w) && LedgersRight(w)
    requires w'.links == w.links && w'.minted == w.minted && forall n :: PlaneAt(w', n) == PlaneAt(w, n)
    ensures AllHonest(w') && StampsUnique(w') && OutboxLeads(w') && LedgersRight(w')
  {}

  predicate Idle(auths: Auths, w: World, act: Act) {
    !act.Announce? && (act.Receive? ==> !Verifies(auths(act.p.to), PlaneAt(w, act.p.to), act.p.msg))
  }

  lemma RelinkedNet(w: World, links: Links)
    ensures NetOf(w.(links := links)) == NetOf(w).(links := links)
  {}

  lemma RelinkedHas(s: Net, links: Links, n: string, st: Stamp)
    ensures Has(s.(links := links), n, st) <==> Has(s, n, st)
  {}

  lemma RelinkedLeads(w: World, links: Links)
    requires Leading(w)
    ensures Leading(w.(links := links))
  {
    RelinkedNet(w, links);
    forall m | m in w.minted ensures Has(NetOf(w).(links := links), m.origin, StampOf(m)) {
      RelinkedHas(NetOf(w), links, m.origin, StampOf(m));
    }
  }

  lemma RelinkedIsAccounted(w: World, links: Links)
    requires Accounted(NetOf(w)) && Symmetric(links) && links.Keys == w.links.Keys
    ensures Accounted(NetOf(w.(links := links)))
  {
    RelinkedNet(w, links);
    Rewiring.RelinkedAccounted(NetOf(w), links);
  }

  lemma RelinkedLedgers(w: World, links: Links)
    requires OutboxLeads(w) && LedgersRight(w) && links.Keys == w.links.Keys
    ensures OutboxLeads(w.(links := links)) && LedgersRight(w.(links := links))
  {
    var w' := w.(links := links);
    assert forall n :: PlaneAt(w', n) == PlaneAt(w, n);
    forall n | n in w'.links ensures LedgerRight(w'.minted, LedgerOf(PlaneAt(w', n))) { assert n in w.links; }
  }

  lemma RelinkedKeeps(w: World, links: Links)
    requires Converging(w) && Symmetric(links) && links.Keys == w.links.Keys
    ensures Converging(w.(links := links))
  {
    RelinkedLeads(w, links);
    RelinkedIsAccounted(w, links);
    RelinkedLedgers(w, links);
  }

  lemma IdleKeepsPlanes(auths: Auths, w: World, act: Act)
    requires Idle(auths, w, act) && IsGossip(act)
    ensures var w' := Done(auths, w, act);
            w'.links == w.links && w'.minted == w.minted && forall n :: PlaneAt(w', n) == PlaneAt(w, n)
  {
    if act.Receive? {
      RejectKeepsPlanes(auths, w, act.p);
    } else {
      SamePlanes(auths, w, act);
      forall n ensures PlaneAt(Done(auths, w, act), n) == PlaneAt(w, n) { SamePlaneAt(w, Done(auths, w, act), n); }
    }
  }

  lemma RejectKeepsPlanes(auths: Auths, w: World, p: Packet)
    requires !Verifies(auths(p.to), PlaneAt(w, p.to), p.msg)
    ensures Done(auths, w, Receive(p)) == Installed(w, p.to, PlaneAt(w, p.to)).(flight := w.flight - multiset{p})
    ensures forall n :: PlaneAt(Installed(w, p.to, PlaneAt(w, p.to)), n) == PlaneAt(w, n)
  {
    assert !Accepts(auths(p.to), PlaneAt(w, p.to), p.msg);
  }

  lemma LedgersKept(auths: Auths, w: World, act: Act)
    requires Converging(w) && Ready(w, act) && Stamped(w, act) && IsGossip(act)
    ensures var w' := Done(auths, w, act); AllHonest(w') && StampsUnique(w') && OutboxLeads(w') && LedgersRight(w')
  {
    if Idle(auths, w, act) {
      IdleKeepsPlanes(auths, w, act);
      SamePlanesKeep(w, Done(auths, w, act));
    } else if act.Announce? {
      AnnounceKeepsConverging(auths, w, act);
    } else {
      ReceiveKeepsConverging(auths, w, act);
    }
  }

  lemma LeadingKept(auths: Auths, w: World, act: Act)
    requires Leading(w) && Stamped(w, act) && IsGossip(act)
    requires NetOf(Done(auths, w, act)) == After(NetOf(w), StepOf(auths, w, act))
    ensures Leading(Done(auths, w, act))
  {
    if act.Announce? { StampedIsClockOk(w, act); }
    AllLeadKept(NetOf(w), StepOf(auths, w, act));
  }

  lemma AllLeadKept(s: Net, step: Step)
    requires (forall m :: m in s.minted ==> Has(s, m.origin, StampOf(m))) && (step.Originate? ==> ClockOk(s, step.msg))
    ensures forall m :: m in After(s, step).minted ==> Has(After(s, step), m.origin, StampOf(m))
  {
    forall m | m in After(s, step).minted ensures Has(After(s, step), m.origin, StampOf(m)) {
      if m in s.minted { HasKept(s, step, m.origin, StampOf(m)); }
    }
  }

  lemma GossipKeepsConverging(auths: Auths, w: World, act: Act)
    requires Converging(w) && Ready(w, act) && Stamped(w, act) && IsGossip(act)
    ensures Converging(Done(auths, w, act))
  {
    LedgersKept(auths, w, act);
    ActRefines(auths, w, act);
    AccountedAfter(NetOf(w), StepOf(auths, w, act));
    LeadingKept(auths, w, act);
  }

  /** Every act keeps the world converging: losses, envelopes that do not verify, and changes of connections. */
  lemma ActKeepsConverging(auths: Auths, w: World, act: Act)
    requires Converging(w) && Ready(w, act) && Stamped(w, act)
    ensures Converging(Done(auths, w, act))
  {
    if act.Connect? {
      Rewiring.JoinedIsSymmetric(w.links, act.node, act.peer);
      RelinkedKeeps(w, Rewiring.Joined(w.links, act.node, act.peer));
    } else if act.Hangup? {
      Rewiring.PartedIsSymmetric(w.links, act.node, act.peer);
      RelinkedKeeps(w, Rewiring.Parted(w.links, act.node, act.peer));
    } else {
      GossipKeepsConverging(auths, w, act);
    }
  }

  lemma {:induction false} PlayConverges(auths: Auths, w: World, acts: seq<Act>)
    requires Converging(w) && Playable(auths, w, acts)
    ensures Converging(Play(auths, w, acts))
  {
    if acts != [] {
      var before := acts[..|acts| - 1];
      PlayConverges(auths, w, before);
      ActKeepsConverging(auths, Play(auths, w, before), acts[|acts| - 1]);
    }
  }

  lemma NewWorldConverging(w: World)
    requires NewWorld(w)
    ensures Converging(w) && Fresh(NetOf(w))
  {
    forall n | n in w.links ensures LedgerRight(w.minted, LedgerOf(PlaneAt(w, n))) { NewPlaneLedger(n); }
  }

  ghost predicate NoAnnounce(acts: seq<Act>, id: string) {
    forall i :: 0 <= i < |acts| && acts[i].Announce? ==> Minted(acts[i]).id != id
  }

  /** The steps are sound for the ID and mint what the acts announce. */
  ghost predicate Mirrors(able: set<string>, id: string, w: World, acts: seq<Act>, steps: seq<Step>) {
    && |steps| == |acts| && AllSound(able, id, NetOf(w), steps)
    && forall i :: 0 <= i < |acts| && steps[i].Originate? ==> acts[i].Announce? && steps[i].msg == Minted(acts[i])
  }

  /** The run does to the tables and packets what the acts do to the planes. */
  ghost predicate Refined(auths: Auths, able: set<string>, id: string, w: World, acts: seq<Act>, steps: seq<Step>,
                          v: World) {
    && Possible(NetOf(w), steps) && Mirrors(able, id, w, acts, steps)
    && v == Play(auths, w, acts) && Run(NetOf(w), steps) == NetOf(v) && Converging(v)
  }

  lemma OneMoreMirrors(auths: Auths, able: set<string>, id: string, w: World, before: seq<Act>, act: Act, v: World,
                       head: seq<Step>, step: Step)
    requires Mirrors(able, id, w, before, head) && Run(NetOf(w), head) == NetOf(v)
    requires Stamped(v, act) && Proper(auths, able, id, v, act) && step == StepOf(auths, v, act)
    ensures Mirrors(able, id, w, before + [act], head + [step])
  {
    ProperIsSound(auths, able, id, v, act);
    SoundExtended(able, id, NetOf(w), head, step);
    var acts, steps := before + [act], head + [step];
    assert forall i :: 0 <= i < |before| ==> acts[i] == before[i] && steps[i] == head[i];
  }

  lemma OneMoreRefines(auths: Auths, w: World, act: Act, v: World, head: seq<Step>)
    requires Converging(v) && Ready(v, act) && Stamped(v, act) && IsGossip(act)
    requires Possible(NetOf(w), head) && Run(NetOf(w), head) == NetOf(v)
    ensures var steps := head + [StepOf(auths, v, act)];
            Possible(NetOf(w), steps) && Run(NetOf(w), steps) == NetOf(Done(auths, v, act))
  {
    ActRefines(auths, v, act);
    RunExtended(NetOf(w), head, StepOf(auths, v, act));
  }

  lemma PlayExtended(auths: Auths, w: World, before: seq<Act>, act: Act)
    ensures Play(auths, w, before + [act]) == Done(auths, Play(auths, w, before), act)
  {
    assert (before + [act])[..|before|] == before;
  }

  lemma RefinedOneMore(auths: Auths, able: set<string>, id: string, w: World, before: seq<Act>, act: Act, v: World,
                       head: seq<Step>, step: Step, acts: seq<Act>)
    requires Refined(auths, able, id, w, before, head, v)
    requires Ready(v, act) && Stamped(v, act) && Proper(auths, able, id, v, act)
    requires step == StepOf(auths, v, act) && acts == before + [act]
    ensures Refined(auths, able, id, w, acts, head + [step], Done(auths, v, act))
  {
    OneMoreMirrors(auths, able, id, w, before, act, v, head, step);
    OneMoreRefines(auths, w, act, v, head);
    ActKeepsConverging(auths, v, act);
    PlayExtended(auths, w, before, act);
  }

  lemma RefinedAtStart(auths: Auths, able: set<string>, id: string, w: World)
    requires Converging(w)
    ensures Refined(auths, able, id, w, [], [], w)
  {}

  /** The last act of a run that can be played. */
  lemma LastAct(auths: Auths, able: set<string>, id: string, w: World, acts: seq<Act>, before: seq<Act>, act: Act)
    requires acts != [] && before == acts[..|acts| - 1] && act == acts[|acts| - 1]
    requires Playable(auths, w, acts) && AllProper(auths, able, id, w, acts)
    ensures Playable(auths, w, before) && AllProper(auths, able, id, w, before)
    ensures Ready(Play(auths, w, before), act) && Stamped(Play(auths, w, before), act)
    ensures Proper(auths, able, id, Play(auths, w, before), act)
  {}

  lemma Rejoined<T>(xs: seq<T>)
    requires xs != []
    ensures xs == xs[..|xs| - 1] + [xs[|xs| - 1]]
  {}

  /** A played world is converging, and its tables and packets are those of a sound run of the flood model. */
  lemma {:induction false} PlayRefines(auths: Auths, able: set<string>, id: string, w: World, acts: seq<Act>)
    returns (steps: seq<Step>, v: World)
    requires Converging(w) && Playable(auths, w, acts) && AllProper(auths, able, id, w, acts)
    ensures Refined(auths, able, id, w, acts, steps, v)
  {
    if acts == [] {
      RefinedAtStart(auths, able, id, w);
      steps, v := [], w;
    } else {
      var before, act := acts[..|acts| - 1], acts[|acts| - 1];
      LastAct(auths, able, id, w, acts, before, act);
      Rejoined(acts);
      var head, u := PlayRefines(auths, able, id, w, before);
      steps, v := head + [StepOf(auths, u, act)], Done(auths, u, act);
      RefinedOneMore(auths, able, id, w, before, act, u, head, StepOf(auths, u, act), acts);
    }
  }

  /** What the owner says about the subnet in act `i`, and it says nothing about it later. */
  ghost predicate LastSays(acts: seq<Act>, owner: string, subnet: string, i: nat) {
    && i < |acts| && SaysAbout(acts[i], owner, subnet)
    && forall j :: i < j < |acts| ==> !SaysAbout(acts[j], owner, subnet)
  }

  predicate SaysAbout(act: Act, owner: string, subnet: string) {
    act.Announce? && act.node == owner && (act.a == SayAddSubnet(subnet) || act.a == SayDelSubnet(subnet))
  }

  /** Only a node's own announcement changes its outbox. */
  lemma OutboxAfter(auths: Auths, w: World, act: Act, n: string)
    ensures PlaneAt(Done(auths, w, act), n).outbox ==
              if act.Announce? && act.node == n then PlaneAt(w, n).outbox[Minted(act).id := Minted(act)]
              else PlaneAt(w, n).outbox
  {
    match act
    case Announce(_, _, _, _) => AnnounceOutbox(auths, w, act, n);
    case Receive(p) => ReceiveOutbox(auths, w, p, n);
    case _ =>
      SamePlanes(auths, w, act);
      SamePlaneAt(w, Done(auths, w, act), n);
  }

  lemma SamePlanes(auths: Auths, w: World, act: Act)
    requires !act.Announce? && !act.Receive?
    ensures var w' := Done(auths, w, act); w'.planes == w.planes && w'.minted == w.minted
    ensures IsGossip(act) ==> Done(auths, w, act).links == w.links
  {
    match act
    case Write(_) =>
    case Beat(_) =>
    case Drop(_) =>
    case Connect(_, _) =>
    case Hangup(_, _) =>
  }

  lemma SamePlaneAt(w: World, w': World, n: string)
    requires w'.planes == w.planes
    ensures PlaneAt(w', n) == PlaneAt(w, n)
  {}

  lemma AnnounceOutbox(auths: Auths, w: World, act: Act, n: string)
    requires act.Announce?
    ensures PlaneAt(Done(auths, w, act), n).outbox ==
              if act.node == n then PlaneAt(w, n).outbox[Minted(act).id := Minted(act)] else PlaneAt(w, n).outbox
  {
    var v := Originated(PlaneAt(w, act.node), Minted(act));
    OriginatedOutbox(PlaneAt(w, act.node), Minted(act));
    InstalledAt(w, act.node, v, n);
    SamePlaneAt(Installed(w, act.node, v), Done(auths, w, act), n);
  }

  lemma ReceiveOutbox(auths: Auths, w: World, p: Packet, n: string)
    ensures PlaneAt(Done(auths, w, Receive(p)), n).outbox == PlaneAt(w, n).outbox
  {
    var v := Received(auths(p.to), PlaneAt(w, p.to), p.msg);
    ReceivedOutbox(auths(p.to), PlaneAt(w, p.to), p.msg);
    InstalledAt(w, p.to, v, n);
    SamePlaneAt(Installed(w, p.to, v), Done(auths, w, Receive(p)), n);
  }

  lemma InstalledAt(w: World, k: string, v: PlaneView, n: string)
    ensures PlaneAt(Installed(w, k, v), n) == if n == k then v else PlaneAt(w, n)
  {}

  lemma OriginatedOutbox(v: PlaneView, m: Message)
    ensures Originated(v, m).outbox == v.outbox[m.id := m]
  {
    OriginatedLedger(v, m);
    assert LedgerOf(Originated(v, m)).outbox == v.outbox[m.id := m];
  }

  lemma ReceivedOutbox(auth: Auth, v: PlaneView, m: Message)
    ensures Received(auth, v, m).outbox == v.outbox
  {
    ReceivedLedger(auth, v, m);
    assert LedgerOf(Received(auth, v, m)).outbox == v.outbox;
  }

  /** An announcement goes under the ID of the subnet exactly when it is about the subnet. */
  lemma SaysUnderId(act: Act, subnet: string)
    requires act.Announce?
    ensures Minted(act).id == SubnetId(act.node, subnet) <==> SaysAbout(act, act.node, subnet)
  {
    if Minted(act).id == SubnetId(act.node, subnet) {
      FactsOfOneName(act.node, FactOf(act.a), SubnetFact(subnet));
    }
  }

  /** The outbox entry of the subnet is the envelope of the last act, if any, in which the owner spoke about it. */
  ghost predicate OutboxSays(acts: seq<Act>, owner: string, subnet: string, outbox: map<string, Message>) {
    var id := SubnetId(owner, subnet);
    && (forall i: nat :: LastSays(acts, owner, subnet, i) ==> id in outbox && outbox[id] == Minted(acts[i]))
    && ((forall i :: 0 <= i < |acts| ==> !SaysAbout(acts[i], owner, subnet)) ==> id !in outbox)
  }

  lemma OneMoreSays(acts: seq<Act>, act: Act, owner: string, subnet: string, outbox: map<string, Message>,
                    outbox': map<string, Message>)
    requires OutboxSays(acts, owner, subnet, outbox)
    requires SaysAbout(act, owner, subnet) ==> outbox' == outbox[SubnetId(owner, subnet) := Minted(act)]
    requires !SaysAbout(act, owner, subnet) ==>
               Lookup(outbox', SubnetId(owner, subnet)) == Lookup(outbox, SubnetId(owner, subnet))
    ensures OutboxSays(acts + [act], owner, subnet, outbox')
  {
    var all, id := acts + [act], SubnetId(owner, subnet);
    assert all[|acts|] == act && forall i :: 0 <= i < |acts| ==> all[i] == acts[i];
    forall i: nat | LastSays(all, owner, subnet, i) ensures id in outbox' && outbox'[id] == Minted(all[i]) {
      if i < |acts| { assert !SaysAbout(all[|acts|], owner, subnet) && LastSays(acts, owner, subnet, i); }
    }
    if forall i :: 0 <= i < |all| ==> !SaysAbout(all[i], owner, subnet) {
      assert !SaysAbout(all[|acts|], owner, subnet);
      assert forall i :: 0 <= i < |acts| ==> !SaysAbout(all[i], owner, subnet);
    }
  }

  lemma {:induction false} OutboxHistory(auths: Auths, w: World, acts: seq<Act>, owner: string, subnet: string)
    requires SubnetId(owner, subnet) !in PlaneAt(w, owner).outbox
    ensures OutboxSays(acts, owner, subnet, PlaneAt(Play(auths, w, acts), owner).outbox)
  {
    if acts != [] {
      var before, act := acts[..|acts| - 1], acts[|acts| - 1];
      OutboxHistory(auths, w, before, owner, subnet);
      var v := Play(auths, w, before);
      OutboxAfter(auths, v, act, owner);
      if act.Announce? { SaysUnderId(act, subnet); }
      OneMoreSays(before, act, owner, subnet, PlaneAt(v, owner).outbox, PlaneAt(Done(auths, v, act), owner).outbox);
      Rejoined(acts);
    }
  }

  /** The owner's last word about the subnet was to add it. */
  ghost predicate LastlyAnnounced(acts: seq<Act>, owner: string, subnet: string) {
    exists i: nat :: LastSays(acts, owner, subnet, i) && acts[i].a == SayAddSubnet(subnet)
  }

  lemma OutboxAddsIff(acts: seq<Act>, owner: string, subnet: string, outbox: map<string, Message>)
    requires OutboxSays(acts, owner, subnet, outbox)
    ensures (&& SubnetId(owner, subnet) in outbox
             && outbox[SubnetId(owner, subnet)].body == AddSubnet(owner, subnet)) <==>
              LastlyAnnounced(acts, owner, subnet)
  {
    if i :| 0 <= i < |acts| && SaysAbout(acts[i], owner, subnet) {
      var j := LastSaid(acts, owner, subnet);
      assert outbox[SubnetId(owner, subnet)] == Minted(acts[j]);
    }
  }

  lemma {:induction false} LastSaid(acts: seq<Act>, owner: string, subnet: string) returns (j: nat)
    requires exists i :: 0 <= i < |acts| && SaysAbout(acts[i], owner, subnet)
    ensures LastSays(acts, owner, subnet, j)
    ensures forall i: nat :: LastSays(acts, owner, subnet, i) ==> i == j
  {
    j := |acts| - 1;
    if !SaysAbout(acts[j], owner, subnet) {
      var before := acts[..j];
      var i :| 0 <= i < |acts| && SaysAbout(acts[i], owner, subnet);
      assert before[i] == acts[i];
      j := LastSaid(before, owner, subnet);
      assert forall i :: 0 <= i < |before| ==> before[i] == acts[i];
    }
  }

  /**
  End to end, for one subnet: when nothing about it is left in transit, a node says that the owner holds it exactly when
  the owner's last announcement about it was to add it and nodes that can verify the owner lead to the node.
  */
  lemma SubnetsConverge(auths: Auths, able: set<string>, w: World, acts: seq<Act>, n: string, owner: string,
                        subnet: string)
    requires NewWorld(w) && Playable(auths, w, acts) && AllProper(auths, able, SubnetId(owner, subnet), w, acts)
    requires NothingUnder(NetOf(Play(auths, w, acts)), SubnetId(owner, subnet)) && owner in w.links && n in w.links
    ensures HoldsSubnet(PlaneAt(Play(auths, w, acts), n).topo, owner, subnet) <==>
              Connected(Into(w.links, able), owner, n) && LastlyAnnounced(acts, owner, subnet)
  {
    SubnetsFollowOutbox(auths, able, w, acts, n, owner, subnet);
    OutboxHistory(auths, w, acts, owner, subnet);
    OutboxAddsIff(acts, owner, subnet, PlaneAt(Play(auths, w, acts), owner).outbox);
  }

  lemma SubnetsFollowOutbox(auths: Auths, able: set<string>, w: World, acts: seq<Act>, n: string, owner: string,
                            subnet: string)
    requires NewWorld(w) && Playable(auths, w, acts) && AllProper(auths, able, SubnetId(owner, subnet), w, acts)
    requires NothingUnder(NetOf(Play(auths, w, acts)), SubnetId(owner, subnet)) && owner in w.links && n in w.links
    ensures var t := Play(auths, w, acts);
            HoldsSubnet(PlaneAt(t, n).topo, owner, subnet) <==>
              && Connected(Into(w.links, able), owner, n)
              && SubnetId(owner, subnet) in PlaneAt(t, owner).outbox
              && PlaneAt(t, owner).outbox[SubnetId(owner, subnet)].body == AddSubnet(owner, subnet)
  {
    var id := SubnetId(owner, subnet);
    NewWorldConverging(w);
    var steps, t := PlayRefines(auths, able, id, w, acts);
    LinksConstant(NetOf(w), steps);
    AgreementAtQuiescence(able, NetOf(w), steps, n, id);
    AgreementAtQuiescence(able, NetOf(w), steps, owner, id);
    if Connected(Into(w.links, able), owner, n) {
      OneOwnerSameEntry(able, t, n, owner, subnet);
      SameTablesSameSubnets(t, n, owner, subnet);
    } else {
      NothingHeld(able, t, n, owner, subnet);
    }
  }

  lemma MintsOfOwner(t: World, m: Message, owner: string, subnet: string)
    requires Housed(t) && AllHonest(t) && m in t.minted && m.id == SubnetId(owner, subnet) && owner in t.links
    ensures m.origin == owner
  {
    HonestSubnetId(m, owner, subnet);
  }

  lemma SameMintsSameEntry(able: set<string>, s: Net, a: string, b: string, id: string)
    requires HoldsNewestMint(able, s, a, id) && HoldsNewestMint(able, s, b, id)
    requires forall m :: NearMint(able, s, a, id, m) <==> NearMint(able, s, b, id, m)
    ensures SameEntry(SeenAt(s, a), SeenAt(s, b), id)
  {}

  lemma OneOwnerSameEntry(able: set<string>, t: World, n: string, owner: string, subnet: string)
    requires Housed(t) && AllHonest(t) && owner in t.links && Connected(Into(t.links, able), owner, n)
    requires HoldsNewestMint(able, NetOf(t), n, SubnetId(owner, subnet))
    requires HoldsNewestMint(able, NetOf(t), owner, SubnetId(owner, subnet))
    ensures SameEntry(PlaneAt(t, n).seen, PlaneAt(t, owner).seen, SubnetId(owner, subnet))
  {
    var s, id := NetOf(t), SubnetId(owner, subnet);
    TablesOfNet(t, n);
    TablesOfNet(t, owner);
    ConnectedSelf(Into(t.links, able), owner);
    forall m ensures NearMint(able, s, n, id, m) <==> NearMint(able, s, owner, id, m) {
      if m in t.minted && m.id == id { MintsOfOwner(t, m, owner, subnet); }
    }
    SameMintsSameEntry(able, s, n, owner, id);
  }

  lemma NothingHeld(able: set<string>, t: World, n: string, owner: string, subnet: string)
    requires Converging(t) && owner in t.links && n in t.links && !Connected(Into(t.links, able), owner, n)
    requires HoldsNewestMint(able, NetOf(t), n, SubnetId(owner, subnet))
    ensures !HoldsSubnet(PlaneAt(t, n).topo, owner, subnet)
  {
    var id, l := SubnetId(owner, subnet), LedgerOf(PlaneAt(t, n));
    TablesOfNet(t, n);
    forall m | NearMint(able, NetOf(t), n, id, m) ensures false { MintsOfOwner(t, m, owner, subnet); }
    assert HoldsSubnet(PlaneAt(t, n).topo, owner, subnet) <==> (owner, subnet) in l.held;
    assert LedgerRight(t.minted, l);
    forall m | m in t.minted && m.body == AddSubnet(owner, subnet) ensures m.id == id {
      HonestSubnetId(m, owner, subnet);
    }
  }

  /** What the owner's outbox says is what every ledger with the owner's table entry shows. */
  lemma SameTablesSameSubnets(t: World, n: string, owner: string, subnet: string)
    requires Converging(t) && n in t.links && owner in t.links
    requires SameEntry(PlaneAt(t, n).seen, PlaneAt(t, owner).seen, SubnetId(owner, subnet))
    ensures HoldsSubnet(PlaneAt(t, n).topo, owner, subnet) <==>
              && SubnetId(owner, subnet) in PlaneAt(t, owner).outbox
              && PlaneAt(t, owner).outbox[SubnetId(owner, subnet)].body == AddSubnet(owner, subnet)
  {
    var l := LedgerOf(PlaneAt(t, n));
    assert HoldsSubnet(PlaneAt(t, n).topo, owner, subnet) <==> (owner, subnet) in l.held;
    assert LedgerRight(t.minted, l);
    OwnerShows(t, l, owner, subnet);
  }

  lemma OwnerShows(t: World, l: Ledger, owner: string, subnet: string)
    requires Housed(t) && OutboxMinted(NetOf(t)) && AllHonest(t) && StampsUnique(t) && OutboxLeads(t)
    requires owner in t.links && SameEntry(l.seen, PlaneAt(t, owner).seen, SubnetId(owner, subnet))
    ensures (exists m :: Shows(t.minted, l, m, owner, subnet)) <==>
              && SubnetId(owner, subnet) in PlaneAt(t, owner).outbox
              && PlaneAt(t, owner).outbox[SubnetId(owner, subnet)].body == AddSubnet(owner, subnet)
  {
    var outbox, id := PlaneAt(t, owner).outbox, SubnetId(owner, subnet);
    TablesOfNet(t, owner);
    if m :| Shows(t.minted, l, m, owner, subnet) {
      ShownIsInOutbox(t, l, m, owner, subnet);
    }
    if id in outbox && outbox[id].body == AddSubnet(owner, subnet) {
      assert outbox[id] in t.minted && outbox[id].id == id;
      assert Shows(t.minted, l, outbox[id], owner, subnet);
    }
  }

  lemma ShownIsInOutbox(t: World, l: Ledger, m: Message, owner: string, subnet: string)
    requires Housed(t) && OutboxMinted(NetOf(t)) && AllHonest(t) && StampsUnique(t) && OutboxLeads(t)
    requires owner in t.links && SameEntry(l.seen, PlaneAt(t, owner).seen, SubnetId(owner, subnet))
    requires Shows(t.minted, l, m, owner, subnet)
    ensures SubnetId(owner, subnet) in PlaneAt(t, owner).outbox
    ensures PlaneAt(t, owner).outbox[SubnetId(owner, subnet)] == m
  {
    var outbox := PlaneAt(t, owner).outbox;
    assert Honest(m);
    HonestSubnetId(m, owner, subnet);
    TablesOfNet(t, owner);
    assert m.id in outbox && outbox[m.id] in t.minted && outbox[m.id].id == m.id;
    assert StampOf(outbox[m.id]) == StampOf(m);
  }

  // After losses

  /** An announcement is newer than what any node has under its ID. */
  lemma NewerEverywhere(v: World, m: Message)
    requires Converging(v) && Honest(m) && Newer(PlaneAt(v, m.origin).seen, StampOf(m))
    ensures forall x :: x in v.minted && x.id == m.id ==> x.ts < m.ts
  {
    TablesOfNet(v, m.origin);
    forall x | x in v.minted && x.id == m.id ensures x.ts < m.ts {
      HonestSameOrigin(x, m);
      assert Has(NetOf(v), m.origin, StampOf(x));
    }
  }

  /** The owner announces a subnet afresh, and from then on nothing about it is lost and all of it is delivered. */
  ghost predicate Reannounced(auths: Auths, able: set<string>, v: World, act: Act, rest: seq<Act>) {
    && act.Announce? && Ready(v, act) && Stamped(v, act)
    && Playable(auths, Done(auths, v, act), rest)
    && AllProper(auths, able, Minted(act).id, Done(auths, v, act), rest)
    && NoAnnounce(rest, Minted(act).id)
    && NothingUnder(NetOf(Play(auths, Done(auths, v, act), rest)), Minted(act).id)
  }

  lemma ReannouncedEntry(auths: Auths, able: set<string>, v: World, act: Act, rest: seq<Act>, n: string)
    requires Converging(v) && Reannounced(auths, able, v, act, rest)
    requires n in v.links && Connected(Into(v.links, able), act.node, n)
    ensures var t, m := Play(auths, Done(auths, v, act), rest), Minted(act);
            && Converging(t) && t.links == v.links
            && m.id in PlaneAt(t, n).seen && PlaneAt(t, n).seen[m.id] == m.ts
  {
    var m, s := Minted(act), NetOf(v);
    MintedHonest(act);
    ActRefines(auths, v, act);
    ActKeepsConverging(auths, v, act);
    var steps, t := PlayRefines(auths, able, m.id, Done(auths, v, act), rest);
    NoAnnounceNoMint(able, m.id, Done(auths, v, act), rest, steps);
    NewerEverywhere(v, m);
    EntryAtEnd(able, s, After(s, Originate(m)), m, steps, n);
    TablesOfNet(t, n);
  }

  lemma NoAnnounceNoMint(able: set<string>, id: string, w: World, acts: seq<Act>, steps: seq<Step>)
    requires Mirrors(able, id, w, acts, steps) && NoAnnounce(acts, id)
    ensures NoMint(steps, id)
  {}

  lemma EntryAtEnd(able: set<string>, s: Net, s1: Net, m: Message, steps: seq<Step>, n: string)
    requires Accounted(s) && m.origin in s.links && n in s.links && Connected(Into(s.links, able), m.origin, n)
    requires s1 == After(s, Originate(m)) && forall x :: x in s.minted && x.id == m.id ==> x.ts < m.ts
    requires Possible(s1, steps) && AllSound(able, m.id, s1, steps) && NoMint(steps, m.id)
    requires NothingUnder(Run(s1, steps), m.id)
    ensures Run(s1, steps).links == s.links
    ensures m.id in SeenAt(Run(s1, steps), n) && SeenAt(Run(s1, steps), n)[m.id] == m.ts
  {
    NewestReaches(able, s, m, steps, n);
    NothingNewer(s, s1, m, steps, n);
    LinksConstant(s1, steps);
  }

  /** While nothing more is announced about the subnet, the owner's outbox keeps its envelope. */
  lemma {:induction false} OutboxKeeps(auths: Auths, w: World, acts: seq<Act>, owner: string, id: string)
    requires NoAnnounce(acts, id)
    ensures Lookup(PlaneAt(Play(auths, w, acts), owner).outbox, id) == Lookup(PlaneAt(w, owner).outbox, id)
  {
    if acts != [] {
      var before := acts[..|acts| - 1];
      assert forall i :: 0 <= i < |before| ==> before[i] == acts[i];
      OutboxKeeps(auths, w, before, owner, id);
      OutboxAfter(auths, Play(auths, w, before), acts[|acts| - 1], owner);
    }
  }

  /**
  Whatever was lost and rejected and whatever connections came and went before: once the owner of a subnet has announced
  it afresh and that has been delivered, every node that verifying nodes lead to holds the subnet exactly when the
  announcement was to add it.
  */
  lemma LossesAreHealed(auths: Auths, able: set<string>, w: World, acts: seq<Act>, act: Act, rest: seq<Act>, n: string,
                        subnet: string)
    requires NewWorld(w) && Playable(auths, w, acts) && Reannounced(auths, able, Play(auths, w, acts), act, rest)
    requires act.a == SayAddSubnet(subnet) || act.a == SayDelSubnet(subnet)
    requires var v := Play(auths, w, acts); n in v.links && Connected(Into(v.links, able), act.node, n)
    ensures var t := Play(auths, Done(auths, Play(auths, w, acts), act), rest);
            HoldsSubnet(PlaneAt(t, n).topo, act.node, subnet) <==> act.a == SayAddSubnet(subnet)
  {
    var v := Play(auths, w, acts);
    HealedFollowsOutbox(auths, able, w, acts, act, rest, n, subnet);
    OutboxAfter(auths, v, act, act.node);
    OutboxKeeps(auths, Done(auths, v, act), rest, act.node, Minted(act).id);
  }

  lemma HealedFollowsOutbox(auths: Auths, able: set<string>, w: World, acts: seq<Act>, act: Act, rest: seq<Act>,
                            n: string, subnet: string)
    requires NewWorld(w) && Playable(auths, w, acts) && Reannounced(auths, able, Play(auths, w, acts), act, rest)
    requires act.a == SayAddSubnet(subnet) || act.a == SayDelSubnet(subnet)
    requires var v := Play(auths, w, acts); n in v.links && Connected(Into(v.links, able), act.node, n)
    ensures var t := Play(auths, Done(auths, Play(auths, w, acts), act), rest);
            && (HoldsSubnet(PlaneAt(t, n).topo, act.node, subnet) <==>
                && SubnetId(act.node, subnet) in PlaneAt(t, act.node).outbox
                && PlaneAt(t, act.node).outbox[SubnetId(act.node, subnet)].body == AddSubnet(act.node, subnet))
  {
    var v := Play(auths, w, acts);
    NewWorldConverging(w);
    PlayConverges(auths, w, acts);
    ReannouncedEntry(auths, able, v, act, rest, n);
    ConnectedSelf(Into(v.links, able), act.node);
    ReannouncedEntry(auths, able, v, act, rest, act.node);
    SameTablesSameSubnets(Play(auths, Done(auths, v, act), rest), n, act.node, subnet);
  }
}
