/**
The control plane of a whole network as a transition system. Every node runs the claim of its plane on the
envelopes it gets and forwards what it wins on all its connections; envelopes travel in any order.
*/
module Flood {
  import opened Claims
  import opened Messages
  import opened Paths
  import opened Planes
  import opened Transports

  /**
  `pending` are the writes a broadcast still has to do, `flight` what is written and not yet read;
  `minted` records every envelope ever originated.
  */
  datatype Net = Net(
    links: Links,
    seen: map<string, Seen>,
    outbox: map<string, map<string, Message>>,
    pending: multiset<Packet>,
    flight: multiset<Packet>,
    minted: set<Message>)

  datatype Step =
    | Originate(msg: Message)
    | Transmit(p: Packet)
    | Deliver(p: Packet, verified: bool)
    | Resend(node: string)
    | Lose(p: Packet)

  function SeenAt(s: Net, n: string): Seen {
    if n in s.seen then s.seen[n] else map[]
  }

  function OutboxAt(s: Net, n: string): map<string, Message> {
    if n in s.outbox then s.outbox[n] else map[]
  }

  function PeersOf(s: Net, n: string): set<string> {
    if n in s.links then s.links[n] else {}
  }

  function Transit(s: Net): multiset<Packet> {
    s.pending + s.flight
  }

  predicate Quiet(s: Net) {
    Transit(s) == multiset{}
  }

  predicate Enabled(s: Net, step: Step) {
    match step
    case Originate(m) => m.origin in s.links
    case Transmit(p) => p in s.pending
    case Deliver(p, _) => p in s.flight
    case Resend(n) => n in s.links
    case Lose(p) => p in s.flight
  }

  function Broadcasting(s: Net, n: string, m: Message): Net {
    s.(pending := s.pending + multiset(Fanout(n, PeersOf(s, n), m)))
  }

  function Recorded(s: Net, n: string, m: Message): Net {
    s.(seen := s.seen[n := SeenAt(s, n)[m.id := m.ts]])
  }

  ghost function OutboxPackets(s: Net, n: string): set<Packet> {
    set id, to | id in OutboxAt(s, n) && to in PeersOf(s, n) :: Packet(n, to, OutboxAt(s, n)[id])
  }

  function AfterOriginate(s: Net, m: Message): Net {
    Broadcasting(Recorded(s, m.origin, m).(
                   outbox := s.outbox[m.origin := OutboxAt(s, m.origin)[m.id := m]],
                   minted := s.minted + {m}), m.origin, m)
  }

  function AfterDeliver(s: Net, p: Packet, verified: bool): Net {
    var s1 := s.(flight := s.flight - multiset{p});
    if verified && Newer(SeenAt(s, p.to), StampOf(p.msg))
    then Broadcasting(Recorded(s1, p.to, p.msg), p.to, p.msg) else s1
  }

  ghost function After(s: Net, step: Step): Net {
    match step
    case Originate(m) => AfterOriginate(s, m)
    case Transmit(p) => s.(pending := s.pending - multiset{p}, flight := s.flight + multiset{p})
    case Deliver(p, verified) => AfterDeliver(s, p, verified)
    case Resend(n) => s.(pending := s.pending + multiset(OutboxPackets(s, n)))
    case Lose(p) => s.(flight := s.flight - multiset{p})
  }

  ghost function Run(s: Net, steps: seq<Step>): Net {
    if steps == [] then s else After(Run(s, steps[..|steps| - 1]), steps[|steps| - 1])
  }

  ghost predicate Possible(s: Net, steps: seq<Step>) {
    steps == [] ||
    (Possible(s, steps[..|steps| - 1]) && Enabled(Run(s, steps[..|steps| - 1]), steps[|steps| - 1]))
  }

  lemma RunExtended(s: Net, steps: seq<Step>, step: Step)
    ensures Run(s, steps + [step]) == After(Run(s, steps), step)
    ensures Possible(s, steps) && Enabled(Run(s, steps), step) ==> Possible(s, steps + [step])
  {
    assert (steps + [step])[..|steps|] == steps;
  }

  ghost predicate NothingUnder(s: Net, id: string) {
    forall p :: p in Transit(s) ==> p.msg.id != id
  }

  /** The announcement does not step the clock of its node back. */
  predicate ClockOk(s: Net, m: Message) {
    m.id !in SeenAt(s, m.origin) || SeenAt(s, m.origin)[m.id] <= m.ts
  }

  /**
  Under one ID: nothing is lost, no clock steps back, and exactly the nodes in `able` can verify, the others lacking the
  key of the origin. What happens under other IDs is free.
  */
  ghost predicate Sound(able: set<string>, id: string, s: Net, step: Step) {
    match step
    case Originate(m) => m.id == id ==> ClockOk(s, m)
    case Transmit(_) => true
    case Deliver(p, verified) => p.msg.id == id ==> verified == (p.to in able)
    case Resend(_) => true
    case Lose(p) => p.msg.id != id
  }

  ghost predicate AllSound(able: set<string>, id: string, s: Net, steps: seq<Step>) {
    steps == [] ||
    (&& AllSound(able, id, s, steps[..|steps| - 1])
     && Sound(able, id, Run(s, steps[..|steps| - 1]), steps[|steps| - 1]))
  }

  lemma SoundExtended(able: set<string>, id: string, s: Net, steps: seq<Step>, step: Step)
    requires AllSound(able, id, s, steps) && Sound(able, id, Run(s, steps), step)
    ensures AllSound(able, id, s, steps + [step])
  {
    assert (steps + [step])[..|steps|] == steps;
  }

  /** The part of soundness that holds under losses as well: who cannot verify does not take the envelope. */
  predicate Barred(able: set<string>, id: string, step: Step) {
    step.Deliver? && step.verified && step.p.msg.id == id ==> step.p.to in able
  }

  // Node n has seen the stamp or something newer

  predicate Has(s: Net, n: string, st: Stamp) {
    !Newer(SeenAt(s, n), st)
  }

  predicate Brings(p: Packet, n: string, st: Stamp) {
    p.to == n && p.msg.id == st.id && st.ts <= p.msg.ts
  }

  ghost predicate Carried(s: Net, n: string, st: Stamp) {
    exists p :: p in Transit(s) && Brings(p, n, st)
  }

  /** Whoever has the stamp has passed it on: each peer that can verify has it, or a packet is bringing it. */
  ghost predicate Flooded(able: set<string>, s: Net, st: Stamp) {
    forall a, b :: a in s.links && b in s.links[a] && b in able && Has(s, a, st) ==> Has(s, b, st) || Carried(s, b, st)
  }

  lemma StepKeepsLinks(s: Net, step: Step)
    ensures After(s, step).links == s.links
  {
    if step.Deliver? { DeliverKeepsOutbox(s, step.p, step.verified); }
  }

  lemma {:induction false} LinksConstant(s: Net, steps: seq<Step>)
    ensures Run(s, steps).links == s.links
  {
    if steps != [] {
      LinksConstant(s, steps[..|steps| - 1]);
      StepKeepsLinks(Run(s, steps[..|steps| - 1]), steps[|steps| - 1]);
    }
  }

  lemma HasKept(s: Net, step: Step, n: string, st: Stamp)
    requires (step.Originate? && step.msg.id == st.id ==> ClockOk(s, step.msg)) && Has(s, n, st)
    ensures Has(After(s, step), n, st)
  {}

  lemma TransmitKeepsTransit(s: Net, p: Packet)
    requires p in s.pending
    ensures Transit(After(s, Transmit(p))) == Transit(s)
  {
    assert s.pending - multiset{p} + (s.flight + multiset{p}) == s.pending + s.flight;
  }

  lemma TransitKept(s: Net, step: Step, p: Packet)
    requires Enabled(s, step) && p in Transit(s)
    requires step.Deliver? || step.Lose? ==> step.p != p
    ensures p in Transit(After(s, step))
  {
    if step.Transmit? {
      TransmitKeepsTransit(s, step.p);
    } else {
      var t := After(s, step);
      assert s.pending[p] <= t.pending[p] && s.flight[p] <= t.flight[p];
    }
  }

  /** A packet stops bringing a stamp to a node that can verify it only by arriving. */
  lemma CarriedOrArrived(able: set<string>, s: Net, step: Step, n: string, st: Stamp)
    requires Enabled(s, step) && Sound(able, st.id, s, step) && n in able && Carried(s, n, st)
    ensures Carried(After(s, step), n, st) || Has(After(s, step), n, st)
  {
    var p :| p in Transit(s) && Brings(p, n, st);
    if step.Deliver? && step.p == p {
      assert Has(After(s, step), n, st);
    } else {
      TransitKept(s, step, p);
    }
  }

  /** A node that comes to have a stamp is broadcasting it. */
  lemma NewHolderBroadcasts(s: Net, step: Step, a: string, b: string, st: Stamp)
    requires Enabled(s, step) && a in s.links && b in s.links[a]
    requires !Has(s, a, st) && Has(After(s, step), a, st)
    ensures Carried(After(s, step), b, st)
  {
    var t := After(s, step);
    var m := if step.Originate? then step.msg else step.p.msg;
    assert Packet(a, b, m) in Fanout(a, PeersOf(s, a), m);
    assert Packet(a, b, m) in t.pending;
    assert Brings(Packet(a, b, m), b, st);
  }

  lemma FloodedKept(able: set<string>, s: Net, step: Step, st: Stamp)
    requires Enabled(s, step) && Sound(able, st.id, s, step) && Flooded(able, s, st)
    ensures Flooded(able, After(s, step), st)
  {
    var t := After(s, step);
    assert t.links == s.links;
    forall a, b | a in t.links && b in t.links[a] && b in able && Has(t, a, st)
      ensures Has(t, b, st) || Carried(t, b, st)
    {
      if Has(s, a, st) {
        if Has(s, b, st) { HasKept(s, step, b, st); } else { CarriedOrArrived(able, s, step, b, st); }
      } else {
        NewHolderBroadcasts(s, step, a, b, st);
      }
    }
  }

  lemma {:induction false} FloodedOverRun(able: set<string>, s: Net, steps: seq<Step>, st: Stamp)
    requires Possible(s, steps) && AllSound(able, st.id, s, steps) && Flooded(able, s, st)
    ensures Flooded(able, Run(s, steps), st)
  {
    if steps != [] {
      var before := steps[..|steps| - 1];
      FloodedOverRun(able, s, before, st);
      FloodedKept(able, Run(s, before), steps[|steps| - 1], st);
    }
  }

  /** When nothing is in transit under the ID, all that verifying nodes lead to from a holder have the stamp. */
  lemma QuietSpreads(able: set<string>, s: Net, st: Stamp, a: string, b: string)
    requires NothingUnder(s, st.id) && Flooded(able, s, st) && Symmetric(s.links)
    requires a in s.links && Has(s, a, st) && Connected(Into(s.links, able), a, b)
    ensures Has(s, b, st)
  {
    var into := Into(s.links, able);
    var holders := set n | n in s.links && Has(s, n, st);
    forall x, y | x in holders && x in into && y in into[x] ensures y in holders {
      assert !Carried(s, y, st);
    }
    ClosedContainsConnected(into, holders, a, b);
  }

  // Where envelopes come from

  ghost predicate OutboxMinted(s: Net) {
    forall n, id :: n in s.links && id in OutboxAt(s, n) ==>
      OutboxAt(s, n)[id] in s.minted && OutboxAt(s, n)[id].origin == n && OutboxAt(s, n)[id].id == id
  }

  /** Every packet in transit was minted and is addressed to a node. */
  ghost predicate PacketsKnown(s: Net) {
    forall p :: p in Transit(s) ==> p.msg in s.minted && p.to in s.links
  }

  ghost predicate MintedAnywhere(s: Net, st: Stamp) {
    exists m :: m in s.minted && StampOf(m) == st
  }

  ghost predicate SeenKnown(s: Net) {
    forall n, id :: n in s.links && id in SeenAt(s, n) ==> MintedAnywhere(s, Stamp(id, SeenAt(s, n)[id]))
  }

  /**
  Every envelope anywhere was minted by some node. This says nothing about links, so it survives when connections
  come and go.
  */
  ghost predicate Accounted(s: Net) {
    && Symmetric(s.links) && PacketsKnown(s) && OutboxMinted(s) && SeenKnown(s)
    && forall m :: m in s.minted ==> m.origin in s.links
  }

  /** A node is at least as new as everything it minted under the ID. */
  ghost predicate OriginsLead(s: Net, id: string) {
    forall m :: m in s.minted && m.id == id ==> Has(s, m.origin, StampOf(m))
  }

  ghost predicate Fresh(s: Net) {
    && Symmetric(s.links)
    && (forall n :: n in s.links ==> SeenAt(s, n) == map[] && OutboxAt(s, n) == map[])
    && s.pending == multiset{} && s.flight == multiset{} && s.minted == {}
  }

  lemma OnlyAnnouncementsEnterOutbox(s: Net, step: Step)
    requires !step.Originate?
    ensures After(s, step).outbox == s.outbox && After(s, step).links == s.links && After(s, step).minted == s.minted
  {
    match step
    case Deliver(p, verified) => DeliverKeepsOutbox(s, p, verified);
    case Transmit(_) =>
    case Resend(_) =>
    case Lose(_) =>
  }

  lemma DeliverKeepsOutbox(s: Net, p: Packet, verified: bool)
    ensures var t := AfterDeliver(s, p, verified); t.outbox == s.outbox && t.links == s.links && t.minted == s.minted
  {}

  lemma OutboxMintedKept(s: Net, step: Step)
    requires OutboxMinted(s)
    ensures OutboxMinted(After(s, step))
  {
    if step.Originate? {
      OriginateKeepsOutbox(s, step.msg);
    } else {
      OnlyAnnouncementsEnterOutbox(s, step);
      SameOutboxKept(s, After(s, step));
    }
  }

  lemma SameOutboxKept(s: Net, t: Net)
    requires OutboxMinted(s) && t.outbox == s.outbox && t.minted == s.minted && t.links == s.links
    ensures OutboxMinted(t)
  {
    assert forall n :: OutboxAt(t, n) == OutboxAt(s, n);
  }

  lemma OriginateKeepsOutbox(s: Net, m: Message)
    requires OutboxMinted(s)
    ensures OutboxMinted(AfterOriginate(s, m))
  {
    var t := AfterOriginate(s, m);
    forall n, id | n in t.links && id in OutboxAt(t, n)
      ensures OutboxAt(t, n)[id] in t.minted && OutboxAt(t, n)[id].origin == n && OutboxAt(t, n)[id].id == id
    {
      if m.origin == n && m.id == id {
        assert OutboxAt(t, n)[id] == m;
      } else {
        assert id in OutboxAt(s, n) && OutboxAt(t, n)[id] == OutboxAt(s, n)[id];
      }
    }
  }

  lemma FanoutKnown(s: Net, n: string, m: Message)
    requires PacketsKnown(s) && Symmetric(s.links) && m in s.minted
    ensures PacketsKnown(Broadcasting(s, n, m))
  {
    forall p | p in Transit(Broadcasting(s, n, m)) ensures p.msg in s.minted && p.to in s.links {
      assert p in Transit(s) || p in Fanout(n, PeersOf(s, n), m);
    }
  }

  lemma OriginateKeepsKnown(s: Net, m: Message)
    requires PacketsKnown(s) && Symmetric(s.links)
    ensures PacketsKnown(AfterOriginate(s, m))
  {
    var s1 := Recorded(s, m.origin, m).(outbox := s.outbox[m.origin := OutboxAt(s, m.origin)[m.id := m]],
                                        minted := s.minted + {m});
    assert Transit(s1) == Transit(s);
    FanoutKnown(s1, m.origin, m);
  }

  lemma DeliverKeepsKnown(s: Net, p: Packet, verified: bool)
    requires PacketsKnown(s) && Symmetric(s.links) && p in s.flight
    ensures PacketsKnown(AfterDeliver(s, p, verified))
  {
    var s1 := s.(flight := s.flight - multiset{p});
    assert forall q :: q in Transit(s1) ==> q in Transit(s);
    assert p in Transit(s);
    var s2 := Recorded(s1, p.to, p.msg);
    assert Transit(s2) == Transit(s1);
    FanoutKnown(s2, p.to, p.msg);
  }

  lemma ResendKeepsKnown(s: Net, n: string)
    requires PacketsKnown(s) && Symmetric(s.links) && OutboxMinted(s) && n in s.links
    ensures PacketsKnown(After(s, Resend(n)))
  {
    forall p | p in Transit(After(s, Resend(n))) ensures p.msg in s.minted && p.to in s.links {
      assert p in Transit(s) || p in OutboxPackets(s, n);
    }
  }

  lemma PacketsKnownKept(s: Net, step: Step)
    requires Accounted(s) && Enabled(s, step)
    ensures PacketsKnown(After(s, step))
  {
    match step
    case Originate(m) => OriginateKeepsKnown(s, m);
    case Transmit(p) => TransmitKeepsTransit(s, p);
    case Deliver(p, verified) => DeliverKeepsKnown(s, p, verified);
    case Resend(n) => ResendKeepsKnown(s, n);
    case Lose(p) => assert forall q :: q in Transit(After(s, step)) ==> q in Transit(s);
  }

  lemma RecordingKeepsSeenKnown(s: Net, t: Net, a: string, m: Message)
    requires SeenKnown(s) && t.links == s.links && s.minted <= t.minted && m in t.minted
    requires SeenAt(t, a) == SeenAt(s, a)[m.id := m.ts] && forall n :: n != a ==> SeenAt(t, n) == SeenAt(s, n)
    ensures SeenKnown(t)
  {
    forall n, id | n in t.links && id in SeenAt(t, n) ensures MintedAnywhere(t, Stamp(id, SeenAt(t, n)[id])) {
      if n == a && id == m.id {
        assert StampOf(m) == Stamp(id, SeenAt(t, n)[id]);
      } else {
        assert MintedAnywhere(s, Stamp(id, SeenAt(s, n)[id]));
      }
    }
  }

  lemma SameTablesKeepSeenKnown(s: Net, t: Net)
    requires SeenKnown(s) && t.links == s.links && t.seen == s.seen && t.minted == s.minted
    ensures SeenKnown(t)
  {
    forall n, id | n in t.links && id in SeenAt(t, n) ensures MintedAnywhere(t, Stamp(id, SeenAt(t, n)[id])) {
      assert MintedAnywhere(s, Stamp(id, SeenAt(s, n)[id]));
    }
  }

  lemma DeliverKeepsSeenKnown(s: Net, p: Packet, verified: bool)
    requires SeenKnown(s) && PacketsKnown(s) && p in s.flight
    ensures SeenKnown(AfterDeliver(s, p, verified))
  {
    assert p in Transit(s);
    if verified && Newer(SeenAt(s, p.to), StampOf(p.msg)) {
      RecordingKeepsSeenKnown(s, AfterDeliver(s, p, verified), p.to, p.msg);
    } else {
      SameTablesKeepSeenKnown(s, AfterDeliver(s, p, verified));
    }
  }

  lemma SeenKnownKept(s: Net, step: Step)
    requires SeenKnown(s) && PacketsKnown(s) && Enabled(s, step)
    ensures SeenKnown(After(s, step))
  {
    match step
    case Originate(m) => RecordingKeepsSeenKnown(s, AfterOriginate(s, m), m.origin, m);
    case Deliver(p, verified) => DeliverKeepsSeenKnown(s, p, verified);
    case _ => SameTablesKeepSeenKnown(s, After(s, step));
  }

  lemma AccountedAfter(s: Net, step: Step)
    requires Accounted(s) && Enabled(s, step)
    ensures Accounted(After(s, step))
  {
    PacketsKnownKept(s, step);
    SeenKnownKept(s, step);
    OutboxMintedKept(s, step);
  }

  lemma {:induction false} AccountedOverRun(s: Net, steps: seq<Step>)
    requires Accounted(s) && Possible(s, steps)
    ensures Accounted(Run(s, steps))
  {
    if steps != [] {
      var before, step := steps[..|steps| - 1], steps[|steps| - 1];
      AccountedOverRun(s, before);
      AccountedAfter(Run(s, before), step);
    }
  }

  lemma OriginsLeadKept(s: Net, step: Step, id: string)
    requires OriginsLead(s, id) && (step.Originate? && step.msg.id == id ==> ClockOk(s, step.msg))
    ensures OriginsLead(After(s, step), id)
  {
    forall m | m in After(s, step).minted && m.id == id ensures Has(After(s, step), m.origin, StampOf(m)) {
      if m in s.minted { HasKept(s, step, m.origin, StampOf(m)); }
    }
  }

  lemma {:induction false} OriginsLeadOverRun(able: set<string>, s: Net, steps: seq<Step>, id: string)
    requires OriginsLead(s, id) && Possible(s, steps) && AllSound(able, id, s, steps)
    ensures OriginsLead(Run(s, steps), id)
  {
    if steps != [] {
      var before := steps[..|steps| - 1];
      OriginsLeadOverRun(able, s, before, id);
      OriginsLeadKept(Run(s, before), steps[|steps| - 1], id);
    }
  }

  // Along which nodes envelopes come

  /** The stamp was minted by a node from which nodes able to verify it lead to `n`. */
  ghost predicate MintedVia(able: set<string>, s: Net, n: string, st: Stamp) {
    exists m :: m in s.minted && StampOf(m) == st && Connected(Into(s.links, able), m.origin, n)
  }

  ghost predicate PacketRooted(able: set<string>, s: Net, p: Packet) {
    && p.msg in s.minted && p.from in s.links && p.to in s.links[p.from]
    && Connected(Into(s.links, able), p.msg.origin, p.from)
  }

  ghost predicate PacketsRooted(able: set<string>, s: Net, id: string) {
    forall p :: p in Transit(s) && p.msg.id == id ==> PacketRooted(able, s, p)
  }

  ghost predicate SeenRooted(able: set<string>, s: Net, id: string) {
    forall n :: n in s.links && id in SeenAt(s, n) ==> MintedVia(able, s, n, Stamp(id, SeenAt(s, n)[id]))
  }

  /** On links that do not change: what is anywhere under the ID came from its minter through verifying nodes. */
  ghost predicate Rooted(able: set<string>, s: Net, id: string) {
    PacketsRooted(able, s, id) && SeenRooted(able, s, id) && OutboxMinted(s)
  }

  lemma ViaKept(able: set<string>, s: Net, t: Net, n: string, st: Stamp)
    requires t.links == s.links && s.minted <= t.minted && MintedVia(able, s, n, st)
    ensures MintedVia(able, t, n, st)
  {}

  lemma FanoutRooted(able: set<string>, s: Net, n: string, m: Message, id: string)
    requires PacketsRooted(able, s, id) && n in s.links
    requires m.id == id ==> m in s.minted && Connected(Into(s.links, able), m.origin, n)
    ensures PacketsRooted(able, Broadcasting(s, n, m), id)
  {
    var t := Broadcasting(s, n, m);
    forall p | p in Transit(t) && p.msg.id == id ensures PacketRooted(able, t, p) {
      assert p in Transit(s) || p in Fanout(n, s.links[n], m);
      if p in Transit(s) { assert PacketRooted(able, s, p); }
    }
  }

  lemma OriginatePacketsRooted(able: set<string>, s: Net, m: Message, id: string)
    requires PacketsRooted(able, s, id) && m.origin in s.links
    ensures PacketsRooted(able, AfterOriginate(s, m), id)
  {
    var s1 := Recorded(s, m.origin, m).(outbox := s.outbox[m.origin := OutboxAt(s, m.origin)[m.id := m]],
                                        minted := s.minted + {m});
    assert Transit(s1) == Transit(s);
    forall p | p in Transit(s1) && p.msg.id == id ensures PacketRooted(able, s1, p) { assert PacketRooted(able, s, p); }
    ConnectedSelf(Into(s.links, able), m.origin);
    FanoutRooted(able, s1, m.origin, m, id);
  }

  /** The envelope of a packet has come as far as its receiver, if that can verify. */
  lemma PacketComes(able: set<string>, s: Net, p: Packet)
    requires PacketRooted(able, s, p) && p.to in able
    ensures Connected(Into(s.links, able), p.msg.origin, p.to)
  {
    ConnectedStep(Into(s.links, able), p.msg.origin, p.from, p.to);
  }

  lemma DeliverPacketsRooted(able: set<string>, s: Net, p: Packet, verified: bool, id: string)
    requires PacketsRooted(able, s, id) && p in s.flight && p.to in s.links && Barred(able, id, Deliver(p, verified))
    ensures PacketsRooted(able, AfterDeliver(s, p, verified), id)
  {
    var s1 := s.(flight := s.flight - multiset{p});
    assert forall q :: q in Transit(s1) ==> q in Transit(s);
    assert p in Transit(s);
    var s2 := Recorded(s1, p.to, p.msg);
    assert Transit(s2) == Transit(s1);
    forall q | q in Transit(s1) && q.msg.id == id ensures PacketRooted(able, s1, q) && PacketRooted(able, s2, q) {
      assert PacketRooted(able, s, q);
    }
    if verified {
      if p.msg.id == id { PacketComes(able, s, p); }
      FanoutRooted(able, s2, p.to, p.msg, id);
    }
  }

  lemma ResendPacketsRooted(able: set<string>, s: Net, n: string, id: string)
    requires PacketsRooted(able, s, id) && OutboxMinted(s) && n in s.links
    ensures PacketsRooted(able, After(s, Resend(n)), id)
  {
    var t := After(s, Resend(n));
    ConnectedSelf(Into(s.links, able), n);
    forall p | p in Transit(t) && p.msg.id == id ensures PacketRooted(able, t, p) {
      assert p in Transit(s) || p in OutboxPackets(s, n);
      if p in Transit(s) { assert PacketRooted(able, s, p); }
    }
  }

  lemma FewerPacketsRooted(able: set<string>, s: Net, t: Net, id: string)
    requires PacketsRooted(able, s, id) && t.links == s.links && t.minted == s.minted
    requires forall q :: q in Transit(t) ==> q in Transit(s)
    ensures PacketsRooted(able, t, id)
  {
    forall q | q in Transit(t) && q.msg.id == id ensures PacketRooted(able, t, q) { assert PacketRooted(able, s, q); }
  }

  lemma PacketsRootedKept(able: set<string>, s: Net, step: Step, id: string)
    requires Rooted(able, s, id) && Accounted(s) && Enabled(s, step) && Barred(able, id, step)
    ensures PacketsRooted(able, After(s, step), id)
  {
    match step
    case Originate(m) => OriginatePacketsRooted(able, s, m, id);
    case Transmit(p) =>
      TransmitKeepsTransit(s, p);
      FewerPacketsRooted(able, s, After(s, step), id);
    case Deliver(p, verified) =>
      assert p in Transit(s);
      DeliverPacketsRooted(able, s, p, verified, id);
    case Resend(n) => ResendPacketsRooted(able, s, n, id);
    case Lose(p) =>
      assert forall q :: q in Transit(After(s, step)) ==> q in Transit(s);
      FewerPacketsRooted(able, s, After(s, step), id);
  }

  lemma RecordingSeenRooted(able: set<string>, s: Net, t: Net, a: string, m: Message, id: string)
    requires SeenRooted(able, s, id) && t.links == s.links && s.minted <= t.minted && m in t.minted
    requires m.id == id ==> Connected(Into(t.links, able), m.origin, a)
    requires SeenAt(t, a) == SeenAt(s, a)[m.id := m.ts] && forall n :: n != a ==> SeenAt(t, n) == SeenAt(s, n)
    ensures SeenRooted(able, t, id)
  {
    forall n | n in t.links && id in SeenAt(t, n) ensures MintedVia(able, t, n, Stamp(id, SeenAt(t, n)[id])) {
      if n == a && id == m.id {
        assert StampOf(m) == Stamp(id, SeenAt(t, n)[id]);
      } else {
        ViaKept(able, s, t, n, Stamp(id, SeenAt(s, n)[id]));
      }
    }
  }

  lemma SameSeenRooted(able: set<string>, s: Net, t: Net, id: string)
    requires SeenRooted(able, s, id) && t.links == s.links && t.seen == s.seen && t.minted == s.minted
    ensures SeenRooted(able, t, id)
  {
    forall n | n in t.links && id in SeenAt(t, n) ensures MintedVia(able, t, n, Stamp(id, SeenAt(t, n)[id])) {
      ViaKept(able, s, t, n, Stamp(id, SeenAt(s, n)[id]));
    }
  }

  lemma DeliverSeenRooted(able: set<string>, s: Net, p: Packet, verified: bool, id: string)
    requires SeenRooted(able, s, id) && PacketsRooted(able, s, id) && p in s.flight && p.msg in s.minted
    requires Barred(able, id, Deliver(p, verified))
    ensures SeenRooted(able, AfterDeliver(s, p, verified), id)
  {
    assert p in Transit(s);
    if verified && Newer(SeenAt(s, p.to), StampOf(p.msg)) {
      if p.msg.id == id { PacketComes(able, s, p); }
      TakenTables(s, p);
      RecordingSeenRooted(able, s, AfterDeliver(s, p, verified), p.to, p.msg, id);
    } else {
      SameSeenRooted(able, s, AfterDeliver(s, p, verified), id);
    }
  }

  lemma TakenTables(s: Net, p: Packet)
    requires Newer(SeenAt(s, p.to), StampOf(p.msg))
    ensures var t := AfterDeliver(s, p, true);
            && t.links == s.links && t.minted == s.minted
            && SeenAt(t, p.to) == SeenAt(s, p.to)[p.msg.id := p.msg.ts]
            && forall n :: n != p.to ==> SeenAt(t, n) == SeenAt(s, n)
  {}

  lemma SeenRootedKept(able: set<string>, s: Net, step: Step, id: string)
    requires Rooted(able, s, id) && Accounted(s) && Enabled(s, step) && Barred(able, id, step)
    ensures SeenRooted(able, After(s, step), id)
  {
    match step
    case Originate(m) =>
      ConnectedSelf(Into(s.links, able), m.origin);
      RecordingSeenRooted(able, s, AfterOriginate(s, m), m.origin, m, id);
    case Deliver(p, verified) =>
      assert p in Transit(s);
      DeliverSeenRooted(able, s, p, verified, id);
    case _ => SameSeenRooted(able, s, After(s, step), id);
  }

  ghost predicate AllBarred(able: set<string>, id: string, steps: seq<Step>) {
    forall i :: 0 <= i < |steps| ==> Barred(able, id, steps[i])
  }

  /** Losses included: nothing gets past a node that cannot verify it. */
  lemma {:induction false} RootedOverRun(able: set<string>, s: Net, steps: seq<Step>, id: string)
    requires Rooted(able, s, id) && Accounted(s) && Possible(s, steps) && AllBarred(able, id, steps)
    ensures Rooted(able, Run(s, steps), id) && Accounted(Run(s, steps))
  {
    if steps != [] {
      var before, step := steps[..|steps| - 1], steps[|steps| - 1];
      RootedOverRun(able, s, before, id);
      PacketsRootedKept(able, Run(s, before), step, id);
      SeenRootedKept(able, Run(s, before), step, id);
      AccountedAfter(Run(s, before), step);
    }
  }

  lemma {:induction false} SoundIsBarred(able: set<string>, id: string, s: Net, steps: seq<Step>)
    requires AllSound(able, id, s, steps)
    ensures AllBarred(able, id, steps)
  {
    if steps != [] {
      SoundIsBarred(able, id, s, steps[..|steps| - 1]);
      assert forall i :: 0 <= i < |steps| - 1 ==> steps[i] == steps[..|steps| - 1][i];
    }
  }

  // Agreement

  /** What a node minted under the ID from which nodes able to verify it lead to `n`. */
  ghost predicate NearMint(able: set<string>, s: Net, n: string, id: string, m: Message) {
    m in s.minted && m.id == id && Connected(Into(s.links, able), m.origin, n)
  }

  /** The table entry is the highest time stamp so minted for the ID, and is there if any is. */
  ghost predicate HoldsNewestMint(able: set<string>, s: Net, n: string, id: string) {
    && (id in SeenAt(s, n) ==> exists m :: NearMint(able, s, n, id, m) && m.ts == SeenAt(s, n)[id])
    && (forall m :: NearMint(able, s, n, id, m) ==> id in SeenAt(s, n) && m.ts <= SeenAt(s, n)[id])
  }

  /**
  On any topology, whoever can verify, and whatever happens under other IDs: when nothing under the ID is in transit
  after a run that is sound for it, every node holds the newest version that verifying nodes lead to it from.
  */
  lemma AgreementAtQuiescence(able: set<string>, s: Net, steps: seq<Step>, n: string, id: string)
    requires Fresh(s) && Possible(s, steps) && AllSound(able, id, s, steps) && NothingUnder(Run(s, steps), id)
    requires n in s.links
    ensures HoldsNewestMint(able, Run(s, steps), n, id)
  {
    EntriesAreRooted(able, s, steps, id);
    EntryHasMint(able, Run(s, steps), n, id);
    forall m | NearMint(able, Run(s, steps), n, id, m)
      ensures id in SeenAt(Run(s, steps), n) && m.ts <= SeenAt(Run(s, steps), n)[id]
    {
      MintArrives(able, s, steps, n, m);
    }
  }

  lemma EntriesAreRooted(able: set<string>, s: Net, steps: seq<Step>, id: string)
    requires Fresh(s) && Possible(s, steps) && AllSound(able, id, s, steps)
    ensures Run(s, steps).links == s.links && SeenRooted(able, Run(s, steps), id)
  {
    LinksConstant(s, steps);
    SoundIsBarred(able, id, s, steps);
    RootedOverRun(able, s, steps, id);
  }

  lemma EntryHasMint(able: set<string>, t: Net, n: string, id: string)
    requires SeenRooted(able, t, id) && n in t.links
    ensures id in SeenAt(t, n) ==> exists m :: NearMint(able, t, n, id, m) && m.ts == SeenAt(t, n)[id]
  {
    if id in SeenAt(t, n) {
      var st := Stamp(id, SeenAt(t, n)[id]);
      assert MintedVia(able, t, n, st);
      var m :| m in t.minted && StampOf(m) == st && Connected(Into(t.links, able), m.origin, n);
      assert NearMint(able, t, n, id, m);
    }
  }

  lemma MintArrives(able: set<string>, s: Net, steps: seq<Step>, n: string, m: Message)
    requires Fresh(s) && Possible(s, steps) && AllSound(able, m.id, s, steps) && NothingUnder(Run(s, steps), m.id)
    requires NearMint(able, Run(s, steps), n, m.id, m)
    ensures Has(Run(s, steps), n, StampOf(m))
  {
    LinksConstant(s, steps);
    OriginsLeadOverRun(able, s, steps, m.id);
    AccountedOverRun(s, steps);
    SpreadsBetween(able, s, steps, m.origin, n, StampOf(m));
  }

  /** Two nodes that verifying nodes lead to from each other have the same entry. */
  lemma QuietTablesAgree(able: set<string>, s: Net, steps: seq<Step>, a: string, b: string, id: string)
    requires Fresh(s) && Possible(s, steps) && AllSound(able, id, s, steps) && NothingUnder(Run(s, steps), id)
    requires a in s.links && b in s.links
    requires Connected(Into(s.links, able), a, b) && Connected(Into(s.links, able), b, a)
    ensures SameEntry(SeenAt(Run(s, steps), a), SeenAt(Run(s, steps), b), id)
  {
    var t := Run(s, steps);
    if id in SeenAt(t, a) { SpreadsBetween(able, s, steps, a, b, Stamp(id, SeenAt(t, a)[id])); }
    if id in SeenAt(t, b) { SpreadsBetween(able, s, steps, b, a, Stamp(id, SeenAt(t, b)[id])); }
  }

  ghost predicate SameEntry(seen: Seen, seen': Seen, id: string) {
    (id in seen <==> id in seen') && (id in seen ==> seen[id] == seen'[id])
  }

  lemma SpreadsBetween(able: set<string>, s: Net, steps: seq<Step>, a: string, b: string, st: Stamp)
    requires Fresh(s) && Possible(s, steps) && AllSound(able, st.id, s, steps) && NothingUnder(Run(s, steps), st.id)
    requires a in s.links && Connected(Into(s.links, able), a, b) && Has(Run(s, steps), a, st)
    ensures Has(Run(s, steps), b, st)
  {
    LinksConstant(s, steps);
    FloodedOverRun(able, s, steps, st);
    QuietSpreads(able, Run(s, steps), st, a, b);
  }
}
