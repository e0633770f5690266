/** What re-sending the outbox repairs after losses, how far it reaches, and what a fresh announcement repairs. */
module Heartbeat {
  import opened Claims
  import opened Flood
  import opened Messages
  import opened Paths
  import opened Planes
  import opened Transports

  lemma {:induction false} ArrivesOverRun(able: set<string>, s: Net, steps: seq<Step>, n: string, st: Stamp)
    requires Possible(s, steps) && AllSound(able, st.id, s, steps) && n in able
    requires Carried(s, n, st) || Has(s, n, st)
    ensures Carried(Run(s, steps), n, st) || Has(Run(s, steps), n, st)
  {
    if steps != [] {
      var before, step := steps[..|steps| - 1], steps[|steps| - 1];
      ArrivesOverRun(able, s, before, n, st);
      var t := Run(s, before);
      if Has(t, n, st) { HasKept(t, step, n, st); } else { CarriedOrArrived(able, t, step, n, st); }
    }
  }

  /** Whatever was lost before: once a resend has been delivered, every direct peer that can verify it is up to date. */
  lemma ResendRepairsPeers(able: set<string>, s: Net, n: string, steps: seq<Step>, peer: string, m: Message)
    requires n in s.links && peer in s.links[n] && peer in able && m.id in OutboxAt(s, n) && OutboxAt(s, n)[m.id] == m
    requires Possible(After(s, Resend(n)), steps) && AllSound(able, m.id, After(s, Resend(n)), steps)
    requires NothingUnder(Run(After(s, Resend(n)), steps), m.id)
    ensures Has(Run(After(s, Resend(n)), steps), peer, StampOf(m))
  {
    var t := After(s, Resend(n));
    var p := Packet(n, peer, OutboxAt(s, n)[m.id]);
    assert peer in PeersOf(s, n) && p in OutboxPackets(s, n);
    assert p in Transit(t) && Brings(p, peer, StampOf(m));
    ArrivesOverRun(able, t, steps, peer, StampOf(m));
  }

  ghost predicate NothingComing(s: Net, c: string, id: string) {
    forall p :: p in Transit(s) && p.msg.id == id ==> p.to != c
  }

  ghost predicate PeersCurrent(s: Net, c: string, id: string) {
    forall b, m :: b in s.links && c in s.links[b] && m in s.minted && m.id == id ==> Has(s, b, StampOf(m))
  }

  ghost predicate PeersSilent(s: Net, c: string, id: string) {
    forall b :: b in s.links && c in s.links[b] ==> id !in OutboxAt(s, b)
  }

  /**
  A node is out of reach for an ID: nothing under it is on its way there, all its peers already have the newest
  version and will forward no more, and none of them is the one that announces it.
  */
  ghost predicate OutOfReach(s: Net, c: string, id: string) {
    NothingComing(s, c, id) && PeersCurrent(s, c, id) && PeersSilent(s, c, id)
  }

  /** A step that mints nothing under the ID takes nothing under it away either. */
  lemma HasKeptWithoutMint(s: Net, step: Step, n: string, st: Stamp)
    requires step.Originate? ==> step.msg.id != st.id
    requires Has(s, n, st)
    ensures Has(After(s, step), n, st)
  {}

  /** A packet that a step puts on the wire. */
  lemma NewPacket(s: Net, step: Step, p: Packet)
    requires Enabled(s, step) && p in Transit(After(s, step)) && p !in Transit(s)
    ensures p.to in PeersOf(s, p.from)
    ensures || (step.Originate? && p.msg == step.msg && p.from == step.msg.origin)
            || (&& step.Deliver? && step.verified && p.from == step.p.to && p.msg == step.p.msg
                && Newer(SeenAt(s, p.from), StampOf(p.msg)))
            || (step.Resend? && exists id :: id in OutboxAt(s, p.from) && p.msg == OutboxAt(s, p.from)[id])
  {
    if step.Transmit? {
      TransmitKeepsTransit(s, step.p);
    }
  }

  lemma NoNewPacketTo(s: Net, step: Step, c: string, id: string, p: Packet)
    requires Accounted(s) && Enabled(s, step) && OutOfReach(s, c, id)
    requires step.Originate? ==> step.msg.id != id
    requires p in Transit(After(s, step)) && p.msg.id == id
    ensures p.to != c
  {
    if p !in Transit(s) {
      NewPacket(s, step, p);
      if step.Deliver? { assert step.p in Transit(s); }
    }
  }

  lemma PeersStayCurrent(s: Net, step: Step, c: string, id: string)
    requires PeersCurrent(s, c, id)
    requires step.Originate? ==> step.msg.id != id
    ensures PeersCurrent(After(s, step), c, id)
  {
    var t := After(s, step);
    forall b, m | b in t.links && c in t.links[b] && m in t.minted && m.id == id ensures Has(t, b, StampOf(m)) {
      assert m in s.minted;
      HasKeptWithoutMint(s, step, b, StampOf(m));
    }
  }

  lemma PeersStaySilent(s: Net, step: Step, c: string, id: string)
    requires PeersSilent(s, c, id)
    requires step.Originate? ==> step.msg.id != id
    ensures PeersSilent(After(s, step), c, id)
  {
    if step.Originate? {
      OriginateStaysSilent(s, step.msg, c, id);
    } else {
      OnlyAnnouncementsEnterOutbox(s, step);
      SameOutboxStaysSilent(s, After(s, step), c, id);
    }
  }

  lemma SameOutboxStaysSilent(s: Net, t: Net, c: string, id: string)
    requires PeersSilent(s, c, id) && t.outbox == s.outbox && t.links == s.links
    ensures PeersSilent(t, c, id)
  {
    assert forall b :: OutboxAt(t, b) == OutboxAt(s, b);
  }

  lemma OriginateStaysSilent(s: Net, m: Message, c: string, id: string)
    requires PeersSilent(s, c, id) && m.id != id
    ensures PeersSilent(AfterOriginate(s, m), c, id)
  {
    var t := AfterOriginate(s, m);
    forall b | b in t.links && c in t.links[b] ensures id !in OutboxAt(t, b) {
      assert id !in OutboxAt(s, b);
    }
  }

  lemma OutOfReachKept(s: Net, step: Step, c: string, id: string)
    requires Accounted(s) && Enabled(s, step) && OutOfReach(s, c, id)
    requires step.Originate? ==> step.msg.id != id
    ensures OutOfReach(After(s, step), c, id)
  {
    forall p | p in Transit(After(s, step)) && p.msg.id == id ensures p.to != c {
      NoNewPacketTo(s, step, c, id, p);
    }
    PeersStayCurrent(s, step, c, id);
    PeersStaySilent(s, step, c, id);
  }

  /** The table of a node out of reach does not change at the ID. */
  lemma OutOfReachSees(s: Net, step: Step, c: string, id: string)
    requires Enabled(s, step) && NothingComing(s, c, id)
    requires step.Originate? ==> step.msg.id != id
    ensures id in SeenAt(After(s, step), c) <==> id in SeenAt(s, c)
    ensures id in SeenAt(s, c) ==> SeenAt(After(s, step), c)[id] == SeenAt(s, c)[id]
  {
    if step.Deliver? {
      assert step.p in Transit(s);
    }
  }

  /** Under heartbeats, deliveries and losses alone such a node never learns anything about the ID. */
  lemma {:induction false} OutOfReachForever(s: Net, steps: seq<Step>, c: string, id: string)
    requires Accounted(s) && Possible(s, steps) && OutOfReach(s, c, id)
    requires forall i :: 0 <= i < |steps| && steps[i].Originate? ==> steps[i].msg.id != id
    ensures OutOfReach(Run(s, steps), c, id)
    ensures id in SeenAt(Run(s, steps), c) <==> id in SeenAt(s, c)
    ensures id in SeenAt(s, c) ==> SeenAt(Run(s, steps), c)[id] == SeenAt(s, c)[id]
  {
    if steps != [] {
      var before := steps[..|steps| - 1];
      OutOfReachForever(s, before, c, id);
      AccountedOverRun(s, before);
      OutOfReachKept(Run(s, before), steps[|steps| - 1], c, id);
      OutOfReachSees(Run(s, before), steps[|steps| - 1], c, id);
    }
  }

  function Line(a: string, b: string, c: string): Net {
    Net(map[a := {b}, b := {a, c}, c := {b}], map[], map[], multiset{}, multiset{}, {})
  }

  /** Three nodes in a line: when the middle one's forward is lost, the far end is out of reach though connected. */
  lemma TwoHopsCanBeCutOff(a: string, b: string, c: string, m: Message) returns (steps: seq<Step>)
    requires a != b && b != c && a != c && m.origin == a
    ensures Fresh(Line(a, b, c)) && Possible(Line(a, b, c), steps)
    ensures var s := Run(Line(a, b, c), steps);
            && OutOfReach(s, c, m.id) && m.id in OutboxAt(s, a) && m.id !in SeenAt(s, c)
            && Connected(s.links, a, c)
  {
    LineFresh(a, b, c);
    LineCutOutOfReach(a, b, c, m);
    steps := LineCutReached(a, b, c, m);
  }

  lemma LineFresh(a: string, b: string, c: string)
    requires a != b && b != c && a != c
    ensures Fresh(Line(a, b, c))
  {}

  lemma LineCutReached(a: string, b: string, c: string, m: Message) returns (steps: seq<Step>)
    requires a != b && b != c && a != c && m.origin == a
    ensures Possible(Line(a, b, c), steps) && Run(Line(a, b, c), steps) == LineCut(a, b, c, m)
  {
    var s0, bc := Line(a, b, c), Packet(b, c, m);
    var head := LineHead(a, b, c, m);
    LineTail(a, b, c, m);
    RunExtended(s0, head, Transmit(bc));
    RunExtended(s0, head + [Transmit(bc)], Lose(bc));
    steps := head + [Transmit(bc)] + [Lose(bc)];
  }

  lemma LineHead(a: string, b: string, c: string, m: Message) returns (steps: seq<Step>)
    requires a != b && b != c && a != c && m.origin == a
    ensures Possible(Line(a, b, c), steps)
    ensures Run(Line(a, b, c), steps) == LineCut(a, b, c, m).(pending := multiset{Packet(b, a, m), Packet(b, c, m)})
  {
    var s0, ab := Line(a, b, c), Packet(a, b, m);
    LineStart(a, b, c, m);
    RunExtended(s0, [], Originate(m));
    RunExtended(s0, [] + [Originate(m)], Transmit(ab));
    steps := [] + [Originate(m)] + [Transmit(ab)];
    var s2 := LineCut(a, b, c, m).(seen := map[a := map[m.id := m.ts]], pending := multiset{}, flight := multiset{ab});
    assert Run(s0, steps) == s2;
    LineMiddle(s2, a, b, c, m);
    RunExtended(s0, steps, Deliver(ab, true));
    steps := steps + [Deliver(ab, true)];
  }

  lemma LineTail(a: string, b: string, c: string, m: Message)
    requires a != b && b != c && a != c
    ensures var bc := Packet(b, c, m);
            var s3 := LineCut(a, b, c, m).(pending := multiset{Packet(b, a, m), bc});
            && Enabled(s3, Transmit(bc)) && Enabled(After(s3, Transmit(bc)), Lose(bc))
            && After(After(s3, Transmit(bc)), Lose(bc)) == LineCut(a, b, c, m)
  {
    var ba, bc := Packet(b, a, m), Packet(b, c, m);
    assert multiset{ba, bc} - multiset{bc} == multiset{ba};
  }

  /** The net after the forward to `c` was lost. */
  function LineCut(a: string, b: string, c: string, m: Message): Net {
    Line(a, b, c).(seen := map[a := map[m.id := m.ts], b := map[m.id := m.ts]], outbox := map[a := map[m.id := m]],
                   pending := multiset{Packet(b, a, m)}, minted := {m})
  }

  lemma LineCutOutOfReach(a: string, b: string, c: string, m: Message)
    requires a != b && b != c && a != c
    ensures var s := LineCut(a, b, c, m);
            && OutOfReach(s, c, m.id) && m.id in OutboxAt(s, a) && m.id !in SeenAt(s, c)
            && Connected(s.links, a, c)
  {
    assert IsPath(Line(a, b, c).links, [a, b, c]);
  }

  lemma LineStart(a: string, b: string, c: string, m: Message)
    requires a != b && b != c && a != c && m.origin == a
    ensures After(Line(a, b, c), Originate(m)) ==
              Line(a, b, c).(seen := map[a := map[m.id := m.ts]], outbox := map[a := map[m.id := m]],
                             pending := multiset{Packet(a, b, m)}, minted := {m})
  {
    assert Fanout(a, {b}, m) == {Packet(a, b, m)};
  }

  lemma LineMiddle(s: Net, a: string, b: string, c: string, m: Message)
    requires s.links == Line(a, b, c).links && a != b && b != c && a != c
    requires b !in s.seen && s.pending == multiset{} && s.flight == multiset{Packet(a, b, m)}
    ensures After(s, Deliver(Packet(a, b, m), true)) ==
              s.(seen := s.seen[b := map[m.id := m.ts]], flight := multiset{},
                 pending := multiset{Packet(b, a, m), Packet(b, c, m)})
  {
    assert Fanout(b, {a, c}, m) == {Packet(b, a, m), Packet(b, c, m)};
    assert multiset(Fanout(b, {a, c}, m)) == multiset{Packet(b, a, m), Packet(b, c, m)};
  }

  // A clock that steps back

  ghost predicate TransitOld(s: Net, id: string, ts: int) {
    forall p :: p in Transit(s) && p.msg.id == id ==> p.msg.ts <= ts
  }

  ghost predicate OutboxOld(s: Net, id: string, ts: int) {
    forall n :: n in s.links && id in OutboxAt(s, n) ==> OutboxAt(s, n)[id].ts <= ts
  }

  /** Nothing newer than `ts` under the ID is on its way or in an outbox. */
  ghost predicate OnlyOldNews(s: Net, id: string, ts: int) {
    OutboxMinted(s) && TransitOld(s, id, ts) && OutboxOld(s, id, ts)
  }

  lemma OldNewsKept(s: Net, step: Step, id: string, ts: int)
    requires OnlyOldNews(s, id, ts) && Enabled(s, step)
    requires step.Originate? && step.msg.id == id ==> step.msg.ts <= ts
    ensures OnlyOldNews(After(s, step), id, ts)
  {
    TransitStaysOld(s, step, id, ts);
    OutboxStaysOld(s, step, id, ts);
    OutboxMintedKept(s, step);
  }

  lemma TransitStaysOld(s: Net, step: Step, id: string, ts: int)
    requires OnlyOldNews(s, id, ts) && Enabled(s, step)
    requires step.Originate? && step.msg.id == id ==> step.msg.ts <= ts
    ensures TransitOld(After(s, step), id, ts)
  {
    forall p | p in Transit(After(s, step)) && p.msg.id == id ensures p.msg.ts <= ts {
      if p !in Transit(s) {
        NewPacket(s, step, p);
        if step.Deliver? {
          assert step.p in Transit(s);
        } else if step.Resend? {
          var i :| i in OutboxAt(s, p.from) && p.msg == OutboxAt(s, p.from)[i];
          assert i == id;
        }
      }
    }
  }

  lemma OutboxStaysOld(s: Net, step: Step, id: string, ts: int)
    requires OutboxOld(s, id, ts)
    requires step.Originate? && step.msg.id == id ==> step.msg.ts <= ts
    ensures OutboxOld(After(s, step), id, ts)
  {
    var t := After(s, step);
    forall n | n in t.links && id in OutboxAt(t, n) ensures OutboxAt(t, n)[id].ts <= ts {
      if !(step.Originate? && step.msg.id == id && step.msg.origin == n) {
        assert id in OutboxAt(s, n) && OutboxAt(t, n)[id] == OutboxAt(s, n)[id];
      }
    }
  }

  /** A node that stands at the time stamp stays there while no newer news is about. */
  lemma StaysAt(s: Net, step: Step, a: string, id: string, ts: int)
    requires TransitOld(s, id, ts) && Enabled(s, step)
    requires step.Originate? ==> step.msg.id != id
    requires id in SeenAt(s, a) && SeenAt(s, a)[id] == ts
    ensures id in SeenAt(After(s, step), a) && SeenAt(After(s, step), a)[id] == ts
  {
    if step.Deliver? { assert step.p in Transit(s); }
  }

  /**
  A node whose clock stepped back announces a time stamp older than a peer has, and nothing newer is on its way. No
  further deliveries, losses or heartbeats ever bring the two together again.
  */
  lemma StepBackNeverHeals(s: Net, m: Message, steps: seq<Step>, b: string)
    requires OutboxMinted(s) && TransitOld(s, m.id, m.ts) && m.origin in s.links
    requires forall n :: n in s.links && m.id in OutboxAt(s, n) ==> n == m.origin
    requires m.id in SeenAt(s, b) && m.ts < SeenAt(s, b)[m.id] && b != m.origin
    requires Possible(After(s, Originate(m)), steps)
    requires forall i :: 0 <= i < |steps| && steps[i].Originate? ==> steps[i].msg.id != m.id
    ensures var t := Run(After(s, Originate(m)), steps);
            && m.id in SeenAt(t, m.origin) && SeenAt(t, m.origin)[m.id] == m.ts
            && m.id in SeenAt(t, b) && SeenAt(t, b)[m.id] >= SeenAt(s, b)[m.id]
  {
    StepBackStart(s, m);
    StaysBehind(After(s, Originate(m)), m, steps, b, SeenAt(s, b)[m.id]);
  }

  lemma StepBackStart(s: Net, m: Message)
    requires OutboxMinted(s) && TransitOld(s, m.id, m.ts) && m.origin in s.links
    requires forall n :: n in s.links && m.id in OutboxAt(s, n) ==> n == m.origin
    ensures OnlyOldNews(After(s, Originate(m)), m.id, m.ts)
  {
    var t := After(s, Originate(m));
    OutboxMintedKept(s, Originate(m));
    forall p | p in Transit(t) && p.msg.id == m.id ensures p.msg.ts <= m.ts {
      if p !in Transit(s) { NewPacket(s, Originate(m), p); }
    }
    forall n | n in t.links && m.id in OutboxAt(t, n) ensures OutboxAt(t, n)[m.id].ts <= m.ts {
      assert n == m.origin;
    }
  }

  lemma {:induction false} StaysBehind(s: Net, m: Message, steps: seq<Step>, b: string, high: int)
    requires OnlyOldNews(s, m.id, m.ts) && Possible(s, steps)
    requires forall i :: 0 <= i < |steps| && steps[i].Originate? ==> steps[i].msg.id != m.id
    requires m.id in SeenAt(s, m.origin) && SeenAt(s, m.origin)[m.id] == m.ts && Has(s, b, Stamp(m.id, high))
    ensures var t := Run(s, steps);
            && OnlyOldNews(t, m.id, m.ts)
            && m.id in SeenAt(t, m.origin) && SeenAt(t, m.origin)[m.id] == m.ts && Has(t, b, Stamp(m.id, high))
  {
    if steps != [] {
      var before, step := steps[..|steps| - 1], steps[|steps| - 1];
      StaysBehind(s, m, before, b, high);
      var t := Run(s, before);
      OldNewsKept(t, step, m.id, m.ts);
      StaysAt(t, step, m.origin, m.id, m.ts);
      HasKeptWithoutMint(t, step, b, Stamp(m.id, high));
    }
  }

  lemma {:induction false} HasOverRun(able: set<string>, s: Net, steps: seq<Step>, n: string, st: Stamp)
    requires Possible(s, steps) && AllSound(able, st.id, s, steps) && Has(s, n, st)
    ensures Has(Run(s, steps), n, st)
  {
    if steps != [] {
      var before := steps[..|steps| - 1];
      HasOverRun(able, s, before, n, st);
      HasKept(Run(s, before), steps[|steps| - 1], n, st);
    }
  }
}
