/** What one announcement and one heartbeat bring up to date, exactly, whatever happened in the net before. */
module Repairs {
  import opened Claims
  import opened Flood
  import opened Heartbeat
  import opened Messages
  import opened Paths
  import opened Planes
  import opened Reach
  import opened Termination
  import opened Transports

  // Paths through lagging nodes

  lemma WiderPath(links: Links, lag: set<string>, wide: set<string>, a: string, b: string)
    requires lag <= wide && Connected(Into(links, lag), a, b)
    ensures Connected(Into(links, wide), a, b)
  {
    MoreLinksMorePaths(Into(links, lag), Into(links, wide), a, b);
  }

  lemma FirstStep(links: Links, lag: set<string>, o: string, b: string, n: string)
    requires o in links && b in links[o] && b in lag && Connected(Into(links, lag), b, n)
    ensures Connected(Into(links, lag), o, n)
  {
    var into := Into(links, lag);
    ConnectedSelf(into, o);
    ConnectedStep(into, o, o, b);
    ConnectedTransitive(into, o, b, n);
  }

  /** The node can be reached from a lagging neighbour of `o` without coming back to `o`. */
  ghost predicate Beyond(links: Links, lag: set<string>, o: string, n: string) {
    exists b :: o in links && b in links[o] && b in lag - {o} && Connected(Into(links, lag - {o}), b, n)
  }

  lemma BeyondStep(links: Links, lag: set<string>, o: string, x: string, y: string)
    requires Symmetric(links) && o in links && x in links && y in links[x] && y in lag && y != o
    requires x == o || Beyond(links, lag, o, x)
    ensures Beyond(links, lag, o, y)
  {
    var into := Into(links, lag - {o});
    if x == o {
      ConnectedSelf(into, y);
    } else {
      var b :| b in links[o] && b in lag - {o} && Connected(into, b, x);
      ConnectedStep(into, b, x, y);
    }
  }

  lemma PathLeavesStart(links: Links, lag: set<string>, o: string, n: string)
    requires Symmetric(links) && o in links && n != o && Connected(Into(links, lag), o, n)
    ensures Beyond(links, lag, o, n)
  {
    var into := Into(links, lag);
    var ends := {o} + set x | x in links && Beyond(links, lag, o, x);
    forall x, y | x in ends && x in into && y in into[x] ensures y in ends {
      if y != o { BeyondStep(links, lag, o, x, y); }
    }
    ClosedContainsConnected(into, ends, o, n);
  }

  // One owner

  /** No other node repeats envelopes under the ID. */
  ghost predicate SoleOwner(s: Net, id: string, o: string) {
    forall n :: n in s.links && id in OutboxAt(s, n) ==> n == o
  }

  /** All that is under way or will be repeated under the ID of `m` is `m`, from `o` to each of its peers. */
  ghost predicate OnlyFrom(s: Net, steps: seq<Step>, o: string, m: Message) {
    && (forall p :: Source(s, steps, p) && p.msg.id == m.id ==> p.from == o && p.msg == m && p.to in PeersOf(s, o))
    && (forall b :: b in PeersOf(s, o) ==> Source(s, steps, Packet(o, b, m)))
  }

  lemma ReachFromOwner(able: set<string>, t: Net, steps: seq<Step>, o: string, m: Message, n: string)
    requires Tidy(t) && n in t.links && o in t.links && Has(t, o, StampOf(m)) && OnlyFrom(t, steps, o, m)
    requires Possible(t, steps) && AllSound(able, m.id, t, steps)
    requires NoMint(steps, m.id) && NothingUnder(Run(t, steps), m.id)
    ensures Has(Run(t, steps), n, StampOf(m)) <==>
              Has(t, n, StampOf(m)) || Connected(LagLinks(able, t, StampOf(m)), o, n)
  {
    var st := StampOf(m);
    var lag := Lagging(able, t, st);
    SettlesExactly(able, t, steps, n, st);
    if p :| Source(t, steps, p) && Brings(p, p.to, st) && Reaches(able, t, p, n) {
      FirstStep(t.links, lag, o, p.to, n);
    }
    if n != o && Connected(LagLinks(able, t, st), o, n) {
      PathLeavesStart(t.links, lag, o, n);
      assert lag - {o} == lag;
      var b :| b in t.links[o] && b in lag && Connected(Into(t.links, lag), b, n);
      var p := Packet(o, b, m);
      assert Source(t, steps, p) && Brings(p, p.to, st) && Reaches(able, t, p, n);
    }
  }

  // One announcement

  lemma OriginateTidy(s: Net, m: Message)
    requires Tidy(s) && m.origin in s.links
    ensures Tidy(AfterOriginate(s, m))
  {
    var t := AfterOriginate(s, m);
    forall p | p in Transit(t) ensures p.to in t.links {
      if p !in Transit(s) { NewPacket(s, Originate(m), p); }
    }
    forall n, i | n in t.links && i in OutboxAt(t, n) ensures OutboxAt(t, n)[i].id == i {
      if !(n == m.origin && i == m.id) { assert i in OutboxAt(s, n) && OutboxAt(t, n)[i] == OutboxAt(s, n)[i]; }
    }
  }

  lemma AnnouncedOutbox(s: Net, m: Message, n: string, i: string)
    requires Tidy(s) && m.origin in s.links && SoleOwner(s, m.id, m.origin)
    requires n in s.links && i in OutboxAt(AfterOriginate(s, m), n) && OutboxAt(AfterOriginate(s, m), n)[i].id == m.id
    ensures n == m.origin && OutboxAt(AfterOriginate(s, m), n)[i] == m
  {
    OriginateTidy(s, m);
    assert i == m.id;
    assert n != m.origin ==> OutboxAt(AfterOriginate(s, m), n) == OutboxAt(s, n);
  }

  lemma AnnouncedSource(s: Net, m: Message, steps: seq<Step>, p: Packet)
    requires Tidy(s) && m.origin in s.links && NothingUnder(s, m.id) && SoleOwner(s, m.id, m.origin)
    requires Source(AfterOriginate(s, m), steps, p) && p.msg.id == m.id
    ensures p.from == m.origin && p.msg == m && p.to in PeersOf(s, m.origin)
  {
    var t := AfterOriginate(s, m);
    if p in Transit(t) {
      NewPacket(s, Originate(m), p);
    } else {
      var i :| i in OutboxAt(t, p.from) && p.msg == OutboxAt(t, p.from)[i];
      assert p.to in PeersOf(t, p.from);
      AnnouncedOutbox(s, m, p.from, i);
    }
  }

  lemma AnnouncedSources(s: Net, m: Message, steps: seq<Step>)
    requires Tidy(s) && m.origin in s.links && NothingUnder(s, m.id) && SoleOwner(s, m.id, m.origin)
    ensures OnlyFrom(AfterOriginate(s, m), steps, m.origin, m)
  {
    var t := AfterOriginate(s, m);
    forall p | Source(t, steps, p) && p.msg.id == m.id
      ensures p.from == m.origin && p.msg == m && p.to in PeersOf(t, m.origin)
    {
      AnnouncedSource(s, m, steps, p);
    }
    forall b | b in PeersOf(t, m.origin) ensures Source(t, steps, Packet(m.origin, b, m)) {
      assert Packet(m.origin, b, m) in Fanout(m.origin, PeersOf(s, m.origin), m);
      assert Packet(m.origin, b, m) in t.pending;
    }
  }

  /** The announcer itself no longer lags; that changes no path that starts at it. */
  lemma AnnouncerOnPath(links: Links, lag: set<string>, o: string, n: string)
    requires Symmetric(links) && o in links && n != o
    ensures Connected(Into(links, lag - {o}), o, n) <==> Connected(Into(links, lag), o, n)
  {
    if Connected(Into(links, lag - {o}), o, n) { WiderPath(links, lag - {o}, lag, o, n); }
    if Connected(Into(links, lag), o, n) {
      PathLeavesStart(links, lag, o, n);
      var b :| b in links[o] && b in lag - {o} && Connected(Into(links, lag - {o}), b, n);
      FirstStep(links, lag - {o}, o, b, n);
    }
  }

  lemma AnnouncedLag(able: set<string>, s: Net, m: Message)
    requires m.origin in s.links
    ensures Lagging(able, AfterOriginate(s, m), StampOf(m)) == Lagging(able, s, StampOf(m)) - {m.origin}
    ensures Has(AfterOriginate(s, m), m.origin, StampOf(m))
    ensures forall n :: n != m.origin ==> (Has(AfterOriginate(s, m), n, StampOf(m)) <==> Has(s, n, StampOf(m)))
  {
    assert forall n :: n != m.origin ==> SeenAt(AfterOriginate(s, m), n) == SeenAt(s, n);
  }

  /**
  Whatever the time stamp, older, equal or newer here and there: when an announcement has been delivered and
  forwarded to the end, a node has it, or something newer, exactly when it had that before or a path of nodes that
  did not, and can verify it, leads to it from the announcer.
  */
  lemma AnnounceReachesExactly(able: set<string>, s: Net, m: Message, steps: seq<Step>, n: string)
    requires Tidy(s) && m.origin in s.links && n in s.links
    requires NothingUnder(s, m.id) && SoleOwner(s, m.id, m.origin)
    requires Possible(After(s, Originate(m)), steps) && AllSound(able, m.id, After(s, Originate(m)), steps)
    requires NoMint(steps, m.id) && NothingUnder(Run(After(s, Originate(m)), steps), m.id)
    ensures Has(Run(After(s, Originate(m)), steps), n, StampOf(m)) <==>
              Has(s, n, StampOf(m)) || Connected(LagLinks(able, s, StampOf(m)), m.origin, n)
  {
    var t, o, st := AfterOriginate(s, m), m.origin, StampOf(m);
    OriginateTidy(s, m);
    AnnouncedSources(s, m, steps);
    AnnouncedLag(able, s, m);
    ReachFromOwner(able, t, steps, o, m, n);
    if n == o {
      ConnectedSelf(LagLinks(able, s, st), o);
    } else {
      AnnouncerOnPath(s.links, Lagging(able, s, st), o, n);
    }
  }

  // One heartbeat

  lemma ResendTidy(s: Net, o: string)
    requires Tidy(s) && o in s.links
    ensures Tidy(After(s, Resend(o)))
  {
    var t := After(s, Resend(o));
    forall p | p in Transit(t) ensures p.to in t.links {
      if p !in Transit(s) { NewPacket(s, Resend(o), p); }
    }
    assert forall n :: OutboxAt(t, n) == OutboxAt(s, n);
  }

  lemma ResentSource(s: Net, o: string, id: string, steps: seq<Step>, p: Packet)
    requires Tidy(s) && o in s.links && id in OutboxAt(s, o) && NothingUnder(s, id) && SoleOwner(s, id, o)
    requires Source(After(s, Resend(o)), steps, p) && p.msg.id == id
    ensures p.from == o && p.msg == OutboxAt(s, o)[id] && p.to in PeersOf(s, o)
  {
    var t := After(s, Resend(o));
    assert OutboxAt(t, p.from) == OutboxAt(s, p.from);
    if p in Transit(t) { NewPacket(s, Resend(o), p); }
    var i :| i in OutboxAt(s, p.from) && p.msg == OutboxAt(s, p.from)[i];
    assert p.to in PeersOf(s, p.from) && i == id;
  }

  lemma ResentSources(s: Net, o: string, id: string, steps: seq<Step>)
    requires Tidy(s) && o in s.links && id in OutboxAt(s, o) && NothingUnder(s, id) && SoleOwner(s, id, o)
    ensures OnlyFrom(After(s, Resend(o)), steps, o, OutboxAt(s, o)[id])
  {
    var t, m := After(s, Resend(o)), OutboxAt(s, o)[id];
    forall p | Source(t, steps, p) && p.msg.id == m.id ensures p.from == o && p.msg == m && p.to in PeersOf(t, o) {
      ResentSource(s, o, id, steps, p);
    }
    forall b | b in PeersOf(t, o) ensures Source(t, steps, Packet(o, b, m)) {
      assert b in PeersOf(s, o) && Packet(o, b, OutboxAt(s, o)[id]) in OutboxPackets(s, o);
      assert Packet(o, b, m) in t.pending;
    }
  }

  /**
  Whatever was lost before: when a heartbeat of `o` has been delivered and forwarded to the end, a node has the
  newest version under an ID of `o` exactly when it had it already or a path of nodes that did not, and can verify it,
  leads to it from `o`. Other announcements, heartbeats, rejections and losses may be interleaved at will.
  */
  lemma ResendReachesExactly(able: set<string>, s: Net, o: string, id: string, steps: seq<Step>, n: string)
    requires Tidy(s) && o in s.links && n in s.links && id in OutboxAt(s, o)
    requires NothingUnder(s, id) && SoleOwner(s, id, o) && Has(s, o, StampOf(OutboxAt(s, o)[id]))
    requires Possible(After(s, Resend(o)), steps) && AllSound(able, id, After(s, Resend(o)), steps)
    requires NoMint(steps, id) && NothingUnder(Run(After(s, Resend(o)), steps), id)
    ensures var st := StampOf(OutboxAt(s, o)[id]);
            Has(Run(After(s, Resend(o)), steps), n, st) <==> Has(s, n, st) || Connected(LagLinks(able, s, st), o, n)
  {
    var t, m := After(s, Resend(o)), OutboxAt(s, o)[id];
    ResendTidy(s, o);
    ResentSources(s, o, id, steps);
    SameTables(able, s, t, StampOf(m));
    ReachFromOwner(able, t, steps, o, m, n);
  }

  lemma SameTables(able: set<string>, s: Net, t: Net, st: Stamp)
    requires t.links == s.links && t.seen == s.seen
    ensures Lagging(able, t, st) == Lagging(able, s, st) && LagLinks(able, t, st) == LagLinks(able, s, st)
    ensures forall n :: Has(t, n, st) <==> Has(s, n, st)
  {
    assert forall n :: SeenAt(t, n) == SeenAt(s, n);
  }

  // Fresh announcements

  lemma PathInComponent(links: Links, able: set<string>, o: string, n: string, all: set<string>)
    requires Symmetric(links) && o in links && Connected(Into(links, able), o, n)
    requires forall a :: a in links && Connected(Into(links, able), o, a) ==> a in all
    ensures Connected(Into(links, all), o, n)
  {
    var via, into := Into(links, able), Into(links, all);
    ConnectedSelf(into, o);
    ConnectedSelf(via, o);
    var ends := set x | x in links && Connected(via, o, x) && Connected(into, o, x);
    forall x, y | x in ends && x in via && y in via[x] ensures y in ends {
      ConnectedStep(via, o, x, y);
      ConnectedStep(into, o, x, y);
    }
    ClosedContainsConnected(via, ends, o, n);
  }

  lemma ConnectedIsAble(links: Links, able: set<string>, o: string, a: string)
    requires o in links && Connected(Into(links, able), o, a) && a != o
    ensures a in able
  {
    ClosedContainsConnected(Into(links, able), able + {o}, o, a);
  }

  /**
  From any net at all: take the nodes that verifying nodes lead to from the origin. An announcement newer than what they
  have brings all of them up to date, also when more is announced under its ID meanwhile.
  */
  lemma FreshAnnouncementReachesAll(able: set<string>, s: Net, m: Message, steps: seq<Step>, n: string)
    requires Symmetric(s.links) && m.origin in s.links
    requires forall a :: a in s.links && a != m.origin && Connected(Into(s.links, able), m.origin, a) ==>
               Newer(SeenAt(s, a), StampOf(m))
    requires Possible(After(s, Originate(m)), steps) && AllSound(able, m.id, After(s, Originate(m)), steps)
    requires NothingUnder(Run(After(s, Originate(m)), steps), m.id) && Connected(Into(s.links, able), m.origin, n)
    ensures Has(Run(After(s, Originate(m)), steps), n, StampOf(m))
  {
    var t, o, st := AfterOriginate(s, m), m.origin, StampOf(m);
    AnnouncedLag(able, s, m);
    if n == o {
      HasOverRun(able, t, steps, o, st);
    } else {
      var lag := Lagging(able, t, st);
      forall a | a in s.links && Connected(Into(s.links, able), o, a) ensures a in lag + {o} {
        if a != o { ConnectedIsAble(s.links, able, o, a); }
      }
      PathInComponent(s.links, able, o, n, lag + {o});
      PathLeavesStart(s.links, lag + {o}, o, n);
      assert lag + {o} - {o} == lag;
      var b :| b in s.links[o] && b in lag && Connected(Into(s.links, lag), b, n);
      assert Packet(o, b, m) in Fanout(o, PeersOf(s, o), m);
      assert Packet(o, b, m) in Transit(t) && Reaches(able, t, Packet(o, b, m), n);
      PacketReaches(able, t, steps, Packet(o, b, m), n);
    }
  }

  lemma OlderEverywhere(t: Net, a: string, m: Message)
    requires SeenKnown(t) && a in t.links && forall x :: x in t.minted && x.id == m.id ==> x.ts < m.ts
    ensures Newer(SeenAt(t, a), StampOf(m))
  {
    if m.id in SeenAt(t, a) {
      assert MintedAnywhere(t, Stamp(m.id, SeenAt(t, a)[m.id]));
    }
  }

  lemma AtMostNewest(t: Net, a: string, m: Message)
    requires SeenKnown(t) && a in t.links && forall x :: x in t.minted && x.id == m.id ==> x.ts <= m.ts
    ensures m.id in SeenAt(t, a) ==> SeenAt(t, a)[m.id] <= m.ts
  {
    if m.id in SeenAt(t, a) {
      assert MintedAnywhere(t, Stamp(m.id, SeenAt(t, a)[m.id]));
    }
  }

  lemma {:induction false} NoNewerMint(t: Net, steps: seq<Step>, m: Message)
    requires NoMint(steps, m.id) && forall x :: x in t.minted && x.id == m.id ==> x.ts <= m.ts
    ensures forall x :: x in Run(t, steps).minted && x.id == m.id ==> x.ts <= m.ts
  {
    if steps != [] {
      NoNewerMint(t, steps[..|steps| - 1], m);
    }
  }

  lemma NewestReaches(able: set<string>, t: Net, m: Message, steps: seq<Step>, n: string)
    requires Accounted(t) && m.origin in t.links && Connected(Into(t.links, able), m.origin, n)
    requires forall x :: x in t.minted && x.id == m.id ==> x.ts < m.ts
    requires Possible(After(t, Originate(m)), steps) && AllSound(able, m.id, After(t, Originate(m)), steps)
    requires NothingUnder(Run(After(t, Originate(m)), steps), m.id)
    ensures Has(Run(After(t, Originate(m)), steps), n, StampOf(m))
  {
    forall a | a in t.links ensures Newer(SeenAt(t, a), StampOf(m)) { OlderEverywhere(t, a, m); }
    FreshAnnouncementReachesAll(able, t, m, steps, n);
  }

  lemma NothingNewer(t: Net, t1: Net, m: Message, steps: seq<Step>, n: string)
    requires Accounted(t) && m.origin in t.links && n in t.links && t1 == After(t, Originate(m))
    requires forall x :: x in t.minted && x.id == m.id ==> x.ts < m.ts
    requires Possible(t1, steps) && NoMint(steps, m.id)
    ensures m.id in SeenAt(Run(t1, steps), n) ==> SeenAt(Run(t1, steps), n)[m.id] <= m.ts
  {
    AccountedAfter(t, Originate(m));
    AccountedOverRun(t1, steps);
    LinksConstant(t1, steps);
    NoNewerMint(t1, steps, m);
    AtMostNewest(Run(t1, steps), n, m);
  }

  // A relay without the key

  /**
  Three nodes in a line, the middle one without the key of the first: nothing is lost and everything is delivered, but
  the far end, which is connected and could verify it, does not get the announcement.
  */
  lemma KeylessRelay(able: set<string>, a: string, b: string, c: string, m: Message, steps: seq<Step>)
    requires a != b && b != c && a != c && m.origin == a && b !in able && c in able
    requires Possible(After(Line(a, b, c), Originate(m)), steps) && NoMint(steps, m.id)
    requires AllSound(able, m.id, After(Line(a, b, c), Originate(m)), steps)
    requires NothingUnder(Run(After(Line(a, b, c), Originate(m)), steps), m.id)
    ensures !Has(Run(After(Line(a, b, c), Originate(m)), steps), c, StampOf(m))
    ensures Connected(Line(a, b, c).links, a, c)
  {
    var s := Line(a, b, c);
    LineTidy(a, b, c, m.id);
    AnnounceReachesExactly(able, s, m, steps, c);
    var into := LagLinks(able, s, StampOf(m));
    if Connected(into, a, c) { ClosedContainsConnected(into, {a}, a, c); }
    ConnectedSelf(s.links, a);
    ConnectedStep(s.links, a, a, b);
    ConnectedStep(s.links, a, b, c);
  }

  lemma LineTidy(a: string, b: string, c: string, id: string)
    requires a != b && b != c && a != c
    ensures Tidy(Line(a, b, c)) && NothingUnder(Line(a, b, c), id) && SoleOwner(Line(a, b, c), id, a)
  {}

  /** There is such a run. */
  lemma KeylessRelaySettles(able: set<string>, a: string, b: string, c: string, m: Message) returns (steps: seq<Step>)
    requires a != b && b != c && a != c && m.origin == a
    ensures Possible(After(Line(a, b, c), Originate(m)), steps) && NoMint(steps, m.id)
    ensures AllSound(able, m.id, After(Line(a, b, c), Originate(m)), steps)
    ensures NothingUnder(Run(After(Line(a, b, c), Originate(m)), steps), m.id)
  {
    LineFresh(a, b, c);
    AccountedAfter(Line(a, b, c), Originate(m));
    steps := SettlesFor(able, m.id, After(Line(a, b, c), Originate(m)));
  }
}
