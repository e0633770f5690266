/**
Exactly how far the envelopes of one ID spread. From any net whatever, once everything under the ID has been delivered,
a node has a version exactly when it had it before or an envelope at least as new was under way to it through nodes that
lagged behind that envelope and can verify it. A node that is up to date drops the envelope and a node without the key
rejects it, so whatever lies behind them is not reached.
*/
module Reach {
  import opened Claims
  import opened Flood
  import opened Heartbeat
  import opened Messages
  import opened Paths
  import opened Planes
  import opened Transports

  /** The nodes that do not have the stamp and can verify it. */
  function Lagging(able: set<string>, s: Net, st: Stamp): set<string> {
    set n | n in s.links && n in able && !Has(s, n, st)
  }

  function LagLinks(able: set<string>, s: Net, st: Stamp): Links {
    Into(s.links, Lagging(able, s, st))
  }

  /** The packet finds its receiver behind, and from there a path leads through nodes that are behind as well. */
  ghost predicate Reaches(able: set<string>, s: Net, p: Packet, n: string) {
    p.to in Lagging(able, s, StampOf(p.msg)) && Connected(LagLinks(able, s, StampOf(p.msg)), p.to, n)
  }

  /** Each outbox is keyed by the IDs of its envelopes, links go both ways and packets are addressed to nodes. */
  ghost predicate Tidy(s: Net) {
    && Symmetric(s.links) && (forall p :: p in Transit(s) ==> p.to in s.links) && Keyed(s)
  }

  ghost predicate Keyed(s: Net) {
    forall n, id :: n in s.links && id in OutboxAt(s, n) ==> OutboxAt(s, n)[id].id == id
  }

  lemma AccountedIsTidy(s: Net)
    requires Accounted(s)
    ensures Tidy(s)
  {}

  /** The steps mint nothing under the ID. */
  ghost predicate NoMint(steps: seq<Step>, id: string) {
    forall i :: 0 <= i < |steps| && steps[i].Originate? ==> steps[i].msg.id != id
  }

  /** The packet is in transit from the start, or a heartbeat of the run sends it. */
  ghost predicate Source(s: Net, steps: seq<Step>, p: Packet) {
    p in Transit(s) || (Resend(p.from) in steps && p in OutboxPackets(s, p.from))
  }

  // No further

  /** Some source with the same envelope reaches the node. */
  ghost predicate Got(able: set<string>, s: Net, beats: set<string>, n: string, m: Message) {
    exists p :: SourceOf(s, beats, p) && p.msg == m && Reaches(able, s, p, n)
  }

  ghost predicate SourceOf(s: Net, beats: set<string>, p: Packet) {
    p in Transit(s) || (p.from in beats && p in OutboxPackets(s, p.from))
  }

  ghost predicate TablesTraced(able: set<string>, s: Net, beats: set<string>, t: Net, id: string) {
    forall n :: n in s.links && id in SeenAt(t, n) ==> EntryTraced(able, s, beats, n, Stamp(id, SeenAt(t, n)[id]))
  }

  ghost predicate EntryTraced(able: set<string>, s: Net, beats: set<string>, n: string, st: Stamp) {
    (st.id in SeenAt(s, n) && SeenAt(s, n)[st.id] == st.ts) || exists m :: StampOf(m) == st && Got(able, s, beats, n, m)
  }

  ghost predicate PacketsTraced(able: set<string>, s: Net, beats: set<string>, t: Net, id: string) {
    forall q :: q in Transit(t) && q.msg.id == id ==> PacketTraced(able, s, beats, q)
  }

  ghost predicate PacketTraced(able: set<string>, s: Net, beats: set<string>, q: Packet) {
    && q.to in s.links
    && (SourceOf(s, beats, q) || (q.from in s.links && q.to in s.links[q.from] && Got(able, s, beats, q.from, q.msg)))
  }

  ghost predicate OutboxSame(s: Net, t: Net, id: string) {
    && Keyed(t)
    && forall n :: n in s.links ==>
        && (id in OutboxAt(t, n) <==> id in OutboxAt(s, n))
        && (id in OutboxAt(s, n) ==> OutboxAt(t, n)[id] == OutboxAt(s, n)[id])
  }

  ghost predicate NotBack(s: Net, t: Net, id: string) {
    forall n, st: Stamp :: st.id == id && Has(s, n, st) ==> Has(t, n, st)
  }

  ghost predicate Traced(able: set<string>, s: Net, beats: set<string>, t: Net, id: string) {
    && t.links == s.links && TablesTraced(able, s, beats, t, id) && PacketsTraced(able, s, beats, t, id)
    && OutboxSame(s, t, id) && NotBack(s, t, id)
  }

  lemma TracedAtStart(able: set<string>, s: Net, beats: set<string>, id: string)
    requires Tidy(s)
    ensures Traced(able, s, beats, s, id)
  {}

  /** A node that takes a traced packet got its envelope from the packet's source. */
  lemma TakerGot(able: set<string>, s: Net, beats: set<string>, t: Net, q: Packet)
    requires Symmetric(s.links) && PacketTraced(able, s, beats, q)
    requires NotBack(s, t, q.msg.id) && Newer(SeenAt(t, q.to), StampOf(q.msg)) && q.to in able
    ensures Got(able, s, beats, q.to, q.msg)
  {
    var st := StampOf(q.msg);
    assert !Has(t, q.to, st);
    assert q.to in Lagging(able, s, st);
    if SourceOf(s, beats, q) {
      ConnectedSelf(LagLinks(able, s, st), q.to);
      assert Reaches(able, s, q, q.to);
    } else {
      var p :| SourceOf(s, beats, p) && p.msg == q.msg && Reaches(able, s, p, q.from);
      ConnectedStep(LagLinks(able, s, st), p.to, q.from, q.to);
      assert Reaches(able, s, p, q.to);
    }
  }

  lemma NewPacketTraced(able: set<string>, s: Net, beats: set<string>, t: Net, step: Step, id: string, r: Packet)
    requires Symmetric(s.links) && Traced(able, s, beats, t, id) && Enabled(t, step)
    requires (step.Originate? ==> step.msg.id != id) && (step.Resend? ==> step.node in beats) && Barred(able, id, step)
    requires r in Transit(After(t, step)) && r !in Transit(t) && r.msg.id == id
    ensures PacketTraced(able, s, beats, r)
  {
    NewPacket(t, step, r);
    if step.Deliver? {
      assert step.p in Transit(t) && PacketTraced(able, s, beats, step.p);
      TakerGot(able, s, beats, t, step.p);
      GotIsTraced(able, s, beats, step.p, r);
    } else {
      RepeatedIsSource(s, t, step.node, id, r);
    }
  }

  lemma GotIsTraced(able: set<string>, s: Net, beats: set<string>, q: Packet, r: Packet)
    requires Symmetric(s.links) && Got(able, s, beats, q.to, q.msg) && r.from == q.to && r.msg == q.msg
    requires r.to in PeersOf(s, r.from)
    ensures PacketTraced(able, s, beats, r)
  {}

  /** What a heartbeat sends under the ID is what it would have sent at the start. */
  lemma RepeatedIsSource(s: Net, t: Net, n: string, id: string, r: Packet)
    requires OutboxSame(s, t, id) && t.links == s.links && n in s.links && r.msg.id == id
    requires r !in Transit(t) && r in Transit(After(t, Resend(n)))
    ensures r.from == n && r in OutboxPackets(s, n) && r.to in s.links[n]
  {
    assert r in OutboxPackets(t, n);
    var i :| i in OutboxAt(t, n) && r.msg == OutboxAt(t, n)[i];
    assert i == id && r.msg == OutboxAt(s, n)[id] && r.to in PeersOf(s, n);
    assert r == Packet(n, r.to, OutboxAt(s, n)[id]);
  }

  lemma PacketsStayTraced(able: set<string>, s: Net, beats: set<string>, t: Net, step: Step, id: string)
    requires Symmetric(s.links) && Traced(able, s, beats, t, id) && Enabled(t, step)
    requires (step.Originate? ==> step.msg.id != id) && (step.Resend? ==> step.node in beats) && Barred(able, id, step)
    ensures PacketsTraced(able, s, beats, After(t, step), id)
  {
    forall q | q in Transit(After(t, step)) && q.msg.id == id ensures PacketTraced(able, s, beats, q) {
      if q !in Transit(t) { NewPacketTraced(able, s, beats, t, step, id, q); }
    }
  }

  lemma TablesStayTraced(able: set<string>, s: Net, beats: set<string>, t: Net, step: Step, id: string)
    requires Symmetric(s.links) && Traced(able, s, beats, t, id) && Enabled(t, step) && Barred(able, id, step)
    requires step.Originate? ==> step.msg.id != id
    ensures TablesTraced(able, s, beats, After(t, step), id)
  {
    var t' := After(t, step);
    forall n | n in s.links && id in SeenAt(t', n)
      ensures EntryTraced(able, s, beats, n, Stamp(id, SeenAt(t', n)[id]))
    {
      if !(id in SeenAt(t, n) && SeenAt(t', n)[id] == SeenAt(t, n)[id]) {
        EntryCameByPacket(t, step, n, id);
        assert step.p in Transit(t);
        TakerGot(able, s, beats, t, step.p);
      }
    }
  }

  lemma EntryCameByPacket(t: Net, step: Step, n: string, id: string)
    requires Enabled(t, step) && (step.Originate? ==> step.msg.id != id)
    requires id in SeenAt(After(t, step), n)
    requires !(id in SeenAt(t, n) && SeenAt(After(t, step), n)[id] == SeenAt(t, n)[id])
    ensures step.Deliver? && step.verified && step.p.to == n && Newer(SeenAt(t, n), StampOf(step.p.msg))
    ensures StampOf(step.p.msg) == Stamp(id, SeenAt(After(t, step), n)[id])
  {}

  lemma OutboxStaysSame(s: Net, t: Net, step: Step, id: string)
    requires OutboxSame(s, t, id) && t.links == s.links && (step.Originate? ==> step.msg.id != id)
    ensures OutboxSame(s, After(t, step), id)
  {
    if step.Originate? {
      OriginateKeepsOthers(s, t, step.msg, id);
    } else {
      SameOutboxStaysSame(s, t, After(t, step), id);
    }
  }

  lemma SameOutboxStaysSame(s: Net, t: Net, t': Net, id: string)
    requires OutboxSame(s, t, id) && t'.outbox == t.outbox && t'.links == t.links
    ensures OutboxSame(s, t', id)
  {
    assert forall n :: OutboxAt(t', n) == OutboxAt(t, n);
  }

  lemma OriginateKeepsOthers(s: Net, t: Net, m: Message, id: string)
    requires OutboxSame(s, t, id) && t.links == s.links && m.id != id
    ensures OutboxSame(s, AfterOriginate(t, m), id)
  {
    var t' := AfterOriginate(t, m);
    forall n, i | n in t'.links && i in OutboxAt(t', n) ensures OutboxAt(t', n)[i].id == i {
      if !(n == m.origin && i == m.id) { assert i in OutboxAt(t, n) && OutboxAt(t', n)[i] == OutboxAt(t, n)[i]; }
    }
  }

  lemma StaysNotBack(s: Net, t: Net, step: Step, id: string)
    requires NotBack(s, t, id) && (step.Originate? ==> step.msg.id != id)
    ensures NotBack(s, After(t, step), id)
  {
    forall n, st: Stamp | st.id == id && Has(s, n, st) ensures Has(After(t, step), n, st) {
      HasKeptWithoutMint(t, step, n, st);
    }
  }

  lemma TracedKept(able: set<string>, s: Net, beats: set<string>, t: Net, step: Step, id: string)
    requires Symmetric(s.links) && Traced(able, s, beats, t, id) && Enabled(t, step)
    requires (step.Originate? ==> step.msg.id != id) && (step.Resend? ==> step.node in beats) && Barred(able, id, step)
    ensures Traced(able, s, beats, After(t, step), id)
  {
    PacketsStayTraced(able, s, beats, t, step, id);
    TablesStayTraced(able, s, beats, t, step, id);
    OutboxStaysSame(s, t, step, id);
    StaysNotBack(s, t, step, id);
  }

  lemma {:induction false} TracedOverRun(able: set<string>, s: Net, beats: set<string>, steps: seq<Step>, id: string)
    requires Tidy(s) && Possible(s, steps) && NoMint(steps, id) && AllBarred(able, id, steps)
    requires forall i :: 0 <= i < |steps| && steps[i].Resend? ==> steps[i].node in beats
    ensures Traced(able, s, beats, Run(s, steps), id)
  {
    if steps == [] {
      TracedAtStart(able, s, beats, id);
    } else {
      var before := steps[..|steps| - 1];
      TracedOverRun(able, s, beats, before, id);
      TracedKept(able, s, beats, Run(s, before), steps[|steps| - 1], id);
    }
  }

  // So far

  /** Every lagging node that has caught up has passed the stamp on to its lagging peers. */
  ghost predicate PassedOn(t: Net, lag: set<string>, st: Stamp) {
    forall a, b :: a in t.links && b in t.links[a] && a in lag && b in lag && Has(t, a, st) ==>
      Has(t, b, st) || Carried(t, b, st)
  }

  lemma PassedOnKept(able: set<string>, t: Net, step: Step, lag: set<string>, st: Stamp)
    requires PassedOn(t, lag, st) && lag <= able && Enabled(t, step) && Sound(able, st.id, t, step)
    ensures PassedOn(After(t, step), lag, st)
  {
    var t' := After(t, step);
    forall a, b | a in t.links && b in t.links[a] && a in lag && b in lag && Has(t', a, st)
      ensures Has(t', b, st) || Carried(t', b, st)
    {
      if Has(t, a, st) {
        if Has(t, b, st) { HasKept(t, step, b, st); } else { CarriedOrArrived(able, t, step, b, st); }
      } else {
        NewHolderBroadcasts(t, step, a, b, st);
      }
    }
  }

  lemma {:induction false} PassedOnOverRun(able: set<string>, t: Net, steps: seq<Step>, lag: set<string>, st: Stamp)
    requires PassedOn(t, lag, st) && lag <= able && Possible(t, steps) && AllSound(able, st.id, t, steps)
    ensures PassedOn(Run(t, steps), lag, st)
  {
    if steps != [] {
      var before := steps[..|steps| - 1];
      PassedOnOverRun(able, t, before, lag, st);
      PassedOnKept(able, Run(t, before), steps[|steps| - 1], lag, st);
    }
  }

  /** In a quiet net a stamp that came to one lagging node has come to all it reaches. */
  lemma QuietReached(t: Net, lag: set<string>, st: Stamp, a: string, n: string)
    requires NothingUnder(t, st.id) && PassedOn(t, lag, st)
    requires a in lag && Has(t, a, st) && Connected(Into(t.links, lag), a, n)
    ensures Has(t, n, st)
  {
    var into := Into(t.links, lag);
    var done := set x | x in lag && Has(t, x, st);
    forall x, y | x in done && x in into && y in into[x] ensures y in done {
      assert !Carried(t, y, st);
    }
    ClosedContainsConnected(into, done, a, n);
  }

  lemma ReachedThrough(able: set<string>, s: Net, steps: seq<Step>, st: Stamp, a: string, n: string)
    requires Possible(s, steps) && AllSound(able, st.id, s, steps) && NothingUnder(Run(s, steps), st.id)
    requires a in Lagging(able, s, st) && Has(Run(s, steps), a, st) && Connected(LagLinks(able, s, st), a, n)
    ensures Has(Run(s, steps), n, st)
  {
    LinksConstant(s, steps);
    PassedOnOverRun(able, s, steps, Lagging(able, s, st), st);
    QuietReached(Run(s, steps), Lagging(able, s, st), st, a, n);
  }

  /** A packet in transit brings its stamp, also when more is announced under the ID meanwhile. */
  lemma PacketReaches(able: set<string>, s: Net, steps: seq<Step>, p: Packet, n: string)
    requires Possible(s, steps) && AllSound(able, p.msg.id, s, steps) && NothingUnder(Run(s, steps), p.msg.id)
    requires p in Transit(s) && Reaches(able, s, p, n)
    ensures Has(Run(s, steps), n, StampOf(p.msg))
  {
    var st := StampOf(p.msg);
    assert Brings(p, p.to, st);
    ArrivesOverRun(able, s, steps, p.to, st);
    ReachedThrough(able, s, steps, st, p.to, n);
  }

  lemma {:induction false} BeatArrives(able: set<string>, s: Net, steps: seq<Step>, p: Packet)
    requires Tidy(s) && Possible(s, steps) && AllSound(able, p.msg.id, s, steps)
    requires NoMint(steps, p.msg.id) && p.from in s.links && p.to in able
    requires Resend(p.from) in steps && p in OutboxPackets(s, p.from)
    ensures Carried(Run(s, steps), p.to, StampOf(p.msg)) || Has(Run(s, steps), p.to, StampOf(p.msg))
  {
    var before, step := steps[..|steps| - 1], steps[|steps| - 1];
    var t, st := Run(s, before), StampOf(p.msg);
    if step == Resend(p.from) {
      BeatSends(s, before, p);
      assert Brings(p, p.to, st);
    } else {
      assert Resend(p.from) in before;
      BeatArrives(able, s, before, p);
      if Has(t, p.to, st) { HasKept(t, step, p.to, st); } else { CarriedOrArrived(able, t, step, p.to, st); }
    }
  }

  lemma BeatSends(s: Net, before: seq<Step>, p: Packet)
    requires Tidy(s) && Possible(s, before) && NoMint(before, p.msg.id)
    requires p.from in s.links && p in OutboxPackets(s, p.from)
    ensures p in Transit(After(Run(s, before), Resend(p.from)))
  {
    var t := Run(s, before);
    OutboxOverRun(s, before, p.msg.id);
    LinksConstant(s, before);
    var id :| id in OutboxAt(s, p.from) && p.msg == OutboxAt(s, p.from)[id];
    assert id == p.msg.id && p.msg == OutboxAt(t, p.from)[id];
    assert p == Packet(p.from, p.to, OutboxAt(t, p.from)[id]) && p.to in PeersOf(t, p.from);
    assert p in OutboxPackets(t, p.from);
  }

  lemma {:induction false} OutboxOverRun(s: Net, steps: seq<Step>, id: string)
    requires Keyed(s) && NoMint(steps, id)
    ensures OutboxSame(s, Run(s, steps), id)
  {
    if steps != [] {
      var before := steps[..|steps| - 1];
      OutboxOverRun(s, before, id);
      LinksConstant(s, before);
      OutboxStaysSame(s, Run(s, before), steps[|steps| - 1], id);
    }
  }

  // Exactly

  function Beats(steps: seq<Step>): set<string> {
    set step | step in steps && step.Resend? :: step.node
  }

  lemma TracedSources(s: Net, steps: seq<Step>, p: Packet)
    ensures SourceOf(s, Beats(steps), p) ==> Source(s, steps, p)
  {
    if p.from in Beats(steps) {
      var step :| step in steps && step.Resend? && step.node == p.from;
      assert step == Resend(p.from);
    }
  }

  lemma HoldersTraced(able: set<string>, s: Net, steps: seq<Step>, n: string, st: Stamp)
    requires Tidy(s) && Possible(s, steps) && NoMint(steps, st.id) && AllBarred(able, st.id, steps) && n in s.links
    requires Has(Run(s, steps), n, st) && !Has(s, n, st)
    ensures exists p :: Source(s, steps, p) && Brings(p, p.to, st) && Reaches(able, s, p, n)
  {
    var t, beats := Run(s, steps), Beats(steps);
    TracedOverRun(able, s, beats, steps, st.id);
    var at := Stamp(st.id, SeenAt(t, n)[st.id]);
    assert EntryTraced(able, s, beats, n, at);
    var m :| StampOf(m) == at && Got(able, s, beats, n, m);
    var p :| SourceOf(s, beats, p) && p.msg == m && Reaches(able, s, p, n);
    TracedSources(s, steps, p);
    assert Brings(p, p.to, st);
  }

  lemma SourceReaches(able: set<string>, s: Net, steps: seq<Step>, p: Packet, n: string)
    requires Tidy(s) && Possible(s, steps) && AllSound(able, p.msg.id, s, steps)
    requires NoMint(steps, p.msg.id) && NothingUnder(Run(s, steps), p.msg.id)
    requires Source(s, steps, p) && Reaches(able, s, p, n)
    ensures Has(Run(s, steps), n, StampOf(p.msg))
  {
    if p in Transit(s) {
      PacketReaches(able, s, steps, p, n);
    } else {
      assert p.from in s.links by { assert p.to in PeersOf(s, p.from); }
      BeatArrives(able, s, steps, p);
      ReachedThrough(able, s, steps, StampOf(p.msg), p.to, n);
    }
  }

  /**
  From any net at all, whoever can verify, and whatever is announced, repeated, rejected and lost under other IDs: when
  all under the ID is delivered a node has a stamp exactly when it had it at the start, or a packet in transit at the
  start or sent by a heartbeat brings one as new to a node from where lagging nodes lead to it.
  */
  lemma SettlesExactly(able: set<string>, s: Net, steps: seq<Step>, n: string, st: Stamp)
    requires Tidy(s) && n in s.links
    requires Possible(s, steps) && AllSound(able, st.id, s, steps)
    requires NoMint(steps, st.id) && NothingUnder(Run(s, steps), st.id)
    ensures Has(Run(s, steps), n, st) <==>
              Has(s, n, st) || exists p :: Source(s, steps, p) && Brings(p, p.to, st) && Reaches(able, s, p, n)
  {
    if Has(s, n, st) {
      HasOverRun(able, s, steps, n, st);
    } else if Has(Run(s, steps), n, st) {
      SoundIsBarred(able, st.id, s, steps);
      HoldersTraced(able, s, steps, n, st);
    }
    if p :| Source(s, steps, p) && Brings(p, p.to, st) && Reaches(able, s, p, n) {
      SourceReaches(able, s, steps, p, n);
    }
  }
}
