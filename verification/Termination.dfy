/** Flooding stops: a bound on every run without new announcements, on any topology, cycles included. */
module Termination {
  import opened Claims
  import opened Flood
  import opened Messages
  import opened Paths
  import opened Planes
  import opened Transports

  /** The pairs of a node and an envelope that is still news to it. */
  ghost function News(s: Net): set<(string, Message)> {
    set n, m | n in s.links.Keys && m in s.minted && Newer(SeenAt(s, n), StampOf(m)) :: (n, m)
  }

  /** Each piece of news can still cause a write and a read per node; each write and each read is one step. */
  ghost function Potential(s: Net): nat {
    2 * |s.links| * |News(s)| + 2 * |s.pending| + |s.flight|
  }

  /** A step of the flood itself: a write, a read, whether verified or not, or a loss. */
  predicate Flows(step: Step) {
    step.Transmit? || step.Deliver? || step.Lose?
  }

  lemma SubsetSize<T>(a: set<T>, b: set<T>)
    requires a <= b
    ensures |a| <= |b|
  {
    assert b == a + (b - a);
  }

  lemma WinUsesNews(s: Net, p: Packet)
    requires Accounted(s) && p in s.flight && Newer(SeenAt(s, p.to), StampOf(p.msg))
    ensures |News(AfterDeliver(s, p, true))| + 1 <= |News(s)|
  {
    var t, used := AfterDeliver(s, p, true), (p.to, p.msg);
    assert p in Transit(s);
    assert used in News(s);
    forall x | x in News(t) ensures x in News(s) - {used} {
      var n, m := x.0, x.1;
      assert Newer(SeenAt(t, n), StampOf(m));
      assert Newer(SeenAt(s, n), StampOf(m));
    }
    SubsetSize(News(t), News(s) - {used});
  }

  lemma FanoutBounded(s: Net, n: string, m: Message)
    requires Symmetric(s.links)
    ensures |multiset(Fanout(n, PeersOf(s, n), m))| <= |s.links|
  {
    FanoutSize(n, PeersOf(s, n), m);
    SubsetSize(PeersOf(s, n), s.links.Keys);
    assert |s.links.Keys| == |s.links|;
  }

  lemma MoreNewsMorePotential(nodes: nat, fewer: nat, more: nat)
    requires fewer + 1 <= more
    ensures 2 * nodes * fewer + 2 * nodes <= 2 * nodes * more
  {
    assert nodes * (fewer + 1) <= nodes * more;
  }

  lemma WinDecreases(s: Net, p: Packet)
    requires Accounted(s) && p in s.flight && Newer(SeenAt(s, p.to), StampOf(p.msg))
    ensures Potential(AfterDeliver(s, p, true)) < Potential(s)
  {
    var t := AfterDeliver(s, p, true);
    WinUsesNews(s, p);
    FanoutBounded(s, p.to, p.msg);
    MoreNewsMorePotential(|s.links|, |News(t)|, |News(s)|);
    assert |t.pending| == |s.pending| + |multiset(Fanout(p.to, PeersOf(s, p.to), p.msg))|;
    assert |t.flight| == |s.flight| - 1;
  }

  lemma SameNews(s: Net, t: Net)
    requires t.seen == s.seen && t.minted == s.minted && t.links == s.links
    requires 2 * |t.pending| + |t.flight| < 2 * |s.pending| + |s.flight|
    ensures Potential(t) < Potential(s)
  {
    assert News(t) == News(s);
  }

  lemma FlowDecreases(s: Net, step: Step)
    requires Accounted(s) && Enabled(s, step) && Flows(step)
    ensures Potential(After(s, step)) < Potential(s)
  {
    if step.Deliver? && step.verified && Newer(SeenAt(s, step.p.to), StampOf(step.p.msg)) {
      WinDecreases(s, step.p);
    } else {
      SameNews(s, After(s, step));
    }
  }

  ghost predicate AllFlow(steps: seq<Step>) {
    forall i :: 0 <= i < |steps| ==> Flows(steps[i])
  }

  /** No run of writes, reads and losses is longer than the potential of the net it starts from. */
  lemma {:induction false} FloodingTerminates(s: Net, steps: seq<Step>)
    requires Accounted(s) && Possible(s, steps) && AllFlow(steps)
    ensures |steps| + Potential(Run(s, steps)) <= Potential(s)
  {
    if steps != [] {
      var before := steps[..|steps| - 1];
      FloodingTerminates(s, before);
      AccountedOverRun(s, before);
      FlowDecreases(Run(s, before), steps[|steps| - 1]);
    }
  }

  /** A write, or a read with the verdict `can` gives the receiver on the ID. */
  predicate Lossless(can: (string, string) -> bool, step: Step) {
    step.Transmit? || (step.Deliver? && step.verified == can(step.p.to, step.p.msg.id))
  }

  ghost predicate AllLossless(can: (string, string) -> bool, steps: seq<Step>) {
    forall i :: 0 <= i < |steps| ==> Lossless(can, steps[i])
  }

  /** From any net, reached over whatever links, and whoever can verify what: the flood can run out, losing nothing. */
  lemma FloodSettles(s: Net, can: (string, string) -> bool) returns (steps: seq<Step>)
    requires Accounted(s)
    ensures Possible(s, steps) && AllLossless(can, steps) && Quiet(Run(s, steps))
  {
    steps := SettlesWithin(s, can, Potential(s));
  }

  lemma {:induction false} SettlesWithin(s: Net, can: (string, string) -> bool, bound: nat) returns (steps: seq<Step>)
    requires Accounted(s) && Potential(s) <= bound
    ensures Possible(s, steps) && AllLossless(can, steps) && Quiet(Run(s, steps))
    decreases bound
  {
    steps := [];
    if !Quiet(s) {
      var step, t := FlowStep(s, can, bound);
      var rest := SettlesWithin(t, can, bound - 1);
      RunPrepended(s, step, rest);
      steps := [step] + rest;
    }
  }

  lemma FlowStep(s: Net, can: (string, string) -> bool, bound: nat) returns (step: Step, t: Net)
    requires Accounted(s) && Potential(s) <= bound && !Quiet(s)
    ensures Enabled(s, step) && Lossless(can, step) && t == After(s, step)
    ensures Accounted(t) && Potential(t) + 1 <= bound
  {
    step := SomeFlow(s, can);
    t := After(s, step);
    FlowDecreases(s, step);
    AccountedAfter(s, step);
  }

  lemma SomeFlow(s: Net, can: (string, string) -> bool) returns (step: Step)
    requires !Quiet(s)
    ensures Enabled(s, step) && Lossless(can, step) && Flows(step)
  {
    if s.flight != multiset{} {
      var p :| p in s.flight;
      step := Deliver(p, can(p.to, p.msg.id));
    } else {
      var p :| p in s.pending;
      step := Transmit(p);
    }
  }

  lemma {:induction false} RunPrepended(s: Net, step: Step, rest: seq<Step>)
    requires Enabled(s, step) && Possible(After(s, step), rest)
    ensures Run(s, [step] + rest) == Run(After(s, step), rest) && Possible(s, [step] + rest)
  {
    var all := [step] + rest;
    if rest == [] {
      assert all[..0] == [] && all == [step];
      assert Run(s, all[..0]) == s;
    } else {
      var k := |rest| - 1;
      RunPrepended(s, step, rest[..k]);
      assert all[..|all| - 1] == [step] + rest[..k];
    }
  }

  /** Lossless steps are sound for each ID. */
  lemma {:induction false} AllLosslessIsSound(able: set<string>, id: string, can: (string, string) -> bool,
                                              s: Net, steps: seq<Step>)
    requires AllLossless(can, steps) && forall n :: can(n, id) <==> n in able
    ensures AllSound(able, id, s, steps)
  {
    if steps != [] {
      var before, last := steps[..|steps| - 1], steps[|steps| - 1];
      assert forall i :: 0 <= i < |before| ==> before[i] == steps[i];
      AllLosslessIsSound(able, id, can, s, before);
      LosslessStep(able, id, can, Run(s, before), last);
    }
  }

  lemma {:induction false} SoundPrepended(able: set<string>, id: string, s: Net, step: Step, rest: seq<Step>)
    requires Sound(able, id, s, step) && Enabled(s, step)
    requires Possible(After(s, step), rest) && AllSound(able, id, After(s, step), rest)
    ensures AllSound(able, id, s, [step] + rest)
  {
    if rest == [] {
      assert [] + [step] == [step] && [step] + rest == [step];
      assert Run(s, []) == s && AllSound(able, id, s, []);
      SoundExtended(able, id, s, [], step);
    } else {
      var before, last := rest[..|rest| - 1], rest[|rest| - 1];
      SoundPrepended(able, id, s, step, before);
      RunPrepended(s, step, before);
      SoundExtended(able, id, s, [step] + before, last);
      assert [step] + rest == [step] + before + [last];
    }
  }

  lemma LosslessStep(able: set<string>, id: string, can: (string, string) -> bool, s: Net, step: Step)
    requires Lossless(can, step) && forall n :: can(n, id) <==> n in able
    ensures Sound(able, id, s, step)
  {}

  /** From any net a run of writes and reads, sound for the ID, ends with nothing under it in transit. */
  lemma SettlesFor(able: set<string>, id: string, s: Net) returns (steps: seq<Step>)
    requires Accounted(s)
    ensures Possible(s, steps) && AllSound(able, id, s, steps)
    ensures Quiet(Run(s, steps)) && NothingUnder(Run(s, steps), id)
    ensures forall i :: 0 <= i < |steps| ==> !steps[i].Originate?
  {
    var can := (n: string, i: string) => n in able;
    steps := FloodSettles(s, can);
    AllLosslessIsSound(able, id, can, s, steps);
    QuietHasNothing(Run(s, steps), id);
  }

  lemma QuietHasNothing(s: Net, id: string)
    requires Quiet(s)
    ensures NothingUnder(s, id)
  {}
}
