/**
Dials that run at the same time. The look for a tracked connection and the tracking of the new one are separate locked
steps with the network in between. Exactly when there is still at most one connection per address.
*/
module ConcurrentDial {
  import opened Transports

  datatype Phase = Waiting | Dialling | Skipped | Failed | Tracked

  datatype Target = Target(peer: string, addr: string)

  datatype Dials = Dials(conns: set<Conn>, phases: seq<Phase>)

  predicate HasOutbound(conns: set<Conn>, addr: string) {
    exists c :: c in conns && c.outbound == addr
  }

  /** The connection that call `t` makes; serial numbers from `next` on are free. */
  function MadeBy(targets: seq<Target>, next: nat, t: nat): Conn
    requires t < |targets|
  {
    Conn(next + t, targets[t].peer, targets[t].addr)
  }

  /** One step of call `t`; `connects` is what the network answers it. */
  function Advance(targets: seq<Target>, connects: nat -> bool, next: nat, s: Dials, t: nat): Dials
    requires |s.phases| == |targets|
  {
    if t >= |targets| then s else
      match s.phases[t]
      case Waiting => s.(phases := s.phases[t := if HasOutbound(s.conns, targets[t].addr) then Skipped else Dialling])
      case Dialling =>
        if connects(t) then Dials(s.conns + {MadeBy(targets, next, t)}, s.phases[t := Tracked])
        else s.(phases := s.phases[t := Failed])
      case _ => s
  }

  function Run(targets: seq<Target>, connects: nat -> bool, next: nat, s: Dials, schedule: seq<nat>): (r: Dials)
    requires |s.phases| == |targets|
    ensures |r.phases| == |targets|
  {
    if schedule == [] then s
    else
      var before := Run(targets, connects, next, s, schedule[..|schedule| - 1]);
      Advance(targets, connects, next, before, schedule[|schedule| - 1])
  }

  function Start(conns: set<Conn>, targets: seq<Target>): (s: Dials)
    ensures |s.phases| == |targets|
  {
    Dials(conns, seq(|targets|, i => Waiting))
  }

  /** Two calls that connect, at one address that no connection has been dialled at yet. */
  predicate Clash(conns: set<Conn>, targets: seq<Target>, connects: nat -> bool, t: nat, u: nat) {
    && t < u < |targets| && connects(t) && connects(u) && targets[t].addr == targets[u].addr != ""
    && !HasOutbound(conns, targets[t].addr)
  }

  // Without a clash

  /** Connections are old ones or made by calls that connect; calls past the look found their address free. */
  ghost predicate Inv(conns: set<Conn>, targets: seq<Target>, connects: nat -> bool, next: nat, s: Dials) {
    && |s.phases| == |targets| && conns <= s.conns
    && (forall c :: c in s.conns ==> c in conns || Made(conns, targets, connects, next, c))
    && (forall t :: 0 <= t < |targets| && s.phases[t] == Dialling ==> !HasOutbound(conns, targets[t].addr))
  }

  ghost predicate Made(conns: set<Conn>, targets: seq<Target>, connects: nat -> bool, next: nat, c: Conn) {
    exists t: nat :: MadeFreely(conns, targets, connects, next, c, t)
  }

  predicate MadeFreely(conns: set<Conn>, targets: seq<Target>, connects: nat -> bool, next: nat, c: Conn, t: nat) {
    t < |targets| && connects(t) && c == MadeBy(targets, next, t) && !HasOutbound(conns, targets[t].addr)
  }

  lemma AdvanceKeeps(conns: set<Conn>, targets: seq<Target>, connects: nat -> bool, next: nat, s: Dials, t: nat)
    requires Inv(conns, targets, connects, next, s)
    ensures Inv(conns, targets, connects, next, Advance(targets, connects, next, s, t))
  {
    var s' := Advance(targets, connects, next, s, t);
    forall c | c in s'.conns ensures c in conns || Made(conns, targets, connects, next, c) {
      if c !in s.conns { assert MadeFreely(conns, targets, connects, next, c, t); }
    }
    assert forall addr :: HasOutbound(conns, addr) ==> HasOutbound(s.conns, addr);
  }

  lemma {:induction false} RunKeeps(conns: set<Conn>, targets: seq<Target>, connects: nat -> bool, next: nat,
                                    schedule: seq<nat>)
    ensures Inv(conns, targets, connects, next, Run(targets, connects, next, Start(conns, targets), schedule))
  {
    if schedule != [] {
      var k := |schedule| - 1;
      RunKeeps(conns, targets, connects, next, schedule[..k]);
      AdvanceKeeps(conns, targets, connects, next, Run(targets, connects, next, Start(conns, targets), schedule[..k]),
                   schedule[k]);
    }
  }

  lemma InvIsOneEach(conns: set<Conn>, targets: seq<Target>, connects: nat -> bool, next: nat, s: Dials)
    requires OneEach(conns) && Inv(conns, targets, connects, next, s)
    requires forall t: nat, u: nat :: !Clash(conns, targets, connects, t, u)
    ensures OneEach(s.conns)
  {
    forall c, d | c in s.conns && d in s.conns && c.outbound == d.outbound != "" ensures c == d {
      if c !in conns && d !in conns {
        var t: nat :| MadeFreely(conns, targets, connects, next, c, t);
        var u: nat :| MadeFreely(conns, targets, connects, next, d, u);
        assert !Clash(conns, targets, connects, t, u) && !Clash(conns, targets, connects, u, t);
      }
    }
  }

  // With one

  /** Both look before either tracks. */
  lemma ClashDoubles(conns: set<Conn>, targets: seq<Target>, connects: nat -> bool, next: nat, t: nat, u: nat)
    requires Clash(conns, targets, connects, t, u)
    ensures !OneEach(Run(targets, connects, next, Start(conns, targets), [t, u, t, u]).conns)
  {
    var s0 := Start(conns, targets);
    var s1 := Advance(targets, connects, next, s0, t);
    var s2 := Advance(targets, connects, next, s1, u);
    var s3 := Advance(targets, connects, next, s2, t);
    var s4 := Advance(targets, connects, next, s3, u);
    assert [t, u, t, u][..3] == [t, u, t] && [t, u, t][..2] == [t, u] && [t, u][..1] == [t] && [t][..0] == [];
    assert Run(targets, connects, next, s0, []) == s0;
    assert Run(targets, connects, next, s0, [t]) == s1;
    assert Run(targets, connects, next, s0, [t, u]) == s2;
    assert Run(targets, connects, next, s0, [t, u, t]) == s3;
    assert Run(targets, connects, next, s0, [t, u, t, u]) == s4;
    assert MadeBy(targets, next, t) in s4.conns && MadeBy(targets, next, u) in s4.conns;
  }

  /**
  In every interleaving of the dials there is at most one connection per address, exactly when no two of them that
  connect are at one address that was free.
  */
  lemma OneEachIffNoClash(conns: set<Conn>, targets: seq<Target>, connects: nat -> bool, next: nat)
    requires OneEach(conns)
    ensures (forall schedule :: OneEach(Run(targets, connects, next, Start(conns, targets), schedule).conns))
            <==> forall t: nat, u: nat :: !Clash(conns, targets, connects, t, u)
  {
    if forall t: nat, u: nat :: !Clash(conns, targets, connects, t, u) {
      forall schedule ensures OneEach(Run(targets, connects, next, Start(conns, targets), schedule).conns) {
        RunKeeps(conns, targets, connects, next, schedule);
        InvIsOneEach(conns, targets, connects, next, Run(targets, connects, next, Start(conns, targets), schedule));
      }
    } else {
      var t: nat, u: nat :| Clash(conns, targets, connects, t, u);
      ClashDoubles(conns, targets, connects, next, t, u);
    }
  }
}
