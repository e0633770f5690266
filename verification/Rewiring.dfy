/**
Connections that come and go while gossip runs. A new connection carries nothing by itself, so a node that joins
late learns only what is announced, or repeated by a peer that owns it, after it joined.
*/
module Rewiring {
  import opened Claims
  import opened Flood
  import opened Heartbeat
  import opened Messages
  import opened Paths
  import opened Planes
  import opened Reach
  import opened Repairs
  import opened Termination

  datatype Move = Gossip(step: Step) | Join(a: string, b: string) | Part(a: string, b: string)

  predicate Able(s: Net, move: Move) {
    match move
    case Gossip(step) => Enabled(s, step)
    case Join(a, b) => a in s.links && b in s.links && a != b
    case Part(a, b) => a in s.links && b in s.links
  }

  /** Both ends track the new connection. */
  function Joined(links: Links, a: string, b: string): Links {
    map n | n in links :: if n == a then links[n] + {b} else if n == b then links[n] + {a} else links[n]
  }

  /** Both ends drop the connection; what is in transit on it may still be read or be lost. */
  function Parted(links: Links, a: string, b: string): Links {
    map n | n in links :: if n == a then links[n] - {b} else if n == b then links[n] - {a} else links[n]
  }

  ghost function Moved(s: Net, move: Move): Net {
    match move
    case Gossip(step) => After(s, step)
    case Join(a, b) => s.(links := Joined(s.links, a, b))
    case Part(a, b) => s.(links := Parted(s.links, a, b))
  }

  ghost function Tour(s: Net, moves: seq<Move>): Net {
    if moves == [] then s else Moved(Tour(s, moves[..|moves| - 1]), moves[|moves| - 1])
  }

  ghost predicate Feasible(s: Net, moves: seq<Move>) {
    moves == [] ||
    (Feasible(s, moves[..|moves| - 1]) && Able(Tour(s, moves[..|moves| - 1]), moves[|moves| - 1]))
  }

  lemma RelinkedAccounted(s: Net, links: Links)
    requires Accounted(s) && Symmetric(links) && links.Keys == s.links.Keys
    ensures Accounted(s.(links := links))
  {
    var t := s.(links := links);
    assert Transit(t) == Transit(s);
    forall n, id | n in t.links && id in SeenAt(t, n) ensures MintedAnywhere(t, Stamp(id, SeenAt(t, n)[id])) {
      assert MintedAnywhere(s, Stamp(id, SeenAt(s, n)[id]));
    }
    forall n, id | n in t.links && id in OutboxAt(t, n)
      ensures OutboxAt(t, n)[id] in t.minted && OutboxAt(t, n)[id].origin == n && OutboxAt(t, n)[id].id == id
    {
      assert OutboxAt(t, n) == OutboxAt(s, n);
    }
  }

  lemma JoinedIsSymmetric(links: Links, a: string, b: string)
    requires Symmetric(links) && a in links && b in links && a != b
    ensures Symmetric(Joined(links, a, b)) && Joined(links, a, b).Keys == links.Keys
  {}

  lemma PartedIsSymmetric(links: Links, a: string, b: string)
    requires Symmetric(links) && a in links && b in links
    ensures Symmetric(Parted(links, a, b)) && Parted(links, a, b).Keys == links.Keys
  {}

  lemma MovedAccounted(s: Net, move: Move)
    requires Accounted(s) && Able(s, move)
    ensures Accounted(Moved(s, move))
  {
    match move
    case Gossip(step) => AccountedAfter(s, step);
    case Join(a, b) =>
      JoinedIsSymmetric(s.links, a, b);
      RelinkedAccounted(s, Joined(s.links, a, b));
    case Part(a, b) =>
      PartedIsSymmetric(s.links, a, b);
      RelinkedAccounted(s, Parted(s.links, a, b));
  }

  /** Every net reached over changing links is accounted for, so everything proved of such nets holds of it. */
  lemma {:induction false} AccountedAlways(s: Net, moves: seq<Move>)
    requires Fresh(s) && Feasible(s, moves)
    ensures Accounted(Tour(s, moves))
  {
    if moves != [] {
      var before := moves[..|moves| - 1];
      AccountedAlways(s, before);
      MovedAccounted(Tour(s, before), moves[|moves| - 1]);
    }
  }

  /** From every net so reached an announcement reaches exactly what lagging nodes lead to. */
  lemma AnnounceAfterRewiring(able: set<string>, s: Net, moves: seq<Move>, t: Net, m: Message, steps: seq<Step>,
                              n: string)
    requires Fresh(s) && Feasible(s, moves) && t == Tour(s, moves) && m.origin in t.links && n in t.links
    requires NothingUnder(t, m.id) && SoleOwner(t, m.id, m.origin)
    requires Possible(After(t, Originate(m)), steps) && AllSound(able, m.id, After(t, Originate(m)), steps)
    requires NoMint(steps, m.id) && NothingUnder(Run(After(t, Originate(m)), steps), m.id)
    ensures Has(Run(After(t, Originate(m)), steps), n, StampOf(m)) <==>
              Has(t, n, StampOf(m)) || Connected(LagLinks(able, t, StampOf(m)), m.origin, n)
  {
    AccountedAlways(s, moves);
    AccountedIsTidy(t);
    AnnounceReachesExactly(able, t, m, steps, n);
  }

  /**
  Whatever connections came and went and whatever was lost: an announcement newer than everything minted under its ID
  leaves all nodes that verifying nodes then lead to from its origin with exactly its time stamp.
  */
  lemma AgreementAfterRewiring(able: set<string>, s: Net, moves: seq<Move>, t: Net, m: Message, steps: seq<Step>,
                               n: string)
    requires Fresh(s) && Feasible(s, moves) && t == Tour(s, moves)
    requires m.origin in t.links && n in t.links && Connected(Into(t.links, able), m.origin, n)
    requires forall x :: x in t.minted && x.id == m.id ==> x.ts < m.ts
    requires Possible(After(t, Originate(m)), steps) && AllSound(able, m.id, After(t, Originate(m)), steps)
    requires NoMint(steps, m.id) && NothingUnder(Run(After(t, Originate(m)), steps), m.id)
    ensures var end := Run(After(t, Originate(m)), steps);
            m.id in SeenAt(end, n) && SeenAt(end, n)[m.id] == m.ts
  {
    AccountedAlways(s, moves);
    NewestReaches(able, t, m, steps, n);
    NothingNewer(t, After(t, Originate(m)), m, steps, n);
  }

  // Late joiners

  /** Joining an up-to-date relay that does not own the fact leaves a newcomer out of reach, with nothing lost. */
  lemma JoinLeavesOutOfReach(s: Net, b: string, c: string, id: string)
    requires Able(s, Join(b, c)) && Symmetric(s.links) && s.links[c] == {} && NothingComing(s, c, id)
    requires id !in OutboxAt(s, b) && forall m :: m in s.minted && m.id == id ==> Has(s, b, StampOf(m))
    ensures OutOfReach(Moved(s, Join(b, c)), c, id)
  {
    var t := Moved(s, Join(b, c));
    assert Transit(t) == Transit(s);
    assert forall x :: x in t.links && c in t.links[x] ==> x == b;
    assert forall n :: SeenAt(t, n) == SeenAt(s, n) && OutboxAt(t, n) == OutboxAt(s, n);
  }

  lemma IsolatedIsUnreachable(links: Links, a: string, c: string)
    requires Symmetric(links) && c in links && links[c] == {} && a != c
    ensures !Connected(links, a, c)
  {
    if Connected(links, a, c) {
      ConnectedSymmetric(links, a, c);
      ClosedContainsConnected(links, {c}, c, a);
    }
  }

  /** In the net that an announcement settled in, a relay has it and a node without links has nothing of it. */
  lemma SettledNet(able: set<string>, s: Net, m: Message, steps: seq<Step>, b: string, c: string)
    requires Fresh(s) && m.origin in s.links && b in s.links && Connected(Into(s.links, able), m.origin, b)
    requires b != m.origin && c in s.links && s.links[c] == {} && c != b && c != m.origin
    requires steps != [] && steps[0] == Originate(m) && forall i :: 0 < i < |steps| ==> !steps[i].Originate?
    requires Possible(s, steps) && AllSound(able, m.id, s, steps) && NothingUnder(Run(s, steps), m.id)
    ensures var t := Run(s, steps);
            && t.minted == {m} && t.links == s.links && Accounted(t) && Has(t, b, StampOf(m))
            && m.id !in SeenAt(t, c) && m.id !in OutboxAt(t, b) && m.id in OutboxAt(t, m.origin)
  {
    var t := Run(s, steps);
    LinksConstant(s, steps);
    AccountedOverRun(s, steps);
    OneMint(s, m, steps);
    AgreementAtQuiescence(able, s, steps, b, m.id);
    assert NearMint(able, t, b, m.id, m);
    AgreementAtQuiescence(able, s, steps, c, m.id);
    NoMintNear(able, t, m, c);
    assert OutboxMinted(t);
  }

  lemma NoMintNear(able: set<string>, t: Net, m: Message, c: string)
    requires Symmetric(t.links) && t.minted == {m} && c in t.links && t.links[c] == {} && c != m.origin
    ensures forall x :: !NearMint(able, t, c, m.id, x)
  {
    IsolatedIsUnreachable(t.links, m.origin, c);
    if Connected(Into(t.links, able), m.origin, c) {
      MoreLinksMorePaths(Into(t.links, able), t.links, m.origin, c);
    }
  }

  lemma {:induction false} OneMint(s: Net, m: Message, steps: seq<Step>)
    requires s.minted == {} && steps != [] && steps[0] == Originate(m)
    requires forall i :: 0 < i < |steps| ==> !steps[i].Originate?
    ensures Run(s, steps).minted == {m} && m.id in OutboxAt(Run(s, steps), m.origin)
  {
    if |steps| == 1 {
      assert steps[..0] == [] && Run(s, []) == s;
      assert Run(s, steps) == After(s, Originate(m));
    } else {
      var before, last := steps[..|steps| - 1], steps[|steps| - 1];
      OneMint(s, m, before);
      OnlyAnnouncementsEnterOutbox(Run(s, before), last);
    }
  }

  /**
  On any topology: when an announcement has gone round without a loss, a newcomer that then connects to one of the
  nodes it reached is connected to the announcer, has never heard of the fact and is out of reach for it.
  */
  lemma LateJoiner(able: set<string>, s: Net, m: Message, b: string, c: string) returns (steps: seq<Step>)
    requires Fresh(s) && m.origin in s.links && b in s.links && Connected(Into(s.links, able), m.origin, b)
    requires b != m.origin && c in s.links && s.links[c] == {} && c != b && c != m.origin
    ensures Possible(s, steps) && AllSound(able, m.id, s, steps) && Able(Run(s, steps), Join(b, c))
    ensures var t := Moved(Run(s, steps), Join(b, c));
            && Accounted(t) && Quiet(t) && OutOfReach(t, c, m.id) && m.id !in SeenAt(t, c)
            && m.id in OutboxAt(t, m.origin) && Connected(t.links, m.origin, c)
  {
    steps := AnnounceSettles(able, s, m);
    SettledNet(able, s, m, steps, b, c);
    MoreLinksMorePaths(Into(s.links, able), s.links, m.origin, b);
    JoinedLate(Run(s, steps), m, b, c);
  }

  lemma AnnounceSettles(able: set<string>, s: Net, m: Message) returns (steps: seq<Step>)
    requires Fresh(s) && m.origin in s.links
    ensures steps != [] && steps[0] == Originate(m) && forall i :: 0 < i < |steps| ==> !steps[i].Originate?
    ensures Possible(s, steps) && AllSound(able, m.id, s, steps)
    ensures Quiet(Run(s, steps)) && NothingUnder(Run(s, steps), m.id)
  {
    var step := Originate(m);
    AccountedAfter(s, step);
    var rest := SettlesFor(able, m.id, After(s, step));
    RunPrepended(s, step, rest);
    SoundPrepended(able, m.id, s, step, rest);
    steps := [step] + rest;
  }

  lemma JoinedLate(t: Net, m: Message, b: string, c: string)
    requires Accounted(t) && Quiet(t) && t.minted == {m} && Has(t, b, StampOf(m))
    requires m.id !in SeenAt(t, c) && m.id !in OutboxAt(t, b) && m.id in OutboxAt(t, m.origin)
    requires b in t.links && c in t.links && t.links[c] == {} && b != c && Connected(t.links, m.origin, b)
    ensures Able(t, Join(b, c))
    ensures var u := Moved(t, Join(b, c));
            && Accounted(u) && Quiet(u) && OutOfReach(u, c, m.id) && m.id !in SeenAt(u, c)
            && m.id in OutboxAt(u, m.origin) && Connected(u.links, m.origin, c)
  {
    var u := Moved(t, Join(b, c));
    MovedAccounted(t, Join(b, c));
    assert Transit(t) == multiset{};
    JoinLeavesOutOfReach(t, b, c, m.id);
    MoreLinksMorePaths(t.links, u.links, m.origin, b);
    ConnectedStep(u.links, m.origin, b, c);
  }
}
