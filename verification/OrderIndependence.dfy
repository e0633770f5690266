/** What a node knows about subnets after any sequence of deliveries: reordered, repeated, interleaved. */
module OrderIndependence {
  import opened Claims
  import opened Ledgers
  import opened Messages
  import opened Planes
  import opened Topologies

  /** A new plane after receiving the envelopes in order. */
  ghost function Deliver(auth: Auth, name: string, ms: seq<Message>): PlaneView {
    if ms == [] then NewPlane(name)
    else Received(auth, Deliver(auth, name, ms[..|ms| - 1]), ms[|ms| - 1])
  }

  /** The envelopes that pass verification when they come, with whatever keys the node has learned by then. */
  ghost function Verified(auth: Auth, name: string, ms: seq<Message>): seq<Message> {
    if ms == [] then [] else
      var before, m := ms[..|ms| - 1], ms[|ms| - 1];
      Verified(auth, name, before) + if Verifies(auth, Deliver(auth, name, before), m) then [m] else []
  }

  function TakeAll(ms: seq<Message>): Ledger {
    if ms == [] then NEW_LEDGER else Taken(TakeAll(ms[..|ms| - 1]), ms[|ms| - 1])
  }

  lemma {:induction false} DeliverLedger(auth: Auth, name: string, ms: seq<Message>)
    ensures LedgerOf(Deliver(auth, name, ms)) == TakeAll(Verified(auth, name, ms))
  {
    if ms == [] {
      NewPlaneLedger(name);
    } else {
      var before, m := ms[..|ms| - 1], ms[|ms| - 1];
      DeliverLedger(auth, name, before);
      ReceivedLedger(auth, Deliver(auth, name, before), m);
      var vs := Verified(auth, name, before);
      assert (vs + [m])[..|vs|] == vs && vs + [] == vs;
    }
  }

  function Stamps(ms: seq<Message>): seq<Stamp> {
    seq(|ms|, i requires 0 <= i < |ms| => StampOf(ms[i]))
  }

  lemma {:induction false} TakeAllSeen(ms: seq<Message>)
    ensures TakeAll(ms).seen == ClaimAll(Stamps(ms))
  {
    if ms != [] {
      var k := |ms| - 1;
      TakeAllSeen(ms[..k]);
      assert Stamps(ms)[..k] == Stamps(ms[..k]) && Stamps(ms)[k] == StampOf(ms[k]);
    }
  }

  ghost predicate Adds(ms: seq<Message>, i: nat, owner: string, subnet: string) {
    Wins(Stamps(ms), i) && ms[i].body == AddSubnet(owner, subnet)
  }

  predicate About(b: Body, owner: string, subnet: string) {
    b == AddSubnet(owner, subnet) || b == DelSubnet(owner, subnet)
  }

  lemma {:induction false} TakenCovers(ms: seq<Message>)
    ensures Covers(TakeAll(ms).seen, Stamps(ms)) && Attained(TakeAll(ms).seen, Stamps(ms))
  {
    TakeAllSeen(ms);
    ClaimAllIsNewest(Stamps(ms));
  }

  lemma {:induction false} WinsKept(before: seq<Message>, m: Message)
    ensures var all := Stamps(before + [m]);
            && (Wins(all, |before|) <==> Newer(TakeAll(before).seen, StampOf(m)))
            && forall i: nat :: i < |before| ==>
                 (Wins(all, i) <==>
                  Wins(Stamps(before), i) && !(Newer(TakeAll(before).seen, StampOf(m)) && before[i].id == m.id))
  {
    TakenCovers(before);
    assert Stamps(before + [m]) == Stamps(before) + [StampOf(m)];
    WinnersAfter(TakeAll(before).seen, Stamps(before), StampOf(m));
    assert forall i: nat :: i < |before| ==> Stamps(before)[i].id == before[i].id;
  }

  /** One more envelope keeps the adding winner unless it is newer and about the same subnet. */
  lemma {:induction false} AddsKept(before: seq<Message>, m: Message, i: nat, owner: string, subnet: string)
    requires i < |before|
    requires before[i].body == AddSubnet(owner, subnet) ==> (before[i].id == m.id <==> About(m.body, owner, subnet))
    ensures Adds(before + [m], i, owner, subnet) <==>
              && Adds(before, i, owner, subnet)
              && (Newer(TakeAll(before).seen, StampOf(m)) ==> !About(m.body, owner, subnet))
  {
    WinsKept(before, m);
    assert (before + [m])[i] == before[i];
  }

  lemma {:induction false} AddsLast(before: seq<Message>, m: Message, owner: string, subnet: string)
    ensures Adds(before + [m], |before|, owner, subnet) <==>
              Newer(TakeAll(before).seen, StampOf(m)) && m.body == AddSubnet(owner, subnet)
  {
    WinsKept(before, m);
  }

  /** A subnet is held exactly when the first newest envelope of its ID adds it. */
  lemma {:induction false} FirstNewestAdds(ms: seq<Message>, owner: string, subnet: string)
    requires forall m :: m in ms ==> Honest(m)
    ensures (owner, subnet) in TakeAll(ms).held <==> exists i: nat :: Adds(ms, i, owner, subnet)
  {
    if ms != [] {
      var k := |ms| - 1;
      var before, m := ms[..k], ms[k];
      assert ms == before + [m] && Honest(m);
      FirstNewestAdds(before, owner, subnet);
      AddsLast(before, m, owner, subnet);
      forall i: nat | i < k
        ensures Adds(ms, i, owner, subnet) <==>
                  && Adds(before, i, owner, subnet)
                  && (Newer(TakeAll(before).seen, StampOf(m)) ==> !About(m.body, owner, subnet))
      {
        assert before[i] in ms;
        if before[i].body == AddSubnet(owner, subnet) { HonestSameId(before[i], m, owner, subnet); }
        AddsKept(before, m, i, owner, subnet);
      }
    }
  }

  /** The envelope is as new as any of its ID in the set. */
  ghost predicate Newest(s: set<Message>, m: Message) {
    m in s && forall n :: n in s && n.id == m.id ==> n.ts <= m.ts
  }

  /** No two newest envelopes of one subnet disagree. */
  ghost predicate NoTie(s: set<Message>) {
    forall m, n :: Newest(s, m) && Newest(s, n) && m.id == n.id && IsSubnetBody(m.body) ==> m.body == n.body
  }

  function Elements(ms: seq<Message>): set<Message> {
    set m | m in ms
  }

  /** The plain reading of "the newest envelope per ID decides". */
  lemma NewestDecides(auth: Auth, name: string, ms: seq<Message>, owner: string, subnet: string)
    requires forall m :: m in Verified(auth, name, ms) ==> Honest(m)
    requires NoTie(Elements(Verified(auth, name, ms)))
    ensures HoldsSubnet(Deliver(auth, name, ms).topo, owner, subnet) <==>
              exists m :: Newest(Elements(Verified(auth, name, ms)), m) && m.body == AddSubnet(owner, subnet)
  {
    var vs := Verified(auth, name, ms);
    DeliverLedger(auth, name, ms);
    assert HoldsSubnet(Deliver(auth, name, ms).topo, owner, subnet) <==> (owner, subnet) in TakeAll(vs).held;
    NewestIsHeld(vs, owner, subnet);
  }

  lemma {:induction false} NewestIsHeld(ms: seq<Message>, owner: string, subnet: string)
    requires (forall m :: m in ms ==> Honest(m)) && NoTie(Elements(ms))
    ensures (owner, subnet) in TakeAll(ms).held <==>
              exists m :: Newest(Elements(ms), m) && m.body == AddSubnet(owner, subnet)
  {
    FirstNewestAdds(ms, owner, subnet);
    if i: nat :| Adds(ms, i, owner, subnet) {
      WinnerIsNewest(ms, i);
    }
    if m :| Newest(Elements(ms), m) && m.body == AddSubnet(owner, subnet) {
      var i := NewestHasWinner(ms, m);
      assert Adds(ms, i, owner, subnet);
    }
  }

  lemma NewestHasWinner(ms: seq<Message>, m: Message) returns (i: nat)
    requires Newest(Elements(ms), m) && NoTie(Elements(ms)) && IsSubnetBody(m.body)
    ensures Wins(Stamps(ms), i) && ms[i].body == m.body
  {
    TakenCovers(ms);
    var k :| 0 <= k < |ms| && ms[k] == m;
    assert Stamps(ms)[k] == StampOf(m);
    i :| Wins(Stamps(ms), i) && Stamps(ms)[i] == Stamp(m.id, TakeAll(ms).seen[m.id]);
    WinnerIsNewest(ms, i);
  }

  lemma WinnerIsNewest(ms: seq<Message>, i: nat)
    requires Wins(Stamps(ms), i)
    ensures Newest(Elements(ms), ms[i])
  {
    forall n | n in ms && n.id == ms[i].id ensures n.ts <= ms[i].ts {
      var j :| 0 <= j < |ms| && ms[j] == n;
      assert Beats(Stamps(ms)[i], i, Stamps(ms)[j], j);
    }
  }

  ghost predicate SameSubnets(v: PlaneView, w: PlaneView) {
    forall o, s :: HoldsSubnet(v.topo, o, s) <==> HoldsSubnet(w.topo, o, s)
  }

  /** Every two deliveries of the same envelopes leave the same subnets. */
  ghost predicate OrderFree(auth: Auth, name: string, s: set<Message>) {
    forall ms, ns :: Elements(ms) == s && Elements(ns) == s ==>
      SameSubnets(Deliver(auth, name, ms), Deliver(auth, name, ns))
  }

  /** Whatever part of the set has been delivered, and in whatever order, each of its envelopes verifies. */
  ghost predicate Steady(auth: Auth, name: string, s: set<Message>) {
    forall ms, m :: Elements(ms) <= s && m in s ==> Verifies(auth, Deliver(auth, name, ms), m)
  }

  /** Keys that are pinned in host files make every set of well-signed envelopes steady. */
  lemma PinnedIsSteady(auth: Auth, name: string, s: set<Message>)
    requires auth.lookup.Some?
    requires forall m :: m in s ==>
               && auth.lookup.value(m.origin).Some? && auth.lookup.value(m.origin).value != ""
               && auth.check(auth.lookup.value(m.origin).value, m)
    ensures Steady(auth, name, s)
  {}

  lemma {:induction false} SteadyVerified(auth: Auth, name: string, s: set<Message>, ms: seq<Message>)
    requires Steady(auth, name, s) && Elements(ms) <= s
    ensures Verified(auth, name, ms) == ms
  {
    if ms != [] {
      var before, m := ms[..|ms| - 1], ms[|ms| - 1];
      assert ms == before + [m] && m in Elements(ms);
      assert forall x :: x in Elements(before) ==> x in Elements(ms);
      SteadyVerified(auth, name, s, before);
    }
  }

  /** The order of delivery does not matter exactly when no two newest envelopes of one subnet disagree. */
  lemma OrderFreeIffNoTie(auth: Auth, name: string, s: set<Message>)
    requires (forall m :: m in s ==> Honest(m)) && Steady(auth, name, s)
    ensures OrderFree(auth, name, s) <==> NoTie(s)
  {
    if NoTie(s) {
      forall ms, ns | Elements(ms) == s && Elements(ns) == s
        ensures SameSubnets(Deliver(auth, name, ms), Deliver(auth, name, ns))
      {
        NoTieOrderFree(auth, name, s, ms, ns);
      }
    }
    if !NoTie(s) {
      var m, n :| Newest(s, m) && Newest(s, n) && m.id == n.id && IsSubnetBody(m.body) && m.body != n.body;
      TieMatters(auth, name, s, m, n);
    }
  }

  lemma NoTieOrderFree(auth: Auth, name: string, s: set<Message>, ms: seq<Message>, ns: seq<Message>)
    requires (forall m :: m in s ==> Honest(m)) && Steady(auth, name, s)
    requires NoTie(s) && Elements(ms) == s && Elements(ns) == s
    ensures SameSubnets(Deliver(auth, name, ms), Deliver(auth, name, ns))
  {
    SteadyVerified(auth, name, s, ms);
    SteadyVerified(auth, name, s, ns);
    assert forall m :: m in ms ==> m in Elements(ms);
    assert forall m :: m in ns ==> m in Elements(ns);
    forall o, t
      ensures HoldsSubnet(Deliver(auth, name, ms).topo, o, t) <==> HoldsSubnet(Deliver(auth, name, ns).topo, o, t)
    {
      NewestDecides(auth, name, ms, o, t);
      NewestDecides(auth, name, ns, o, t);
    }
  }

  /** Two newest envelopes that disagree each decide when they come last of all that is news. */
  lemma TieMatters(auth: Auth, name: string, s: set<Message>, m: Message, n: Message)
    requires (forall m :: m in s ==> Honest(m)) && Steady(auth, name, s)
    requires Newest(s, m) && Newest(s, n) && m.id == n.id && IsSubnetBody(m.body) && m.body != n.body
    ensures !OrderFree(auth, name, s)
  {
    var o, t := m.body.owner, m.body.subnet;
    HonestSameId(m, n, o, t);
    var ms, v := NewestCanDecide(auth, name, s, m);
    var ns, w := NewestCanDecide(auth, name, s, n);
    AppliedSubnets(v, m.body, o, t);
    AppliedSubnets(w, n.body, o, t);
    assert !SameSubnets(Deliver(auth, name, ms), Deliver(auth, name, ns));
  }

  // Any newest envelope can be the last to be applied

  /** An envelope is news exactly when it is strictly newer than all of its ID so far. */
  lemma {:induction false} NewerIff(ms: seq<Message>, m: Message)
    ensures Newer(TakeAll(ms).seen, StampOf(m)) <==> forall x :: x in ms && x.id == m.id ==> x.ts < m.ts
  {
    TakenCovers(ms);
    var seen := TakeAll(ms).seen;
    if m.id in seen {
      var i: nat :| Wins(Stamps(ms), i) && Stamps(ms)[i] == Stamp(m.id, seen[m.id]);
      assert ms[i] in ms && ms[i].id == m.id && ms[i].ts == seen[m.id];
    }
    forall x | x in ms && x.id == m.id ensures m.id in seen && x.ts <= seen[m.id] {
      var i :| 0 <= i < |ms| && ms[i] == x;
      assert Stamps(ms)[i] == StampOf(x);
    }
  }

  lemma {:induction false} StaleChangesNothing(auth: Auth, name: string, ms: seq<Message>, tail: seq<Message>)
    requires forall x :: x in tail ==> !Newer(Deliver(auth, name, ms).seen, StampOf(x))
    ensures Deliver(auth, name, ms + tail) == Deliver(auth, name, ms)
  {
    if tail == [] {
      assert ms + tail == ms;
    } else {
      var before, m := tail[..|tail| - 1], tail[|tail| - 1];
      StaleChangesNothing(auth, name, ms, before);
      assert (ms + tail)[..|ms + tail| - 1] == ms + before && (ms + tail)[|ms + tail| - 1] == m;
      assert m in tail;
    }
  }

  /** The other IDs first, then the envelope, then everything once more. */
  lemma NewestCanDecide(auth: Auth, name: string, s: set<Message>, m: Message) returns (ms: seq<Message>, v: PlaneView)
    requires Steady(auth, name, s) && Newest(s, m)
    ensures Elements(ms) == s && Deliver(auth, name, ms) == Applied(v, m.body)
    ensures exists before :: Elements(before) <= s && v.topo == Deliver(auth, name, before).topo
  {
    var others := Listed(OtherIds(s, m));
    v := Deliver(auth, name, others).(seen := Claimed(Deliver(auth, name, others).seen, StampOf(m)));
    LastOfOthers(auth, name, s, others, m);
    RestIsStale(auth, name, s, others, m, Listed(s));
    StaleChangesNothing(auth, name, others + [m], Listed(s));
    ms := others + [m] + Listed(s);
    ElementsSnoc(others, m);
    ElementsConcat(others + [m], Listed(s));
  }

  function OtherIds(s: set<Message>, m: Message): set<Message> {
    set x | x in s && x.id != m.id
  }

  lemma RestIsStale(auth: Auth, name: string, s: set<Message>, others: seq<Message>, m: Message, all: seq<Message>)
    requires Steady(auth, name, s) && Newest(s, m) && Elements(others) == OtherIds(s, m) && Elements(all) == s
    ensures forall x :: x in all ==> !Newer(Deliver(auth, name, others + [m]).seen, StampOf(x))
  {
    ElementsSnoc(others, m);
    SteadyVerified(auth, name, s, others + [m]);
    DeliverLedger(auth, name, others + [m]);
    forall x | x in all ensures !Newer(TakeAll(others + [m]).seen, StampOf(x)) {
      NewerIff(others + [m], x);
      assert x in Elements(all);
      AlreadyThere(s, others, m, x);
    }
  }

  lemma AlreadyThere(s: set<Message>, others: seq<Message>, m: Message, x: Message)
    requires Newest(s, m) && x in s && Elements(others) == OtherIds(s, m)
    ensures exists y :: y in others + [m] && y.id == x.id && x.ts <= y.ts
  {
    if x.id == m.id {
      assert (others + [m])[|others|] == m;
    } else {
      assert x in Elements(others);
      assert x in others + [m];
    }
  }

  lemma LastOfOthers(auth: Auth, name: string, s: set<Message>, others: seq<Message>, m: Message)
    requires Steady(auth, name, s) && m in s && Elements(others) == OtherIds(s, m)
    ensures var w := Deliver(auth, name, others);
            Deliver(auth, name, others + [m]) == Applied(w.(seen := Claimed(w.seen, StampOf(m))), m.body)
  {
    SteadyVerified(auth, name, s, others);
    DeliverLedger(auth, name, others);
    NewerIff(others, m);
    assert forall x :: x in others ==> x in Elements(others);
    assert (others + [m])[..|others|] == others && (others + [m])[|others|] == m;
  }

  lemma ElementsSnoc(ms: seq<Message>, m: Message)
    ensures Elements(ms + [m]) == Elements(ms) + {m}
  {
    assert forall x :: x in ms + [m] <==> x in ms || x == m;
  }

  lemma ElementsConcat(ms: seq<Message>, ns: seq<Message>)
    ensures Elements(ms + ns) == Elements(ms) + Elements(ns)
  {
    assert forall x :: x in ms + ns <==> x in ms || x in ns;
  }

  /** The elements of a set in some order. */
  ghost function Listed(s: set<Message>): (ms: seq<Message>)
    ensures Elements(ms) == s
  {
    if s == {} then [] else
      var m :| m in s;
      var rest := Listed(s - {m});
      ElementsSnoc(rest, m);
      rest + [m]
  }
}
