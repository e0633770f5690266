/** Where everything a plane believes comes from: its own announcements, or envelopes whose signature was good. */
module Provenance {
  import opened Claims
  import opened Histories
  import opened Ledgers
  import opened Messages
  import opened Planes
  import opened Results
  import opened Tables
  import opened Topologies

  /** The event is a hello that gives the origin of `m` a key under which `m` is well signed. */
  predicate Introduces(auth: Auth, name: string, e: Event, m: Message) {
    var b := MessageOf(name, e).body;
    && b.AddNode? && b.hello.name == m.origin && b.hello.edKey.Some?
    && b.hello.edKey.value != "" && auth.check(b.hello.edKey.value, m)
  }

  /**
  Event `i` is an announcement, or an envelope that is well signed under the pinned key of its origin. Where no key is
  pinned, it is well signed under a key that an earlier event brought, itself applied and backed. A node without a
  lookup and without a key for the origin takes it unchecked.
  */
  ghost predicate Backed(auth: Auth, name: string, events: seq<Event>, i: nat)
    requires i < |events|
    decreases i
  {
    || events[i].Announced?
    || (exists k :: Pinned(auth, events[i].msg.origin, k) && auth.check(k, events[i].msg))
    || (&& Unpinned(auth, events[i].msg.origin)
        && exists j: nat :: j < i && Backed(auth, name, events, j) && TookEffect(auth, name, events, j)
                            && Introduces(auth, name, events[j], events[i].msg))
    || (auth.lookup.None? && events[i].msg.origin !in Life(auth, name, events[..i]).pubKeys)
  }

  /** The life up to event `n`. */
  ghost function Until(auth: Auth, name: string, events: seq<Event>, n: nat): PlaneView
    requires n <= |events|
  {
    Life(auth, name, events[..n])
  }

  lemma UntilStep(auth: Auth, name: string, events: seq<Event>, n: nat) returns (v: PlaneView)
    requires n < |events|
    ensures var before := Until(auth, name, events, n);
            if TookEffect(auth, name, events, n)
            then Until(auth, name, events, n + 1) == Applied(v, MessageOf(name, events[n]).body)
                 && v == before.(seen := v.seen, outbox := v.outbox)
            else Until(auth, name, events, n + 1) == before
  {
    var upto := events[..n + 1];
    assert upto[..n] == events[..n] && upto[n] == events[n];
    v := LifeStep(auth, name, upto);
  }

  /** Event `n` took effect and gives the node this key. */
  ghost predicate Brings(auth: Auth, name: string, events: seq<Event>, n: nat, o: string, k: EdKey) {
    n < |events| && TookEffect(auth, name, events, n) &&
    var b := MessageOf(name, events[n]).body;
    b.AddNode? && b.hello.name == o && b.hello.edKey == Some(k)
  }

  lemma KeyStep(auth: Auth, name: string, events: seq<Event>, n: nat, o: string, k: EdKey)
    requires n < |events| && Lookup(Until(auth, name, events, n + 1).pubKeys, o) == Some(k)
    ensures Brings(auth, name, events, n, o, k) || Lookup(Until(auth, name, events, n).pubKeys, o) == Some(k)
  {
    var v := UntilStep(auth, name, events, n);
    AppliedKey(v, MessageOf(name, events[n]).body, o);
  }

  /** A learned key was brought by an event that took effect. */
  lemma {:induction false} KeyBrought(auth: Auth, name: string, events: seq<Event>, n: nat, o: string, k: EdKey)
    returns (j: nat)
    requires n <= |events| && Lookup(Until(auth, name, events, n).pubKeys, o) == Some(k)
    ensures j < n && Brings(auth, name, events, j, o, k)
    decreases n
  {
    assert n != 0 by { assert events[..0] == []; }
    KeyStep(auth, name, events, n - 1, o, k);
    if Brings(auth, name, events, n - 1, o, k) {
      j := n - 1;
    } else {
      j := KeyBrought(auth, name, events, n - 1, o, k);
    }
  }

  /** Whatever took effect is backed. */
  lemma {:induction false} EffectIsBacked(auth: Auth, name: string, events: seq<Event>, i: nat)
    requires i < |events| && TookEffect(auth, name, events, i)
    ensures Backed(auth, name, events, i)
    decreases i
  {
    if events[i].Arrived? {
      var m, v := events[i].msg, Until(auth, name, events, i);
      PinnedOrNot(auth, m.origin);
      if Unpinned(auth, m.origin) && m.origin in v.pubKeys {
        var j := KeyBrought(auth, name, events, i, m.origin, v.pubKeys[m.origin]);
        EffectIsBacked(auth, name, events, j);
        assert Introduces(auth, name, events[j], m);
      } else if !Unpinned(auth, m.origin) {
        assert Pinned(auth, m.origin, auth.lookup.value(m.origin).value);
      }
    }
  }

  // What the tables and the graph hold

  ghost predicate EntryFrom(auth: Auth, name: string, events: seq<Event>, st: Stamp, i: nat) {
    i < |events| && TookEffect(auth, name, events, i) && StampOf(MessageOf(name, events[i])) == st
  }

  ghost predicate SubnetFrom(auth: Auth, name: string, events: seq<Event>, owner: string, subnet: string, i: nat) {
    i < |events| && TookEffect(auth, name, events, i) && MessageOf(name, events[i]).body == AddSubnet(owner, subnet)
  }

  lemma TablesStep(auth: Auth, name: string, events: seq<Event>, n: nat)
    requires n < |events|
    ensures var m := MessageOf(name, events[n]);
            Until(auth, name, events, n + 1).seen ==
              if TookEffect(auth, name, events, n) then Until(auth, name, events, n).seen[m.id := m.ts]
              else Until(auth, name, events, n).seen
  {
    var upto, m, before := events[..n + 1], MessageOf(name, events[n]), Until(auth, name, events, n);
    assert upto[..n] == events[..n] && upto[n] == events[n];
    LifeLedger(auth, name, events[..n]);
    OriginatedLedger(before, m);
    ReceivedLedger(auth, before, m);
    assert Until(auth, name, events, n + 1) == Handle(auth, before, events[n]);
  }

  lemma {:induction false} EntryHasSource(auth: Auth, name: string, events: seq<Event>, n: nat, id: string)
    returns (i: nat)
    requires n <= |events| && id in Until(auth, name, events, n).seen
    ensures EntryFrom(auth, name, events, Stamp(id, Until(auth, name, events, n).seen[id]), i)
    decreases n
  {
    assert n != 0 by { assert events[..0] == []; }
    TablesStep(auth, name, events, n - 1);
    var m := MessageOf(name, events[n - 1]);
    if TookEffect(auth, name, events, n - 1) && m.id == id {
      i := n - 1;
    } else {
      i := EntryHasSource(auth, name, events, n - 1, id);
    }
  }

  lemma {:induction false} SubnetHasSource(auth: Auth, name: string, events: seq<Event>, n: nat, o: string, s: string)
    returns (i: nat)
    requires n <= |events| && HoldsSubnet(Until(auth, name, events, n).topo, o, s)
    ensures SubnetFrom(auth, name, events, o, s, i)
    decreases n
  {
    assert n != 0 by { assert events[..0] == []; }
    var v := UntilStep(auth, name, events, n - 1);
    var b := MessageOf(name, events[n - 1]).body;
    if TookEffect(auth, name, events, n - 1) && b == AddSubnet(o, s) {
      i := n - 1;
    } else {
      if TookEffect(auth, name, events, n - 1) { AppliedSubnets(v, b, o, s); }
      i := SubnetHasSource(auth, name, events, n - 1, o, s);
    }
  }

  /**
  Over any life: every entry of the table and every subnet held goes back to an event that took effect and is backed, by
  the node's own announcement or by a chain of good signatures that starts at pinned keys and own announcements.
  */
  lemma EverythingIsBacked(auth: Auth, name: string, events: seq<Event>)
    ensures var v := Life(auth, name, events);
            && (forall id :: id in v.seen ==>
                  exists i: nat ::
                    EntryFrom(auth, name, events, Stamp(id, v.seen[id]), i) && Backed(auth, name, events, i))
            && (forall o, s :: HoldsSubnet(v.topo, o, s) ==>
                  exists i: nat :: SubnetFrom(auth, name, events, o, s, i) && Backed(auth, name, events, i))
  {
    var v, n := Life(auth, name, events), |events|;
    assert events[..n] == events;
    forall id | id in v.seen
      ensures exists i: nat :: EntryFrom(auth, name, events, Stamp(id, v.seen[id]), i) && Backed(auth, name, events, i)
    {
      var i := EntryHasSource(auth, name, events, n, id);
      EffectIsBacked(auth, name, events, i);
    }
    forall o, s | HoldsSubnet(v.topo, o, s)
      ensures exists i: nat :: SubnetFrom(auth, name, events, o, s, i) && Backed(auth, name, events, i)
    {
      var i := SubnetHasSource(auth, name, events, n, o, s);
      EffectIsBacked(auth, name, events, i);
    }
  }

  /** With a lookup an envelope that is not well signed under the pinned key of its origin never takes effect. */
  lemma BadSignatureHasNoEffect(auth: Auth, name: string, events: seq<Event>, i: nat, k: EdKey)
    requires i < |events| && events[i].Arrived?
    requires Pinned(auth, events[i].msg.origin, k) && !auth.check(k, events[i].msg)
    ensures Until(auth, name, events, i + 1) == Until(auth, name, events, i)
  {
    if TookEffect(auth, name, events, i) {
      EffectIsBacked(auth, name, events, i);
    }
    var v := UntilStep(auth, name, events, i);
  }
}
