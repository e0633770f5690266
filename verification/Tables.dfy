/** How large the tables of a plane get over its whole life, and what they hold. */
module Tables {
  import opened Facts
  import opened Ledgers
  import opened Messages
  import opened Planes

  /** One call into a plane: an announcement of its own, or an envelope from the network. */
  datatype Event = Announced(a: Announcement, ts: int, signature: string) | Arrived(msg: Message)

  function MessageOf(name: string, e: Event): Message {
    match e
    case Announced(a, ts, sig) => Mint(name, a, ts, sig)
    case Arrived(m) => m
  }

  function Handle(auth: Auth, v: PlaneView, e: Event): PlaneView {
    match e
    case Announced(a, ts, sig) => Originated(v, MessageOf(v.name, e))
    case Arrived(m) => Received(auth, v, m)
  }

  ghost function Life(auth: Auth, name: string, events: seq<Event>): PlaneView {
    if events == [] then NewPlane(name)
    else Handle(auth, Life(auth, name, events[..|events| - 1]), events[|events| - 1])
  }

  /** Event `i` was an announcement, or an envelope that passed verification when it came. */
  ghost predicate Admitted(auth: Auth, name: string, events: seq<Event>, i: nat)
    requires i < |events|
  {
    events[i].Announced? || Verifies(auth, Life(auth, name, events[..i]), events[i].msg)
  }

  /** An admitted event as the tables see it. */
  datatype Admission = Admission(msg: Message, own: bool)

  function Entry(l: Ledger, x: Admission): Ledger {
    if x.own then Entered(l, x.msg) else Taken(l, x.msg)
  }

  function Entries(xs: seq<Admission>): Ledger {
    if xs == [] then NEW_LEDGER else Entry(Entries(xs[..|xs| - 1]), xs[|xs| - 1])
  }

  /** The admitted events of a life, in order. */
  ghost function Admissions(auth: Auth, name: string, events: seq<Event>): seq<Admission> {
    if events == [] then [] else
      var k := |events| - 1;
      var before := Admissions(auth, name, events[..k]);
      if Admitted(auth, name, events, k)
      then before + [Admission(MessageOf(name, events[k]), events[k].Announced?)]
      else before
  }

  lemma {:induction false} LifeLedger(auth: Auth, name: string, events: seq<Event>)
    ensures Life(auth, name, events).name == name
    ensures LedgerOf(Life(auth, name, events)) == Entries(Admissions(auth, name, events))
  {
    if events == [] {
      NewPlaneLedger(name);
    } else {
      var k := |events| - 1;
      var v, e := Life(auth, name, events[..k]), events[k];
      LifeLedger(auth, name, events[..k]);
      ReceivedLedger(auth, v, MessageOf(name, e));
      OriginatedLedger(v, MessageOf(name, e));
      var xs, x := Admissions(auth, name, events[..k]), Admission(MessageOf(name, e), e.Announced?);
      assert (xs + [x])[..|xs|] == xs;
    }
  }

  function Ids(xs: seq<Admission>): set<string> {
    set x | x in xs :: x.msg.id
  }

  function OwnIds(xs: seq<Admission>): set<string> {
    set x | x in xs && x.own :: x.msg.id
  }

  /** The last announcement of this node about the ID is admission `i`. */
  ghost predicate LatestOwn(xs: seq<Admission>, id: string, i: nat) {
    && i < |xs| && xs[i].own && xs[i].msg.id == id
    && forall j :: i < j < |xs| && xs[j].own ==> xs[j].msg.id != id
  }

  lemma {:induction false} EntriesBounded(xs: seq<Admission>)
    ensures Entries(xs).seen.Keys == Ids(xs)
    ensures Entries(xs).outbox.Keys == OwnIds(xs)
    ensures forall id, i: nat :: LatestOwn(xs, id, i) ==> Entries(xs).outbox[id] == xs[i].msg
  {
    if xs != [] {
      var k := |xs| - 1;
      var before, x := xs[..k], xs[k];
      EntriesBounded(before);
      assert forall y :: y in xs <==> y in before || y == x;
      assert Ids(xs) == Ids(before) + {x.msg.id};
      assert OwnIds(xs) == OwnIds(before) + if x.own then {x.msg.id} else {};
      forall id, i: nat | LatestOwn(xs, id, i) ensures Entries(xs).outbox[id] == xs[i].msg {
        if i < k { assert LatestOwn(before, id, i); }
      }
    }
  }

  /**
  The dedup table has one entry per distinct ID announced or admitted, however often; the outbox has one
  entry per distinct ID announced, which is the latest announcement, a Del as well as an Add.
  */
  lemma TablesBounded(auth: Auth, name: string, events: seq<Event>)
    ensures var v, xs := Life(auth, name, events), Admissions(auth, name, events);
            && |v.seen| == |Ids(xs)| && v.seen.Keys == Ids(xs)
            && |v.outbox| == |OwnIds(xs)| && v.outbox.Keys == OwnIds(xs)
            && v.outbox.Keys <= v.seen.Keys
            && forall id, i: nat :: LatestOwn(xs, id, i) ==> v.outbox[id] == xs[i].msg
  {
    var v, xs := Life(auth, name, events), Admissions(auth, name, events);
    LifeLedger(auth, name, events);
    EntriesBounded(xs);
    assert |v.seen.Keys| == |v.seen| && |v.outbox.Keys| == |v.outbox|;
  }

  /** Event `i` is the last hello announced. */
  ghost predicate LastHello(events: seq<Event>, i: nat) {
    && i < |events| && events[i].Announced? && events[i].a.SayHello?
    && forall j :: i < j < |events| && events[j].Announced? ==> !events[j].a.SayHello?
  }

  /**
  The hello slot of the outbox, which every heartbeat repeats, holds the last hello announced: the node's own after
  its own announcement, but the invitee's after it let an invitee in.
  */
  lemma {:induction false} HelloSlotIsLastHello(auth: Auth, name: string, events: seq<Event>, i: nat)
    requires '/' !in name && LastHello(events, i)
    ensures FactId(name, HelloFact) in Life(auth, name, events).outbox
    ensures Life(auth, name, events).outbox[FactId(name, HelloFact)].body == AddNode(events[i].a.hello)
  {
    var k := |events| - 1;
    if i < k {
      assert LastHello(events[..k], i) by {
        assert forall j :: 0 <= j < k ==> events[..k][j] == events[j];
      }
      HelloSlotIsLastHello(auth, name, events[..k], i);
    }
    HelloSlotStep(auth, name, events, FactId(name, HelloFact));
  }

  lemma HelloSlotStep(auth: Auth, name: string, events: seq<Event>, id: string)
    requires '/' !in name && events != [] && id == FactId(name, HelloFact)
    ensures var k := |events| - 1;
            var was, now, e := Life(auth, name, events[..k]).outbox, Life(auth, name, events).outbox, events[k];
            if e.Announced? && e.a.SayHello? then id in now && now[id].body == AddNode(e.a.hello)
            else (id in was ==> id in now && now[id] == was[id])
  {
    var k := |events| - 1;
    LifeLedger(auth, name, events[..k]);
    HelloSlotAfter(auth, Life(auth, name, events[..k]), events[k]);
  }

  lemma HelloSlotAfter(auth: Auth, v: PlaneView, e: Event)
    requires '/' !in v.name
    ensures var id, v' := FactId(v.name, HelloFact), Handle(auth, v, e);
            if e.Announced? && e.a.SayHello? then id in v'.outbox && v'.outbox[id].body == AddNode(e.a.hello)
            else (id in v.outbox ==> id in v'.outbox && v'.outbox[id] == v.outbox[id])
  {
    var m := MessageOf(v.name, e);
    if e.Announced? {
      OriginatedLedger(v, m);
      assert LedgerOf(Originated(v, m)).outbox == v.outbox[m.id := m];
      if m.id == FactId(v.name, HelloFact) {
        FactIdInjective(v.name, FactOf(e.a), v.name, HelloFact);
      }
    } else {
      ReceivedLedger(auth, v, m);
      assert LedgerOf(Received(auth, v, m)).outbox == v.outbox;
    }
  }
}
