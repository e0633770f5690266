/**
The part of a plane that gossip decides about subnets: the newest time stamps, the outbox and who holds what.
Whatever a plane does, its ledger follows the short rules below.
*/
module Ledgers {
  import opened Claims
  import opened Messages
  import opened Planes
  import opened Topologies

  datatype Ledger = Ledger(seen: Seen, outbox: map<string, Message>, held: set<(string, string)>)

  const NEW_LEDGER := Ledger(map[], map[], {})

  function Held(t: Topology): set<(string, string)> {
    set o, s | o in t.nodes && s in t.nodes[o] :: (o, s)
  }

  function LedgerOf(v: PlaneView): Ledger {
    Ledger(v.seen, v.outbox, Held(v.topo))
  }

  function Posted(held: set<(string, string)>, b: Body): set<(string, string)> {
    match b
    case AddSubnet(o, s) => held + {(o, s)}
    case DelSubnet(o, s) => held - {(o, s)}
    case _ => held
  }

  /** An envelope that passed verification. */
  function Taken(l: Ledger, m: Message): Ledger {
    if Newer(l.seen, StampOf(m)) then Ledger(Claimed(l.seen, StampOf(m)), l.outbox, Posted(l.held, m.body)) else l
  }

  /** An envelope minted here. */
  function Entered(l: Ledger, m: Message): Ledger {
    Ledger(l.seen[m.id := m.ts], l.outbox[m.id := m], Posted(l.held, m.body))
  }

  lemma AppliedHeld(v: PlaneView, b: Body)
    ensures Held(Applied(v, b).topo) == Posted(Held(v.topo), b)
  {
    forall o, s ensures (o, s) in Held(Applied(v, b).topo) <==> (o, s) in Posted(Held(v.topo), b) {
      AppliedSubnets(v, b, o, s);
    }
  }

  lemma NewPlaneLedger(name: string)
    ensures LedgerOf(NewPlane(name)) == NEW_LEDGER
  {}

  /** Receiving an envelope moves the ledger exactly as the short rule says. */
  lemma ReceivedLedger(auth: Auth, v: PlaneView, m: Message)
    ensures LedgerOf(Received(auth, v, m)) == if Verifies(auth, v, m) then Taken(LedgerOf(v), m) else LedgerOf(v)
    ensures Received(auth, v, m).name == v.name
  {
    var w := v.(seen := Claimed(v.seen, StampOf(m)));
    AppliedHeld(w, m.body);
    AppliedKeepsTables(w, m.body);
  }

  /** Announcing moves the ledger exactly as the short rule says. */
  lemma OriginatedLedger(v: PlaneView, m: Message)
    ensures LedgerOf(Originated(v, m)) == Entered(LedgerOf(v), m)
    ensures Originated(v, m).name == v.name
  {
    var w := v.(seen := v.seen[m.id := m.ts], outbox := v.outbox[m.id := m]);
    AppliedHeld(w, m.body);
    AppliedKeepsTables(w, m.body);
  }
}
