# gsnet: a verified model of the control plane and its data-plane reconciler

gsnet builds a mesh VPN. Each node floods signed facts about itself (its hello, its edges, its subnets) over
TCP connections; every node keeps the newest version of every fact, builds a topology graph from them, and turns
the graph into WireGuard peers and VXLAN forwarding rows. This project models that logic in Dafny and proves what
holds of it over all inputs, all runs and all interleavings.

The layers, from the bottom up:

- **Facts and envelopes** (`Envelopes`, `Facts`, `Messages`): the signed byte string, stable fact IDs, the five
  announcements.
- **One node** (`Claims`, `Topologies`, `Graphs`, `Planes`, `Transports`, `Ledgers`, `Tables`): the graph, the
  connections and the gossip plane as objects that change in place, each proved against a function on values.
- **One life** (`Histories`, `Provenance`): what a node knows after any sequence of announcements and deliveries, and
  which signatures stand behind it.
- **Many deliveries** (`OrderIndependence`, `EdgeOrder`, `ConcurrentReceive`, `ApplyOrder`, `ConcurrentOriginate`,
  `ConcurrentDial`): what any order, any repetition and any interleaving of deliveries, announcements and dials leaves
  behind.
- **The network** (`Flood`, `Termination`, `Heartbeat`, `Reach`, `Repairs`, `Rewiring`, `Convergence`): a transition
  system of nodes, links, pending writes and packets in flight. Steps are announcements, writes, reads (verified or
  not), heartbeats and losses, in any order; `Rewiring` adds connections that come and go. `Convergence` runs whole
  planes and is proved to refine `Flood`.
- **The data plane** (`Macs`, `Peers`, `Fdb`, `WireGuard`, `Routable`): the desired state and the two reconcilers,
  against a kernel that may refuse operations.
- **Text and binary formats** (`Text`, `Config`, `ConfigEdit`, `Invitation`, `InvitationRoundTrip`, `Stun`).

Assumptions are visible in the statements, and they are per fact. A step that is `Sound` for an ID loses nothing under
that ID, does not step the clock of its node back, and verifies exactly at the nodes in `able`: the other nodes lack the
origin's key, as nodes without its host file do. Under other IDs everything may be lost or rejected. `Proper` says the
same of planes. An `Honest` envelope was minted by one of the five announcements of a node whose name has no slash.
`Accounted` says that every envelope anywhere was minted by some node; it holds of every network reached from a fresh
one, also when connections come and go (`Rewiring.AccountedAlways`).

Properties that are false of the code, each with the exact condition under which it holds:

- The order of delivery matters for subnets exactly when two newest envelopes of one subnet carry the same time stamp
  and disagree (`OrderIndependence.OrderFreeIffNoTie`), and for edges exactly when two newest envelopes about one pair
  of nodes, of either end, disagree (`EdgeOrder.EdgesOrderFreeIffAgree`).
- The applies need not end at the newest claim when receives run concurrently. They do in every interleaving exactly when
  no two verified calls of one ID that are news have different time stamps (`ApplyOrder.LogAtNewestIffNoRace`). The
  subnets come out right in every interleaving exactly when no such call says anything else than a newest one
  (`ApplyOrder.SubnetsRightIffBodiesAgree`).
- The table of newest time stamps can go back when announcements run concurrently with receives, because an
  announcement overwrites it. It never does exactly when no announcement is older than the table it finds or than
  another call of its ID (`ConcurrentOriginate.NeverBackIffNotOvertaken`).
- Connected nodes need not agree when all is delivered: a node without the key of an origin rejects its envelopes and
  does not forward them, so a relay without the key cuts off what lies behind it (`Repairs.KeylessRelay`). Each node holds
  exactly the newest version from which nodes that can verify it lead to it (`Flood.AgreementAtQuiescence`), and a subnet
  is known exactly where such nodes lead from its owner, if the owner's last word was to add it
  (`Convergence.SubnetsConverge`).
- An announcement does not bring every connected node up to date, and neither does a heartbeat, although the comment at
  `internal/daemon/daemon.go:694-697` says that peers eventually receive any state they missed. Both reach exactly what
  nodes lead to that lag behind and can verify (`Repairs.AnnounceReachesExactly`, `Repairs.ResendReachesExactly`), and
  what any net settles to under an ID is given exactly by `Reach.SettlesExactly`. A node that connects late to an
  up-to-date relay is not reached although nothing was lost (`Rewiring.LateJoiner`); a fresh announcement reaches it
  (`Repairs.FreshAnnouncementReachesAll`), as the one that follows each dial does for the dialling node's own facts.
- Dialling keeps one connection per address only when dials do not overlap: in every interleaving there is at most one
  exactly when no two dials that connect are at one free address (`ConcurrentDial.OneEachIffNoClash`).
- Reconciling does not fully reset the forwarding table, although the comment at
  `internal/dataplane/linux/linux.go:93-95` says so: the unicast row of a departed peer stays. A row that is no
  longer wanted is removed exactly when its MAC is still managed (`Fdb.LeftoverRows`).
- Managed rows can be unroutable when two peers share a WireGuard key; they are routable exactly when every
  address in use belongs to the last peer of some key (`Routable.RoutableIffServed`).
- `set k v` and `add k v` do not take for every key and value: exactly when both can be written to a line and every
  line of the new file is short enough for the scanner (`ConfigEdit.SetTakesIffValid`, `ConfigEdit.AddTakesIffValid`).
  An accepted file can render to one that is refused, because "k v" is written as "k = v"; it is accepted exactly when
  every rendered line fits (`Config.ParseRenderParse`, `InvitationRoundTrip.InvitationNormalForm`).
- The STUN walk can slice out of bounds: exactly when the attributes end inside the padding of the last one
  (`Stun.PanicsIffCutInPadding`), and for some content of every declared length of four or more that is not a
  multiple of four (`Stun.SafeLengths`).
- Signed bytes identify an envelope among all envelopes exactly when its ID, origin and kind have no NUL byte and no two
  NUL bytes stand nine apart in the time stamp and payload (`Envelopes.IdentifiedIff`); text payloads have none
  (`Envelopes.NulFreeIsIdentified`).
- Stable IDs of two different names can collide exactly when one name is the other followed by "/edge" or "/subnet",
  ending there or going on with a slash (`Facts.NamesCollideIff`); accepted names have no slash
  (`Facts.ValidNameHasNoSlash`).

Map iteration order is modelled as an arbitrary choice. The clock, the signature check, the key digest, address
parsing and the answers of the kernel are parameters.

## Model

| member | source | states |
|---|---|---|
| `Envelopes.SigningBytes` | internal/gossip/message.go:47-61 | the append calls and the shift loop produce the canonical encoding |
| `Envelopes.TimeBytes` | internal/gossip/message.go:55-57 | the eight shifts give the big-endian two's complement bytes, negative time stamps included |
| `Envelopes.CutPlaces` | internal/gossip/message.go:47-61 | ID, origin and kind stand in this order, each ended by a NUL, before the time stamp, a NUL and the payload |
| `Envelopes.IdentifiedIff` | internal/gossip/message.go:47-61 | among all envelopes there are, NUL bytes included, the signed bytes determine ID, origin, kind, 64-bit time stamp and payload exactly when the three strings have no NUL and no two NULs stand nine apart in the rest |
| `Envelopes.NulFreeIsIdentified` | internal/gossip/message.go:47-61 | NUL-free strings and payload are identified against every other envelope |
| `Envelopes.SignedInjective` | internal/gossip/message.go:47-61 | of two envelopes with NUL-free strings and any payloads, equal signed bytes mean equal ID, origin, kind, time stamp and payload |
| `Envelopes.NulCollides` | internal/gossip/message.go:47-61 | every envelope with a NUL in ID, origin or kind shares its signed bytes with a different envelope |
| `Envelopes.BigEndianInjective` | internal/gossip/message.go:55-57 | n bytes tell apart all numbers less than 256^n from each other |
| `Facts.FactIdInjective` | internal/gossip/plane.go:322-346 | for slash-free names a stable ID determines the origin and the fact, although subnets contain slashes |
| `Facts.NamesCollideIff` | internal/gossip/plane.go:322-346 | two different names can have a common ID exactly when one is the other followed by an edge or subnet part |
| `Facts.FactsOfOneName` | internal/gossip/plane.go:322-346 | one name keeps all its facts apart, whatever characters it has |
| `Facts.ValidNameHasNoSlash` | internal/nodename/nodename.go:17-27 | the names the program accepts have no slash |
| `Messages.HonestSubnetId` | internal/gossip/plane.go:340-346 | honest envelopes carry a subnet's ID exactly when they add or delete that subnet, and then come from its owner |
| `Messages.HonestSameId` | internal/gossip/plane.go:322-346 | honest envelopes share the ID of a subnet envelope exactly when they are about the same owner and subnet |
| `Graphs.Graph.constructor` | internal/graph/graph.go:35-40 | a new graph is empty and valid |
| `Graphs.Graph.AddNode` | internal/graph/graph.go:42-56 | adds an isolated node without subnets, or changes nothing; keeps the graph invariant |
| `Graphs.Graph.AddEdge` | internal/graph/graph.go:75-83 | in place: creates the ends and stores both half-edges; keeps the graph invariant |
| `Graphs.Graph.DelEdge` | internal/graph/graph.go:85-94 | in place: removes both half-edges; keeps the graph invariant |
| `Graphs.Graph.AddSubnet` | internal/graph/graph.go:143-148 | in place: creates the owner and adds the subnet; keeps the graph invariant |
| `Graphs.Graph.DelSubnet` | internal/graph/graph.go:150-156 | in place: removes the subnet of a known owner only; keeps the graph invariant |
| `Graphs.Graph.Reachable` | internal/graph/graph.go:120-141 | the queue search terminates and returns exactly the nodes joined to the start by a path; nothing if the start is no node |
| `Graphs.Graph.Visit` | internal/graph/graph.go:131-138 | the inner loop marks and queues exactly the neighbours not seen before |
| `Graphs.Graph.ClearEdgesOf` | internal/gossip/plane.go:272-276 | deleting along a snapshot of the edges removes every edge at the node and no other |
| `Graphs.Purge` | internal/daemon/daemon.go:542-555 | afterwards exactly the edges between nodes reachable from self remain, with their weights, and self reaches what it reached before |
| `Topologies.WithEdgeLaw` | internal/graph/graph.go:75-83 | adding an edge gives both directions, keeps all other edges and all subnets, and keeps the invariant |
| `Topologies.WithoutEdgeLaw` | internal/graph/graph.go:85-94 | deleting an edge, ends in either order, removes both directions and nothing else |
| `Topologies.PerformWellFormed` | internal/graph/graph.go:48-94 | every operation keeps: same domain for nodes and adjacency, every half-edge mirrored with equal weight |
| `Topologies.EdgeHistory` | internal/graph/graph.go:75-94 | after any history an edge is present, with the weight last given, exactly when the last operation on its pair added it |
| `Topologies.ReachabilitySymmetric` | internal/graph/graph.go:120-141 | on every valid graph a reaches b exactly when b reaches a |
| `Topologies.PurgeLaw` | internal/daemon/daemon.go:542-555 | isolating the unreachable nodes keeps exactly the edges between reachable ones and the reachable set |
| `Transports.Server.HasOutbound` | internal/transport/transport.go:385-394 | true exactly when a connection dialled at the address is tracked |
| `Transports.Server.Dial` | internal/transport/transport.go:344-383 | one dial at a time: adds at most one connection, and none if one was dialled at the address already; however often it is called there is never more than one per address, and after a success there is one |
| `ConcurrentDial.OneEachIffNoClash` | internal/transport/transport.go:344-394 | dials that overlap: in every interleaving of the look and the tracking there is at most one connection per address, exactly when no two dials that connect are at one free address |
| `Transports.Server.Accept` | internal/transport/transport.go:154-164 | a new connection is tracked besides all others, and the one-per-address rule is kept |
| `Transports.Server.Untrack` | internal/transport/transport.go:137-141 | afterwards no connection dialled at that address is tracked, so it can be dialled again; the one-per-address rule is kept |
| `Transports.Server.Broadcast` | internal/transport/transport.go:304-330 | exactly one write to every tracked connection that is open and takes it, two to a peer with two; every other one is closed and stays tracked |
| `Transports.WritesArePackets` | internal/transport/transport.go:304-330 | the writes of a broadcast are the packets to the peers of the connections |
| `Transports.FanoutSize` | internal/transport/transport.go:304-330 | one broadcast makes as many packets as there are connections |
| `Claims.ClaimAllIsNewest` | internal/gossip/plane.go:160-168 | after any sequence of claims the table holds per ID the highest time stamp, set by the first claim that reached it |
| `Claims.WinnersAfter` | internal/gossip/plane.go:160-168 | a claim is won exactly when it becomes the first newest of its ID; losing claims change no winner |
| `Planes.Plane.constructor` | internal/gossip/plane.go:55-67 | a new plane has empty tables |
| `Planes.Plane.Claim` | internal/gossip/plane.go:160-168 | wins exactly on a strictly newer time stamp and then records it; changes nothing else |
| `Planes.Plane.Apply` | internal/gossip/plane.go:243-314 | the graph and the four hello maps move as the body says (`Histories` says what that comes to over a life); the listener is told unless the payload is rejected |
| `Planes.Plane.Receive` | internal/gossip/plane.go:146-155 | fails exactly when the check under the pinned key of the origin fails; where none is pinned, under the learned key; where there is no key at all, exactly when a lookup is installed. A failure changes nothing. What is verified and newer is recorded, applied and forwarded once to every open connection |
| `Planes.Plane.Announce` | internal/gossip/plane.go:117-138 | mints an envelope of this origin and time stamp under the stable ID, signs it, records it in outbox and table, applies and broadcasts it. Afterwards the node knows what it announced: the node with its key, endpoint and addresses, the edge both ways with its weight, the subnet, or their absence. A payload that does not encode changes nothing |
| `Planes.Plane.ResendOutbox` | internal/gossip/plane.go:172-185 | every outbox entry is written once to every connection; no table changes |
| `Planes.AppliedSubnets` | internal/gossip/plane.go:295-306 | only the two subnet bodies change who holds a subnet, each only its own owner and subnet |
| `Histories.HelloHistory` | internal/gossip/plane.go:245-282 | after any life the signing key, endpoint, inner and underlay address known for a node are each those of the last applied hello of the node that carried one, unless a DelNode of the node came later |
| `Histories.NodeHistory` | internal/gossip/plane.go:245-306 | after any life a node is in the graph exactly when an applied hello, edge or subnet has named it |
| `Histories.EdgeLifeHistory` | internal/gossip/plane.go:267-294 | after any life an edge is there, with the weight last given, exactly when the last applied body about its two ends added it and no DelNode of an end came later |
| `Histories.SubnetLifeHistory` | internal/gossip/plane.go:295-306 | after any life a subnet is held exactly when the last applied body about it added it |
| `Provenance.EffectIsBacked` | internal/gossip/plane.go:213-235 | over any life whatever takes effect is an own announcement or well signed: under the pinned key of its origin, or, where none is pinned, under a key that an earlier event brought which itself took effect and is backed; a node without lookup and key takes it unchecked |
| `Provenance.EverythingIsBacked` | internal/gossip/plane.go:146-235 | over any life every entry of the table of time stamps and every subnet held goes back to an event that is backed in this way |
| `Provenance.BadSignatureHasNoEffect` | internal/gossip/plane.go:213-235 | an envelope that fails the check under the pinned key of its origin leaves the life as it was |
| `Ledgers.ReceivedLedger` | internal/gossip/plane.go:146-155 | receiving moves table, outbox and subnets exactly by the short ledger rule, whatever else the envelope does |
| `Ledgers.OriginatedLedger` | internal/gossip/plane.go:117-138 | announcing moves table, outbox and subnets exactly by the short ledger rule |
| `Tables.TablesBounded` | internal/gossip/plane.go:25-36 | over any life: one table entry per distinct ID announced or admitted, one outbox entry per ID announced, holding the latest, a Del replacing an Add; outbox IDs are in the table |
| `Tables.HelloSlotIsLastHello` | internal/daemon/daemon.go:684-687 | the hello every heartbeat repeats is the last one announced, an invitee's included |
| `OrderIndependence.FirstNewestAdds` | internal/gossip/plane.go:146-168 | after any sequence of honest envelopes a subnet is held exactly when the first newest envelope of its ID adds it |
| `OrderIndependence.NewestDecides` | internal/gossip/plane.go:295-306 | whatever keys are pinned or learned on the way: without ties among the envelopes verified on arrival, a subnet is held exactly when a newest of them adds it |
| `OrderIndependence.OrderFreeIffNoTie` | internal/gossip/plane.go:146-168 | where verification does not depend on the order, all deliveries of a set leave the same subnets exactly when no two newest envelopes of one subnet disagree |
| `OrderIndependence.PinnedIsSteady` | internal/gossip/plane.go:213-235 | pinned keys make verification independent of the order |
| `OrderIndependence.NewestCanDecide` | internal/gossip/plane.go:160-168 | for every newest envelope of a set there is a delivery of the set in which it is the last to be applied |
| `OrderIndependence.NewerIff` | internal/gossip/plane.go:160-168 | after any deliveries an envelope is accepted as news exactly when it is strictly newer than all before it under its ID |
| `EdgeOrder.NewestDecidesEdge` | internal/graph/graph.go:75-94 | after any deliveries an edge, with its weight, is what some newest envelope about its pair of nodes says, from either end; absent if there is none |
| `EdgeOrder.EdgesOrderFreeIffAgree` | internal/graph/graph.go:75-94 | all deliveries of a set leave the same edges and weights exactly when, for every pair, all newest envelopes about it, of both IDs, agree |
| `EdgeOrder.HonestSamePair` | internal/gossip/plane.go:332-338 | honest envelopes under one ID are about the same pair of nodes |
| `ConcurrentReceive.ExactlyOnce` | internal/gossip/plane.go:140-155 | in every interleaving with only the claim atomic, no (ID, time stamp) is applied or forwarded twice |
| `ConcurrentReceive.SeenNeverDecreases` | internal/gossip/plane.go:160-168 | over any part of any interleaving no table entry goes back or disappears |
| `ConcurrentReceive.FinalTable` | internal/gossip/plane.go:140-168 | when all calls have returned the table is the maximum of what it held and of the verified time stamps; what was applied is what was forwarded, verified and new |
| `ApplyOrder.LogAtNewestIffNoRace` | internal/gossip/plane.go:140-155 | for any calls on any table: in every finished interleaving the last message applied under each ID carries the final time stamp, exactly when no two verified calls of one ID that are news differ in time stamp |
| `ApplyOrder.SubnetsRightIffBodiesAgree` | internal/gossip/plane.go:140-155 | for any honest calls on any table and graph: in every finished interleaving each subnet stands as the newest verified call about it says, exactly when no verified call that is news says anything else than a newest one |
| `ApplyOrder.AnyNewsAppliedLast` | internal/gossip/plane.go:146-155 | whatever other calls there are, every verified call that is news has an interleaving that ends with it applied last |
| `ConcurrentOriginate.NeverBackIffNotOvertaken` | internal/gossip/plane.go:117-138 | over all interleavings of receives and announcements the table never goes back, exactly when every announcement is as new as the table it finds and as every other call of its ID that can write |
| `Flood.FloodedKept` | internal/gossip/plane.go:146-155 | every step sound for the ID keeps: over each link, a peer that can verify has caught up with its neighbour or a packet as new is on its way |
| `Flood.RootedOverRun` | internal/gossip/plane.go:146-155 | over every run on fixed links, losses included, each packet and table entry under an ID came from its minter through nodes that can verify it |
| `Flood.AccountedOverRun` | internal/transport/transport.go:304-330 | over every run each packet, table and outbox entry was minted by some node, without any assumption on how links came about |
| `Flood.AgreementAtQuiescence` | internal/gossip/plane.go:117-168 | on any topology and whoever can verify: when nothing under an ID is in transit after a run sound for it, every node holds exactly the highest time stamp minted from where verifying nodes lead to it, and nothing else; other IDs may be lost and rejected at will |
| `Flood.QuietTablesAgree` | internal/gossip/plane.go:117-168 | two nodes that verifying nodes lead to from each other then have the same entry |
| `Termination.FlowDecreases` | internal/transport/transport.go:304-330 | every write, read (verified or not) and loss lowers a natural number made of news and packets, on any topology |
| `Termination.FloodingTerminates` | internal/gossip/plane.go:146-168 | no run of writes, reads and losses is longer than that number, cycles included |
| `Termination.FloodSettles` | internal/gossip/plane.go:146-168 | from every such network, and whoever can verify what, some run of writes and reads, losing nothing, ends in quiescence |
| `Heartbeat.ResendRepairsPeers` | internal/gossip/plane.go:170-185 | whatever was lost before, a delivered resend leaves every direct peer that can verify it up to date with the outbox |
| `Heartbeat.OutOfReachForever` | internal/daemon/daemon.go:714-725 | a node whose peers are current and do not own the fact never learns it under heartbeats, deliveries and losses |
| `Heartbeat.TwoHopsCanBeCutOff` | internal/gossip/plane.go:170-185 | from a fresh network of three nodes in a line a run with one loss puts the far end out of reach |
| `Heartbeat.StepBackNeverHeals` | internal/gossip/plane.go:131-134 | an announcement older than what a peer has, with nothing newer on its way, leaves the two apart for ever under deliveries, losses and heartbeats |
| `Reach.SettlesExactly` | internal/gossip/plane.go:146-185 | from any network and whoever can verify: when all under an ID is delivered a node has a stamp exactly when it had it, or a packet in transit or sent by a heartbeat brings one as new to a node from where nodes that lag and can verify lead to it |
| `Reach.TracedKept` | internal/gossip/plane.go:146-168 | every step, loss included, keeps: each table entry and packet under an ID goes back to a source along nodes that lagged behind it and can verify it |
| `Reach.PassedOnKept` | internal/gossip/plane.go:146-168 | every sound step keeps: each lagging node that caught up has passed the stamp to its lagging peers |
| `Repairs.AnnounceReachesExactly` | internal/gossip/plane.go:117-138 | whatever its time stamp, an announcement that has been delivered is at a node exactly when the node had one as new or a path of nodes that had not, and can verify it, leads to it from the announcer |
| `Repairs.KeylessRelay` | internal/gossip/plane.go:213-235 | of three nodes in a line the middle one lacks the key: in every lossless run to the end the far end, connected and able to verify, does not get the announcement |
| `Repairs.KeylessRelaySettles` | internal/gossip/plane.go:213-235 | there is such a run |
| `Repairs.FreshAnnouncementReachesAll` | internal/daemon/daemon.go:340-365 | from any network at all, an announcement newer than what the nodes have that verifying nodes lead to from its origin reaches all of them |
| `Repairs.ResendReachesExactly` | internal/gossip/plane.go:170-185 | after a delivered heartbeat a node has the newest version exactly when it had it before or a path of nodes that lag and can verify leads to it from the owner |
| `Rewiring.AccountedAlways` | internal/transport/transport.go:131-141 | every network reached while connections come and go is accounted for |
| `Rewiring.LateJoiner` | internal/daemon/daemon.go:116-118 | on any topology: a node that connects after an announcement has gone round without loss is connected to its origin, has not heard of it and is out of reach for it |
| `Rewiring.AnnounceAfterRewiring` | internal/gossip/plane.go:117-138 | the exact reach of an announcement holds from every network so reached |
| `Rewiring.AgreementAfterRewiring` | internal/daemon/daemon.go:620-642 | whatever came, went and was lost before, the newest announcement of an ID, delivered, leaves exactly its time stamp at every node that verifying nodes then lead to from its origin |
| `Convergence.ActRefines` | internal/gossip/plane.go:117-185 | every act of the planes but a change of connections is one enabled step of the flood model |
| `Convergence.PlayRefines` | internal/gossip/plane.go:117-185 | every run of planes that is proper for an ID has a run of the flood model, sound for the ID, with the same tables and packets, and keeps the convergence invariant |
| `Convergence.ActKeepsConverging` | internal/gossip/plane.go:117-155 | every act, also a loss, a rejected envelope or a change of connections, keeps: unique stamps, outbox in step with its owner's table, each node's subnets those of the newest envelopes it has |
| `Convergence.SubnetsConverge` | internal/gossip/plane.go:295-306 | when nothing about a subnet is in transit after a run that lost nothing about it, a node says the owner holds it exactly when the last announcement of the owner about it was AddSubnet and nodes that can verify the owner lead to the node |
| `Convergence.LossesAreHealed` | internal/daemon/daemon.go:340-365 | after any run with losses, rejections and changing connections, a fresh announcement about a subnet by its owner, delivered, makes the graph of every node that verifying nodes lead to hold the subnet exactly when it is the AddSubnet that was announced |
| `Convergence.OutboxHistory` | internal/gossip/plane.go:117-138 | after any run the entry of a node's outbox about a subnet says what its last announcement about it said, and there is none if there was none |
| `Addresses.HostPrefixAlone` | internal/daemon/daemon.go:458 | a host prefix contains its own address and no other |
| `Macs.VxlanMac` | internal/dataplane/linux/linux.go:413-419 | six bytes, locally administered, unicast: the first bytes of the key's digest, of which only the two low bits of the first may change |
| `Macs.VxlanMacNotBroadcast` | internal/dataplane/linux/linux.go:413-423 | no key derives the broadcast MAC |
| `Peers.AllowedIpsFor` | internal/daemon/daemon.go:455-471 | switch and hub: the underlay host prefix or nothing; router: exactly the parsed IP subnets of the peer |
| `Peers.BuildPeers` | internal/daemon/daemon.go:375-448 | one peer per other node with a readable key, in order. An endpoint that gossip brought and that parses is the endpoint, else the address of the host file with its port or the listen port, as 16 bits; inner and underlay address come from gossip if it brought them, else from the host file |
| `Peers.EligibleNamesLaw` | internal/daemon/daemon.go:389-402 | the peers are exactly the nodes other than this one that have a host file with a readable key, each once |
| `Fdb.DesiredRows` | internal/dataplane/linux/linux.go:340-356 | per peer with an underlay a flooding row and a unicast row; managed are the broadcast MAC and the derived MACs |
| `Fdb.ReconciledRows` | internal/dataplane/linux/linux.go:334-406 | after a reconcile the rows under the broadcast MAC and the MACs of current peers are exactly one flooding and one unicast row for each peer with an underlay address; every other row is there exactly when it was before |
| `Fdb.ManagedRows` | internal/dataplane/linux/linux.go:362-369 | the rows looked at are exactly those with a managed MAC |
| `Fdb.AppendMissing` | internal/dataplane/linux/linux.go:371-388 | adds exactly the missing rows; asks the kernel nothing when none is missing |
| `Fdb.DeleteStale` | internal/dataplane/linux/linux.go:389-404 | removes exactly the managed rows that are not wanted; asks the kernel nothing when there is none |
| `Fdb.ReconcileFdb` | internal/dataplane/linux/linux.go:334-406 | on success managed rows are exactly the desired ones and all others are untouched; at every moment, also when the kernel refuses half way, no row both present and wanted is missing; a table that is right causes no operation |
| `Fdb.ReconciledIsStable` | internal/dataplane/linux/linux.go:334-406 | reconciling again with the same peers changes nothing |
| `Fdb.LastManagerDecides` | internal/dataplane/linux/linux.go:334-406 | over any run of reconciles, refused ones included, a row is decided by the last one that managed its MAC if that went through, and by the original table if none managed it |
| `Fdb.WantedNeverMissing` | internal/dataplane/linux/linux.go:334-406 | over any run, refused rounds included, a row that is there and wanted in every round is in every table on the way |
| `Fdb.LeftoverRows` | internal/dataplane/linux/linux.go:362-404 | a row wanted before and not now is removed exactly when its MAC is still managed |
| `Fdb.DepartedPeerKeepsUnicastRow` | internal/dataplane/linux/linux.go:93-95 | a peer that has gone loses its flooding row and keeps its unicast row |
| `WireGuard.BuildConfig` | internal/dataplane/linux/linux.go:184-222 | an update with key, prefixes and endpoint per desired peer in order, then removals of exactly the unwanted keys on a readable device |
| `WireGuard.Link.ConfigurePeers` | internal/dataplane/linux/linux.go:173-229 | sends that configuration; the device takes all of it or none. `AllowedAfter`, `EndpointAfter` and `KeysAfter` say what it then has |
| `WireGuard.SessionKept` | internal/dataplane/linux/linux.go:174-183 | a configuration without a removal of a key keeps the session of that key |
| `WireGuard.KeysAfter` | internal/dataplane/linux/linux.go:209-222 | one accepted call leaves the desired keys, and besides them only what an unreadable device had |
| `WireGuard.AllowedAfter` | internal/dataplane/linux/linux.go:189-207 | the last peer with a key decides the allowed prefixes of that key |
| `WireGuard.EndpointAfter` | internal/dataplane/linux/linux.go:198-203 | after one accepted call a key that is not removed has the endpoint of the last peer of the key that has one, and the endpoint it had before where none has |
| `WireGuard.EndpointStays` | internal/dataplane/linux/linux.go:173-229 | an endpoint once configured stays over any run, refused and unreadable rounds included, until another one is wanted or the key is removed |
| `WireGuard.SessionSurvivesRun` | internal/dataplane/linux/linux.go:173-229 | over any run a key wanted in every round is never removed and keeps its session, refused and unreadable rounds included |
| `WireGuard.KeysAfterRun` | internal/dataplane/linux/linux.go:173-229 | after any run an accepted round on a readable device leaves exactly the wanted keys |
| `Routable.ManagedRowsRoutable` | internal/daemon/daemon.go:389-471 | switch or hub mode, distinct keys: after both reconciles every managed row leads to an address some WireGuard peer lists as a host prefix |
| `Routable.RoutableIffServed` | internal/dataplane/linux/linux.go:184-207 | without distinct keys that holds exactly when each address in use is that of the last peer of some key |
| `Routable.SharedKeyNotServed` | internal/dataplane/linux/linux.go:184-207 | two peers with one key and two addresses are not both served |
| `Config.Parse` | internal/config/parser.go:31-49 | the line loop gives the entries of all lines in order or the error of the first bad line, a line over the scanner's limit included; blank and comment lines are skipped |
| `Config.Render` | internal/config/parser.go:138-144 | one line per entry, in order (`RenderAllOneMore` says which) |
| `Config.CanonicalKeyIdempotent` | internal/config/parser.go:149-154 | the canonical spelling of a key is its own canonical spelling, for any table of names |
| `Config.CanonicalKeyIsFirstFold` | internal/config/parser.go:149-154 | a key gets the spelling of the first name in the table that differs from it only in case, and stays as it is where there is none |
| `Config.LineForms` | internal/config/parser.go:51-71 | a key and a value around "=" with any white space, or with white space alone between them, give that entry with the key in canonical spelling |
| `Config.LineParsesIff` | internal/config/parser.go:51-71 | a line is taken exactly when it has one of these two forms |
| `Config.LineAdds` | internal/config/parser.go:31-49 | such a line puts its entry before those of the lines that follow; any other line that is not blank or a comment makes the whole text an error |
| `Config.SkippedLine` | internal/config/parser.go:35-38 | a blank line or a comment says nothing, wherever it stands |
| `Config.RenderAllOneMore` | internal/config/parser.go:138-144 | each further entry adds the line "key = value" |
| `Config.ParsedLineValid` | internal/config/parser.go:51-71 | every accepted line yields an entry that can be written back |
| `Config.ParsedWellFormed` | internal/config/parser.go:31-71 | every accepted text yields entries that can be written, with canonical keys |
| `Config.RenderedParses` | internal/config/parser.go:138-144 | entries that can be written read back in order with canonical keys |
| `Config.RoundTripIffWellFormed` | internal/config/parser.go:31-71 | rendering and parsing gives the entries back exactly when they are well formed |
| `Config.RoundTripIffFits` | internal/config/parser.go:31-71 | with the scanner's limit the entries come back exactly when they are well formed and every rendered line fits |
| `Config.ParseRenderParse` | internal/config/parser.go:31-71 | for every accepted text, parsing its rendering gives the same entries exactly when every rendered line fits |
| `ConfigEdit.GetAll` | internal/config/parser.go:127-135 | all values under a key, case ignored, in order |
| `ConfigEdit.GetFirst` | internal/config/parser.go:117-124 | the first of those values and whether there is one |
| `ConfigEdit.MutateConf` | cmd/gsnet/main.go:322-339 | writes the old entries, without the key when replacing, and the new one; a file that does not parse is an error, a missing file is empty |
| `ConfigEdit.DelConf` | cmd/gsnet/main.go:297-320 | writes the entries that do not match; a text that does not parse is an error |
| `ConfigEdit.KeptOneMore` | cmd/gsnet/main.go:297-320 | an entry is dropped exactly when its key folds to the key and its value is the one given, or none was given; the others stay in their places |
| `ConfigEdit.NewEntryIsLast` | cmd/gsnet/main.go:322-339 | what set and add write reads back as the entries kept, in order, followed by the new one |
| `ConfigEdit.SetTakesIffValid` | cmd/gsnet/main.go:322-339 | re-reading gives exactly the new value under the key and every other key's values unchanged, exactly when key and value can be written and all lines fit |
| `ConfigEdit.AddTakesIffValid` | cmd/gsnet/main.go:322-339 | re-reading gives the old values and the new one, other keys unchanged, exactly when key and value can be written and all lines fit |
| `ConfigEdit.DelTakesIffFits` | cmd/gsnet/main.go:297-320 | re-reading gives exactly the kept entries, the matching values gone and all others in order, exactly when all lines fit |
| `Invitation.SplitBlocks` | internal/invite/file.go:45-79 | comment lines and Name lines end a block, empty blocks vanish, the first bad line is the error |
| `Invitation.BlockFromEntries` | internal/invite/file.go:115-136 | the last name and address win, lists keep their order, unknown keys are kept in order |
| `InvitationRoundTrip.BlockTakesEntry` | internal/invite/file.go:115-136 | one more entry with the key Name or Address, in any case, replaces the name or address; ConnectTo, Ifconfig and Route append to their lists; Netname changes nothing; any other key is kept with its value |
| `InvitationRoundTrip.FirstNetnameWins` | internal/invite/file.go:86-92 | the network is named by the first Netname of the first block |
| `InvitationRoundTrip.CommentEndsBlock` | internal/invite/file.go:45-79 | any comment ends the open block and a blank line does not |
| `InvitationRoundTrip.EntryInBlock` | internal/invite/file.go:45-79 | a Name line opens a block, any other entry goes to the open one, and a bad line makes the file an error |
| `InvitationRoundTrip.AssembledIff` | internal/invite/file.go:77-101 | a file is accepted exactly when it has a block and every block has a name; the first block is the invitee, the others are the hosts in order |
| `InvitationRoundTrip.WrittenInOrder` | internal/invite/file.go:139-168 | a block is written as name, network, connections, address, interface, routes and other entries, in this order |
| `Invitation.ParseFile` | internal/invite/file.go:41-102 | the first block is the invitee, its first Netname the network; a block without a name and a line over the scanner's limit are errors |
| `Invitation.Render` | internal/invite/file.go:139-168 | writes the blocks in the fixed key order with separators between them |
| `InvitationRoundTrip.BlockReadsBack` | internal/invite/file.go:45-79 | a written block reads back as one block, whatever follows |
| `InvitationRoundTrip.RoundTripIffWellFormedFile` | internal/invite/file.go:139-168 | a file parses back from its rendering exactly when its values and keys can be written and every line fits |
| `InvitationRoundTrip.InvitationNormalForm` | internal/invite/file.go:41-168 | for every accepted text, parsing the rendering of the result gives the same file exactly when every rendered line fits |
| `Stun.ParseResponse` | internal/stun/stun.go:86-124 | the checks and the re-slicing loop compute the walk, which ends, fails or panics; `FoundOnlyInOwnResponse`, `FoundIffEncoded` and `MappedAddressReadsBack` say what it finds |
| `Stun.DecodeXorMapped` | internal/stun/stun.go:126-156 | the byte loop undoes the mask on port and IPv4 address; other families and short values are errors |
| `Stun.XorTwice` | internal/stun/stun.go:135-147 | masking twice gives the number back |
| `Stun.PortMask` | internal/stun/stun.go:132 | the mask on the port is that of the first two bytes of the magic cookie, byte by byte, for every port |
| `Stun.FoundIffEncoded` | internal/stun/stun.go:126-156 | a value decodes to an address and port exactly when its first eight bytes are the encoding of them in section 15.1 or 15.2 of RFC 5389 |
| `Stun.FoundOnlyInOwnResponse` | internal/stun/stun.go:86-103 | an address is found only in a whole Binding Response to the client's own transaction |
| `Stun.FirstMappedDecides` | internal/stun/stun.go:104-123 | past any padded other attributes and whatever follows, the first mapped address is the one decoded |
| `Stun.MappedAddressReadsBack` | internal/stun/stun.go:86-156 | a Binding Response with an IPv4 XOR-MAPPED-ADDRESS or MAPPED-ADDRESS (sections 15.2 and 15.1 of RFC 5389), written out in bytes, after any other attributes gives exactly the encoded address and port |
| `Stun.AlignedNeverPanics` | internal/stun/stun.go:104-123 | with a length that is a multiple of four (section 6 of RFC 5389) no bytes make a slice go out of bounds |
| `Stun.SafeLengths` | internal/stun/stun.go:104-123 | the lengths safe for all contents are exactly the multiples of four and those below four |
| `Stun.PanicsIffCutInPadding` | internal/stun/stun.go:104-123 | the walk panics exactly on whole skippable attributes followed by one cut inside its padding |

## Left out

- Cryptography (Ed25519, X25519, HKDF, ChaCha20-Poly1305, SHA-256) and base64: signature check and digest are arbitrary functions.
- JSON encoding of envelopes: a body is what its payload decodes to, `Undecodable` when it does not decode.
- Sockets and timeouts: dialling and writing succeed or fail as parameters say; in the network a failed write is a loss.
- ConcurrentDial.OneEachIffNoClash: connections that end while dials run are not part of the interleavings.
- Planes.Plane.ResendOutbox: which connections take writes does not change during one resend.
- Two connections between the same two nodes in the network model: `Flood` has one link per pair, so the second copy of a packet, which is never news, is not there.
- Flood.AgreementAtQuiescence: assumes fixed links and, under the ID it speaks of, no loss and no clock that steps back, because each of these makes it false; `Reach.SettlesExactly`, `Heartbeat.StepBackNeverHeals` and `Rewiring.AgreementAfterRewiring` say what holds after them.
- Who can verify an ID is a fixed set during a sound run: a key learned from a hello in the middle of the run is not covered there, `Convergence.LossesAreHealed` covers it when it comes before the fresh announcement.
- Convergence.SubnetsConverge: receives are serial per node, because concurrent receives can apply an older envelope last; `ApplyOrder.SubnetsRightIffBodiesAgree` says when that does no harm.
- OrderIndependence.OrderFreeIffNoTie: where an envelope verifies only after a hello has brought its key, the set that is accepted depends on the order; `OrderIndependence.NewestDecides` covers that case for each order.
- Convergence of edges, of the node set and of the optional hello fields across nodes: the code does not guarantee it.
- Real kernel behaviour: creation of the WireGuard and VXLAN links, details of neighbour flags, WireGuard moving an allowed prefix between peers, keepalive and private key; forwarding rows are a set and address printing is injective.
- Addresses: IPv6 zones are not part of an address, so that a host prefix has exactly one.
- Config.Parse: the line limit counts characters, which are bytes for ASCII text, and letter case is folded for ASCII only.
- LoadDirectory, invitation URLs, the control protocol, pcap, fsck and command dispatch: they would only add easy members.
- Compression, subnet parsing, UPnP, sandboxing and hook scripts: library or system calls.
