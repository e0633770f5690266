/** Reconciling the forwarding table of the VXLAN device with the desired peers. */
module Fdb {
  import opened Addresses
  import opened Macs
  import opened Peers
  import opened Results

  datatype Row = Row(mac: Mac, ip: Addr)

  datatype FdbOp = Append(row: Row) | Delete(row: Row)

  // The specification

  function Reachables(peers: seq<Peer>): set<Peer> {
    set p | p in peers && p.underlay.Some?
  }

  /** Per reachable peer: one row that floods to it and one for its own MAC. */
  function Desired(hash: WgKey -> Digest, peers: seq<Peer>): set<Row> {
    RowsFor(hash, Reachables(peers))
  }

  function Managed(hash: WgKey -> Digest, peers: seq<Peer>): set<Mac> {
    MacsFor(hash, Reachables(peers))
  }

  function Unmanaged(rows: set<Row>, macs: set<Mac>): set<Row> {
    set r | r in rows && r.mac !in macs
  }

  lemma DesiredIsManaged(hash: WgKey -> Digest, peers: seq<Peer>)
    ensures forall r :: r in Desired(hash, peers) ==> r.mac in Managed(hash, peers)
  {}

  /** What one reconcile wants and what it manages. */
  datatype Round = Round(desired: set<Row>, managed: set<Mac>)

  ghost predicate Sane(round: Round) {
    forall r :: r in round.desired ==> r.mac in round.managed
  }

  function RoundOf(hash: WgKey -> Digest, peers: seq<Peer>): (round: Round)
    ensures Sane(round)
  {
    DesiredIsManaged(hash, peers);
    Round(Desired(hash, peers), Managed(hash, peers))
  }

  function Settled(rows: set<Row>, round: Round): set<Row> {
    Unmanaged(rows, round.managed) + round.desired
  }

  /** The table a successful reconcile leaves: the desired rows, and every row whose MAC is not managed. */
  function Reconciled(rows: set<Row>, hash: WgKey -> Digest, peers: seq<Peer>): set<Row> {
    Settled(rows, RoundOf(hash, peers))
  }

  // The kernel and the loops

  /** The kernel side: which operation it refuses may depend on how often it was asked. */
  class Kernel {
    const refuses: (nat, FdbOp) -> bool
    var rows: set<Row>
    var asked: nat
    ghost var trace: seq<set<Row>>  // the table after each operation that succeeded

    constructor (rows: set<Row>, refuses: (nat, FdbOp) -> bool)
      ensures this.rows == rows && trace == []
    {
      this.rows, this.refuses, asked, trace := rows, refuses, 0, [];
    }

    method Do(op: FdbOp) returns (ok: bool)
      modifies this
      ensures asked == old(asked) + 1
      ensures !ok ==> rows == old(rows) && trace == old(trace)
      ensures ok ==> rows == if op.Append? then old(rows) + {op.row} else old(rows) - {op.row}
      ensures ok ==> trace == old(trace) + [rows]
    {
      ok := !refuses(asked, op);
      asked := asked + 1;
      if ok {
        rows := if op.Append? then rows + {op.row} else rows - {op.row};
        trace := trace + [rows];
      }
    }
  }

  method DesiredRows(hash: WgKey -> Digest, peers: seq<Peer>) returns (desired: set<Row>, managed: set<Mac>)
    ensures desired == Desired(hash, peers) && managed == Managed(hash, peers)
  {
    desired, managed := {}, {BROADCAST};
    for i := 0 to |peers|
      invariant desired == Desired(hash, peers[..i]) && managed == Managed(hash, peers[..i])
    {
      var p := peers[i];
      OneMorePeer(hash, peers[..i], p);
      assert peers[..i + 1] == peers[..i] + [p];
      if p.underlay.Some? {
        var ip, mac := p.underlay.value, VxlanMac(hash, p.key);
        desired := desired + {Row(BROADCAST, ip), Row(mac, ip)};
        managed := managed + {mac};
      }
    }
    assert peers[..|peers|] == peers;
  }

  lemma OneMorePeer(hash: WgKey -> Digest, peers: seq<Peer>, p: Peer)
    ensures p.underlay.None? ==> Desired(hash, peers + [p]) == Desired(hash, peers)
                                 && Managed(hash, peers + [p]) == Managed(hash, peers)
    ensures p.underlay.Some? ==>
              && Desired(hash, peers + [p]) ==
                 Desired(hash, peers) + {Row(BROADCAST, p.underlay.value), Row(VxlanMac(hash, p.key), p.underlay.value)}
              && Managed(hash, peers + [p]) == Managed(hash, peers) + {VxlanMac(hash, p.key)}
  {
    assert Reachables(peers + [p]) == Reachables(peers) + if p.underlay.Some? then {p} else {};
    if p.underlay.Some? {
      OneMoreReachable(hash, Reachables(peers), p);
    }
  }

  function RowsFor(hash: WgKey -> Digest, ps: set<Peer>): set<Row>
    requires forall p :: p in ps ==> p.underlay.Some?
  {
    (set p | p in ps :: Row(BROADCAST, p.underlay.value)) +
    (set p | p in ps :: Row(VxlanMac(hash, p.key), p.underlay.value))
  }

  function MacsFor(hash: WgKey -> Digest, ps: set<Peer>): set<Mac> {
    {BROADCAST} + set p | p in ps :: VxlanMac(hash, p.key)
  }

  lemma OneMoreReachable(hash: WgKey -> Digest, ps: set<Peer>, p: Peer)
    requires p.underlay.Some? && forall q :: q in ps ==> q.underlay.Some?
    ensures RowsFor(hash, ps + {p}) ==
              RowsFor(hash, ps) + {Row(BROADCAST, p.underlay.value), Row(VxlanMac(hash, p.key), p.underlay.value)}
    ensures MacsFor(hash, ps + {p}) == MacsFor(hash, ps) + {VxlanMac(hash, p.key)}
  {}

  /** A table seen while reconciling: nothing wanted that was there is missing, nothing foreign is touched. */
  ghost predicate Harmless(before: set<Row>, desired: set<Row>, managed: set<Mac>, st: set<Row>) {
    && before * desired <= st
    && Unmanaged(st, managed) == Unmanaged(before, managed)
    && st <= before + desired
    && (before <= st || desired <= st)
  }

  ghost predicate TraceHarmless(before: set<Row>, desired: set<Row>, managed: set<Mac>, trace: seq<set<Row>>) {
    forall st :: st in trace ==> Harmless(before, desired, managed, st)
  }

  lemma HarmlessWhileAppending(before: set<Row>, desired: set<Row>, managed: set<Mac>, st: set<Row>)
    requires forall r :: r in desired ==> r.mac in managed
    requires before <= st && st <= before + desired
    ensures Harmless(before, desired, managed, st)
  {}

  lemma HarmlessWhileDeleting(before: set<Row>, desired: set<Row>, managed: set<Mac>, st: set<Row>, gone: set<Row>)
    requires forall r :: r in desired ==> r.mac in managed
    requires st == before + desired - gone && gone !! desired && forall r :: r in gone ==> r.mac in managed
    ensures Harmless(before, desired, managed, st)
  {}

  /** The trace went on from `past` to `now`, through harmless tables only. */
  ghost predicate TraceGrew(past: seq<set<Row>>, now: seq<set<Row>>, before: set<Row>, desired: set<Row>,
                            managed: set<Mac>) {
    |past| <= |now| && now[..|past|] == past && TraceHarmless(before, desired, managed, now[|past|..])
  }

  /** The table after a pass that went through the given tables. */
  function EndOf(before: set<Row>, tables: seq<set<Row>>): set<Row> {
    if tables == [] then before else tables[|tables| - 1]
  }

  /** The trace went on from `past` to `now`, and `rows` is where it stands. */
  ghost predicate StandsAt(past: seq<set<Row>>, now: seq<set<Row>>, before: set<Row>, rows: set<Row>) {
    |past| <= |now| && now[..|past|] == past && rows == EndOf(before, now[|past|..])
  }

  lemma StandsAtNext(past: seq<set<Row>>, now: seq<set<Row>>, before: set<Row>, rows: set<Row>, next: set<Row>)
    requires StandsAt(past, now, before, rows)
    ensures StandsAt(past, now + [next], before, next)
  {
    assert (now + [next])[|past|..] == now[|past|..] + [next];
  }

  method AppendMissing(k: Kernel, desired: set<Row>, have: set<Row>, ghost managed: set<Mac>) returns (ok: bool)
    requires forall r :: r in desired ==> r.mac in managed
    modifies k
    ensures TraceGrew(old(k.trace), k.trace, old(k.rows), desired, managed)
    ensures StandsAt(old(k.trace), k.trace, old(k.rows), k.rows)
    ensures ok ==> k.rows == old(k.rows) + (desired - have)
    ensures desired <= have ==> ok && k.asked == old(k.asked)
  {
    var todo := desired - have;
    ok := true;
    while todo != {}
      invariant ok && todo <= desired - have
      invariant k.rows == old(k.rows) + (desired - have - todo)
      invariant TraceGrew(old(k.trace), k.trace, old(k.rows), desired, managed)
      invariant StandsAt(old(k.trace), k.trace, old(k.rows), k.rows)
      invariant desired <= have ==> k.asked == old(k.asked)
      decreases todo
    {
      var r :| r in todo;
      todo := todo - {r};
      ghost var trace, rows := k.trace, k.rows;
      ok := k.Do(Append(r));
      if !ok { return; }
      StandsAtNext(old(k.trace), trace, old(k.rows), rows, k.rows);
      HarmlessWhileAppending(old(k.rows), desired, managed, k.rows);
    }
  }

  method DeleteStale(k: Kernel, desired: set<Row>, have: set<Row>, ghost managed: set<Mac>, ghost before: set<Row>)
    returns (ok: bool)
    requires forall r :: r in desired + have ==> r.mac in managed
    requires k.rows == before + desired
    modifies k
    ensures TraceGrew(old(k.trace), k.trace, before, desired, managed)
    ensures StandsAt(old(k.trace), k.trace, old(k.rows), k.rows)
    ensures ok ==> k.rows == before + desired - (have - desired)
    ensures have <= desired ==> ok && k.asked == old(k.asked)
  {
    var todo := have - desired;
    ok := true;
    while todo != {}
      invariant ok && todo <= have - desired
      invariant k.rows == before + desired - (have - desired - todo)
      invariant TraceGrew(old(k.trace), k.trace, before, desired, managed)
      invariant StandsAt(old(k.trace), k.trace, old(k.rows), k.rows)
      invariant have <= desired ==> k.asked == old(k.asked)
      decreases todo
    {
      var r :| r in todo;
      todo := todo - {r};
      ghost var trace, rows := k.trace, k.rows;
      ok := k.Do(Delete(r));
      if !ok { return; }
      StandsAtNext(old(k.trace), trace, old(k.rows), rows, k.rows);
      HarmlessWhileDeleting(before, desired, managed, k.rows, have - desired - todo);
    }
  }

  /** One reconcile: what it wanted, the tables it went through, and whether the kernel took every operation. */
  datatype Pass = Pass(round: Round, tables: seq<set<Row>>, ok: bool)

  /** A pass as reconciling makes them: harmless all the way, and exact if nothing was refused. */
  ghost predicate Legit(before: set<Row>, pass: Pass) {
    && Sane(pass.round) && TraceHarmless(before, pass.round.desired, pass.round.managed, pass.tables)
    && (pass.ok ==> EndOf(before, pass.tables) == Settled(before, pass.round))
  }

  /**
  Appends what is missing, then deletes what is stale. On success the table is exactly the reconciled one; at
  every moment, and also when the kernel refuses something half way, the table is harmless; a table that is
  already right is not touched.
  */
  method ReconcileFdb(k: Kernel, hash: WgKey -> Digest, peers: seq<Peer>) returns (ok: bool)
    modifies k
    ensures ok ==> k.rows == Reconciled(old(k.rows), hash, peers)
    ensures TraceGrew(old(k.trace), k.trace, old(k.rows), Desired(hash, peers), Managed(hash, peers))
    ensures StandsAt(old(k.trace), k.trace, old(k.rows), k.rows)
    ensures Legit(old(k.rows), Pass(RoundOf(hash, peers), k.trace[|old(k.trace)|..], ok))
    ensures old(k.rows) == Reconciled(old(k.rows), hash, peers) ==>
              ok && k.asked == old(k.asked) && k.rows == old(k.rows)
  {
    var desired, managed := DesiredRows(hash, peers);
    DesiredIsManaged(hash, peers);
    ghost var before, trace := k.rows, k.trace;
    var have := ManagedRows(k.rows, managed);
    assert have <= before && forall r :: r in have ==> r.mac in managed;
    assert before == Reconciled(before, hash, peers) ==> have == desired;
    ok := AppendMissing(k, desired, have, managed);
    if !ok { return; }
    ghost var middle, rows := k.trace, k.rows;
    assert k.rows == before + desired;
    ok := DeleteStale(k, desired, have, managed, before);
    TraceJoins(trace, middle, k.trace, before, desired, managed);
    StandsJoins(trace, middle, k.trace, before, rows, k.rows);
    assert before + desired - (have - desired) == Unmanaged(before, managed) + desired;
  }

  lemma StandsJoins(a: seq<set<Row>>, b: seq<set<Row>>, c: seq<set<Row>>, before: set<Row>, middle: set<Row>,
                    rows: set<Row>)
    requires StandsAt(a, b, before, middle) && StandsAt(b, c, middle, rows)
    ensures StandsAt(a, c, before, rows)
  {
    assert c[|a|..] == b[|a|..] + c[|b|..];
    assert c[..|a|] == c[..|b|][..|a|];
  }

  lemma TraceJoins(a: seq<set<Row>>, b: seq<set<Row>>, c: seq<set<Row>>, before: set<Row>, desired: set<Row>,
                   managed: set<Mac>)
    requires TraceGrew(a, b, before, desired, managed) && TraceGrew(b, c, before, desired, managed)
    ensures TraceGrew(a, c, before, desired, managed)
  {
    assert c[|a|..] == b[|a|..] + c[|b|..];
    assert c[..|a|] == c[..|b|][..|a|];
  }

  method ManagedRows(rows: set<Row>, managed: set<Mac>) returns (have: set<Row>)
    ensures have == rows - Unmanaged(rows, managed)
  {
    have := {};
    var todo := rows;
    while todo != {}
      invariant todo <= rows
      invariant have == (rows - todo) - Unmanaged(rows, managed)
      decreases todo
    {
      var r :| r in todo;
      todo := todo - {r};
      if r.mac in managed {
        have := have + {r};
      }
    }
  }

  // What runs of reconciles do

  /** The peer is wanted at the address, under the broadcast MAC or its own. */
  predicate RowOf(hash: WgKey -> Digest, p: Peer, r: Row) {
    p.underlay == Some(r.ip) && (r.mac == [0xff, 0xff, 0xff, 0xff, 0xff, 0xff] || r.mac == VxlanMac(hash, p.key))
  }

  /** The MAC is the broadcast MAC or that of a current peer with an underlay address. */
  ghost predicate Ours(hash: WgKey -> Digest, peers: seq<Peer>, mac: Mac) {
    || mac == [0xff, 0xff, 0xff, 0xff, 0xff, 0xff]
    || exists p :: p in peers && p.underlay.Some? && mac == VxlanMac(hash, p.key)
  }

  /**
  After a reconcile the rows under the broadcast MAC and the MACs of current peers are exactly one flooding and one
  unicast row for each peer with an underlay address; all other rows are as they were.
  */
  lemma ReconciledRows(rows: set<Row>, hash: WgKey -> Digest, peers: seq<Peer>, r: Row)
    ensures r in Reconciled(rows, hash, peers) <==>
              if Ours(hash, peers, r.mac) then exists p :: p in peers && RowOf(hash, p, r) else r in rows
  {
    assert r.mac in Managed(hash, peers) <==> Ours(hash, peers, r.mac);
    WantedIff(hash, peers, r);
    DesiredIsManaged(hash, peers);
  }

  lemma WantedIff(hash: WgKey -> Digest, peers: seq<Peer>, r: Row)
    ensures r in Desired(hash, peers) <==> exists p :: p in peers && RowOf(hash, p, r)
  {
    if p :| p in peers && RowOf(hash, p, r) {
      assert p in Reachables(peers);
    }
  }

  /** Reconciling again with the same peers changes nothing. */
  lemma ReconciledIsStable(rows: set<Row>, hash: WgKey -> Digest, peers: seq<Peer>)
    ensures Reconciled(Reconciled(rows, hash, peers), hash, peers) == Reconciled(rows, hash, peers)
  {
    DesiredIsManaged(hash, peers);
  }

  function AfterAll(rows: set<Row>, passes: seq<Pass>): set<Row> {
    if passes == [] then rows else EndOf(AfterAll(rows, passes[..|passes| - 1]), passes[|passes| - 1].tables)
  }

  /** A run of reconciles, some of them refused half way, each starting from the table the one before left. */
  ghost predicate Course(rows: set<Row>, passes: seq<Pass>) {
    passes == [] ||
    (Course(rows, passes[..|passes| - 1]) && Legit(AfterAll(rows, passes[..|passes| - 1]), passes[|passes| - 1]))
  }

  /** The row is in every table of the pass and in the one it leaves. */
  ghost predicate Throughout(r: Row, before: set<Row>, pass: Pass) {
    (forall i :: 0 <= i < |pass.tables| ==> r in pass.tables[i]) && r in EndOf(before, pass.tables)
  }

  lemma WantedInPass(before: set<Row>, pass: Pass, r: Row)
    requires Legit(before, pass) && r in before && r in pass.round.desired
    ensures Throughout(r, before, pass)
  {
    forall i | 0 <= i < |pass.tables| ensures r in pass.tables[i] {
      assert Harmless(before, pass.round.desired, pass.round.managed, pass.tables[i]);
      assert r in before * pass.round.desired;
    }
  }

  /** Over any run, refused rounds included: a row that is there and wanted in every round is never missing. */
  lemma {:induction false} WantedNeverMissing(rows: set<Row>, passes: seq<Pass>, r: Row)
    requires Course(rows, passes) && r in rows && forall i :: 0 <= i < |passes| ==> r in passes[i].round.desired
    ensures r in AfterAll(rows, passes)
    ensures forall i :: 0 <= i < |passes| ==> Throughout(r, AfterAll(rows, passes[..i]), passes[i])
  {
    if passes != [] {
      var k := |passes| - 1;
      var before := passes[..k];
      WantedNeverMissing(rows, before, r);
      WantedInPass(AfterAll(rows, before), passes[k], r);
      forall i | 0 <= i < k ensures Throughout(r, AfterAll(rows, passes[..i]), passes[i]) {
        assert before[..i] == passes[..i] && before[i] == passes[i];
      }
    }
  }

  /** Pass `i` is the last that managed the MAC. */
  ghost predicate LastManager(passes: seq<Pass>, mac: Mac, i: nat) {
    && i < |passes| && mac in passes[i].round.managed
    && forall j :: i < j < |passes| ==> mac !in passes[j].round.managed
  }

  lemma ForeignInPass(before: set<Row>, pass: Pass, r: Row)
    requires Legit(before, pass) && r.mac !in pass.round.managed
    ensures r in EndOf(before, pass.tables) <==> r in before
  {
    if pass.tables != [] {
      var end, macs := EndOf(before, pass.tables), pass.round.managed;
      assert Harmless(before, pass.round.desired, macs, end);
      assert r in Unmanaged(end, macs) <==> r in Unmanaged(before, macs);
    }
  }

  /**
  Over any run, refused rounds included: a row is decided by the last round that managed its MAC if that one went
  through, and by the original table if none managed it.
  */
  lemma {:induction false} LastManagerDecides(rows: set<Row>, passes: seq<Pass>, r: Row)
    requires Course(rows, passes)
    ensures forall i: nat :: LastManager(passes, r.mac, i) && passes[i].ok ==>
              (r in AfterAll(rows, passes) <==> r in passes[i].round.desired)
    ensures (forall i: nat :: !LastManager(passes, r.mac, i)) ==> (r in AfterAll(rows, passes) <==> r in rows)
  {
    if passes != [] {
      var k := |passes| - 1;
      var before := passes[..k];
      LastManagerDecides(rows, before, r);
      assert Sane(passes[k].round);
      if r.mac in passes[k].round.managed {
        assert LastManager(passes, r.mac, k);
      } else {
        ForeignInPass(AfterAll(rows, before), passes[k], r);
        assert forall i: nat :: LastManager(before, r.mac, i) <==> LastManager(passes, r.mac, i);
      }
    }
  }

  /**
  A row that one reconcile wanted and the next does not is removed exactly when its MAC is still managed: the
  unicast row of a peer that has gone stays behind.
  */
  lemma LeftoverRows(rows: set<Row>, hash: WgKey -> Digest, before: seq<Peer>, after: seq<Peer>, r: Row)
    requires r in Desired(hash, before) && r !in Desired(hash, after)
    ensures r in Reconciled(Reconciled(rows, hash, before), hash, after) <==> r.mac !in Managed(hash, after)
  {
    assert r in Reconciled(rows, hash, before);
  }

  /** A departed peer, its MAC shared with no one who stays, keeps its unicast row and loses its flooding row. */
  lemma DepartedPeerKeepsUnicastRow(rows: set<Row>, hash: WgKey -> Digest, before: seq<Peer>, after: seq<Peer>, p: Peer)
    requires p in before && p.underlay.Some?
    requires forall q :: q in after && q.underlay.Some? ==>
               VxlanMac(hash, q.key) != VxlanMac(hash, p.key) && q.underlay != p.underlay
    ensures var table := Reconciled(Reconciled(rows, hash, before), hash, after);
            && Row(VxlanMac(hash, p.key), p.underlay.value) in table
            && Row(BROADCAST, p.underlay.value) !in table
  {
    var unicast, flood := Row(VxlanMac(hash, p.key), p.underlay.value), Row(BROADCAST, p.underlay.value);
    VxlanMacNotBroadcast(hash, p.key);
    assert p in Reachables(before);
    assert unicast.mac !in Managed(hash, after);
    assert unicast !in Desired(hash, after) && flood !in Desired(hash, after) by {
      DesiredIsManaged(hash, after);
      forall q | q in Reachables(after) ensures VxlanMac(hash, q.key) != BROADCAST {
        VxlanMacNotBroadcast(hash, q.key);
      }
    }
    LeftoverRows(rows, hash, before, after, unicast);
    LeftoverRows(rows, hash, before, after, flood);
  }
}
