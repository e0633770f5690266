/**
Concurrent calls of Receive on one plane. Each call verifies, claims, applies and broadcasts in separate
steps; only the claim is atomic. A schedule names the call that moves next.
*/
module ConcurrentReceive {
  import opened Claims
  import opened Messages
  import opened Planes

  datatype Phase = Arrived | Verified | Rejected | Dropped | Won | Done | Forwarded

  datatype Call = Call(msg: Message, phase: Phase)

  datatype Shared = Shared(seen: Seen, calls: seq<Call>, applied: seq<Message>, sent: seq<Message>)

  /**
  One step of call `t`; a finished call does not move. `good` is the verdict each call gets from its verification,
  which may depend on keys that other calls are learning.
  */
  function Advance(good: nat -> bool, s: Shared, t: nat): Shared {
    if t >= |s.calls| then s else
      var m := s.calls[t].msg;
      match s.calls[t].phase
      case Arrived => Move(s, t, if good(t) then Verified else Rejected)
      case Verified =>
        if Newer(s.seen, StampOf(m)) then Move(s, t, Won).(seen := s.seen[m.id := m.ts]) else Move(s, t, Dropped)
      case Won => Move(s, t, Done).(applied := s.applied + [m])
      case Done => Move(s, t, Forwarded).(sent := s.sent + [m])
      case _ => s
  }

  function Move(s: Shared, t: nat, p: Phase): Shared
    requires t < |s.calls|
  {
    s.(calls := s.calls[t := s.calls[t].(phase := p)])
  }

  function Run(good: nat -> bool, s: Shared, schedule: seq<nat>): Shared {
    if schedule == [] then s
    else Advance(good, Run(good, s, schedule[..|schedule| - 1]), schedule[|schedule| - 1])
  }

  function Start(seen: Seen, ms: seq<Message>): Shared {
    Shared(seen, seq(|ms|, i requires 0 <= i < |ms| => Call(ms[i], Arrived)), [], [])
  }

  predicate Finished(s: Shared) {
    forall t :: 0 <= t < |s.calls| ==> s.calls[t].phase in {Rejected, Dropped, Forwarded}
  }

  predicate Winner(c: Call) {
    c.phase in {Won, Done, Forwarded}
  }

  ghost predicate NoRepeats(ms: seq<Message>) {
    forall i, j :: 0 <= i < j < |ms| ==> StampOf(ms[i]) != StampOf(ms[j])
  }

  /** The table is at least as new as every call whose claim is decided. */
  ghost predicate TableCovers(s: Shared) {
    forall t :: 0 <= t < |s.calls| && (Winner(s.calls[t]) || s.calls[t].phase == Dropped) ==>
      !Newer(s.seen, StampOf(s.calls[t].msg))
  }

  ghost predicate WinnersDiffer(s: Shared) {
    forall t, u :: 0 <= t < u < |s.calls| && Winner(s.calls[t]) && Winner(s.calls[u]) ==>
      StampOf(s.calls[t].msg) != StampOf(s.calls[u].msg)
  }

  /** Winners are newer than the table the calls found, and the table has not gone back. */
  ghost predicate TableGrew(seen0: Seen, s: Shared) {
    && (forall id :: id in seen0 ==> id in s.seen && seen0[id] <= s.seen[id])
    && (forall t :: 0 <= t < |s.calls| && Winner(s.calls[t]) ==> Newer(seen0, StampOf(s.calls[t].msg)))
  }

  ghost predicate WonBy(s: Shared, st: Stamp) {
    exists t :: 0 <= t < |s.calls| && Winner(s.calls[t]) && StampOf(s.calls[t].msg) == st
  }

  /** Every entry of the table was there before or was won by a call. */
  ghost predicate TableSourced(seen0: Seen, s: Shared) {
    forall id :: id in s.seen ==> (id in seen0 && seen0[id] == s.seen[id]) || WonBy(s, Stamp(id, s.seen[id]))
  }

  ghost predicate ClaimsInv(seen0: Seen, s: Shared) {
    TableCovers(s) && WinnersDiffer(s) && TableGrew(seen0, s) && TableSourced(seen0, s)
  }

  ghost predicate CalledIn(s: Shared, m: Message, phases: set<Phase>) {
    exists t :: 0 <= t < |s.calls| && s.calls[t].phase in phases && s.calls[t].msg == m
  }

  /** The log holds exactly the messages of the calls in the given phases. */
  ghost predicate Logged(s: Shared, log: seq<Message>, phases: set<Phase>) {
    && (forall m :: m in log ==> CalledIn(s, m, phases))
    && (forall t :: 0 <= t < |s.calls| && s.calls[t].phase in phases ==> s.calls[t].msg in log)
  }

  /** Calls keep their messages; the verified ones are good and the rejected ones are not. */
  ghost predicate CallsInv(good: nat -> bool, ms: seq<Message>, s: Shared) {
    && |s.calls| == |ms|
    && forall t :: 0 <= t < |ms| ==>
        && s.calls[t].msg == ms[t]
        && (s.calls[t].phase == Rejected ==> !good(t))
        && (s.calls[t].phase !in {Arrived, Rejected} ==> good(t))
  }

  ghost predicate LogsInv(s: Shared) {
    && Logged(s, s.applied, {Done, Forwarded}) && NoRepeats(s.applied)
    && Logged(s, s.sent, {Forwarded}) && NoRepeats(s.sent)
  }

  /** A won claim: the call joins the winners and its stamp enters the table. */
  lemma WinKeepsClaims(seen0: Seen, s: Shared, s': Shared, t: nat)
    requires ClaimsInv(seen0, s) && t < |s.calls| && s.calls[t].phase == Verified
    requires Newer(s.seen, StampOf(s.calls[t].msg))
    requires s'.calls == s.calls[t := s.calls[t].(phase := Won)]
    requires s'.seen == s.seen[s.calls[t].msg.id := s.calls[t].msg.ts]
    ensures ClaimsInv(seen0, s')
  {
    var m := s.calls[t].msg;
    assert forall u :: 0 <= u < |s.calls| && u != t ==> s'.calls[u] == s.calls[u];
    assert s'.calls[t] == Call(m, Won);
    assert TableCovers(s') && TableGrew(seen0, s');
    assert WinnersDiffer(s') by {
      forall u | 0 <= u < |s.calls| && Winner(s.calls[u]) ensures StampOf(s.calls[u].msg) != StampOf(m) {}
    }
    WinKeepsSourced(seen0, s, s', t);
  }

  lemma WinKeepsSourced(seen0: Seen, s: Shared, s': Shared, t: nat)
    requires TableSourced(seen0, s) && t < |s.calls|
    requires s'.calls == s.calls[t := s.calls[t].(phase := Won)]
    requires s'.seen == s.seen[s.calls[t].msg.id := s.calls[t].msg.ts]
    ensures TableSourced(seen0, s')
  {
    var m := s.calls[t].msg;
    assert s'.calls[t] == Call(m, Won);
    forall id | id in s'.seen
      ensures (id in seen0 && seen0[id] == s'.seen[id]) || WonBy(s', Stamp(id, s'.seen[id]))
    {
      if id != m.id { WonByKept(s, s', Stamp(id, s'.seen[id])); }
    }
  }

  /** Any other step: the table and the winners stay. */
  lemma MoveKeepsClaims(seen0: Seen, s: Shared, s': Shared, t: nat, p: Phase)
    requires ClaimsInv(seen0, s) && t < |s.calls| && s'.seen == s.seen
    requires s'.calls == s.calls[t := s.calls[t].(phase := p)]
    requires Winner(s'.calls[t]) <==> Winner(s.calls[t])
    requires p == Dropped ==> !Newer(s.seen, StampOf(s.calls[t].msg))
    ensures ClaimsInv(seen0, s')
  {
    assert forall u :: 0 <= u < |s.calls| && u != t ==> s'.calls[u] == s.calls[u];
    assert forall u :: 0 <= u < |s.calls| ==> s'.calls[u].msg == s.calls[u].msg;
    assert forall u :: 0 <= u < |s.calls| ==> (Winner(s'.calls[u]) <==> Winner(s.calls[u]));
    forall id | id in s'.seen
      ensures (id in seen0 && seen0[id] == s'.seen[id]) || WonBy(s', Stamp(id, s'.seen[id]))
    {
      WonByKept(s, s', Stamp(id, s'.seen[id]));
    }
  }

  lemma WonByKept(s: Shared, s': Shared, st: Stamp)
    requires |s.calls| == |s'.calls|
    requires forall t :: 0 <= t < |s.calls| ==> s'.calls[t].msg == s.calls[t].msg
    requires forall t :: 0 <= t < |s.calls| && Winner(s.calls[t]) ==> Winner(s'.calls[t])
    ensures WonBy(s, st) ==> WonBy(s', st)
  {
    if WonBy(s, st) {
      var t :| 0 <= t < |s.calls| && Winner(s.calls[t]) && StampOf(s.calls[t].msg) == st;
      assert Winner(s'.calls[t]);
    }
  }

  lemma AdvanceKeepsClaims(good: nat -> bool, seen0: Seen, s: Shared, t: nat)
    requires ClaimsInv(seen0, s)
    ensures ClaimsInv(seen0, Advance(good, s, t))
  {
    var s' := Advance(good, s, t);
    if t < |s.calls| && s' != s {
      if s.calls[t].phase == Verified && Newer(s.seen, StampOf(s.calls[t].msg)) {
        WinKeepsClaims(seen0, s, s', t);
      } else {
        MoveKeepsClaims(seen0, s, s', t, s'.calls[t].phase);
      }
    }
  }

  /** A call that enters the logged phases adds its message to the log; its stamp is in it for the first time. */
  lemma LogGrows(s: Shared, s': Shared, t: nat, log: seq<Message>, phases: set<Phase>, p: Phase)
    requires t < |s.calls| && s'.calls == s.calls[t := s.calls[t].(phase := p)]
    requires s.calls[t].phase !in phases && p in phases && phases <= {Won, Done, Forwarded}
    requires Winner(s.calls[t]) && WinnersDiffer(s)
    requires Logged(s, log, phases) && NoRepeats(log)
    ensures Logged(s', log + [s.calls[t].msg], phases) && NoRepeats(log + [s.calls[t].msg])
  {
    var m := s.calls[t].msg;
    forall n | n in log + [m]
      ensures CalledIn(s', n, phases) && (n in log ==> StampOf(n) != StampOf(m))
    {
      if n in log {
        var u :| 0 <= u < |s.calls| && s.calls[u].phase in phases && s.calls[u].msg == n;
        assert s'.calls[u] == s.calls[u] && Winner(s.calls[u]);
      } else {
        assert s'.calls[t].phase in phases;
      }
    }
  }

  /** A call that stays inside or outside the logged phases leaves the log right. */
  lemma LogKept(s: Shared, s': Shared, t: nat, log: seq<Message>, phases: set<Phase>, p: Phase)
    requires t < |s.calls| && s'.calls == s.calls[t := s.calls[t].(phase := p)]
    requires s.calls[t].phase in phases <==> p in phases
    requires Logged(s, log, phases)
    ensures Logged(s', log, phases)
  {
    forall m | m in log ensures CalledIn(s', m, phases) {
      var u :| 0 <= u < |s.calls| && s.calls[u].phase in phases && s.calls[u].msg == m;
      assert s'.calls[u].phase in phases && s'.calls[u].msg == m;
    }
  }

  lemma AdvanceKeepsLogs(good: nat -> bool, seen0: Seen, s: Shared, t: nat)
    requires ClaimsInv(seen0, s) && LogsInv(s)
    ensures LogsInv(Advance(good, s, t))
  {
    var s' := Advance(good, s, t);
    if t < |s.calls| && s' != s {
      var p := s'.calls[t].phase;
      if s.calls[t].phase == Won {
        LogGrows(s, s', t, s.applied, {Done, Forwarded}, p);
        LogKept(s, s', t, s.sent, {Forwarded}, p);
      } else if s.calls[t].phase == Done {
        LogKept(s, s', t, s.applied, {Done, Forwarded}, p);
        LogGrows(s, s', t, s.sent, {Forwarded}, p);
      } else {
        LogKept(s, s', t, s.applied, {Done, Forwarded}, p);
        LogKept(s, s', t, s.sent, {Forwarded}, p);
      }
    }
  }

  lemma {:induction false} RunInvariant(good: nat -> bool, seen0: Seen, ms: seq<Message>, schedule: seq<nat>)
    ensures var s := Run(good, Start(seen0, ms), schedule);
            ClaimsInv(seen0, s) && LogsInv(s) && CallsInv(good, ms, s)
  {
    if schedule != [] {
      var k := |schedule| - 1;
      RunInvariant(good, seen0, ms, schedule[..k]);
      var s := Run(good, Start(seen0, ms), schedule[..k]);
      AdvanceKeepsClaims(good, seen0, s, schedule[k]);
      AdvanceKeepsLogs(good, seen0, s, schedule[k]);
      AdvanceKeepsCalls(good, ms, s, schedule[k]);
    }
  }

  lemma AdvanceKeepsCalls(good: nat -> bool, ms: seq<Message>, s: Shared, t: nat)
    requires CallsInv(good, ms, s)
    ensures CallsInv(good, ms, Advance(good, s, t))
  {}

  /** In every interleaving, at every moment: no ID and time stamp is applied twice or forwarded twice. */
  lemma ExactlyOnce(good: nat -> bool, seen0: Seen, ms: seq<Message>, schedule: seq<nat>)
    ensures NoRepeats(Run(good, Start(seen0, ms), schedule).applied)
    ensures NoRepeats(Run(good, Start(seen0, ms), schedule).sent)
  {
    RunInvariant(good, seen0, ms, schedule);
  }

  /** The newest time stamp of an ID never goes back, over any part of any interleaving. */
  lemma {:induction false} SeenNeverDecreases(good: nat -> bool, s: Shared, schedule: seq<nat>)
    ensures forall id :: id in s.seen ==>
              id in Run(good, s, schedule).seen && s.seen[id] <= Run(good, s, schedule).seen[id]
  {
    if schedule != [] {
      SeenNeverDecreases(good, s, schedule[..|schedule| - 1]);
    }
  }

  /** Some call for the message was verified. */
  ghost predicate Passed(good: nat -> bool, ms: seq<Message>, m: Message) {
    exists t: nat :: t < |ms| && good(t) && ms[t] == m
  }

  /**
  When every call has returned, the table holds the maximum of what it held and of the verified time stamps
  received; the messages that set a new maximum were applied and forwarded; both logs agree.
  */
  lemma FinalTable(good: nat -> bool, seen0: Seen, ms: seq<Message>, schedule: seq<nat>)
    requires Finished(Run(good, Start(seen0, ms), schedule))
    ensures var s := Run(good, Start(seen0, ms), schedule);
            && (forall m :: Passed(good, ms, m) ==> m.id in s.seen && m.ts <= s.seen[m.id])
            && (forall id :: id in seen0 ==> id in s.seen && seen0[id] <= s.seen[id])
            && (forall id :: id in s.seen ==>
                  (id in seen0 && seen0[id] == s.seen[id])
                  || exists m :: m in s.applied && StampOf(m) == Stamp(id, s.seen[id]))
            && (forall m :: m in s.applied <==> m in s.sent)
            && (forall m :: m in s.applied ==> Passed(good, ms, m) && Newer(seen0, StampOf(m)))
  {
    var s := Run(good, Start(seen0, ms), schedule);
    RunInvariant(good, seen0, ms, schedule);
    forall m | Passed(good, ms, m) ensures m.id in s.seen && m.ts <= s.seen[m.id] {
      var t: nat :| t < |ms| && good(t) && ms[t] == m;
      assert s.calls[t].phase in {Dropped, Forwarded};
    }
    forall id | id in s.seen && !(id in seen0 && seen0[id] == s.seen[id])
      ensures exists m :: m in s.applied && StampOf(m) == Stamp(id, s.seen[id])
    {
      var t :| 0 <= t < |s.calls| && Winner(s.calls[t]) && StampOf(s.calls[t].msg) == Stamp(id, s.seen[id]);
      assert s.calls[t].msg in s.applied;
    }
    LogsAgree(good, seen0, ms, s);
  }

  lemma LogsAgree(good: nat -> bool, seen0: Seen, ms: seq<Message>, s: Shared)
    requires ClaimsInv(seen0, s) && LogsInv(s) && CallsInv(good, ms, s) && Finished(s)
    ensures forall m :: m in s.applied <==> m in s.sent
    ensures forall m :: m in s.applied ==> Passed(good, ms, m) && Newer(seen0, StampOf(m))
  {
    forall m | m in s.applied ensures m in s.sent && Passed(good, ms, m) && Newer(seen0, StampOf(m)) {
      assert CalledIn(s, m, {Done, Forwarded});
      var t :| 0 <= t < |s.calls| && s.calls[t].phase in {Done, Forwarded} && s.calls[t].msg == m;
      assert s.calls[t].phase == Forwarded && s.calls[t].msg == ms[t];
    }
    forall m | m in s.sent ensures m in s.applied {
      assert CalledIn(s, m, {Forwarded});
      var t :| 0 <= t < |s.calls| && s.calls[t].phase in {Forwarded} && s.calls[t].msg == m;
      assert s.calls[t].phase in {Done, Forwarded};
    }
  }
}
