/**
Announcements among concurrent receives. An announcement takes its time stamp before it takes the lock and then
overwrites the table, so the table can go back. Exactly when it cannot.
*/
module ConcurrentOriginate {
  import opened Claims
  import opened ConcurrentReceive
  import opened Messages
  import opened Planes

  /** One step of call `t`, which is an announcement if `own` says so: record, apply, broadcast. */
  function AdvanceAny(own: nat -> bool, good: nat -> bool, s: Shared, t: nat): Shared {
    if t >= |s.calls| || !own(t) then Advance(good, s, t) else
      var m := s.calls[t].msg;
      match s.calls[t].phase
      case Arrived => Move(s, t, Won).(seen := s.seen[m.id := m.ts])
      case Won => Move(s, t, Done).(applied := s.applied + [m])
      case Done => Move(s, t, Forwarded).(sent := s.sent + [m])
      case _ => s
  }

  function RunAny(own: nat -> bool, good: nat -> bool, s: Shared, schedule: seq<nat>): Shared {
    if schedule == [] then s
    else AdvanceAny(own, good, RunAny(own, good, s, schedule[..|schedule| - 1]), schedule[|schedule| - 1])
  }

  ghost predicate NotBack(before: Seen, after: Seen) {
    forall id :: id in before ==> id in after && before[id] <= after[id]
  }

  /** In no interleaving does any step take a table entry back. */
  ghost predicate NeverBack(own: nat -> bool, good: nat -> bool, seen0: Seen, ms: seq<Message>) {
    forall schedule, t: nat ::
      NotBack(RunAny(own, good, Start(seen0, ms), schedule).seen,
              AdvanceAny(own, good, RunAny(own, good, Start(seen0, ms), schedule), t).seen)
  }

  /** The call can put its time stamp into the table. */
  predicate Writes(own: nat -> bool, good: nat -> bool, ms: seq<Message>, u: nat) {
    u < |ms| && (own(u) || good(u))
  }

  /** Some announcement is older than the table it finds or than another call of its ID. */
  predicate Overtaken(own: nat -> bool, good: nat -> bool, seen0: Seen, ms: seq<Message>, t: nat, u: nat) {
    && t < |ms| && own(t)
    && (|| (ms[t].id in seen0 && ms[t].ts < seen0[ms[t].id])
        || (Writes(own, good, ms, u) && ms[u].id == ms[t].id && ms[t].ts < ms[u].ts))
  }

  // No announcement is overtaken

  /** Calls keep their messages, and only verified ones get past verification. */
  predicate CallsOf(own: nat -> bool, good: nat -> bool, ms: seq<Message>, s: Shared) {
    && |s.calls| == |ms|
    && forall t :: 0 <= t < |ms| ==> s.calls[t].msg == ms[t] && (s.calls[t].phase == Verified ==> own(t) || good(t))
  }

  /** Every entry was there at the start or is the time stamp of a call that writes. */
  ghost predicate Sourced(own: nat -> bool, good: nat -> bool, seen0: Seen, ms: seq<Message>, s: Shared) {
    && CallsOf(own, good, ms, s)
    && forall id :: id in s.seen ==> EntrySourced(own, good, seen0, ms, Stamp(id, s.seen[id]))
  }

  ghost predicate EntrySourced(own: nat -> bool, good: nat -> bool, seen0: Seen, ms: seq<Message>, st: Stamp) {
    || (st.id in seen0 && seen0[st.id] == st.ts)
    || exists u: nat :: Writes(own, good, ms, u) && StampOf(ms[u]) == st
  }

  lemma SourcedKept(own: nat -> bool, good: nat -> bool, seen0: Seen, ms: seq<Message>, s: Shared, t: nat)
    requires Sourced(own, good, seen0, ms, s)
    ensures Sourced(own, good, seen0, ms, AdvanceAny(own, good, s, t))
  {
    var s' := AdvanceAny(own, good, s, t);
    forall id | id in s'.seen ensures EntrySourced(own, good, seen0, ms, Stamp(id, s'.seen[id])) {
      if !(id in s.seen && s.seen[id] == s'.seen[id]) {
        NewEntryWritten(own, good, s, t, id);
        assert Writes(own, good, ms, t);
      }
    }
    CallsKept(own, good, ms, s, t);
  }

  lemma NewEntryWritten(own: nat -> bool, good: nat -> bool, s: Shared, t: nat, id: string)
    requires var s' := AdvanceAny(own, good, s, t); id in s'.seen && !(id in s.seen && s.seen[id] == s'.seen[id])
    ensures t < |s.calls| && (own(t) || s.calls[t].phase == Verified)
    ensures StampOf(s.calls[t].msg) == Stamp(id, AdvanceAny(own, good, s, t).seen[id])
  {}

  lemma CallsKept(own: nat -> bool, good: nat -> bool, ms: seq<Message>, s: Shared, t: nat)
    requires CallsOf(own, good, ms, s)
    ensures CallsOf(own, good, ms, AdvanceAny(own, good, s, t))
  {}

  lemma {:induction false} SourcedOverRun(own: nat -> bool, good: nat -> bool, seen0: Seen, ms: seq<Message>,
                                          schedule: seq<nat>)
    ensures Sourced(own, good, seen0, ms, RunAny(own, good, Start(seen0, ms), schedule))
  {
    if schedule != [] {
      var k := |schedule| - 1;
      SourcedOverRun(own, good, seen0, ms, schedule[..k]);
      SourcedKept(own, good, seen0, ms, RunAny(own, good, Start(seen0, ms), schedule[..k]), schedule[k]);
    }
  }

  lemma StepNotBack(own: nat -> bool, good: nat -> bool, seen0: Seen, ms: seq<Message>, s: Shared, t: nat)
    requires Sourced(own, good, seen0, ms, s) && forall x: nat, u: nat :: !Overtaken(own, good, seen0, ms, x, u)
    ensures NotBack(s.seen, AdvanceAny(own, good, s, t).seen)
  {
    if t < |ms| && own(t) && ms[t].id in s.seen {
      assert EntrySourced(own, good, seen0, ms, Stamp(ms[t].id, s.seen[ms[t].id]));
      if u: nat :| Writes(own, good, ms, u) && StampOf(ms[u]) == Stamp(ms[t].id, s.seen[ms[t].id]) {
        assert !Overtaken(own, good, seen0, ms, t, u);
      } else {
        assert !Overtaken(own, good, seen0, ms, t, t);
      }
    }
  }

  // An overtaken announcement takes the table back

  lemma TakenBack(own: nat -> bool, good: nat -> bool, seen0: Seen, ms: seq<Message>, t: nat, u: nat)
    requires Overtaken(own, good, seen0, ms, t, u)
    ensures !NeverBack(own, good, seen0, ms)
  {
    var s0, id := Start(seen0, ms), ms[t].id;
    if id in seen0 && ms[t].ts < seen0[id] {
      assert RunAny(own, good, s0, []) == s0;
      assert !NotBack(s0.seen, AdvanceAny(own, good, s0, t).seen);
    } else {
      assert [u, u][..1] == [u] && [u][..0] == [];
      assert RunAny(own, good, s0, []) == s0;
      var s1 := AdvanceAny(own, good, s0, u);
      var s2 := AdvanceAny(own, good, s1, u);
      assert RunAny(own, good, s0, [u]) == s1;
      assert RunAny(own, good, s0, [u, u]) == s2;
      assert id in s2.seen && s2.seen[id] == ms[u].ts && s2.calls[t].phase == Arrived;
      assert !NotBack(s2.seen, AdvanceAny(own, good, s2, t).seen);
    }
  }

  /**
  The table never goes back in any interleaving of receives and announcements, exactly when every announcement is at
  least as new as the table it finds and as every other call of its ID that can write.
  */
  lemma NeverBackIffNotOvertaken(own: nat -> bool, good: nat -> bool, seen0: Seen, ms: seq<Message>)
    ensures NeverBack(own, good, seen0, ms) <==> forall t: nat, u: nat :: !Overtaken(own, good, seen0, ms, t, u)
  {
    if forall t: nat, u: nat :: !Overtaken(own, good, seen0, ms, t, u) {
      forall schedule, t: nat
        ensures NotBack(RunAny(own, good, Start(seen0, ms), schedule).seen,
                        AdvanceAny(own, good, RunAny(own, good, Start(seen0, ms), schedule), t).seen)
      {
        SourcedOverRun(own, good, seen0, ms, schedule);
        StepNotBack(own, good, seen0, ms, RunAny(own, good, Start(seen0, ms), schedule), t);
      }
    } else {
      var t: nat, u: nat :| Overtaken(own, good, seen0, ms, t, u);
      TakenBack(own, good, seen0, ms, t, u);
    }
  }
}
