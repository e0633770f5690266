/**
The claim orders the table of newest time stamps but not the applies, which run outside the lock. Exactly when the
last envelope applied under each ID is still the newest one, and exactly when the subnets come out right all the same.
*/
module ApplyOrder {
  import opened Claims
  import opened ConcurrentReceive
  import opened Ledgers
  import opened Messages
  import opened Planes

  /** No later entry of the log is about the same ID. */
  ghost predicate LastOfId(log: seq<Message>, i: nat) {
    i < |log| && forall j :: i < j < |log| ==> log[j].id != log[i].id
  }

  /** The last message applied under each ID carries the time stamp the table ends with. */
  ghost predicate LogAtNewest(s: Shared) {
    forall i: nat :: LastOfId(s.applied, i) ==> s.applied[i].id in s.seen && s.applied[i].ts == s.seen[s.applied[i].id]
  }

  /** Two verified calls under one ID, both news, with different time stamps; `t` has the older one. */
  predicate Racing(good: nat -> bool, seen0: Seen, ms: seq<Message>, t: nat, u: nat) {
    && t < |ms| && u < |ms| && good(t) && good(u) && ms[t].id == ms[u].id && ms[t].ts < ms[u].ts
    && Newer(seen0, StampOf(ms[t])) && Newer(seen0, StampOf(ms[u]))
  }

  lemma NoRaceNoLoss(good: nat -> bool, seen0: Seen, ms: seq<Message>, schedule: seq<nat>)
    requires forall t: nat, u: nat :: !Racing(good, seen0, ms, t, u)
    requires Finished(Run(good, Start(seen0, ms), schedule))
    ensures LogAtNewest(Run(good, Start(seen0, ms), schedule))
  {
    var s := Run(good, Start(seen0, ms), schedule);
    FinalTable(good, seen0, ms, schedule);
    forall i: nat | LastOfId(s.applied, i)
      ensures s.applied[i].id in s.seen && s.applied[i].ts == s.seen[s.applied[i].id]
    {
      var m := s.applied[i];
      assert m in s.applied;
      var t: nat :| t < |ms| && good(t) && ms[t] == m;
      var x :| x in s.applied && StampOf(x) == Stamp(m.id, s.seen[m.id]);
      var u: nat :| u < |ms| && good(u) && ms[u] == x;
      assert !Racing(good, seen0, ms, t, u);
    }
  }

  // The interleaving that goes wrong

  /** Four steps of every call below `n` except `t`. */
  function Rounds(n: nat, t: nat): seq<nat> {
    if n == 0 then [] else Rounds(n - 1, t) + if n - 1 == t then [] else [n - 1, n - 1, n - 1, n - 1]
  }

  lemma {:induction false} RunConcat(good: nat -> bool, s: Shared, a: seq<nat>, b: seq<nat>)
    ensures Run(good, s, a + b) == Run(good, Run(good, s, a), b)
  {
    if b == [] {
      assert a + b == a;
    } else {
      RunConcat(good, s, a, b[..|b| - 1]);
      assert (a + b)[..|a + b| - 1] == a + b[..|b| - 1];
    }
  }

  lemma RunTwo(good: nat -> bool, s: Shared, k: nat)
    ensures Run(good, s, [k, k]) == Advance(good, Advance(good, s, k), k)
  {
    assert [k, k][..1] == [k] && [k][..0] == [];
    assert Run(good, s, []) == s;
    assert Run(good, s, [k]) == Advance(good, s, k);
  }

  predicate Over(c: Call) {
    c.phase in {Rejected, Dropped, Forwarded}
  }

  /** How many steps a call can still take. */
  function Left(p: Phase): nat {
    match p
    case Arrived => 4
    case Verified => 3
    case Won => 2
    case Done => 1
    case _ => 0
  }

  /** Only call `k` moved, and it is at least `d` steps further or over. */
  predicate Progress(s: Shared, s': Shared, k: nat, d: nat) {
    && |s'.calls| == |s.calls| && k < |s.calls|
    && (forall j :: 0 <= j < |s.calls| && j != k ==> s'.calls[j] == s.calls[j])
    && (Left(s'.calls[k].phase) == 0 || Left(s'.calls[k].phase) + d <= Left(s.calls[k].phase))
  }

  lemma StepProgress(good: nat -> bool, s: Shared, k: nat)
    requires k < |s.calls|
    ensures Progress(s, Advance(good, s, k), k, 1)
  {}

  lemma TwoStepsProgress(good: nat -> bool, s: Shared, k: nat)
    requires k < |s.calls|
    ensures Progress(s, Run(good, s, [k, k]), k, 2)
  {
    RunTwo(good, s, k);
    StepProgress(good, s, k);
    StepProgress(good, Advance(good, s, k), k);
  }

  lemma FourStepsFinish(good: nat -> bool, s: Shared, k: nat)
    requires k < |s.calls|
    ensures var s' := Run(good, s, [k, k, k, k]);
            && |s'.calls| == |s.calls| && Over(s'.calls[k])
            && forall j :: 0 <= j < |s.calls| && j != k ==> s'.calls[j] == s.calls[j]
  {
    assert [k, k, k, k] == [k, k] + [k, k];
    RunConcat(good, s, [k, k], [k, k]);
    TwoStepsProgress(good, s, k);
    TwoStepsProgress(good, Run(good, s, [k, k]), k);
  }

  predicate RoundsDone(s: Shared, s': Shared, n: nat, t: nat) {
    && n <= |s.calls| == |s'.calls| && t < |s.calls| && s'.calls[t] == s.calls[t]
    && forall j :: 0 <= j < n && j != t ==> Over(s'.calls[j])
  }

  lemma OneMoreRound(good: nat -> bool, s: Shared, done: seq<nat>, all: seq<nat>, k: nat, t: nat)
    requires RoundsDone(s, Run(good, s, done), k, t) && k < |s.calls| && k != t && all == done + [k, k, k, k]
    ensures RoundsDone(s, Run(good, s, all), k + 1, t)
  {
    RunConcat(good, s, done, [k, k, k, k]);
    FourStepsFinish(good, Run(good, s, done), k);
  }

  lemma RoundsStep(n: nat, t: nat)
    requires n != 0
    ensures Rounds(n, t) == if n - 1 == t then Rounds(n - 1, t) else Rounds(n - 1, t) + [n - 1, n - 1, n - 1, n - 1]
  {}

  lemma {:induction false} RoundsFinish(good: nat -> bool, s: Shared, n: nat, t: nat, rounds: seq<nat>)
    requires n <= |s.calls| && t < |s.calls| && rounds == Rounds(n, t)
    ensures RoundsDone(s, Run(good, s, rounds), n, t)
    decreases n
  {
    if n != 0 {
      var done := Rounds(n - 1, t);
      RoundsStep(n, t);
      RoundsFinish(good, s, n - 1, t, done);
      if n - 1 != t {
        OneMoreRound(good, s, done, rounds, n - 1, t);
      }
    }
  }

  /** The call is verified and wins; then it waits. */
  lemma FirstToClaim(good: nat -> bool, seen0: Seen, ms: seq<Message>, t: nat)
    requires t < |ms| && good(t) && Newer(seen0, StampOf(ms[t]))
    ensures var s := Run(good, Start(seen0, ms), [t, t]); |s.calls| == |ms| && s.calls[t] == Call(ms[t], Won)
  {
    RunTwo(good, Start(seen0, ms), t);
  }

  lemma LastToApply(good: nat -> bool, s: Shared, t: nat)
    requires t < |s.calls| && s.calls[t].phase == Won && forall j :: 0 <= j < |s.calls| && j != t ==> Over(s.calls[j])
    ensures var s' := Run(good, s, [t, t]); Finished(s') && s'.applied == s.applied + [s.calls[t].msg]
  {
    RunTwo(good, s, t);
    StepProgress(good, s, t);
    StepProgress(good, Advance(good, s, t), t);
  }

  /** Whatever other calls there are: any verified call that is news can claim first and apply last. */
  lemma AnyNewsAppliedLast(good: nat -> bool, seen0: Seen, ms: seq<Message>, t: nat) returns (schedule: seq<nat>)
    requires t < |ms| && good(t) && Newer(seen0, StampOf(ms[t]))
    ensures var s := Run(good, Start(seen0, ms), schedule);
            Finished(s) && s.applied != [] && s.applied[|s.applied| - 1] == ms[t]
  {
    var s0 := Start(seen0, ms);
    var s1 := Run(good, s0, [t, t]);
    var s2 := Run(good, s1, Rounds(|ms|, t));
    FirstToClaim(good, seen0, ms, t);
    RoundsFinish(good, s1, |ms|, t, Rounds(|ms|, t));
    LastToApply(good, s2, t);
    RunConcat(good, s0, [t, t], Rounds(|ms|, t));
    RunConcat(good, s0, [t, t] + Rounds(|ms|, t), [t, t]);
    schedule := [t, t] + Rounds(|ms|, t) + [t, t];
  }

  lemma OlderAppliedLast(good: nat -> bool, seen0: Seen, ms: seq<Message>, t: nat, u: nat) returns (schedule: seq<nat>)
    requires Racing(good, seen0, ms, t, u)
    ensures var s := Run(good, Start(seen0, ms), schedule); Finished(s) && !LogAtNewest(s)
  {
    schedule := AnyNewsAppliedLast(good, seen0, ms, t);
    var s := Run(good, Start(seen0, ms), schedule);
    FinalTable(good, seen0, ms, schedule);
    assert Passed(good, ms, ms[u]);
    assert LastOfId(s.applied, |s.applied| - 1);
  }

  /**
  For any calls on any table: in every finished interleaving the applies end at the newest claim of each ID, exactly
  when no two verified calls of one ID that are news have different time stamps.
  */
  lemma LogAtNewestIffNoRace(good: nat -> bool, seen0: Seen, ms: seq<Message>)
    ensures (forall schedule :: Finished(Run(good, Start(seen0, ms), schedule)) ==>
               LogAtNewest(Run(good, Start(seen0, ms), schedule)))
            <==> forall t: nat, u: nat :: !Racing(good, seen0, ms, t, u)
  {
    if forall t: nat, u: nat :: !Racing(good, seen0, ms, t, u) {
      forall schedule | Finished(Run(good, Start(seen0, ms), schedule))
        ensures LogAtNewest(Run(good, Start(seen0, ms), schedule))
      {
        NoRaceNoLoss(good, seen0, ms, schedule);
      }
    } else {
      var t: nat, u: nat :| Racing(good, seen0, ms, t, u);
      var schedule := OlderAppliedLast(good, seen0, ms, t, u);
    }
  }

  // The subnets that the applies leave

  /** Who holds what after applying the log. */
  function HeldAfter(held: set<(string, string)>, log: seq<Message>): set<(string, string)> {
    if log == [] then held else Posted(HeldAfter(held, log[..|log| - 1]), log[|log| - 1].body)
  }

  predicate About(b: Body, owner: string, subnet: string) {
    b == AddSubnet(owner, subnet) || b == DelSubnet(owner, subnet)
  }

  /** When all that the log says about a subnet is the same, and something is, that is how it stands. */
  lemma {:induction false} SameWordHolds(held: set<(string, string)>, log: seq<Message>, o: string, s: string, b: Body)
    requires About(b, o, s) && forall i :: 0 <= i < |log| && About(log[i].body, o, s) ==> log[i].body == b
    requires exists i :: 0 <= i < |log| && About(log[i].body, o, s)
    ensures (o, s) in HeldAfter(held, log) <==> b.AddSubnet?
  {
    var before, last := log[..|log| - 1], log[|log| - 1];
    if !About(last.body, o, s) {
      var i :| 0 <= i < |log| && About(log[i].body, o, s);
      assert before[i] == log[i];
      assert forall j :: 0 <= j < |before| ==> before[j] == log[j];
      SameWordHolds(held, before, o, s, b);
    }
  }

  predicate News(good: nat -> bool, seen0: Seen, ms: seq<Message>, t: nat) {
    t < |ms| && good(t) && Newer(seen0, StampOf(ms[t]))
  }

  /** The call is verified and news, and no such call of its ID is newer. */
  ghost predicate NewestNews(good: nat -> bool, seen0: Seen, ms: seq<Message>, u: nat) {
    News(good, seen0, ms, u)
    && forall t: nat :: News(good, seen0, ms, t) && ms[t].id == ms[u].id ==> ms[t].ts <= ms[u].ts
  }

  /** Each subnet stands as every newest verified call about it says. */
  ghost predicate SubnetsRight(good: nat -> bool, seen0: Seen, ms: seq<Message>, held: set<(string, string)>) {
    forall u: nat :: NewestNews(good, seen0, ms, u) && IsSubnetBody(ms[u].body) ==>
      ((ms[u].body.owner, ms[u].body.subnet) in held <==> ms[u].body.AddSubnet?)
  }

  /** No verified call that is news about a subnet says anything else than a newest one. */
  ghost predicate BodiesAgree(good: nat -> bool, seen0: Seen, ms: seq<Message>) {
    forall t: nat, u: nat ::
      News(good, seen0, ms, t) && NewestNews(good, seen0, ms, u) && ms[t].id == ms[u].id && IsSubnetBody(ms[u].body) ==>
        ms[t].body == ms[u].body
  }

  ghost predicate GoodAreHonest(good: nat -> bool, ms: seq<Message>) {
    forall t: nat :: t < |ms| && good(t) ==> Honest(ms[t])
  }

  lemma AppliedIsNews(good: nat -> bool, seen0: Seen, ms: seq<Message>, schedule: seq<nat>, m: Message) returns (t: nat)
    requires Finished(Run(good, Start(seen0, ms), schedule)) && m in Run(good, Start(seen0, ms), schedule).applied
    ensures News(good, seen0, ms, t) && ms[t] == m
  {
    FinalTable(good, seen0, ms, schedule);
    t :| t < |ms| && good(t) && ms[t] == m;
  }

  lemma SomethingApplied(good: nat -> bool, seen0: Seen, ms: seq<Message>, schedule: seq<nat>, u: nat) returns (i: nat)
    requires Finished(Run(good, Start(seen0, ms), schedule)) && News(good, seen0, ms, u)
    ensures var log := Run(good, Start(seen0, ms), schedule).applied; i < |log| && log[i].id == ms[u].id
  {
    var s := Run(good, Start(seen0, ms), schedule);
    FinalTable(good, seen0, ms, schedule);
    assert Passed(good, ms, ms[u]);
    var x :| x in s.applied && StampOf(x) == Stamp(ms[u].id, s.seen[ms[u].id]);
    i :| 0 <= i < |s.applied| && s.applied[i] == x;
  }

  lemma AgreeingComesOut(good: nat -> bool, seen0: Seen, ms: seq<Message>, held: set<(string, string)>,
                         schedule: seq<nat>, u: nat)
    requires GoodAreHonest(good, ms) && BodiesAgree(good, seen0, ms)
    requires Finished(Run(good, Start(seen0, ms), schedule))
    requires NewestNews(good, seen0, ms, u) && IsSubnetBody(ms[u].body)
    ensures (ms[u].body.owner, ms[u].body.subnet) in HeldAfter(held, Run(good, Start(seen0, ms), schedule).applied) <==>
              ms[u].body.AddSubnet?
  {
    var log, b := Run(good, Start(seen0, ms), schedule).applied, ms[u].body;
    forall i | 0 <= i < |log|
      ensures (About(log[i].body, b.owner, b.subnet) <==> log[i].id == ms[u].id)
      ensures About(log[i].body, b.owner, b.subnet) ==> log[i].body == b
    {
      var t := AppliedIsNews(good, seen0, ms, schedule, log[i]);
      HonestSameId(ms[u], ms[t], b.owner, b.subnet);
    }
    var i := SomethingApplied(good, seen0, ms, schedule, u);
    SameWordHolds(held, log, b.owner, b.subnet, b);
  }

  lemma DifferingComesOutWrong(good: nat -> bool, seen0: Seen, ms: seq<Message>, held: set<(string, string)>, t: nat,
                               u: nat) returns (schedule: seq<nat>)
    requires GoodAreHonest(good, ms) && News(good, seen0, ms, t) && NewestNews(good, seen0, ms, u)
    requires ms[t].id == ms[u].id && IsSubnetBody(ms[u].body) && ms[t].body != ms[u].body
    ensures var s := Run(good, Start(seen0, ms), schedule);
            Finished(s) && !SubnetsRight(good, seen0, ms, HeldAfter(held, s.applied))
  {
    schedule := AnyNewsAppliedLast(good, seen0, ms, t);
    var log, b := Run(good, Start(seen0, ms), schedule).applied, ms[u].body;
    HonestSameId(ms[u], ms[t], b.owner, b.subnet);
    assert HeldAfter(held, log) == Posted(HeldAfter(held, log[..|log| - 1]), ms[t].body);
  }

  /**
  For any honest calls, on any table and any graph: in every finished interleaving each subnet stands as the newest
  verified call about it says, exactly when no verified call that is news about a subnet says anything else than a
  newest one. Repeated announcements of the same thing race without harm.
  */
  lemma SubnetsRightIffBodiesAgree(good: nat -> bool, seen0: Seen, ms: seq<Message>, held: set<(string, string)>)
    requires GoodAreHonest(good, ms)
    ensures (forall schedule :: Finished(Run(good, Start(seen0, ms), schedule)) ==>
               SubnetsRight(good, seen0, ms, HeldAfter(held, Run(good, Start(seen0, ms), schedule).applied)))
            <==> BodiesAgree(good, seen0, ms)
  {
    if BodiesAgree(good, seen0, ms) {
      forall schedule | Finished(Run(good, Start(seen0, ms), schedule))
        ensures SubnetsRight(good, seen0, ms, HeldAfter(held, Run(good, Start(seen0, ms), schedule).applied))
      {
        forall u: nat | NewestNews(good, seen0, ms, u) && IsSubnetBody(ms[u].body)
          ensures var log := Run(good, Start(seen0, ms), schedule).applied;
                  (ms[u].body.owner, ms[u].body.subnet) in HeldAfter(held, log) <==> ms[u].body.AddSubnet?
        {
          AgreeingComesOut(good, seen0, ms, held, schedule, u);
        }
      }
    } else {
      var t: nat, u: nat :| News(good, seen0, ms, t) && NewestNews(good, seen0, ms, u) && ms[t].id == ms[u].id
        && IsSubnetBody(ms[u].body) && ms[t].body != ms[u].body;
      var schedule := DifferingComesOutWrong(good, seen0, ms, held, t, u);
    }
  }
}
