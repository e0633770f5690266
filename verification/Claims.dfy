/** The table of newest time stamps on its own: what any sequence of claims leaves in it. */
module Claims {
  type Seen = map<string, int>

  /** The ID and time stamp of an envelope. */
  datatype Stamp = Stamp(id: string, ts: int)

  /** The time stamp is strictly newer than the newest one seen under the ID. */
  predicate Newer(seen: Seen, s: Stamp) {
    s.id !in seen || seen[s.id] < s.ts
  }

  function Claimed(seen: Seen, s: Stamp): Seen {
    if Newer(seen, s) then seen[s.id := s.ts] else seen
  }

  /** The table after claiming the stamps in order. */
  function ClaimAll(stamps: seq<Stamp>): Seen {
    if stamps == [] then map[] else Claimed(ClaimAll(stamps[..|stamps| - 1]), stamps[|stamps| - 1])
  }

  /** The stamp at place `i` is newer than the one at `j`, or as new and before it, or about another ID. */
  predicate Beats(a: Stamp, i: int, b: Stamp, j: int) {
    a.id == b.id ==> b.ts < a.ts || (b.ts == a.ts && i <= j)
  }

  /** Stamp `i` is the first with the highest time stamp of its ID. */
  ghost predicate Wins(stamps: seq<Stamp>, i: nat) {
    i < |stamps| && forall j :: 0 <= j < |stamps| ==> Beats(stamps[i], i, stamps[j], j)
  }

  ghost predicate Covers(seen: Seen, stamps: seq<Stamp>) {
    forall i :: 0 <= i < |stamps| ==> stamps[i].id in seen && stamps[i].ts <= seen[stamps[i].id]
  }

  ghost predicate Attained(seen: Seen, stamps: seq<Stamp>) {
    forall id :: id in seen ==> exists i: nat :: Wins(stamps, i) && stamps[i] == Stamp(id, seen[id])
  }

  lemma WinsAppended(before: seq<Stamp>, s: Stamp, i: nat)
    requires i < |before|
    ensures Wins(before + [s], i) <==> Wins(before, i) && Beats(before[i], i, s, |before|)
  {
    var all := before + [s];
    assert all[i] == before[i] && all[|before|] == s;
    assert forall j :: 0 <= j < |before| ==> all[j] == before[j];
  }

  /** A newer stamp becomes the winner of its ID; any other leaves the winners as they were. */
  lemma WinnersAfter(seen: Seen, before: seq<Stamp>, s: Stamp)
    requires Covers(seen, before) && Attained(seen, before)
    ensures Wins(before + [s], |before|) <==> Newer(seen, s)
    ensures forall i: nat :: i < |before| ==>
              (Wins(before + [s], i) <==> Wins(before, i) && !(Newer(seen, s) && before[i].id == s.id))
  {
    var all := before + [s];
    assert all[|before|] == s && forall j :: 0 <= j < |before| ==> all[j] == before[j];
    if !Newer(seen, s) {
      var w: nat :| Wins(before, w) && before[w] == Stamp(s.id, seen[s.id]);
      assert !Beats(s, |before|, all[w], w);
      forall i: nat | i < |before| && Wins(before, i) ensures Beats(before[i], i, s, |before|) {
        assert Beats(before[i], i, before[w], w);
      }
    }
    forall i: nat | i < |before|
      ensures Wins(all, i) <==> Wins(before, i) && !(Newer(seen, s) && before[i].id == s.id)
    {
      WinsAppended(before, s, i);
    }
  }

  lemma OneMoreCovered(seen: Seen, before: seq<Stamp>, s: Stamp)
    requires Covers(seen, before)
    ensures Covers(Claimed(seen, s), before + [s])
  {
    var all := before + [s];
    assert all[|before|] == s && forall i :: 0 <= i < |before| ==> all[i] == before[i];
  }

  lemma OneMoreAttained(seen: Seen, before: seq<Stamp>, s: Stamp)
    requires Covers(seen, before) && Attained(seen, before)
    ensures Attained(Claimed(seen, s), before + [s])
  {
    var all := before + [s];
    WinnersAfter(seen, before, s);
    forall id | id in Claimed(seen, s)
      ensures exists i: nat :: Wins(all, i) && all[i] == Stamp(id, Claimed(seen, s)[id])
    {
      if id == s.id && Newer(seen, s) {
        assert Wins(all, |before|);
      } else {
        var i: nat :| Wins(before, i) && before[i] == Stamp(id, seen[id]);
        assert Wins(all, i) && all[i] == before[i];
      }
    }
  }

  /** The table holds for every ID the highest time stamp claimed, and nothing else. */
  lemma {:induction false} ClaimAllIsNewest(stamps: seq<Stamp>)
    ensures Covers(ClaimAll(stamps), stamps) && Attained(ClaimAll(stamps), stamps)
  {
    if stamps != [] {
      var before, s := stamps[..|stamps| - 1], stamps[|stamps| - 1];
      ClaimAllIsNewest(before);
      OneMoreCovered(ClaimAll(before), before, s);
      OneMoreAttained(ClaimAll(before), before, s);
      assert before + [s] == stamps;
    }
  }
}
