/** What a pass of evict removes, and that passes come to an end. */
module Eviction {
  import opened Sequences

  import opened RegistryModel
  import opened Structure

  /** A pass can always draw its victims. */
  lemma {:induction false} DrawExists(from: set<Loc>, n: nat) returns (locs: seq<Loc>)
    requires n <= |from|
    ensures Distinct(locs) && |locs| == n && forall l :: l in locs ==> l in from
  {
    if n == 0 {
      locs := [];
    } else {
      var l :| l in from;
      var rest := DrawExists(from - {l}, n - 1);
      locs := rest + [l];
    }
  }

  lemma EvictAlwaysEnabled(s: State, now: int) returns (locs: seq<Loc>)
    ensures EvictChoice(s, now, locs)
  {
    locs := DrawExists(ExpiredLocs(s, now), EvictCount(s, now));
  }

  lemma RemovalSizes(all: set<Loc>, expired: set<Loc>, gone: set<Loc>, left: set<Loc>)
    requires gone <= expired <= all && left == all - gone
    requires |gone| == Min(|expired|, EvictionLimit(|all|))
    ensures all - left == gone
    ensures |left| == |all| - |gone| && |left| >= 17 * |all| / 20
  {
    assert all - left == gone;
    SubsetSize(gone, all);
  }

  /** For every random draw one pass removes exactly
      min(expired, size - floor(17 * size / 20)) instances, all of them expired,
      and leaves the others as they were. */
  lemma EvictRemovesExactly(s: State, now: int, locs: seq<Loc>, picks: seq<string>, zones: iset<string>)
    requires StructuredIn(s, zones) && WildcardFree(zones)
    requires EvictChoice(s, now, locs) && |picks| == |locs|
    ensures
      var s' := Evict(s, now, locs, picks);
      var size := |AllLocs(s)|;
      && AllLocs(s') <= AllLocs(s)
      && AllLocs(s) - AllLocs(s') <= ExpiredLocs(s, now)
      && |AllLocs(s) - AllLocs(s')| == Min(|ExpiredLocs(s, now)|, size - 17 * size / 20)
      && |AllLocs(s')| == size - Min(|ExpiredLocs(s, now)|, size - 17 * size / 20)
      && |AllLocs(s')| >= 17 * size / 20
      && forall l | Has(s', l) :: Holder(s', l) == Holder(s, l)
  {
    EvictRemoves(s, now, locs, picks, zones);
    DistinctElements(locs);
    RemovalSizes(AllLocs(s), ExpiredLocs(s, now), Elements(locs), AllLocs(Evict(s, now, locs, picks)));
  }

  /** A pass with anything to remove removes something. */
  lemma EvictMakesProgress(s: State, now: int, locs: seq<Loc>, picks: seq<string>, zones: iset<string>)
    requires StructuredIn(s, zones) && WildcardFree(zones)
    requires EvictChoice(s, now, locs) && |picks| == |locs|
    ensures
      var s' := Evict(s, now, locs, picks);
      |AllLocs(s')| < |AllLocs(s)| <==> ExpiredLocs(s, now) != {}
  {
    EvictRemovesExactly(s, now, locs, picks, zones);
    SubsetSize(ExpiredLocs(s, now), AllLocs(s));
  }
}
