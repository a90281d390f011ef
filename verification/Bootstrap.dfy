/** Bootstrap by merging peers' snapshots: what any arrival order produces, when
    the order does not matter, and the round trip of a complete snapshot. */
module Bootstrap {
  import opened Sequences
  import opened Wrappers

  import opened Instances
  import opened RegistryModel
  import opened Structure
  import opened GuardAccounting

  /** Registering a list of instances, each under its own LatestTimestamp. */
  function RegisterAll(s: State, list: seq<Instance>): State
    decreases |list|
  {
    if list == [] then s
    else
      var n := |list| - 1;
      Register(RegisterAll(s, list[..n]), list[n], list[n].latestTs)
  }

  /** The instances of a list that belong at one path, in order. */
  function Arrivals(list: seq<Instance>, l: Loc): seq<Instance> {
    if list == [] then []
    else
      var n := |list| - 1;
      if LocOf(list[n]) == l then Arrivals(list[..n], l) + [list[n]] else Arrivals(list[..n], l)
  }

  /** One path's history of merges. */
  function MergeAll(h: Option<Instance>, a: seq<Instance>): Option<Instance>
    decreases |a|
  {
    if a == [] then h else Some(Merge(MergeAll(h, a[..|a| - 1]), a[|a| - 1]))
  }

  lemma {:induction false} HolderAfterAll(s: State, list: seq<Instance>, l: Loc)
    ensures Holder(RegisterAll(s, list), l) == MergeAll(Holder(s, l), Arrivals(list, l))
  {
    if list != [] {
      var n := |list| - 1;
      HolderAfterAll(s, list[..n], l);
      RegisterHolder(RegisterAll(s, list[..n]), list[n], list[n].latestTs, l);
      var a := Arrivals(list[..n], l);
      assert (a + [list[n]])[..|a|] == a;
    }
  }

  // ----- the winner at one path -----

  predicate Maximal(a: seq<Instance>, w: nat)
    requires w < |a|
  {
    forall j :: 0 <= j < |a| ==> a[j].latestTs <= a[w].latestTs
  }

  /** The last arrival with the largest LatestTimestamp. */
  predicate LastMaximal(a: seq<Instance>, w: nat)
    requires w < |a|
  {
    Maximal(a, w) && forall j :: w < j < |a| ==> a[j].latestTs < a[w].latestTs
  }

  /** A path first filled by this list ends up with the arrival of largest
      LatestTimestamp, the last such one, under the first arrival's UpTimestamp. */
  lemma {:induction false} Winner(a: seq<Instance>) returns (w: nat)
    requires a != []
    ensures w < |a| && LastMaximal(a, w)
    ensures MergeAll(None, a) == Some(a[w].(upTs := a[0].upTs))
  {
    var n := |a| - 1;
    if n == 0 {
      w := 0;
      assert MergeAll(None, a[..0]) == None;
    } else {
      w := Winner(a[..n]);
      var o := a[..n][w];
      if a[n].latestTs >= o.latestTs {
        w := n;
      }
    }
  }

  /** A path that was occupied before behaves as if its holder had arrived first. */
  lemma {:induction false} OccupiedIsFirst(o: Instance, a: seq<Instance>)
    ensures MergeAll(Some(o), a) == MergeAll(None, [o] + a)
    decreases |a|
  {
    if a == [] {
      assert [o] + a == [o];
      assert MergeAll(None, [o][..0]) == None;
    } else {
      var n := |a| - 1;
      OccupiedIsFirst(o, a[..n]);
      assert ([o] + a)[..n + 1] == [o] + a[..n];
    }
  }

  /** After any merge, every path holds the largest LatestTimestamp among what it
      held and what arrived, with the UpTimestamp of whichever came first. */
  lemma {:induction false} MergeKeepsNewest(s: State, list: seq<Instance>, l: Loc) returns (w: nat)
    requires Has(s, l) || Arrivals(list, l) != []
    ensures
      var all := (if Has(s, l) then [Holder(s, l).value] else []) + Arrivals(list, l);
      && w < |all| && LastMaximal(all, w)
      && Holder(RegisterAll(s, list), l) == Some(all[w].(upTs := all[0].upTs))
  {
    var a := Arrivals(list, l);
    HolderAfterAll(s, list, l);
    if Has(s, l) {
      OccupiedIsFirst(Holder(s, l).value, a);
      w := Winner([Holder(s, l).value] + a);
    } else {
      assert [] + a == a;
      w := Winner(a);
    }
  }

  // ----- order independence -----

  ghost predicate SameButUp(i: Instance, j: Instance) {
    i.(upTs := 0) == j.(upTs := 0)
  }

  ghost predicate SameHolder(x: Option<Instance>, y: Option<Instance>) {
    (x.None? && y.None?) || (x.Some? && y.Some? && SameButUp(x.value, y.value))
  }

  /** All arrivals that tie for the largest LatestTimestamp say the same. */
  ghost predicate MaximaAgree(a: seq<Instance>) {
    forall i, j | 0 <= i < |a| && 0 <= j < |a| && Maximal(a, i) && Maximal(a, j) :: SameButUp(a[i], a[j])
  }

  lemma {:induction false} ArrivalsCount(list: seq<Instance>, l: Loc, x: Instance)
    ensures multiset(Arrivals(list, l))[x] == if LocOf(x) == l then multiset(list)[x] else 0
  {
    if list != [] {
      var n := |list| - 1;
      ArrivalsCount(list[..n], l, x);
      assert list == list[..n] + [list[n]];
    }
  }

  lemma PermutedArrivals(list: seq<Instance>, list': seq<Instance>, l: Loc)
    requires multiset(list) == multiset(list')
    ensures multiset(Arrivals(list, l)) == multiset(Arrivals(list', l))
  {
    forall x ensures multiset(Arrivals(list, l))[x] == multiset(Arrivals(list', l))[x] {
      ArrivalsCount(list, l, x);
      ArrivalsCount(list', l, x);
    }
  }

  lemma PermutedMaximum(a: seq<Instance>, b: seq<Instance>, w: nat) returns (i: nat)
    requires multiset(a) == multiset(b) && w < |b| && Maximal(b, w)
    ensures i < |a| && a[i] == b[w] && Maximal(a, i)
  {
    assert b[w] in multiset(b);
    assert b[w] in a;
    i :| 0 <= i < |a| && a[i] == b[w];
    forall j | 0 <= j < |a| ensures a[j].latestTs <= a[i].latestTs {
      assert a[j] in multiset(a);
      assert a[j] in b;
    }
  }

  lemma AgreeingWinners(a: seq<Instance>, b: seq<Instance>)
    requires multiset(a) == multiset(b) && MaximaAgree(a)
    ensures SameHolder(MergeAll(None, a), MergeAll(None, b))
  {
    assert |a| == |multiset(a)| == |multiset(b)| == |b|;
    if a != [] {
      var w := Winner(a);
      var v := Winner(b);
      var i := PermutedMaximum(a, b, v);
      assert SameButUp(a[w], a[i]);
    }
  }

  /** A maximal arrival that is moved to the end of the list wins. */
  lemma LastMaximumWins(list: seq<Instance>, l: Loc, m: nat)
    requires m < |list| && LocOf(list[m]) == l
    requires forall x | x in Arrivals(list, l) :: x.latestTs <= list[m].latestTs
    ensures
      var list' := list[..m] + list[m + 1..] + [list[m]];
      && multiset(list') == multiset(list)
      && Holder(RegisterAll(EMPTY, list'), l).Some?
      && SameButUp(Holder(RegisterAll(EMPTY, list'), l).value, list[m])
  {
    var rest := list[..m] + list[m + 1..];
    var list' := rest + [list[m]];
    assert list == list[..m] + [list[m]] + list[m + 1..];
    assert list'[..|rest|] == rest;
    PermutedArrivals(list, list', l);
    HolderAfterAll(EMPTY, list', l);
    var a := Arrivals(list', l);
    assert a == Arrivals(rest, l) + [list[m]];
    forall x | x in a ensures x.latestTs <= list[m].latestTs {
      assert x in multiset(a);
      assert x in Arrivals(list, l);
    }
    var w := Winner(a);
    assert a[|a| - 1] == list[m];
  }

  lemma {:induction false} ArrivalIsInList(list: seq<Instance>, l: Loc, x: Instance) returns (m: nat)
    requires x in Arrivals(list, l)
    ensures m < |list| && list[m] == x && LocOf(x) == l
  {
    ArrivalsCount(list, l, x);
    assert x in multiset(Arrivals(list, l));
    assert x in list;
    m :| 0 <= m < |list| && list[m] == x;
  }

  lemma OtherMaximum(a: seq<Instance>, w: nat) returns (i: nat)
    requires !MaximaAgree(a) && w < |a|
    ensures i < |a| && Maximal(a, i) && !SameButUp(a[w], a[i])
  {
    var j, k :| 0 <= j < |a| && 0 <= k < |a| && Maximal(a, j) && Maximal(a, k) && !SameButUp(a[j], a[k]);
    i := if SameButUp(a[w], a[j]) then k else j;
  }

  lemma DisagreeingOrders(list: seq<Instance>, l: Loc) returns (list': seq<Instance>)
    requires !MaximaAgree(Arrivals(list, l))
    ensures multiset(list') == multiset(list)
    ensures !SameHolder(Holder(RegisterAll(EMPTY, list), l), Holder(RegisterAll(EMPTY, list'), l))
  {
    var a := Arrivals(list, l);
    HolderAfterAll(EMPTY, list, l);
    var w := Winner(a);
    var i := OtherMaximum(a, w);
    var m := ArrivalIsInList(list, l, a[i]);
    LastMaximumWins(list, l, m);
    list' := list[..m] + list[m + 1..] + [list[m]];
  }

  /** Whatever order the peers' instances arrive in, an empty registry ends up
      with the same instances but for UpTimestamps, exactly when no path has two
      arrivals that tie for the largest LatestTimestamp and differ. */
  lemma MergeOrderIndependentIff(list: seq<Instance>)
    ensures (forall l :: MaximaAgree(Arrivals(list, l))) <==>
      (forall list', l | multiset(list') == multiset(list) ::
        SameHolder(Holder(RegisterAll(EMPTY, list), l), Holder(RegisterAll(EMPTY, list'), l)))
  {
    if forall l :: MaximaAgree(Arrivals(list, l)) {
      forall list', l | multiset(list') == multiset(list)
        ensures SameHolder(Holder(RegisterAll(EMPTY, list), l), Holder(RegisterAll(EMPTY, list'), l))
      {
        HolderAfterAll(EMPTY, list, l);
        HolderAfterAll(EMPTY, list', l);
        PermutedArrivals(list, list', l);
        AgreeingWinners(Arrivals(list, l), Arrivals(list', l));
      }
    } else {
      var l :| !MaximaAgree(Arrivals(list, l));
      var list' := DisagreeingOrders(list, l);
    }
  }

  // ----- the snapshot round trip -----

  /** `list` holds every stored instance once; `locs` says where each was. */
  ghost predicate Snapshot(s: State, list: seq<Instance>, locs: seq<Loc>) {
    && |list| == |locs|
    && Distinct(locs)
    && Elements(locs) == AllLocs(s)
    && forall j :: 0 <= j < |list| ==> Holder(s, locs[j]) == Some(list[j])
  }

  lemma {:induction false} RegisterElsewhere(t: State, list: seq<Instance>, l: Loc)
    requires forall j :: 0 <= j < |list| ==> LocOf(list[j]) != l
    ensures Holder(RegisterAll(t, list), l) == Holder(t, l)
    decreases |list|
  {
    if list != [] {
      var n := |list| - 1;
      RegisterElsewhere(t, list[..n], l);
      RegisterHolder(RegisterAll(t, list[..n]), list[n], list[n].latestTs, l);
    }
  }

  /** No other instance of the list belongs where the j-th does. */
  ghost predicate Alone(list: seq<Instance>, j: nat)
    requires j < |list|
  {
    forall i :: 0 <= i < |list| && i != j ==> LocOf(list[i]) != LocOf(list[j])
  }

  lemma {:induction false} RegisterOnce(t: State, list: seq<Instance>, j: nat)
    requires j < |list| && Alone(list, j)
    ensures var l := LocOf(list[j]); Holder(RegisterAll(t, list), l) == Some(Merge(Holder(t, l), list[j]))
    decreases |list|
  {
    var n := |list| - 1;
    RegisterLast(t, list, LocOf(list[j]));
    if j < n {
      AlonePrefix(list, n, j);
      RegisterOnce(t, list[..n], j);
    } else {
      AloneLast(list, n);
      RegisterElsewhere(t, list[..n], LocOf(list[j]));
    }
  }

  lemma AlonePrefix(list: seq<Instance>, n: nat, j: nat)
    requires j < n == |list| - 1 && Alone(list, j)
    ensures list[..n][j] == list[j] && Alone(list[..n], j) && LocOf(list[n]) != LocOf(list[j])
  {}

  lemma AloneLast(list: seq<Instance>, n: nat)
    requires |list| == n + 1 && Alone(list, n)
    ensures forall i :: 0 <= i < n ==> LocOf(list[..n][i]) != LocOf(list[n])
  {}

  lemma RegisterLast(t: State, list: seq<Instance>, l: Loc)
    requires list != []
    ensures
      var n := |list| - 1;
      var before := Holder(RegisterAll(t, list[..n]), l);
      Holder(RegisterAll(t, list), l) == if l == LocOf(list[n]) then Some(Merge(before, list[n])) else before
  {
    var n := |list| - 1;
    RegisterHolder(RegisterAll(t, list[..n]), list[n], list[n].latestTs, l);
  }

  lemma {:induction false} RegisterAllExpectation(t: State, list: seq<Instance>)
    ensures RegisterAll(t, list).gd.expPerMin == t.gd.expPerMin + 2 * (|AllLocs(RegisterAll(t, list))| - |AllLocs(t)|)
    decreases |list|
  {
    if list != [] {
      var n := |list| - 1;
      RegisterAllExpectation(t, list[..n]);
      RegisterExpectation(RegisterAll(t, list[..n]), list[n], list[n].latestTs);
    }
  }

  lemma SnapshotPlaces(s: State, list: seq<Instance>, locs: seq<Loc>, zones: iset<string>)
    requires StructuredIn(s, zones) && Snapshot(s, list, locs)
    ensures forall j :: 0 <= j < |list| ==> LocOf(list[j]) == locs[j]
  {
    forall j | 0 <= j < |list| ensures LocOf(list[j]) == locs[j] {
      AtOwnPath(s, locs[j], zones);
    }
  }

  /** Registering a snapshot into a registry that is empty at, or already agrees
      with, every snapshot path. */
  lemma RegisterSnapshot(s: State, t: State, list: seq<Instance>, locs: seq<Loc>, zones: iset<string>, l: Loc)
    requires StructuredIn(s, zones) && Snapshot(s, list, locs)
    requires Holder(t, l) == None || Holder(t, l) == Holder(s, l)
    ensures Holder(RegisterAll(t, list), l) == Holder(s, l)
  {
    SnapshotPlaces(s, list, locs, zones);
    if Has(s, l) {
      assert l in Elements(locs);
      var j :| 0 <= j < |locs| && locs[j] == l;
      RegisterOnce(t, list, j);
    } else {
      assert l !in Elements(locs);
      forall j | 0 <= j < |list| ensures LocOf(list[j]) != l {
        assert locs[j] in Elements(locs);
      }
      RegisterElsewhere(t, list, l);
    }
  }

  /** Registering all of FetchAll's output in any order rebuilds every path, with
      the expectation of a registry of that size; a second registration, in any
      other order, changes no instance and adds no expectation. */
  lemma SnapshotRoundTrip(s: State, list: seq<Instance>, locs: seq<Loc>, list2: seq<Instance>, locs2: seq<Loc>,
                          zones: iset<string>)
    requires StructuredIn(s, zones) && Snapshot(s, list, locs) && Snapshot(s, list2, locs2)
    ensures
      var t := RegisterAll(EMPTY, list);
      var u := RegisterAll(t, list2);
      && (forall l :: Holder(t, l) == Holder(s, l) && Holder(u, l) == Holder(s, l))
      && AllLocs(t) == AllLocs(s) == AllLocs(u)
      && t.gd.expPerMin == u.gd.expPerMin == 2 * |AllLocs(s)|
  {
    var t := RegisterAll(EMPTY, list);
    var u := RegisterAll(t, list2);
    forall l ensures Holder(t, l) == Holder(s, l) && Holder(u, l) == Holder(s, l) {
      RegisterSnapshot(s, EMPTY, list, locs, zones, l);
      RegisterSnapshot(s, t, list2, locs2, zones, l);
    }
    SameHoldersSameLocs(s, t);
    SameHoldersSameLocs(s, u);
    RegisterAllExpectation(EMPTY, list);
    RegisterAllExpectation(t, list2);
    assert AllLocs(EMPTY) == {};
  }

  lemma SameHoldersSameLocs(s: State, t: State)
    requires forall l :: Holder(t, l) == Holder(s, l)
    ensures AllLocs(t) == AllLocs(s)
  {
    forall l ensures Has(t, l) <==> Has(s, l) {
      assert Holder(t, l) == Holder(s, l);
    }
  }
}
