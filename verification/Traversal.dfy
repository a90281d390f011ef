/** Facts for the loops that walk over the registry's dictionaries: which paths
    have been visited, and how many. */
module Traversal {
  import opened Sequences
  import opened Wrappers

  import opened Instances
  import opened RegistryModel
  import opened Bootstrap

  /** Fetch depends on the entries and scheduler settings only. */
  lemma FetchSameEntries(s: State, t: State, zone: string, env: string, appid: string, lts: int, status: bv32,
                         pick: string)
    requires s.appm == t.appm && s.schedulers == t.schedulers
    ensures Fetch(s, zone, env, appid, lts, status, pick) == Fetch(t, zone, env, appid, lts, status, pick)
    ensures Fetch(s, zone, env, appid, lts, status, pick).Found? <==> Finds(s, zone, env, appid, lts)
  {}

  /** The paths of one App, among the given hosts. */
  ghost function AppLocs(k: string, z: string, hosts: set<string>): set<Loc> {
    set h | h in hosts :: Loc(k, z, h)
  }

  lemma {:induction false} AppLocsSize(k: string, z: string, hosts: set<string>)
    ensures |AppLocs(k, z, hosts)| == |hosts|
    decreases |hosts|
  {
    if hosts != {} {
      var h :| h in hosts;
      AppLocsSize(k, z, hosts - {h});
      assert AppLocs(k, z, hosts) == AppLocs(k, z, hosts - {h}) + {Loc(k, z, h)};
    }
  }

  /** The paths a walk has covered: all of the entries but those in `keys`, and
      of the entry `k` all zones but those in `zones`. */
  ghost function Covered(s: State, keys: set<string>, k: string, zones: set<string>): set<Loc> {
    set l | l in AllLocs(s) && l.key !in keys && (l.key == k ==> l.zone !in zones)
  }

  lemma CoveredStart(s: State)
    ensures Covered(s, s.appm.Keys, "", {}) == {}
  {}

  lemma CoveredEntry(s: State, keys: set<string>, k: string)
    requires k in keys && k in s.appm
    ensures Covered(s, keys - {k}, k, s.appm[k].apps.Keys) == Covered(s, keys, "", {})
  {}

  lemma CoveredZone(s: State, keys: set<string>, k: string, zones: set<string>, z: string)
    requires k !in keys && k in s.appm && z in zones && z in s.appm[k].apps
    ensures
      var here := AppLocs(k, z, s.appm[k].apps[z].instances.Keys);
      && Covered(s, keys, k, zones - {z}) == Covered(s, keys, k, zones) + here
      && Covered(s, keys, k, zones) !! here
      && |Covered(s, keys, k, zones - {z})| == |Covered(s, keys, k, zones)| + |s.appm[k].apps[z].instances|
  {
    var here := AppLocs(k, z, s.appm[k].apps[z].instances.Keys);
    AppLocsSize(k, z, s.appm[k].apps[z].instances.Keys);
    assert Covered(s, keys, k, zones - {z}) == Covered(s, keys, k, zones) + here;
    assert Covered(s, keys, k, zones) !! here;
  }

  lemma CoveredEntryDone(s: State, keys: set<string>, k: string)
    ensures Covered(s, keys, k, {}) == Covered(s, keys, "", {})
  {}

  lemma CoveredAll(s: State)
    ensures Covered(s, {}, "", {}) == AllLocs(s)
  {}

  /** `list` are the copies of the instances at `locs`. */
  ghost predicate CopiesOf(s: State, list: seq<Instance>, locs: seq<Loc>) {
    && |list| == |locs| && Distinct(locs)
    && forall j :: 0 <= j < |list| ==> Holder(s, locs[j]) == Some(list[j])
  }

  lemma CopiesAppend(s: State, list: seq<Instance>, locs: seq<Loc>, list': seq<Instance>, locs': seq<Loc>)
    requires CopiesOf(s, list, locs) && CopiesOf(s, list', locs')
    requires Elements(locs) !! Elements(locs')
    ensures CopiesOf(s, list + list', locs + locs')
    ensures Elements(locs + locs') == Elements(locs) + Elements(locs')
  {
    forall i, j | 0 <= i < |locs| && 0 <= j < |locs'| ensures locs[i] != locs'[j] {
      assert locs[i] in Elements(locs) && locs'[j] in Elements(locs');
    }
  }

  // ----- the grouped output of FetchAll -----

  /** All groups of a snapshot, one after the other in the order `ids`. */
  function Concat<T>(im: map<string, seq<T>>, ids: seq<string>): seq<T>
    requires forall id | id in ids :: id in im
  {
    if ids == [] then []
    else Concat(im, ids[..|ids| - 1]) + im[ids[|ids| - 1]]
  }

  /** Every path leads through an App of application `id`. */
  ghost predicate OfApp(s: State, id: string, locs: seq<Loc>) {
    forall l | l in locs :: l.key in s.appm && l.zone in s.appm[l.key].apps && s.appm[l.key].apps[l.zone].appid == id
  }

  /** Each group holds the copies of the paths listed for it, all of them of the
      application it is filed under; together the lists name every stored path once. */
  ghost predicate Grouped(s: State, im: map<string, seq<Instance>>, order: map<string, seq<Loc>>) {
    && im.Keys == order.Keys
    && (forall id | id in im :: CopiesOf(s, im[id], order[id]) && OfApp(s, id, order[id]))
    && (forall id, id' | id in im && id' in im && id != id' :: Elements(order[id]) !! Elements(order[id']))
    && (forall l :: l in AllLocs(s) <==> exists id :: id in order && l in Elements(order[id]))
  }

  /** Grouped, for the paths visited so far. */
  ghost predicate GroupedSoFar(s: State, im: map<string, seq<Instance>>, order: map<string, seq<Loc>>, seen: set<Loc>) {
    && im.Keys == order.Keys
    && (forall id | id in im :: CopiesOf(s, im[id], order[id]) && OfApp(s, id, order[id]))
    && (forall id, id' | id in im && id' in im && id != id' :: Elements(order[id]) !! Elements(order[id']))
    && (forall l :: l in seen <==> exists id :: id in order && l in Elements(order[id]))
  }

  lemma GroupedAdd(s: State, im: map<string, seq<Instance>>, order: map<string, seq<Loc>>, seen: set<Loc>, id: string,
                   list: seq<Instance>, locs: seq<Loc>)
    requires GroupedSoFar(s, im, order, seen) && CopiesOf(s, list, locs) && OfApp(s, id, locs) && Elements(locs) !! seen
    ensures
      var group := if id in im then im[id] else [];
      var names := if id in order then order[id] else [];
      GroupedSoFar(s, im[id := group + list], order[id := names + locs], seen + Elements(locs))
  {
    var group := if id in im then im[id] else [];
    var names := if id in order then order[id] else [];
    assert Elements(names) <= seen && OfApp(s, id, names);
    assert OfApp(s, id, names + locs) by {
      forall l | l in names + locs ensures l in names || l in locs {}
    }
    CopiesAppend(s, group, names, list, locs);
    var order' := order[id := names + locs];
    forall l ensures l in seen + Elements(locs) <==> exists i :: i in order' && l in Elements(order'[i]) {
      if l in Elements(locs) {
        assert l in Elements(order'[id]);
      } else if l in seen {
        var i :| i in order && l in Elements(order[i]);
        assert l in Elements(order'[i]);
      }
    }
  }

  lemma OneAppPaths(s: State, k: string, z: string, locs: seq<Loc>)
    requires k in s.appm && z in s.appm[k].apps && Elements(locs) == AppLocs(k, z, s.appm[k].apps[z].instances.Keys)
    ensures OfApp(s, s.appm[k].apps[z].appid, locs)
  {
    forall l | l in locs ensures l.key == k && l.zone == z {
      assert l in Elements(locs);
    }
  }

  lemma {:induction false} ConcatCopies(s: State, im: map<string, seq<Instance>>, order: map<string, seq<Loc>>,
                                        ids: seq<string>)
    requires Grouped(s, im, order) && Distinct(ids) && forall id | id in ids :: id in im
    ensures CopiesOf(s, Concat(im, ids), Concat(order, ids))
    ensures forall l :: l in Elements(Concat(order, ids)) <==> exists id :: id in ids && l in Elements(order[id])
    decreases |ids|
  {
    if ids != [] {
      var n := |ids| - 1;
      var rest, id := ids[..n], ids[n];
      assert ids == rest + [id];
      ConcatCopies(s, im, order, rest);
      forall l | l in Elements(Concat(order, rest)) ensures l !in Elements(order[id]) {
        var other :| other in rest && l in Elements(order[other]);
        assert other != id;
      }
      CopiesAppend(s, Concat(im, rest), Concat(order, rest), im[id], order[id]);
    }
  }

  /** Whatever order its groups are read in, FetchAll's output is a snapshot. */
  lemma GroupedIsSnapshot(s: State, im: map<string, seq<Instance>>, order: map<string, seq<Loc>>, ids: seq<string>)
    requires Grouped(s, im, order) && Distinct(ids) && Elements(ids) == im.Keys
    ensures forall id | id in ids :: id in im && id in order
    ensures Snapshot(s, Concat(im, ids), Concat(order, ids))
  {
    forall id | id in ids ensures id in im && id in order {
      assert id in Elements(ids);
    }
    ConcatCopies(s, im, order, ids);
    var locs := Concat(order, ids);
    forall l ensures l in Elements(locs) <==> l in AllLocs(s) {
      assert forall id :: id in ids <==> id in Elements(ids);
    }
  }

  // ----- evict -----

  ghost function ExpiredIn(s: State, locs: set<Loc>, protect: bool, now: int): set<Loc> {
    set l | l in locs && Has(s, l) && Expired(protect, now, Holder(s, l).value)
  }

  lemma ExpiredInSnoc(s: State, locs: seq<Loc>, i: nat, protect: bool, now: int)
    requires i < |locs| && Has(s, locs[i])
    ensures ExpiredIn(s, Elements(locs[..i + 1]), protect, now) == ExpiredIn(s, Elements(locs[..i]), protect, now) +
      if Expired(protect, now, Holder(s, locs[i]).value) then {locs[i]} else {}
  {
    ElementsSnoc(locs[..i + 1]);
    assert locs[..i + 1][..i] == locs[..i];
  }

  /** The collecting loop has visited the paths `seen`. */
  ghost predicate Visited(s: State, seen: set<Loc>, eis: seq<Instance>, locs: seq<Loc>, size: nat, protect: bool,
                          now: int)
  {
    && CopiesOf(s, eis, locs)
    && Elements(locs) == ExpiredIn(s, seen, protect, now)
    && size == |seen|
  }

  lemma VisitedAdd(s: State, keys: set<string>, k: string, zones: set<string>, z: string,
                   eis: seq<Instance>, locs: seq<Loc>, size: nat, protect: bool, now: int,
                   part: seq<Instance>, partLocs: seq<Loc>)
    requires k !in keys && k in s.appm && z in zones && z in s.appm[k].apps
    requires Visited(s, Covered(s, keys, k, zones), eis, locs, size, protect, now)
    requires CopiesOf(s, part, partLocs)
    requires Elements(partLocs) == ExpiredIn(s, AppLocs(k, z, s.appm[k].apps[z].instances.Keys), protect, now)
    ensures Visited(s, Covered(s, keys, k, zones - {z}), eis + part, locs + partLocs,
                    size + |s.appm[k].apps[z].instances|, protect, now)
  {
    var here := AppLocs(k, z, s.appm[k].apps[z].instances.Keys);
    var seen := Covered(s, keys, k, zones);
    CoveredZone(s, keys, k, zones, z);
    ExpiredInUnion(s, seen, here, protect, now);
    CopiesAppend(s, eis, locs, part, partLocs);
  }

  lemma ExpiredInUnion(s: State, a: set<Loc>, b: set<Loc>, protect: bool, now: int)
    ensures ExpiredIn(s, a + b, protect, now) == ExpiredIn(s, a, protect, now) + ExpiredIn(s, b, protect, now)
    ensures a !! b ==> ExpiredIn(s, a, protect, now) !! ExpiredIn(s, b, protect, now)
  {}

  /** A swap keeps the copies a permutation of the same paths. */
  lemma SwapCopies(s: State, eis: seq<Instance>, locs: seq<Loc>, i: nat, j: nat)
    requires CopiesOf(s, eis, locs) && i < |locs| && j < |locs|
    ensures CopiesOf(s, eis[i := eis[j]][j := eis[i]], locs[i := locs[j]][j := locs[i]])
    ensures Elements(locs[i := locs[j]][j := locs[i]]) == Elements(locs)
  {
    var q := locs[i := locs[j]][j := locs[i]];
    forall l ensures l in q <==> l in locs {
      if l in locs {
        var m :| 0 <= m < |locs| && locs[m] == l;
        assert q[if m == i then j else if m == j then i else m] == l;
      }
    }
  }

  lemma CancelAllSnoc(s: State, eis: seq<Instance>, i: nat, now: int, picks: seq<string>, pick: string)
    requires i < |eis| && |picks| == i
    ensures
      var v := eis[i];
      CancelAll(s, eis[..i + 1], now, picks + [pick]) ==
        CancelAt(CancelAll(s, eis[..i], now, picks), v.zone, v.env, v.appid, v.hostname, now, pick).0
  {
    assert eis[..i + 1][..i] == eis[..i];
    assert (picks + [pick])[..i] == picks;
  }

  lemma DrawnChoice(s: State, eis: seq<Instance>, all: seq<Loc>, n: nat, now: int)
    requires CopiesOf(s, eis, all) && Elements(all) == ExpiredLocs(s, now)
    requires n == EvictCount(s, now) <= |all|
    ensures EvictChoice(s, now, all[..n]) && InstancesAt(s, all[..n]) == eis[..n]
  {
    forall l | l in all[..n] ensures l in ExpiredLocs(s, now) {
      assert l in Elements(all);
    }
    var r := InstancesAt(s, all[..n]);
    forall j | 0 <= j < n ensures r[j] == eis[..n][j] {
      assert Some(r[j]) == Holder(s, all[..n][j]);
    }
  }
}
