/** The registry's operations cut where its methods are cut: up to the broadcast, up
    to the guard's count, one shuffled victim at a time. */
module RegistrySteps {
  import opened Sequences
  import opened Wrappers

  import opened Keys
  import opened Instances
  import opened GuardModel
  import opened RegistryModel
  import opened AppObjects
  import opened Waiters
  import opened Traversal

  /** The state after storing and counting, before the broadcast. */
  function Admitted(s: State, ni: Instance, latestTime: int): State {
    var l := LocOf(ni);
    s.(appm := s.appm[l.key := Registered(AppsAt(s, l.key), ni, latestTime)],
       gd := if Has(s, l) then s.gd else IncrExp(s.gd))
  }

  ghost predicate Kept(d: map<string, AppsData>, ins: Instance, lt: int, d': map<string, AppsData>, i: Instance,
                       isNew: bool)
  {
    var p := EntryAt(d, AppsKey(ins.appid, ins.env));
    && d' == d[AppsKey(ins.appid, ins.env) := Registered(p, ins, lt)]
    && (isNew <==> InEntry(p, ins.zone, ins.hostname).None?)
    && i == Merge(InEntry(p, ins.zone, ins.hostname), ins)
  }

  lemma KeptIs(d0: map<string, AppsData>, d1: map<string, AppsData>, ins: Instance, lt: int,
               d2: map<string, AppsData>, i: Instance, isNew: bool)
    requires
      var key := AppsKey(ins.appid, ins.env);
      && d1 == (if key in d0 then d0 else d0[key := NO_APPS])
      && d2 == d1[key := Registered(d1[key], ins, lt)]
      && (isNew <==> InEntry(d1[key], ins.zone, ins.hostname).None?)
      && i == Merge(InEntry(d1[key], ins.zone, ins.hostname), ins)
    ensures Kept(d0, ins, lt, d2, i, isNew)
  {}

  lemma KeptAdmits(s: State, ins: Instance, lt: int, d: map<string, AppsData>, i: Instance, isNew: bool)
    requires Kept(s.appm, ins, lt, d, i, isNew)
    ensures Admitted(s, ins, lt) == s.(appm := d, gd := if isNew then IncrExp(s.gd) else s.gd)
    ensures i == Merge(Holder(s, LocOf(ins)), ins)
  {}

  /** The state after a heartbeat was recorded, before it is counted. */
  ghost function Renewed(s: State, zone: string, env: string, appid: string, hostname: string, now: int, pick: string)
    : (State, Option<Instance>)
  {
    var key := AppsKey(appid, env);
    var z := First(AppsAt(s, key), zone, pick);
    if z.None? || hostname !in AppsAt(s, key).apps[z.value].instances then (s, None)
    else
      var p := s.appm[key];
      var a := p.apps[z.value];
      (s.(appm := s.appm[key := p.(apps := p.apps[z.value := AppRenew(a, hostname, now)])]),
       Some(a.instances[hostname].(renewTs := now)))
  }

  lemma RenewedIs(s: State, zone: string, env: string, appid: string, hostname: string, now: int, pick: string)
    ensures
      var (s1, i) := Renewed(s, zone, env, appid, hostname, now, pick);
      RegistryModel.Renew(s, zone, env, appid, hostname, now, pick)
        == (if i.Some? then s1.(gd := IncrFac(s.gd)) else s1, i)
  {}

  /** The state after cancelling, before the broadcast. */
  ghost function Removed(s: State, zone: string, env: string, appid: string, hostname: string, lts: int, pick: string)
    : (State, Option<Instance>)
  {
    var key := AppsKey(appid, env);
    var z := First(AppsAt(s, key), zone, pick);
    if z.None? || hostname !in AppsAt(s, key).apps[z.value].instances then (s, None)
    else
      var p1 := Cancelled(s.appm[key], z.value, zone, hostname, lts);
      (s.(appm := if p1.apps == map[] then s.appm - {key} else s.appm[key := p1]),
       Some(s.appm[key].apps[z.value].instances[hostname].(latestTs := lts)))
  }

  lemma RemovedIs(s: State, zone: string, env: string, appid: string, hostname: string, lts: int, pick: string)
    ensures
      var (s1, i) := Removed(s, zone, env, appid, hostname, lts, pick);
      RegistryModel.CancelAt(s, zone, env, appid, hostname, lts, pick)
        == (if i.Some? then RegistryModel.Broadcast(s1, env, appid) else s1, i)
  {}

  /** The entries after cancelling on one App, and the instance that was cancelled. */
  ghost function RemovedEntries(d: map<string, AppsData>, key: string, z: string, zone: string, hostname: string,
                                lts: int)
    : (map<string, AppsData>, Option<Instance>)
    requires key in d && z in d[key].apps
  {
    if hostname !in d[key].apps[z].instances then (d, None)
    else
      var d1 := d[key := Cancelled(d[key], z, zone, hostname, lts)];
      (if d1[key].apps == map[] then d1 - {key} else d1, Some(d[key].apps[z].instances[hostname].(latestTs := lts)))
  }

  /** Cancelling first, and dropping the entry if that empties it. */
  lemma RemovedInTwo(d: map<string, AppsData>, key: string, z: string, zone: string, hostname: string, lts: int,
                     d1: map<string, AppsData>, i: Option<Instance>, d2: map<string, AppsData>)
    requires key in d && z in d[key].apps
    requires i == if hostname in d[key].apps[z].instances
                  then Some(d[key].apps[z].instances[hostname].(latestTs := lts)) else None
    requires i.Some? ==> d1 == d[key := Cancelled(d[key], z, zone, hostname, lts)]
    requires d2 == if i.None? then d else if d1[key].apps == map[] then d1 - {key} else d1
    ensures (d2, i) == RemovedEntries(d, key, z, zone, hostname, lts)
  {}

  /** The same by way of the entry that the lookup met first. */
  lemma RemovedFrom(s: State, zone: string, env: string, appid: string, hostname: string, lts: int, pick: string,
                    z: string)
    requires First(AppsAt(s, AppsKey(appid, env)), zone, pick) == Some(z)
    ensures
      var key := AppsKey(appid, env);
      && key in s.appm && z in s.appm[key].apps
      && var (d, i) := RemovedEntries(s.appm, key, z, zone, hostname, lts);
      Removed(s, zone, env, appid, hostname, lts, pick) == (s.(appm := d), i)
  {
    var key := AppsKey(appid, env);
    var p := AppsAt(s, key);
    if hostname in p.apps[z].instances {
      var d := s.appm[key := Cancelled(p, z, zone, hostname, lts)];
      assert d - {key} == s.appm - {key};
    }
  }

  /** What a cancel offers: the broadcast of the state it leaves, if it removed anything. */
  ghost predicate Offered(s: State, zone: string, env: string, appid: string, hostname: string, lts: int, pick: string,
                          sent: map<string, Offer>) {
    var (s1, i) := Removed(s, zone, env, appid, hostname, lts, pick);
    if i.Some? then OffersOf(s1, env, appid, sent) else sent == map[]
  }

  /** The state after a set was applied, before the broadcast. */
  ghost function Changed(s: State, arg: ArgSet, decode: Decoder, pick: string): (State, bool)
    requires arg.Valid()
  {
    var key := AppsKey(arg.appid, arg.env);
    var z := First(AppsAt(s, key), arg.zone, pick);
    if z.None? then (s, false)
    else
      var (a, done) := AppSet(s.appm[key].apps[z.value], arg, decode);
      (s.(appm := s.appm[key := s.appm[key].(apps := s.appm[key].apps[z.value := a])]), done)
  }

  lemma ChangedIs(s: State, arg: ArgSet, decode: Decoder, pick: string)
    requires arg.Valid()
    ensures
      var (s1, ok) := Changed(s, arg, decode, pick);
      RegistryModel.Set(s, arg, decode, pick)
        == (if ok then RegistryModel.Broadcast(s1, arg.env, arg.appid) else s1, ok)
  {}

  ghost function HostLocs(k: string, z: string, hosts: seq<string>): (locs: seq<Loc>)
    ensures |locs| == |hosts| && forall j :: 0 <= j < |locs| ==> locs[j] == Loc(k, z, hosts[j])
  {
    seq(|hosts|, j requires 0 <= j < |hosts| => Loc(k, z, hosts[j]))
  }

  lemma HostCopies(s: State, k: string, z: string, list: seq<Instance>, hosts: seq<string>)
    requires k in s.appm && z in s.appm[k].apps && |list| == |hosts|
    requires Distinct(hosts) && forall h :: h in hosts <==> h in s.appm[k].apps[z].instances
    requires forall j :: 0 <= j < |list| ==> list[j] == s.appm[k].apps[z].instances[hosts[j]]
    ensures CopiesOf(s, list, HostLocs(k, z, hosts))
    ensures Elements(HostLocs(k, z, hosts)) == AppLocs(k, z, s.appm[k].apps[z].instances.Keys)
  {
    var locs := HostLocs(k, z, hosts);
    forall h | h in s.appm[k].apps[z].instances ensures Loc(k, z, h) in locs {
      var j: nat :| j < |hosts| && hosts[j] == h;
      assert locs[j] == Loc(k, z, h);
    }
  }

  /** The state after new scheduler settings, before the broadcast. */
  function Reloaded(s: State, env: string, appid: string, clients: Clients): State {
    var key := AppsKey(appid, env);
    s.(appm := if key in s.appm then s.appm[key := AppsUpdateLatest(s.appm[key], 0)] else s.appm,
       schedulers := s.schedulers[key := clients])
  }

  /** The copies are those of the expired instances, in some order. */
  ghost predicate Shuffled(s: State, now: int, eis: seq<Instance>, all: seq<Loc>) {
    CopiesOf(s, eis, all) && Elements(all) == ExpiredLocs(s, now)
  }

  lemma SwapShuffled(s: State, now: int, eis: seq<Instance>, all: seq<Loc>, i: nat, j: nat)
    requires Shuffled(s, now, eis, all) && i <= j < |eis|
    ensures |all| == |eis| && Shuffled(s, now, eis[i := eis[j]][j := eis[i]], all[i := all[j]][j := all[i]])
    ensures eis[i := eis[j]][j := eis[i]][..i] == eis[..i]
  {
    SwapCopies(s, eis, all, i, j);
  }

  /** Each draw is a place not yet filled. */
  predicate Draws(draws: seq<nat>, n: nat) {
    |draws| <= n && forall i :: 0 <= i < |draws| ==> i <= draws[i] < n
  }

  /** The list after swapping the drawn places in one after the other. */
  function Drawn<T>(q: seq<T>, draws: seq<nat>): (r: seq<T>)
    requires Draws(draws, |q|)
    ensures |r| == |q|
  {
    if draws == [] then q
    else
      var n := |draws| - 1;
      var p := Drawn(q, draws[..n]);
      p[n := p[draws[n]]][draws[n] := p[n]]
  }

  /** One more draw swaps one pair and leaves the places before it alone. */
  lemma NextDraw<T>(q: seq<T>, draws: seq<nat>, next: nat)
    requires Draws(draws, |q|) && |draws| <= next < |q|
    ensures
      var n := |draws|;
      var p := Drawn(q, draws);
      && Draws(draws + [next], |q|)
      && Drawn(q, draws + [next]) == p[n := p[next]][next := p[n]]
      && Drawn(q, draws + [next])[..n] == p[..n]
  {
    assert (draws + [next])[..|draws|] == draws;
  }

  lemma {:induction false} DrawnShuffled(s: State, now: int, eis: seq<Instance>, all: seq<Loc>, draws: seq<nat>)
    requires Shuffled(s, now, eis, all) && Draws(draws, |eis|)
    ensures |all| == |eis| && Shuffled(s, now, Drawn(eis, draws), Drawn(all, draws))
  {
    if draws != [] {
      var n := |draws| - 1;
      DrawnShuffled(s, now, eis, all, draws[..n]);
      SwapShuffled(s, now, Drawn(eis, draws[..n]), Drawn(all, draws[..n]), n, draws[n]);
    }
  }

  lemma ShuffledChoice(s: State, now: int, eis: seq<Instance>, all: seq<Loc>, n: nat, picks: seq<string>)
    requires Shuffled(s, now, eis, all) && n == EvictCount(s, now) <= |eis| && |picks| == n
    ensures n <= |all| && EvictChoice(s, now, all[..n])
    ensures RegistryModel.Evict(s, now, all[..n], picks) == CancelAll(s, eis[..n], now, picks)
  {
    DrawnChoice(s, eis, all, n, now);
  }

  lemma CandidateCount(s: State, now: int, eis: seq<Instance>, all: seq<Loc>)
    requires CopiesOf(s, eis, all) && Elements(all) == ExpiredIn(s, AllLocs(s), s.gd.Protecting(), now)
    ensures Shuffled(s, now, eis, all) && |eis| == |ExpiredLocs(s, now)|
  {
    DistinctElements(all);
    assert ExpiredIn(s, AllLocs(s), s.gd.Protecting(), now) == ExpiredLocs(s, now);
  }
}
