/** The version of an Apps entry as a change detector: which steps raise it,
    what an unchanged version means, and the two ways in which it can mislead. */
module Versions {
  import opened Sequences
  import opened Wrappers

  import opened Keys
  import opened Instances
  import opened RegistryModel
  import opened Structure
  import opened SetEffect

  /** Equal except for the time of the last heartbeat. */
  ghost predicate SameButRenew(i: Instance, j: Instance) {
    i.(renewTs := 0) == j.(renewTs := 0)
  }

  ghost predicate SameView(v: View, w: View) {
    v.Keys == w.Keys && forall h | h in v :: SameButRenew(v[h], w[h])
  }

  ghost predicate SameApps(p: AppsData, q: AppsData) {
    p.apps.Keys == q.apps.Keys && forall z | z in p.apps :: SameView(p.apps[z].instances, q.apps[z].instances)
  }

  /** The version only rises, and while it stands still so does the content. */
  ghost predicate Progress(p: AppsData, q: AppsData) {
    p.latestTs <= q.latestTs && (p.latestTs == q.latestTs ==> SameApps(p, q))
  }

  ghost predicate ProgressAt(s: State, k: string, s': State) {
    k in s.appm && k in s'.appm ==> Progress(s.appm[k], s'.appm[k])
  }

  // ----- single steps -----

  lemma RegisterRaises(s: State, ni: Instance, lt: int)
    ensures
      var key := AppsKey(ni.appid, ni.env);
      var s' := Register(s, ni, lt);
      && key in s'.appm && s'.appm[key].latestTs > AppsAt(s, key).latestTs
      && s'.appm[key].latestTs >= ni.latestTs
      && s'.appm[key].latestTs in {AppsAt(s, key).latestTs + 1, ni.latestTs}
      && forall k | k != key :: AppsAt(s', k) == AppsAt(s, k)
  {}

  lemma CancelRaises(s: State, zone: string, env: string, appid: string, hostname: string, lts: int, pick: string)
    ensures
      var key := AppsKey(appid, env);
      var (s', i) := CancelAt(s, zone, env, appid, hostname, lts, pick);
      && (i.None? ==> s' == s)
      && s'.appm.Keys <= s.appm.Keys
      && (i.Some? && key in s'.appm ==> s'.appm[key].latestTs > s.appm[key].latestTs && s'.appm[key].latestTs >= lts)
      && (i.Some? && key in s'.appm ==> s'.appm[key].latestTs in {s.appm[key].latestTs + 1, lts})
      && forall k | k != key :: AppsAt(s', k) == AppsAt(s, k) && (k in s'.appm <==> k in s.appm)
  {}

  lemma CancelProgress(s: State, zone: string, env: string, appid: string, hostname: string, lts: int, pick: string,
                       k: string)
    ensures ProgressAt(s, k, CancelAt(s, zone, env, appid, hostname, lts, pick).0)
  {
    CancelRaises(s, zone, env, appid, hostname, lts, pick);
    var s' := CancelAt(s, zone, env, appid, hostname, lts, pick).0;
    if k in s.appm && k in s'.appm && k != AppsKey(appid, env) {
      assert AppsAt(s', k) == AppsAt(s, k);
    }
  }

  lemma ProgressTrans(p: AppsData, q: AppsData, r: AppsData)
    requires Progress(p, q) && Progress(q, r)
    ensures Progress(p, r)
  {}

  lemma {:induction false} CancelAllProgress(s: State, victims: seq<Instance>, now: int, picks: seq<string>, k: string)
    requires |picks| == |victims|
    ensures var s' := CancelAll(s, victims, now, picks); s'.appm.Keys <= s.appm.Keys && ProgressAt(s, k, s')
    decreases |victims|
  {
    if victims != [] {
      var n := |victims| - 1;
      CancelAllProgress(s, victims[..n], now, picks[..n], k);
      var s1 := CancelAll(s, victims[..n], now, picks[..n]);
      var v := victims[n];
      CancelRaises(s1, v.zone, v.env, v.appid, v.hostname, now, picks[n]);
      CancelProgress(s1, v.zone, v.env, v.appid, v.hostname, now, picks[n], k);
      var s2 := CancelAll(s, victims, now, picks);
      assert s2 == CancelAt(s1, v.zone, v.env, v.appid, v.hostname, now, picks[n]).0;
      if k in s.appm && k in s2.appm {
        ProgressTrans(s.appm[k], s1.appm[k], s2.appm[k]);
      }
    }
  }

  lemma RenewAppm(s: State, zone: string, env: string, appid: string, hostname: string, now: int, pick: string)
    returns (z: string)
    requires Renew(s, zone, env, appid, hostname, now, pick).1.Some?
    ensures
      var key := AppsKey(appid, env);
      && key in s.appm && z in s.appm[key].apps && hostname in s.appm[key].apps[z].instances
      && Renew(s, zone, env, appid, hostname, now, pick).0.appm
        == s.appm[key := s.appm[key].(apps := s.appm[key].apps[z := AppRenew(s.appm[key].apps[z], hostname, now)])]
  {
    z := First(AppsAt(s, AppsKey(appid, env)), zone, pick).value;
  }

  lemma RenewSameApps(p: AppsData, z: string, hostname: string, now: int)
    requires z in p.apps && hostname in p.apps[z].instances
    ensures SameApps(p, p.(apps := p.apps[z := AppRenew(p.apps[z], hostname, now)]))
  {
    assert SameView(p.apps[z].instances, AppRenew(p.apps[z], hostname, now).instances);
  }

  lemma RenewProgress(s: State, zone: string, env: string, appid: string, hostname: string, now: int, pick: string,
                      k: string)
    ensures ProgressAt(s, k, Renew(s, zone, env, appid, hostname, now, pick).0)
  {
    if Renew(s, zone, env, appid, hostname, now, pick).1.Some? {
      var z := RenewAppm(s, zone, env, appid, hostname, now, pick);
      RenewSameApps(s.appm[AppsKey(appid, env)], z, hostname, now);
    }
  }

  lemma ReloadProgress(s: State, env: string, appid: string, clients: Clients, k: string)
    ensures ProgressAt(s, k, Reload(s, env, appid, clients))
  {}

  /** Every step but Set keeps the version sound at every entry. */
  lemma StepProgress(s: State, op: Op, k: string)
    requires Enabled(s, op) && !op.OpSet?
    ensures ProgressAt(s, k, Apply(s, op))
  {
    match op
    case OpRegister(ins, lt) =>
      RegisterRaises(s, ins, lt);
      if k != AppsKey(ins.appid, ins.env) {
        assert AppsAt(Apply(s, op), k) == AppsAt(s, k);
      }
    case OpRenew(zone, env, appid, hostname, now, pick) => RenewProgress(s, zone, env, appid, hostname, now, pick, k);
    case OpCancel(zone, env, appid, hostname, lts, pick) => CancelProgress(s, zone, env, appid, hostname, lts, pick, k);
    case OpEvict(now, locs, picks) => CancelAllProgress(s, InstancesAt(s, locs), now, picks, k);
    case OpReload(env, appid, clients) => ReloadProgress(s, env, appid, clients, k);
    case _ =>
  }

  /** The removals of one pass are visible: the entries they leave have risen. */
  predicate AtLeast(s: State, k: string, now: int) {
    k in s.appm ==> s.appm[k].latestTs >= now
  }

  lemma OwnCancelVersion(s: State, l: Loc, v: Instance, now: int, pick: string, zones: iset<string>, k: string)
    requires StructuredIn(s, zones) && WildcardFree(zones) && Has(s, l) && LocOf(v) == l
    requires k == l.key || AtLeast(s, k, now)
    ensures AtLeast(CancelAt(s, v.zone, v.env, v.appid, v.hostname, now, pick).0, k, now)
  {
    assert PlacedApps(l.key, s.appm[l.key], zones);
    OwnZoneIsFirst(s.appm[l.key], l.key, l.zone, zones, pick);
    CancelRaises(s, v.zone, v.env, v.appid, v.hostname, now, pick);
  }

  lemma CancelAllLast(s: State, victims: seq<Instance>, now: int, picks: seq<string>, s': State)
    requires |picks| == |victims| > 0 && s' == CancelAll(s, victims, now, picks)
    ensures
      var n, v := |victims| - 1, victims[|victims| - 1];
      s' == CancelAt(CancelAll(s, victims[..n], now, picks[..n]), v.zone, v.env, v.appid, v.hostname, now, picks[n]).0
  {}

  /** The last victim is still stored when its turn comes. */
  lemma StillThere(s: State, locs: seq<Loc>, victims: seq<Instance>, now: int, picks: seq<string>, zones: iset<string>)
    requires StructuredIn(s, zones) && WildcardFree(zones) && locs != []
    requires Distinct(locs) && forall l :: l in locs ==> Has(s, l)
    requires |picks| == |locs| == |victims| && forall i :: 0 <= i < |locs| ==> LocOf(victims[i]) == locs[i]
    ensures
      var n := |locs| - 1;
      var m := CancelAll(s, victims[..n], now, picks[..n]);
      StructuredIn(m, zones) && Has(m, locs[n])
  {
    var n := |locs| - 1;
    assert locs[n] in locs && locs[n] !in locs[..n];
    CancelAllRemoves(s, locs[..n], victims[..n], now, picks[..n], zones);
    assert locs[n] in AllLocs(CancelAll(s, victims[..n], now, picks[..n]));
  }

  /** The last cancel of a pass keeps what the ones before it reached. */
  lemma LastOfPass(s: State, locs: seq<Loc>, victims: seq<Instance>, now: int, picks: seq<string>, zones: iset<string>,
                   k: string)
    requires StructuredIn(s, zones) && WildcardFree(zones) && locs != []
    requires Distinct(locs) && forall l :: l in locs ==> Has(s, l)
    requires |picks| == |locs| == |victims| && forall i :: 0 <= i < |locs| ==> LocOf(victims[i]) == locs[i]
    ensures
      var n := |locs| - 1;
      k == locs[n].key || AtLeast(CancelAll(s, victims[..n], now, picks[..n]), k, now)
      ==> AtLeast(CancelAll(s, victims, now, picks), k, now)
  {
    var n := |locs| - 1;
    var m := CancelAll(s, victims[..n], now, picks[..n]);
    StillThere(s, locs, victims, now, picks, zones);
    CancelAllLast(s, victims, now, picks, CancelAll(s, victims, now, picks));
    if k == locs[n].key || AtLeast(m, k, now) {
      OwnCancelVersion(m, locs[n], victims[n], now, picks[n], zones, k);
    }
  }

  /** Each cancel of a pass brings the version to the time of the pass at least. */
  lemma {:induction false} PassVersion(s: State, locs: seq<Loc>, victims: seq<Instance>, now: int, picks: seq<string>,
                                       zones: iset<string>, j: nat)
    requires StructuredIn(s, zones) && WildcardFree(zones)
    requires Distinct(locs) && forall l :: l in locs ==> Has(s, l)
    requires |picks| == |locs| == |victims| && forall i :: 0 <= i < |locs| ==> LocOf(victims[i]) == locs[i]
    requires j < |locs|
    ensures AtLeast(CancelAll(s, victims, now, picks), locs[j].key, now) == true
    decreases |locs|
  {
    var n := |locs| - 1;
    if j < n {
      PassVersion(s, locs[..n], victims[..n], now, picks[..n], zones, j);
    }
    LastOfPass(s, locs, victims, now, picks, zones, locs[j].key);
  }

  lemma EvictRaises(s: State, now: int, locs: seq<Loc>, picks: seq<string>, zones: iset<string>, l: Loc)
    requires StructuredIn(s, zones) && WildcardFree(zones)
    requires EvictChoice(s, now, locs) && |picks| == |locs| && l in locs
    ensures
      var s' := Evict(s, now, locs, picks);
      l.key in s'.appm ==> s'.appm[l.key].latestTs > s.appm[l.key].latestTs && s'.appm[l.key].latestTs >= now
  {
    var j: nat :| j < |locs| && locs[j] == l;
    forall i | 0 <= i < |locs| ensures LocOf(InstancesAt(s, locs)[i]) == locs[i] {
      assert locs[i] in locs;
      AtOwnPath(s, locs[i], zones);
    }
    PassVersion(s, locs, InstancesAt(s, locs), now, picks, zones, j);
    var s' := Evict(s, now, locs, picks);
    EvictRemoves(s, now, locs, picks, zones);
    assert l in Elements(locs) && l !in AllLocs(s') && Has(s, l);
    CancelAllProgress(s, InstancesAt(s, locs), now, picks, l.key);
    if l.key in s'.appm && s'.appm[l.key].latestTs == s.appm[l.key].latestTs {
      assert SameApps(s.appm[l.key], s'.appm[l.key]);
      assert SameView(s.appm[l.key].apps[l.zone].instances, s'.appm[l.key].apps[l.zone].instances);
      assert Has(s', l);
    }
  }

  // ----- runs -----

  /** Any step but a Set of the entry under `k` that writes something new. */
  ghost predicate Telling(s: State, op: Op, k: string)
    requires Enabled(s, op)
  {
    op.OpSet? && AppsKey(op.arg.appid, op.arg.env) == k && k in s.appm ==>
      var z := First(s.appm[k], op.arg.zone, op.pick);
      z.None? || AlreadySet(s.appm[k].apps[z.value], op.arg, op.decode)
  }

  lemma TellingProgress(s: State, op: Op, k: string)
    requires Enabled(s, op) && Telling(s, op, k)
    ensures ProgressAt(s, k, Apply(s, op))
  {
    if !op.OpSet? {
      StepProgress(s, op, k);
    } else if k in s.appm {
      var key := AppsKey(op.arg.appid, op.arg.env);
      if key == k {
        SetSoundIff(s, op.arg, op.decode, op.pick, "", 0, "");
      } else {
        assert Apply(s, op).appm[k] == s.appm[k];
        SameAppsSelf(s.appm[k]);
      }
    }
  }

  lemma SameAppsSelf(p: AppsData)
    ensures SameApps(p, p)
  {
    forall z | z in p.apps ensures SameView(p.apps[z].instances, p.apps[z].instances) {}
  }

  lemma StepInRun(states: seq<State>, ops: seq<Op>, m: nat, k: string)
    requires Run(states, ops) && 0 < m < |states| && Telling(states[m - 1], ops[m - 1], k)
    requires k in states[m - 1].appm && k in states[m].appm
    ensures Progress(states[m - 1].appm[k], states[m].appm[k]) == true
  {
    TellingProgress(states[m - 1], ops[m - 1], k);
    assert states[m - 1 + 1] == Apply(states[m - 1], ops[m - 1]);
  }

  lemma {:induction false} RunProgress(states: seq<State>, ops: seq<Op>, i: nat, j: nat, k: string)
    requires Run(states, ops) && i <= j < |states|
    requires forall m :: i <= m < j ==> Telling(states[m], ops[m], k)
    requires forall m :: i <= m <= j ==> k in states[m].appm
    ensures Progress(states[i].appm[k], states[j].appm[k]) == true
    decreases j - i
  {
    if i < j {
      RunProgress(states, ops, i, j - 1, k);
      StepInRun(states, ops, j, k);
      ProgressTrans(states[i].appm[k], states[j - 1].appm[k], states[j].appm[k]);
    }
  }

  /** While an entry lives and no Set writes anything new into it, a client that polls with the
      version it last saw is told NotModified exactly when no step raised the
      version, and then no zone's instances differ but for heartbeats. */
  lemma NotModifiedHidesNothing(states: seq<State>, ops: seq<Op>, i: nat, j: nat, zone: string, env: string,
                                appid: string, status: bv32, pick: string)
    requires Run(states, ops) && i <= j < |states|
    requires forall m :: i <= m < j ==> Telling(states[m], ops[m], AppsKey(appid, env))
    requires forall m :: i <= m <= j ==> AppsKey(appid, env) in states[m].appm
    ensures
      var k := AppsKey(appid, env);
      var v := states[i].appm[k].latestTs;
      var p, q := states[i].appm[k], states[j].appm[k];
      && (Fetch(states[j], zone, env, appid, v, status, pick) == NotModified <==> q.latestTs == v)
      && (Fetch(states[j], zone, env, appid, v, status, pick) == NotModified ==>
          && p.apps.Keys == q.apps.Keys
          && forall z | z in p.apps :: SameView(Visible(p.apps[z], status), Visible(q.apps[z], status)))
  {
    var k := AppsKey(appid, env);
    RunProgress(states, ops, i, j, k);
    var p, q := states[i].appm[k], states[j].appm[k];
    if q.latestTs == p.latestTs {
      forall z | z in p.apps ensures SameView(Visible(p.apps[z], status), Visible(q.apps[z], status)) {
        SameViewVisible(p.apps[z], q.apps[z], status);
      }
    }
  }

  lemma SameButRenewFilter(i: Instance, j: Instance, status: bv32)
    requires SameButRenew(i, j)
    ensures Filter(i, status) == Filter(j, status)
  {
    assert i.(renewTs := 0).status == i.status && j.(renewTs := 0).status == j.status;
  }

  lemma SameViewVisible(a: AppData, b: AppData, status: bv32)
    requires SameView(a.instances, b.instances)
    ensures SameView(Visible(a, status), Visible(b, status))
  {
    forall h | h in a.instances
      ensures Filter(a.instances[h], status) == Filter(b.instances[h], status)
    {
      SameButRenewFilter(a.instances[h], b.instances[h], status);
    }
    assert Visible(a, status).Keys == Visible(b, status).Keys;
  }

  // ----- Set does not raise the version -----

  lemma SameButRenewIff(o: Instance, arg: ArgSet, decode: Decoder, h: string, begun: nat, done: nat)
    requires arg.Valid() && done <= begun <= |arg.hostnames|
    ensures SameButRenew(o, HostAfter(o, arg, decode, h, begun, done)) <==> Holds(o, arg, decode, h, begun, done)
  {
    HoldsIff(o, arg, decode, h, begun, done);
    var w := HostAfter(o, arg, decode, h, begun, done);
    if SameButRenew(o, w) {
      assert o.(renewTs := 0).(renewTs := o.renewTs) == w.(renewTs := 0).(renewTs := o.renewTs);
    }
  }

  lemma SetSameViewIff(a: AppData, arg: ArgSet, decode: Decoder)
    requires arg.Valid()
    ensures SameView(a.instances, AppSet(a, arg, decode).0.instances) <==> AlreadySet(a, arg, decode)
  {
    SetHosts(a, arg, decode);
    var n := StopsAt(a, arg, decode, 0);
    forall h | h in a.instances {
      SameButRenewIff(a.instances[h], arg, decode, h, Begun(a, arg, n), n);
    }
  }

  lemma OneZoneChanged(p: AppsData, z: string, b: AppData)
    requires z in p.apps
    ensures SameApps(p, p.(apps := p.apps[z := b])) <==> SameView(p.apps[z].instances, b.instances)
  {
    forall y | y in p.apps ensures SameView(p.apps[y].instances, p.apps[y].instances) {}
    assert p.apps[z := b][z] == b;
  }

  /** Set leaves the version where it was, so a client at the current version is told
      NotModified; and the version stays a sound sign of change exactly when the zone
      the Set applies to already held, at every host that its loop comes to, what the
      Set writes. */
  lemma SetSoundIff(s: State, arg: ArgSet, decode: Decoder, pick: string, zone: string, status: bv32, pick': string)
    requires arg.Valid() && AppsKey(arg.appid, arg.env) in s.appm
    ensures
      var k := AppsKey(arg.appid, arg.env);
      var s' := Set(s, arg, decode, pick).0;
      var z := First(s.appm[k], arg.zone, pick);
      && Fetch(s', zone, arg.env, arg.appid, s.appm[k].latestTs, status, pick') == NotModified
      && (ProgressAt(s, k, s') <==> z.None? || AlreadySet(s.appm[k].apps[z.value], arg, decode))
  {
    var k := AppsKey(arg.appid, arg.env);
    var z := First(AppsAt(s, k), arg.zone, pick);
    if z.Some? {
      var a := s.appm[k].apps[z.value];
      SetAppm(s, arg, decode, pick, z.value);
      OneZoneChanged(s.appm[k], z.value, AppSet(a, arg, decode).0);
      SetSameViewIff(a, arg, decode);
    } else {
      forall y | y in s.appm[k].apps ensures SameView(s.appm[k].apps[y].instances, s.appm[k].apps[y].instances) {}
    }
  }

  /** A Set that takes a host out of service, and the poller that never learns of it. */
  lemma SetHidesDeparture(i: Instance, decode: Decoder)
    requires i.status == STATUS_UP && i.zone != ""
    ensures
      var s := Register(EMPTY, i, 0);
      var arg := ArgSet(i.zone, i.env, i.appid, [i.hostname], [2], [], 1);
      var (s', ok) := Set(s, arg, decode, "");
      var k := AppsKey(i.appid, i.env);
      && ok && k in s.appm && k in s'.appm && i.zone in s.appm[k].apps && i.zone in s'.appm[k].apps
      && i.hostname in Visible(s.appm[k].apps[i.zone], STATUS_UP)
      && i.hostname !in Visible(s'.appm[k].apps[i.zone], STATUS_UP)
      && Fetch(s', i.zone, i.env, i.appid, s.appm[k].latestTs, STATUS_UP, "") == NotModified
      && !ProgressAt(s, k, s')
  {
    var s := Register(EMPTY, i, 0);
    var arg := ArgSet(i.zone, i.env, i.appid, [i.hostname], [2], [], 1);
    var a := s.appm[AppsKey(i.appid, i.env)].apps[i.zone];
    assert Truncated(2) == STATUS_WAITING;
    SetSingleStatus(a, arg, decode);
    SetAppm(s, arg, decode, "", i.zone);
    SetSoundIff(s, arg, decode, "", i.zone, STATUS_UP, "");
  }

  lemma SetSingleStatus(a: AppData, arg: ArgSet, decode: Decoder)
    requires |arg.hostnames| == |arg.status| == 1 && arg.metadata == [] && arg.hostnames[0] in a.instances
    requires Truncated(arg.status[0]) == STATUS_WAITING && a.instances[arg.hostnames[0]].status == STATUS_UP
    ensures
      var (b, ok) := AppSet(a, arg, decode);
      ok && arg.hostnames[0] in b.instances && b.instances[arg.hostnames[0]].status == STATUS_WAITING
    ensures !AlreadySet(a, arg, decode)
  {
    var h := arg.hostnames[0];
    assert StopsAt(a, arg, decode, 1) == 1 && StopsAt(a, arg, decode, 0) == 1;
    assert StatusAfter(STATUS_UP, arg, h, 1) == STATUS_WAITING;
    SetHosts(a, arg, decode);
    assert !Holds(a.instances[h], arg, decode, h, 1, 1);
  }

  // ----- a deleted entry starts over -----

  /** When the last instance of an application leaves, the version is forgotten:
      after the next registration an old version hides the new instance exactly
      when it is not behind that registration's own timestamp. */
  lemma RebirthVersion(s: State, ni: Instance, lt: int, v: int, status: bv32, pick: string)
    requires AppsKey(ni.appid, ni.env) !in s.appm && ni.zone != ""
    ensures Fetch(Register(s, ni, lt), ni.zone, ni.env, ni.appid, v, status, pick) == NotModified
      <==> v >= (if ni.latestTs <= 0 then 1 else ni.latestTs)
  {}

  /** One host replaced by another between two polls, reported as NotModified. */
  lemma RebirthHidesChange(i: Instance, j: Instance)
    requires i.appid == j.appid && i.env == j.env && i.zone == j.zone != "" && i.hostname != j.hostname
    requires 0 < j.latestTs <= i.latestTs
    ensures
      var s1 := Register(EMPTY, i, 0);
      var s2 := Cancel(s1, i.zone, i.env, i.appid, i.hostname, 0, "").0;
      var s3 := Register(s2, j, 0);
      var k := AppsKey(i.appid, i.env);
      && k in s1.appm && k !in s2.appm
      && Fetch(s3, i.zone, i.env, i.appid, s1.appm[k].latestTs, STATUS_UP, "") == NotModified
      && AllLocs(s1) == {LocOf(i)} && AllLocs(s3) == {LocOf(j)}
  {
    var s1 := Register(EMPTY, i, 0);
    RegisterLocs(EMPTY, i, 0);
    assert AllLocs(EMPTY) == {};
    SingleCancelEmpties(s1, i);
    var s2 := Cancel(s1, i.zone, i.env, i.appid, i.hostname, 0, "").0;
    RegisterLocs(s2, j, 0);
    assert AllLocs(s2) == {};
    RebirthVersion(s2, j, 0, i.latestTs, STATUS_UP, "");
  }

  lemma SingleCancelEmpties(s: State, i: Instance)
    requires i.zone != "" && s == Register(EMPTY, i, 0)
    ensures Cancel(s, i.zone, i.env, i.appid, i.hostname, 0, "").0.appm == map[]
  {
    var k := AppsKey(i.appid, i.env);
    var p := s.appm[k];
    assert p.apps.Keys == {i.zone} && p.apps[i.zone].instances.Keys == {i.hostname};
    var p1 := Cancelled(p, i.zone, i.zone, i.hostname, 0);
    assert AppCancel(p.apps[i.zone], i.hostname, 0).instances.Keys == {};
    assert p1.apps.Keys == {};
    assert s.appm.Keys == {k};
  }
}
