/** Every instance sits at the path its own fields name, and nothing empty is
    stored: what each step keeps, and the zone names for which it is kept. */
module Structure {
  import opened Sequences
  import opened Wrappers

  import opened Keys
  import opened Instances
  import opened RegistryModel

  // ----- what each operation does to the stored instances -----

  lemma RegisterHolder(s: State, ni: Instance, lt: int, l: Loc)
    ensures Holder(Register(s, ni, lt), l) == if l == LocOf(ni) then Some(Merge(Holder(s, l), ni)) else Holder(s, l)
  {}

  lemma RegisterLocs(s: State, ni: Instance, lt: int)
    ensures AllLocs(Register(s, ni, lt)) == AllLocs(s) + {LocOf(ni)}
  {
    forall l {
      RegisterHolder(s, ni, lt, l);
    }
  }

  /** A cancel whose lookup returns the zone it names removes that one path. */
  ghost predicate Hits(s: State, zone: string, env: string, appid: string, pick: string) {
    zone != "" || First(AppsAt(s, AppsKey(appid, env)), zone, pick) == Some(zone)
  }

  lemma CancelledHolder(p: AppsData, zone: string, hostname: string, lts: int, z: string, h: string)
    requires zone in p.apps && hostname in p.apps[zone].instances
    ensures
      var p1 := Cancelled(p, zone, zone, hostname, lts);
      && (z in p1.apps && h in p1.apps[z].instances <==>
          z in p.apps && h in p.apps[z].instances && (z, h) != (zone, hostname))
      && (z in p1.apps && h in p1.apps[z].instances ==> p1.apps[z].instances[h] == p.apps[z].instances[h])
  {
    var app := AppCancel(p.apps[zone], hostname, lts);
    assert h in app.instances ==> app.instances != map[];
  }

  lemma CancelHolder(s: State, zone: string, env: string, appid: string, hostname: string, lts: int, pick: string,
                     l: Loc)
    requires Hits(s, zone, env, appid, pick)
    ensures
      var (s', i) := CancelAt(s, zone, env, appid, hostname, lts, pick);
      var at := Loc(AppsKey(appid, env), zone, hostname);
      && i == (if Has(s, at) then Some(Holder(s, at).value.(latestTs := lts)) else None)
      && Holder(s', l) == if l == at then None else Holder(s, l)
  {
    var key := AppsKey(appid, env);
    if Has(s, Loc(key, zone, hostname)) {
      CancelledHolder(s.appm[key], zone, hostname, lts, l.zone, l.hostname);
    }
  }

  lemma CancelLocs(s: State, zone: string, env: string, appid: string, hostname: string, lts: int, pick: string)
    requires Hits(s, zone, env, appid, pick)
    ensures AllLocs(CancelAt(s, zone, env, appid, hostname, lts, pick).0)
      == AllLocs(s) - {Loc(AppsKey(appid, env), zone, hostname)}
  {
    var s' := CancelAt(s, zone, env, appid, hostname, lts, pick).0;
    var at := Loc(AppsKey(appid, env), zone, hostname);
    forall l ensures Has(s', l) <==> Has(s, l) && l != at {
      CancelHolder(s, zone, env, appid, hostname, lts, pick, l);
    }
  }

  lemma RenewLocs(s: State, zone: string, env: string, appid: string, hostname: string, now: int, pick: string)
    ensures AllLocs(Renew(s, zone, env, appid, hostname, now, pick).0) == AllLocs(s)
  {
    var s' := Renew(s, zone, env, appid, hostname, now, pick).0;
    forall l ensures Has(s', l) <==> Has(s, l) {}
  }

  /** Set and Renew change neither which instances there are nor where they belong. */
  ghost predicate SamePlace(i: Instance, j: Instance) {
    i.zone == j.zone && i.env == j.env && i.appid == j.appid && i.hostname == j.hostname
  }

  ghost predicate SamePlaces(a: AppData, b: AppData) {
    && b.appid == a.appid && b.zone == a.zone
    && b.instances.Keys == a.instances.Keys
    && forall h | h in a.instances :: SamePlace(a.instances[h], b.instances[h])
  }

  lemma {:induction false} AppSetKeepsPlaces(a: AppData, arg: ArgSet, decode: Decoder, i: nat, ok: bool)
    requires arg.Valid() && i <= |arg.hostnames|
    ensures SamePlaces(a, AppSetFrom(a, arg, decode, i, ok).0)
    decreases |arg.hostnames| - i
  {
    if i < |arg.hostnames| && arg.hostnames[i] in a.instances {
      var h := arg.hostnames[i];
      var dst := a.instances[h];
      var st := if |arg.status| > 0 then Truncated(arg.status[i]) else dst.status;
      var dst1 := if |arg.status| > 0 then SetStatus(dst, st, arg.setTs) else dst;
      var ok1 := |arg.status| > 0 ==> KnownStatus(st);
      var (meta, good) := if |arg.metadata| > 0 then decode(arg.metadata[i], dst1.metadata) else (dst1.metadata, true);
      if good {
        var dst3 := dst1.(metadata := meta).(latestTs := arg.setTs, dirtyTs := arg.setTs);
        var a1 := a.(instances := a.instances[h := dst3]);
        AppSetKeepsPlaces(a1, arg, decode, i + 1, ok1);
      }
    }
  }

  /** Replacing one zone's App by one with the same places. */
  lemma ReplaceLocs(s: State, k: string, z: string, a: AppData, s': State)
    requires k in s.appm && z in s.appm[k].apps && a.instances.Keys == s.appm[k].apps[z].instances.Keys
    requires s'.appm == s.appm[k := s.appm[k].(apps := s.appm[k].apps[z := a])]
    ensures AllLocs(s') == AllLocs(s)
  {
    forall l ensures Has(s', l) <==> Has(s, l) {}
  }

  lemma SetLocs(s: State, arg: ArgSet, decode: Decoder, pick: string)
    requires arg.Valid()
    ensures AllLocs(Set(s, arg, decode, pick).0) == AllLocs(s)
  {
    var key := AppsKey(arg.appid, arg.env);
    var z := First(AppsAt(s, key), arg.zone, pick);
    if z.Some? {
      var a := s.appm[key].apps[z.value];
      AppSetKeepsPlaces(a, arg, decode, 0, false);
      ReplaceLocs(s, key, z.value, AppSet(a, arg, decode).0, Set(s, arg, decode, pick).0);
    }
  }

  // ----- the invariant -----

  ghost predicate PlacedApp(k: string, z: string, a: AppData) {
    && a.zone == z
    && a.instances != map[]
    && forall h | h in a.instances :: LocOf(a.instances[h]) == Loc(k, z, h)
  }

  ghost predicate PlacedApps(k: string, p: AppsData, zones: iset<string>) {
    && p.latestTs >= 1
    && p.apps != map[]
    && forall z | z in p.apps :: z in zones && PlacedApp(k, z, p.apps[z])
  }

  /** The structural invariant over the zone names in use. */
  ghost predicate StructuredIn(s: State, zones: iset<string>) {
    forall k | k in s.appm :: PlacedApps(k, s.appm[k], zones)
  }

  ghost predicate Structured(s: State) {
    exists zones :: StructuredIn(s, zones)
  }

  /** The empty zone is the wildcard of lookups, so instances registered under
      it can be kept apart only from other instances registered under it. */
  ghost predicate WildcardFree(zones: iset<string>) {
    "" in zones ==> forall z | z in zones :: z == ""
  }

  /** The steps under consideration: registrations use the given zones, and a
      cancel request names its zone as the request format demands. */
  ghost predicate UsesZones(op: Op, zones: iset<string>) {
    match op
    case OpRegister(ins, _) => ins.zone in zones
    case OpCancel(zone, _, _, _, _, _) => zone != ""
    case _ => true
  }

  lemma SamePlacesPlaced(k: string, z: string, a: AppData, b: AppData)
    requires PlacedApp(k, z, a) && SamePlaces(a, b)
    ensures PlacedApp(k, z, b)
  {
    assert b.instances.Keys != {};
  }

  /** Replacing one placed App of one Apps keeps the whole state structured. */
  lemma ReplaceStructured(s: State, k: string, z: string, a: AppData, s': State, zones: iset<string>)
    requires StructuredIn(s, zones) && k in s.appm && z in s.appm[k].apps && PlacedApp(k, z, a)
    requires s'.appm == s.appm[k := s.appm[k].(apps := s.appm[k].apps[z := a])]
    ensures StructuredIn(s', zones)
  {
    assert PlacedApps(k, s.appm[k], zones);
    assert PlacedApps(k, s'.appm[k], zones);
  }

  lemma RegisteredPlaced(k: string, p: AppsData, ni: Instance, lt: int, zones: iset<string>)
    requires p == NO_APPS || PlacedApps(k, p, zones)
    requires k == AppsKey(ni.appid, ni.env) && ni.zone in zones
    ensures PlacedApps(k, Registered(p, ni, lt), zones)
  {
    var p1 := AppsNewApp(p, ni.zone, ni.appid, ni.latestTs);
    var a := AppRegister(p1.apps[ni.zone], ni, lt);
    assert ni.zone in p.apps ==> PlacedApp(k, ni.zone, p.apps[ni.zone]);
    assert ni.hostname in a.instances;
    assert PlacedApp(k, ni.zone, a);
    assert ni.zone in Registered(p, ni, lt).apps;
  }

  lemma RegisterStructured(s: State, ni: Instance, lt: int, zones: iset<string>)
    requires StructuredIn(s, zones) && ni.zone in zones
    ensures StructuredIn(Register(s, ni, lt), zones)
  {
    var key := AppsKey(ni.appid, ni.env);
    var a := if ni.zone in AppsAt(s, key).apps then AppsAt(s, key).apps[ni.zone] else NewAppData(ni.appid, ni.zone);
    RegisteredPlaced(key, AppsAt(s, key), ni, lt, zones);
  }

  lemma CancelledPlaced(k: string, p: AppsData, zone: string, hostname: string, lts: int, zones: iset<string>)
    requires PlacedApps(k, p, zones) && zone in p.apps && hostname in p.apps[zone].instances
    ensures var p1 := Cancelled(p, zone, zone, hostname, lts); p1.apps != map[] ==> PlacedApps(k, p1, zones)
  {
    var app := AppCancel(p.apps[zone], hostname, lts);
    assert PlacedApp(k, zone, p.apps[zone]);
    assert app.instances != map[] ==> PlacedApp(k, zone, app);
  }

  lemma CancelStructured(s: State, zone: string, env: string, appid: string, hostname: string, lts: int, pick: string,
                         zones: iset<string>)
    requires StructuredIn(s, zones) && Hits(s, zone, env, appid, pick)
    ensures StructuredIn(CancelAt(s, zone, env, appid, hostname, lts, pick).0, zones)
  {
    var key := AppsKey(appid, env);
    if Has(s, Loc(key, zone, hostname)) {
      CancelledPlaced(key, s.appm[key], zone, hostname, lts, zones);
    }
  }

  /** A stored instance is at its own path ... */
  lemma AtOwnPath(s: State, l: Loc, zones: iset<string>)
    requires StructuredIn(s, zones) && Has(s, l)
    ensures LocOf(Holder(s, l).value) == l && l.zone in zones
  {
    assert PlacedApps(l.key, s.appm[l.key], zones);
    assert PlacedApp(l.key, l.zone, s.appm[l.key].apps[l.zone]);
  }

  /** ... and the lookup an eviction makes for it returns the App it came from. */
  lemma OwnZoneIsFirst(p: AppsData, k: string, z: string, zones: iset<string>, pick: string)
    requires PlacedApps(k, p, zones) && WildcardFree(zones) && z in p.apps
    ensures First(p, z, pick) == Some(z)
  {
    if z == "" {
      var f := First(p, z, pick);
      assert f.value in p.apps;
    }
  }

  lemma CancelOwn(s: State, l: Loc, i: Instance, now: int, pick: string, zones: iset<string>)
    requires StructuredIn(s, zones) && WildcardFree(zones) && Has(s, l) && LocOf(i) == l
    ensures Without(s, {l}, CancelAt(s, i.zone, i.env, i.appid, i.hostname, now, pick).0, zones)
  {
    assert PlacedApps(l.key, s.appm[l.key], zones);
    OwnZoneIsFirst(s.appm[l.key], l.key, l.zone, zones, pick);
    CancelStructured(s, i.zone, i.env, i.appid, i.hostname, now, pick, zones);
    CancelLocs(s, i.zone, i.env, i.appid, i.hostname, now, pick);
    forall l' {
      CancelHolder(s, i.zone, i.env, i.appid, i.hostname, now, pick, l');
    }
  }

  /** `s'` is `s` without the instances at `gone`, with the guard untouched. */
  ghost predicate Without(s: State, gone: set<Loc>, s': State, zones: iset<string>) {
    && StructuredIn(s', zones)
    && AllLocs(s') == AllLocs(s) - gone
    && (forall l | Has(s', l) :: Holder(s', l) == Holder(s, l))
    && s'.gd == s.gd
  }

  /** Cancelling collected copies removes exactly their paths. */
  lemma {:induction false} CancelAllRemoves(s: State, locs: seq<Loc>, victims: seq<Instance>, now: int,
                                            picks: seq<string>, zones: iset<string>)
    requires StructuredIn(s, zones) && WildcardFree(zones)
    requires Distinct(locs) && forall l :: l in locs ==> Has(s, l)
    requires |picks| == |locs| == |victims| && forall j :: 0 <= j < |locs| ==> LocOf(victims[j]) == locs[j]
    ensures Without(s, Elements(locs), CancelAll(s, victims, now, picks), zones)
    decreases |locs|
  {
    if locs != [] {
      var n := |locs| - 1;
      CancelAllRemoves(s, locs[..n], victims[..n], now, picks[..n], zones);
      var s1 := CancelAll(s, victims[..n], now, picks[..n]);
      assert locs[n] in locs && locs[n] !in locs[..n];
      CancelOwn(s1, locs[n], victims[n], now, picks[n], zones);
      ElementsSnoc(locs);
    }
  }

  /** One eviction pass removes exactly the drawn paths. */
  lemma EvictRemoves(s: State, now: int, locs: seq<Loc>, picks: seq<string>, zones: iset<string>)
    requires StructuredIn(s, zones) && WildcardFree(zones)
    requires EvictChoice(s, now, locs) && |picks| == |locs|
    ensures Without(s, Elements(locs), Evict(s, now, locs, picks), zones)
  {
    var victims := InstancesAt(s, locs);
    forall j | 0 <= j < |locs| ensures LocOf(victims[j]) == locs[j] {
      assert locs[j] in locs;
      AtOwnPath(s, locs[j], zones);
    }
    CancelAllRemoves(s, locs, victims, now, picks, zones);
  }

  lemma RenewStructured(s: State, zone: string, env: string, appid: string, hostname: string, now: int, pick: string,
                        zones: iset<string>)
    requires StructuredIn(s, zones)
    ensures StructuredIn(Renew(s, zone, env, appid, hostname, now, pick).0, zones)
  {
    var (s', i) := Renew(s, zone, env, appid, hostname, now, pick);
    if i.Some? {
      var key := AppsKey(appid, env);
      var z := First(AppsAt(s, key), zone, pick).value;
      var a := s.appm[key].apps[z];
      assert PlacedApps(key, s.appm[key], zones);
      SamePlacesPlaced(key, z, a, AppRenew(a, hostname, now));
      ReplaceStructured(s, key, z, AppRenew(a, hostname, now), s', zones);
    }
  }

  lemma SetAppm(s: State, arg: ArgSet, decode: Decoder, pick: string, z: string)
    requires arg.Valid() && First(AppsAt(s, AppsKey(arg.appid, arg.env)), arg.zone, pick) == Some(z)
    ensures
      var key := AppsKey(arg.appid, arg.env);
      && key in s.appm && z in s.appm[key].apps
      && Set(s, arg, decode, pick).0.appm
        == s.appm[key := s.appm[key].(apps := s.appm[key].apps[z := AppSet(s.appm[key].apps[z], arg, decode).0])]
  {}

  lemma SetStructured(s: State, arg: ArgSet, decode: Decoder, pick: string, zones: iset<string>)
    requires StructuredIn(s, zones) && arg.Valid()
    ensures StructuredIn(Set(s, arg, decode, pick).0, zones)
  {
    var key := AppsKey(arg.appid, arg.env);
    var z := First(AppsAt(s, key), arg.zone, pick);
    if z.Some? {
      var a := s.appm[key].apps[z.value];
      assert PlacedApps(key, s.appm[key], zones);
      AppSetKeepsPlaces(a, arg, decode, 0, false);
      SamePlacesPlaced(key, z.value, a, AppSet(a, arg, decode).0);
      SetAppm(s, arg, decode, pick, z.value);
      ReplaceStructured(s, key, z.value, AppSet(a, arg, decode).0, Set(s, arg, decode, pick).0, zones);
    }
  }

  lemma ReloadStructured(s: State, env: string, appid: string, clients: Clients, zones: iset<string>)
    requires StructuredIn(s, zones)
    ensures StructuredIn(Reload(s, env, appid, clients), zones)
  {
    var key := AppsKey(appid, env);
    if key in s.appm {
      assert PlacedApps(key, s.appm[key], zones);
      assert PlacedApps(key, AppsUpdateLatest(s.appm[key], 0), zones);
    }
  }

  lemma StepStructured(s: State, op: Op, zones: iset<string>)
    requires StructuredIn(s, zones) && WildcardFree(zones)
    requires Enabled(s, op) && UsesZones(op, zones)
    ensures StructuredIn(Apply(s, op), zones)
  {
    match op
    case OpRegister(ins, lt) => RegisterStructured(s, ins, lt, zones);
    case OpRenew(zone, env, appid, hostname, now, pick) =>
      RenewStructured(s, zone, env, appid, hostname, now, pick, zones);
    case OpCancel(zone, env, appid, hostname, lts, pick) =>
      CancelStructured(s, zone, env, appid, hostname, lts, pick, zones);
    case OpSet(arg, decode, pick) => SetStructured(s, arg, decode, pick, zones);
    case OpEvict(now, locs, picks) => EvictRemoves(s, now, locs, picks, zones);
    case OpReload(env, appid, clients) => ReloadStructured(s, env, appid, clients, zones);
    case _ =>
  }

  lemma {:induction false} StateStructured(states: seq<State>, ops: seq<Op>, zones: iset<string>, i: nat)
    requires RunFromStart(states, ops) && WildcardFree(zones) && i <= |ops|
    requires forall op | op in ops :: UsesZones(op, zones)
    ensures StructuredIn(states[i], zones)
  {
    if i > 0 {
      StateStructured(states, ops, zones, i - 1);
      assert ops[i - 1] in ops && states[i - 1 + 1] == states[i];
      StepStructured(states[i - 1], ops[i - 1], zones);
    }
  }

  lemma RunStructured(states: seq<State>, ops: seq<Op>, zones: iset<string>)
    requires RunFromStart(states, ops) && WildcardFree(zones)
    requires forall op | op in ops :: UsesZones(op, zones)
    ensures forall i :: 0 <= i < |states| ==> StructuredIn(states[i], zones)
  {
    forall i: nat | i < |states| ensures StructuredIn(states[i], zones) {
      StateStructured(states, ops, zones, i);
    }
  }

  // ----- the exact condition on zone names -----

  function Plain(appid: string, env: string, zone: string, hostname: string): Instance {
    Instance("", zone, env, appid, hostname, [], "", map[], STATUS_UP, 0, 0, 0, 0, 0)
  }

  /** The state after the same host registered in a named zone and under "". */
  ghost predicate TwoZones(s: State, k: string, zone: string, i1: Instance, i2: Instance) {
    && s.appm.Keys == {k}
    && s.appm[k].apps.Keys == {zone, ""}
    && s.appm[k].apps[zone].instances == map[i1.hostname := i1]
    && s.appm[k].apps[""].instances == map[i2.hostname := i2]
  }

  lemma RegisterTwoZones(a: string, e: string, zone: string, h: string)
    requires zone != ""
    ensures
      var i1, i2 := Plain(a, e, zone, h), Plain(a, e, "", h);
      TwoZones(Register(Register(EMPTY, i1, 0), i2, 0), AppsKey(a, e), zone, i1, i2)
  {
    var i1 := Plain(a, e, zone, h);
    var s1 := Register(EMPTY, i1, 0);
    assert s1.appm.Keys == {AppsKey(a, e)} && s1.appm[AppsKey(a, e)].apps.Keys == {zone};
  }

  lemma TwoZonesLocs(s: State, k: string, zone: string, i1: Instance, i2: Instance)
    requires TwoZones(s, k, zone, i1, i2) && zone != "" && i1.hostname == i2.hostname
    ensures AllLocs(s) == {Loc(k, zone, i1.hostname), Loc(k, "", i2.hostname)} && |AllLocs(s)| == 2
  {
    assert Loc(k, zone, i1.hostname) != Loc(k, "", i2.hostname);
  }

  lemma TwoZonesChoice(s: State, k: string, zone: string, i1: Instance, i2: Instance, now: int)
    requires TwoZones(s, k, zone, i1, i2) && zone != "" && i1.hostname == i2.hostname
    requires i1.renewTs == i2.renewTs == 0 && now > EVICT_CEILING
    ensures EvictChoice(s, now, [Loc(k, "", i2.hostname)])
  {
    var l1, l2 := Loc(k, zone, i1.hostname), Loc(k, "", i1.hostname);
    TwoZonesLocs(s, k, zone, i1, i2);
    assert ExpiredLocs(s, now) == {l1, l2};
  }

  lemma TwoZonesCancel(s: State, zone: string, i1: Instance, i2: Instance, now: int)
    requires TwoZones(s, AppsKey(i2.appid, i2.env), zone, i1, i2) && zone != "" && i1.hostname == i2.hostname
    ensures
      var s' := CancelAt(s, "", i2.env, i2.appid, i2.hostname, now, zone).0;
      AllLocs(s') == {} && !Structured(s')
  {
    var k := AppsKey(i2.appid, i2.env);
    var s' := CancelAt(s, "", i2.env, i2.appid, i2.hostname, now, zone).0;
    var p := Cancelled(s.appm[k], zone, "", i2.hostname, now);
    assert p.apps.Keys == {zone} && p.apps[zone].instances == map[];
    assert s'.appm == s.appm[k := p];
    forall zones ensures !StructuredIn(s', zones) {
      assert !PlacedApp(k, zone, s'.appm[k].apps[zone]);
      assert !PlacedApps(k, s'.appm[k], zones);
    }
  }

  lemma EvictSingle(s: State, now: int, l: Loc, pick: string, i: Instance)
    requires EvictChoice(s, now, [l]) && Holder(s, l) == Some(i)
    ensures Evict(s, now, [l], [pick]) == CancelAt(s, i.zone, i.env, i.appid, i.hostname, now, pick).0
  {
    assert l in [l];
    assert InstancesAt(s, [l]) == [i];
    assert [i][..0] == [] && [pick][..0] == [];
    assert CancelAll(s, [], now, []) == s;
  }

  /** The same host under the wildcard zone and under a named zone: evicting the
      former empties the latter and deletes the former's App, live host and all. */
  lemma WildcardZoneBreaks(a: string, e: string, h: string, zone: string, zones: iset<string>)
    returns (states: seq<State>, ops: seq<Op>)
    requires "" in zones && zone in zones && zone != ""
    ensures RunFromStart(states, ops) && (forall op | op in ops :: UsesZones(op, zones))
    ensures |ops| == 3 && ops[2].OpEvict? && |ops[2].locs| == 1
    ensures |AllLocs(states[2])| == 2 && AllLocs(states[3]) == {} && !Structured(states[3])
  {
    var i1, i2 := Plain(a, e, zone, h), Plain(a, e, "", h);
    var s1 := Register(EMPTY, i1, 0);
    var s2 := Register(s1, i2, 0);
    RegisterTwoZones(a, e, zone, h);
    var now := EVICT_CEILING + 1;
    var l2 := Loc(AppsKey(a, e), "", h);
    TwoZonesChoice(s2, AppsKey(a, e), zone, i1, i2, now);
    TwoZonesCancel(s2, zone, i1, i2, now);
    TwoZonesLocs(s2, AppsKey(a, e), zone, i1, i2);
    EvictSingle(s2, now, l2, zone, i2);
    var op := OpEvict(now, [l2], [zone]);
    states, ops := ThreeSteps(EMPTY, OpRegister(i1, 0), OpRegister(i2, 0), op);
  }

  /** The structure holds in every state of every run exactly when the zones
      that instances register under do not mix the wildcard with a real zone. */
  lemma StructuredIffWildcardFree(zones: iset<string>)
    ensures WildcardFree(zones) <==>
      forall states, ops | RunFromStart(states, ops) && (forall op | op in ops :: UsesZones(op, zones)) ::
        forall i :: 0 <= i < |states| ==> Structured(states[i])
  {
    if WildcardFree(zones) {
      forall states, ops | RunFromStart(states, ops) && (forall op | op in ops :: UsesZones(op, zones))
        ensures forall i :: 0 <= i < |states| ==> Structured(states[i])
      {
        RunStructured(states, ops, zones);
      }
    } else {
      var zone :| zone in zones && zone != "";
      var states, ops := WildcardZoneBreaks("a", "e", "h", zone, zones);
    }
  }

  /** A live instance of the given application, environment and zone. */
  ghost predicate LiveAt(s: State, l: Loc, zone: string, env: string, appid: string) {
    Has(s, l) && var i := Holder(s, l).value; i.appid == appid && i.env == env && i.zone == zone
  }

  lemma LiveUnderKey(s: State, l: Loc, zone: string, env: string, appid: string)
    requires Structured(s) && DashFree(env) && (forall l' | Has(s, l') :: DashFree(Holder(s, l').value.env))
    ensures LiveAt(s, l, zone, env, appid) <==> Has(s, l) && l.key == AppsKey(appid, env) && l.zone == zone
  {
    if Has(s, l) {
      var zones :| StructuredIn(s, zones);
      AtOwnPath(s, l, zones);
      var i := Holder(s, l).value;
      if l.key == AppsKey(appid, env) {
        AppsKeyInjective(i.appid, i.env, appid, env);
      }
    }
  }

  lemma StoredZoneIsLive(s: State, k: string, z: string) returns (l: Loc)
    requires Structured(s) && k in s.appm && z in s.appm[k].apps
    ensures Has(s, l) && l.key == k && l.zone == z && s.appm[k].latestTs >= 1
  {
    var zones :| StructuredIn(s, zones);
    assert PlacedApps(k, s.appm[k], zones) && PlacedApp(k, z, s.appm[k].apps[z]);
    assert s.appm[k].apps[z].instances.Keys != {};
    var h :| h in s.appm[k].apps[z].instances;
    l := Loc(k, z, h);
  }

  /** With nothing seen yet, a fetch in a named zone fails exactly when no
      instance with that application, environment and zone is stored. */
  lemma NothingFoundIffNoneLive(s: State, zone: string, env: string, appid: string, status: bv32, pick: string)
    requires Structured(s) && zone != ""
    requires DashFree(env) && forall l | Has(s, l) :: DashFree(Holder(s, l).value.env)
    ensures Fetch(s, zone, env, appid, 0, status, pick) == NothingFound <==> !exists l :: LiveAt(s, l, zone, env, appid)
    ensures Fetch(s, zone, env, appid, 0, status, pick) != NotModified
  {
    var key := AppsKey(appid, env);
    if key in s.appm {
      StructuredVersion(s, key);
      if zone in s.appm[key].apps {
        var l := StoredZoneIsLive(s, key, zone);
        LiveUnderKey(s, l, zone, env, appid);
      }
    }
    forall l ensures LiveAt(s, l, zone, env, appid) ==> key in s.appm && zone in s.appm[key].apps {
      LiveUnderKey(s, l, zone, env, appid);
    }
  }

  lemma StructuredVersion(s: State, k: string)
    requires Structured(s) && k in s.appm
    ensures s.appm[k].latestTs >= 1
  {
    var zones :| StructuredIn(s, zones);
    assert PlacedApps(k, s.appm[k], zones);
  }

  /** The wildcard fetch answers under the key it was asked with, so it reports
      one entry however many zones there are. */
  lemma WildcardFetchKeepsOneZone(p: AppsData, lts: int, status: bv32, pick: string)
    requires InstanceInfo(p, "", lts, status, pick).Found?
    ensures
      var info := InstanceInfo(p, "", lts, status, pick).info;
      && info.instances.Keys == {""}
      && (exists z :: z in p.apps && info.instances[""] == Visible(p.apps[z], status))
      && (|info.instances| == |p.apps| <==> |p.apps| == 1)
  {
    var z := First(p, "", pick).value;
    assert z in p.apps;
  }

  /** Two hosts of one application in two named zones: a client that asks for all zones
      is given one of them, whichever the iteration meets last. */
  lemma WildcardFetchLosesAHost(a: string, e: string, y: string, z: string, g: string, h: string)
    returns (states: seq<State>, ops: seq<Op>)
    requires y != "" && z != "" && y != z && g != h
    ensures RunFromStart(states, ops) && ops == [OpRegister(Plain(a, e, y, g), 0), OpRegister(Plain(a, e, z, h), 0)]
    ensures AllLocs(states[2]) == {Loc(AppsKey(a, e), y, g), Loc(AppsKey(a, e), z, h)}
    ensures forall pick ::
      var r := Fetch(states[2], "", e, a, 0, STATUS_UP, pick);
      && r.Found? && r.info.instances.Keys == {""}
      && (r.info.instances[""].Keys == {g} || r.info.instances[""].Keys == {h})
  {
    var i1, i2 := Plain(a, e, y, g), Plain(a, e, z, h);
    var k := AppsKey(a, e);
    var s1 := Register(EMPTY, i1, 0);
    var s2 := Register(s1, i2, 0);
    states, ops := [EMPTY, s1, s2], [OpRegister(i1, 0), OpRegister(i2, 0)];
    RegisterLocs(EMPTY, i1, 0);
    RegisterLocs(s1, i2, 0);
    assert AllLocs(EMPTY) == {};
    NamedZonesStored(a, e, y, z, g, h);
    forall pick
      ensures
        var r := Fetch(s2, "", e, a, 0, STATUS_UP, pick);
        && r.Found? && r.info.instances.Keys == {""}
        && (r.info.instances[""].Keys == {g} || r.info.instances[""].Keys == {h})
    {
      var f := First(s2.appm[k], "", pick);
      assert y in s2.appm[k].apps && f.Some?;
      OneUpVisible(s2.appm[k].apps[f.value], if f.value == y then i1 else i2);
    }
  }

  lemma NamedZonesStored(a: string, e: string, y: string, z: string, g: string, h: string)
    requires y != z
    ensures
      var i1, i2 := Plain(a, e, y, g), Plain(a, e, z, h);
      var s := Register(Register(EMPTY, i1, 0), i2, 0);
      var k := AppsKey(a, e);
      && k in s.appm && s.appm[k].latestTs > 0 && s.appm[k].apps.Keys == {y, z}
      && s.appm[k].apps[y].instances == map[g := i1] && s.appm[k].apps[z].instances == map[h := i2]
  {
    var i1 := Plain(a, e, y, g);
    var s1 := Register(EMPTY, i1, 0);
    assert s1.appm.Keys == {AppsKey(a, e)} && s1.appm[AppsKey(a, e)].apps.Keys == {y};
  }

  lemma OneUpVisible(app: AppData, i: Instance)
    requires app.instances == map[i.hostname := i] && i.status == STATUS_UP
    ensures Visible(app, STATUS_UP).Keys == {i.hostname}
  {
    assert STATUS_UP & STATUS_UP == 1;
  }
}
