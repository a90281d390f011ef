/** The Registry object of registry/registery.go over its Apps and App objects. Each
    exported method is one atomic step, proved against the step of RegistryModel. */
module RegistryObject {
  import opened Sequences
  import opened Wrappers

  import opened Keys
  import opened Instances
  import opened GuardModel
  import opened RegistryModel
  import opened AppObjects
  import opened GuardObject
  import opened Waiters
  import opened Traversal
  import opened PollAnswers
  import opened RegistrySteps

  /** The expired ones among the copies at `all`. */
  method PickExpired(list: seq<Instance>, protect: bool, now: int, ghost s: State, ghost all: seq<Loc>)
    returns (eis: seq<Instance>, ghost locs: seq<Loc>)
    requires CopiesOf(s, list, all)
    ensures CopiesOf(s, eis, locs) && Elements(locs) == ExpiredIn(s, Elements(all), protect, now)
  {
    eis, locs := [], [];
    var i := 0;
    while i < |list|
      invariant 0 <= i <= |list|
      invariant CopiesOf(s, eis, locs)
      invariant Elements(locs) == ExpiredIn(s, Elements(all[..i]), protect, now)
    {
      var delta := now - list[i].renewTs;
      ExpiredInSnoc(s, all, i, protect, now);
      if (!protect && delta > EVICT_THRESHOLD) || delta > EVICT_CEILING {
        assert all[i] !in Elements(all[..i]);
        eis, locs := eis + [list[i]], locs + [all[i]];
        ElementsSnoc(locs);
      }
      i := i + 1;
    }
    assert all[..i] == all;
  }

  class Registry {
    var appm: map<string, Apps>
    var conns: map<string, Hosts>
    var schedulers: map<string, Clients>
    var nextCh: nat
    const gd: Guard

    /** The values of the entries, and the objects they are made of. */
    ghost var data: map<string, AppsData>
    ghost var entries: set<Apps>
    ghost var units: set<App>

    ghost predicate Valid()
      reads this`appm, this`data, this`entries, this`units, entries, units
    {
      && appm.Keys == data.Keys
      && (forall k | k in appm :: appm[k] in entries && appm[k].apps.Values <= units)
      && forall k | k in appm :: EntryValid(k, appm[k])
    }

    ghost predicate EntryValid(k: string, p: Apps)
      requires k in data
      reads this`data, p, p.apps.Values
    {
      p.home == k && p.Valid() && p.Value() == data[k]
    }

    ghost function Value(): State
      reads this`data, this`conns, this`schedulers, this`nextCh, gd
    {
      State(data, conns, gd.Value(), schedulers, nextCh)
    }

    constructor (loaded: map<string, Clients>)
      ensures Valid() && Initial(Value()) && schedulers == loaded
      ensures fresh(gd) && entries == {} && units == {}
    {
      appm, conns, schedulers, nextCh := map[], map[], loaded, 0;
      data, entries, units := map[], {}, {};
      gd := new Guard();
    }

    // ----- one entry at a time -----

    /** Entries share no objects. */
    lemma Apart(key: string)
      requires Valid() && key in appm
      ensures forall k | k in appm && k != key :: appm[k] != appm[key] && appm[k].apps.Values !! appm[key].apps.Values
    {
      assert EntryValid(key, appm[key]);
      forall k | k in appm && k != key ensures appm[k] != appm[key] && appm[k].apps.Values !! appm[key].apps.Values {
        assert EntryValid(k, appm[k]);
        forall a | a in appm[k].apps.Values ensures a !in appm[key].apps.Values {
          assert a.home == k;
        }
      }
    }

    /** Takes over the new value `d` of an entry whose objects were changed. */
    ghost method Refresh(key: string, d: AppsData)
      requires appm.Keys == data.Keys && key in appm
      requires forall k | k in appm :: appm[k] in entries && appm[k].apps.Values <= units
      requires appm[key].home == key && appm[key].Valid() && appm[key].Value() == d
      requires forall k | k in appm && k != key :: EntryValid(k, appm[k])
      modifies this`data
      ensures Valid() && data == old(data)[key := d]
    {
      data := data[key := d];
      forall k | k in appm ensures EntryValid(k, appm[k]) {}
    }

    /** The same for an entry that may have new zones. */
    ghost method RefreshGrown(key: string, d: AppsData)
      requires appm.Keys == data.Keys && key in appm && appm[key] in entries
      requires appm[key].home == key && appm[key].Valid() && appm[key].Value() == d
      requires forall k | k in appm && k != key ::
        appm[k] in entries && appm[k].apps.Values <= units && EntryValid(k, appm[k])
      modifies this`data, this`units
      ensures Valid() && data == old(data)[key := d] && units == old(units) + appm[key].apps.Values
    {
      units := units + appm[key].apps.Values;
      Refresh(key, d);
    }

    /** The Apps object of a key, created if missing. */
    method NewApps(key: string) returns (p: Apps)
      requires Valid()
      modifies this`appm, this`data, this`entries
      ensures Valid() && key in appm && p == appm[key] && fresh(entries - old(entries))
      ensures data == if key in old(data) then old(data) else old(data)[key := NO_APPS]
    {
      if key in appm {
        p := appm[key];
      } else {
        p := new Apps(key);
        appm, data, entries := appm[key := p], data[key := NO_APPS], entries + {p};
      }
    }

    method StoreIn(key: string, p: Apps, ins: Instance, latestTime: int) returns (i: Instance, isNew: bool)
      requires Valid() && key in appm && p == appm[key]
      modifies this`data, this`units, entries, units
      ensures Valid() && fresh(units - old(units))
      ensures data == old(data)[key := Registered(old(data)[key], ins, latestTime)]
      ensures isNew <==> InEntry(old(data)[key], ins.zone, ins.hostname).None?
      ensures i == Merge(InEntry(old(data)[key], ins.zone, ins.hostname), ins)
    {
      assert EntryValid(key, p);
      Apart(key);
      i, isNew := RegisterInstance(p, ins, latestTime);
      RefreshGrown(key, p.Value());
    }

    /** Where an App is filed, in the objects and in their values. */
    ghost predicate Located(key: string, z: string, found: App)
      reads this`appm, this`data, appm.Values
    {
      && key in appm && z in appm[key].apps && found == appm[key].apps[z]
      && key in data && z in data[key].apps
    }

    /** `Apps.App(zone)[0]` of the entry under `key`, and the zone it is filed under. */
    method FirstApp(key: string, zone: string) returns (found: Option<App>, ghost z: Option<string>, ghost pick: string)
      requires Valid()
      ensures z == First(EntryAt(data, key), zone, pick) && (found.Some? <==> z.Some?)
      ensures zone != "" ==> z == if key in appm && zone in appm[key].apps then Some(zone) else None
      ensures z.Some? ==> Located(key, z.value, found.value)
    {
      found, z, pick := None, None, "";
      if key !in appm {
        return;
      }
      var p := appm[key];
      assert EntryValid(key, p);
      var apps, zones := p.App(zone);
      if |apps| > 0 {
        found, z, pick := Some(apps[0]), Some(zones[0]), zones[0];
      }
      FirstIs(data[key], zone, pick);
    }

    method RenewIn(key: string, found: App, ghost z: string, hostname: string, now: int) returns (i: Option<Instance>)
      requires Valid() && Located(key, z, found)
      modifies this`data, units
      ensures Valid() && gd.Value() == old(gd.Value())
      ensures i.Some? <==> hostname in old(data)[key].apps[z].instances
      ensures i.None? ==> data == old(data)
      ensures i.Some? ==>
        var a := old(data)[key].apps[z];
        && i == Some(a.instances[hostname].(renewTs := now))
        && data == old(data)[key := old(data)[key].(apps := old(data)[key].apps[z := AppRenew(a, hostname, now)])]
    {
      var p := appm[key];
      assert EntryValid(key, p);
      Apart(key);
      i := RenewInstance(p, found, z, hostname, now);
      Refresh(key, p.Value());
    }

    method SetIn(key: string, found: App, ghost z: string, arg: ArgSet, decode: Decoder) returns (ok: bool)
      requires Valid() && arg.Valid() && Located(key, z, found)
      modifies this`data, units
      ensures Valid()
      ensures
        var (a, done) := AppSet(old(data)[key].apps[z], arg, decode);
        ok == done && data == old(data)[key := old(data)[key].(apps := old(data)[key].apps[z := a])]
    {
      var p := appm[key];
      assert EntryValid(key, p);
      Apart(key);
      ok := SetInstances(p, found, z, arg, decode);
      Refresh(key, p.Value());
    }

    method CancelIn(key: string, found: App, ghost z: string, zone: string, hostname: string, lts: int)
      returns (i: Option<Instance>)
      requires Valid() && Located(key, z, found)
      modifies this`data, entries, units
      ensures Valid()
      ensures i.Some? <==> hostname in old(data)[key].apps[z].instances
      ensures i.None? ==> data == old(data)
      ensures i.Some? ==>
        && i == Some(old(data)[key].apps[z].instances[hostname].(latestTs := lts))
        && data == old(data)[key := Cancelled(old(data)[key], z, zone, hostname, lts)]
    {
      var p := appm[key];
      assert EntryValid(key, p);
      Apart(key);
      i := CancelInstance(p, found, z, zone, hostname, lts);
      Refresh(key, p.Value());
    }

    lemma EntryZones(key: string)
      requires Valid() && key in appm
      ensures data[key].apps.Keys == appm[key].apps.Keys
      ensures forall z | z in appm[key].apps :: appm[key].apps[z].Value() == data[key].apps[z]
    {
      assert EntryValid(key, appm[key]);
    }

    /** Deletes an entry that has run empty. */
    method DropEmpty(key: string)
      requires Valid() && key in appm
      modifies this`appm, this`data
      ensures Valid() && gd.Value() == old(gd.Value())
      ensures data == if old(data)[key].apps == map[] then old(data) - {key} else old(data)
    {
      EntryZones(key);
      var n := |appm[key].apps|;
      assert n == 0 <==> appm[key].apps.Keys == {};
      if n == 0 {
        Forget(key);
      }
    }

    method Forget(key: string)
      requires Valid() && key in appm
      modifies this`appm, this`data
      ensures Valid() && data == old(data) - {key}
    {
      appm, data := appm - {key}, data - {key};
      forall k | k in appm ensures EntryValid(k, appm[k]) {}
    }

    method RaiseIn(key: string)
      requires Valid() && key in appm
      modifies this`data, entries
      ensures Valid()
      ensures data == old(data)[key := AppsUpdateLatest(old(data)[key], 0)]
    {
      var p := appm[key];
      assert EntryValid(key, p);
      Apart(key);
      p.UpdateLatest(0);
      Refresh(key, p.Value());
    }

    // ----- the exported operations -----

    /** Finds or creates the entry of an instance's application and stores it there. */
    method Keep(ins: Instance, latestTime: int) returns (i: Instance, isNew: bool)
      requires Valid()
      modifies this`appm, this`data, this`entries, this`units, entries, units
      ensures Valid() && fresh(entries - old(entries)) && fresh(units - old(units))
      ensures Kept(old(data), ins, latestTime, data, i, isNew)
    {
      var key := AppsKey(ins.appid, ins.env);
      ghost var d0 := data;
      var p := NewApps(key);
      ghost var d1 := data;
      i, isNew := StoreIn(key, p, ins, latestTime);
      KeptIs(d0, d1, ins, latestTime, data, i, isNew);
    }

    /** Registering up to the broadcast. */
    method Admit(ins: Instance, latestTime: int) returns (i: Instance)
      requires Valid()
      modifies this`appm, this`data, this`entries, this`units, gd, entries, units
      ensures Valid() && fresh(entries - old(entries)) && fresh(units - old(units))
      ensures Value() == Admitted(old(Value()), ins, latestTime)
      ensures i == Merge(Holder(old(Value()), LocOf(ins)), ins)
    {
      ghost var s := Value();
      var isNew;
      i, isNew := Keep(ins, latestTime);
      KeptAdmits(s, ins, latestTime, data, i, isNew);
      if isNew {
        Expect();
      }
    }

    method Register(ins: Instance, latestTime: int) returns (sent: map<string, Offer>)
      requires Valid()
      modifies this`appm, this`data, this`entries, this`units, this`conns, gd, entries, units
      ensures Valid() && fresh(entries - old(entries)) && fresh(units - old(units))
      ensures Value() == RegistryModel.Register(old(Value()), ins, latestTime)
      ensures
        var i := Merge(Holder(old(Value()), LocOf(ins)), ins);
        OffersOf(Admitted(old(Value()), ins, latestTime), i.env, i.appid, sent)
    {
      var i := Admit(ins, latestTime);
      sent := Broadcast(i.env, i.appid);
    }

    /** Expects the heartbeats of one more instance. */
    method Expect()
      requires Valid()
      modifies gd
      ensures Valid() && Value() == old(Value()).(gd := IncrExp(old(gd.Value())))
    {
      gd.IncrExp();
    }

    /** Counts one heartbeat. */
    method Beat()
      requires Valid()
      modifies gd
      ensures Valid() && Value() == old(Value()).(gd := IncrFac(old(gd.Value())))
    {
      gd.IncrFac();
    }

    method Renew(zone: string, env: string, appid: string, hostname: string, now: int)
      returns (i: Option<Instance>, ghost pick: string)
      requires Valid()
      modifies this`data, gd, units
      ensures Valid()
      ensures (Value(), i) == RegistryModel.Renew(old(Value()), zone, env, appid, hostname, now, pick)
    {
      ghost var s := Value();
      i, pick := RenewFirst(zone, env, appid, hostname, now);
      RenewedIs(s, zone, env, appid, hostname, now, pick);
      if i.Some? {
        Beat();
      }
    }

    /** A heartbeat up to its being counted. */
    method RenewFirst(zone: string, env: string, appid: string, hostname: string, now: int)
      returns (i: Option<Instance>, ghost pick: string)
      requires Valid()
      modifies this`data, units
      ensures Valid() && (Value(), i) == Renewed(old(Value()), zone, env, appid, hostname, now, pick)
    {
      var found;
      ghost var z;
      found, z, pick := FirstApp(AppsKey(appid, env), zone);
      i := None;
      if found.Some? {
        i := RenewIn(AppsKey(appid, env), found.value, z.value, hostname, now);
      }
    }

    method Cancel(zone: string, env: string, appid: string, hostname: string, lts: int)
      returns (i: Option<Instance>, sent: map<string, Offer>, ghost pick: string)
      requires Valid()
      modifies this`appm, this`data, this`conns, gd, entries, units
      ensures Valid()
      ensures (Value(), i) == RegistryModel.Cancel(old(Value()), zone, env, appid, hostname, lts, pick)
      ensures Offered(old(Value()), zone, env, appid, hostname, lts, pick, sent)
    {
      i, sent, pick := CancelAt(zone, env, appid, hostname, lts);
      if i.Some? {
        gd.DecrExp();
      }
    }

    /** The cancel that Cancel and evict share; it leaves the guard alone. */
    method CancelAt(zone: string, env: string, appid: string, hostname: string, lts: int)
      returns (i: Option<Instance>, sent: map<string, Offer>, ghost pick: string)
      requires Valid()
      modifies this`appm, this`data, this`conns, entries, units
      ensures Valid()
      ensures (Value(), i) == RegistryModel.CancelAt(old(Value()), zone, env, appid, hostname, lts, pick)
      ensures Offered(old(Value()), zone, env, appid, hostname, lts, pick, sent)
    {
      ghost var s := Value();
      i, pick := Remove(zone, env, appid, hostname, lts);
      RemovedIs(s, zone, env, appid, hostname, lts, pick);
      sent := map[];
      if i.Some? {
        sent := Broadcast(env, appid);
      }
    }

    /** Cancelling up to the broadcast. */
    method Remove(zone: string, env: string, appid: string, hostname: string, lts: int)
      returns (i: Option<Instance>, ghost pick: string)
      requires Valid()
      modifies this`appm, this`data, entries, units
      ensures Valid()
      ensures (Value(), i) == Removed(old(Value()), zone, env, appid, hostname, lts, pick)
    {
      var key := AppsKey(appid, env);
      ghost var s := Value();
      var found;
      ghost var z;
      found, z, pick := FirstApp(key, zone);
      if found.None? {
        return None, pick;
      }
      i := RemoveIn(key, found.value, z.value, zone, hostname, lts);
      assert Value() == s.(appm := data);
      RemovedFrom(s, zone, env, appid, hostname, lts, pick, z.value);
    }

    /** Cancels in one entry and deletes the entry if that empties it. */
    method RemoveIn(key: string, found: App, ghost z: string, zone: string, hostname: string, lts: int)
      returns (i: Option<Instance>)
      requires Valid() && Located(key, z, found)
      modifies this`appm, this`data, entries, units
      ensures Valid() && gd.Value() == old(gd.Value())
      ensures (data, i) == RemovedEntries(old(data), key, z, zone, hostname, lts)
    {
      ghost var d := data;
      assert key in d && z in d[key].apps;
      i := CancelIn(key, found, z, zone, hostname, lts);
      ghost var d1 := data;
      if i.Some? {
        DropEmpty(key);
      }
      RemovedInTwo(d, key, z, zone, hostname, lts, d1, i, data);
    }

    method Set(arg: ArgSet, decode: Decoder) returns (ok: bool, sent: map<string, Offer>, ghost pick: string)
      requires Valid() && arg.Valid()
      modifies this`data, this`conns, units
      ensures Valid()
      ensures (Value(), ok) == RegistryModel.Set(old(Value()), arg, decode, pick)
      ensures if ok then OffersOf(Changed(old(Value()), arg, decode, pick).0, arg.env, arg.appid, sent)
        else sent == map[]
    {
      ghost var s := Value();
      ok, pick := SetFirst(arg, decode);
      ChangedIs(s, arg, decode, pick);
      sent := map[];
      if ok {
        sent := Broadcast(arg.env, arg.appid);
      }
    }

    /** A set up to its broadcast. */
    method SetFirst(arg: ArgSet, decode: Decoder) returns (ok: bool, ghost pick: string)
      requires Valid() && arg.Valid()
      modifies this`data, units
      ensures Valid() && (Value(), ok) == Changed(old(Value()), arg, decode, pick)
    {
      var found;
      ghost var z;
      found, z, pick := FirstApp(AppsKey(arg.appid, arg.env), arg.zone);
      ok := false;
      if found.Some? {
        ok := SetIn(AppsKey(arg.appid, arg.env), found.value, z.value, arg, decode);
      }
    }

    method Fetch(zone: string, env: string, appid: string, latestTime: int, status: bv32)
      returns (r: FetchResult, ghost pick: string)
      requires Valid()
      ensures Valid() && Value() == old(Value())
      ensures r == RegistryModel.Fetch(Value(), zone, env, appid, latestTime, status, pick)
      ensures zone != "" ==> r == RegistryModel.Fetch(Value(), zone, env, appid, latestTime, status, "")
    {
      var key := AppsKey(appid, env);
      pick := "";
      if key !in appm {
        return NothingFound, pick;
      }
      assert EntryValid(key, appm[key]);
      r, pick := appm[key].InstanceInfo(zone, latestTime, status);
      if r.Found? && key in schedulers {
        r := Found(r.info.(clients := Some(schedulers[key])));
      }
    }

    /** Clears the key and offers the current view to everyone parked under it. */
    method Broadcast(env: string, appid: string) returns (sent: map<string, Offer>)
      requires Valid()
      modifies this`conns
      ensures Valid()
      ensures Value() == RegistryModel.Broadcast(old(Value()), env, appid)
      ensures OffersOf(old(Value()), env, appid, sent)
    {
      var key := PollKey(appid, env);
      sent := map[];
      if key !in conns {
        return;
      }
      var hosts := conns[key];
      ghost var s := Value();
      conns := conns - {key};
      sent := OfferAll(env, appid, hosts, s);
    }

    /** The loop of the broadcast over the connections of its key. */
    method OfferAll(env: string, appid: string, hosts: Hosts, ghost s: State) returns (sent: map<string, Offer>)
      requires Valid() && data == s.appm && schedulers == s.schedulers
      ensures Valid() && Value() == old(Value())
      ensures forall h :: h in sent <==> h in hosts && Finds(s, hosts[h].arg.zone, env, appid, 0)
      ensures forall h | h in sent :: OfferTo(s, env, appid, hosts[h], sent[h])
    {
      sent := map[];
      ghost var t := Value();
      var left := hosts.Keys;
      while left != {}
        invariant left <= hosts.Keys && Valid() && Value() == t
        invariant forall h :: h in sent <==> h in hosts && h !in left && Finds(s, hosts[h].arg.zone, env, appid, 0)
        invariant forall h | h in sent :: OfferTo(s, env, appid, hosts[h], sent[h])
        decreases left
      {
        var host :| host in left;
        left := left - {host};
        var conn := hosts[host];
        var r, pick := Fetch(conn.arg.zone, env, appid, 0, STATUS_UP);
        FetchSameEntries(s, t, conn.arg.zone, env, appid, 0, STATUS_UP, pick);
        if r.Found? {
          sent := sent[host := Offer(conn.ch, conn.count, r.info)];
        }
      }
    }

    /** Answers at once if anything is newer, or else parks the caller. */
    method Polls(arg0: ArgPolls)
      returns (ch: Option<nat>, notify: bool, ins: map<string, Info>, miss: seq<string>, err: PollError)
      requires Valid()
      modifies this`conns, this`nextCh
      ensures Valid()
      ensures Value() == RegistryModel.Polls(old(Value()), arg0)
      ensures Asked(old(Value()), Normalized(arg0), |arg0.appids|, ins, notify, miss, err)
      ensures notify <==> Notifies(old(Value()), Normalized(arg0))
      ensures ch == PolledChannel(old(Value()), Normalized(arg0))
    {
      var arg := Normalized(arg0);
      SamePolls(Value(), arg0);
      ch, notify, ins, miss, err := AskAndSettle(arg);
    }

    method AskAndSettle(arg: ArgPolls)
      returns (ch: Option<nat>, notify: bool, ins: map<string, Info>, miss: seq<string>, err: PollError)
      requires Valid() && |arg.appids| == |arg.latestTs|
      modifies this`conns, this`nextCh
      ensures Valid()
      ensures Value() == RegistryModel.Polls(old(Value()), arg)
      ensures Asked(old(Value()), arg, |arg.appids|, ins, notify, miss, err)
      ensures notify <==> Notifies(old(Value()), arg)
      ensures ch == PolledChannel(old(Value()), arg)
    {
      ghost var s := Value();
      ins, notify, miss, err := Ask(arg);
      AskedNotifies(s, arg, ins, notify, miss, err);
      ch := Settle(arg, notify);
      SettledIs(s, arg, conns, ch, nextCh);
    }

    /** A fresh channel for an answer, or a parked connection. */
    method Settle(arg: ArgPolls, notify: bool) returns (ch: Option<nat>)
      requires Valid() && |arg.appids| == |arg.latestTs|
      modifies this`conns, this`nextCh
      ensures Valid()
      ensures notify ==> ch == Some(old(nextCh)) && Value() == old(Value()).(nextCh := old(nextCh) + 1)
      ensures !notify ==>
        && Parking(conns, ch, nextCh) == ParkUpTo(Parking(old(conns), None, old(nextCh)), arg, |arg.appids|)
        && Value() == old(Value()).(conns := conns, nextCh := nextCh)
    {
      if notify {
        ch, nextCh := Some(nextCh), nextCh + 1;
      } else {
        ch := Park(arg);
      }
    }

    /** The first loop of Polls: fetch every listed application. */
    method Ask(arg: ArgPolls) returns (ins: map<string, Info>, notify: bool, miss: seq<string>, err: PollError)
      requires Valid() && |arg.appids| == |arg.latestTs|
      ensures Valid() && Value() == old(Value())
      ensures Asked(old(Value()), arg, |arg.appids|, ins, notify, miss, err)
    {
      ins, notify, miss, err := map[], false, [], NoError;
      var i := 0;
      while i < |arg.appids|
        invariant 0 <= i <= |arg.appids|
        invariant Asked(Value(), arg, i, ins, notify, miss, err) == true
      {
        ins, notify, miss, err := AskOne(arg, i, ins, notify, miss, err);
        i := i + 1;
      }
    }

    method AskOne(arg: ArgPolls, i: nat, ins0: map<string, Info>, notify0: bool, miss0: seq<string>, err0: PollError)
      returns (ins: map<string, Info>, notify: bool, miss: seq<string>, err: PollError)
      requires Valid() && i < |arg.appids| == |arg.latestTs|
      requires Asked(Value(), arg, i, ins0, notify0, miss0, err0)
      ensures Asked(Value(), arg, i + 1, ins, notify, miss, err) == true
    {
      ghost var s := Value();
      ins, notify, miss, err := ins0, notify0, miss0, err0;
      var r, pick := Fetch(arg.zone, arg.env, arg.appids[i], arg.latestTs[i], STATUS_UP);
      assert r == Answer(s, arg, i, pick);
      match r {
        case NothingFound =>
          AskedMiss(s, arg, i, ins, notify, miss, err, pick);
          miss, err := miss + [arg.appids[i]], ErrNothingFound;
        case NotModified =>
          AskedMiss(s, arg, i, ins, notify, miss, err, pick);
          err := ErrNotModified;
        case Found(info) =>
          AskedHit(s, arg, i, ins, notify, miss, err, pick);
          ins, notify, err := ins[arg.appids[i] := info], true, NoError;
      }
    }

    /** The second loop of Polls: park the caller under every listed application. */
    method Park(arg: ArgPolls) returns (ch: Option<nat>)
      requires |arg.appids| == |arg.latestTs|
      modifies this`conns, this`nextCh
      ensures Parking(conns, ch, nextCh) == ParkUpTo(Parking(old(conns), None, old(nextCh)), arg, |arg.appids|)
    {
      ch := None;
      var i := 0;
      while i < |arg.appids|
        invariant 0 <= i <= |arg.appids|
        invariant Parking(conns, ch, nextCh) == ParkUpTo(Parking(old(conns), None, old(nextCh)), arg, i)
      {
        var k := PollKey(arg.appids[i], arg.env);
        var hosts := map[];
        if k in conns {
          hosts := conns[k];
        }
        var conn;
        if arg.hostname !in hosts {
          if ch.None? {
            ch, nextCh := Some(nextCh), nextCh + 1;
          }
          conn := Conn(ch.value, arg, arg.latestTs[i], 1);
        } else {
          conn := hosts[arg.hostname];
          conn := conn.(count := conn.count + 1);
          if ch.None? {
            ch := Some(conn.ch);
          }
        }
        conns := conns[k := hosts[arg.hostname := conn]];
        i := i + 1;
      }
    }

    method DelConns(arg: ArgPolls)
      requires Valid()
      modifies this`conns
      ensures Valid()
      ensures Value() == RegistryModel.DelConns(old(Value()), arg)
    {
      var i := 0;
      while i < |arg.appids|
        invariant 0 <= i <= |arg.appids|
        invariant conns == DelUpTo(old(conns), arg, i)
      {
        var key := PollKey(arg.appids[i], arg.env);
        if key in conns {
          var hosts := conns[key];
          if arg.hostname in hosts {
            var conn := hosts[arg.hostname];
            if conn.count > 1 {
              hosts := hosts[arg.hostname := conn.(count := conn.count - 1)];
            } else {
              hosts := hosts - {arg.hostname};
            }
            conns := conns[key := hosts];
          }
        }
        i := i + 1;
      }
    }

    /** Restarts the expectation from a count of everything stored. */
    method ResetExp()
      requires Valid()
      modifies gd
      ensures Valid() && Value() == RegistryModel.ResetExp(old(Value()))
    {
      var cnt := CountAll();
      gd.SetExp(cnt);
    }

    method CountAll() returns (cnt: nat)
      requires Valid()
      ensures cnt == |AllLocs(Value())|
    {
      cnt := 0;
      ghost var s := Value();
      CoveredStart(s);
      var keys := appm.Keys;
      while keys != {}
        invariant keys <= appm.Keys
        invariant cnt == |Covered(s, keys, "", {})|
        decreases |keys|
      {
        var k :| k in keys;
        CoveredEntry(s, keys, k);
        keys := keys - {k};
        cnt := CountEntry(k, cnt, keys);
        CoveredEntryDone(s, keys, k);
      }
      CoveredAll(s);
    }

    /** The inner loop: adds the zones of one entry. */
    method CountEntry(k: string, before: nat, ghost keys: set<string>) returns (cnt: nat)
      requires Valid() && k in appm && k !in keys
      requires before == |Covered(Value(), keys, k, data[k].apps.Keys)|
      ensures cnt == |Covered(Value(), keys, k, {})|
    {
      cnt := before;
      EntryZones(k);
      var zones := appm[k].apps.Keys;
      while zones != {}
        invariant zones <= appm[k].apps.Keys
        invariant cnt == |Covered(Value(), keys, k, zones)|
        decreases |zones|
      {
        var z :| z in zones;
        CoveredZone(Value(), keys, k, zones, z);
        cnt := cnt + |appm[k].apps[z].instances|;
        zones := zones - {z};
      }
    }

    method UpdateFac()
      requires Valid()
      modifies gd
      ensures Valid() && Value() == CloseWindow(old(Value()))
    {
      gd.UpdateFac();
    }

    /** The minute tick: closes the heartbeat window and evicts at once. */
    method Tick(now: int) returns (ghost locs: seq<Loc>, ghost picks: seq<string>)
      requires Valid()
      modifies this`appm, this`data, this`conns, gd, entries, units
      ensures Valid()
      ensures EvictChoice(CloseWindow(old(Value())), now, locs) && |picks| == |locs|
      ensures Value() == RegistryModel.Evict(CloseWindow(old(Value())), now, locs, picks)
    {
      UpdateFac();
      locs, picks := Evict(now);
    }

    /** A changed scheduler setting counts as a change of its application. */
    method Reload(env: string, appid: string, clients: Clients) returns (sent: map<string, Offer>)
      requires Valid()
      modifies this`data, this`schedulers, this`conns, entries
      ensures Valid()
      ensures Value() == RegistryModel.Reload(old(Value()), env, appid, clients)
      ensures OffersOf(Reloaded(old(Value()), env, appid, clients), env, appid, sent)
    {
      ghost var s := Value();
      if AppsKey(appid, env) in appm {
        RaiseIn(AppsKey(appid, env));
      }
      schedulers := schedulers[AppsKey(appid, env) := clients];
      assert Value() == Reloaded(s, env, appid, clients);
      sent := Broadcast(env, appid);
    }

    /** Everything stored, grouped by the application id of each App. */
    method FetchAll() returns (im: map<string, seq<Instance>>, ghost order: map<string, seq<Loc>>)
      requires Valid()
      ensures Grouped(Value(), im, order)
    {
      im, order := map[], map[];
      ghost var s := Value();
      var keys := appm.Keys;
      while keys != {}
        invariant keys <= appm.Keys && Valid() && Value() == s
        invariant GroupedSoFar(s, im, order, Covered(s, keys, "", {})) == true
        decreases |keys|
      {
        var k :| k in keys;
        im, order := FetchEntry(k, im, order, keys);
        keys := keys - {k};
      }
      CoveredAll(s);
    }

    /** The inner loop, over the zones of one entry. */
    method FetchEntry(k: string, im0: map<string, seq<Instance>>, ghost order0: map<string, seq<Loc>>,
                      ghost keys: set<string>)
      returns (im: map<string, seq<Instance>>, ghost order: map<string, seq<Loc>>)
      requires Valid() && k in keys && keys <= appm.Keys
      requires GroupedSoFar(Value(), im0, order0, Covered(Value(), keys, "", {}))
      ensures GroupedSoFar(Value(), im, order, Covered(Value(), keys - {k}, "", {})) == true
    {
      im, order := im0, order0;
      ghost var s := Value();
      CoveredEntry(s, keys, k);
      EntryZones(k);
      var zones := appm[k].apps.Keys;
      while zones != {}
        invariant zones <= appm[k].apps.Keys && Valid() && Value() == s
        invariant GroupedSoFar(s, im, order, Covered(s, keys - {k}, k, zones)) == true
        decreases |zones|
      {
        var z :| z in zones;
        var app := appm[k].apps[z];
        var list, locs := Copies(k, z);
        CoveredZone(s, keys - {k}, k, zones, z);
        OneAppPaths(s, k, z, locs);
        GroupedAdd(s, im, order, Covered(s, keys - {k}, k, zones), app.appid, list, locs);
        var group := if app.appid in im then im[app.appid] else [];
        ghost var names := if app.appid in order then order[app.appid] else [];
        im, order := im[app.appid := group + list], order[app.appid := names + locs];
        zones := zones - {z};
      }
      CoveredEntryDone(s, keys - {k}, k);
    }

    /** A copy of every instance of one App. */
    method Copies(k: string, z: string) returns (list: seq<Instance>, ghost locs: seq<Loc>)
      requires Valid() && k in appm && z in appm[k].apps
      ensures Valid() && Value() == old(Value()) && z in data[k].apps
      ensures CopiesOf(Value(), list, locs) && Elements(locs) == AppLocs(k, z, data[k].apps[z].instances.Keys)
    {
      EntryZones(k);
      ghost var hosts;
      list, hosts := appm[k].apps[z].Instances();
      locs := HostLocs(k, z, hosts);
      HostCopies(Value(), k, z, list, hosts);
    }

    /** The expired instances of one App, in the order its copies come in. */
    method ExpiredCopies(k: string, z: string, protect: bool, now: int)
      returns (eis: seq<Instance>, ghost locs: seq<Loc>)
      requires Valid() && k in appm && z in appm[k].apps
      ensures Valid() && Value() == old(Value()) && z in data[k].apps
      ensures CopiesOf(Value(), eis, locs)
      ensures Elements(locs) == ExpiredIn(Value(), AppLocs(k, z, data[k].apps[z].instances.Keys), protect, now)
    {
      var list, all := Copies(k, z);
      eis, locs := PickExpired(list, protect, now, Value(), all);
    }

    /** The first half of evict: everything expired, and the number of instances. */
    method Expirees(protect: bool, now: int) returns (eis: seq<Instance>, size: nat, ghost locs: seq<Loc>)
      requires Valid()
      ensures Valid() && Value() == old(Value())
      ensures CopiesOf(Value(), eis, locs)
      ensures Elements(locs) == ExpiredIn(Value(), AllLocs(Value()), protect, now)
      ensures size == |AllLocs(Value())|
    {
      eis, size, locs := [], 0, [];
      ghost var s := Value();
      CoveredStart(s);
      var keys := appm.Keys;
      while keys != {}
        invariant keys <= appm.Keys && Valid() && Value() == s
        invariant Visited(s, Covered(s, keys, "", {}), eis, locs, size, protect, now) == true
        decreases |keys|
      {
        var k :| k in keys;
        eis, size, locs := VisitEntry(k, protect, now, eis, size, locs, keys);
        keys := keys - {k};
      }
      CoveredAll(s);
    }

    /** The inner loop, over the zones of one entry. */
    method VisitEntry(k: string, protect: bool, now: int, eis0: seq<Instance>, size0: nat, ghost locs0: seq<Loc>,
                      ghost keys: set<string>)
      returns (eis: seq<Instance>, size: nat, ghost locs: seq<Loc>)
      requires Valid() && k in keys && keys <= appm.Keys
      requires Visited(Value(), Covered(Value(), keys, "", {}), eis0, locs0, size0, protect, now)
      ensures Visited(Value(), Covered(Value(), keys - {k}, "", {}), eis, locs, size, protect, now) == true
    {
      eis, size, locs := eis0, size0, locs0;
      ghost var s := Value();
      CoveredEntry(s, keys, k);
      EntryZones(k);
      var zones := appm[k].apps.Keys;
      while zones != {}
        invariant zones <= appm[k].apps.Keys && Valid() && Value() == s
        invariant Visited(s, Covered(s, keys - {k}, k, zones), eis, locs, size, protect, now) == true
        decreases |zones|
      {
        var z :| z in zones;
        var part, partLocs := ExpiredCopies(k, z, protect, now);
        VisitedAdd(s, keys - {k}, k, zones, z, eis, locs, size, protect, now, part, partLocs);
        eis, locs := eis + part, locs + partLocs;
        size := size + |appm[k].apps[z].instances|;
        zones := zones - {z};
      }
      CoveredEntryDone(s, keys - {k}, k);
    }

    /** Draws victims by an in-place shuffle and cancels them one by one; `locs`
        are the paths drawn and `picks` the wildcard choices of the cancels. */
    method Evict(now: int) returns (ghost locs: seq<Loc>, ghost picks: seq<string>)
      requires Valid()
      modifies this`appm, this`data, this`conns, entries, units
      ensures Valid()
      ensures EvictChoice(old(Value()), now, locs) && |picks| == |locs|
      ensures Value() == RegistryModel.Evict(old(Value()), now, locs, picks)
    {
      ghost var s := Value();
      var eis, eCnt, all := Candidates(now);
      ghost var draws;
      draws, picks := CancelRandom(eis, eCnt, now);
      DrawnShuffled(s, now, eis, all, draws);
      ShuffledChoice(s, now, Drawn(eis, draws), Drawn(all, draws), eCnt, picks);
      locs := Drawn(all, draws)[..eCnt];
    }

    /** The expired instances, and how many of them may go. */
    method Candidates(now: int) returns (eis: seq<Instance>, eCnt: nat, ghost all: seq<Loc>)
      requires Valid()
      ensures Valid() && Value() == old(Value())
      ensures Shuffled(Value(), now, eis, all) && eCnt == EvictCount(Value(), now) <= |eis|
    {
      var protect := gd.Ok();
      var size;
      eis, size, all := Expirees(protect, now);
      CandidateCount(Value(), now, eis, all);
      eCnt := |eis|;
      var limit := size - Percent85(size);
      if eCnt > limit {
        eCnt := limit;
      }
    }

    /** The shuffle: one after the other, a random one of the rest is cancelled. */
    method CancelRandom(copies: seq<Instance>, eCnt: nat, now: int)
      returns (ghost draws: seq<nat>, ghost picks: seq<string>)
      requires Valid() && eCnt <= |copies|
      modifies this`appm, this`data, this`conns, entries, units
      ensures Valid() && |draws| == |picks| == eCnt && Draws(draws, |copies|)
      ensures Value() == CancelAll(old(Value()), Drawn(copies, draws)[..eCnt], now, picks)
    {
      var eis := copies;
      draws, picks := [], [];
      for i := 0 to eCnt
        invariant Valid() && entries == old(entries) && units == old(units)
        invariant |draws| == |picks| == i && Draws(draws, |copies|) && eis == Drawn(copies, draws)
        invariant Value() == CancelAll(old(Value()), eis[..i], now, picks)
      {
        var next: nat :| i <= next < |eis|;
        NextDraw(copies, draws, next);
        eis, draws := eis[i := eis[next]][next := eis[i]], draws + [next];
        picks := CancelDrawn(eis, i, now, old(Value()), picks);
      }
    }

    /** Cancels the i-th of the shuffled copies, after those before it. */
    method CancelDrawn(eis: seq<Instance>, i: nat, now: int, ghost s: State, ghost before: seq<string>)
      returns (ghost picks: seq<string>)
      requires Valid() && i < |eis| && |before| == i && Value() == CancelAll(s, eis[..i], now, before)
      modifies this`appm, this`data, this`conns, entries, units
      ensures Valid() && |picks| == i + 1 && Value() == CancelAll(s, eis[..i + 1], now, picks)
    {
      var ei := eis[i];
      var cancelled, sent, pick := CancelAt(ei.zone, ei.env, ei.appid, ei.hostname, now);
      CancelAllSnoc(s, eis, i, now, before, pick);
      picks := before + [pick];
    }
  }
}
