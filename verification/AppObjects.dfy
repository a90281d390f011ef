/** The objects of model/instance.go. Each method is proved against the value it
    computes (module Instances). */
module AppObjects {
  import opened Wrappers

  import opened Instances
  import opened RegistryModel

  /** The instances of an application in one zone. */
  class App {
    ghost const home: string
    const appid: string
    const zone: string
    var instances: map<string, Instance>
    var latestTimestamp: int

    ghost function Value(): AppData
      reads this
    {
      AppData(appid, zone, instances, latestTimestamp)
    }

    constructor (appid: string, zone: string, ghost home: string)
      ensures Value() == NewAppData(appid, zone) && this.home == home
    {
      this.appid, this.zone, this.home := appid, zone, home;
      instances, latestTimestamp := map[], 0;
    }

    method UpdateLatest(latestTime: int)
      modifies this`latestTimestamp
      ensures latestTimestamp == AppBump(old(latestTimestamp), latestTime)
      ensures latestTimestamp >= old(latestTimestamp) && latestTimestamp >= latestTime
    {
      var t := latestTime;
      if t < latestTimestamp {
        t := latestTimestamp + 1;
      }
      latestTimestamp := t;
    }

    /** Stores `ni`, or keeps the newer instance already there. */
    method NewInstance(ni: Instance, latestTime: int) returns (i: Instance, ok: bool)
      modifies this
      ensures Value() == AppRegister(old(Value()), ni, latestTime)
      ensures i == Merge(At(old(Value()), ni.hostname), ni)
      ensures ok <==> ni.hostname !in old(instances)
    {
      i := ni;
      ok := ni.hostname !in instances;
      if !ok {
        var oi := instances[ni.hostname];
        i := i.(upTs := oi.upTs);
        if i.latestTs < oi.latestTs {
          i := oi;
        }
      }
      instances := instances[ni.hostname := i];
      UpdateLatest(latestTime);
    }

    method Renew(hostname: string, now: int) returns (i: Option<Instance>)
      modifies this`instances
      ensures hostname !in old(instances) ==> i == None && Value() == old(Value())
      ensures hostname in old(instances) ==>
        Value() == AppRenew(old(Value()), hostname, now) && i == Some(instances[hostname])
    {
      if hostname !in instances {
        return None;
      }
      instances := instances[hostname := instances[hostname].(renewTs := now)];
      i := Some(instances[hostname]);
    }

    method Cancel(hostname: string, latestTime: int) returns (i: Option<Instance>, l: nat)
      modifies this
      ensures hostname !in old(instances) ==> i == None && Value() == old(Value())
      ensures hostname in old(instances) ==>
        && Value() == AppCancel(old(Value()), hostname, latestTime)
        && i == Some(old(instances)[hostname].(latestTs := latestTime))
        && l == |instances|
    {
      if hostname !in instances {
        return None, 0;
      }
      var oi := instances[hostname];
      instances := instances - {hostname};
      l := |instances|;
      oi := oi.(latestTs := latestTime);
      UpdateLatest(latestTime);
      i := Some(oi);
    }

    /** A copy of every instance, in some order; `hosts` is that order. */
    method Instances() returns (list: seq<Instance>, ghost hosts: seq<string>)
      ensures |list| == |instances| && forall i :: i in list <==> exists h :: h in instances && instances[h] == i
      ensures |hosts| == |list|
      ensures forall i, j :: 0 <= i < j < |hosts| ==> hosts[i] != hosts[j]
      ensures forall h :: h in hosts <==> h in instances
      ensures forall j :: 0 <= j < |list| ==> hosts[j] in instances && list[j] == instances[hosts[j]]
    {
      list, hosts := [], [];
      var left := instances.Keys;
      while left != {}
        invariant left <= instances.Keys
        invariant |list| == |hosts| && |hosts| + |left| == |instances.Keys|
        invariant forall i, j :: 0 <= i < j < |hosts| ==> hosts[i] != hosts[j]
        invariant forall h :: h in hosts <==> h in instances && h !in left
        invariant forall j :: 0 <= j < |list| ==> hosts[j] in instances && list[j] == instances[hosts[j]]
        decreases |left|
      {
        var h :| h in left;
        list, hosts := list + [instances[h]], hosts + [h];
        left := left - {h};
      }
      forall h | h in instances ensures instances[h] in list {
        var j: nat :| j < |hosts| && hosts[j] == h;
        assert list[j] == instances[h];
      }
    }

    /** Applies the changes host by host, stopping at the first that fails. */
    method Set(changes: ArgSet, decode: Decoder) returns (ok: bool)
      requires changes.Valid()
      modifies this
      ensures (Value(), ok) == AppSet(old(Value()), changes, decode)
    {
      ok := false;
      var i := 0;
      while i < |changes.hostnames|
        invariant 0 <= i <= |changes.hostnames|
        invariant AppSet(old(Value()), changes, decode) == AppSetFrom(Value(), changes, decode, i, ok)
      {
        var hostname := changes.hostnames[i];
        if hostname !in instances {
          return false;
        }
        var dst := instances[hostname];
        ok := true;
        if |changes.status| > 0 {
          var status := Truncated(changes.status[i]);
          if status != STATUS_UP && status != STATUS_WAITING {
            ok := false;
          }
          dst := dst.(status := status);
          if dst.status == STATUS_UP {
            dst := dst.(upTs := changes.setTs);
          }
        }
        if |changes.metadata| > 0 {
          var (metadata, good) := decode(changes.metadata[i], dst.metadata);
          dst := dst.(metadata := metadata);
          if !good {
            instances := instances[hostname := dst];
            return false;
          }
        }
        dst := dst.(latestTs := changes.setTs, dirtyTs := changes.setTs);
        instances := instances[hostname := dst];
        i := i + 1;
      }
      UpdateLatest(changes.setTs);
    }
  }

  /** All zones of an application. */
  class Apps {
    ghost const home: string
    var apps: map<string, App>
    var latestTimestamp: int

    /** Apps objects do not share an App, nor do zones: each knows where it is filed. */
    ghost predicate Valid()
      reads this, apps.Values
    {
      forall z | z in apps :: apps[z].zone == z && apps[z].home == home
    }

    ghost function Value(): AppsData
      reads this, apps.Values
    {
      AppsData(map z | z in apps :: apps[z].Value(), latestTimestamp)
    }

    constructor (ghost home: string)
      ensures Valid() && Value() == NO_APPS && apps == map[] && this.home == home
    {
      apps, latestTimestamp := map[], 0;
      this.home := home;
    }

    /** The App of a zone, created if missing; either way the version rises. */
    method NewApp(zone: string, appid: string, lts: int) returns (a: App, isNew: bool)
      requires Valid()
      modifies this
      ensures Valid() && Value() == AppsNewApp(old(Value()), zone, appid, lts)
      ensures latestTimestamp > old(latestTimestamp) && latestTimestamp >= lts
      ensures zone in apps && a == apps[zone] && (isNew <==> zone !in old(apps))
      ensures if isNew then fresh(a) && apps == old(apps)[zone := a] else apps == old(apps)
    {
      isNew := zone !in apps;
      if isNew {
        a := new App(appid, zone, home);
        apps := apps[zone := a];
        assert Value().apps == old(Value()).apps[zone := NewAppData(appid, zone)];
      } else {
        a := apps[zone];
      }
      var t := lts;
      if t <= latestTimestamp {
        t := latestTimestamp + 1;
      }
      latestTimestamp := t;
    }

    /** The Apps of a zone, or of all zones for ""; `zones` says which they are. */
    method App(zone: string) returns (found: seq<App>, ghost zones: seq<string>)
      ensures |found| == |zones|
      ensures forall j :: 0 <= j < |found| ==> zones[j] in apps && found[j] == apps[zones[j]]
      ensures zone != "" ==> zones == if zone in apps then [zone] else []
      ensures zone != "" ==> found == if zone in apps then [apps[zone]] else []
      ensures zone == "" ==> |found| == |apps|
      ensures zone == "" ==> |zones| == |apps| && forall z :: z in zones <==> z in apps
      ensures forall i, j :: 0 <= i < j < |zones| ==> zones[i] != zones[j]
    {
      found, zones := [], [];
      if zone != "" {
        if zone in apps {
          found, zones := [apps[zone]], [zone];
        }
      } else {
        var left := apps.Keys;
        while left != {}
          invariant left <= apps.Keys
          invariant |found| == |zones| && |zones| + |left| == |apps.Keys|
          invariant forall i, j :: 0 <= i < j < |zones| ==> zones[i] != zones[j]
          invariant forall z :: z in zones <==> z in apps && z !in left
          invariant forall j :: 0 <= j < |found| ==> zones[j] in apps && found[j] == apps[zones[j]]
          decreases |left|
        {
          var z :| z in left;
          found, zones := found + [apps[z]], zones + [z];
          left := left - {z};
        }
      }
    }

    method UpdateLatest(lts: int)
      modifies this`latestTimestamp
      ensures latestTimestamp == Bump(old(latestTimestamp), lts)
      ensures Value() == old(Value()).(latestTs := latestTimestamp)
      ensures latestTimestamp > old(latestTimestamp) && latestTimestamp >= lts
    {
      var t := lts;
      if t <= latestTimestamp {
        t := latestTimestamp + 1;
      }
      latestTimestamp := t;
    }

    method Del(zone: string)
      requires Valid()
      modifies this`apps
      ensures Valid() && apps == old(apps) - {zone}
      ensures Value() == old(Value()).(apps := old(Value()).apps - {zone})
    {
      apps := apps - {zone};
    }

    /** The visible instances of the zone asked for, if anything is newer than `lts`. */
    method InstanceInfo(zone: string, lts: int, status: bv32) returns (r: FetchResult, ghost pick: string)
      requires Valid()
      ensures r == Instances.InstanceInfo(Value(), zone, lts, status, pick)
      ensures zone != "" ==> r == Instances.InstanceInfo(Value(), zone, lts, status, "")
    {
      pick := "";
      if lts >= latestTimestamp {
        return NotModified, pick;
      }
      var ok, instances;
      ok, instances, pick := CopyZones(zone, status);
      FirstIs(Value(), zone, pick);
      r := if ok then Found(Info(instances, latestTimestamp, None)) else NothingFound;
    }

    /** The loop of InstanceInfo: every zone asked for is copied to the one key `zone`. */
    method CopyZones(zone: string, status: bv32) returns (ok: bool, instances: map<string, View>, ghost pick: string)
      requires Valid()
      ensures !ok ==> if zone == "" then apps.Keys == {} else zone !in apps
      ensures ok ==> pick in apps && (zone == "" || pick == zone)
      ensures ok ==> instances == map[zone := Visible(Value().apps[pick], status)]
    {
      ok, instances, pick := false, map[], "";
      ghost var p := Value();
      var left := apps.Keys;
      while left != {}
        invariant left <= apps.Keys && p == Value()
        invariant !ok ==> if zone == "" then left == apps.Keys else zone in apps ==> zone in left
        invariant ok ==> pick in apps && (zone == "" || (pick == zone && zone !in left))
        invariant instances == if ok then map[zone := Visible(p.apps[pick], status)] else map[]
        decreases left
      {
        var z :| z in left;
        left := left - {z};
        if z == zone || zone == "" {
          var visible := CopyVisible(apps[z], status);
          OneKey(instances, zone, visible);
          ok, instances, pick := true, instances[zone := visible], z;
        }
      }
    }

    method CopyVisible(app: App, status: bv32) returns (instances: View)
      ensures instances == Visible(app.Value(), status) && Value() == old(Value())
    {
      instances := map[];
      var left := app.instances.Keys;
      while left != {}
        invariant left <= app.instances.Keys
        invariant instances == map h | h in app.instances && h !in left
          && Filter(app.instances[h], status) :: app.instances[h]
        decreases |left|
      {
        var h :| h in left;
        left := left - {h};
        if Filter(app.instances[h], status) {
          instances := instances[h := app.instances[h]];
        }
      }
    }
  }

  lemma OneKey(m: map<string, View>, k: string, v: View)
    requires m.Keys <= {k}
    ensures m[k := v] == map[k := v]
  {}

  lemma FirstIs(p: AppsData, zone: string, pick: string)
    ensures pick in p.apps && (zone == "" || pick == zone) ==> First(p, zone, pick) == Some(pick)
    ensures (if zone == "" then p.apps.Keys == {} else zone !in p.apps) ==> First(p, zone, pick) == None
  {}

  function InEntry(p: AppsData, zone: string, hostname: string): Option<Instance> {
    if zone in p.apps then At(p.apps[zone], hostname) else None
  }

  /** The part of Register that works on the objects of one entry. */
  method RegisterInstance(p: Apps, ins: Instance, latestTime: int) returns (i: Instance, ok: bool)
    requires p.Valid()
    modifies p, p.apps.Values
    ensures p.Valid() && p.Value() == Registered(old(p.Value()), ins, latestTime)
    ensures fresh(p.apps.Values - old(p.apps.Values))
    ensures ok <==> InEntry(old(p.Value()), ins.zone, ins.hostname).None?
    ensures i == Merge(InEntry(old(p.Value()), ins.zone, ins.hostname), ins)
  {
    var app, isNew := p.NewApp(ins.zone, ins.appid, ins.latestTs);
    ghost var before := p.Value();
    i, ok := app.NewInstance(ins, latestTime);
    assert p.Value().apps == before.apps[ins.zone := app.Value()];
  }

  /** The part of cancel that works on the objects of one entry: `found` is the
      App the lookup returned first, filed under `z`. */
  method CancelInstance(p: Apps, found: App, ghost z: string, zone: string, hostname: string, lts: int)
    returns (i: Option<Instance>)
    requires p.Valid() && z in p.apps && p.apps[z] == found
    modifies p, found
    ensures p.Valid() && p.apps.Values <= old(p.apps.Values)
    ensures hostname !in old(found.instances) ==> i == None && p.Value() == old(p.Value())
    ensures hostname in old(found.instances) ==>
      && p.Value() == Cancelled(old(p.Value()), z, zone, hostname, lts)
      && i == Some(old(found.instances)[hostname].(latestTs := lts))
  {
    var l;
    i, l := found.Cancel(hostname, lts);
    assert p.Value().apps == old(p.Value()).apps[z := found.Value()];
    if i.None? {
      return;
    }
    p.UpdateLatest(lts);
    if l == 0 {
      p.Del(zone);
    }
  }

  /** The part of Renew that works on the objects of one entry. */
  method RenewInstance(p: Apps, found: App, ghost z: string, hostname: string, now: int) returns (i: Option<Instance>)
    requires p.Valid() && z in p.apps && p.apps[z] == found
    modifies found
    ensures p.Valid()
    ensures hostname !in old(found.instances) ==> i == None && p.Value() == old(p.Value())
    ensures hostname in old(found.instances) ==>
      && i == Some(old(found.instances)[hostname].(renewTs := now))
      && p.Value() == old(p.Value()).(apps := old(p.Value()).apps[z := AppRenew(old(p.Value()).apps[z], hostname, now)])
  {
    i := found.Renew(hostname, now);
    assert p.Value().apps == old(p.Value()).apps[z := found.Value()];
  }

  /** The part of Set that works on the objects of one entry. */
  method SetInstances(p: Apps, found: App, ghost z: string, arg: ArgSet, decode: Decoder) returns (ok: bool)
    requires p.Valid() && z in p.apps && p.apps[z] == found && arg.Valid()
    modifies found
    ensures p.Valid()
    ensures ok == AppSet(old(p.Value()).apps[z], arg, decode).1
    ensures p.Value() ==
      old(p.Value()).(apps := old(p.Value()).apps[z := AppSet(old(p.Value()).apps[z], arg, decode).0])
  {
    ok := found.Set(arg, decode);
    assert p.Value().apps == old(p.Value()).apps[z := found.Value()];
  }
}
