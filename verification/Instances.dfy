/** The values behind model/instance.go: instances, the instances of one zone
    (App), the zones of one application (Apps), and what each operation on them
    computes. Timestamps are nanoseconds on an unbounded scale. */
module Instances {
  import opened Wrappers

  datatype Instance = Instance(
    region: string, zone: string, env: string, appid: string, hostname: string,
    addrs: seq<string>, version: string, metadata: map<string, string>,
    status: bv32,
    regTs: int, upTs: int, renewTs: int, dirtyTs: int, latestTs: int)

  const STATUS_UP: bv32 := 1
  const STATUS_WAITING: bv32 := 2

  predicate Filter(i: Instance, status: bv32) {
    status & i.status > 0
  }

  /** The contents of an App object. */
  datatype AppData = AppData(appid: string, zone: string, instances: map<string, Instance>, latestTs: int)

  /** The contents of an Apps object; `latestTs` is the version a client polls with. */
  datatype AppsData = AppsData(apps: map<string, AppData>, latestTs: int)

  const NO_APPS := AppsData(map[], 0)

  function NewAppData(appid: string, zone: string): AppData {
    AppData(appid, zone, map[], 0)
  }

  // ----- one zone of an application -----

  function AppBump(latest: int, t: int): int {
    if t < latest then latest + 1 else t
  }

  /** What is stored when `ni` arrives at an occupied hostname: the newer of the
      two by LatestTimestamp, a newcomer keeping the holder's UpTimestamp. */
  function Merge(oi: Option<Instance>, ni: Instance): Instance {
    match oi
    case None => ni
    case Some(o) => if ni.latestTs < o.latestTs then o else ni.(upTs := o.upTs)
  }

  function At(a: AppData, hostname: string): Option<Instance> {
    if hostname in a.instances then Some(a.instances[hostname]) else None
  }

  function AppRegister(a: AppData, ni: Instance, latestTime: int): AppData {
    a.(instances := a.instances[ni.hostname := Merge(At(a, ni.hostname), ni)],
       latestTs := AppBump(a.latestTs, latestTime))
  }

  function AppRenew(a: AppData, hostname: string, now: int): AppData
    requires hostname in a.instances
  {
    a.(instances := a.instances[hostname := a.instances[hostname].(renewTs := now)])
  }

  function AppCancel(a: AppData, hostname: string, latestTime: int): AppData
    requires hostname in a.instances
  {
    a.(instances := a.instances - {hostname}, latestTs := AppBump(a.latestTs, latestTime))
  }

  /** The arguments of Set; statuses are 64-bit on the wire and 32-bit when stored. */
  datatype ArgSet = ArgSet(
    zone: string, env: string, appid: string, hostnames: seq<string>,
    status: seq<bv64>, metadata: seq<string>, setTs: int)
  {
    /** What the HTTP handler checks before it calls Set. */
    predicate Valid() {
      && (|status| == 0 || |status| == |hostnames|)
      && (|metadata| == 0 || |metadata| == |hostnames|)
    }
  }

  /** Decoding a JSON text over existing metadata: the metadata it leaves
      behind, and whether it succeeded. */
  type Decoder = (string, map<string, string>) -> (map<string, string>, bool)

  function Truncated(x: bv64): bv32 {
    (x & 0xFFFF_FFFF) as bv32
  }

  function SetStatus(dst: Instance, status: bv32, setTs: int): Instance {
    dst.(status := status, upTs := if status == STATUS_UP then setTs else dst.upTs)
  }

  predicate KnownStatus(status: bv32) {
    status == STATUS_UP || status == STATUS_WAITING
  }

  /** The loop of App.Set from index `i` on: hosts are changed one after the
      other and the loop stops at the first unknown host or bad metadata. */
  function AppSetFrom(a: AppData, arg: ArgSet, decode: Decoder, i: nat, ok: bool): (AppData, bool)
    requires arg.Valid() && i <= |arg.hostnames|
    decreases |arg.hostnames| - i
  {
    if i == |arg.hostnames| then
      (a.(latestTs := AppBump(a.latestTs, arg.setTs)), ok)
    else if arg.hostnames[i] !in a.instances then
      (a, false)
    else
      var h := arg.hostnames[i];
      var dst := a.instances[h];
      var st := if |arg.status| > 0 then Truncated(arg.status[i]) else dst.status;
      var dst1 := if |arg.status| > 0 then SetStatus(dst, st, arg.setTs) else dst;
      var ok1 := |arg.status| > 0 ==> KnownStatus(st);
      var (meta, good) := if |arg.metadata| > 0 then decode(arg.metadata[i], dst1.metadata) else (dst1.metadata, true);
      var dst2 := dst1.(metadata := meta);
      if !good then
        (a.(instances := a.instances[h := dst2]), false)
      else
        var dst3 := dst2.(latestTs := arg.setTs, dirtyTs := arg.setTs);
        AppSetFrom(a.(instances := a.instances[h := dst3]), arg, decode, i + 1, ok1)
  }

  function AppSet(a: AppData, arg: ArgSet, decode: Decoder): (AppData, bool)
    requires arg.Valid()
  {
    AppSetFrom(a, arg, decode, 0, false)
  }

  // ----- all zones of an application -----

  function Bump(latest: int, lts: int): int {
    if lts <= latest then latest + 1 else lts
  }

  function AppsUpdateLatest(p: AppsData, lts: int): AppsData {
    p.(latestTs := Bump(p.latestTs, lts))
  }

  /** Apps.NewApp: the zone exists afterwards and the version has risen. */
  function AppsNewApp(p: AppsData, zone: string, appid: string, lts: int): AppsData {
    AppsData(if zone in p.apps then p.apps else p.apps[zone := NewAppData(appid, zone)],
             Bump(p.latestTs, lts))
  }

  /** The App that `Apps.App(zone)[0]` is. With the wildcard zone "" that is
      whichever zone the map iteration yields first: `pick` if it is there. */
  ghost function First(p: AppsData, zone: string, pick: string): (z: Option<string>)
    ensures z.Some? ==> z.value in p.apps
    ensures zone != "" ==> z == if zone in p.apps then Some(zone) else None
    ensures zone == "" ==> (z.None? <==> p.apps == map[]) && (pick in p.apps ==> z == Some(pick))
  {
    if zone != "" then
      if zone in p.apps then Some(zone) else None
    else if p.apps == map[] then None
    else if pick in p.apps then Some(pick)
    else
      assert exists z :: z in p.apps by {
        assert p.apps.Keys != {};
      }
      var z :| z in p.apps; Some(z)
  }

  type View = map<string, Instance>

  /** The instances of one zone that a status mask lets through, by hostname. */
  function Visible(a: AppData, status: bv32): View {
    map h | h in a.instances && Filter(a.instances[h], status) :: a.instances[h]
  }

  /** Whether a fetch with this timestamp finds something newer to return. */
  predicate Newer(p: AppsData, zone: string, lts: int) {
    lts < p.latestTs && (if zone == "" then p.apps != map[] else zone in p.apps)
  }

  type Clients = map<string, map<string, int>>

  datatype Info = Info(instances: map<string, View>, latestTs: int, clients: Option<Clients>)

  datatype FetchResult = Found(info: Info) | NotModified | NothingFound

  /** Apps.InstanceInfo. The loop stores every matching zone under the key that
      was asked for, so a wildcard fetch keeps one zone only. */
  ghost function InstanceInfo(p: AppsData, zone: string, lts: int, status: bv32, pick: string): FetchResult {
    if lts >= p.latestTs then NotModified
    else
      match First(p, zone, pick)
      case None => NothingFound
      case Some(z) => Found(Info(map[zone := Visible(p.apps[z], status)], p.latestTs, None))
  }
}
