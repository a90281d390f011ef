/** The state of registry/registery.go as a value, and what each exported
    operation computes when it runs as one atomic step. */
module RegistryModel {
  import opened Sequences
  import opened Wrappers

  import opened Keys
  import opened Instances
  import opened GuardModel

  datatype ArgPolls = ArgPolls(zone: string, env: string, appids: seq<string>, hostname: string, latestTs: seq<int>)

  /** A parked long poll: the channel it waits on, its arguments, the version it
      has, and how many requests of the same host share it. */
  datatype Conn = Conn(ch: nat, arg: ArgPolls, latestTime: int, count: nat)

  type Hosts = map<string, Conn>

  datatype State = State(
    appm: map<string, AppsData>,
    conns: map<string, Hosts>,
    gd: GuardData,
    schedulers: map<string, Clients>,
    nextCh: nat)

  const EMPTY := State(map[], map[], NEW_GUARD, map[], 0)

  /** The full path of an instance: appm[key].apps[zone].instances[hostname]. */
  datatype Loc = Loc(key: string, zone: string, hostname: string)

  predicate Has(s: State, l: Loc) {
    && l.key in s.appm
    && l.zone in s.appm[l.key].apps
    && l.hostname in s.appm[l.key].apps[l.zone].instances
  }

  function Holder(s: State, l: Loc): Option<Instance> {
    if Has(s, l) then Some(s.appm[l.key].apps[l.zone].instances[l.hostname]) else None
  }

  ghost function AllLocs(s: State): (r: set<Loc>)
    ensures forall l :: l in r <==> Has(s, l)
  {
    var r := set k, z, h |
      k in s.appm && z in s.appm[k].apps && h in s.appm[k].apps[z].instances :: Loc(k, z, h);
    assert forall l: Loc :: Has(s, l) ==> l == Loc(l.key, l.zone, l.hostname);
    r
  }

  /** Where an instance belongs by its own fields. */
  function LocOf(i: Instance): Loc {
    Loc(AppsKey(i.appid, i.env), i.zone, i.hostname)
  }

  function EntryAt(appm: map<string, AppsData>, key: string): AppsData {
    if key in appm then appm[key] else NO_APPS
  }

  function AppsAt(s: State, key: string): AppsData {
    EntryAt(s.appm, key)
  }

  // ----- broadcast -----

  function Broadcast(s: State, env: string, appid: string): State {
    s.(conns := s.conns - {PollKey(appid, env)})
  }

  // ----- Register -----

  /** The Apps object after Register has stored `ni` in its zone. */
  function Registered(p: AppsData, ni: Instance, latestTime: int): AppsData {
    var p1 := AppsNewApp(p, ni.zone, ni.appid, ni.latestTs);
    p1.(apps := p1.apps[ni.zone := AppRegister(p1.apps[ni.zone], ni, latestTime)])
  }

  function Register(s: State, ni: Instance, latestTime: int): State {
    var l := LocOf(ni);
    var i := Merge(Holder(s, l), ni);
    var s1 := s.(appm := s.appm[l.key := Registered(AppsAt(s, l.key), ni, latestTime)],
                 gd := if Has(s, l) then s.gd else IncrExp(s.gd));
    Broadcast(s1, i.env, i.appid)
  }

  // ----- Renew -----

  ghost function Renew(s: State, zone: string, env: string, appid: string, hostname: string, now: int, pick: string)
    : (State, Option<Instance>)
  {
    var key := AppsKey(appid, env);
    var z := First(AppsAt(s, key), zone, pick);
    if z.None? || hostname !in AppsAt(s, key).apps[z.value].instances then (s, None)
    else
      var p := s.appm[key];
      var app := AppRenew(p.apps[z.value], hostname, now);
      (s.(appm := s.appm[key := p.(apps := p.apps[z.value := app])], gd := IncrFac(s.gd)),
       Some(app.instances[hostname]))
  }

  // ----- cancel -----

  /** The Apps object after an instance of zone `z` was cancelled by a request
      for `zone`; only that requested zone is dropped when it runs empty. */
  function Cancelled(p: AppsData, z: string, zone: string, hostname: string, lts: int): AppsData
    requires z in p.apps && hostname in p.apps[z].instances
  {
    var app := AppCancel(p.apps[z], hostname, lts);
    var apps := p.apps[z := app];
    AppsData(if app.instances == map[] then apps - {zone} else apps, Bump(p.latestTs, lts))
  }

  /** The internal cancel shared by Cancel and evict; it leaves the guard alone. */
  ghost function CancelAt(s: State, zone: string, env: string, appid: string, hostname: string, lts: int, pick: string)
    : (State, Option<Instance>)
  {
    var key := AppsKey(appid, env);
    var z := First(AppsAt(s, key), zone, pick);
    if z.None? || hostname !in AppsAt(s, key).apps[z.value].instances then (s, None)
    else
      var p := s.appm[key];
      var p1 := Cancelled(p, z.value, zone, hostname, lts);
      var s1 := s.(appm := if p1.apps == map[] then s.appm - {key} else s.appm[key := p1]);
      (Broadcast(s1, env, appid), Some(p.apps[z.value].instances[hostname].(latestTs := lts)))
  }

  ghost function Cancel(s: State, zone: string, env: string, appid: string, hostname: string, lts: int, pick: string)
    : (State, Option<Instance>)
  {
    var (s1, i) := CancelAt(s, zone, env, appid, hostname, lts, pick);
    (if i.Some? then s1.(gd := DecrExp(s1.gd)) else s1, i)
  }

  // ----- Set -----

  ghost function Set(s: State, arg: ArgSet, decode: Decoder, pick: string): (State, bool)
    requires arg.Valid()
  {
    var key := AppsKey(arg.appid, arg.env);
    var z := First(AppsAt(s, key), arg.zone, pick);
    if z.None? then (s, false)
    else
      var p := s.appm[key];
      var (app, ok) := AppSet(p.apps[z.value], arg, decode);
      var s1 := s.(appm := s.appm[key := p.(apps := p.apps[z.value := app])]);
      (if ok then Broadcast(s1, arg.env, arg.appid) else s1, ok)
  }

  // ----- Fetch -----

  ghost function Fetch(s: State, zone: string, env: string, appid: string, lts: int, status: bv32, pick: string)
    : FetchResult
  {
    var key := AppsKey(appid, env);
    if key !in s.appm then NothingFound
    else
      var r := InstanceInfo(s.appm[key], zone, lts, status, pick);
      if r.Found? && key in s.schedulers then Found(r.info.(clients := Some(s.schedulers[key]))) else r
  }

  /** Whether Fetch returns data; this does not depend on the wildcard's pick. */
  predicate Finds(s: State, zone: string, env: string, appid: string, lts: int) {
    Newer(AppsAt(s, AppsKey(appid, env)), zone, lts) && AppsKey(appid, env) in s.appm
  }

  // ----- Polls and DelConns -----

  /** Missing or mismatched timestamps count as zero. */
  function Normalized(arg: ArgPolls): (r: ArgPolls)
    ensures |r.latestTs| == |r.appids|
  {
    if |arg.appids| != |arg.latestTs| then arg.(latestTs := seq(|arg.appids|, _ => 0)) else arg
  }

  predicate PollFinds(s: State, arg: ArgPolls, i: nat)
    requires i < |arg.appids| == |arg.latestTs|
  {
    Finds(s, arg.zone, arg.env, arg.appids[i], arg.latestTs[i])
  }

  ghost predicate Notifies(s: State, arg: ArgPolls)
    requires |arg.appids| == |arg.latestTs|
  {
    exists i :: 0 <= i < |arg.appids| && PollFinds(s, arg, i)
  }

  /** The parking loop's variables. */
  datatype Parking = Parking(conns: map<string, Hosts>, ch: Option<nat>, nextCh: nat)

  function HostsAt(conns: map<string, Hosts>, k: string): Hosts {
    if k in conns then conns[k] else map[]
  }

  function ParkOne(p: Parking, arg: ArgPolls, i: nat): Parking
    requires i < |arg.appids| == |arg.latestTs|
  {
    var k := PollKey(arg.appids[i], arg.env);
    var hosts := HostsAt(p.conns, k);
    if arg.hostname in hosts then
      var c := hosts[arg.hostname];
      Parking(p.conns[k := hosts[arg.hostname := c.(count := c.count + 1)]],
              if p.ch.None? then Some(c.ch) else p.ch, p.nextCh)
    else
      var ch := if p.ch.None? then p.nextCh else p.ch.value;
      Parking(p.conns[k := hosts[arg.hostname := Conn(ch, arg, arg.latestTs[i], 1)]],
              Some(ch), if p.ch.None? then p.nextCh + 1 else p.nextCh)
  }

  function ParkUpTo(p: Parking, arg: ArgPolls, n: nat): Parking
    requires n <= |arg.appids| == |arg.latestTs|
  {
    if n == 0 then p else ParkOne(ParkUpTo(p, arg, n - 1), arg, n - 1)
  }

  ghost function Polls(s: State, arg0: ArgPolls): State {
    var arg := Normalized(arg0);
    if Notifies(s, arg) then s.(nextCh := s.nextCh + 1)
    else
      var p := ParkUpTo(Parking(s.conns, None, s.nextCh), arg, |arg.appids|);
      s.(conns := p.conns, nextCh := p.nextCh)
  }

  function DelOne(conns: map<string, Hosts>, arg: ArgPolls, i: nat): map<string, Hosts>
    requires i < |arg.appids|
  {
    var k := PollKey(arg.appids[i], arg.env);
    if k !in conns || arg.hostname !in conns[k] then conns
    else
      var c := conns[k][arg.hostname];
      conns[k := if c.count > 1 then conns[k][arg.hostname := c.(count := c.count - 1)]
                 else conns[k] - {arg.hostname}]
  }

  function DelUpTo(conns: map<string, Hosts>, arg: ArgPolls, n: nat): map<string, Hosts>
    requires n <= |arg.appids|
  {
    if n == 0 then conns else DelOne(DelUpTo(conns, arg, n - 1), arg, n - 1)
  }

  function DelConns(s: State, arg: ArgPolls): State {
    s.(conns := DelUpTo(s.conns, arg, |arg.appids|))
  }

  // ----- evict -----

  const EVICT_THRESHOLD := 90_000_000_000
  const EVICT_CEILING := 3600_000_000_000

  predicate Expired(protect: bool, now: int, i: Instance) {
    (!protect && now - i.renewTs > EVICT_THRESHOLD) || now - i.renewTs > EVICT_CEILING
  }

  /** The instances one pass may remove. */
  ghost function ExpiredLocs(s: State, now: int): set<Loc> {
    set l | l in AllLocs(s) && Expired(s.gd.Protecting(), now, Holder(s, l).value)
  }

  function EvictionLimit(size: nat): nat {
    size - Percent85(size)
  }

  function Min(a: nat, b: nat): nat {
    if a <= b then a else b
  }

  ghost function EvictCount(s: State, now: int): nat {
    Min(|ExpiredLocs(s, now)|, EvictionLimit(|AllLocs(s)|))
  }

  /** The victims a pass may draw: any selection of the right size. */
  ghost predicate EvictChoice(s: State, now: int, locs: seq<Loc>) {
    && Distinct(locs)
    && (forall l :: l in locs ==> l in ExpiredLocs(s, now))
    && |locs| == EvictCount(s, now)
  }

  ghost function InstancesAt(s: State, locs: seq<Loc>): (r: seq<Instance>)
    requires forall l :: l in locs ==> Has(s, l)
    ensures |r| == |locs|
    ensures forall j :: 0 <= j < |r| ==> Some(r[j]) == Holder(s, locs[j])
  {
    seq(|locs|, j requires 0 <= j < |locs| => Holder(s, locs[j]).value)
  }

  /** Cancelling the collected copies one after the other. */
  ghost function CancelAll(s: State, victims: seq<Instance>, now: int, picks: seq<string>): State
    requires |picks| == |victims|
    decreases |victims|
  {
    if victims == [] then s
    else
      var n := |victims| - 1;
      var v := victims[n];
      CancelAt(CancelAll(s, victims[..n], now, picks[..n]), v.zone, v.env, v.appid, v.hostname, now, picks[n]).0
  }

  ghost function Evict(s: State, now: int, locs: seq<Loc>, picks: seq<string>): State
    requires EvictChoice(s, now, locs) && |picks| == |locs|
  {
    CancelAll(s, InstancesAt(s, locs), now, picks)
  }

  // ----- resetExp, updateFac, scheduler reload -----

  ghost function ResetExp(s: State): State {
    s.(gd := SetExp(s.gd, |AllLocs(s)|))
  }

  function CloseWindow(s: State): State {
    s.(gd := UpdateFac(s.gd))
  }

  function Reload(s: State, env: string, appid: string, clients: Clients): State {
    var key := AppsKey(appid, env);
    var s1 := s.(appm := if key in s.appm then s.appm[key := AppsUpdateLatest(s.appm[key], 0)] else s.appm,
                 schedulers := s.schedulers[key := clients]);
    Broadcast(s1, env, appid)
  }

  // ----- runs -----

  /** One atomic step. Random draws and the wildcard's map order are part of the
      step, so that quantifying over steps covers every choice. */
  datatype Op =
    | OpRegister(ins: Instance, latestTime: int)
    | OpRenew(zone: string, env: string, appid: string, hostname: string, now: int, pick: string)
    | OpCancel(zone: string, env: string, appid: string, hostname: string, lts: int, pick: string)
    | OpSet(arg: ArgSet, decode: Decoder, pick: string)
    | OpPolls(poll: ArgPolls)
    | OpDelConns(poll: ArgPolls)
    | OpEvict(now: int, locs: seq<Loc>, picks: seq<string>)
    | OpResetExp
    | OpUpdateFac
    | OpReload(env: string, appid: string, clients: Clients)

  ghost predicate Enabled(s: State, op: Op) {
    match op
    case OpSet(arg, _, _) => arg.Valid()
    case OpEvict(now, locs, picks) => EvictChoice(s, now, locs) && |picks| == |locs|
    case _ => true
  }

  ghost function Apply(s: State, op: Op): State
    requires Enabled(s, op)
  {
    match op
    case OpRegister(ins, lt) => Register(s, ins, lt)
    case OpRenew(zone, env, appid, hostname, now, pick) => Renew(s, zone, env, appid, hostname, now, pick).0
    case OpCancel(zone, env, appid, hostname, lts, pick) => Cancel(s, zone, env, appid, hostname, lts, pick).0
    case OpSet(arg, decode, pick) => Set(s, arg, decode, pick).0
    case OpPolls(poll) => Polls(s, poll)
    case OpDelConns(poll) => DelConns(s, poll)
    case OpEvict(now, locs, picks) => Evict(s, now, locs, picks)
    case OpResetExp => ResetExp(s)
    case OpUpdateFac => CloseWindow(s)
    case OpReload(env, appid, clients) => Reload(s, env, appid, clients)
  }

  /** A run is a sequence of states joined by enabled steps. */
  ghost predicate Run(states: seq<State>, ops: seq<Op>) {
    && |states| == |ops| + 1
    && forall i :: 0 <= i < |ops| ==> Enabled(states[i], ops[i]) && states[i + 1] == Apply(states[i], ops[i])
  }

  /** A new registry holds nothing but the scheduler settings it loaded. */
  predicate Initial(s: State) {
    s == EMPTY.(schedulers := s.schedulers)
  }

  ghost predicate RunFromStart(states: seq<State>, ops: seq<Op>) {
    Run(states, ops) && Initial(states[0])
  }

  /** A run with one more step. */
  lemma OneMoreStep(states: seq<State>, ops: seq<Op>, op: Op) returns (states': seq<State>, ops': seq<Op>)
    requires RunFromStart(states, ops) && Enabled(states[|ops|], op)
    ensures RunFromStart(states', ops') && ops' == ops + [op] && states' == states + [Apply(states[|ops|], op)]
  {
    var next := Apply(states[|ops|], op);
    states', ops' := states + [next], ops + [op];
    forall i | 0 <= i < |ops'| ensures Enabled(states'[i], ops'[i]) && states'[i + 1] == Apply(states'[i], ops'[i]) {
      if i < |ops| {
        assert states'[i] == states[i] && states'[i + 1] == states[i + 1] && ops'[i] == ops[i];
      } else {
        assert states'[i] == states[|ops|] && states'[i + 1] == next && ops'[i] == op;
      }
    }
  }

  lemma ThreeSteps(s: State, o0: Op, o1: Op, o2: Op) returns (states: seq<State>, ops: seq<Op>)
    requires Initial(s)
    requires Enabled(s, o0)
    requires Enabled(Apply(s, o0), o1)
    requires Enabled(Apply(Apply(s, o0), o1), o2)
    ensures ops == [o0, o1, o2] && RunFromStart(states, ops)
    ensures states[2] == Apply(Apply(s, o0), o1) && states[3] == Apply(states[2], o2)
  {
    states, ops := OneMoreStep([s], [], o0);
    states, ops := OneMoreStep(states, ops, o1);
    states, ops := OneMoreStep(states, ops, o2);
  }
}
