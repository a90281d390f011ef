/** Who hears a broadcast: a parked poll is taken off the list either way, and it is
    answered exactly when something lives in the zone it asked for. */
module Answers {
  import opened Wrappers

  import opened Keys
  import opened Instances
  import opened RegistryModel
  import opened Structure
  import opened Polling
  import opened PollAnswers
  import opened Waiters

  /** Something is stored for the application in that zone, or anywhere for "". */
  ghost predicate Lives(s: State, zone: string, env: string, appid: string) {
    exists l :: InZone(s, l, zone, env, appid)
  }

  ghost predicate InZone(s: State, l: Loc, zone: string, env: string, appid: string) {
    Has(s, l) && LiveAt(s, l, if zone == "" then l.zone else zone, env, appid)
  }

  ghost predicate DashFreeEnvs(s: State) {
    forall l | Has(s, l) :: DashFree(Holder(s, l).value.env)
  }

  lemma SomeZone(p: AppsData) returns (z: string)
    requires p.apps != map[]
    ensures z in p.apps
  {
    assert p.apps.Keys != {};
    z :| z in p.apps.Keys;
  }

  lemma FindsIffLives(s: State, zone: string, env: string, appid: string)
    requires Structured(s) && DashFree(env) && DashFreeEnvs(s)
    ensures Finds(s, zone, env, appid, 0) <==> Lives(s, zone, env, appid)
  {
    var k := AppsKey(appid, env);
    if Finds(s, zone, env, appid, 0) {
      var z := zone;
      if zone == "" {
        z := SomeZone(s.appm[k]);
      }
      var l := StoredZoneIsLive(s, k, z);
      LiveUnderKey(s, l, z, env, appid);
      assert InZone(s, l, zone, env, appid);
    }
    if Lives(s, zone, env, appid) {
      var l :| InZone(s, l, zone, env, appid);
      LiveUnderKey(s, l, if zone == "" then l.zone else zone, env, appid);
      StructuredVersion(s, k);
      assert l.zone in s.appm[k].apps;
    }
  }

  /** A broadcast in state `s` takes everyone parked under the key; it leaves a waiter
      unanswered exactly when nothing of its application lives where it asked. */
  lemma UnansweredIffNoneLives(s: State, env: string, appid: string, offers: map<string, Offer>, h: string)
    requires Structured(s) && DashFree(env) && DashFreeEnvs(s)
    requires OffersOf(s, env, appid, offers) && h in HostsAt(s.conns, PollKey(appid, env))
    ensures h !in HostsAt(Broadcast(s, env, appid).conns, PollKey(appid, env))
    ensures h !in offers <==> !Lives(s, HostsAt(s.conns, PollKey(appid, env))[h].arg.zone, env, appid)
  {
    FindsIffLives(s, HostsAt(s.conns, PollKey(appid, env))[h].arg.zone, env, appid);
  }

  /** In every run: a waiter that a step's broadcast took was left unanswered exactly
      when, after the step, nothing of its application lives where it asked. */
  lemma LeftUnansweredIff(states: seq<State>, ops: seq<Op>, zones: iset<string>, n: nat, name: Name,
                          offers: map<string, Offer>, h: string)
    requires RunFromStart(states, ops) && WildcardFree(zones) && n < |ops|
    requires forall op | op in ops :: UsesZones(op, zones)
    requires Announced(states[n], ops[n]) == Some(name)
    requires DashFree(name.env) && DashFreeEnvs(states[n + 1])
    requires h in HostsAt(states[n].conns, PollKey(name.appid, name.env))
    requires OffersOf(states[n + 1].(conns := states[n].conns), name.env, name.appid, offers)
    ensures
      var k := PollKey(name.appid, name.env);
      && k !in states[n + 1].conns
      && (h !in offers <==> !Lives(states[n + 1], states[n].conns[k][h].arg.zone, name.env, name.appid))
  {
    RunStructured(states, ops, zones);
    var s := states[n + 1].(conns := states[n].conns);
    AnnouncedClears(states[n], ops[n], name);
    SameAppmAnswers(states[n + 1], s);
    UnansweredIffNoneLives(s, name.env, name.appid, offers, h);
    SameLives(states[n + 1], s, states[n].conns[PollKey(name.appid, name.env)][h].arg.zone, name.env, name.appid);
  }

  lemma AnnouncedClears(s: State, op: Op, name: Name)
    requires Enabled(s, op) && Announced(s, op) == Some(name)
    ensures PollKey(name.appid, name.env) !in Apply(s, op).conns
  {}

  lemma SameAppmAnswers(s: State, t: State)
    requires s.appm == t.appm && Structured(s) && DashFreeEnvs(s)
    ensures Structured(t) && DashFreeEnvs(t)
  {
    var zones :| StructuredIn(s, zones);
    assert StructuredIn(t, zones);
    forall l | Has(t, l) ensures DashFree(Holder(t, l).value.env) {
      assert Has(s, l) && Holder(s, l) == Holder(t, l);
    }
  }

  lemma SameLives(s: State, t: State, zone: string, env: string, appid: string)
    requires s.appm == t.appm
    ensures Lives(s, zone, env, appid) <==> Lives(t, zone, env, appid)
  {
    forall l ensures InZone(s, l, zone, env, appid) <==> InZone(t, l, zone, env, appid) {}
  }

  // ----- the broadcasts inside an eviction pass -----

  /** The state inside a pass once the first j victims are cancelled. */
  ghost function PassUpTo(s: State, op: Op, j: nat): State
    requires op.OpEvict? && Enabled(s, op) && j <= |op.locs|
  {
    CancelAll(s, InstancesAt(s, op.locs)[..j], op.now, op.picks[..j])
  }

  /** A pass takes the waiters of its victims' keys, ... */
  lemma PassClears(s: State, op: Op, j: nat, zones: iset<string>)
    requires op.OpEvict? && Enabled(s, op) && j <= |op.locs| && StructuredIn(s, zones) && WildcardFree(zones)
    ensures PassUpTo(s, op, j).conns == s.conns - PollKeys(InstancesAt(s, op.locs)[..j])
  {
    var victims := InstancesAt(s, op.locs);
    VictimsPlaced(s, op, j, zones);
    EveryVictimBroadcasts(s, op.locs[..j], victims[..j], op.now, op.picks[..j], zones);
    CancelAllConns(s, victims[..j], op.now, op.picks[..j]);
  }

  lemma VictimsPlaced(s: State, op: Op, j: nat, zones: iset<string>)
    requires op.OpEvict? && Enabled(s, op) && j <= |op.locs| && StructuredIn(s, zones)
    ensures forall i :: 0 <= i < j ==> LocOf(InstancesAt(s, op.locs)[..j][i]) == op.locs[..j][i]
  {
    forall i | 0 <= i < j ensures LocOf(InstancesAt(s, op.locs)[..j][i]) == op.locs[..j][i] {
      assert op.locs[i] in op.locs;
      AtOwnPath(s, op.locs[i], zones);
    }
  }

  /** ... and keeps the structure. */
  lemma PassKeeps(s: State, op: Op, j: nat, zones: iset<string>)
    requires op.OpEvict? && Enabled(s, op) && j <= |op.locs|
    requires StructuredIn(s, zones) && WildcardFree(zones) && DashFreeEnvs(s)
    ensures StructuredIn(PassUpTo(s, op, j), zones) && DashFreeEnvs(PassUpTo(s, op, j))
  {
    VictimsPlaced(s, op, j, zones);
    CancelAllRemoves(s, op.locs[..j], InstancesAt(s, op.locs)[..j], op.now, op.picks[..j], zones);
    var t := PassUpTo(s, op, j);
    forall l | Has(t, l) ensures DashFree(Holder(t, l).value.env) {
      assert l in AllLocs(t);
      assert Has(s, l) && Holder(s, l) == Holder(t, l);
    }
  }

  /** The cancel of the j-th victim announces its application. */
  lemma VictimClears(s: State, op: Op, j: nat, zones: iset<string>)
    requires op.OpEvict? && Enabled(s, op) && j < |op.locs| && StructuredIn(s, zones) && WildcardFree(zones)
    ensures
      var v := InstancesAt(s, op.locs)[j];
      PassUpTo(s, op, j + 1).conns == PassUpTo(s, op, j).conns - {PollKey(v.appid, v.env)}
  {
    var victims := InstancesAt(s, op.locs);
    PassClears(s, op, j, zones);
    PassClears(s, op, j + 1, zones);
    PollKeysUpTo(victims, j);
    MinusTwice(s.conns, PollKeys(victims[..j]), {PollKey(victims[j].appid, victims[j].env)});
  }

  lemma PollKeysUpTo(victims: seq<Instance>, j: nat)
    requires j < |victims|
    ensures PollKeys(victims[..j + 1]) == PollKeys(victims[..j]) + {PollKey(victims[j].appid, victims[j].env)}
  {
    PollKeysSnoc(victims[..j + 1]);
    assert victims[..j + 1][..j] == victims[..j];
  }

  /** In every run, for every victim of every pass: who is still parked under the victim's
      key when it is cancelled goes off the list, and is left unanswered exactly when
      after that cancel nothing of the application lives where it asked. */
  lemma PassLeavesUnansweredIff(states: seq<State>, ops: seq<Op>, zones: iset<string>, n: nat, j: nat,
                                offers: map<string, Offer>, h: string)
    requires RunFromStart(states, ops) && WildcardFree(zones) && n < |ops|
    requires forall op | op in ops :: UsesZones(op, zones)
    requires ops[n].OpEvict? && Enabled(states[n], ops[n]) && j < |ops[n].locs|
    requires DashFreeEnvs(states[n])
    requires
      var v := InstancesAt(states[n], ops[n].locs)[j];
      var before, after := PassUpTo(states[n], ops[n], j), PassUpTo(states[n], ops[n], j + 1);
      && h in HostsAt(before.conns, PollKey(v.appid, v.env))
      && OffersOf(after.(conns := before.conns), v.env, v.appid, offers)
    ensures
      var v := InstancesAt(states[n], ops[n].locs)[j];
      var k, after := PollKey(v.appid, v.env), PassUpTo(states[n], ops[n], j + 1);
      && k in states[n].conns && h in states[n].conns[k] && k !in after.conns
      && (h !in offers <==> !Lives(after, states[n].conns[k][h].arg.zone, v.env, v.appid))
  {
    RunStructured(states, ops, zones);
    var s, op := states[n], ops[n];
    var before, after := PassUpTo(s, op, j), PassUpTo(s, op, j + 1);
    var l := op.locs[j];
    assert l in op.locs;
    var v := Holder(s, l).value;
    PassClears(s, op, j, zones);
    PassKeeps(s, op, j + 1, zones);
    VictimClears(s, op, j, zones);
    var t := after.(conns := before.conns);
    SameAppmAnswers(after, t);
    UnansweredIffNoneLives(t, v.env, v.appid, offers, h);
    SameLives(after, t, s.conns[PollKey(v.appid, v.env)][h].arg.zone, v.env, v.appid);
  }

  // ----- the waiter nobody answers -----

  /** Register, park, cancel the last instance: the poll is taken and gets nothing, and
      a registration right after it finds nobody to tell. */
  lemma LastLeavesUnanswered(i: Instance, host: string)
    requires i.zone != ""
    ensures
      var k := PollKey(i.appid, i.env);
      var s1 := Register(EMPTY, i, 0);
      var poll := ArgPolls(i.zone, i.env, [i.appid], host, [Bump(0, i.latestTs)]);
      var s2 := Polls(s1, poll);
      var s3 := Cancel(s2, i.zone, i.env, i.appid, i.hostname, 0, "").0;
      var s4 := Register(s3, i, 0);
      && k in s2.conns && host in s2.conns[k] && k !in s3.conns
      && (forall offers | OffersOf(s3.(conns := s2.conns), i.env, i.appid, offers) :: offers == map[])
      && (forall offers | OffersOf(s4.(conns := s3.conns), i.env, i.appid, offers) :: offers == map[])
  {
    var k, key := PollKey(i.appid, i.env), AppsKey(i.appid, i.env);
    var s1 := Register(EMPTY, i, 0);
    var poll := ArgPolls(i.zone, i.env, [i.appid], host, [Bump(0, i.latestTs)]);
    assert AppsAt(s1, key).latestTs == Bump(0, i.latestTs) && !PollFinds(s1, poll, 0);
    ParkFirst(s1, poll);
    var s2 := Polls(s1, poll);
    LastCancelEmpties(s2, i);
    var s3 := Cancel(s2, i.zone, i.env, i.appid, i.hostname, 0, "").0;
    assert !Finds(s3, i.zone, i.env, i.appid, 0);
    assert s2.conns == map[k := map[host := Conn(0, poll, Bump(0, i.latestTs), 1)]];
    forall offers | OffersOf(s3.(conns := s2.conns), i.env, i.appid, offers) ensures offers == map[] {
      assert offers.Keys == {};
    }
    forall offers | OffersOf(Register(s3, i, 0).(conns := s3.conns), i.env, i.appid, offers) ensures offers == map[] {
      assert offers.Keys == {};
    }
  }

  lemma LastCancelEmpties(s: State, i: Instance)
    requires i.zone != "" && s.appm == Register(EMPTY, i, 0).appm
    ensures
      var s' := Cancel(s, i.zone, i.env, i.appid, i.hostname, 0, "").0;
      s'.appm == map[] && s'.conns == s.conns - {PollKey(i.appid, i.env)}
  {
    var k := AppsKey(i.appid, i.env);
    var p := s.appm[k];
    assert p.apps.Keys == {i.zone} && p.apps[i.zone].instances.Keys == {i.hostname};
    var p1 := Cancelled(p, i.zone, i.zone, i.hostname, 0);
    assert AppCancel(p.apps[i.zone], i.hostname, 0).instances.Keys == {};
    assert p1.apps.Keys == {};
    assert s.appm.Keys == {k};
  }

  // ----- references that outlive their requests -----

  /** A poll that parks always reports an error, since its last application has no news.
      The handler for several applications answers with any error at once, so nobody waits,
      and it never gives the references back: they stay until a broadcast. */
  lemma ParkedBatchIsAnsweredAtOnce(s: State, arg: ArgPolls, ins: map<string, Info>, notify: bool, miss: seq<string>,
                                    err: PollError, k: string)
    requires |arg.appids| == |arg.latestTs| > 0 && Asked(s, arg, |arg.appids|, ins, notify, miss, err)
    requires Positive(s.conns) && !notify
    ensures err != NoError
    ensures Count(Polls(s, arg).conns, k, arg.hostname)
         == Count(s.conns, k, arg.hostname) + Listed(arg, k, |arg.appids|)
  {
    AnswerKind(s, arg, |arg.appids| - 1, "");
    AskedNotifies(s, arg, ins, notify, miss, err);
    SameNotifies(s, arg);
    PollsCount(s, arg, k, arg.hostname);
  }

  lemma SameNotifies(s: State, arg: ArgPolls)
    requires |arg.appids| == |arg.latestTs|
    ensures Notifies(s, Normalized(arg)) <==> Notifies(s, arg)
  {}

  /** Register, park, register, park again, and only then the first request, served
      meanwhile, gives up its reference: it takes that of the second, which is waiting.
      The next registration has news for it and tells nobody. */
  lemma ServedTakesLaterReference(i: Instance, host: string)
    requires i.zone != ""
    ensures
      var k, key := PollKey(i.appid, i.env), AppsKey(i.appid, i.env);
      var s1 := Register(EMPTY, i, 0);
      var first := ArgPolls(i.zone, i.env, [i.appid], host, [AppsAt(s1, key).latestTs]);
      var s2 := Polls(s1, first);
      var s3 := Register(s2, i, 0);
      var second := ArgPolls(i.zone, i.env, [i.appid], host, [AppsAt(s3, key).latestTs]);
      var s4 := Polls(s3, second);
      var s5 := DelConns(s4, first);
      var s6 := Register(s5, i, 0);
      && host in HostsAt(s2.conns, k) && k !in s3.conns
      && host in HostsAt(s4.conns, k) && host !in HostsAt(s5.conns, k)
      && PollFinds(s6, second, 0)
      && (forall offers | OffersOf(s6.(conns := s5.conns), i.env, i.appid, offers) :: host !in offers)
  {
    var k, key := PollKey(i.appid, i.env), AppsKey(i.appid, i.env);
    var s1 := Register(EMPTY, i, 0);
    var first := ArgPolls(i.zone, i.env, [i.appid], host, [AppsAt(s1, key).latestTs]);
    UpToDateParks(s1, i, first);
    var s2 := Polls(s1, first);
    var s3 := Register(s2, i, 0);
    var second := ArgPolls(i.zone, i.env, [i.appid], host, [AppsAt(s3, key).latestTs]);
    UpToDateParks(s3, i, second);
    var s4 := Polls(s3, second);
    DelSingle(s4, first);
    RegisteredIsNews(DelConns(s4, first), i, second);
  }

  lemma DelSingle(s: State, poll: ArgPolls)
    requires |poll.appids| == 1
    ensures DelConns(s, poll).conns == DelOne(s.conns, poll, 0)
  {
    assert DelUpTo(s.conns, poll, 0) == s.conns;
  }

  lemma UpToDateParks(s: State, i: Instance, poll: ArgPolls)
    requires poll.appids == [i.appid] && poll.env == i.env && PollKey(i.appid, i.env) !in s.conns
    requires poll.latestTs == [AppsAt(s, AppsKey(i.appid, i.env)).latestTs]
    ensures
      var k := PollKey(i.appid, i.env);
      var s' := Polls(s, poll);
      && s'.appm == s.appm && s'.conns == s.conns[k := map[poll.hostname := Conn(s.nextCh, poll, poll.latestTs[0], 1)]]
  {
    assert !PollFinds(s, poll, 0);
    ParkFirst(s, poll);
  }

  lemma RegisteredIsNews(s: State, i: Instance, poll: ArgPolls)
    requires i.zone != "" && poll.appids == [i.appid] && poll.env == i.env && poll.zone == i.zone
    requires poll.latestTs == [AppsAt(s, AppsKey(i.appid, i.env)).latestTs]
    ensures PollFinds(Register(s, i, 0), poll, 0)
  {}
}
