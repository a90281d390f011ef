/** What a fetch answers, read off the stored instances, the entry's version and the
    settings that were loaded last; and what polls and broadcasts pass on of it. */
module Views {
  import opened Wrappers

  import opened Keys
  import opened Instances
  import opened RegistryModel
  import opened Structure
  import opened PollAnswers
  import opened Waiters

  /** Two sets of status bits have one in common. */
  predicate CommonBit(x: bv32, y: bv32) {
    x & y != 0
  }

  /** `v` holds, by hostname, what is stored in one zone under one key with a status that
      has a bit in common with `status`. */
  ghost predicate Shows(s: State, key: string, zone: string, status: bv32, v: View) {
    forall h ::
      && (h in v <==> Has(s, Loc(key, zone, h)) && CommonBit(status, Holder(s, Loc(key, zone, h)).value.status))
      && (h in v ==> Has(s, Loc(key, zone, h)) && v[h] == Holder(s, Loc(key, zone, h)).value)
  }

  lemma FilterIsCommonBit(i: Instance, status: bv32)
    ensures Filter(i, status) <==> CommonBit(status, i.status)
  {}

  lemma VisibleShows(s: State, key: string, zone: string, status: bv32)
    requires key in s.appm && zone in s.appm[key].apps
    ensures Shows(s, key, zone, status, Visible(s.appm[key].apps[zone], status))
  {
    var v := Visible(s.appm[key].apps[zone], status);
    forall h
      ensures h in v <==>
        Has(s, Loc(key, zone, h)) && CommonBit(status, Holder(s, Loc(key, zone, h)).value.status)
    {
      if Has(s, Loc(key, zone, h)) {
        FilterIsCommonBit(Holder(s, Loc(key, zone, h)).value, status);
      }
    }
  }

  /** A fetch in a named zone: which of the three answers, and all of the answer. */
  lemma NamedZoneAnswer(s: State, zone: string, env: string, appid: string, lts: int, status: bv32, pick: string)
    requires zone != ""
    ensures
      var key := AppsKey(appid, env);
      var r := Fetch(s, zone, env, appid, lts, status, pick);
      && (r.NotModified? <==> key in s.appm && lts >= s.appm[key].latestTs)
      && (r.Found? <==> key in s.appm && lts < s.appm[key].latestTs && zone in s.appm[key].apps)
      && (r.Found? ==> r.info.instances.Keys == {zone} && Shows(s, key, zone, status, r.info.instances[zone]))
  {
    var key := AppsKey(appid, env);
    if key in s.appm && zone in s.appm[key].apps {
      VisibleShows(s, key, zone, status);
    }
  }

  /** A fetch for all zones finds something as soon as there is a zone, and shows one. */
  lemma WildcardAnswer(s: State, env: string, appid: string, lts: int, status: bv32, pick: string)
    ensures
      var key := AppsKey(appid, env);
      var r := Fetch(s, "", env, appid, lts, status, pick);
      && (r.NotModified? <==> key in s.appm && lts >= s.appm[key].latestTs)
      && (r.Found? <==> key in s.appm && lts < s.appm[key].latestTs && s.appm[key].apps != map[])
      && (r.Found? ==>
            && r.info.instances.Keys == {""}
            && exists z :: z in s.appm[key].apps && Shows(s, key, z, status, r.info.instances[""]))
  {
    var key := AppsKey(appid, env);
    if key in s.appm && s.appm[key].apps != map[] {
      var z := First(s.appm[key], "", pick).value;
      VisibleShows(s, key, z, status);
    }
  }

  /** An answer carries the entry's version, which is above the one asked from, and a
      client that asks again from it is told that nothing was modified. */
  lemma AnswerCarriesVersion(s: State, zone: string, env: string, appid: string, lts: int, status: bv32, pick: string,
                             status': bv32, pick': string)
    ensures
      var key := AppsKey(appid, env);
      var r := Fetch(s, zone, env, appid, lts, status, pick);
      r.Found? ==>
        && key in s.appm && r.info.latestTs == s.appm[key].latestTs > lts
        && Fetch(s, zone, env, appid, r.info.latestTs, status', pick') == NotModified
  {}

  // ----- settings -----

  function SettingsAt(s: State, key: string): Option<Clients> {
    if key in s.schedulers then Some(s.schedulers[key]) else None
  }

  /** The settings of the last reload under the key, or else those loaded at the start. */
  function LastLoaded(start: State, ops: seq<Op>, n: nat, key: string): Option<Clients>
    requires n <= |ops|
  {
    if n == 0 then SettingsAt(start, key)
    else if ops[n - 1].OpReload? && AppsKey(ops[n - 1].appid, ops[n - 1].env) == key then Some(ops[n - 1].clients)
    else LastLoaded(start, ops, n - 1, key)
  }

  lemma {:induction false} CancelAllSettings(s: State, victims: seq<Instance>, now: int, picks: seq<string>)
    requires |picks| == |victims|
    ensures CancelAll(s, victims, now, picks).schedulers == s.schedulers
    decreases |victims|
  {
    if victims != [] {
      CancelAllSettings(s, victims[..|victims| - 1], now, picks[..|victims| - 1]);
    }
  }

  lemma StepSettings(s: State, op: Op)
    requires Enabled(s, op)
    ensures Apply(s, op).schedulers
         == if op.OpReload? then s.schedulers[AppsKey(op.appid, op.env) := op.clients] else s.schedulers
  {
    if op.OpEvict? {
      CancelAllSettings(s, InstancesAt(s, op.locs), op.now, op.picks);
    }
  }

  lemma {:induction false} SettingsInRun(states: seq<State>, ops: seq<Op>, n: nat, key: string)
    requires Run(states, ops) && n <= |ops|
    ensures SettingsAt(states[n], key) == LastLoaded(states[0], ops, n, key)
  {
    if n > 0 {
      SettingsInRun(states, ops, n - 1, key);
      assert Enabled(states[n - 1], ops[n - 1]) && states[n - 1 + 1] == Apply(states[n - 1], ops[n - 1]);
      StepSettings(states[n - 1], ops[n - 1]);
    }
  }

  /** In every run an answer carries the settings that were loaded last, if there are any. */
  lemma AnswerCarriesSettings(states: seq<State>, ops: seq<Op>, n: nat,
                              zone: string, env: string, appid: string, lts: int, status: bv32, pick: string)
    requires Run(states, ops) && n <= |ops|
    ensures
      var r := Fetch(states[n], zone, env, appid, lts, status, pick);
      r.Found? ==> r.info.clients == LastLoaded(states[0], ops, n, AppsKey(appid, env))
  {
    SettingsInRun(states, ops, n, AppsKey(appid, env));
  }

  /** New settings raise the version of an entry and change nothing that is stored; so a
      client that was up to date is told, with the new settings. */
  lemma ReloadIsNews(s: State, env: string, appid: string, clients: Clients, zone: string, lts: int, status: bv32,
                     pick: string)
    requires AppsKey(appid, env) in s.appm
    ensures
      var key := AppsKey(appid, env);
      var s' := Reload(s, env, appid, clients);
      var r := Fetch(s', zone, env, appid, lts, status, pick);
      && s'.appm.Keys == s.appm.Keys && s'.appm[key].latestTs > s.appm[key].latestTs
      && (forall k | k in s.appm :: s'.appm[k].apps == s.appm[k].apps && (k != key ==> s'.appm[k] == s.appm[k]))
      && (var apps := s.appm[key].apps;
          lts <= s.appm[key].latestTs && (if zone == "" then apps != map[] else zone in apps) ==>
            r.Found? && r.info.clients == Some(clients))
  {}

  // ----- what polls and broadcasts pass on -----

  /** The answer that a poll has for one of its applications: the version it will be asked
      from, and the instances that are up. */
  ghost predicate UpView(s: State, zone: string, key: string, info: Info) {
    && key in s.appm && info.latestTs == s.appm[key].latestTs && info.clients == SettingsAt(s, key)
    && info.instances.Keys == {zone}
    && if zone != "" then Shows(s, key, zone, 1, info.instances[zone])
       else exists z :: z in s.appm[key].apps && Shows(s, key, z, 1, info.instances[""])
  }

  lemma FoundIsUpView(s: State, zone: string, env: string, appid: string, lts: int, pick: string, info: Info)
    requires Fetch(s, zone, env, appid, lts, STATUS_UP, pick) == Found(info)
    ensures UpView(s, zone, AppsKey(appid, env), info)
  {
    AnswerCarriesVersion(s, zone, env, appid, lts, STATUS_UP, pick, STATUS_UP, pick);
    if zone != "" {
      NamedZoneAnswer(s, zone, env, appid, lts, STATUS_UP, pick);
    } else {
      WildcardAnswer(s, env, appid, lts, STATUS_UP, pick);
    }
  }

  /** A poll that is answered at once is given such a view for each application with news,
      and for no other. */
  lemma PolledViews(s: State, arg: ArgPolls, ins: map<string, Info>, notify: bool, miss: seq<string>, err: PollError,
                    a: string)
    requires |arg.appids| == |arg.latestTs| && Asked(s, arg, |arg.appids|, ins, notify, miss, err)
    ensures a in ins <==> exists j :: 0 <= j < |arg.appids| && arg.appids[j] == a && PollFinds(s, arg, j)
    ensures a in ins ==> UpView(s, arg.zone, AppsKey(a, arg.env), ins[a])
  {
    if a in ins {
      assert IsAnswer(s, arg, |arg.appids|, a, ins[a]);
      var j, pick :| 0 <= j < |arg.appids| && arg.appids[j] == a && Answer(s, arg, j, pick) == Found(ins[a]);
      AnswerKind(s, arg, j, pick);
      FoundIsUpView(s, arg.zone, arg.env, a, arg.latestTs[j], pick, ins[a]);
    }
  }

  /** And so is every waiter that a broadcast makes an offer to. */
  lemma OfferedViews(s: State, env: string, appid: string, offers: map<string, Offer>, h: string)
    requires OffersOf(s, env, appid, offers) && h in offers
    ensures UpView(s, HostsAt(s.conns, PollKey(appid, env))[h].arg.zone, AppsKey(appid, env), offers[h].info)
  {
    var c := HostsAt(s.conns, PollKey(appid, env))[h];
    assert OfferTo(s, env, appid, c, offers[h]);
    var pick :| Fetch(s, c.arg.zone, env, appid, 0, STATUS_UP, pick) == Found(offers[h].info);
    FoundIsUpView(s, c.arg.zone, env, appid, 0, pick, offers[h].info);
  }

  /** The applications reported missing are those with nothing in the zone, or nothing at
      all, that were not up to date; the error is that of the last application. */
  lemma {:induction false} MissedAre(s: State, arg: ArgPolls, n: nat, a: string)
    requires n <= |arg.appids| == |arg.latestTs|
    ensures a in Missed(s, arg, n) <==>
      exists j :: 0 <= j < n && arg.appids[j] == a && NoneThere(s, arg.zone, AppsKey(a, arg.env), arg.latestTs[j])
    ensures |Missed(s, arg, n)| <= n
  {
    if n > 0 {
      MissedAre(s, arg, n - 1, a);
      NoneThereIff(s, arg, n - 1);
    }
  }

  /** The error of a poll is that of its last application: none if it has news, else whether
      there is nothing there or nothing new. */
  lemma ErrorIsOfLast(s: State, arg: ArgPolls)
    requires |arg.appids| == |arg.latestTs| > 0
    ensures
      var n := |arg.appids|;
      var there := !NoneThere(s, arg.zone, AppsKey(arg.appids[n - 1], arg.env), arg.latestTs[n - 1]);
      LastError(s, arg, n) ==
        if PollFinds(s, arg, n - 1) then NoError else if there then ErrNotModified else ErrNothingFound
  {}

  ghost predicate NoneThere(s: State, zone: string, key: string, lts: int) {
    || key !in s.appm
    || (lts < s.appm[key].latestTs && if zone == "" then s.appm[key].apps == map[] else zone !in s.appm[key].apps)
  }

  lemma NoneThereIff(s: State, arg: ArgPolls, j: nat)
    requires j < |arg.appids| == |arg.latestTs|
    ensures Answer(s, arg, j, "") == NothingFound
      <==> NoneThere(s, arg.zone, AppsKey(arg.appids[j], arg.env), arg.latestTs[j])
  {}
}
