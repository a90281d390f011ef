/** Parked long polls are never out of date: the exact condition on application
    names, over every run of atomic steps. */
module Polling {
  import opened Wrappers

  import opened Keys
  import opened Instances
  import opened RegistryModel
  import opened Structure

  /** Fetch answers with data exactly when `Finds` holds, whatever the wildcard picks. */
  lemma FetchFinds(s: State, zone: string, env: string, appid: string, lts: int, status: bv32, pick: string)
    ensures Fetch(s, zone, env, appid, lts, status, pick).Found? <==> Finds(s, zone, env, appid, lts)
  {}

  /** No parked poll of `s` would be answered if it asked again. */
  ghost predicate UpToDate(s: State) {
    forall k, h, appid, pick | k in s.conns && h in s.conns[k] && PollKey(appid, s.conns[k][h].arg.env) == k ::
      var c := s.conns[k][h];
      Fetch(s, c.arg.zone, c.arg.env, appid, c.latestTime, STATUS_UP, pick) in {NotModified, NothingFound}
  }

  /** The applications a step names are among `names`. */
  ghost predicate UsesNames(op: Op, names: iset<Name>) {
    match op
    case OpRegister(ins, _) => Name(ins.appid, ins.env) in names
    case OpCancel(_, env, appid, _, _, _) => Name(appid, env) in names
    case OpSet(arg, _, _) => Name(arg.appid, arg.env) in names
    case OpPolls(poll) => forall appid | appid in poll.appids :: Name(appid, poll.env) in names
    case OpReload(env, appid, _) => Name(appid, env) in names
    case _ => true
  }

  // ----- the inductive invariant -----

  ghost predicate ConnOk(s: State, names: iset<Name>, k: string, c: Conn) {
    forall appid | PollKey(appid, c.arg.env) == k ::
      Name(appid, c.arg.env) in names && !Finds(s, c.arg.zone, c.arg.env, appid, c.latestTime)
  }

  ghost predicate ConnsOk(s: State, names: iset<Name>, conns: map<string, Hosts>) {
    forall k, h | k in conns && h in conns[k] :: ConnOk(s, names, k, conns[k][h])
  }

  /** Every stored instance's own name is among `names` and leads to its entry. */
  ghost predicate Named(s: State, names: iset<Name>) {
    forall l | Has(s, l) ::
      var i := Holder(s, l).value;
      Name(i.appid, i.env) in names && AppsKey(i.appid, i.env) == l.key
  }

  ghost predicate Invariant(s: State, names: iset<Name>) {
    Named(s, names) && ConnsOk(s, names, s.conns)
  }

  lemma InvariantUpToDate(s: State, names: iset<Name>)
    requires Invariant(s, names)
    ensures UpToDate(s)
  {
    forall k, h, appid, pick | k in s.conns && h in s.conns[k] && PollKey(appid, s.conns[k][h].arg.env) == k
      ensures var c := s.conns[k][h];
        Fetch(s, c.arg.zone, c.arg.env, appid, c.latestTime, STATUS_UP, pick) in {NotModified, NothingFound}
    {
      var c := s.conns[k][h];
      assert ConnOk(s, names, k, c);
      FetchFinds(s, c.arg.zone, c.arg.env, appid, c.latestTime, STATUS_UP, pick);
    }
  }

  /** A step that changes one entry and broadcasts under a name of that entry. */
  lemma TouchKeepsConns(s: State, s': State, n: Name, names: iset<Name>)
    requires ConnsOk(s, names, s.conns) && KeysAgree(names) && n in names
    requires forall k | k != AppsKey(n.appid, n.env) :: AppsAt(s', k) == AppsAt(s, k) && (k in s'.appm <==> k in s.appm)
    requires s'.conns == s.conns - {PollKey(n.appid, n.env)}
    ensures ConnsOk(s', names, s'.conns)
  {
    forall k, h | k in s'.conns && h in s'.conns[k] ensures ConnOk(s', names, k, s'.conns[k][h]) {
      var c := s.conns[k][h];
      assert ConnOk(s, names, k, c);
      forall appid | PollKey(appid, c.arg.env) == k
        ensures AppsKey(appid, c.arg.env) != AppsKey(n.appid, n.env)
      {
        var m := Name(appid, c.arg.env);
        assert m in names;
      }
    }
  }

  /** A step that leaves every version and every set of zones as it was. */
  lemma QuietKeepsConns(s: State, s': State, names: iset<Name>)
    requires ConnsOk(s, names, s.conns)
    requires s'.appm.Keys == s.appm.Keys
    requires forall k | k in s.appm ::
      s'.appm[k].latestTs == s.appm[k].latestTs && s'.appm[k].apps.Keys == s.appm[k].apps.Keys
    requires forall k | k in s'.conns :: k in s.conns && s'.conns[k] == s.conns[k]
    ensures ConnsOk(s', names, s'.conns)
  {
    forall k, h | k in s'.conns && h in s'.conns[k] ensures ConnOk(s', names, k, s'.conns[k][h]) {
      var c := s.conns[k][h];
      assert ConnOk(s, names, k, c);
      forall appid | PollKey(appid, c.arg.env) == k
        ensures !Finds(s', c.arg.zone, c.arg.env, appid, c.latestTime)
      {
        var key := AppsKey(appid, c.arg.env);
        assert c.arg.zone == "" && key in s.appm ==> (s'.appm[key].apps.Keys == {} <==> s.appm[key].apps.Keys == {});
        assert !Finds(s, c.arg.zone, c.arg.env, appid, c.latestTime);
      }
    }
  }

  lemma RegisterKeeps(s: State, ni: Instance, lt: int, names: iset<Name>)
    requires Invariant(s, names) && KeysAgree(names) && Name(ni.appid, ni.env) in names
    ensures Invariant(Register(s, ni, lt), names)
  {
    var l := LocOf(ni);
    var i := Merge(Holder(s, l), ni);
    var s' := Register(s, ni, lt);
    assert Name(i.appid, i.env) in names && AppsKey(i.appid, i.env) == l.key;
    TouchKeepsConns(s, s', Name(i.appid, i.env), names);
    forall l' | Has(s', l')
      ensures var j := Holder(s', l').value; Name(j.appid, j.env) in names && AppsKey(j.appid, j.env) == l'.key
    {
      RegisterHolder(s, ni, lt, l');
    }
  }

  /** What a cancel leaves stored was stored before, in the same place. */
  lemma CancelShrinks(s: State, zone: string, env: string, appid: string, hostname: string, lts: int, pick: string,
                      l: Loc)
    ensures
      var s' := CancelAt(s, zone, env, appid, hostname, lts, pick).0;
      Has(s', l) ==> Holder(s', l) == Holder(s, l)
  {}

  lemma CancelKeeps(s: State, zone: string, env: string, appid: string, hostname: string, lts: int, pick: string,
                    names: iset<Name>)
    requires Invariant(s, names) && KeysAgree(names) && Name(appid, env) in names
    ensures Invariant(CancelAt(s, zone, env, appid, hostname, lts, pick).0, names)
  {
    var (s', i) := CancelAt(s, zone, env, appid, hostname, lts, pick);
    if i.Some? {
      TouchKeepsConns(s, s', Name(appid, env), names);
      forall l | Has(s', l) ensures Holder(s', l) == Holder(s, l) {
        CancelShrinks(s, zone, env, appid, hostname, lts, pick, l);
      }
    }
  }

  lemma {:induction false} CancelAllKeeps(s: State, victims: seq<Instance>, now: int, picks: seq<string>,
                                          names: iset<Name>)
    requires Invariant(s, names) && KeysAgree(names) && |picks| == |victims|
    requires forall v | v in victims :: Name(v.appid, v.env) in names
    ensures Invariant(CancelAll(s, victims, now, picks), names)
    decreases |victims|
  {
    if victims != [] {
      var n := |victims| - 1;
      CancelAllKeeps(s, victims[..n], now, picks[..n], names);
      var v := victims[n];
      CancelKeeps(CancelAll(s, victims[..n], now, picks[..n]),
                  v.zone, v.env, v.appid, v.hostname, now, picks[n], names);
    }
  }

  lemma EvictKeeps(s: State, now: int, locs: seq<Loc>, picks: seq<string>, names: iset<Name>)
    requires Invariant(s, names) && KeysAgree(names)
    requires EvictChoice(s, now, locs) && |picks| == |locs|
    ensures Invariant(Evict(s, now, locs, picks), names)
  {
    var victims := InstancesAt(s, locs);
    forall v | v in victims ensures Name(v.appid, v.env) in names {
      var j :| 0 <= j < |victims| && v == victims[j];
      assert locs[j] in locs && Has(s, locs[j]);
    }
    CancelAllKeeps(s, victims, now, picks, names);
  }

  lemma RenewKeeps(s: State, zone: string, env: string, appid: string, hostname: string, now: int, pick: string,
                   names: iset<Name>)
    requires Invariant(s, names)
    ensures Invariant(Renew(s, zone, env, appid, hostname, now, pick).0, names)
  {
    var (s', i) := Renew(s, zone, env, appid, hostname, now, pick);
    if i.Some? {
      var key := AppsKey(appid, env);
      var z := First(AppsAt(s, key), zone, pick).value;
      QuietKeepsConns(s, s', names);
      ReplaceKeepsNames(s, s', key, z, AppRenew(s.appm[key].apps[z], hostname, now), names);
    }
  }

  lemma SetKeeps(s: State, arg: ArgSet, decode: Decoder, pick: string, names: iset<Name>)
    requires Invariant(s, names) && arg.Valid()
    ensures Invariant(Set(s, arg, decode, pick).0, names)
  {
    var key := AppsKey(arg.appid, arg.env);
    var z := First(AppsAt(s, key), arg.zone, pick);
    if z.Some? {
      var s' := Set(s, arg, decode, pick).0;
      SetAppm(s, arg, decode, pick, z.value);
      QuietKeepsConns(s, s', names);
      AppSetKeepsPlaces(s.appm[key].apps[z.value], arg, decode, 0, false);
      ReplaceKeepsNames(s, s', key, z.value, AppSet(s.appm[key].apps[z.value], arg, decode).0, names);
    }
  }

  lemma ReplaceKeepsNames(s: State, s': State, k: string, z: string, a: AppData, names: iset<Name>)
    requires Named(s, names) && k in s.appm && z in s.appm[k].apps && SamePlaces(s.appm[k].apps[z], a)
    requires s'.appm == s.appm[k := s.appm[k].(apps := s.appm[k].apps[z := a])]
    ensures Named(s', names)
  {
    forall l | Has(s', l) ensures Has(s, l) && SamePlace(Holder(s, l).value, Holder(s', l).value) {}
  }

  lemma ParkOneKeeps(s: State, p: Parking, arg: ArgPolls, i: nat, names: iset<Name>)
    requires i < |arg.appids| == |arg.latestTs| && ConnsOk(s, names, p.conns)
    requires Name(arg.appids[i], arg.env) in names && !PollFinds(s, arg, i)
    ensures ConnsOk(s, names, ParkOne(p, arg, i).conns)
  {
    var k0 := PollKey(arg.appids[i], arg.env);
    var conns' := ParkOne(p, arg, i).conns;
    forall k, h | k in conns' && h in conns'[k] ensures ConnOk(s, names, k, conns'[k][h]) {
      if k in p.conns && h in p.conns[k] {
        assert ConnOk(s, names, k, p.conns[k][h]);
      } else {
        assert k == k0 && conns'[k][h].arg == arg && conns'[k][h].latestTime == arg.latestTs[i];
        forall appid | PollKey(appid, arg.env) == k ensures appid == arg.appids[i] {
          PollKeySameEnv(appid, arg.appids[i], arg.env);
        }
      }
    }
  }

  lemma {:induction false} ParkKeeps(s: State, p: Parking, arg: ArgPolls, n: nat, names: iset<Name>)
    requires n <= |arg.appids| == |arg.latestTs| && ConnsOk(s, names, p.conns) && !Notifies(s, arg)
    requires forall appid | appid in arg.appids :: Name(appid, arg.env) in names
    ensures ConnsOk(s, names, ParkUpTo(p, arg, n).conns)
  {
    if n > 0 {
      ParkKeeps(s, p, arg, n - 1, names);
      ParkOneKeeps(s, ParkUpTo(p, arg, n - 1), arg, n - 1, names);
    }
  }

  lemma PollsKeeps(s: State, poll: ArgPolls, names: iset<Name>)
    requires Invariant(s, names) && UsesNames(OpPolls(poll), names)
    ensures Invariant(Polls(s, poll), names)
  {
    var arg := Normalized(poll);
    var s' := Polls(s, poll);
    if !Notifies(s, arg) {
      ParkKeeps(s, Parking(s.conns, None, s.nextCh), arg, |arg.appids|, names);
    }
    SameEntriesKeep(s, s', names);
  }

  /** The invariant depends on the entries and the parked polls only. */
  lemma SameEntriesKeep(s: State, s': State, names: iset<Name>)
    requires Named(s, names) && s'.appm == s.appm && ConnsOk(s, names, s'.conns)
    ensures Invariant(s', names)
  {
    forall k, h | k in s'.conns && h in s'.conns[k] ensures ConnOk(s', names, k, s'.conns[k][h]) {
      assert ConnOk(s, names, k, s'.conns[k][h]);
    }
    forall l | Has(s', l) ensures Holder(s', l) == Holder(s, l) {}
  }

  lemma {:induction false} DelConnsKeeps(s: State, conns: map<string, Hosts>, arg: ArgPolls, n: nat, names: iset<Name>)
    requires n <= |arg.appids| && ConnsOk(s, names, conns)
    ensures ConnsOk(s, names, DelUpTo(conns, arg, n))
  {
    if n > 0 {
      DelConnsKeeps(s, conns, arg, n - 1, names);
      var before := DelUpTo(conns, arg, n - 1);
      var after := DelOne(before, arg, n - 1);
      forall k, h | k in after && h in after[k] ensures ConnOk(s, names, k, after[k][h]) {
        assert ConnOk(s, names, k, before[k][h]);
      }
    }
  }

  lemma ReloadKeeps(s: State, env: string, appid: string, clients: Clients, names: iset<Name>)
    requires Invariant(s, names) && KeysAgree(names) && Name(appid, env) in names
    ensures Invariant(Reload(s, env, appid, clients), names)
  {
    var s' := Reload(s, env, appid, clients);
    TouchKeepsConns(s, s', Name(appid, env), names);
    forall l | Has(s', l) ensures Holder(s', l) == Holder(s, l) {}
  }

  lemma StepKeeps(s: State, op: Op, names: iset<Name>)
    requires Invariant(s, names) && KeysAgree(names) && Enabled(s, op) && UsesNames(op, names)
    ensures Invariant(Apply(s, op), names)
  {
    match op
    case OpRegister(ins, lt) => RegisterKeeps(s, ins, lt, names);
    case OpRenew(zone, env, appid, hostname, now, pick) => RenewKeeps(s, zone, env, appid, hostname, now, pick, names);
    case OpCancel(zone, env, appid, hostname, lts, pick) =>
      CancelKeeps(s, zone, env, appid, hostname, lts, pick, names);
      var s1 := CancelAt(s, zone, env, appid, hostname, lts, pick).0;
      SameEntriesKeep(s1, Apply(s, op), names);
    case OpSet(arg, decode, pick) => SetKeeps(s, arg, decode, pick, names);
    case OpPolls(poll) => PollsKeeps(s, poll, names);
    case OpDelConns(poll) =>
      DelConnsKeeps(s, s.conns, poll, |poll.appids|, names);
      SameEntriesKeep(s, Apply(s, op), names);
    case OpEvict(now, locs, picks) => EvictKeeps(s, now, locs, picks, names);
    case OpReload(env, appid, clients) => ReloadKeeps(s, env, appid, clients, names);
    case OpResetExp => SameEntriesKeep(s, Apply(s, op), names);
    case OpUpdateFac => SameEntriesKeep(s, Apply(s, op), names);
  }

  lemma {:induction false} RunKeeps(states: seq<State>, ops: seq<Op>, names: iset<Name>)
    requires RunFromStart(states, ops) && KeysAgree(names) && forall op | op in ops :: UsesNames(op, names)
    ensures forall i :: 0 <= i < |states| ==> Invariant(states[i], names)
  {
    if ops != [] {
      var n := |ops| - 1;
      RunKeeps(states[..n + 1], ops[..n], names);
      assert states[n] == states[..n + 1][n];
      StepKeeps(states[n], ops[n], names);
    }
  }

  // ----- names that share an entry but not a poll key -----

  /** Register p, poll q, register p again: the poller parked under q's key is
      not woken although q's entry has a new version. */
  lemma CollisionLeavesStale(p: Name, q: Name) returns (states: seq<State>, ops: seq<Op>)
    requires AppsKey(p.appid, p.env) == AppsKey(q.appid, q.env) && PollKey(p.appid, p.env) != PollKey(q.appid, q.env)
    ensures RunFromStart(states, ops) && |ops| == 3
    ensures forall op | op in ops :: UsesNames(op, iset{p, q})
    ensures !UpToDate(states[3])
  {
    var i := Plain(p.appid, p.env, "z", "h");
    var poll := ArgPolls("z", q.env, [q.appid], "w", [1]);
    var s1 := Register(EMPTY, i, 0);
    assert AppsAt(s1, AppsKey(q.appid, q.env)).latestTs == 1;
    assert !PollFinds(s1, poll, 0);
    var s2 := Polls(s1, poll);
    var k := PollKey(q.appid, q.env);
    ParkFirst(s1, poll);
    var s3 := Register(s2, i, 0);
    assert AppsAt(s3, AppsKey(q.appid, q.env)).latestTs == 2;
    assert k in s3.conns && "w" in s3.conns[k];
    var c := s3.conns[k]["w"];
    assert Finds(s3, c.arg.zone, c.arg.env, q.appid, c.latestTime);
    FetchFinds(s3, c.arg.zone, c.arg.env, q.appid, c.latestTime, STATUS_UP, "");
    states, ops := ThreeSteps(EMPTY, OpRegister(i, 0), OpPolls(poll), OpRegister(i, 0));
  }

  lemma ParkFirst(s: State, poll: ArgPolls)
    requires |poll.appids| == |poll.latestTs| == 1 && !Notifies(s, poll)
    ensures
      var k := PollKey(poll.appids[0], poll.env);
      var s' := Polls(s, poll);
      && s'.appm == s.appm
      && k in s'.conns && poll.hostname in s'.conns[k]
      && (k !in s.conns ==> s'.conns == s.conns[k := map[poll.hostname := Conn(s.nextCh, poll, poll.latestTs[0], 1)]])
  {
    var p := Parking(s.conns, None, s.nextCh);
    assert ParkUpTo(p, poll, 1) == ParkOne(ParkUpTo(p, poll, 0), poll, 0) == ParkOne(p, poll, 0);
  }

  /** Parked polls stay up to date in every state of every run over `names`
      exactly when names that share an entry share a poll key. */
  lemma ParkedUpToDateIffKeysAgree(names: iset<Name>)
    ensures KeysAgree(names) <==>
      forall states, ops | RunFromStart(states, ops) && (forall op | op in ops :: UsesNames(op, names)) ::
        forall i :: 0 <= i < |states| ==> UpToDate(states[i])
  {
    if KeysAgree(names) {
      forall states, ops | RunFromStart(states, ops) && (forall op | op in ops :: UsesNames(op, names))
        ensures forall i :: 0 <= i < |states| ==> UpToDate(states[i])
      {
        RunKeeps(states, ops, names);
        forall i | 0 <= i < |states| ensures UpToDate(states[i]) {
          InvariantUpToDate(states[i], names);
        }
      }
    } else {
      var p, q :| p in names && q in names
        && AppsKey(p.appid, p.env) == AppsKey(q.appid, q.env) && PollKey(p.appid, p.env) != PollKey(q.appid, q.env);
      var states, ops := CollisionLeavesStale(p, q);
      forall op | op in ops ensures UsesNames(op, names) {
        assert UsesNames(op, iset{p, q});
      }
    }
  }
}
