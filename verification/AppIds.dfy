/** The application id that an App carries, and with it the group names of the snapshot:
    the exact condition on names under which it is that of the App's instances. */
module AppIds {
  import opened Sequences
  import opened Wrappers

  import opened Keys
  import opened Instances
  import opened RegistryModel
  import opened Structure
  import opened Polling
  import opened Traversal

  /** Every App carries the application id of each of its instances. */
  ghost predicate OwnAppids(s: State) {
    forall l | Has(s, l) :: Holder(s, l).value.appid == s.appm[l.key].apps[l.zone].appid
  }

  /** Names that share an entry share the application id. */
  ghost predicate AppidsAgree(names: iset<Name>) {
    forall p, q | p in names && q in names && AppsKey(p.appid, p.env) == AppsKey(q.appid, q.env) :: p.appid == q.appid
  }

  // ----- the invariant -----

  /** `appid` is that of a name in use which leads to the key. */
  ghost predicate Leads(names: iset<Name>, k: string, appid: string) {
    exists env :: Name(appid, env) in names && AppsKey(appid, env) == k
  }

  ghost predicate AppNamed(names: iset<Name>, k: string, a: AppData) {
    Leads(names, k, a.appid) && forall h | h in a.instances :: Leads(names, k, a.instances[h].appid)
  }

  ghost predicate AppsNamed(s: State, names: iset<Name>) {
    forall k, z | k in s.appm && z in s.appm[k].apps :: AppNamed(names, k, s.appm[k].apps[z])
  }

  lemma NamedAreOwn(s: State, names: iset<Name>)
    requires AppsNamed(s, names) && AppidsAgree(names)
    ensures OwnAppids(s)
  {
    forall l | Has(s, l) ensures Holder(s, l).value.appid == s.appm[l.key].apps[l.zone].appid {
      assert AppNamed(names, l.key, s.appm[l.key].apps[l.zone]);
    }
  }

  lemma ReplacedNamed(s: State, k: string, z: string, a: AppData, s': State, names: iset<Name>)
    requires AppsNamed(s, names) && k in s.appm && z in s.appm[k].apps && AppNamed(names, k, a)
    requires s'.appm == s.appm[k := s.appm[k].(apps := s.appm[k].apps[z := a])]
    ensures AppsNamed(s', names)
  {}

  lemma SameAppidsNamed(names: iset<Name>, k: string, a: AppData, b: AppData)
    requires AppNamed(names, k, a) && SamePlaces(a, b)
    ensures AppNamed(names, k, b)
  {}

  lemma RegisterNamed(s: State, ni: Instance, lt: int, names: iset<Name>)
    requires AppsNamed(s, names) && Name(ni.appid, ni.env) in names
    ensures AppsNamed(Register(s, ni, lt), names)
  {
    var k := AppsKey(ni.appid, ni.env);
    assert Leads(names, k, ni.appid);
    var p := AppsAt(s, k);
    var a := if ni.zone in p.apps then p.apps[ni.zone] else NewAppData(ni.appid, ni.zone);
    assert AppNamed(names, k, a);
    assert AppNamed(names, k, AppRegister(a, ni, lt));
  }

  lemma CancelNamed(s: State, zone: string, env: string, appid: string, hostname: string, lts: int, pick: string,
                    names: iset<Name>)
    requires AppsNamed(s, names)
    ensures AppsNamed(CancelAt(s, zone, env, appid, hostname, lts, pick).0, names)
  {
    var k := AppsKey(appid, env);
    var z := First(AppsAt(s, k), zone, pick);
    if z.Some? && hostname in AppsAt(s, k).apps[z.value].instances {
      assert AppNamed(names, k, AppCancel(s.appm[k].apps[z.value], hostname, lts));
    }
  }

  lemma {:induction false} CancelAllNamed(s: State, victims: seq<Instance>, now: int, picks: seq<string>,
                                          names: iset<Name>)
    requires AppsNamed(s, names) && |picks| == |victims|
    ensures AppsNamed(CancelAll(s, victims, now, picks), names)
    decreases |victims|
  {
    if victims != [] {
      var n := |victims| - 1;
      var v, t := victims[n], CancelAll(s, victims[..n], now, picks[..n]);
      CancelAllNamed(s, victims[..n], now, picks[..n], names);
      CancelNamed(t, v.zone, v.env, v.appid, v.hostname, now, picks[n], names);
    }
  }

  lemma RenewNamed(s: State, zone: string, env: string, appid: string, hostname: string, now: int, pick: string,
                   names: iset<Name>)
    requires AppsNamed(s, names)
    ensures AppsNamed(Renew(s, zone, env, appid, hostname, now, pick).0, names)
  {
    var (s', i) := Renew(s, zone, env, appid, hostname, now, pick);
    if i.Some? {
      var k := AppsKey(appid, env);
      var z := First(AppsAt(s, k), zone, pick).value;
      var a := s.appm[k].apps[z];
      SameAppidsNamed(names, k, a, AppRenew(a, hostname, now));
      ReplacedNamed(s, k, z, AppRenew(a, hostname, now), s', names);
    }
  }

  lemma SetNamed(s: State, arg: ArgSet, decode: Decoder, pick: string, names: iset<Name>)
    requires AppsNamed(s, names) && arg.Valid()
    ensures AppsNamed(Set(s, arg, decode, pick).0, names)
  {
    var k := AppsKey(arg.appid, arg.env);
    var z := First(AppsAt(s, k), arg.zone, pick);
    if z.Some? {
      var a := s.appm[k].apps[z.value];
      SetAppm(s, arg, decode, pick, z.value);
      AppSetKeepsPlaces(a, arg, decode, 0, false);
      SameAppidsNamed(names, k, a, AppSet(a, arg, decode).0);
      ReplacedNamed(s, k, z.value, AppSet(a, arg, decode).0, Set(s, arg, decode, pick).0, names);
    }
  }

  lemma SameAppsNamed(s: State, s': State, names: iset<Name>)
    requires AppsNamed(s, names) && s'.appm.Keys == s.appm.Keys
    requires forall k | k in s.appm :: s'.appm[k].apps == s.appm[k].apps
    ensures AppsNamed(s', names)
  {}

  lemma StepNamed(s: State, op: Op, names: iset<Name>)
    requires AppsNamed(s, names) && Enabled(s, op) && UsesNames(op, names)
    ensures AppsNamed(Apply(s, op), names)
  {
    match op
    case OpRegister(ins, lt) => RegisterNamed(s, ins, lt, names);
    case OpRenew(zone, env, appid, hostname, now, pick) => RenewNamed(s, zone, env, appid, hostname, now, pick, names);
    case OpCancel(zone, env, appid, hostname, lts, pick) =>
      CancelNamed(s, zone, env, appid, hostname, lts, pick, names);
      SameAppsNamed(CancelAt(s, zone, env, appid, hostname, lts, pick).0, Apply(s, op), names);
    case OpSet(arg, decode, pick) => SetNamed(s, arg, decode, pick, names);
    case OpEvict(now, locs, picks) => CancelAllNamed(s, InstancesAt(s, locs), now, picks, names);
    case _ => SameAppsNamed(s, Apply(s, op), names);
  }

  lemma {:induction false} RunNamed(states: seq<State>, ops: seq<Op>, names: iset<Name>, n: nat)
    requires RunFromStart(states, ops) && n <= |ops| && forall op | op in ops :: UsesNames(op, names)
    ensures AppsNamed(states[n], names)
  {
    if n > 0 {
      RunNamed(states, ops, names, n - 1);
      assert ops[n - 1] in ops && Enabled(states[n - 1], ops[n - 1])
        && states[n - 1 + 1] == Apply(states[n - 1], ops[n - 1]);
      StepNamed(states[n - 1], ops[n - 1], names);
    }
  }

  // ----- the exact condition -----

  /** Two applications under one key: the App made for the first also takes in the second. */
  lemma SharedEntryMixes(p: Name, q: Name) returns (states: seq<State>, ops: seq<Op>)
    requires AppsKey(p.appid, p.env) == AppsKey(q.appid, q.env) && p.appid != q.appid
    ensures RunFromStart(states, ops) && |ops| == 2 && forall op | op in ops :: UsesNames(op, iset{p, q})
    ensures !OwnAppids(states[2])
  {
    var i, j := Plain(p.appid, p.env, "z", "g"), Plain(q.appid, q.env, "z", "h");
    var s1 := Register(EMPTY, i, 0);
    var s2 := Register(s1, j, 0);
    states, ops := OneMoreStep([EMPTY], [], OpRegister(i, 0));
    states, ops := OneMoreStep(states, ops, OpRegister(j, 0));
    var l := LocOf(j);
    RegisterHolder(s1, j, 0, l);
    RegisterHolder(EMPTY, i, 0, l);
    assert Has(s2, l) && Holder(s2, l).value.appid == q.appid && s2.appm[l.key].apps[l.zone].appid == p.appid;
  }

  /** In every state of every run over `names` each App carries the application id of its
      instances, exactly when names that share an entry share the application id. */
  lemma OwnAppidsIffAgree(names: iset<Name>)
    ensures AppidsAgree(names) <==>
      forall states, ops | RunFromStart(states, ops) && (forall op | op in ops :: UsesNames(op, names)) ::
        forall i :: 0 <= i < |states| ==> OwnAppids(states[i])
  {
    if AppidsAgree(names) {
      forall states, ops | RunFromStart(states, ops) && (forall op | op in ops :: UsesNames(op, names))
        ensures forall i :: 0 <= i < |states| ==> OwnAppids(states[i])
      {
        forall i: nat | i < |states| ensures OwnAppids(states[i]) {
          RunNamed(states, ops, names, i);
          NamedAreOwn(states[i], names);
        }
      }
    } else {
      var p, q :| p in names && q in names && AppsKey(p.appid, p.env) == AppsKey(q.appid, q.env) && p.appid != q.appid;
      var states, ops := SharedEntryMixes(p, q);
      forall op | op in ops ensures UsesNames(op, names) {
        assert UsesNames(op, iset{p, q});
      }
    }
  }

  /** Environments without a dash are enough. */
  lemma DashFreeAgree(names: iset<Name>)
    requires forall p | p in names :: DashFree(p.env)
    ensures AppidsAgree(names)
  {
    forall p, q | p in names && q in names && AppsKey(p.appid, p.env) == AppsKey(q.appid, q.env)
      ensures p.appid == q.appid
    {
      AppsKeyInjective(p.appid, p.env, q.appid, q.env);
    }
  }

  /** The groups of a snapshot are then named after their instances' application: a stored
      instance is in the group of its own id and in no other. */
  lemma GroupedByAppid(s: State, im: map<string, seq<Instance>>, order: map<string, seq<Loc>>, l: Loc)
    requires OwnAppids(s) && Grouped(s, im, order)
    ensures forall id, i | id in im && i in im[id] :: i.appid == id
    ensures Has(s, l) ==> Holder(s, l).value.appid in im && Holder(s, l).value in im[Holder(s, l).value.appid]
  {
    forall id, i | id in im && i in im[id] ensures i.appid == id {
      var j: nat :| j < |im[id]| && im[id][j] == i;
      assert CopiesOf(s, im[id], order[id]) && order[id][j] in order[id];
    }
    if Has(s, l) {
      assert l in AllLocs(s);
      var id :| id in order && l in Elements(order[id]);
      assert CopiesOf(s, im[id], order[id]) && OfApp(s, id, order[id]);
      var j: nat :| j < |order[id]| && order[id][j] == l;
      assert im[id][j] in im[id];
    }
  }
}
