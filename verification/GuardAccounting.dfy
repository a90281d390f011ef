/** The guard's four counters over every run, read off the history of the run. */
module GuardAccounting {
  import opened Sequences
  import opened Wrappers

  import opened Keys
  import opened Instances
  import opened GuardModel
  import opened RegistryModel
  import opened Structure
  import opened Eviction

  // ----- the history of a run -----

  /** Index of the last resetExp before step `n`, or -1. */
  function LastReset(ops: seq<Op>, n: nat): (r: int)
    requires n <= |ops|
    ensures -1 <= r < n
  {
    if n == 0 then -1 else if ops[n - 1].OpResetExp? then n - 1 else LastReset(ops, n - 1)
  }

  /** Index of the last updateFac before step `n`, or -1. */
  function LastClose(ops: seq<Op>, n: nat): (r: int)
    requires n <= |ops|
    ensures -1 <= r < n
    ensures r >= 0 ==> ops[r].OpUpdateFac?
  {
    if n == 0 then -1 else if ops[n - 1].OpUpdateFac? then n - 1 else LastClose(ops, n - 1)
  }

  /** How many instances evict removed in steps [a, b). */
  ghost function EvictedIn(states: seq<State>, ops: seq<Op>, a: nat, b: nat): int
    requires a <= b <= |ops| && |states| == |ops| + 1
    decreases b
  {
    if a == b then 0
    else if ops[b - 1].OpEvict? then EvictedIn(states, ops, a, b - 1) + |AllLocs(states[b - 1])| - |AllLocs(states[b])|
    else EvictedIn(states, ops, a, b - 1)
  }

  /** The path a heartbeat reaches, if it reaches one. */
  ghost function RenewedLoc(s: State, op: Op): Option<Loc> {
    if !op.OpRenew? then None
    else
      var key := AppsKey(op.appid, op.env);
      var z := First(AppsAt(s, key), op.zone, op.pick);
      if z.None? || !Has(s, Loc(key, z.value, op.hostname)) then None else Some(Loc(key, z.value, op.hostname))
  }

  /** How many heartbeats reached an instance in steps [a, b). */
  ghost function RenewsIn(states: seq<State>, ops: seq<Op>, a: nat, b: nat): nat
    requires a <= b <= |ops| && |states| == |ops| + 1
    decreases b
  {
    if a == b then 0
    else RenewsIn(states, ops, a, b - 1) + if RenewedLoc(states[b - 1], ops[b - 1]).Some? then 1 else 0
  }

  /** ... and how many of them the instance at `l`. */
  ghost function RenewsAt(states: seq<State>, ops: seq<Op>, a: nat, b: nat, l: Loc): nat
    requires a <= b <= |ops| && |states| == |ops| + 1
    decreases b
  {
    if a == b then 0
    else RenewsAt(states, ops, a, b - 1, l) + if RenewedLoc(states[b - 1], ops[b - 1]) == Some(l) then 1 else 0
  }

  ghost function EvictedSinceReset(states: seq<State>, ops: seq<Op>, n: nat): int
    requires n <= |ops| && |states| == |ops| + 1
  {
    EvictedIn(states, ops, LastReset(ops, n) + 1, n)
  }

  ghost function RenewsInOpenWindow(states: seq<State>, ops: seq<Op>, n: nat): nat
    requires n <= |ops| && |states| == |ops| + 1
  {
    RenewsIn(states, ops, LastClose(ops, n) + 1, n)
  }

  ghost function RenewsInClosedWindow(states: seq<State>, ops: seq<Op>, n: nat): nat
    requires n <= |ops| && |states| == |ops| + 1
  {
    var c := LastClose(ops, n);
    if c == -1 then 0 else RenewsInOpenWindow(states, ops, c)
  }

  // ----- what one step does to the expectation -----

  /** From a sound expectation, a step changes it by twice the change in live
      instances; evict leaves it alone and resetExp sets it afresh. */
  ghost predicate Expects(s: State, op: Op, s': State) {
    && s'.gd.expThreshold == Percent85(s'.gd.expPerMin)
    && s'.gd.expPerMin ==
      if op.OpResetExp? then 2 * |AllLocs(s')|
      else if op.OpEvict? then s.gd.expPerMin
      else s.gd.expPerMin + 2 * (|AllLocs(s')| - |AllLocs(s)|)
  }

  /** The steps that neither add nor remove instances nor touch the expectation. */
  predicate Quiet(op: Op) {
    !op.OpRegister? && !op.OpCancel? && !op.OpEvict? && !op.OpResetExp?
  }

  lemma QuietGuard(s: State, op: Op)
    requires Enabled(s, op) && Quiet(op)
    ensures Apply(s, op).gd.expPerMin == s.gd.expPerMin && Apply(s, op).gd.expThreshold == s.gd.expThreshold
  {}

  lemma QuietLocs(s: State, op: Op)
    requires Enabled(s, op) && Quiet(op)
    ensures AllLocs(Apply(s, op)) == AllLocs(s)
  {
    if op.OpRenew? {
      RenewLocs(s, op.zone, op.env, op.appid, op.hostname, op.now, op.pick);
    } else if op.OpSet? {
      SetLocs(s, op.arg, op.decode, op.pick);
    } else if op.OpReload? {
      ReloadLocs(s, op.env, op.appid, op.clients);
    } else {
      SameAppmLocs(s, Apply(s, op));
    }
  }

  /** A cancel names its zone, as the request format demands. */
  predicate NamesZone(op: Op) {
    op.OpCancel? ==> op.zone != ""
  }

  /** Whatever a cancel of the eviction hits, it adds nothing and leaves the guard alone. */
  lemma CancelAtShrinks(s: State, zone: string, env: string, appid: string, hostname: string, lts: int, pick: string)
    ensures
      var s' := CancelAt(s, zone, env, appid, hostname, lts, pick).0;
      AllLocs(s') <= AllLocs(s) && s'.gd == s.gd
  {}

  lemma {:induction false} CancelAllShrinks(s: State, victims: seq<Instance>, now: int, picks: seq<string>)
    requires |picks| == |victims|
    ensures
      var s' := CancelAll(s, victims, now, picks);
      AllLocs(s') <= AllLocs(s) && s'.gd == s.gd
    decreases |victims|
  {
    if victims != [] {
      var n := |victims| - 1;
      CancelAllShrinks(s, victims[..n], now, picks[..n]);
      var v := victims[n];
      CancelAtShrinks(CancelAll(s, victims[..n], now, picks[..n]), v.zone, v.env, v.appid, v.hostname, now, picks[n]);
    }
  }

  lemma StepExpectation(s: State, op: Op)
    requires Enabled(s, op) && NamesZone(op)
    requires s.gd.expPerMin >= 2 * |AllLocs(s)| && s.gd.expThreshold == Percent85(s.gd.expPerMin)
    ensures Expects(s, op, Apply(s, op))
  {
    if op.OpRegister? {
      RegisterExpectation(s, op.ins, op.latestTime);
    } else if op.OpCancel? {
      CancelExpectation(s, op.zone, op.env, op.appid, op.hostname, op.lts, op.pick);
    } else if op.OpEvict? {
      CancelAllShrinks(s, InstancesAt(s, op.locs), op.now, op.picks);
    } else if op.OpResetExp? {
      SameAppmLocs(s, Apply(s, op));
    } else {
      QuietGuard(s, op);
      QuietLocs(s, op);
    }
  }

  lemma RegisterExpectation(s: State, ni: Instance, lt: int)
    ensures
      var s' := Register(s, ni, lt);
      && |AllLocs(s')| == |AllLocs(s)| + (if Has(s, LocOf(ni)) then 0 else 1)
      && s'.gd == if Has(s, LocOf(ni)) then s.gd else IncrExp(s.gd)
  {
    RegisterLocs(s, ni, lt);
    if Has(s, LocOf(ni)) {
      assert AllLocs(s) + {LocOf(ni)} == AllLocs(s);
    } else {
      assert LocOf(ni) !in AllLocs(s);
    }
  }

  lemma SameAppmLocs(s: State, s': State)
    requires s'.appm == s.appm
    ensures AllLocs(s') == AllLocs(s)
  {
    forall l ensures Has(s', l) <==> Has(s, l) {}
  }

  lemma ReloadLocs(s: State, env: string, appid: string, clients: Clients)
    ensures AllLocs(Reload(s, env, appid, clients)) == AllLocs(s)
  {
    forall l ensures Has(Reload(s, env, appid, clients), l) <==> Has(s, l) {}
  }

  lemma CancelSize(s: State, zone: string, env: string, appid: string, hostname: string, lts: int, pick: string)
    requires zone != ""
    ensures
      var (s1, i) := CancelAt(s, zone, env, appid, hostname, lts, pick);
      && |AllLocs(s1)| == |AllLocs(s)| - (if i.Some? then 1 else 0)
      && (i.Some? ==> |AllLocs(s)| >= 1) && s1.gd == s.gd
  {
    var at := Loc(AppsKey(appid, env), zone, hostname);
    CancelLocs(s, zone, env, appid, hostname, lts, pick);
    CancelHolder(s, zone, env, appid, hostname, lts, pick, at);
    if Has(s, at) {
      assert at in AllLocs(s);
    } else {
      assert AllLocs(s) - {at} == AllLocs(s);
    }
  }

  /** The positivity test of decrExp never suppresses a decrement. */
  lemma CancelExpectation(s: State, zone: string, env: string, appid: string, hostname: string, lts: int, pick: string)
    requires zone != "" && s.gd.expPerMin >= 2 * |AllLocs(s)|
    ensures
      var (s', i) := Cancel(s, zone, env, appid, hostname, lts, pick);
      && |AllLocs(s')| == |AllLocs(s)| - (if i.Some? then 1 else 0)
      && s'.gd.expPerMin == s.gd.expPerMin - (if i.Some? then 2 else 0)
      && (i.Some? ==> s'.gd.expThreshold == Percent85(s'.gd.expPerMin))
      && (i.None? ==> s' == s)
  {
    var s1 := CancelAt(s, zone, env, appid, hostname, lts, pick).0;
    CancelSize(s, zone, env, appid, hostname, lts, pick);
    SameAppmLocs(s1, Cancel(s, zone, env, appid, hostname, lts, pick).0);
  }

  lemma RenewHeartbeat(s: State, op: Op)
    requires op.OpRenew?
    ensures
      var (s', i) := Renew(s, op.zone, op.env, op.appid, op.hostname, op.now, op.pick);
      && (i.Some? <==> RenewedLoc(s, op).Some?)
      && s'.gd == if RenewedLoc(s, op).Some? then IncrFac(s.gd) else s.gd
  {}

  lemma OtherHeartbeat(s: State, op: Op)
    requires Enabled(s, op) && !op.OpRenew? && !op.OpEvict? && !op.OpUpdateFac?
    ensures Apply(s, op).gd.facInMin == s.gd.facInMin && Apply(s, op).gd.facLastMin == s.gd.facLastMin
  {}

  lemma StepHeartbeats(s: State, op: Op)
    requires Enabled(s, op)
    ensures
      var g, g' := s.gd, Apply(s, op).gd;
      && g'.facInMin == (if op.OpUpdateFac? then 0 else if RenewedLoc(s, op).Some? then g.facInMin + 1 else g.facInMin)
      && g'.facLastMin == (if op.OpUpdateFac? then g.facInMin else g.facLastMin)
  {
    if op.OpRenew? {
      RenewHeartbeat(s, op);
    } else if op.OpEvict? {
      CancelAllShrinks(s, InstancesAt(s, op.locs), op.now, op.picks);
    } else if !op.OpUpdateFac? {
      OtherHeartbeat(s, op);
    }
  }

  // ----- the counters over a run -----

  ghost predicate Accounted(states: seq<State>, ops: seq<Op>, n: nat)
    requires n <= |ops| && |states| == |ops| + 1
  {
    var g := states[n].gd;
    && g.expPerMin == 2 * (|AllLocs(states[n])| + EvictedSinceReset(states, ops, n))
    && EvictedSinceReset(states, ops, n) >= 0
    && g.expThreshold == 17 * g.expPerMin / 20
    && g.facInMin == RenewsInOpenWindow(states, ops, n)
    && g.facLastMin == RenewsInClosedWindow(states, ops, n)
  }

  lemma HeartbeatsStep(states: seq<State>, ops: seq<Op>, n: nat)
    requires n < |ops| && |states| == |ops| + 1
    ensures RenewsInOpenWindow(states, ops, n + 1) ==
      if ops[n].OpUpdateFac? then 0
      else if RenewedLoc(states[n], ops[n]).Some? then RenewsInOpenWindow(states, ops, n) + 1
      else RenewsInOpenWindow(states, ops, n)
    ensures RenewsInClosedWindow(states, ops, n + 1) ==
      if ops[n].OpUpdateFac? then RenewsInOpenWindow(states, ops, n) else RenewsInClosedWindow(states, ops, n)
  {}

  lemma EvictedStep(states: seq<State>, ops: seq<Op>, n: nat)
    requires n < |ops| && |states| == |ops| + 1
    ensures EvictedSinceReset(states, ops, n + 1) ==
      if ops[n].OpResetExp? then 0
      else if ops[n].OpEvict? then EvictedSinceReset(states, ops, n) + |AllLocs(states[n])| - |AllLocs(states[n + 1])|
      else EvictedSinceReset(states, ops, n)
  {}

  lemma AccountedStep(states: seq<State>, ops: seq<Op>, n: nat)
    requires Run(states, ops) && n < |ops| && Accounted(states, ops, n) && NamesZone(ops[n])
    ensures Accounted(states, ops, n + 1)
  {
    var s, op := states[n], ops[n];
    StepExpectation(s, op);
    StepHeartbeats(s, op);
    HeartbeatsStep(states, ops, n);
    EvictedStep(states, ops, n);
    if op.OpEvict? {
      CancelAllShrinks(s, InstancesAt(s, op.locs), op.now, op.picks);
      SubsetSize(AllLocs(states[n + 1]), AllLocs(s));
    }
  }

  /** In every state of every run the expectation is twice the live instances
      plus twice those evicted since the last reset, the threshold is 17/20 of
      it, and the heartbeat counts are those of the open and the last closed window. */
  lemma {:induction false} GuardAccounts(states: seq<State>, ops: seq<Op>, n: nat)
    requires RunFromStart(states, ops) && n <= |ops| && forall op | op in ops :: NamesZone(op)
    ensures Accounted(states, ops, n)
  {
    if n == 0 {
      assert AllLocs(states[0]) == {};
    } else {
      GuardAccounts(states, ops, n - 1);
      AccountedStep(states, ops, n - 1);
    }
  }

  // ----- self-preservation -----

  lemma VictimHadExpired(s: State, op: Op, zones: iset<string>, l: Loc)
    requires StructuredIn(s, zones) && WildcardFree(zones) && op.OpEvict? && Enabled(s, op)
    requires Has(s, l) && !Has(Apply(s, op), l)
    ensures Expired(s.gd.Protecting(), op.now, Holder(s, l).value)
  {
    EvictRemovesExactly(s, op.now, op.locs, op.picks, zones);
    assert l in AllLocs(s) - AllLocs(Apply(s, op));
  }

  /** When the last closed window brought too few heartbeats, a pass removes
      only instances that have been silent for more than an hour. */
  lemma ProtectedEvictSparesRecent(states: seq<State>, ops: seq<Op>, zones: iset<string>, n: nat, l: Loc)
    requires RunFromStart(states, ops) && WildcardFree(zones) && n < |ops| && ops[n].OpEvict?
    requires forall op | op in ops :: UsesZones(op, zones)
    requires Has(states[n], l) && !Has(states[n + 1], l)
    ensures
      var expected := 2 * (|AllLocs(states[n])| + EvictedSinceReset(states, ops, n));
      var silent := ops[n].now - Holder(states[n], l).value.renewTs;
      && silent > 90_000_000_000
      && (RenewsInClosedWindow(states, ops, n) < 17 * expected / 20 ==> silent > 3600_000_000_000)
  {
    ZonesNamed(ops, zones);
    RunStructured(states, ops, zones);
    GuardAccounts(states, ops, n);
    VictimSilence(states, ops, zones, n, l);
  }

  lemma ZonesNamed(ops: seq<Op>, zones: iset<string>)
    requires forall op | op in ops :: UsesZones(op, zones)
    ensures forall op | op in ops :: NamesZone(op)
  {}

  lemma VictimSilence(states: seq<State>, ops: seq<Op>, zones: iset<string>, n: nat, l: Loc)
    requires |states| == |ops| + 1 && n < |ops| && Accounted(states, ops, n)
    requires StructuredIn(states[n], zones) && WildcardFree(zones)
    requires ops[n].OpEvict? && Enabled(states[n], ops[n]) && states[n + 1] == Apply(states[n], ops[n])
    requires Has(states[n], l) && !Has(states[n + 1], l)
    ensures
      var expected := 2 * (|AllLocs(states[n])| + EvictedSinceReset(states, ops, n));
      var silent := ops[n].now - Holder(states[n], l).value.renewTs;
      && silent > 90_000_000_000
      && (RenewsInClosedWindow(states, ops, n) < 17 * expected / 20 ==> silent > 3600_000_000_000)
  {
    VictimHadExpired(states[n], ops[n], zones, l);
  }

  ghost function RenewsOver(states: seq<State>, ops: seq<Op>, a: nat, b: nat, q: seq<Loc>): nat
    requires a <= b <= |ops| && |states| == |ops| + 1
  {
    if q == [] then 0
    else RenewsOver(states, ops, a, b, q[..|q| - 1]) + RenewsAt(states, ops, a, b, q[|q| - 1])
  }

  lemma {:induction false} RenewsOverStep(states: seq<State>, ops: seq<Op>, a: nat, b: nat, q: seq<Loc>)
    requires a < b <= |ops| && |states| == |ops| + 1 && Distinct(q)
    ensures
      var r := RenewedLoc(states[b - 1], ops[b - 1]);
      RenewsOver(states, ops, a, b, q)
        == RenewsOver(states, ops, a, b - 1, q) + if r.Some? && r.value in q then 1 else 0
  {
    if q != [] {
      var m := |q| - 1;
      RenewsOverStep(states, ops, a, b, q[..m]);
      assert q == q[..m] + [q[m]];
    }
  }

  lemma {:induction false} RenewsOverBound(states: seq<State>, ops: seq<Op>, a: nat, b: nat, q: seq<Loc>)
    requires a <= b <= |ops| && |states| == |ops| + 1 && Distinct(q)
    ensures RenewsOver(states, ops, a, b, q) <= RenewsIn(states, ops, a, b)
    decreases b
  {
    if a < b {
      RenewsOverBound(states, ops, a, b - 1, q);
      RenewsOverStep(states, ops, a, b, q);
    } else {
      RenewsOverEmpty(states, ops, a, q);
    }
  }

  lemma {:induction false} RenewsOverEmpty(states: seq<State>, ops: seq<Op>, a: nat, q: seq<Loc>)
    requires a <= |ops| && |states| == |ops| + 1
    ensures RenewsOver(states, ops, a, a, q) == 0
  {
    if q != [] {
      RenewsOverEmpty(states, ops, a, q[..|q| - 1]);
    }
  }

  lemma {:induction false} TwiceEachSums(states: seq<State>, ops: seq<Op>, a: nat, b: nat, q: seq<Loc>)
    requires a <= b <= |ops| && |states| == |ops| + 1
    requires forall l | l in q :: RenewsAt(states, ops, a, b, l) >= 2
    ensures RenewsOver(states, ops, a, b, q) >= 2 * |q|
  {
    if q != [] {
      var m := |q| - 1;
      assert q[m] in q;
      TwiceEachSums(states, ops, a, b, q[..m]);
    }
  }

  lemma TwiceEachWindow(states: seq<State>, ops: seq<Op>, a: nat, b: nat, live: set<Loc>)
    requires a <= b <= |ops| && |states| == |ops| + 1
    requires forall l | l in live :: RenewsAt(states, ops, a, b, l) >= 2
    ensures RenewsIn(states, ops, a, b) >= 2 * |live|
  {
    var q := DrawExists(live, |live|);
    TwiceEachSums(states, ops, a, b, q);
    RenewsOverBound(states, ops, a, b, q);
  }

  /** Enough heartbeats for the live instances, and nothing evicted lately. */
  lemma EnoughLiftsProtection(states: seq<State>, ops: seq<Op>, n: nat)
    requires n <= |ops| && |states| == |ops| + 1 && Accounted(states, ops, n)
    requires EvictedSinceReset(states, ops, n) == 0
    requires RenewsInClosedWindow(states, ops, n) >= 2 * |AllLocs(states[n])|
    ensures !states[n].gd.Protecting()
  {}

  /** If every live instance sent two heartbeats in the last closed window
      [a, c) and none was evicted since the last reset, protection is off. */
  lemma TwoHeartbeatsEachLiftProtection(states: seq<State>, ops: seq<Op>, n: nat, a: nat, c: nat)
    requires RunFromStart(states, ops) && n <= |ops| && forall op | op in ops :: NamesZone(op)
    requires EvictedSinceReset(states, ops, n) == 0
    requires LastClose(ops, n) == c && LastClose(ops, c) + 1 == a
    requires forall l | l in AllLocs(states[n]) :: RenewsAt(states, ops, a, c, l) >= 2
    ensures !states[n].gd.Protecting()
  {
    GuardAccounts(states, ops, n);
    WindowHoldsTwice(states, ops, n, a, c);
    EnoughLiftsProtection(states, ops, n);
  }

  lemma WindowHoldsTwice(states: seq<State>, ops: seq<Op>, n: nat, a: nat, c: nat)
    requires n <= |ops| && |states| == |ops| + 1
    requires LastClose(ops, n) == c && LastClose(ops, c) + 1 == a
    requires forall l | l in AllLocs(states[n]) :: RenewsAt(states, ops, a, c, l) >= 2
    ensures RenewsInClosedWindow(states, ops, n) >= 2 * |AllLocs(states[n])|
  {
    TwiceEachWindow(states, ops, a, c, AllLocs(states[n]));
  }
}
