/** What the minute tick removes in the long run: heartbeat windows close, passes run,
    and instances that stay silent disappear. */
module Passes {
  import opened Sequences
  import opened Wrappers

  import opened Keys
  import opened Instances
  import opened GuardModel
  import opened RegistryModel
  import opened Structure
  import opened SetEffect
  import opened Eviction
  import opened GuardAccounting

  /** The instances that had been silent for longer than `age` at time `now0`. */
  ghost function SilentFor(s: State, now0: int, age: int): set<Loc> {
    set l | l in AllLocs(s) && now0 - Holder(s, l).value.renewTs > age
  }

  /** What a pass may take: under protection those silent for an hour, else those
      silent for a minute and a half. */
  lemma ExpiredByProtection(s: State, now: int)
    ensures
      var age := if s.gd.facLastMin < s.gd.expThreshold then 3600_000_000_000 else 90_000_000_000;
      ExpiredLocs(s, now) == SilentFor(s, now, age)
  {}

  // ----- one pass -----

  /** Silent for more than an hour, or for more than 90 seconds while the last closed
      window had the heartbeats that the threshold asks for. */
  predicate Overdue(s: State, now: int, i: Instance) {
    || now - i.renewTs > 3600_000_000_000
    || (now - i.renewTs > 90_000_000_000 && s.gd.facLastMin >= s.gd.expThreshold)
  }

  ghost function AllOverdue(s: State, now: int): set<Loc> {
    set l | l in AllLocs(s) && Overdue(s, now, Holder(s, l).value)
  }

  lemma ExpiredAreOverdue(s: State, now: int)
    ensures ExpiredLocs(s, now) == AllOverdue(s, now)
  {}

  /** The limit of a pass takes somebody as soon as there is anybody. */
  lemma TakenIff(taken: nat, expired: nat, size: nat)
    requires expired <= size && taken == Min(expired, size - 17 * size / 20)
    ensures taken > 0 <==> expired > 0
    ensures taken == if expired < size - 17 * size / 20 then expired else size - 17 * size / 20
  {}

  lemma OverdueIffAny(s: State, now: int)
    ensures |AllOverdue(s, now)| <= |AllLocs(s)|
    ensures |AllOverdue(s, now)| > 0 <==> AnyOverdue(s, now)
  {
    SubsetSize(AllOverdue(s, now), AllLocs(s));
    if AnyOverdue(s, now) {
      var l :| Has(s, l) && Overdue(s, now, Holder(s, l).value);
      assert l in AllOverdue(s, now);
    }
    if AllOverdue(s, now) != {} {
      var l :| l in AllOverdue(s, now);
      assert Has(s, l) && Overdue(s, now, Holder(s, l).value);
    }
  }

  ghost predicate AnyOverdue(s: State, now: int) {
    exists l :: Has(s, l) && Overdue(s, now, Holder(s, l).value)
  }

  /** A pass at `now` that leads from `s` to `s'` has removed something exactly when
      somebody was overdue, only those, and as many as there were up to what 17/20 of
      the size, rounded down, leaves. */
  ghost predicate PassedOver(s: State, now: int, s': State) {
    var size, overdue := |AllLocs(s)|, |AllOverdue(s, now)|;
    var limit := size - 17 * size / 20;
    && (|AllLocs(s')| < size <==> AnyOverdue(s, now))
    && AllLocs(s') <= AllLocs(s) && AllLocs(s) - AllLocs(s') <= AllOverdue(s, now)
    && size - |AllLocs(s')| == if overdue < limit then overdue else limit
  }

  lemma CountedPass(s: State, now: int, s': State)
    requires AllLocs(s') <= AllLocs(s) && AllLocs(s) - AllLocs(s') <= ExpiredLocs(s, now)
    requires |AllLocs(s')| == |AllLocs(s)| - Min(|ExpiredLocs(s, now)|, |AllLocs(s)| - 17 * |AllLocs(s)| / 20)
    ensures PassedOver(s, now, s')
  {
    ExpiredAreOverdue(s, now);
    OverdueIffAny(s, now);
    TakenIff(|AllLocs(s)| - |AllLocs(s')|, |AllOverdue(s, now)|, |AllLocs(s)|);
  }

  lemma PassRemovesIff(s: State, now: int, locs: seq<Loc>, picks: seq<string>, zones: iset<string>)
    requires StructuredIn(s, zones) && WildcardFree(zones)
    requires EvictChoice(s, now, locs) && |picks| == |locs|
    ensures PassedOver(s, now, Evict(s, now, locs, picks))
  {
    EvictRemovesExactly(s, now, locs, picks, zones);
    CountedPass(s, now, Evict(s, now, locs, picks));
  }

  /** Overdue by the history of a run: the heartbeats of the closed window against those
      who live and those who were evicted since the expectation was reset. */
  ghost predicate OverdueByHistory(states: seq<State>, ops: seq<Op>, n: nat, l: Loc)
    requires |states| == |ops| + 1 && n < |ops| && ops[n].OpEvict? && Has(states[n], l)
  {
    var silent := ops[n].now - Holder(states[n], l).value.renewTs;
    var expected := 2 * (|AllLocs(states[n])| + EvictedSinceReset(states, ops, n));
    || silent > 3600_000_000_000
    || (silent > 90_000_000_000 && RenewsInClosedWindow(states, ops, n) >= 17 * expected / 20)
  }

  lemma OverdueHistory(states: seq<State>, ops: seq<Op>, n: nat, l: Loc)
    requires |states| == |ops| + 1 && n < |ops| && ops[n].OpEvict? && Has(states[n], l) && Accounted(states, ops, n)
    ensures Overdue(states[n], ops[n].now, Holder(states[n], l).value) <==> OverdueByHistory(states, ops, n, l)
  {}

  ghost predicate AnyOverdueByHistory(states: seq<State>, ops: seq<Op>, n: nat)
    requires |states| == |ops| + 1 && n < |ops| && ops[n].OpEvict?
  {
    exists l :: Has(states[n], l) && OverdueByHistory(states, ops, n, l)
  }

  lemma AnyOverdueHistory(states: seq<State>, ops: seq<Op>, n: nat)
    requires |states| == |ops| + 1 && n < |ops| && ops[n].OpEvict? && Accounted(states, ops, n)
    ensures AnyOverdue(states[n], ops[n].now) <==> AnyOverdueByHistory(states, ops, n)
  {
    forall l | Has(states[n], l)
      ensures Overdue(states[n], ops[n].now, Holder(states[n], l).value) <==> OverdueByHistory(states, ops, n, l)
    {
      OverdueHistory(states, ops, n, l);
    }
  }

  /** In every run: a pass removes something exactly when somebody is overdue by history. */
  lemma PassInRunRemovesIff(states: seq<State>, ops: seq<Op>, zones: iset<string>, n: nat)
    requires RunFromStart(states, ops) && WildcardFree(zones) && n < |ops| && ops[n].OpEvict?
    requires forall op | op in ops :: UsesZones(op, zones)
    ensures |AllLocs(states[n + 1])| < |AllLocs(states[n])| <==> AnyOverdueByHistory(states, ops, n)
  {
    ZonesNamed(ops, zones);
    RunStructured(states, ops, zones);
    GuardAccounts(states, ops, n);
    var op := ops[n];
    assert Enabled(states[n], op) && states[n + 1] == Apply(states[n], op);
    PassRemovesIff(states[n], op.now, op.locs, op.picks, zones);
    AnyOverdueHistory(states, ops, n);
  }

  // ----- one tick -----

  /** The minute tick closes the heartbeat window and evicts at once. What it removes
      is decided by the window that it closes. */
  lemma TickRemovesIff(s: State, now: int, locs: seq<Loc>, picks: seq<string>, zones: iset<string>)
    requires StructuredIn(s, zones) && WildcardFree(zones)
    requires EvictChoice(CloseWindow(s), now, locs) && |picks| == |locs|
    ensures
      var s' := Evict(CloseWindow(s), now, locs, picks);
      var age := if s.gd.facInMin < s.gd.expThreshold then 3600_000_000_000 else 90_000_000_000;
      && AllLocs(s') <= AllLocs(s) && AllLocs(s) - AllLocs(s') <= SilentFor(s, now, age)
      && (|AllLocs(s')| < |AllLocs(s)| <==> SilentFor(s, now, age) != {})
  {
    var t := CloseWindow(s);
    SameAppmLocs(s, t);
    assert StructuredIn(t, zones);
    assert forall l | Has(s, l) :: Holder(t, l) == Holder(s, l);
    ExpiredByProtection(t, now);
    EvictRemovesExactly(t, now, locs, picks, zones);
    EvictMakesProgress(t, now, locs, picks, zones);
  }

  // ----- steps without arrivals and heartbeats -----

  /** No registration and no heartbeat; passes not before `now0`. */
  predicate Quieting(op: Op, now0: int) {
    !op.OpRegister? && !op.OpRenew? && (op.OpEvict? ==> op.now >= now0)
  }

  /** Nothing arrived and no heartbeat was recorded. */
  ghost predicate Aged(s: State, s': State) {
    && AllLocs(s') <= AllLocs(s)
    && forall l | Has(s', l) :: Holder(s', l).value.renewTs == Holder(s, l).value.renewTs
  }

  lemma SetAged(s: State, arg: ArgSet, decode: Decoder, pick: string)
    requires arg.Valid()
    ensures Aged(s, Set(s, arg, decode, pick).0)
  {
    var key := AppsKey(arg.appid, arg.env);
    var z := First(AppsAt(s, key), arg.zone, pick);
    SetLocs(s, arg, decode, pick);
    if z.Some? {
      SetAppm(s, arg, decode, pick, z.value);
      SetHosts(s.appm[key].apps[z.value], arg, decode);
    }
  }

  lemma CancelAged(s: State, zone: string, env: string, appid: string, hostname: string, lts: int, pick: string)
    requires zone != ""
    ensures Aged(s, Cancel(s, zone, env, appid, hostname, lts, pick).0)
  {
    var s1 := CancelAt(s, zone, env, appid, hostname, lts, pick).0;
    CancelLocs(s, zone, env, appid, hostname, lts, pick);
    SameAppmLocs(s1, Cancel(s, zone, env, appid, hostname, lts, pick).0);
    forall l | Has(s1, l) ensures Holder(s1, l) == Holder(s, l) {
      CancelHolder(s, zone, env, appid, hostname, lts, pick, l);
    }
  }

  lemma ReloadAged(s: State, env: string, appid: string, clients: Clients)
    ensures Aged(s, Reload(s, env, appid, clients))
  {
    ReloadLocs(s, env, appid, clients);
  }

  lemma StepAged(s: State, op: Op, now0: int, zones: iset<string>)
    requires StructuredIn(s, zones) && WildcardFree(zones) && Enabled(s, op) && UsesZones(op, zones)
      && Quieting(op, now0)
    ensures Aged(s, Apply(s, op))
  {
    if op.OpCancel? {
      CancelAged(s, op.zone, op.env, op.appid, op.hostname, op.lts, op.pick);
    } else if op.OpSet? {
      SetAged(s, op.arg, op.decode, op.pick);
    } else if op.OpEvict? {
      EvictRemoves(s, op.now, op.locs, op.picks, zones);
    } else if op.OpReload? {
      ReloadAged(s, op.env, op.appid, op.clients);
    } else {
      SameAppmLocs(s, Apply(s, op));
    }
  }

  lemma AgedShrinks(s: State, s': State, now0: int, age: int)
    requires Aged(s, s')
    ensures SilentFor(s', now0, age) <= SilentFor(s, now0, age)
  {}

  // ----- runs -----

  /** Whether a pass takes everyone who has been silent for `age`. */
  ghost predicate Takes(s: State, op: Op, age: int) {
    op.OpEvict? && (age >= 3600_000_000_000 || (age >= 90_000_000_000 && !s.gd.Protecting()))
  }

  /** How many of the steps are such passes. */
  ghost function PassCount(states: seq<State>, ops: seq<Op>, age: int): nat
    requires |states| == |ops| + 1
  {
    if ops == [] then 0
    else
      var n := |ops| - 1;
      PassCount(states[..n + 1], ops[..n], age) + if Takes(states[n], ops[n], age) then 1 else 0
  }

  lemma PassShrinks(s: State, op: Op, now0: int, age: int, zones: iset<string>)
    requires StructuredIn(s, zones) && WildcardFree(zones) && Enabled(s, op) && Takes(s, op, age) && op.now >= now0
    requires SilentFor(s, now0, age) != {}
    ensures |AllLocs(Apply(s, op))| < |AllLocs(s)|
  {
    var l :| l in SilentFor(s, now0, age);
    assert l in ExpiredLocs(s, op.now);
    EvictMakesProgress(s, op.now, op.locs, op.picks, zones);
  }

  lemma {:induction false} PassesCount(states: seq<State>, ops: seq<Op>, now0: int, age: int, zones: iset<string>)
    requires Run(states, ops) && StructuredIn(states[0], zones) && WildcardFree(zones)
    requires forall op | op in ops :: UsesZones(op, zones) && Quieting(op, now0)
    ensures StructuredIn(states[|ops|], zones)
    ensures |AllLocs(states[|ops|])| + PassCount(states, ops, age) <= |AllLocs(states[0])|
         || SilentFor(states[|ops|], now0, age) == {}
    decreases |ops|
  {
    if ops != [] {
      var n := |ops| - 1;
      var s, op := states[n], ops[n];
      assert op in ops && states[..n + 1][n] == s && Apply(s, op) == states[n + 1];
      PassesCount(states[..n + 1], ops[..n], now0, age, zones);
      StepStructured(s, op, zones);
      StepAged(s, op, now0, zones);
      AgedShrinks(s, states[n + 1], now0, age);
      SubsetSize(AllLocs(states[n + 1]), AllLocs(s));
      if Takes(s, op, age) && SilentFor(s, now0, age) != {} {
        PassShrinks(s, op, now0, age, zones);
      }
    }
  }

  /** In any run without registrations and heartbeats, with windows closing, cancels,
      sets and all else in between, as many passes as there are instances leave nobody
      who had been silent for an hour when they began, whatever was drawn. */
  lemma PassesRemoveAllSilent(states: seq<State>, ops: seq<Op>, now0: int, zones: iset<string>)
    requires Run(states, ops) && StructuredIn(states[0], zones) && WildcardFree(zones)
    requires forall op | op in ops :: UsesZones(op, zones) && Quieting(op, now0)
    requires PassCount(states, ops, 3600_000_000_000) >= |AllLocs(states[0])|
    ensures SilentFor(states[|ops|], now0, 3600_000_000_000) == {}
  {
    EnoughPasses(states, ops, now0, 3600_000_000_000, zones);
  }

  /** And as many passes that ran unprotected leave nobody who had been silent for a
      minute and a half. */
  lemma UnprotectedPassesRemoveAllExpired(states: seq<State>, ops: seq<Op>, now0: int, zones: iset<string>)
    requires Run(states, ops) && StructuredIn(states[0], zones) && WildcardFree(zones)
    requires forall op | op in ops :: UsesZones(op, zones) && Quieting(op, now0)
    requires PassCount(states, ops, 90_000_000_000) >= |AllLocs(states[0])|
    ensures SilentFor(states[|ops|], now0, 90_000_000_000) == {}
  {
    EnoughPasses(states, ops, now0, 90_000_000_000, zones);
  }

  lemma EnoughPasses(states: seq<State>, ops: seq<Op>, now0: int, age: int, zones: iset<string>)
    requires Run(states, ops) && StructuredIn(states[0], zones) && WildcardFree(zones)
    requires forall op | op in ops :: UsesZones(op, zones) && Quieting(op, now0)
    requires PassCount(states, ops, age) >= |AllLocs(states[0])|
    ensures SilentFor(states[|ops|], now0, age) == {}
  {
    PassesCount(states, ops, now0, age, zones);
    var last := states[|ops|];
    if |AllLocs(last)| == 0 {
      assert SilentFor(last, now0, age) <= AllLocs(last);
    }
  }

  /** An instance silent for less than an hour goes in a pass only if that pass runs
      unprotected: the last closed window had at least the threshold of heartbeats. */
  lemma RecentGoesOnlyUnprotected(s: State, op: Op, zones: iset<string>, l: Loc)
    requires StructuredIn(s, zones) && WildcardFree(zones) && op.OpEvict? && Enabled(s, op)
    requires Has(s, l) && op.now - Holder(s, l).value.renewTs <= 3600_000_000_000
    ensures !Has(Apply(s, op), l) ==>
      s.gd.facLastMin >= s.gd.expThreshold && op.now - Holder(s, l).value.renewTs > 90_000_000_000
  {
    if !Has(Apply(s, op), l) {
      VictimHadExpired(s, op, zones, l);
    }
  }
}
