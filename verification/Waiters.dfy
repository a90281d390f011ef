/** The reference counts of parked connections, read off the history of a run. */
module Waiters {
  import opened Sequences
  import opened Wrappers

  import opened Keys
  import opened Instances
  import opened RegistryModel
  import opened Structure

  /** How many requests of `host` the registry believes to be waiting under `k`. */
  function Count(conns: map<string, Hosts>, k: string, host: string): nat {
    if k in conns && host in conns[k] then conns[k][host].count else 0
  }

  /** A stored connection always stands for at least one request. */
  ghost predicate Positive(conns: map<string, Hosts>) {
    forall k, h | k in conns && h in conns[k] :: conns[k][h].count >= 1
  }

  /** How many of the first `n` applications of a poll are parked under `k`. */
  function Listed(arg: ArgPolls, k: string, n: nat): nat
    requires n <= |arg.appids|
  {
    if n == 0 then 0
    else Listed(arg, k, n - 1) + if PollKey(arg.appids[n - 1], arg.env) == k then 1 else 0
  }

  /** ... for the requests of `host`. */
  function Parked(arg: ArgPolls, k: string, host: string, n: nat): nat
    requires n <= |arg.appids|
  {
    if arg.hostname == host then Listed(arg, k, n) else 0
  }

  /** The keys that the cancels of a pass broadcast to: those of the victims found. */
  ghost function CancelledKeys(s: State, victims: seq<Instance>, now: int, picks: seq<string>): set<string>
    requires |picks| == |victims|
    decreases |victims|
  {
    if victims == [] then {}
    else
      var n := |victims| - 1;
      var v := victims[n];
      var before := CancelAll(s, victims[..n], now, picks[..n]);
      CancelledKeys(s, victims[..n], now, picks[..n])
        + if CancelAt(before, v.zone, v.env, v.appid, v.hostname, now, picks[n]).1.Some?
          then {PollKey(v.appid, v.env)} else {}
  }

  /** The application that a single-broadcast step announces, if it does. */
  ghost function Announced(s: State, op: Op): Option<Name>
    requires Enabled(s, op)
  {
    match op
    case OpRegister(ins, _) => var i := Merge(Holder(s, LocOf(ins)), ins); Some(Name(i.appid, i.env))
    case OpCancel(zone, env, appid, hostname, lts, pick) =>
      if Cancel(s, zone, env, appid, hostname, lts, pick).1.Some? then Some(Name(appid, env)) else None
    case OpSet(arg, decode, pick) => if Set(s, arg, decode, pick).1 then Some(Name(arg.appid, arg.env)) else None
    case OpReload(env, appid, _) => Some(Name(appid, env))
    case _ => None
  }

  /** The keys a step broadcasts to: that of the application announced, or of a pass's victims. */
  ghost predicate Broadcasts(s: State, op: Op, k: string)
    requires Enabled(s, op)
  {
    if op.OpEvict? then k in CancelledKeys(s, InstancesAt(s, op.locs), op.now, op.picks)
    else
      var name := Announced(s, op);
      name.Some? && k == PollKey(name.value.appid, name.value.env)
  }

  /** The waiting requests of `host` under `k` by the history alone: a poll that
      is not answered adds one per listed application, giving up a poll takes one
      away per listed application while there are any, a broadcast clears them. */
  ghost function Waiting(states: seq<State>, ops: seq<Op>, n: nat, k: string, host: string): nat
    requires Run(states, ops) && n <= |ops|
  {
    if n == 0 then 0
    else
      var before := Waiting(states, ops, n - 1, k, host);
      var s, op := states[n - 1], ops[n - 1];
      if Broadcasts(s, op, k) then 0
      else if op.OpPolls? && op.poll.hostname == host && !Notifies(s, Normalized(op.poll)) then
        before + Listed(op.poll, k, |op.poll.appids|)
      else if op.OpDelConns? && op.poll.hostname == host then
        var gone := Listed(op.poll, k, |op.poll.appids|);
        if before > gone then before - gone else 0
      else before
  }

  // ----- parking and giving up -----

  lemma {:induction false} ParkPositive(p: Parking, arg: ArgPolls, n: nat)
    requires n <= |arg.appids| == |arg.latestTs| && Positive(p.conns)
    ensures Positive(ParkUpTo(p, arg, n).conns)
  {
    if n > 0 {
      ParkPositive(p, arg, n - 1);
    }
  }

  lemma ParkOneCount(p: Parking, arg: ArgPolls, i: nat, k: string, host: string)
    requires i < |arg.appids| == |arg.latestTs|
    ensures Count(ParkOne(p, arg, i).conns, k, host) + Parked(arg, k, host, i)
      == Count(p.conns, k, host) + Parked(arg, k, host, i + 1)
  {}

  lemma {:induction false} ParkCounts(p: Parking, arg: ArgPolls, n: nat, k: string, host: string)
    requires n <= |arg.appids| == |arg.latestTs|
    ensures Count(ParkUpTo(p, arg, n).conns, k, host) == Count(p.conns, k, host) + Parked(arg, k, host, n)
  {
    if n > 0 {
      ParkCounts(p, arg, n - 1, k, host);
      ParkOneCount(ParkUpTo(p, arg, n - 1), arg, n - 1, k, host);
    }
  }

  lemma DelOneCount(conns: map<string, Hosts>, arg: ArgPolls, i: nat, k: string, host: string)
    requires i < |arg.appids| && Positive(conns)
    ensures Positive(DelOne(conns, arg, i))
    ensures Count(DelOne(conns, arg, i), k, host) ==
      if arg.hostname == host && PollKey(arg.appids[i], arg.env) == k && Count(conns, k, host) > 0
      then Count(conns, k, host) - 1 else Count(conns, k, host)
  {}

  lemma {:induction false} DelCounts(conns: map<string, Hosts>, arg: ArgPolls, n: nat, k: string, host: string)
    requires n <= |arg.appids| && Positive(conns)
    ensures Positive(DelUpTo(conns, arg, n))
    ensures
      var gone := if arg.hostname == host then Listed(arg, k, n) else 0;
      var c := Count(conns, k, host);
      Count(DelUpTo(conns, arg, n), k, host) == if c > gone then c - gone else 0
  {
    if n > 0 {
      DelCounts(conns, arg, n - 1, k, host);
      DelOneCount(DelUpTo(conns, arg, n - 1), arg, n - 1, k, host);
    }
  }

  lemma ListedNormalized(arg: ArgPolls, k: string, n: nat)
    requires n <= |arg.appids|
    ensures Listed(Normalized(arg), k, n) == Listed(arg, k, n)
  {}

  // ----- broadcasts -----

  /** A pass clears the poll keys of the victims that its cancels found. */
  lemma {:induction false} CancelAllConns(s: State, victims: seq<Instance>, now: int, picks: seq<string>)
    requires |picks| == |victims|
    ensures CancelAll(s, victims, now, picks).conns == s.conns - CancelledKeys(s, victims, now, picks)
    decreases |victims|
  {
    if victims != [] {
      var n := |victims| - 1;
      var v := victims[n];
      CancelAllConns(s, victims[..n], now, picks[..n]);
      MinusTwice(s.conns, CancelledKeys(s, victims[..n], now, picks[..n]), {PollKey(v.appid, v.env)});
    }
  }

  lemma MinusTwice(conns: map<string, Hosts>, a: set<string>, b: set<string>)
    ensures (conns - a) - b == conns - (a + b)
  {}

  lemma EvictConns(s: State, op: Op, k: string, host: string)
    requires op.OpEvict? && Enabled(s, op) && Positive(s.conns)
    ensures Positive(Apply(s, op).conns)
    ensures Count(Apply(s, op).conns, k, host) == if Broadcasts(s, op, k) then 0 else Count(s.conns, k, host)
  {
    CancelAllConns(s, InstancesAt(s, op.locs), op.now, op.picks);
  }

  ghost function PollKeys(victims: seq<Instance>): set<string> {
    set v | v in victims :: PollKey(v.appid, v.env)
  }

  lemma PollKeysSnoc(victims: seq<Instance>)
    requires victims != []
    ensures
      var n := |victims| - 1;
      PollKeys(victims) == PollKeys(victims[..n]) + {PollKey(victims[n].appid, victims[n].env)}
  {
    assert victims == victims[..|victims| - 1] + [victims[|victims| - 1]];
  }

  lemma CancelOwnFinds(s: State, l: Loc, i: Instance, now: int, pick: string, zones: iset<string>)
    requires StructuredIn(s, zones) && WildcardFree(zones) && Has(s, l) && LocOf(i) == l
    ensures CancelAt(s, i.zone, i.env, i.appid, i.hostname, now, pick).1.Some?
  {
    assert PlacedApps(l.key, s.appm[l.key], zones);
    OwnZoneIsFirst(s.appm[l.key], l.key, l.zone, zones, pick);
  }

  /** Where the structure holds, every victim is found, so all their keys are cleared. */
  lemma {:induction false} EveryVictimBroadcasts(s: State, locs: seq<Loc>, victims: seq<Instance>, now: int,
                                                 picks: seq<string>, zones: iset<string>)
    requires StructuredIn(s, zones) && WildcardFree(zones)
    requires Distinct(locs) && forall l :: l in locs ==> Has(s, l)
    requires |picks| == |locs| == |victims| && forall j :: 0 <= j < |locs| ==> LocOf(victims[j]) == locs[j]
    ensures CancelledKeys(s, victims, now, picks) == PollKeys(victims)
    decreases |locs|
  {
    if locs != [] {
      var n := |locs| - 1;
      EveryVictimBroadcasts(s, locs[..n], victims[..n], now, picks[..n], zones);
      CancelAllRemoves(s, locs[..n], victims[..n], now, picks[..n], zones);
      assert locs[n] in locs && locs[n] !in locs[..n];
      CancelOwnFinds(CancelAll(s, victims[..n], now, picks[..n]), locs[n], victims[n], now, picks[n], zones);
      PollKeysSnoc(victims);
    }
  }

  lemma BroadcastCount(s: State, op: Op, k: string, host: string)
    requires Enabled(s, op) && !op.OpPolls? && !op.OpDelConns? && !op.OpEvict? && Positive(s.conns)
    ensures Positive(Apply(s, op).conns)
    ensures Count(Apply(s, op).conns, k, host) == if Broadcasts(s, op, k) then 0 else Count(s.conns, k, host)
  {
    ConnsAfter(s, op, k);
  }

  lemma ConnsAfter(s: State, op: Op, k: string)
    requires Enabled(s, op) && !op.OpPolls? && !op.OpDelConns? && !op.OpEvict?
    ensures
      var conns := Apply(s, op).conns;
      && (k in conns <==> k in s.conns && !Broadcasts(s, op, k))
      && forall k' | k' in conns :: k' in s.conns && conns[k'] == s.conns[k']
  {}

  lemma PollsCount(s: State, poll: ArgPolls, k: string, host: string)
    requires Positive(s.conns)
    ensures Positive(Polls(s, poll).conns)
    ensures Count(Polls(s, poll).conns, k, host) ==
      Count(s.conns, k, host) +
      if poll.hostname == host && !Notifies(s, Normalized(poll)) then Listed(poll, k, |poll.appids|) else 0
  {
    var arg := Normalized(poll);
    ParkPositive(Parking(s.conns, None, s.nextCh), arg, |arg.appids|);
    ParkCounts(Parking(s.conns, None, s.nextCh), arg, |arg.appids|, k, host);
    ListedNormalized(poll, k, |poll.appids|);
  }

  /** In every state of every run each stored count is at least one and equals
      the number of waiting requests, which is zero where nothing is stored. */
  lemma {:induction false} CountsAreWaiters(states: seq<State>, ops: seq<Op>, n: nat, k: string, host: string)
    requires RunFromStart(states, ops) && n <= |ops|
    ensures Positive(states[n].conns)
    ensures Count(states[n].conns, k, host) == Waiting(states, ops, n, k, host)
    ensures k in states[n].conns && host in states[n].conns[k] <==> Waiting(states, ops, n, k, host) > 0
  {
    if n > 0 {
      CountsAreWaiters(states, ops, n - 1, k, host);
      var s, op := states[n - 1], ops[n - 1];
      if op.OpPolls? {
        PollsCount(s, op.poll, k, host);
      } else if op.OpDelConns? {
        DelCounts(s.conns, op.poll, |op.poll.appids|, k, host);
      } else if op.OpEvict? {
        EvictConns(s, op, k, host);
      } else {
        BroadcastCount(s, op, k, host);
      }
    }
  }

  // ----- what a broadcast offers -----

  /** One parked connection's share of a broadcast: how often its channel is offered the view. */
  datatype Offer = Offer(ch: nat, times: nat, info: Info)

  /** The offers of a broadcast for (env, appid), made in state `s`: each parked
      connection whose zone has data gets its full count, nobody else gets any. */
  ghost predicate OffersOf(s: State, env: string, appid: string, offers: map<string, Offer>) {
    var hosts := HostsAt(s.conns, PollKey(appid, env));
    && (forall h :: h in offers <==> h in hosts && Finds(s, hosts[h].arg.zone, env, appid, 0))
    && (forall h | h in offers :: OfferTo(s, env, appid, hosts[h], offers[h]))
  }

  /** The full count of one connection, with a current view of its zone. */
  ghost predicate OfferTo(s: State, env: string, appid: string, c: Conn, offer: Offer) {
    && offer.ch == c.ch && offer.times == c.count
    && exists pick :: Fetch(s, c.arg.zone, env, appid, 0, STATUS_UP, pick) == Found(offer.info)
  }
}
