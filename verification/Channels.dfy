/** Which channel a long poll waits on: the one it is given is the one its connection is
    stored with, it is not anybody else's, and the next broadcast sends on it. */
module Channels {
  import opened Wrappers

  import opened Instances
  import opened Keys
  import opened RegistryModel
  import opened Structure
  import opened Polling
  import opened PollAnswers
  import opened Waiters
  import opened Answers

  function ConnAt(conns: map<string, Hosts>, k: string, h: string): Option<Conn> {
    if k in conns && h in conns[k] then Some(conns[k][h]) else None
  }

  /** The first of the first `n` applications of a poll that is parked under `k`. */
  function FirstListing(arg: ArgPolls, k: string, n: nat): (i: nat)
    requires n <= |arg.appids| && Listed(arg, k, n) > 0
    ensures i < n && PollKey(arg.appids[i], arg.env) == k
    ensures forall j :: 0 <= j < i ==> PollKey(arg.appids[j], arg.env) != k
  {
    if Listed(arg, k, n - 1) > 0 then FirstListing(arg, k, n - 1)
    else
      NotListed(arg, k, n - 1);
      n - 1
  }

  lemma {:induction false} NotListed(arg: ArgPolls, k: string, n: nat)
    requires n <= |arg.appids| && Listed(arg, k, n) == 0
    ensures forall j :: 0 <= j < n ==> PollKey(arg.appids[j], arg.env) != k
  {
    if n > 0 {
      NotListed(arg, k, n - 1);
    }
  }

  // ----- one poll -----

  /** The channel of a poll that parks: that of the connection its host already has for the
      first application, or else a new one. */
  function ChannelFor(conns: map<string, Hosts>, nextCh: nat, arg: ArgPolls): nat
    requires |arg.appids| > 0
  {
    var c := ConnAt(conns, PollKey(arg.appids[0], arg.env), arg.hostname);
    if c.Some? then c.value.ch else nextCh
  }

  /** The connection under one key after a poll that waits on `ch` was parked for its first
      `n` applications. */
  function ParkedAt(conns: map<string, Hosts>, arg: ArgPolls, ch: nat, n: nat, k: string, h: string): Option<Conn>
    requires n <= |arg.appids| == |arg.latestTs|
  {
    var c := ConnAt(conns, k, h);
    if h != arg.hostname || Listed(arg, k, n) == 0 then c
    else if c.Some? then Some(c.value.(count := c.value.count + Listed(arg, k, n)))
    else Some(Conn(ch, arg, arg.latestTs[FirstListing(arg, k, n)], Listed(arg, k, n)))
  }

  lemma ParkOneAt(p: Parking, arg: ArgPolls, i: nat, k: string, h: string)
    requires i < |arg.appids| == |arg.latestTs|
    ensures
      var k0, c, r := PollKey(arg.appids[i], arg.env), ConnAt(p.conns, k, h), ParkOne(p, arg, i);
      if k != k0 || h != arg.hostname then ConnAt(r.conns, k, h) == c
      else if c.Some? then ConnAt(r.conns, k, h) == Some(c.value.(count := c.value.count + 1))
      else r.ch.Some? && ConnAt(r.conns, k, h) == Some(Conn(r.ch.value, arg, arg.latestTs[i], 1))
  {}

  lemma ParkOneChannel(p: Parking, arg: ArgPolls, i: nat)
    requires i < |arg.appids| == |arg.latestTs|
    ensures
      var own, r := ConnAt(p.conns, PollKey(arg.appids[i], arg.env), arg.hostname), ParkOne(p, arg, i);
      if p.ch.Some? then r.ch == p.ch && r.nextCh == p.nextCh
      else if own.Some? then r.ch == Some(own.value.ch) && r.nextCh == p.nextCh
      else r.ch == Some(p.nextCh) && r.nextCh == p.nextCh + 1
  {}

  /** The channel that parking gives, and whether it is a new one. */
  lemma {:induction false} ParkUpToChannel(conns: map<string, Hosts>, nextCh: nat, arg: ArgPolls, n: nat)
    requires 0 < n <= |arg.appids| == |arg.latestTs|
    ensures
      var own := ConnAt(conns, PollKey(arg.appids[0], arg.env), arg.hostname);
      var p := ParkUpTo(Parking(conns, None, nextCh), arg, n);
      && p.ch == Some(ChannelFor(conns, nextCh, arg))
      && p.nextCh == if own.Some? then nextCh else nextCh + 1
  {
    ParkOneChannel(ParkUpTo(Parking(conns, None, nextCh), arg, n - 1), arg, n - 1);
    if n > 1 {
      ParkUpToChannel(conns, nextCh, arg, n - 1);
    }
  }

  /** Every connection that parking leaves behind. */
  lemma {:induction false} ParkUpToAt(conns: map<string, Hosts>, nextCh: nat, arg: ArgPolls, n: nat, k: string,
                                      h: string)
    requires 0 < n <= |arg.appids| == |arg.latestTs|
    ensures ConnAt(ParkUpTo(Parking(conns, None, nextCh), arg, n).conns, k, h)
         == ParkedAt(conns, arg, ChannelFor(conns, nextCh, arg), n, k, h)
  {
    ParkOneAt(ParkUpTo(Parking(conns, None, nextCh), arg, n - 1), arg, n - 1, k, h);
    ParkUpToChannel(conns, nextCh, arg, n);
    if n > 1 {
      ParkUpToAt(conns, nextCh, arg, n - 1, k, h);
    }
  }

  /** A poll that is not answered at once is given the channel that its connection is
      stored with, and every other connection it makes or joins is as it says here. */
  lemma PolledChannelIsStored(s: State, arg: ArgPolls, k: string, h: string)
    requires |arg.appids| == |arg.latestTs| > 0 && !Notifies(s, arg)
    ensures
      var first, ch := PollKey(arg.appids[0], arg.env), PolledChannel(s, arg);
      var conns := Polls(s, arg).conns;
      && ch == Some(ChannelFor(s.conns, s.nextCh, arg))
      && ConnAt(conns, first, arg.hostname).Some? && ConnAt(conns, first, arg.hostname).value.ch == ch.value
      && ConnAt(conns, k, h) == ParkedAt(s.conns, arg, ch.value, |arg.appids|, k, h)
  {
    var first := PollKey(arg.appids[0], arg.env);
    ParkUpToChannel(s.conns, s.nextCh, arg, |arg.appids|);
    ParkUpToAt(s.conns, s.nextCh, arg, |arg.appids|, k, h);
    ParkUpToAt(s.conns, s.nextCh, arg, |arg.appids|, first, arg.hostname);
    ListedFirst(arg, |arg.appids|);
  }

  lemma {:induction false} ListedFirst(arg: ArgPolls, n: nat)
    requires 0 < n <= |arg.appids|
    ensures Listed(arg, PollKey(arg.appids[0], arg.env), n) > 0
  {
    if n > 1 {
      ListedFirst(arg, n - 1);
    }
  }

  /** Timestamps that do not match the applications count as zero: such a poll is answered
      at once exactly when some application has anything stored in the zone. */
  lemma MismatchCountsAsZero(s: State, poll: ArgPolls)
    requires |poll.appids| != |poll.latestTs|
    ensures Notifies(s, Normalized(poll)) <==>
      exists i :: 0 <= i < |poll.appids| && Finds(s, poll.zone, poll.env, poll.appids[i], 0)
  {
    var arg := Normalized(poll);
    forall i | 0 <= i < |poll.appids|
      ensures PollFinds(s, arg, i) <==> Finds(s, poll.zone, poll.env, poll.appids[i], 0)
    {}
  }

  // ----- every run -----

  /** Channels in use have been handed out, and hosts do not share any. */
  ghost predicate Apart(conns: map<string, Hosts>, nextCh: nat) {
    && (forall k, h | k in conns && h in conns[k] :: conns[k][h].ch < nextCh)
    && (forall k, h, k', h' | k in conns && h in conns[k] && k' in conns && h' in conns[k'] && h != h' ::
      conns[k][h].ch != conns[k'][h'].ch)
  }

  /** What a step other than a poll leaves of a connection. */
  ghost predicate Lessened(before: Option<Conn>, after: Option<Conn>) {
    after.Some? ==> before.Some? && after.value == before.value.(count := after.value.count)
  }

  lemma {:induction false} DelUpToAt(conns: map<string, Hosts>, arg: ArgPolls, n: nat, k: string, h: string)
    requires n <= |arg.appids|
    ensures Lessened(ConnAt(conns, k, h), ConnAt(DelUpTo(conns, arg, n), k, h))
    ensures h != arg.hostname || Listed(arg, k, n) == 0 ==> ConnAt(DelUpTo(conns, arg, n), k, h) == ConnAt(conns, k, h)
  {
    if n > 0 {
      DelUpToAt(conns, arg, n - 1, k, h);
    }
  }

  /** A step that is not a poll takes connections away, under the keys it broadcasts to or
      when their host gives up; what stays keeps its channel, and no channel is handed out. */
  lemma QuietStepAt(s: State, op: Op, k: string, h: string)
    requires Enabled(s, op) && !op.OpPolls?
    ensures Apply(s, op).nextCh == s.nextCh
    ensures Lessened(ConnAt(s.conns, k, h), ConnAt(Apply(s, op).conns, k, h))
    ensures !Broadcasts(s, op, k) && !GivesUp(op, k, h) ==>
      ConnAt(Apply(s, op).conns, k, h) == ConnAt(s.conns, k, h)
  {
    if op.OpDelConns? {
      DelUpToAt(s.conns, op.poll, |op.poll.appids|, k, h);
    } else if op.OpEvict? {
      CancelAllConns(s, InstancesAt(s, op.locs), op.now, op.picks);
      CancelAllNextCh(s, InstancesAt(s, op.locs), op.now, op.picks);
    } else {
      ConnsAfter(s, op, k);
    }
  }

  lemma {:induction false} CancelAllNextCh(s: State, victims: seq<Instance>, now: int, picks: seq<string>)
    requires |picks| == |victims|
    ensures CancelAll(s, victims, now, picks).nextCh == s.nextCh
    decreases |victims|
  {
    if victims != [] {
      CancelAllNextCh(s, victims[..|victims| - 1], now, picks[..|victims| - 1]);
    }
  }

  /** `h` gives up a poll that lists `k`. */
  predicate GivesUp(op: Op, k: string, h: string) {
    op.OpDelConns? && op.poll.hostname == h && Listed(op.poll, k, |op.poll.appids|) > 0
  }

  lemma QuietStepApart(s: State, op: Op)
    requires Enabled(s, op) && !op.OpPolls? && Apart(s.conns, s.nextCh)
    ensures Apart(Apply(s, op).conns, Apply(s, op).nextCh)
  {
    var conns: map<string, Hosts> := Apply(s, op).conns;
    forall k, h | k in conns && h in conns[k]
      ensures k in s.conns && h in s.conns[k] && conns[k][h].ch == s.conns[k][h].ch && Apply(s, op).nextCh == s.nextCh
    {
      QuietStepAt(s, op, k, h);
    }
  }

  lemma PollStepApart(s: State, poll: ArgPolls)
    requires Apart(s.conns, s.nextCh)
    ensures Apart(Polls(s, poll).conns, Polls(s, poll).nextCh) && Polls(s, poll).nextCh >= s.nextCh
  {
    var arg := Normalized(poll);
    if !Notifies(s, arg) && |arg.appids| > 0 {
      var conns: map<string, Hosts>, next := Polls(s, poll).conns, Polls(s, poll).nextCh;
      var ch := ChannelFor(s.conns, s.nextCh, arg);
      ParkUpToChannel(s.conns, s.nextCh, arg, |arg.appids|);
      forall k, h | k in conns && h in conns[k]
        ensures conns[k][h].ch < next
        ensures if k in s.conns && h in s.conns[k] then conns[k][h].ch == s.conns[k][h].ch
                else h == arg.hostname && conns[k][h].ch == ch
      {
        ParkUpToAt(s.conns, s.nextCh, arg, |arg.appids|, k, h);
      }
    }
  }

  /** In every state of every run a new channel is one that no connection holds, and no two
      hosts hold the same. */
  lemma {:induction false} RunApart(states: seq<State>, ops: seq<Op>, n: nat)
    requires RunFromStart(states, ops) && n <= |ops|
    ensures Apart(states[n].conns, states[n].nextCh)
  {
    if n > 0 {
      RunApart(states, ops, n - 1);
      var s, op := states[n - 1], ops[n - 1];
      assert Enabled(s, op) && states[n - 1 + 1] == Apply(s, op);
      if op.OpPolls? {
        PollStepApart(s, op.poll);
      } else {
        QuietStepApart(s, op);
      }
    }
  }

  /** The channel of a poll in a run: the one its host already waits on for the first
      application, or else one that no connection holds. */
  lemma PolledChannelIsOwn(states: seq<State>, ops: seq<Op>, n: nat, arg: ArgPolls, k: string, h: string)
    requires RunFromStart(states, ops) && n <= |ops| && |arg.appids| == |arg.latestTs| > 0
    requires k in states[n].conns && h in states[n].conns[k]
    ensures
      var s, ch := states[n], PolledChannel(states[n], arg);
      var own := ConnAt(s.conns, PollKey(arg.appids[0], arg.env), arg.hostname);
      && ch.Some? && (s.conns[k][h].ch == ch.value ==> !Notifies(s, arg) && own.Some? && h == arg.hostname)
      && (!Notifies(s, arg) && own.Some? ==> ch.value == own.value.ch)
  {
    RunApart(states, ops, n);
    if !Notifies(states[n], arg) {
      PolledChannelIsStored(states[n], arg, k, h);
    }
  }

  lemma {:induction false} NewOnesFollow(states: seq<State>, ops: seq<Op>, m: nat, n: nat)
    requires Run(states, ops) && m <= n <= |ops|
    ensures states[m].nextCh <= states[n].nextCh
  {
    if m < n {
      NewOnesFollow(states, ops, m, n - 1);
      var s, op := states[n - 1], ops[n - 1];
      assert Enabled(s, op) && states[n - 1 + 1] == Apply(s, op);
      if op.OpPolls? {
        NextChRises(s, op.poll);
      } else {
        QuietStepAt(s, op, "", "");
      }
    }
  }

  lemma NextChRises(s: State, poll: ArgPolls)
    ensures Polls(s, poll).nextCh >= s.nextCh
  {
    var arg := Normalized(poll);
    if !Notifies(s, arg) && |arg.appids| > 0 {
      ParkUpToChannel(s.conns, s.nextCh, arg, |arg.appids|);
    }
  }

  /** A channel that a poll was given is never handed out as a new one again. */
  lemma GivenOutOnce(states: seq<State>, ops: seq<Op>, m: nat, n: nat)
    requires RunFromStart(states, ops) && m < n <= |ops| && ops[m].OpPolls? && |ops[m].poll.appids| > 0
    ensures
      var ch := PolledChannel(states[m], Normalized(ops[m].poll));
      ch.Some? && ch.value < states[n].nextCh
  {
    var s, arg := states[m], Normalized(ops[m].poll);
    RunApart(states, ops, m);
    if !Notifies(s, arg) {
      ParkUpToChannel(s.conns, s.nextCh, arg, |arg.appids|);
    }
    assert states[m + 1] == Apply(s, ops[m]);
    NewOnesFollow(states, ops, m + 1, n);
  }

  // ----- until the next broadcast -----

  /** The connection is there, with everything but its count as in `c`. */
  ghost predicate Stored(conns: map<string, Hosts>, k: string, h: string, c: Conn) {
    var at := ConnAt(conns, k, h);
    at.Some? && at.value.(count := 0) == c
  }

  lemma StepStays(s: State, op: Op, k: string, h: string, c: Conn)
    requires Enabled(s, op) && !Broadcasts(s, op, k) && !GivesUp(op, k, h) && Stored(s.conns, k, h, c)
    ensures Stored(Apply(s, op).conns, k, h, c)
  {
    if op.OpPolls? {
      var arg := Normalized(op.poll);
      if !Notifies(s, arg) && |arg.appids| > 0 {
        ParkUpToAt(s.conns, s.nextCh, arg, |arg.appids|, k, h);
      }
    } else {
      QuietStepAt(s, op, k, h);
    }
  }

  /** A connection keeps its channel until a broadcast of its key or until its host gives
      up a poll for it. */
  lemma {:induction false} StaysParked(states: seq<State>, ops: seq<Op>, m: nat, n: nat, k: string, h: string, c: Conn)
    requires RunFromStart(states, ops) && m <= n <= |ops| && Stored(states[m].conns, k, h, c)
    requires forall j | m <= j < n :: !Broadcasts(states[j], ops[j], k) && !GivesUp(ops[j], k, h)
    ensures Stored(states[n].conns, k, h, c) == true
  {
    if m < n {
      StaysParked(states, ops, m, n - 1, k, h, c);
      assert Enabled(states[n - 1], ops[n - 1]) && states[n - 1 + 1] == Apply(states[n - 1], ops[n - 1]);
      StepStays(states[n - 1], ops[n - 1], k, h, c);
    }
  }

  /** The poll of step m parked on `ch`, and until step n its first key had no broadcast
      and its host did not give up. */
  ghost predicate WaitsFrom(states: seq<State>, ops: seq<Op>, m: nat, n: nat, k: string, h: string, ch: nat)
    requires RunFromStart(states, ops) && m < n < |ops|
  {
    && ops[m].OpPolls? && h == ops[m].poll.hostname
    && var arg := Normalized(ops[m].poll);
    && |arg.appids| > 0 && !Notifies(states[m], arg)
    && k == PollKey(arg.appids[0], arg.env) && PolledChannel(states[m], arg) == Some(ch)
    && forall j | m < j < n :: !Broadcasts(states[j], ops[j], k) && !GivesUp(ops[j], k, h)
  }

  /** The zone that the connection asks for: its own, or that of the older one it joined. */
  function AskedZone(s: State, poll: ArgPolls, k: string): string {
    var own := ConnAt(s.conns, k, poll.hostname);
    if own.Some? then own.value.arg.zone else poll.zone
  }

  lemma StillWaits(states: seq<State>, ops: seq<Op>, m: nat, n: nat, k: string, h: string, ch: nat)
    requires RunFromStart(states, ops) && m < n < |ops| && WaitsFrom(states, ops, m, n, k, h, ch)
    ensures k in states[n].conns && h in states[n].conns[k]
    ensures
      var c := states[n].conns[k][h];
      && c.ch == ch && c.count == Waiting(states, ops, n, k, h) > 0
      && c.arg.zone == AskedZone(states[m], ops[m].poll, k)
  {
    var poll := ops[m].poll;
    var arg := Normalized(poll);
    assert states[m + 1] == Apply(states[m], ops[m]);
    SamePolls(states[m], poll);
    PolledChannelIsStored(states[m], arg, k, h);
    ListedFirst(arg, |arg.appids|);
    StaysParked(states, ops, m + 1, n, k, h, ConnAt(states[m + 1].conns, k, h).value.(count := 0));
    CountsAreWaiters(states, ops, n, k, h);
  }

  /** In every run: a poll that parked is offered the news on the channel it was given, as
      often as its host has requests waiting, by the next broadcast of its first
      application, exactly when something then lives in the zone it asked for; unless its
      host gave up before. */
  lemma NextBroadcastReaches(states: seq<State>, ops: seq<Op>, zones: iset<string>, m: nat, n: nat, name: Name,
                             h: string, ch: nat, offers: map<string, Offer>)
    requires RunFromStart(states, ops) && WildcardFree(zones) && m < n < |ops|
    requires forall op | op in ops :: UsesZones(op, zones)
    requires WaitsFrom(states, ops, m, n, PollKey(name.appid, name.env), h, ch)
    requires Announced(states[n], ops[n]) == Some(name) && DashFree(name.env) && DashFreeEnvs(states[n + 1])
    requires OffersOf(states[n + 1].(conns := states[n].conns), name.env, name.appid, offers)
    ensures
      var k := PollKey(name.appid, name.env);
      && (h in offers <==> Lives(states[n + 1], AskedZone(states[m], ops[m].poll, k), name.env, name.appid))
      && (h in offers ==> offers[h].ch == ch && offers[h].times == Waiting(states, ops, n, k, h) > 0)
  {
    StillWaits(states, ops, m, n, PollKey(name.appid, name.env), h, ch);
    LeftUnansweredIff(states, ops, zones, n, name, offers, h);
  }

  /** And by the first of the cancels of a pass that announces it. */
  lemma NextPassReaches(states: seq<State>, ops: seq<Op>, zones: iset<string>, m: nat, n: nat, j: nat,
                        h: string, ch: nat, offers: map<string, Offer>)
    requires RunFromStart(states, ops) && WildcardFree(zones) && m < n < |ops|
    requires forall op | op in ops :: UsesZones(op, zones)
    requires ops[n].OpEvict? && Enabled(states[n], ops[n]) && j < |ops[n].locs| && DashFreeEnvs(states[n])
    requires
      var v := InstancesAt(states[n], ops[n].locs)[j];
      var before, after := PassUpTo(states[n], ops[n], j), PassUpTo(states[n], ops[n], j + 1);
      && WaitsFrom(states, ops, m, n, PollKey(v.appid, v.env), h, ch)
      && PollKey(v.appid, v.env) !in PollKeys(InstancesAt(states[n], ops[n].locs)[..j])
      && OffersOf(after.(conns := before.conns), v.env, v.appid, offers)
    ensures
      var v := InstancesAt(states[n], ops[n].locs)[j];
      var k, after := PollKey(v.appid, v.env), PassUpTo(states[n], ops[n], j + 1);
      && (h in offers <==> Lives(after, AskedZone(states[m], ops[m].poll, k), v.env, v.appid))
      && (h in offers ==> offers[h].ch == ch && offers[h].times == Waiting(states, ops, n, k, h) > 0)
  {
    var v := InstancesAt(states[n], ops[n].locs)[j];
    StillWaits(states, ops, m, n, PollKey(v.appid, v.env), h, ch);
    RunStructured(states, ops, zones);
    PassClears(states[n], ops[n], j, zones);
    PassLeavesUnansweredIff(states, ops, zones, n, j, offers, h);
  }
}
