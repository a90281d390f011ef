/** No open resolver misses a view: in every interleaving of builders, the polling
    goroutine, watchers and closes, an out-of-date resolver is about to be woken. */
module Wakeup {
  import opened Wrappers

  import opened ClientModel

  // ----- invariants -----

  /** A view that is worth storing: it has zones, and none is empty. */
  predicate Solid(v: View) {
    v.instances != map[] && forall z | z in v.instances :: v.instances[z] != []
  }

  predicate Open(c: Client, id: nat) {
    Registered(c, id) && id in c.apps[c.resolvers[id].appid].resolvers
  }

  ghost predicate Shape(c: Client) {
    && (forall a, id | a in c.apps && id in c.apps[a].resolvers :: id in c.resolvers && c.resolvers[id].appid == a)
    && (forall id | id in c.resolvers ::
          Registered(c, id) && c.resolvers[id].seen <= c.apps[c.resolvers[id].appid].stamp)
    && (c.caster.Stored? || c.caster.Sending? ==> c.caster.appid in c.apps)
    && (c.caster.Sending? ==> c.caster.todo <= c.apps[c.caster.appid].resolvers)
  }

  /** Something that will bring the resolver to the stored view is under way. */
  predicate Coming(c: Client, id: nat)
    requires id in c.resolvers
  {
    var r := c.resolvers[id];
    || r.event
    || r.phase.Woken?
    || r.greeting
    || (c.caster.Stored? && c.caster.appid == r.appid)
    || (c.caster.Sending? && c.caster.appid == r.appid && id in c.caster.todo)
  }

  ghost predicate NoLostWakeup(c: Client) {
    forall id | Open(c, id) && c.resolvers[id].seen < c.apps[c.resolvers[id].appid].stamp :: Coming(c, id)
  }

  /** Stored views are never empty, and timestamps are only ever sent back to the host
      that they came from. */
  ghost predicate Honest(c: Client) {
    && (forall a | a in c.apps :: c.apps[a].view.Some? <==> c.apps[a].stamp > 0)
    && (forall a | a in c.apps && c.apps[a].view.Some? :: Solid(c.apps[a].view.value))
    && (forall a | a in c.apps && c.apps[a].lastTs != 0 ::
      c.apps[a].origin == c.lastHost && c.apps[a].view.Some? && c.apps[a].view.value.lastTs == c.apps[a].lastTs)
    && (!c.caster.Resting? ==> c.caster.host == c.lastHost)
    && (c.caster.Polling? ==>
          !c.context.NoContext? && forall a | a in c.apps :: a in c.caster.asked || c.context.Cancelled?)
    && (c.caster.Polling? ==> forall a | a in c.caster.asked && c.caster.asked[a] != 0 ::
      a in c.apps && c.apps[a].lastTs == c.caster.asked[a])
  }

  // ----- every step keeps them -----

  lemma BuiltShape(c: Client, appid: string, id: nat)
    requires Shape(c) && Unlocked(c) && id !in c.resolvers
    ensures Shape(BuiltOn(c, appid, id))
  {}

  lemma PolledShape(c: Client, host: string)
    requires Shape(c) && c.caster.Resting?
    ensures Shape(PollStarted(c, host))
  {}

  lemma StoredShape(c: Client, appid: string)
    requires Shape(c) && c.caster.Casting? && appid in c.caster.pending
    ensures Shape(StoredView(c, appid))
  {}

  lemma ClosedShape(c: Client, id: nat)
    requires Shape(c) && Unlocked(c) && Registered(c, id)
    ensures Shape(Closed(c, id))
  {}

  lemma ShapeKept(c: Client, s: Step)
    requires Shape(c) && Enabled(c, s)
    ensures Shape(Apply(c, s))
  {
    if s.BuildAdd? {
      BuiltShape(c, s.appid, s.id);
    } else if s.PollStart? {
      PolledShape(c, s.host);
    } else if s.Store? {
      StoredShape(c, s.appid);
    } else if s.Close? {
      ClosedShape(c, s.id);
    }
  }

  lemma BuiltWakeup(c: Client, appid: string, id: nat)
    requires Shape(c) && NoLostWakeup(c) && Unlocked(c) && id !in c.resolvers
    ensures NoLostWakeup(BuiltOn(c, appid, id))
  {}

  lemma PolledWakeup(c: Client, host: string)
    requires Shape(c) && NoLostWakeup(c) && c.caster.Resting?
    ensures NoLostWakeup(PollStarted(c, host))
  {}

  lemma StoredWakeup(c: Client, appid: string)
    requires Shape(c) && NoLostWakeup(c) && c.caster.Casting? && appid in c.caster.pending
    ensures NoLostWakeup(StoredView(c, appid))
  {}

  lemma ClosedWakeup(c: Client, id: nat)
    requires Shape(c) && NoLostWakeup(c) && Unlocked(c) && Registered(c, id)
    ensures NoLostWakeup(Closed(c, id))
  {}

  lemma WakeupKept(c: Client, s: Step)
    requires Shape(c) && NoLostWakeup(c) && Enabled(c, s)
    ensures NoLostWakeup(Apply(c, s))
  {
    if s.BuildAdd? {
      BuiltWakeup(c, s.appid, s.id);
    } else if s.PollStart? {
      PolledWakeup(c, s.host);
    } else if s.Store? {
      StoredWakeup(c, s.appid);
    } else if s.Close? {
      ClosedWakeup(c, s.id);
    }
  }

  lemma BuiltHonest(c: Client, appid: string, id: nat)
    requires Honest(c) && Unlocked(c) && id !in c.resolvers
    ensures Honest(BuiltOn(c, appid, id))
  {}

  lemma PolledHonest(c: Client, host: string)
    requires Honest(c) && c.caster.Resting? && !c.context.NoContext?
    ensures Honest(PollStarted(c, host))
  {}

  lemma StoredHonest(c: Client, appid: string)
    requires Honest(c) && c.caster.Casting? && appid in c.caster.pending
    ensures Honest(StoredView(c, appid))
  {}

  lemma ClosedHonest(c: Client, id: nat)
    requires Honest(c) && Unlocked(c) && Registered(c, id)
    ensures Honest(Closed(c, id))
  {}

  lemma HonestKept(c: Client, s: Step)
    requires Honest(c) && Enabled(c, s)
    ensures Honest(Apply(c, s))
  {
    if s.BuildAdd? {
      BuiltHonest(c, s.appid, s.id);
    } else if s.PollStart? {
      PolledHonest(c, s.host);
    } else if s.Store? {
      StoredHonest(c, s.appid);
    } else if s.Close? {
      ClosedHonest(c, s.id);
    }
  }

  lemma {:induction false} RunKeeps(steps: seq<Step>, t: Client)
    requires Run(INITIAL, steps, t)
    ensures Shape(t) && NoLostWakeup(t) && Honest(t)
    decreases |steps|
  {
    if steps != [] {
      var n := |steps| - 1;
      var m :| Run(INITIAL, steps[..n], m) && Enabled(m, steps[n]) && t == Apply(m, steps[n]);
      RunKeeps(steps[..n], m);
      ShapeKept(m, steps[n]);
      WakeupKept(m, steps[n]);
      HonestKept(m, steps[n]);
    }
  }

  /** In every reachable state a poll under way sends each application either 0 or the
      timestamp of a view that came from the polled host itself. */
  lemma AskedOnlyOfItsOrigin(steps: seq<Step>, t: Client, a: string)
    requires Run(INITIAL, steps, t) && t.caster.Polling? && a in t.caster.asked && t.caster.asked[a] != 0
    ensures a in t.apps && t.apps[a].origin == t.caster.host
    ensures t.apps[a].view.Some? && t.apps[a].view.value.lastTs == t.caster.asked[a]
  {
    RunKeeps(steps, t);
  }

  /** In every reachable state a poll under way asks for every watched application, or it
      can be given up at once: no application waits for a poll that leaves it out. */
  lemma NoAppLeftOut(steps: seq<Step>, t: Client, a: string)
    requires Run(INITIAL, steps, t) && t.caster.Polling? && a in t.apps
    ensures a in t.caster.asked || Enabled(t, PollAbort)
  {
    RunKeeps(steps, t);
  }

  // ----- stored views stay -----

  lemma StampGrows(c: Client, s: Step)
    requires Enabled(c, s)
    ensures forall a | a in c.apps :: a in Apply(c, s).apps && c.apps[a].stamp <= Apply(c, s).apps[a].stamp
  {}

  /** Once a view is stored there is always one, it is never empty, and the number of
      stores only grows. The timestamp inside the view may fall when the host changes. */
  lemma {:induction false} ViewsStay(c: Client, steps: seq<Step>, t: Client, a: string)
    requires Run(c, steps, t) && Honest(c) && a in c.apps && c.apps[a].view.Some?
    ensures Honest(t) && a in t.apps && t.apps[a].view.Some? && Solid(t.apps[a].view.value)
    ensures c.apps[a].stamp <= t.apps[a].stamp
    decreases |steps|
  {
    if steps != [] {
      var n := |steps| - 1;
      var m :| Run(c, steps[..n], m) && Enabled(m, steps[n]) && t == Apply(m, steps[n]);
      ViewsStay(c, steps[..n], m, a);
      HonestKept(m, steps[n]);
      StampGrows(m, steps[n]);
    }
  }

  // ----- the protocol comes to rest, up to date -----

  /** Steps that bring new work from outside. */
  predicate Outside(s: Step) {
    s.BuildAdd? || s.Arm? || s.PollStart? || s.PollAbort? || s.PollEnd?
  }

  /** Steps by which a resolver leaves. */
  predicate Leaving(s: Step) {
    s.Quit? || s.Close?
  }

  /** The resolvers with a given property. */
  function Where(rs: map<nat, Resolve>, p: Resolve -> bool): set<nat> {
    set id | id in rs && p(rs[id])
  }

  /** The resolvers that some application still lists. */
  function Listed(apps: map<string, AppInfo>): set<nat> {
    set a, id | a in apps && id in apps[a].resolvers :: id
  }

  /** n times u. */
  function Times(n: nat, u: nat): nat {
    if n == 0 then 0 else Times(n - 1, u) + u
  }

  /** The steps left to the polling goroutine when there are r resolvers: a view costs
      its store, its lock, at most one send and then a wake and a load per resolver,
      and its unlock. */
  function CasterWork(k: Caster, r: nat): nat {
    match k
    case Resting => 0
    case Polling(_, _) => 0
    case Casting(_, p) => 1 + Times(|p|, 3 * r + 3)
    case Stored(_, p, _) => 3 + Times(|p|, 3 * r + 3) + 3 * r
    case Sending(_, p, _, todo) => 2 + Times(|p|, 3 * r + 3) + 3 * |todo|
  }

  predicate HasEvent(r: Resolve) {
    r.event
  }

  predicate IsWoken(r: Resolve) {
    r.phase.Woken?
  }

  predicate IsGreeting(r: Resolve) {
    r.greeting
  }

  predicate IsAlive(r: Resolve) {
    !r.phase.Gone?
  }

  function WatchWork(rs: map<nat, Resolve>): nat {
    2 * |Where(rs, HasEvent)| + |Where(rs, IsWoken)| + 3 * |Where(rs, IsGreeting)| + |Where(rs, IsAlive)|
  }

  /** A bound on the steps that remain without new work. */
  function Work(c: Client): nat {
    CasterWork(c.caster, |c.resolvers|) + WatchWork(c.resolvers) + |Listed(c.apps)|
  }

  lemma CardUpdate<T>(s: set<T>, t: set<T>, id: T)
    requires s - {id} == t - {id}
    ensures |t| == |s - {id}| + (if id in t then 1 else 0)
    ensures |s| == |s - {id}| + (if id in s then 1 else 0)
  {
    if id in t {
      assert t == (t - {id}) + {id};
    } else {
      assert t == t - {id};
    }
    if id in s {
      assert s == (s - {id}) + {id};
    } else {
      assert s == s - {id};
    }
  }

  lemma OneChanged(rs: map<nat, Resolve>, id: nat, r: Resolve, p: Resolve -> bool)
    requires id in rs
    ensures |Where(rs[id := r], p)| == |Where(rs, p)| + (if p(r) then 1 else 0) - (if p(rs[id]) then 1 else 0)
  {
    CardUpdate(Where(rs, p), Where(rs[id := r], p), id);
  }

  function Owed(r: Resolve): nat {
    (if r.event then 2 else 0) + (if r.phase.Woken? then 1 else 0) + (if r.greeting then 3 else 0)
      + (if r.phase.Gone? then 0 else 1)
  }

  /** Changing one resolver changes the work by what that resolver is owed. */
  lemma OneResolver(rs: map<nat, Resolve>, id: nat, r: Resolve)
    requires id in rs
    ensures WatchWork(rs[id := r]) == WatchWork(rs) + Owed(r) - Owed(rs[id])
    ensures |rs[id := r]| == |rs|
  {
    OneChanged(rs, id, r, HasEvent);
    OneChanged(rs, id, r, IsWoken);
    OneChanged(rs, id, r, IsGreeting);
    OneChanged(rs, id, r, IsAlive);
    assert rs[id := r].Keys == rs.Keys;
  }

  lemma OneLess<K, V>(m: map<K, V>, k: K)
    requires k in m
    ensures |m - {k}| == |m| - 1
  {
    assert (m - {k}).Keys == m.Keys - {k};
  }

  lemma StoreCasterShrinks(c: Client, appid: string, r: nat)
    requires c.caster.Casting? && appid in c.caster.pending
    ensures CasterWork(StoredView(c, appid).caster, r) < CasterWork(c.caster, r)
  {
    OneLess(c.caster.pending, appid);
  }

  lemma StoreListsSame(c: Client, appid: string)
    requires c.caster.Casting? && appid in c.caster.pending
    ensures StoredView(c, appid).resolvers == c.resolvers && Listed(StoredView(c, appid).apps) == Listed(c.apps)
  {
    SameListed(c.apps, StoredView(c, appid).apps);
  }

  lemma StoreShrinks(c: Client, appid: string)
    requires c.caster.Casting? && appid in c.caster.pending
    ensures Work(StoredView(c, appid)) < Work(c)
  {
    StoreCasterShrinks(c, appid, |c.resolvers|);
    StoreListsSame(c, appid);
  }

  lemma SameListed(a: map<string, AppInfo>, b: map<string, AppInfo>)
    requires a.Keys == b.Keys && forall k | k in a :: a[k].resolvers == b[k].resolvers
    ensures Listed(a) == Listed(b)
  {}

  lemma SubsetCard(s: set<nat>, t: set<nat>)
    requires s <= t
    ensures |s| <= |t|
  {
    if s != {} {
      var x :| x in s;
      CardUpdate(s, s - {x}, x);
      CardUpdate(t, t - {x}, x);
      SubsetCard(s - {x}, t - {x});
    }
  }

  lemma LockShrinks(k: Caster, todo: set<nat>, all: set<nat>)
    requires k.Stored? && todo <= all
    ensures CasterWork(Sending(k.host, k.pending, k.appid, todo), |all|) < CasterWork(k, |all|)
  {
    SubsetCard(todo, all);
  }

  lemma NextShrinks(c: Client, k: Caster)
    requires CasterWork(k, |c.resolvers|) < CasterWork(c.caster, |c.resolvers|)
    ensures Work(c.(caster := k)) < Work(c)
  {}

  lemma CastShrinks(c: Client, s: Step)
    requires Shape(c) && Enabled(c, s) && (s.Lock? || s.Unlock? || s.CastEnd?)
    ensures Work(Apply(c, s)) < Work(c)
  {
    if s.Lock? {
      LockShrinks(c.caster, c.apps[c.caster.appid].resolvers, c.resolvers.Keys);
    }
    NextShrinks(c, Apply(c, s).caster);
  }

  lemma OneTodoLess(k: Caster, id: nat, r: nat)
    requires k.Sending? && id in k.todo
    ensures CasterWork(k.(todo := k.todo - {id}), r) == CasterWork(k, r) - 3
  {
    CardUpdate(k.todo, k.todo - {id}, id);
  }

  lemma SendShrinks(c: Client, id: nat)
    requires Enabled(c, Send(id))
    ensures Work(Apply(c, Send(id))) < Work(c)
  {
    OneResolver(c.resolvers, id, c.resolvers[id].(event := true));
    OneTodoLess(c.caster, id, |c.resolvers|);
  }

  lemma WatcherShrinks(c: Client, s: Step)
    requires Enabled(c, s) && (s.Greet? || s.Wake? || s.Load? || s.Quit?)
    ensures Work(Apply(c, s)) < Work(c)
  {
    OneResolver(c.resolvers, s.id, Apply(c, s).resolvers[s.id]);
  }

  lemma CloseShrinks(c: Client, id: nat)
    requires Shape(c) && Enabled(c, Close(id))
    ensures Work(Apply(c, Close(id))) < Work(c)
  {
    var d := Apply(c, Close(id));
    Unlisted(c, id);
    CardUpdate(Listed(c.apps), Listed(d.apps), id);
  }

  lemma Unlisted(c: Client, id: nat)
    requires Shape(c) && Enabled(c, Close(id))
    ensures Listed(Apply(c, Close(id)).apps) == Listed(c.apps) - {id}
    ensures id in Listed(c.apps)
  {
    var a := c.resolvers[id].appid;
    var d := Apply(c, Close(id));
    forall x | x in Listed(c.apps) && x != id ensures x in Listed(d.apps) {
      var b :| b in c.apps && x in c.apps[b].resolvers;
      assert b in d.apps && x in d.apps[b].resolvers;
    }
    forall b | b in d.apps ensures id !in d.apps[b].resolvers {
      if b != a {
        assert d.apps[b] == c.apps[b];
      }
    }
    assert id in c.apps[a].resolvers;
  }

  lemma StepShrinks(c: Client, s: Step)
    requires Shape(c) && Enabled(c, s) && !Outside(s)
    ensures Work(Apply(c, s)) < Work(c)
  {
    if s.Store? {
      StoreShrinks(c, s.appid);
    } else if s.Lock? || s.Unlock? || s.CastEnd? {
      CastShrinks(c, s);
    } else if s.Send? {
      SendShrinks(c, s.id);
    } else if s.Close? {
      CloseShrinks(c, s.id);
    } else {
      WatcherShrinks(c, s);
    }
  }

  /** Without new work every run ends: it has at most `Work` steps. */
  lemma {:induction false} RunsEnd(c: Client, steps: seq<Step>, t: Client)
    requires Shape(c) && Run(c, steps, t) && forall i :: 0 <= i < |steps| ==> !Outside(steps[i])
    ensures Shape(t) && |steps| + Work(t) <= Work(c)
    decreases |steps|
  {
    if steps != [] {
      var n := |steps| - 1;
      var m :| Run(c, steps[..n], m) && Enabled(m, steps[n]) && t == Apply(m, steps[n]);
      RunsEnd(c, steps[..n], m);
      ShapeKept(m, steps[n]);
      StepShrinks(m, steps[n]);
    }
  }

  /** Nothing is left to do but for new work and leaving. */
  ghost predicate Settled(c: Client) {
    forall s :: Enabled(c, s) ==> Outside(s) || Leaving(s)
  }

  lemma SettledCaster(c: Client)
    requires Shape(c) && Settled(c)
    ensures c.caster.Resting? || c.caster.Polling?
  {
    assert Enabled(c, CastEnd) || Enabled(c, Lock) || Enabled(c, Unlock) || c.caster.Resting? || c.caster.Polling?
      || (c.caster.Casting? && c.caster.pending != map[]) || (c.caster.Sending? && c.caster.todo != {});
    if c.caster.Casting? && c.caster.pending != map[] {
      var a :| a in c.caster.pending;
      assert Enabled(c, Store(a));
    } else if c.caster.Sending? && c.caster.todo != {} {
      var id :| id in c.caster.todo;
      assert Enabled(c, Send(id));
    }
  }

  /** Where the protocol has come to rest, every open resolver with a live watcher has
      fetched the stored view. */
  lemma SettledIsUpToDate(c: Client, id: nat)
    requires Shape(c) && NoLostWakeup(c) && Settled(c)
    requires Open(c, id) && !c.resolvers[id].phase.Gone?
    ensures c.resolvers[id].seen == c.apps[c.resolvers[id].appid].stamp
  {
    SettledCaster(c);
    assert !Enabled(c, Wake(id)) && !Enabled(c, Load(id)) && !Enabled(c, Greet(id));
    assert !Coming(c, id);
  }

  /** From any reachable state, however the steps interleave, the protocol settles
      within a known number of them, and then everyone is up to date. */
  lemma EveryoneCatchesUp(history: seq<Step>, c: Client, steps: seq<Step>, t: Client)
    requires Run(INITIAL, history, c) && Run(c, steps, t) && forall i :: 0 <= i < |steps| ==> !Outside(steps[i])
    ensures |steps| <= Work(c)
    ensures Settled(t) ==> forall id | Open(t, id) && !t.resolvers[id].phase.Gone? ::
      t.resolvers[id].seen == t.apps[t.resolvers[id].appid].stamp
  {
    RunKeeps(history, c);
    RunsEnd(c, steps, t);
    WakeupThrough(c, steps, t);
    if Settled(t) {
      forall id | Open(t, id) && !t.resolvers[id].phase.Gone?
        ensures t.resolvers[id].seen == t.apps[t.resolvers[id].appid].stamp
      {
        SettledIsUpToDate(t, id);
      }
    }
  }

  lemma {:induction false} WakeupThrough(c: Client, steps: seq<Step>, t: Client)
    requires Shape(c) && NoLostWakeup(c) && Run(c, steps, t)
    ensures Shape(t) && NoLostWakeup(t)
    decreases |steps|
  {
    if steps != [] {
      var n := |steps| - 1;
      var m :| Run(c, steps[..n], m) && Enabled(m, steps[n]) && t == Apply(m, steps[n]);
      WakeupThrough(c, steps[..n], m);
      ShapeKept(m, steps[n]);
      WakeupKept(m, steps[n]);
    }
  }

  /** The instances that a watcher makes addresses from: its own zone's, or else all. */
  function Targets(v: View, zone: string, order: seq<string>): seq<string> {
    if zone in v.instances then v.instances[zone] else Concat(v, order)
  }

  function Concat(v: View, order: seq<string>): seq<string> {
    if order == [] then []
    else
      var n := |order| - 1;
      Concat(v, order[..n]) + if order[n] in v.instances then v.instances[order[n]] else []
  }

  /** A fetched view always has such instances; whether each of them gives an address is
      not said. */
  lemma TargetsNonEmpty(v: View, zone: string, order: seq<string>)
    requires Solid(v) && forall z :: z in order <==> z in v.instances
    ensures Targets(v, zone, order) != []
  {
    if zone !in v.instances {
      assert order != [] by {
        var z :| z in v.instances;
      }
      var last := order[|order| - 1];
      assert last in order;
      assert v.instances[last] != [];
    }
  }
}
