/** The client object, in place. Each method is a run of the atomic steps, so what
    holds in every interleaving of those steps holds for it. */
module ClientObject {
  import opened Wrappers

  import opened ClientModel
  import opened Wakeup

  lemma StepOn(c: Client, steps: seq<Step>, m: Client, s: Step)
    requires Run(c, steps, m) && Enabled(m, s)
    ensures Run(c, steps + [s], Apply(m, s))
  {
    assert (steps + [s])[..|steps|] == steps;
  }

  /** The view of `a` will be stored: it is not empty and `a` is watched. */
  predicate Casts(c: Client, data: map<string, View>, a: string) {
    a in data && a in c.apps && Prune(data[a]).instances != map[]
  }

  /** The state after the polling goroutine stored and announced the views of `done`. */
  function CastUpTo(c: Client, data: map<string, View>, done: set<string>): Client
    requires c.caster.Casting?
  {
    Client(map a | a in c.apps :: if a in done && Casts(c, data, a) then Cast(c, data, a) else c.apps[a],
           map id | id in c.resolvers ::
             if c.resolvers[id].appid in done && Told(c, data, id)
             then c.resolvers[id].(event := true) else c.resolvers[id],
           c.lastHost, c.context, Casting(c.caster.host, data - done))
  }

  function Cast(c: Client, data: map<string, View>, a: string): AppInfo
    requires c.caster.Casting? && Casts(c, data, a)
  {
    AppInfo(Some(Prune(data[a])), c.apps[a].stamp + 1, data[a].lastTs, c.caster.host, c.apps[a].resolvers)
  }

  predicate Told(c: Client, data: map<string, View>, id: nat) {
    Open(c, id) && Casts(c, data, c.resolvers[id].appid)
  }

  /** The state after one application's view was stored and announced. */
  function CastOne(c: Client, a: string): Client
    requires c.caster.Casting? && a in c.caster.pending
  {
    var d := StoredView(c, a);
    if !d.caster.Stored? then d
    else
      Client(d.apps, Noticed(d.resolvers, d.apps[a].resolvers), d.lastHost, d.context,
             Casting(d.caster.host, d.caster.pending))
  }

  function Noticed(rs: map<nat, Resolve>, ids: set<nat>): map<nat, Resolve> {
    map id | id in rs :: if id in ids then rs[id].(event := true) else rs[id]
  }

  lemma NoticedStep(rs: map<nat, Resolve>, done: set<nat>, id: nat)
    requires id in rs
    ensures Noticed(rs, done + {id}) == Noticed(rs, done)[id := rs[id].(event := true)]
  {}

  class Discovery {
    var apps: map<string, AppInfo>
    var resolvers: map<nat, Resolve>
    var lastHost: string
    var context: Context
    ghost var caster: Caster

    ghost function State(): Client
      reads this
    {
      Client(apps, resolvers, lastHost, context, caster)
    }

    constructor ()
      ensures State() == INITIAL
    {
      apps, resolvers, lastHost, context, caster := map[], map[], "", NoContext, Resting;
    }

    /** Adds a resolver for an application and, when the application was known, puts
        an event in its channel. */
    method Build(appid: string, id: nat) returns (known: bool, ghost steps: seq<Step>)
      requires Unlocked(State()) && id !in resolvers
      modifies this`apps, this`resolvers, this`context
      ensures known == (appid in old(apps))
      ensures context == if !known && old(context).Live? then Cancelled else old(context)
      ensures Run(old(State()), steps, State())
      ensures steps == [BuildAdd(appid, id)] + (if known then [Greet(id)] else [])
    {
      ghost var c := State();
      StepOn(c, [], c, BuildAdd(appid, id));
      known := Join(appid, id);
      steps := [BuildAdd(appid, id)];
      if known {
        StepOn(c, steps, State(), Greet(id));
        resolvers := resolvers[id := resolvers[id].(event := true, greeting := false)];
        steps := steps + [Greet(id)];
      }
    }

    /** The part of Build under the lock. */
    method Join(appid: string, id: nat) returns (known: bool)
      requires Unlocked(State()) && id !in resolvers
      modifies this`apps, this`resolvers, this`context
      ensures known == (appid in old(apps))
      ensures State() == BuiltOn(old(State()), appid, id)
    {
      known := appid in apps;
      if !known {
        apps := apps[appid := AppInfo(None, 0, 0, "", {})];
        if context.Live? {
          context := Cancelled;
        }
      }
      var app := apps[appid];
      apps := apps[appid := app.(resolvers := app.resolvers + {id})];
      resolvers := resolvers[id := Resolve(appid, false, known, Waiting, 0)];
    }

    /** The stored view of the resolver's application, if there is one yet. */
    method Fetch(id: nat) returns (view: Option<View>)
      requires Registered(State(), id)
      ensures view == apps[resolvers[id].appid].view
    {
      view := apps[resolvers[id].appid].view;
    }

    /** Takes the resolver off its application's list. */
    method Close(id: nat) returns (ghost steps: seq<Step>)
      requires Unlocked(State()) && Registered(State(), id)
      modifies this`apps
      ensures Run(old(State()), steps, State())
      ensures State() == if Open(old(State()), id) then Closed(old(State()), id) else old(State())
    {
      ghost var c := State();
      var a := resolvers[id].appid;
      steps := [];
      if id in apps[a].resolvers {
        StepOn(c, [], c, Step.Close(id));
        apps := apps[a := apps[a].(resolvers := apps[a].resolvers - {id})];
        steps := steps + [Step.Close(id)];
      }
    }

    /** One turn of a watcher's loop with an event in the channel: takes it, then fetches. */
    method Watch(id: nat) returns (view: Option<View>, ghost steps: seq<Step>)
      requires Enabled(State(), Wake(id)) && Registered(State(), id)
      modifies this`resolvers
      ensures Run(old(State()), steps, State())
      ensures view == apps[old(resolvers[id]).appid].view
      ensures resolvers == old(resolvers)[id :=
        old(resolvers[id]).(event := false, seen := apps[old(resolvers[id]).appid].stamp)]
    {
      ghost var c := State();
      StepOn(c, [], c, Wake(id));
      resolvers := resolvers[id := resolvers[id].(event := false, phase := Woken)];
      StepOn(c, [Wake(id)], State(), Load(id));
      view := Fetch(id);
      resolvers := resolvers[id := resolvers[id].(phase := Waiting, seen := apps[resolvers[id].appid].stamp)];
      steps := [Wake(id)] + [Load(id)];
    }
  
    /** A fresh context for the polls, where there is none. */
    method NewContext() returns (ghost steps: seq<Step>)
      requires caster.Resting? && context.NoContext?
      modifies this`context
      ensures steps == [Arm] && Run(old(State()), steps, State()) && context == Live
    {
      StepOn(State(), [], State(), Arm);
      context := Live;
      steps := [] + [Arm];
    }

    /** Chooses the host's timestamps, forgetting them when the host changed, and takes
        the answer. An answer with a zero timestamp is an error, with nothing to store. */
    method Polls(host: string, answer: map<string, View>)
      returns (asked: map<string, int>, data: map<string, View>, ghost steps: seq<Step>)
      requires caster.Resting? && !context.NoContext?
      modifies this`apps, this`lastHost, this`caster
      ensures steps == [PollStart(host), PollEnd(answer)] && Run(old(State()), steps, State())
      ensures State() == PollEnded(PollStarted(old(State()), host), answer)
      ensures asked == PollStarted(old(State()), host).caster.asked
      ensures caster == Casting(host, data)
      ensures (forall a | a in answer :: answer[a].lastTs != 0) ==> data == answer
      ensures (exists a :: a in answer && answer[a].lastTs == 0) ==> data == map[]
      ensures asked.Keys == old(apps).Keys
      ensures forall a | a in old(apps) :: asked[a] == if host == old(lastHost) then old(apps)[a].lastTs else 0
    {
      ghost var c := State();
      var changed := host != lastHost;
      lastHost := host;
      asked := Ask(changed);
      StepOn(c, [], c, PollStart(host));
      caster := Polling(host, asked);
      assert State() == PollStarted(c, host);
      StepOn(c, [PollStart(host)], State(), PollEnd(answer));
      var usable := HasTimestamps(answer);
      data := if usable then answer else map[];
      caster := Casting(host, data);
      steps := [PollStart(host)] + [PollEnd(answer)];
    }

    method Ask(changed: bool) returns (asked: map<string, int>)
      modifies this`apps
      ensures apps == if changed then map a | a in old(apps) :: old(apps)[a].(lastTs := 0) else old(apps)
      ensures asked == map a | a in apps :: apps[a].lastTs
    {
      asked := map[];
      var rest := apps.Keys;
      while rest != {}
        invariant rest <= old(apps).Keys == apps.Keys && asked.Keys == apps.Keys - rest
        invariant forall a | a in apps && changed && a !in rest :: apps[a] == old(apps)[a].(lastTs := 0)
        invariant forall a | a in apps && !(changed && a !in rest) :: apps[a] == old(apps)[a]
        invariant forall a | a in asked :: asked[a] == apps[a].lastTs
      {
        var a :| a in rest;
        if changed {
          apps := apps[a := apps[a].(lastTs := 0)];
        }
        asked := asked[a := apps[a].lastTs];
        rest := rest - {a};
      }
    }

    /** Stores every view that is not empty and tells the resolvers of its application. */
    method Broadcast(data: map<string, View>) returns (ghost steps: seq<Step>)
      requires Shape(State()) && caster.Casting? && caster.pending == data && caster.host == lastHost
      modifies this`apps, this`resolvers, this`caster
      ensures Run(old(State()), steps, State())
      ensures State() == CastUpTo(old(State()), data, data.Keys).(caster := Resting)
    {
      ghost var c := State();
      steps := BroadcastAll(data);
      CastOver(c, data, steps);
      caster := Resting;
      steps := steps + [CastEnd];
    }

    /** The loop of Broadcast. */
    method BroadcastAll(data: map<string, View>) returns (ghost steps: seq<Step>)
      requires Shape(State()) && caster.Casting? && caster.pending == data && caster.host == lastHost
      modifies this`apps, this`resolvers, this`caster
      ensures Run(old(State()), steps, State())
      ensures State() == CastUpTo(old(State()), data, data.Keys)
    {
      ghost var c := State();
      ghost var done: set<string> := {};
      steps := [];
      var rest := data.Keys;
      CastNothing(c, data);
      while rest != {}
        invariant rest !! done && rest + done == data.Keys
        invariant State() == CastUpTo(c, data, done) && Run(c, steps, State())
      {
        var a :| a in rest;
        CastNext(c, data, done, a);
        steps := Announce(a, data[a], c, steps);
        rest, done := rest - {a}, done + {a};
      }
      assert done == data.Keys;
    }

    /** Stores and announces one application's view. */
    method Announce(a: string, v: View, ghost c: Client, ghost before: seq<Step>) returns (ghost steps: seq<Step>)
      requires caster.Casting? && a in caster.pending && caster.pending[a] == v && Run(c, before, State())
      requires caster.host == lastHost && (a in apps ==> apps[a].resolvers <= resolvers.Keys)
      modifies this`apps, this`resolvers, this`caster
      ensures State() == CastOne(old(State()), a)
      ensures Run(c, steps, State())
    {
      ghost var start := State();
      StepOn(c, before, start, Store(a));
      steps := before + [Store(a)];
      var stored := StoreView(a, v);
      if stored {
        steps := Notify(a, c, steps);
      }
    }

    /** Stores the view if it is not empty and its application is watched. */
    method StoreView(a: string, v: View) returns (stored: bool)
      requires caster.Casting? && a in caster.pending && caster.pending[a] == v && caster.host == lastHost
      modifies this`apps, this`caster
      ensures State() == StoredView(old(State()), a) && (stored <==> caster.Stored?)
    {
      var w, count := CountAndPrune(v);
      stored := count != 0 && a in apps;
      caster := StoredView(State(), a).caster;
      if stored {
        apps := apps[
          a := apps[a].(view := Some(w), stamp := apps[a].stamp + 1, lastTs := w.lastTs, origin := lastHost)];
      }
    }

    /** Takes the read lock, tells the resolvers, and gives the lock back. */
    method Notify(a: string, ghost c: Client, ghost before: seq<Step>) returns (ghost steps: seq<Step>)
      requires caster.Stored? && caster.appid == a && a in apps && apps[a].resolvers <= resolvers.Keys
      requires Run(c, before, State())
      modifies this`resolvers, this`caster
      ensures resolvers == Noticed(old(resolvers), apps[a].resolvers)
      ensures caster == Casting(old(caster).host, old(caster).pending)
      ensures Run(c, steps, State())
    {
      StepOn(c, before, State(), Lock);
      caster := Sending(caster.host, caster.pending, a, apps[a].resolvers);
      steps := before + [Lock];
      steps := TellAll(a, c, steps);
      StepOn(c, steps, State(), Unlock);
      caster := Casting(caster.host, caster.pending);
      steps := steps + [Unlock];
    }

    /** The loop over an application's resolvers, under the read lock. */
    method TellAll(a: string, ghost c: Client, ghost before: seq<Step>) returns (ghost steps: seq<Step>)
      requires caster.Sending? && caster.appid == a && a in apps && caster.todo == apps[a].resolvers
      requires caster.todo <= resolvers.Keys && Run(c, before, State())
      modifies this`resolvers, this`caster
      ensures resolvers == Noticed(old(resolvers), old(caster).todo) && caster == old(caster).(todo := {})
      ensures Run(c, steps, State())
    {
      steps := before;
      var rest := apps[a].resolvers;
      while rest != {}
        invariant rest <= old(caster).todo && caster == old(caster).(todo := rest)
        invariant resolvers == Noticed(old(resolvers), old(caster).todo - rest)
        invariant Run(c, steps, State()) == true
      {
        var id :| id in rest;
        StepOn(c, steps, State(), Send(id));
        NoticedStep(old(resolvers), old(caster).todo - rest, id);
        assert old(caster).todo - (rest - {id}) == old(caster).todo - rest + {id};
        resolvers := resolvers[id := resolvers[id].(event := true)];
        caster := caster.(todo := caster.todo - {id});
        steps := steps + [Send(id)];
        rest := rest - {id};
      }
      assert old(caster).todo - rest == old(caster).todo;
    }
  }

  /** Every answered view carries a timestamp. */
  method HasTimestamps(answer: map<string, View>) returns (usable: bool)
    ensures usable <==> forall a | a in answer :: answer[a].lastTs != 0
  {
    var rest := answer.Keys;
    while rest != {}
      invariant rest <= answer.Keys && forall a | a in answer && a !in rest :: answer[a].lastTs != 0
    {
      var a :| a in rest;
      if answer[a].lastTs == 0 {
        return false;
      }
      rest := rest - {a};
    }
    return true;
  }

  /** Removes the zones without instances and counts the instances. */
  method CountAndPrune(v: View) returns (w: View, count: nat)
    ensures w == Prune(v)
    ensures count == 0 <==> w.instances == map[]
  {
    var instances := v.instances;
    count := 0;
    var rest := v.instances.Keys;
    while rest != {}
      invariant rest <= v.instances.Keys
      invariant forall z :: z in instances <==> z in v.instances && (z in rest || v.instances[z] != [])
      invariant forall z | z in instances :: instances[z] == v.instances[z]
      invariant count == 0 <==> forall z | z in v.instances && z !in rest :: v.instances[z] == []
    {
      var z :| z in rest;
      if |v.instances[z]| == 0 {
        instances := instances - {z};
      }
      count := count + |v.instances[z]|;
      rest := rest - {z};
    }
    w := View(v.lastTs, instances);
    assert w.instances == map[] <==> forall z | z in v.instances :: v.instances[z] == [];
  }

  lemma CastOver(c: Client, data: map<string, View>, steps: seq<Step>)
    requires c.caster.Casting? && Run(c, steps, CastUpTo(c, data, data.Keys))
    ensures Run(c, steps + [CastEnd], CastUpTo(c, data, data.Keys).(caster := Resting))
  {
    var m := CastUpTo(c, data, data.Keys);
    assert data - data.Keys == map[];
    StepOn(c, steps, m, CastEnd);
  }

  lemma CastNothing(c: Client, data: map<string, View>)
    requires c.caster.Casting? && c.caster.pending == data
    ensures CastUpTo(c, data, {}) == c
  {
    assert data - {} == data;
  }

  lemma CastNextCaster(c: Client, data: map<string, View>, done: set<string>, a: string)
    requires c.caster.Casting? && a in data && a !in done
    ensures CastOne(CastUpTo(c, data, done), a).caster == CastUpTo(c, data, done + {a}).caster
    ensures CastOne(CastUpTo(c, data, done), a).lastHost == c.lastHost
  {
    assert (data - done) - {a} == data - (done + {a});
  }

  lemma CastNextApps(c: Client, data: map<string, View>, done: set<string>, a: string)
    requires c.caster.Casting? && a in data && a !in done
    ensures CastOne(CastUpTo(c, data, done), a).apps == CastUpTo(c, data, done + {a}).apps
  {
    assert (data - done)[a] == data[a];
  }

  lemma CastNextResolvers(c: Client, data: map<string, View>, done: set<string>, a: string)
    requires Shape(c) && c.caster.Casting? && a in data && a !in done
    ensures CastOne(CastUpTo(c, data, done), a).resolvers == CastUpTo(c, data, done + {a}).resolvers
  {
    assert (data - done)[a] == data[a];
    var m := CastUpTo(c, data, done);
    forall id | id in c.resolvers
      ensures CastOne(m, a).resolvers[id] == CastUpTo(c, data, done + {a}).resolvers[id]
    {
      if c.resolvers[id].appid == a {
        assert CastOne(m, a).resolvers[id].event == (m.resolvers[id].event || Told(c, data, id));
      } else {
        assert CastOne(m, a).resolvers[id] == m.resolvers[id];
      }
    }
  }

  lemma CastNext(c: Client, data: map<string, View>, done: set<string>, a: string)
    requires Shape(c) && c.caster.Casting? && a in data && a !in done
    ensures CastOne(CastUpTo(c, data, done), a) == CastUpTo(c, data, done + {a})
    ensures a in c.apps ==> c.apps[a].resolvers <= c.resolvers.Keys
  {
    CastNextCaster(c, data, done, a);
    CastNextApps(c, data, done, a);
    CastNextResolvers(c, data, done, a);
  }
}
