/** The client's watch and notify protocol as a machine of atomic steps. */
module ClientModel {
  import opened Wrappers

  /** What a poll returned for one application: instance names per zone. */
  datatype View = View(lastTs: int, instances: map<string, seq<string>>)

  /** A watched application. `stamp` counts the views stored so far and `origin` is the
      host that the timestamp came from. */
  datatype AppInfo = AppInfo(view: Option<View>, stamp: nat, lastTs: int, origin: string, resolvers: set<nat>)

  /** Where a resolver's watcher is: waiting for an event, between an event and its
      fetch, or returned. */
  datatype Phase = Waiting | Woken | Gone

  /** A resolver: its capacity-1 event channel, whether its builder still has to send,
      its watcher, and the number of the view that the watcher fetched last. */
  datatype Resolve = Resolve(appid: string, event: bool, greeting: bool, phase: Phase, seen: nat)

  /** Where the polling goroutine is. `Sending` holds the read lock. */
  datatype Caster =
    | Resting
    | Polling(host: string, asked: map<string, int>)
    | Casting(host: string, pending: map<string, View>)
    | Stored(host: string, pending: map<string, View>, appid: string)
    | Sending(host: string, pending: map<string, View>, appid: string, todo: set<nat>)

  /** The context of the polls: none yet or given up, in use, or cancelled by a builder. */
  datatype Context = NoContext | Live | Cancelled

  datatype Client = Client(
    apps: map<string, AppInfo>, resolvers: map<nat, Resolve>, lastHost: string, context: Context, caster: Caster)

  datatype Step =
    | BuildAdd(appid: string, id: nat)
    | Greet(id: nat)
    | Arm
    | PollStart(host: string)
    | PollAbort
    | PollEnd(data: map<string, View>)
    | Store(appid: string)
    | Lock
    | Send(id: nat)
    | Unlock
    | CastEnd
    | Wake(id: nat)
    | Load(id: nat)
    | Quit(id: nat)
    | Close(id: nat)

  const INITIAL := Client(map[], map[], "", NoContext, Resting)

  /** Drops the zones without instances. */
  function Prune(v: View): View {
    View(v.lastTs, map z | z in v.instances && v.instances[z] != [] :: v.instances[z])
  }

  function SetResolve(c: Client, id: nat, r: Resolve): Client {
    c.(resolvers := c.resolvers[id := r])
  }

  /** The writers' side of the lock is free. */
  predicate Unlocked(c: Client) {
    !c.caster.Sending?
  }

  predicate Registered(c: Client, id: nat) {
    id in c.resolvers && c.resolvers[id].appid in c.apps
  }

  predicate Enabled(c: Client, s: Step) {
    if s.BuildAdd? then Unlocked(c) && s.id !in c.resolvers
    else if s.Greet? then s.id in c.resolvers && c.resolvers[s.id].greeting
    else if s.Arm? then c.caster.Resting? && c.context.NoContext?
    else if s.PollStart? then c.caster.Resting? && !c.context.NoContext?
    else if s.PollAbort? then c.caster.Polling? && c.context.Cancelled?
    else if s.PollEnd? then c.caster.Polling?
    else if s.Store? then c.caster.Casting? && s.appid in c.caster.pending
    else if s.Lock? then c.caster.Stored? && c.caster.appid in c.apps
    else if s.Send? then c.caster.Sending? && s.id in c.caster.todo && s.id in c.resolvers
    else if s.Unlock? then c.caster.Sending? && c.caster.todo == {}
    else if s.CastEnd? then c.caster.Casting? && c.caster.pending == map[]
    else if s.Wake? then s.id in c.resolvers && c.resolvers[s.id].phase.Waiting? && c.resolvers[s.id].event
    else if s.Load? then Registered(c, s.id) && c.resolvers[s.id].phase.Woken?
    else if s.Quit? then s.id in c.resolvers && c.resolvers[s.id].phase.Waiting?
    else Unlocked(c) && Registered(c, s.id) && s.id in c.apps[c.resolvers[s.id].appid].resolvers
  }

  /** A new resolver joins its application; only one that joins a known application
      is owed an event by its builder, and a new application cancels the polls. */
  function BuiltOn(c: Client, appid: string, id: nat): Client {
    var app := if appid in c.apps then c.apps[appid] else AppInfo(None, 0, 0, "", {});
    c.(apps := c.apps[appid := app.(resolvers := app.resolvers + {id})],
       resolvers := c.resolvers[id := Resolve(appid, false, appid in c.apps, Waiting, 0)],
       context := if appid !in c.apps && c.context.Live? then Cancelled else c.context)
  }

  /** Choosing another host forgets the timestamps of the previous one. */
  function PollStarted(c: Client, host: string): Client {
    var apps := if host == c.lastHost then c.apps else map a | a in c.apps :: c.apps[a].(lastTs := 0);
    Client(apps, c.resolvers, host, c.context, Polling(host, map a | a in apps :: apps[a].lastTs))
  }

  /** An answer with a zero timestamp is dropped as a whole. An error and an unchanged
      answer are the empty map. */
  function PollEnded(c: Client, data: map<string, View>): Client
    requires c.caster.Polling?
  {
    c.(caster := Casting(c.caster.host, if forall a | a in data :: data[a].lastTs != 0 then data else map[]))
  }

  /** Stores the next view, unless it is empty or its application is not watched. */
  function StoredView(c: Client, appid: string): Client
    requires c.caster.Casting? && appid in c.caster.pending
  {
    var host := c.caster.host;
    var rest := c.caster.pending - {appid};
    var v := Prune(c.caster.pending[appid]);
    if v.instances == map[] || appid !in c.apps then c.(caster := Casting(host, rest))
    else
      var app := c.apps[appid];
      c.(apps := c.apps[appid := AppInfo(Some(v), app.stamp + 1, v.lastTs, host, app.resolvers)],
         caster := Stored(host, rest, appid))
  }

  function Closed(c: Client, id: nat): Client
    requires Registered(c, id)
  {
    var a := c.resolvers[id].appid;
    c.(apps := c.apps[a := c.apps[a].(resolvers := c.apps[a].resolvers - {id})])
  }

  function Apply(c: Client, s: Step): Client
    requires Enabled(c, s)
  {
    if s.BuildAdd? then BuiltOn(c, s.appid, s.id)
    else if s.Greet? then SetResolve(c, s.id, c.resolvers[s.id].(event := true, greeting := false))
    else if s.Arm? then c.(context := Live)
    else if s.PollStart? then PollStarted(c, s.host)
    else if s.PollAbort? then c.(context := NoContext, caster := Resting)
    else if s.PollEnd? then PollEnded(c, s.data)
    else if s.Store? then StoredView(c, s.appid)
    else if s.Lock? then
      c.(caster := Sending(c.caster.host, c.caster.pending, c.caster.appid, c.apps[c.caster.appid].resolvers))
    else if s.Send? then
      SetResolve(c, s.id, c.resolvers[s.id].(event := true)).(caster := c.caster.(todo := c.caster.todo - {s.id}))
    else if s.Unlock? then c.(caster := Casting(c.caster.host, c.caster.pending))
    else if s.CastEnd? then c.(caster := Resting)
    else if s.Wake? then SetResolve(c, s.id, c.resolvers[s.id].(event := false, phase := Woken))
    else if s.Load? then
      SetResolve(c, s.id, c.resolvers[s.id].(phase := Waiting, seen := c.apps[c.resolvers[s.id].appid].stamp))
    else if s.Quit? then SetResolve(c, s.id, c.resolvers[s.id].(phase := Gone))
    else Closed(c, s.id)
  }

  /** `t` is reached from `c` by the steps, each enabled in its turn. */
  ghost predicate Run(c: Client, steps: seq<Step>, t: Client)
    decreases |steps|
  {
    if steps == [] then t == c
    else
      var n := |steps| - 1;
      exists m :: Run(c, steps[..n], m) && Enabled(m, steps[n]) && t == Apply(m, steps[n])
  }
}
