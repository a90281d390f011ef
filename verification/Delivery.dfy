/** What becomes of an answer: which views are stored, which resolvers are told, and from
    where the next poll asks. */
module Delivery {
  import opened Wrappers

  import opened ClientModel
  import opened Wakeup
  import opened ClientObject

  /** An answer is usable when every view in it carries a timestamp. */
  ghost predicate Usable(answer: map<string, View>) {
    forall a | a in answer :: answer[a].lastTs != 0
  }

  ghost predicate HasInstances(v: View) {
    exists z :: z in v.instances && |v.instances[z]| > 0
  }

  /** The stored view: the answered timestamp, and the answered zones that have instances. */
  ghost predicate StoredFrom(v: View, answered: View) {
    && v.lastTs == answered.lastTs
    && (forall z :: z in v.instances <==> z in answered.instances && |answered.instances[z]| > 0)
    && (forall z | z in v.instances :: v.instances[z] == answered.instances[z])
  }

  lemma PrunedIsStored(v: View)
    ensures StoredFrom(Prune(v), v)
    ensures Prune(v).instances != map[] <==> HasInstances(v)
  {
    if HasInstances(v) {
      var z :| z in v.instances && |v.instances[z]| > 0;
      assert z in Prune(v).instances;
    }
    if Prune(v).instances != map[] {
      assert Prune(v).instances.Keys != {};
      var z :| z in Prune(v).instances;
      assert z in v.instances && |v.instances[z]| > 0;
    }
  }

  /** The application was watched and the answer has instances for it. */
  ghost predicate News(c: Client, answer: map<string, View>, a: string) {
    Usable(answer) && a in answer && a in c.apps && HasInstances(answer[a])
  }

  /** What the answer of `host` makes of a watched application. */
  ghost predicate TakenIn(c: Client, host: string, answer: map<string, View>, a: string, after: AppInfo)
    requires a in c.apps
  {
    if News(c, answer, a) then
      && after.view.Some? && StoredFrom(after.view.value, answer[a])
      && after.lastTs == answer[a].lastTs && after.origin == host && after.stamp == c.apps[a].stamp + 1
    else
      && after.view == c.apps[a].view && after.stamp == c.apps[a].stamp && after.origin == c.apps[a].origin
      && after.lastTs == if host == c.lastHost then c.apps[a].lastTs else 0
  }

  lemma TakenInOne(c: Client, host: string, answer: map<string, View>, a: string)
    requires c.caster.Resting? && a in c.apps
    ensures
      var c1 := PollEnded(PollStarted(c, host), answer);
      var data := c1.caster.pending;
      var c2 := CastUpTo(c1, data, data.Keys);
      a in c2.apps && TakenIn(c, host, answer, a, c2.apps[a]) && c2.apps[a].resolvers == c.apps[a].resolvers
  {
    if a in answer {
      PrunedIsStored(answer[a]);
    }
  }

  lemma ToldOne(c: Client, host: string, answer: map<string, View>, id: nat)
    requires c.caster.Resting? && id in c.resolvers
    ensures
      var c1 := PollEnded(PollStarted(c, host), answer);
      var data := c1.caster.pending;
      var c2 := CastUpTo(c1, data, data.Keys);
      var told := Open(c, id) && News(c, answer, c.resolvers[id].appid);
      id in c2.resolvers && c2.resolvers[id] == c.resolvers[id].(event := c.resolvers[id].event || told)
  {
    if c.resolvers[id].appid in answer {
      PrunedIsStored(answer[c.resolvers[id].appid]);
    }
  }

  /** A poll and the broadcast after it. The answer is handed on unchanged if it is usable,
      else nothing is; every watched application with instances in it ends with that view,
      its timestamp and its host, every other one keeps what it had; and exactly the open
      resolvers of the former are told. */
  lemma PollThenBroadcast(c: Client, host: string, answer: map<string, View>)
    requires c.caster.Resting?
    ensures
      var c1 := PollEnded(PollStarted(c, host), answer);
      var data := c1.caster.pending;
      var c2 := CastUpTo(c1, data, data.Keys);
      && data == (if Usable(answer) then answer else map[])
      && c2.apps.Keys == c.apps.Keys && c2.resolvers.Keys == c.resolvers.Keys
      && (forall a | a in c.apps :: a in c2.apps && TakenIn(c, host, answer, a, c2.apps[a]))
      && (forall id | id in c.resolvers ::
            var told := Open(c, id) && News(c, answer, c.resolvers[id].appid);
            id in c2.resolvers && c2.resolvers[id] == c.resolvers[id].(event := c.resolvers[id].event || told))
  {
    forall a | a in c.apps {
      TakenInOne(c, host, answer, a);
    }
    forall id | id in c.resolvers {
      ToldOne(c, host, answer, id);
    }
  }

  // ----- in every interleaving -----

  /** The goroutine is between the end of a poll and the end of its broadcast. */
  predicate Busy(c: Client) {
    c.caster.Casting? || c.caster.Stored? || c.caster.Sending?
  }

  /** An application of the answer is still to be stored, or it has been. */
  ghost predicate OnItsWay(c: Client, answer: map<string, View>, a: string, t: Client)
    requires Busy(t)
  {
    if News(c, answer, a) then
      || (a in t.caster.pending && t.caster.pending[a] == answer[a])
      || (a in t.apps && t.apps[a].view.Some? && StoredFrom(t.apps[a].view.value, answer[a])
          && t.apps[a].lastTs == answer[a].lastTs && t.apps[a].origin == t.caster.host)
    else a in c.apps ==> a in t.apps && t.apps[a].view == c.apps[a].view
  }

  ghost predicate Delivering(c: Client, answer: map<string, View>, t: Client)
    requires c.caster.Polling?
  {
    && Busy(t) && t.caster.host == c.caster.host && c.apps.Keys <= t.apps.Keys
    && (forall a | a in t.caster.pending :: Usable(answer) && a in answer && t.caster.pending[a] == answer[a])
    && (forall a | a in c.apps :: OnItsWay(c, answer, a, t))
  }

  lemma StoreDelivers(c: Client, answer: map<string, View>, t: Client, b: string)
    requires c.caster.Polling? && Delivering(c, answer, t) && t.caster.Casting? && b in t.caster.pending
    ensures Delivering(c, answer, StoredView(t, b))
  {
    PrunedIsStored(t.caster.pending[b]);
    forall a | a in c.apps ensures OnItsWay(c, answer, a, StoredView(t, b)) {
      assert OnItsWay(c, answer, a, t);
    }
  }

  lemma StepDelivers(c: Client, answer: map<string, View>, t: Client, s: Step)
    requires c.caster.Polling? && Delivering(c, answer, t) && Enabled(t, s) && !s.CastEnd?
    ensures Delivering(c, answer, Apply(t, s))
  {
    if s.Store? {
      StoreDelivers(c, answer, t, s.appid);
    } else {
      forall a | a in c.apps ensures OnItsWay(c, answer, a, Apply(t, s)) {
        assert OnItsWay(c, answer, a, t);
      }
    }
  }

  lemma {:induction false} RunDelivers(c: Client, answer: map<string, View>, steps: seq<Step>, t: Client)
    requires c.caster.Polling? && Run(PollEnded(c, answer), steps, t) && forall s | s in steps :: !s.CastEnd?
    ensures Delivering(c, answer, t)
    decreases |steps|
  {
    if steps != [] {
      var n := |steps| - 1;
      var m :| Run(PollEnded(c, answer), steps[..n], m) && Enabled(m, steps[n]) && t == Apply(m, steps[n]);
      assert steps[n] in steps;
      RunDelivers(c, answer, steps[..n], m);
      StepDelivers(c, answer, m, steps[n]);
    }
  }

  /** Whatever builders, watchers and closes do in between: when the broadcast of an answer
      can end, every application that was watched when the poll ended and has instances in
      the answer holds that view, with its timestamp and from that host; every other one
      that was watched holds what it did. */
  lemma AnswerIsDelivered(c: Client, answer: map<string, View>, steps: seq<Step>, t: Client, a: string)
    requires c.caster.Polling? && Run(PollEnded(c, answer), steps, t) && forall s | s in steps :: !s.CastEnd?
    requires Enabled(t, CastEnd) && a in c.apps
    ensures a in t.apps
    ensures News(c, answer, a) ==>
      && t.apps[a].view.Some? && StoredFrom(t.apps[a].view.value, answer[a])
      && t.apps[a].lastTs == answer[a].lastTs && t.apps[a].origin == c.caster.host
    ensures !News(c, answer, a) ==> t.apps[a].view == c.apps[a].view
  {
    RunDelivers(c, answer, steps, t);
    assert OnItsWay(c, answer, a, t);
  }

  // ----- the next poll -----

  /** No view of `a` is stored and no other host is polled. */
  ghost predicate Keeps(steps: seq<Step>, a: string, host: string) {
    forall s | s in steps :: (s.Store? ==> s.appid != a) && (s.PollStart? ==> s.host == host)
  }

  lemma StepKeepsTimestamp(c: Client, s: Step, a: string)
    requires Enabled(c, s) && a in c.apps && (s.Store? ==> s.appid != a) && (s.PollStart? ==> s.host == c.lastHost)
    ensures
      var t := Apply(c, s);
      && t.lastHost == c.lastHost && a in t.apps
      && t.apps[a].lastTs == c.apps[a].lastTs && t.apps[a].view == c.apps[a].view
  {}

  lemma {:induction false} TimestampKept(c: Client, steps: seq<Step>, t: Client, a: string)
    requires Run(c, steps, t) && a in c.apps && Keeps(steps, a, c.lastHost)
    ensures t.lastHost == c.lastHost && a in t.apps && t.apps[a].lastTs == c.apps[a].lastTs
    ensures t.apps[a].view == c.apps[a].view
    decreases |steps|
  {
    if steps != [] {
      var n := |steps| - 1;
      var m :| Run(c, steps[..n], m) && Enabled(m, steps[n]) && t == Apply(m, steps[n]);
      assert steps[n] in steps;
      TimestampKept(c, steps[..n], m, a);
      StepKeepsTimestamp(m, steps[n], a);
    }
  }

  /** Until its next view is stored and while the host stays, every poll asks for an
      application from the timestamp that its view was stored with; a poll of another host
      asks for everything from the beginning. */
  lemma NextPollAsksFrom(c: Client, steps: seq<Step>, t: Client, a: string, host: string)
    requires Run(c, steps, t) && a in c.apps && Keeps(steps, a, c.lastHost) && Enabled(t, PollStart(host))
    ensures
      var asked := Apply(t, PollStart(host)).caster.asked;
      && asked.Keys == t.apps.Keys && a in asked
      && asked[a] == (if host == c.lastHost then c.apps[a].lastTs else 0)
      && (host != c.lastHost ==> forall b | b in asked :: asked[b] == 0)
  {
    TimestampKept(c, steps, t, a);
  }

  // ----- resolvers -----

  /** A resolver is open from when it was built, with an event owed to it exactly when its
      application was known, and it stays open until it is closed. */
  lemma BuiltIsOpen(c: Client, appid: string, id: nat)
    requires Enabled(c, BuildAdd(appid, id))
    ensures
      var c' := BuiltOn(c, appid, id);
      && Open(c', id) && c'.resolvers[id].appid == appid && (c'.resolvers[id].greeting <==> appid in c.apps)
      && (forall i | Open(c, i) :: Open(c', i) && c'.resolvers[i] == c.resolvers[i])
      && (forall i | Open(c', i) && i != id :: i in c.resolvers && Open(c, i))
      && (forall a | a in c.apps :: a in c'.apps && c'.apps[a].view == c.apps[a].view)
  {}

  lemma StepKeepsOpen(c: Client, s: Step, id: nat)
    requires Enabled(c, s) && Open(c, id) && s != Step.Close(id)
    ensures Open(Apply(c, s), id) && Apply(c, s).resolvers[id].appid == c.resolvers[id].appid
  {}

  lemma {:induction false} OpenUntilClosed(c: Client, steps: seq<Step>, t: Client, id: nat)
    requires Run(c, steps, t) && Open(c, id) && Step.Close(id) !in steps
    ensures Open(t, id) && t.resolvers[id].appid == c.resolvers[id].appid
    decreases |steps|
  {
    if steps != [] {
      var n := |steps| - 1;
      var m :| Run(c, steps[..n], m) && Enabled(m, steps[n]) && t == Apply(m, steps[n]);
      assert steps[n] in steps;
      OpenUntilClosed(c, steps[..n], m, id);
      StepKeepsOpen(m, steps[n], id);
    }
  }

  /** Closing takes that resolver off and no other. */
  lemma ClosedIsGone(c: Client, id: nat, other: nat)
    requires Open(c, id)
    ensures !Open(Closed(c, id), id)
    ensures other != id ==> (Open(Closed(c, id), other) <==> Open(c, other))
  {}
}
