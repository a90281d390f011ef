/** The Discovery object: the handlers of discovery/register.go, which apply a
    request to the registry and then forward it, and the bootstrap of syncUp.go. */
module DiscoveryObject {
  import opened Sequences
  import opened Wrappers

  import opened Instances
  import opened RegistryModel
  import opened Bootstrap
  import opened Traversal
  import opened RegistryObject
  import opened NodesObject
  import Flood

  datatype Verdict = Agreed | NotHere | Conflict

  /** How a replicated heartbeat compares with the copy it met. */
  function Compare(sent: int, stored: int): Verdict {
    if sent < stored then Conflict else if sent > stored then NotHere else Agreed
  }

  /** The answer of a peer that was asked for everything it stores. */
  datatype Response = Failed | Snapshots(data: map<string, seq<Instance>>)

  /** `ids` walks over the groups of an answer. */
  ghost predicate ReadBy(answer: Response, ids: seq<string>) {
    match answer
    case Failed => ids == []
    case Snapshots(data) => Distinct(ids) && forall id :: id in ids <==> id in data
  }

  /** The first `n` answers were read in the given orders. */
  ghost predicate AllRead(answers: seq<Response>, order: seq<seq<string>>, n: nat) {
    n <= |answers| && n <= |order| && forall j :: 0 <= j < n ==> ReadBy(answers[j], order[j])
  }

  /** The instances of an answer, group by group. */
  ghost function Answered(answer: Response, ids: seq<string>): seq<Instance>
    requires ReadBy(answer, ids)
  {
    if answer.Failed? then [] else Concat(answer.data, ids)
  }

  /** The instances of the first `n` answers in the order they were read. */
  ghost function Received(answers: seq<Response>, order: seq<seq<string>>, n: nat): seq<Instance>
    requires AllRead(answers, order, n)
  {
    if n == 0 then [] else Received(answers, order, n - 1) + Answered(answers[n - 1], order[n - 1])
  }

  /** The first `n` answers have been registered into `s`, and that gave `t`. */
  ghost predicate ReadSoFar(s: State, answers: seq<Response>, order: seq<seq<string>>, n: nat, t: State) {
    AllRead(answers, order, n) && t == RegisterAll(s, Received(answers, order, n))
  }

  /** None of the first `n` peers answered. */
  ghost predicate AllFailed(answers: seq<Response>, n: nat) {
    forall j :: 0 <= j < n && j < |answers| ==> answers[j].Failed?
  }

  /** `ids` walks over the groups that are not left, and those have been registered. */
  ghost predicate GroupsRead(s: State, data: map<string, seq<Instance>>, left: set<string>, ids: seq<string>, v: State)
  {
    && left <= data.Keys && Distinct(ids) && (forall id :: id in ids <==> id in data && id !in left)
    && v == RegisterAll(s, Concat(data, ids))
  }

  class Discovery {
    const registry: Registry
    var nodes: Nodes
    const zone: string
    var protectedMode: bool

    ghost predicate Valid()
      reads this, nodes
    {
      nodes.Valid() && nodes.zone == zone
    }

    constructor (registry: Registry, nodes: Nodes, zone: string, enableProtect: bool)
      requires nodes.Valid() && nodes.zone == zone
      ensures Valid() && this.registry == registry && this.nodes == nodes && protectedMode == enableProtect
    {
      this.registry, this.nodes, this.zone, protectedMode := registry, nodes, zone, enableProtect;
    }

    /** `m` is the request as it arrived, with its replication and from_zone flags. */
    method Register(ins: Instance, latestTime: int, m: Flood.Msg) returns (sent: seq<Flood.Msg>)
      requires Valid() && registry.Valid()
      modifies registry, registry.gd, registry.entries, registry.units
      ensures registry.Valid()
      ensures fresh(registry.entries - old(registry.entries)) && fresh(registry.units - old(registry.units))
      ensures registry.Value() == RegistryModel.Register(old(registry.Value()), ins, latestTime)
      ensures Flood.Forwarded(nodes.View(), Flood.ByFlag, m, true, sent)
    {
      var offers := registry.Register(ins, latestTime);
      sent := Forward(Flood.ByFlag, true, m.fromZone, m);
    }

    method Renew(zone: string, env: string, appid: string, hostname: string, dirtyTs: int, now: int, m: Flood.Msg)
      returns (i: Option<Instance>, verdict: Verdict, sent: seq<Flood.Msg>, ghost pick: string)
      requires Valid() && registry.Valid()
      modifies registry, registry.gd, registry.units
      ensures registry.Valid()
      ensures (registry.Value(), i) == RegistryModel.Renew(old(registry.Value()), zone, env, appid, hostname, now, pick)
      ensures Flood.Forwarded(nodes.View(), Flood.ByZone(zone), m, i.Some?, sent)
      ensures verdict ==
        if i.None? then NotHere else if m.replication then Compare(dirtyTs, i.value.dirtyTs) else Agreed
    {
      i, pick := registry.Renew(zone, env, appid, hostname, now);
      verdict, sent := Judge(i, zone, dirtyTs, m);
    }

    /** Forwards a source request, and compares a copy with what it met. */
    method Judge(i: Option<Instance>, zone: string, dirtyTs: int, m: Flood.Msg)
      returns (verdict: Verdict, sent: seq<Flood.Msg>)
      requires Valid()
      ensures Flood.Forwarded(nodes.View(), Flood.ByZone(zone), m, i.Some?, sent)
      ensures verdict ==
        if i.None? then NotHere else if m.replication then Compare(dirtyTs, i.value.dirtyTs) else Agreed
    {
      sent, verdict := [], NotHere;
      if i.None? {
        return;
      }
      verdict := Agreed;
      if !m.replication {
        sent := nodes.Replicate(zone != this.zone, m.hops + 1);
      } else if dirtyTs < i.value.dirtyTs {
        verdict := Conflict;
      } else if dirtyTs > i.value.dirtyTs {
        verdict := NotHere;
      }
    }

    /** Forwards a source request that was applied. */
    method Forward(rule: Flood.Rule, ok: bool, otherZone: bool, m: Flood.Msg) returns (sent: seq<Flood.Msg>)
      requires Valid() && otherZone == Flood.OtherZone(rule, nodes.View(), m)
      ensures Flood.Forwarded(nodes.View(), rule, m, ok, sent)
    {
      sent := [];
      if ok && !m.replication {
        sent := nodes.Replicate(otherZone, m.hops + 1);
      }
    }

    method Cancel(zone: string, env: string, appid: string, hostname: string, lts: int, m: Flood.Msg)
      returns (i: Option<Instance>, sent: seq<Flood.Msg>, ghost pick: string)
      requires Valid() && registry.Valid()
      modifies registry, registry.gd, registry.entries, registry.units
      ensures registry.Valid()
      ensures (registry.Value(), i)
           == RegistryModel.Cancel(old(registry.Value()), zone, env, appid, hostname, lts, pick)
      ensures Flood.Forwarded(nodes.View(), Flood.ByZone(zone), m, i.Some?, sent)
    {
      var offers;
      i, offers, pick := registry.Cancel(zone, env, appid, hostname, lts);
      sent := Forward(Flood.ByZone(zone), i.Some?, zone != this.zone, m);
    }

    /** Set is forwarded even when it failed here. */
    method Set(arg: ArgSet, decode: Decoder, m: Flood.Msg) returns (ok: bool, sent: seq<Flood.Msg>, ghost pick: string)
      requires Valid() && registry.Valid() && arg.Valid()
      modifies registry, registry.units
      ensures registry.Valid()
      ensures (registry.Value(), ok) == RegistryModel.Set(old(registry.Value()), arg, decode, pick)
      ensures Flood.Forwarded(nodes.View(), Flood.ByFlag, m, true, sent)
    {
      var offers;
      ok, offers, pick := registry.Set(arg, decode);
      sent := Forward(Flood.ByFlag, true, m.fromZone, m);
    }

    /** Registers everything the peers answered; one answer ends the protected mode. */
    method SyncUp(answers: seq<Response>) returns (ghost order: seq<seq<string>>)
      requires Valid() && registry.Valid()
      modifies this`protectedMode, registry, registry.gd, registry.entries, registry.units, nodes`nodes
      ensures registry.Valid()
      ensures fresh(registry.entries - old(registry.entries)) && fresh(registry.units - old(registry.units))
      ensures Valid() && nodes.View() == old(nodes.View())
      ensures |order| == |answers| && AllRead(answers, order, |answers|)
      ensures registry.Value() == RegisterAll(old(registry.Value()), Received(answers, order, |answers|))
      ensures protectedMode == (old(protectedMode) && forall j :: 0 <= j < |answers| ==> answers[j].Failed?)
    {
      order := RegisterAnswers(answers);
      nodes.MarkUp();
    }

    method RegisterAnswers(answers: seq<Response>) returns (ghost order: seq<seq<string>>)
      requires registry.Valid()
      modifies this`protectedMode, registry, registry.gd, registry.entries, registry.units
      ensures registry.Valid()
      ensures fresh(registry.entries - old(registry.entries)) && fresh(registry.units - old(registry.units))
      ensures |order| == |answers|
      ensures ReadSoFar(old(registry.Value()), answers, order, |answers|, registry.Value()) == true
      ensures protectedMode == (old(protectedMode) && AllFailed(answers, |answers|))
    {
      order := [];
      ghost var s, on := registry.Value(), protectedMode;
      var n := 0;
      while n < |answers|
        invariant 0 <= n <= |answers| && |order| == n
        invariant registry.Valid()
        invariant fresh(registry.entries - old(registry.entries)) && fresh(registry.units - old(registry.units))
        invariant ReadSoFar(s, answers, order, n, registry.Value()) == true
        invariant protectedMode == (on && AllFailed(answers, n))
      {
        order := RegisterNext(answers, n, s, order);
        n := n + 1;
      }
    }

    /** Registers the next answer, after those read in `order`. */
    method RegisterNext(answers: seq<Response>, n: nat, ghost s: State, ghost order: seq<seq<string>>)
      returns (ghost more: seq<seq<string>>)
      requires registry.Valid() && |order| == n < |answers| && ReadSoFar(s, answers, order, n, registry.Value())
      modifies this`protectedMode, registry, registry.gd, registry.entries, registry.units
      ensures registry.Valid()
      ensures fresh(registry.entries - old(registry.entries)) && fresh(registry.units - old(registry.units))
      ensures |more| == n + 1 && ReadSoFar(s, answers, more, n + 1, registry.Value()) == true
      ensures protectedMode <==> old(protectedMode) && answers[n].Failed?
    {
      ghost var ids := RegisterAnswer(answers[n]);
      ReceivedMore(s, answers, order, ids);
      more := order + [ids];
      if answers[n].Snapshots? {
        protectedMode := false;
      }
    }

    /** The inner loops of syncUp, over one answer. */
    method RegisterAnswer(answer: Response) returns (ghost ids: seq<string>)
      requires registry.Valid()
      modifies registry, registry.gd, registry.entries, registry.units
      ensures registry.Valid()
      ensures fresh(registry.entries - old(registry.entries)) && fresh(registry.units - old(registry.units))
      ensures ReadBy(answer, ids)
      ensures registry.Value() == RegisterAll(old(registry.Value()), Answered(answer, ids))
    {
      ids := [];
      if answer.Failed? {
        return;
      }
      var data := answer.data;
      ghost var s := registry.Value();
      var left := data.Keys;
      while left != {}
        invariant registry.Valid()
        invariant fresh(registry.entries - old(registry.entries)) && fresh(registry.units - old(registry.units))
        invariant GroupsRead(s, data, left, ids, registry.Value()) == true
        decreases |left|
      {
        var id :| id in left;
        RegisterGroup(data, left, ids, id, s);
        left, ids := left - {id}, ids + [id];
      }
    }

    method RegisterGroup(data: map<string, seq<Instance>>, ghost left: set<string>, ghost ids: seq<string>, id: string,
                         ghost s: State)
      requires registry.Valid() && GroupsRead(s, data, left, ids, registry.Value()) && id in left && id in data
      modifies registry, registry.gd, registry.entries, registry.units
      ensures registry.Valid()
      ensures fresh(registry.entries - old(registry.entries)) && fresh(registry.units - old(registry.units))
      ensures GroupsRead(s, data, left - {id}, ids + [id], registry.Value()) == true
    {
      RegisterList(data[id]);
      ConcatSnoc(s, data, ids, id);
    }

    method RegisterList(list: seq<Instance>)
      requires registry.Valid()
      modifies registry, registry.gd, registry.entries, registry.units
      ensures registry.Valid()
      ensures fresh(registry.entries - old(registry.entries)) && fresh(registry.units - old(registry.units))
      ensures registry.Value() == RegisterAll(old(registry.Value()), list)
    {
      ghost var s := registry.Value();
      var i := 0;
      while i < |list|
        invariant 0 <= i <= |list|
        invariant registry.Valid()
        invariant fresh(registry.entries - old(registry.entries)) && fresh(registry.units - old(registry.units))
        invariant registry.Value() == RegisterAll(s, list[..i])
      {
        RegisterNth(list, i, s);
        i := i + 1;
      }
      assert list[..i] == list;
    }

    method RegisterNth(list: seq<Instance>, i: nat, ghost s: State)
      requires registry.Valid() && i < |list| && registry.Value() == RegisterAll(s, list[..i])
      modifies registry, registry.gd, registry.entries, registry.units
      ensures registry.Valid()
      ensures fresh(registry.entries - old(registry.entries)) && fresh(registry.units - old(registry.units))
      ensures registry.Value() == RegisterAll(s, list[..i + 1])
    {
      assert list[..i + 1][..i] == list[..i];
      var sent := registry.Register(list[i], list[i].latestTs);
    }
  }

  lemma ConcatSnoc(s: State, data: map<string, seq<Instance>>, ids: seq<string>, id: string)
    requires id in data && forall x | x in ids :: x in data
    ensures forall x | x in ids + [id] :: x in data
    ensures RegisterAll(s, Concat(data, ids + [id])) == RegisterAll(RegisterAll(s, Concat(data, ids)), data[id])
  {
    assert (ids + [id])[..|ids|] == ids;
    RegisterAllConcat(s, Concat(data, ids), data[id]);
  }

  lemma {:induction false} RegisterAllConcat(s: State, p: seq<Instance>, q: seq<Instance>)
    ensures RegisterAll(RegisterAll(s, p), q) == RegisterAll(s, p + q)
    decreases |q|
  {
    if q == [] {
      assert p + q == p;
    } else {
      var n := |q| - 1;
      RegisterAllConcat(s, p, q[..n]);
      assert (p + q)[..|p + q| - 1] == p + q[..n];
    }
  }

  lemma {:induction false} ReceivedPrefix(answers: seq<Response>, order: seq<seq<string>>, ids: seq<string>, n: nat)
    requires AllRead(answers, order, n)
    ensures AllRead(answers, order + [ids], n)
    ensures Received(answers, order + [ids], n) == Received(answers, order, n)
  {
    if n > 0 {
      ReceivedPrefix(answers, order, ids, n - 1);
    }
  }

  lemma ReceivedSnoc(answers: seq<Response>, order: seq<seq<string>>, ids: seq<string>)
    requires AllRead(answers, order, |order|) && |order| < |answers| && ReadBy(answers[|order|], ids)
    ensures AllRead(answers, order + [ids], |order| + 1)
    ensures Received(answers, order + [ids], |order| + 1)
         == Received(answers, order, |order|) + Answered(answers[|order|], ids)
  {
    ReceivedPrefix(answers, order, ids, |order|);
  }

  lemma ReceivedMore(s: State, answers: seq<Response>, order: seq<seq<string>>, ids: seq<string>)
    requires AllRead(answers, order, |order|) && |order| < |answers| && ReadBy(answers[|order|], ids)
    ensures
      var n := |order|;
      && AllRead(answers, order + [ids], n + 1)
      && RegisterAll(s, Received(answers, order + [ids], n + 1))
        == RegisterAll(RegisterAll(s, Received(answers, order, n)), Answered(answers[n], ids))
  {
    var n := |order|;
    ReceivedSnoc(answers, order, ids);
    RegisterAllConcat(s, Received(answers, order, n), Answered(answers[n], ids));
  }

  // ----- what the bootstrap leaves behind -----

  /** Some group of some of the first `n` answers holds the instance. */
  ghost predicate AnsweredWith(answers: seq<Response>, n: nat, i: Instance)
    requires n <= |answers|
  {
    exists j :: 0 <= j < n && Holds(answers[j], i)
  }

  ghost predicate Holds(answer: Response, i: Instance) {
    exists id :: InGroup(answer, id, i)
  }

  predicate InGroup(answer: Response, id: string, i: Instance) {
    answer.Snapshots? && id in answer.data && i in answer.data[id]
  }

  lemma {:induction false} ConcatAre(data: map<string, seq<Instance>>, ids: seq<string>, i: Instance)
    requires forall id | id in ids :: id in data
    ensures i in Concat(data, ids) <==> exists id :: id in ids && i in data[id]
  {
    if ids != [] {
      var n := |ids| - 1;
      ConcatAre(data, ids[..n], i);
      assert ids == ids[..n] + [ids[n]];
    }
  }

  lemma AnsweredAre(answer: Response, ids: seq<string>, i: Instance)
    requires ReadBy(answer, ids)
    ensures i in Answered(answer, ids) <==> Holds(answer, i)
  {
    if answer.Snapshots? {
      ConcatAre(answer.data, ids, i);
      if i in Concat(answer.data, ids) {
        var id :| id in ids && i in answer.data[id];
        assert InGroup(answer, id, i);
      }
    }
  }

  lemma OneMoreReceived(answers: seq<Response>, order: seq<seq<string>>, n: nat, i: Instance)
    requires AllRead(answers, order, n + 1)
    ensures i in Received(answers, order, n + 1) <==> i in Received(answers, order, n) || Holds(answers[n], i)
  {
    assert ReadBy(answers[n], order[n]);
    AnsweredAre(answers[n], order[n], i);
  }

  lemma {:induction false} FromSome(answers: seq<Response>, order: seq<seq<string>>, n: nat, i: Instance)
    returns (j: nat)
    requires AllRead(answers, order, n) && i in Received(answers, order, n)
    ensures j < n && Holds(answers[j], i)
    decreases n
  {
    OneMoreReceived(answers, order, n - 1, i);
    j := n - 1;
    if !Holds(answers[j], i) {
      j := FromSome(answers, order, n - 1, i);
    }
  }

  lemma {:induction false} FromEach(answers: seq<Response>, order: seq<seq<string>>, n: nat, i: Instance, j: nat)
    requires AllRead(answers, order, n) && j < n && Holds(answers[j], i)
    ensures i in Received(answers, order, n)
    decreases n
  {
    OneMoreReceived(answers, order, n - 1, i);
    if j < n - 1 {
      FromEach(answers, order, n - 1, i, j);
    }
  }

  lemma ReceivedAre(answers: seq<Response>, order: seq<seq<string>>, n: nat, i: Instance)
    requires AllRead(answers, order, n)
    ensures i in Received(answers, order, n) <==> AnsweredWith(answers, n, i)
  {
    if i in Received(answers, order, n) {
      var j := FromSome(answers, order, n, i);
    }
    if AnsweredWith(answers, n, i) {
      var j :| 0 <= j < n && Holds(answers[j], i);
      FromEach(answers, order, n, i, j);
    }
  }

  lemma {:induction false} ArrivalsAre(list: seq<Instance>, l: Loc, i: Instance)
    ensures i in Arrivals(list, l) <==> i in list && LocOf(i) == l
  {
    if list != [] {
      var n := |list| - 1;
      ArrivalsAre(list[..n], l, i);
      assert list == list[..n] + [list[n]];
    }
  }

  /** After the bootstrap a path is filled exactly when it was before or some answer holds an
      instance for it; it then holds one of those, up to the UpTimestamp, and none of them has
      a larger LatestTimestamp. */
  lemma SyncedUp(s: State, answers: seq<Response>, order: seq<seq<string>>, l: Loc)
    requires AllRead(answers, order, |answers|)
    ensures
      var s' := RegisterAll(s, Received(answers, order, |answers|));
      && (Has(s', l) <==> Has(s, l) || exists i :: AnsweredWith(answers, |answers|, i) && LocOf(i) == l)
      && (Has(s', l) ==>
            && (exists i ::
                  && (Holder(s, l) == Some(i) || (AnsweredWith(answers, |answers|, i) && LocOf(i) == l))
                  && Holder(s', l).value == i.(upTs := Holder(s', l).value.upTs))
            && (Has(s, l) ==> Holder(s, l).value.latestTs <= Holder(s', l).value.latestTs)
            && (forall i | AnsweredWith(answers, |answers|, i) && LocOf(i) == l ::
                  i.latestTs <= Holder(s', l).value.latestTs))
  {
    var list := Received(answers, order, |answers|);
    forall i ensures i in Arrivals(list, l) <==> AnsweredWith(answers, |answers|, i) && LocOf(i) == l {
      ReceivedAre(answers, order, |answers|, i);
      ArrivalsAre(list, l, i);
    }
    HolderAfterAll(s, list, l);
    if Has(s, l) || Arrivals(list, l) != [] {
      var w := MergeKeepsNewest(s, list, l);
      HeldBefore(s, list, l, w);
    }
  }

  /** The winner at a path, among what was held and what arrived. */
  lemma HeldBefore(s: State, list: seq<Instance>, l: Loc, w: nat)
    requires
      var all := (if Has(s, l) then [Holder(s, l).value] else []) + Arrivals(list, l);
      && w < |all| && LastMaximal(all, w)
      && Holder(RegisterAll(s, list), l) == Some(all[w].(upTs := all[0].upTs))
    ensures
      var h := Holder(RegisterAll(s, list), l).value;
      && (Has(s, l) ==> Holder(s, l).value.latestTs <= h.latestTs)
      && (forall i | i in Arrivals(list, l) :: i.latestTs <= h.latestTs)
      && exists i :: (Holder(s, l) == Some(i) || i in Arrivals(list, l)) && h == i.(upTs := h.upTs)
  {
    Dominates(if Has(s, l) then [Holder(s, l).value] else [], Arrivals(list, l), w);
  }

  lemma Dominates(held: seq<Instance>, more: seq<Instance>, w: nat)
    requires w < |held + more| && LastMaximal(held + more, w)
    ensures
      var top := (held + more)[w];
      && (top in held || top in more)
      && forall i :: i in held || i in more ==> i.latestTs <= top.latestTs
  {
    forall i | i in held || i in more ensures i.latestTs <= (held + more)[w].latestTs {
      if i in held {
        var j: nat :| j < |held| && held[j] == i;
        assert (held + more)[j] == i;
      } else {
        var j: nat :| j < |more| && more[j] == i;
        assert (held + more)[|held| + j] == i;
      }
    }
  }
}
