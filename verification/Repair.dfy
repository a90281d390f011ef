/** What one replicated heartbeat does to two copies of an instance that have
    drifted apart: Node.Renew of registry/node.go against Discovery.Renew. */
module Repair {
  import opened Wrappers

  import opened Keys
  import opened Instances
  import opened RegistryModel
  import opened Structure
  import opened NodesObject
  import opened DiscoveryObject

  /** What Node.call hands back to Node.Renew. */
  datatype CallResult = Done | ServerError | NothingFoundThere | ConflictThere(res: Option<Instance>)

  /** The registration that follows: the sender's copy at the peer, or the peer's
      copy at the sender's own address. */
  datatype Followup = Nothing | AtPeer(i: Instance) | AtSelf(i: Instance)

  class Node {
    var status: NodeStatus

    constructor ()
      ensures status == Lost
    {
      status := Lost;
    }

    method Renew(i: Instance, answer: CallResult) returns (next: Followup)
      modifies this
      ensures status == if answer.ServerError? then Lost else Up
      ensures next == FollowupOf(i, answer)
    {
      next := Nothing;
      if answer.ServerError? {
        status := Lost;
        return;
      }
      status := Up;
      if answer.NothingFoundThere? {
        next := AtPeer(i);
      } else if answer.ConflictThere? && answer.res.Some? {
        next := AtSelf(answer.res.value);
      }
    }
  }

  function FollowupOf(i: Instance, answer: CallResult): Followup {
    match answer
    case NothingFoundThere => AtPeer(i)
    case ConflictThere(Some(res)) => AtSelf(res)
    case _ => Nothing
  }

  /** What a registration gets on its way: the status that the request carries, and the
      receiver's clock. */
  datatype Wire = Wire(status: bv32, stamp: int)

  /** Node.call sends no status, so as committed a request carries 0. */
  const STATUS_UNSENT: bv32 := 0

  /** The register handler's first guard. */
  predicate Admitted(wire: Wire) {
    wire.status == STATUS_UP || wire.status == STATUS_WAITING
  }

  /** A registration that arrives over the wire: with the status that was sent, stamped
      with the receiver's clock, keeping the sender's DirtyTimestamp if it has one. */
  function Restamped(i: Instance, wire: Wire): Instance {
    i.(status := wire.status, regTs := wire.stamp, upTs := wire.stamp, renewTs := wire.stamp, latestTs := wire.stamp,
       dirtyTs := if i.dirtyTs > 0 then i.dirtyTs else wire.stamp)
  }

  /** The answer of a peer that holds `replica`. A node of the origin's own zone gets a
      copy and compares; a relay in another zone gets a source request and does not. */
  function PeerVerdict(origin: Instance, replica: Option<Instance>, copy: bool): Verdict {
    match replica
    case None => NotHere
    case Some(r) => if copy then Compare(origin.dirtyTs, r.dirtyTs) else Agreed
  }

  /** The call result when the peer's answer comes through. */
  function Faithful(origin: Instance, replica: Option<Instance>, copy: bool): CallResult {
    match PeerVerdict(origin, replica, copy)
    case Agreed => Done
    case NotHere => NothingFoundThere
    case Conflict => ConflictThere(replica)
  }

  /** What a receiver holds after a registration: the handler refuses it, or it is merged. */
  function Received(holder: Option<Instance>, i: Instance, wire: Wire): Option<Instance> {
    if Admitted(wire) then Some(Merge(holder, Restamped(i, wire))) else holder
  }

  /** Both copies after the heartbeat and the registration it may cause. */
  function AfterRound(origin: Instance, replica: Option<Instance>, answer: CallResult, wire: Wire):
    (Instance, Option<Instance>)
  {
    match FollowupOf(origin, answer)
    case Nothing => (origin, replica)
    case AtPeer(i) => (origin, Received(replica, i, wire))
    case AtSelf(i) => (Received(Some(origin), i, wire).value, replica)
  }

  function Larger(a: int, b: int): int {
    if a < b then b else a
  }

  /** Both sides hold the same, larger DirtyTimestamp. */
  predicate Converged(origin: Instance, replica: Option<Instance>, origin': Instance, replica': Option<Instance>) {
    && replica'.Some?
    && origin'.dirtyTs == replica'.value.dirtyTs
    && origin'.dirtyTs == (if replica.Some? then Larger(origin.dirtyTs, replica.value.dirtyTs) else origin.dirtyTs)
  }

  /** The registration is taken: its status passes the handler's guard, its stamp is not
      behind the copy it meets, and its DirtyTimestamp survives the wire. */
  predicate Accepted(sender: Instance, receiver: Option<Instance>, wire: Wire) {
    && Admitted(wire)
    && (receiver.Some? ==> wire.stamp >= receiver.value.latestTs)
    && (sender.dirtyTs > 0 || sender.dirtyTs == wire.stamp)
  }

  /** When a heartbeat repairs the pair: the peer is missing the instance and takes the
      origin's; or it holds one, was sent a copy, and they agree or the side with the
      smaller DirtyTimestamp takes the other's; or it is a relay, never asked to compare,
      and they agree already. */
  predicate Repairs(origin: Instance, replica: Option<Instance>, copy: bool, wire: Wire) {
    match PeerVerdict(origin, replica, copy)
    case Agreed => replica.Some? && origin.dirtyTs == replica.value.dirtyTs
    case NotHere => Accepted(origin, replica, wire)
    case Conflict => replica.Some? && Accepted(replica.value, Some(origin), wire)
  }

  /** If the peer's answer comes through, one heartbeat repairs the pair exactly then. */
  lemma OneRoundRepairsIff(origin: Instance, replica: Option<Instance>, copy: bool, wire: Wire)
    ensures
      var (origin', replica') := AfterRound(origin, replica, Faithful(origin, replica, copy), wire);
      Converged(origin, replica, origin', replica') <==> Repairs(origin, replica, copy, wire)
  {
    var (origin', replica') := AfterRound(origin, replica, Faithful(origin, replica, copy), wire);
    match PeerVerdict(origin, replica, copy) {
      case Agreed =>
      case NotHere => assert replica' == Received(replica, origin, wire);
      case Conflict => assert origin' == Received(Some(origin), replica.value, wire).value;
    }
  }

  /** What the side that lacks a copy, or holds an older one, takes over in a repair: the
      other side's copy, with the status that was sent and its own clock in every timestamp
      but two. A DirtyTimestamp that was sent stays, and so does the UpTimestamp of a copy
      that was there. */
  lemma TakenOver(origin: Instance, replica: Option<Instance>, wire: Wire)
    requires wire.status == 1 || wire.status == 2
    ensures
      var (origin', replica') := AfterRound(origin, replica, Faithful(origin, replica, true), wire);
      var now := wire.stamp;
      && (replica.None? ==>
            && origin' == origin
            && replica' == Some(origin.(
                 status := wire.status, regTs := now, upTs := now, renewTs := now, latestTs := now,
                 dirtyTs := if origin.dirtyTs > 0 then origin.dirtyTs else now)))
      && (replica.Some? && replica.value.dirtyTs < origin.dirtyTs && now >= replica.value.latestTs ==>
            && origin' == origin
            && replica' == Some(origin.(
                 status := wire.status, regTs := now, upTs := replica.value.upTs, renewTs := now, latestTs := now,
                 dirtyTs := if origin.dirtyTs > 0 then origin.dirtyTs else now)))
      && (replica.Some? && replica.value.dirtyTs > origin.dirtyTs && now >= origin.latestTs ==>
            && replica' == replica
            && origin' == replica.value.(
                 status := wire.status, regTs := now, upTs := origin.upTs, renewTs := now, latestTs := now,
                 dirtyTs := if replica.value.dirtyTs > 0 then replica.value.dirtyTs else now))
      && (replica.Some? && replica.value.dirtyTs == origin.dirtyTs ==> origin' == origin && replica' == replica)
  {}

  /** The origin never repairs a divergent copy that a relay holds. */
  lemma RelayNeverRepairs(origin: Instance, r: Instance, wire: Wire)
    requires origin.dirtyTs != r.dirtyTs
    ensures AfterRound(origin, Some(r), Faithful(origin, Some(r), false), wire) == (origin, Some(r))
  {}

  /** Node.call reads the peer's code but never returns it, so as committed a
      heartbeat changes neither copy, and the pair agrees afterwards exactly
      when it agreed before. */
  lemma AsCommittedNothingIsRepaired(origin: Instance, replica: Option<Instance>, wire: Wire)
    ensures
      var (origin', replica') := AfterRound(origin, replica, Done, wire);
      && origin' == origin && replica' == replica
      && (Converged(origin, replica, origin', replica') <==> PeerVerdict(origin, replica, true) == Agreed)
  {}

  /** Nor would it with the code returned: Node.call sends no status, and the handler
      refuses the registration that follows, to a peer and to a relay alike. */
  lemma UnsentStatusRepairsNothing(origin: Instance, replica: Option<Instance>, copy: bool, stamp: int)
    ensures
      var wire := Wire(STATUS_UNSENT, stamp);
      && AfterRound(origin, replica, Faithful(origin, replica, copy), wire) == (origin, replica)
      && (Repairs(origin, replica, copy, wire) <==> replica.Some? && origin.dirtyTs == replica.value.dirtyTs)
  {}

  /** A second heartbeat after a repair finds the copies in agreement. */
  lemma RepairedStaysRepaired(origin: Instance, replica: Option<Instance>, copy: bool, wire: Wire, wire': Wire)
    ensures
      var (origin', replica') := AfterRound(origin, replica, Faithful(origin, replica, copy), wire);
      Converged(origin, replica, origin', replica') ==>
        AfterRound(origin', replica', Faithful(origin', replica', copy), wire') == (origin', replica')
  {}

  // ----- the same on two whole registries -----

  /** A heartbeat for a named zone touches one path and nothing but its RenewTimestamp. */
  lemma RenewHolder(s: State, zone: string, env: string, appid: string, hostname: string, now: int, pick: string,
                    x: Loc)
    requires zone != ""
    ensures
      var l := Loc(AppsKey(appid, env), zone, hostname);
      var (s', i) := Renew(s, zone, env, appid, hostname, now, pick);
      && (i.Some? <==> Has(s, l)) && Holder(s', l) == i
      && (i.Some? ==> i.value == Holder(s, l).value.(renewTs := now))
      && (x != l ==> Holder(s', x) == Holder(s, x))
  {}

  /** The registry after a registration over the wire. */
  ghost function Arrived(s: State, i: Instance, wire: Wire, lt: int): State {
    if Admitted(wire) then Register(s, Restamped(i, wire), lt) else s
  }

  lemma ArrivedHolder(s: State, i: Instance, wire: Wire, lt: int, x: Loc)
    ensures Holder(Arrived(s, i, wire, lt), x)
         == if x == LocOf(i) then Received(Holder(s, x), i, wire) else Holder(s, x)
  {
    RegisterHolder(s, Restamped(i, wire), lt, x);
  }

  /** The two registries after a heartbeat at `s` was passed on to `t` and the peer's
      answer came through. */
  ghost function AfterHeartbeat(s: State, t: State, l: Loc, answer: CallResult, wire: Wire, lt: int): (State, State)
    requires Has(s, l)
  {
    match FollowupOf(Holder(s, l).value, answer)
    case Nothing => (s, t)
    case AtPeer(i) => (s, Arrived(t, i, wire, lt))
    case AtSelf(i) => (Arrived(s, i, wire, lt), t)
  }

  lemma FollowupHolders(s: State, t: State, l: Loc, copy: bool, wire: Wire, lt: int, x: Loc)
    requires Has(s, l) && LocOf(Holder(s, l).value) == l
    requires Has(t, l) ==> LocOf(Holder(t, l).value) == l
    ensures
      var o, r := Holder(s, l).value, Holder(t, l);
      var (s', t') := AfterHeartbeat(s, t, l, Faithful(o, r, copy), wire, lt);
      && Has(s', l) && (Holder(s', l).value, Holder(t', l)) == AfterRound(o, r, Faithful(o, r, copy), wire)
      && (x != l ==> Holder(s', x) == Holder(s, x) && Holder(t', x) == Holder(t, x))
  {
    var o, r := Holder(s, l).value, Holder(t, l);
    match FollowupOf(o, Faithful(o, r, copy)) {
      case Nothing =>
      case AtPeer(i) =>
        ArrivedHolder(t, i, wire, lt, l);
        ArrivedHolder(t, i, wire, lt, x);
      case AtSelf(i) =>
        ArrivedHolder(s, i, wire, lt, l);
        ArrivedHolder(s, i, wire, lt, x);
    }
  }

  /** One replicated heartbeat, registry to registry: the two copies end with the
      larger DirtyTimestamp exactly in the cases of `Repairs`, for a copy in the zone and
      for a relay, and no other path of either registry changes. */
  lemma {:induction false} HeartbeatRepairsRegistriesIff(
    s: State, t: State, zone: string, env: string, appid: string, hostname: string,
    now: int, now': int, pick: string, pick': string, copy: bool, wire: Wire, lt: int)
    requires zone != ""
    requires
      var l := Loc(AppsKey(appid, env), zone, hostname);
      && Has(s, l) && LocOf(Holder(s, l).value) == l
      && (Has(t, l) ==> LocOf(Holder(t, l).value) == l)
    ensures
      var l := Loc(AppsKey(appid, env), zone, hostname);
      var o, r := Holder(s, l).value, Holder(t, l);
      var (s1, mine) := Renew(s, zone, env, appid, hostname, now, pick);
      var (t1, theirs) := Renew(t, zone, env, appid, hostname, now', pick');
      && mine.Some? && Has(s1, l)
      && var (s2, t2) := AfterHeartbeat(s1, t1, l, Faithful(mine.value, theirs, copy), wire, lt);
      && (forall x | x != l :: Holder(s2, x) == Holder(s, x) && Holder(t2, x) == Holder(t, x))
      && Has(s2, l)
      && (Converged(o, r, Holder(s2, l).value, Holder(t2, l)) <==> Repairs(o, r, copy, wire))
  {
    var l := Loc(AppsKey(appid, env), zone, hostname);
    var (s1, mine) := Renew(s, zone, env, appid, hostname, now, pick);
    var (t1, theirs) := Renew(t, zone, env, appid, hostname, now', pick');
    RenewHolder(s, zone, env, appid, hostname, now, pick, l);
    RenewHolder(t, zone, env, appid, hostname, now', pick', l);
    forall x | x != l
      ensures
        var (s2, t2) := AfterHeartbeat(s1, t1, l, Faithful(mine.value, theirs, copy), wire, lt);
        Holder(s2, x) == Holder(s, x) && Holder(t2, x) == Holder(t, x)
    {
      RenewHolder(s, zone, env, appid, hostname, now, pick, x);
      RenewHolder(t, zone, env, appid, hostname, now', pick', x);
      FollowupHolders(s1, t1, l, copy, wire, lt, x);
    }
    FollowupHolders(s1, t1, l, copy, wire, lt, l);
    OneRoundRepairsIff(mine.value, theirs, copy, wire);
  }
}
