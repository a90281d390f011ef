/** How a change spreads: two flags and one random relay per foreign zone. The
    network is a message-passing system with any relay choice and delivery order. */
module Flood {
  import opened Sequences

  /** The lists one node works with: its own zone (itself included) and the others. */
  datatype NodeView = NodeView(self: string, zone: string, nodes: seq<string>, zones: map<string, seq<string>>)

  /** A request as it travels. A client's request has neither flag set; `from`
      and `hops` are for the record only. */
  datatype Msg = Msg(to: string, replication: bool, fromZone: bool, from: string, hops: nat)

  /** How a handler decides that a request has crossed zones already: by the
      from_zone flag (register, set) or by the instance's zone (renew, cancel). */
  datatype Rule = ByFlag | ByZone(zone: string)

  predicate OtherZone(rule: Rule, v: NodeView, m: Msg) {
    match rule
    case ByFlag => m.fromZone
    case ByZone(zone) => zone != v.zone
  }

  /** Copies for the node's own zone, in list order, leaving out the node itself. */
  function OwnCopies(v: NodeView, n: nat, hops: nat): seq<Msg>
    requires n <= |v.nodes|
  {
    if n == 0 then []
    else if v.nodes[n - 1] == v.self then OwnCopies(v, n - 1, hops)
    else OwnCopies(v, n - 1, hops) + [Msg(v.nodes[n - 1], true, true, v.self, hops)]
  }

  /** One relay request per zone of `order`, addressed to the drawn node. */
  function RelayCopies(v: NodeView, order: seq<string>, drawn: map<string, string>, hops: nat): seq<Msg>
    requires forall z | z in order :: z in drawn
  {
    if order == [] then []
    else
      var n := |order| - 1;
      RelayCopies(v, order[..n], drawn, hops) + [Msg(drawn[order[n]], false, true, v.self, hops)]
  }

  /** `order` walks over the non-empty foreign zones and `drawn` picks from them. */
  ghost predicate Draw(v: NodeView, order: seq<string>, drawn: map<string, string>) {
    && Distinct(order)
    && (forall z :: z in order <==> z in v.zones && v.zones[z] != [])
    && (forall z | z in order :: z in drawn && drawn[z] in v.zones[z])
  }

  /** The requests one call of Replicate may issue. */
  ghost predicate Replicates(v: NodeView, otherZone: bool, hops: nat, sent: seq<Msg>) {
    if v.nodes == [] then sent == []
    else if otherZone then sent == OwnCopies(v, |v.nodes|, hops)
    else exists order, drawn ::
      Draw(v, order, drawn) && sent == OwnCopies(v, |v.nodes|, hops) + RelayCopies(v, order, drawn, hops)
  }

  // ----- the network -----

  datatype Cluster = Cluster(zones: map<string, set<string>>, views: map<string, NodeView>)

  /** The nodes' lists name real nodes: own lists stay inside the zone, foreign lists
      inside the zone they are filed under, and no foreign zone with nodes is without
      an entry to relay through. One entry is enough, and entries may repeat. */
  ghost predicate Sound(c: Cluster) {
    && (forall a | a in c.views :: c.views[a].self == a && c.views[a].zone in c.zones && a in c.zones[c.views[a].zone])
    && (forall z, a | z in c.zones && a in c.zones[z] :: a in c.views && c.views[a].zone == z)
    && (forall a | a in c.views :: SoundView(c, c.views[a]))
  }

  ghost predicate SoundView(c: Cluster, v: NodeView)
    requires v.zone in c.zones
  {
    && (forall b | b in v.nodes :: b in c.zones[v.zone])
    && (v.zone in v.zones ==> v.zones[v.zone] == [])
    && (forall z, b | z in v.zones && b in v.zones[z] :: z in c.zones && b in c.zones[z])
    && (forall z | z in c.zones && z != v.zone && c.zones[z] != {} :: z in v.zones && v.zones[z] != [])
  }

  /** The node's own list names each other node of its zone once; itself it may name or
      not, but with an empty list it relays nothing, so then there must be no other zone. */
  ghost predicate NamesEachOnce(c: Cluster, v: NodeView)
    requires v.zone in c.zones
  {
    && (forall b | b in c.zones[v.zone] && b != v.self :: multiset(v.nodes)[b] == 1)
    && (v.nodes == [] ==> forall a | a in c.views :: c.views[a].zone == v.zone)
  }

  ghost predicate Complete(c: Cluster) {
    Sound(c) && forall a | a in c.views :: NamesEachOnce(c, c.views[a])
  }

  /** Requests under way, and how often each node has applied the change. */
  datatype Net = Net(inflight: seq<Msg>, applied: multiset<string>)

  /** Register and Set are forwarded by every node that gets them as a source
      request; renew and cancel only by nodes where they succeeded. */
  predicate Forwards(rule: Rule, holders: set<string>, a: string) {
    rule.ByFlag? || a in holders
  }

  /** What a handler issues: nothing for a replicated request or one it could not
      apply, and otherwise the requests of Replicate. */
  ghost predicate Forwarded(v: NodeView, rule: Rule, m: Msg, ok: bool, sent: seq<Msg>) {
    if m.replication || !ok then sent == [] else Replicates(v, OtherZone(rule, v, m), m.hops + 1, sent)
  }

  /** Delivering the i-th request under way; `sent` is what the receiver issues. */
  ghost predicate Deliver(c: Cluster, rule: Rule, holders: set<string>, net: Net, i: nat, sent: seq<Msg>, net': Net) {
    && i < |net.inflight| && net.inflight[i].to in c.views
    && var m := net.inflight[i];
    && Forwarded(c.views[m.to], rule, m, Forwards(rule, holders, m.to), sent)
    && net'.inflight == net.inflight[..i] + net.inflight[i + 1..] + sent
    && net'.applied == net.applied + multiset{m.to}
  }

  ghost predicate DeliverSome(c: Cluster, rule: Rule, holders: set<string>, net: Net, net': Net) {
    exists i: nat, sent :: Deliver(c, rule, holders, net, i, sent, net')
  }

  /** A client's request arrives at one node. */
  function Start(start: string): Net {
    Net([Msg(start, false, false, "", 0)], multiset{})
  }

  ghost predicate FloodRun(c: Cluster, rule: Rule, holders: set<string>, start: string, nets: seq<Net>) {
    && |nets| > 0 && start in c.views && nets[0] == Start(start)
    && forall n :: 0 <= n < |nets| - 1 ==> DeliverSome(c, rule, holders, nets[n], nets[n + 1])
  }

  // ----- what a request can still reach -----

  /** How often a request and everything it causes apply to node `a`, if every
      node forwards. */
  ghost function Reach(c: Cluster, rule: Rule, m: Msg, a: string): nat {
    if m.to !in c.views then 0
    else if m.replication then if a == m.to then 1 else 0
    else if a !in c.views then 0
    else if OtherZone(rule, c.views[m.to], m) && c.views[a].zone != c.views[m.to].zone then 0
    else 1
  }

  ghost function ReachAll(c: Cluster, rule: Rule, msgs: seq<Msg>, a: string): nat {
    if msgs == [] then 0
    else ReachAll(c, rule, msgs[..|msgs| - 1], a) + Reach(c, rule, msgs[|msgs| - 1], a)
  }

  lemma {:induction false} ReachAllConcat(c: Cluster, rule: Rule, p: seq<Msg>, q: seq<Msg>, a: string)
    ensures ReachAll(c, rule, p + q, a) == ReachAll(c, rule, p, a) + ReachAll(c, rule, q, a)
    decreases |q|
  {
    if q == [] {
      assert p + q == p;
    } else {
      var n := |q| - 1;
      ReachAllConcat(c, rule, p, q[..n], a);
      assert (p + q)[..|p + q| - 1] == p + q[..n];
    }
  }

  lemma ReachAllSingle(c: Cluster, rule: Rule, p: seq<Msg>, m: Msg, a: string)
    ensures ReachAll(c, rule, p + [m], a) == ReachAll(c, rule, p, a) + Reach(c, rule, m, a)
  {
    assert (p + [m])[..|p|] == p;
  }

  lemma ReachAllRemove(c: Cluster, rule: Rule, msgs: seq<Msg>, i: nat, a: string)
    requires i < |msgs|
    ensures ReachAll(c, rule, msgs, a) == ReachAll(c, rule, msgs[..i] + msgs[i + 1..], a) + Reach(c, rule, msgs[i], a)
  {
    assert msgs == msgs[..i] + [msgs[i]] + msgs[i + 1..];
    ReachAllConcat(c, rule, msgs[..i] + [msgs[i]], msgs[i + 1..], a);
    ReachAllSingle(c, rule, msgs[..i], msgs[i], a);
    ReachAllConcat(c, rule, msgs[..i], msgs[i + 1..], a);
  }

  lemma PrefixCount(nodes: seq<string>, n: nat, a: string)
    requires 0 < n <= |nodes|
    ensures nodes[n - 1] in nodes
    ensures multiset(nodes[..n])[a] == multiset(nodes[..n - 1])[a] + if a == nodes[n - 1] then 1 else 0
  {
    assert nodes[..n] == nodes[..n - 1] + [nodes[n - 1]];
  }

  lemma CopyReach(c: Cluster, rule: Rule, v: NodeView, n: nat, hops: nat, a: string)
    requires 0 < n <= |v.nodes| && v.nodes[n - 1] in c.views
    ensures ReachAll(c, rule, OwnCopies(v, n, hops), a)
         == ReachAll(c, rule, OwnCopies(v, n - 1, hops), a) + if a == v.nodes[n - 1] != v.self then 1 else 0
  {
    if v.nodes[n - 1] != v.self {
      ReachAllSingle(c, rule, OwnCopies(v, n - 1, hops), Msg(v.nodes[n - 1], true, true, v.self, hops), a);
    }
  }

  /** The own-zone copies reach each listed node but the sender as often as it is listed. */
  lemma {:induction false} OwnCopiesReach(c: Cluster, rule: Rule, v: NodeView, n: nat, hops: nat, a: string)
    requires n <= |v.nodes| && forall b | b in v.nodes :: b in c.views
    ensures ReachAll(c, rule, OwnCopies(v, n, hops), a) == if a == v.self then 0 else multiset(v.nodes[..n])[a]
  {
    if n > 0 {
      OwnCopiesReach(c, rule, v, n - 1, hops, a);
      PrefixCount(v.nodes, n, a);
      CopyReach(c, rule, v, n, hops, a);
    }
  }

  lemma RelayReach(c: Cluster, rule: Rule, m: Msg, a: string)
    requires m.to in c.views && !m.replication && m.fromZone
    requires rule.ByFlag? || rule.zone != c.views[m.to].zone
    ensures Reach(c, rule, m, a) == if a in c.views && c.views[a].zone == c.views[m.to].zone then 1 else 0
  {}

  /** The relays reach every node of the zones walked over. */
  lemma {:induction false} RelayCopiesReach(c: Cluster, rule: Rule, v: NodeView, order: seq<string>,
                                            drawn: map<string, string>, hops: nat, a: string)
    requires (rule.ByFlag? || rule.zone !in order) && Distinct(order)
    requires forall z | z in order :: z in drawn && drawn[z] in c.views && c.views[drawn[z]].zone == z
    ensures ReachAll(c, rule, RelayCopies(v, order, drawn, hops), a)
      == if a in c.views && c.views[a].zone in order then 1 else 0
  {
    if order != [] {
      var n := |order| - 1;
      RelayCopiesReach(c, rule, v, order[..n], drawn, hops, a);
      assert order[n] in order && order == order[..n] + [order[n]];
      var m := Msg(drawn[order[n]], false, true, v.self, hops);
      ReachAllSingle(c, rule, RelayCopies(v, order[..n], drawn, hops), m, a);
      RelayReach(c, rule, m, a);
    }
  }

  /** The relays drawn are nodes of foreign zones, ... */
  lemma DrawnZones(c: Cluster, v: NodeView, a: string, order: seq<string>, drawn: map<string, string>)
    requires Sound(c) && a in c.views && c.views[a] == v && Draw(v, order, drawn)
    ensures forall z | z in order :: z in drawn && drawn[z] in c.views && c.views[drawn[z]].zone == z
    ensures v.zone !in order
  {
    assert SoundView(c, v);
    forall z | z in order ensures z in drawn && drawn[z] in c.views && c.views[drawn[z]].zone == z {
      assert drawn[z] in v.zones[z];
    }
  }

  /** ... and every foreign zone that has nodes is walked over. */
  lemma AllZonesDrawn(c: Cluster, v: NodeView, a: string, order: seq<string>, drawn: map<string, string>, b: string)
    requires Sound(c) && a in c.views && c.views[a] == v && Draw(v, order, drawn) && b in c.views
    ensures c.views[b].zone in order <==> c.views[b].zone != v.zone
  {
    DrawnZones(c, v, a, order, drawn);
    assert SoundView(c, v) && b in c.zones[c.views[b].zone];
  }

  /** A source request reaches its receiver plus whatever the receiver's own
      requests reach: for any relays drawn, nothing is lost and nothing doubled. */
  lemma ReplicateSplitsReach(c: Cluster, rule: Rule, m: Msg, sent: seq<Msg>, a: string)
    requires Complete(c) && m.to in c.views && !m.replication
    requires Replicates(c.views[m.to], OtherZone(rule, c.views[m.to], m), m.hops + 1, sent)
    ensures Reach(c, rule, m, a) == ReachAll(c, rule, sent, a) + if a == m.to then 1 else 0
  {
    var v := c.views[m.to];
    OwnZoneListed(c, v, m.to, a);
    OwnCopiesReach(c, rule, v, |v.nodes|, m.hops + 1, a);
    assert v.nodes[..|v.nodes|] == v.nodes;
    if v.nodes == [] {
      assert NamesEachOnce(c, v);
    } else if !OtherZone(rule, v, m) {
      RelaysReach(c, rule, m, sent, a);
    }
  }

  lemma RelaysReach(c: Cluster, rule: Rule, m: Msg, sent: seq<Msg>, a: string)
    requires Sound(c) && m.to in c.views && !m.replication && c.views[m.to].nodes != []
    requires !OtherZone(rule, c.views[m.to], m) && Replicates(c.views[m.to], false, m.hops + 1, sent)
    ensures
      var v := c.views[m.to];
      ReachAll(c, rule, sent, a) == ReachAll(c, rule, OwnCopies(v, |v.nodes|, m.hops + 1), a)
        + if a in c.views && c.views[a].zone != v.zone then 1 else 0
  {
    var v := c.views[m.to];
    var own := OwnCopies(v, |v.nodes|, m.hops + 1);
    var order, drawn :| Draw(v, order, drawn) && sent == own + RelayCopies(v, order, drawn, m.hops + 1);
    DrawnZones(c, v, m.to, order, drawn);
    if a in c.views {
      AllZonesDrawn(c, v, m.to, order, drawn, a);
    }
    RelayCopiesReach(c, rule, v, order, drawn, m.hops + 1, a);
    ReachAllConcat(c, rule, own, RelayCopies(v, order, drawn, m.hops + 1), a);
  }

  lemma OwnListInside(c: Cluster, v: NodeView, self: string)
    requires Sound(c) && self in c.views && c.views[self] == v
    ensures v.self == self && forall b | b in v.nodes :: b in c.views && c.views[b].zone == v.zone
  {
    assert SoundView(c, v);
  }

  lemma OwnZoneListed(c: Cluster, v: NodeView, self: string, a: string)
    requires Complete(c) && self in c.views && c.views[self] == v
    ensures v.self == self && forall b | b in v.nodes :: b in c.views
    ensures a != self ==> multiset(v.nodes)[a] == if a in c.views && c.views[a].zone == v.zone then 1 else 0
  {
    OwnListInside(c, v, self);
    assert NamesEachOnce(c, v);
    if a != self {
      assert multiset(v.nodes)[a] > 0 <==> a in v.nodes;
    }
  }

  // ----- runs -----

  /** Whether every node that gets a source request forwards it. */
  predicate AllForward(c: Cluster, rule: Rule, holders: set<string>) {
    rule.ByFlag? || c.views.Keys <= holders
  }

  /** The nodes a client's request at `start` is meant for: all of them, unless
      the instance belongs to another zone than the one it was sent to. */
  ghost function Audience(c: Cluster, rule: Rule, start: string): set<string>
    requires start in c.views
  {
    if rule.ByZone? && rule.zone != c.views[start].zone
    then set a | a in c.views && c.views[a].zone == c.views[start].zone
    else c.views.Keys
  }

  /** What node `a` has applied plus what is still to reach it: at most one. */
  ghost predicate Conserved(c: Cluster, rule: Rule, holders: set<string>, net: Net, a: string, total: nat) {
    && net.applied[a] + ReachAll(c, rule, net.inflight, a) <= total
    && (AllForward(c, rule, holders) ==> net.applied[a] + ReachAll(c, rule, net.inflight, a) == total)
  }

  lemma DeliverConserves(c: Cluster, rule: Rule, holders: set<string>, net: Net, i: nat, sent: seq<Msg>, net': Net,
                         a: string, total: nat)
    requires Complete(c) && Conserved(c, rule, holders, net, a, total) && Deliver(c, rule, holders, net, i, sent, net')
    ensures Conserved(c, rule, holders, net', a, total)
  {
    var m := net.inflight[i];
    ReachAllRemove(c, rule, net.inflight, i, a);
    ReachAllConcat(c, rule, net.inflight[..i] + net.inflight[i + 1..], sent, a);
    if !m.replication && Forwards(rule, holders, m.to) {
      ReplicateSplitsReach(c, rule, m, sent, a);
    }
  }

  lemma {:induction false} FloodConserves(c: Cluster, rule: Rule, holders: set<string>, start: string, nets: seq<Net>,
                                          n: nat, a: string)
    requires Complete(c) && FloodRun(c, rule, holders, start, nets) && n < |nets|
    ensures Conserved(c, rule, holders, nets[n], a, if a in Audience(c, rule, start) then 1 else 0)
    ensures |nets[n].applied| == n
  {
    if n == 0 {
      ReachAllSingle(c, rule, [], Msg(start, false, false, "", 0), a);
      assert [] + [Msg(start, false, false, "", 0)] == nets[0].inflight;
    } else {
      FloodConserves(c, rule, holders, start, nets, n - 1, a);
      assert DeliverSome(c, rule, holders, nets[n - 1], nets[n - 1 + 1]);
      var i: nat, sent :| Deliver(c, rule, holders, nets[n - 1], i, sent, nets[n]);
      var total := if a in Audience(c, rule, start) then 1 else 0;
      DeliverConserves(c, rule, holders, nets[n - 1], i, sent, nets[n], a, total);
    }
  }

  lemma AtMostOnceEach(applied: multiset<string>, audience: set<string>)
    requires forall a :: applied[a] <= if a in audience then 1 else 0
    ensures |applied| <= |audience|
    ensures |applied| == |audience| <==> applied == multiset(audience)
  {
    var rest := multiset(audience) - applied;
    assert multiset(audience) == applied + rest;
    if |applied| == |audience| {
      assert |rest| == 0;
      assert rest == multiset{};
    }
  }

  /** For any relays and any delivery order: no node applies a change twice, and
      there are at most as many deliveries as nodes in the audience, so every
      run ends. If every node forwards, the run has ended exactly when each node
      of the audience has applied the change once: one delivery is the client's,
      the others are requests between nodes. */
  lemma FloodReachesEachOnce(c: Cluster, rule: Rule, holders: set<string>, start: string, nets: seq<Net>)
    requires Complete(c) && FloodRun(c, rule, holders, start, nets)
    ensures
      var last := nets[|nets| - 1];
      var audience := Audience(c, rule, start);
      && (forall a :: last.applied[a] <= if a in audience then 1 else 0)
      && |nets| - 1 <= |audience|
      && (AllForward(c, rule, holders) && last.inflight == [] ==>
        last.applied == multiset(audience) && |nets| - 1 == |audience|)
  {
    var n := |nets| - 1;
    var audience := Audience(c, rule, start);
    var last := nets[n];
    FloodConserves(c, rule, holders, start, nets, n, start);
    forall a
      ensures last.applied[a] <= if a in audience then 1 else 0
      ensures AllForward(c, rule, holders) && last.inflight == [] ==> last.applied[a] == if a in audience then 1 else 0
    {
      FloodConserves(c, rule, holders, start, nets, n, a);
    }
    AtMostOnceEach(last.applied, audience);
    if AllForward(c, rule, holders) && last.inflight == [] {
      assert last.applied == multiset(audience);
    }
  }

  /** While requests are under way, nodes of the audience are still to be reached. */
  lemma {:induction false} UnfinishedMeansUnreached(c: Cluster, rule: Rule, holders: set<string>, start: string,
                                                    nets: seq<Net>, m: Msg)
    requires Complete(c) && FloodRun(c, rule, holders, start, nets)
    requires m in nets[|nets| - 1].inflight && m.to in c.views
    ensures m.to in Audience(c, rule, start) && nets[|nets| - 1].applied[m.to] == 0
    ensures |nets| - 1 < |Audience(c, rule, start)|
  {
    var n := |nets| - 1;
    var last := nets[n];
    var audience := Audience(c, rule, start);
    FloodConserves(c, rule, holders, start, nets, n, m.to);
    var i :| 0 <= i < |last.inflight| && last.inflight[i] == m;
    ReachAllRemove(c, rule, last.inflight, i, m.to);
    FloodReachesEachOnce(c, rule, holders, start, nets);
    AtMostOnceEach(last.applied, audience);
    assert multiset(audience)[m.to] == 1;
  }

  /** A change registered at any node of a complete cluster is applied once by
      every node of every zone. */
  lemma RegisterReachesAllOnce(c: Cluster, start: string, nets: seq<Net>)
    requires Complete(c) && FloodRun(c, ByFlag, {}, start, nets)
    ensures |nets| - 1 <= |c.views|
    ensures nets[|nets| - 1].inflight == [] <==> |nets| - 1 == |c.views|
    ensures nets[|nets| - 1].inflight == [] ==> nets[|nets| - 1].applied == multiset(c.views.Keys)
  {
    FloodReachesEachOnce(c, ByFlag, {}, start, nets);
    var last := nets[|nets| - 1];
    if last.inflight != [] {
      var m := last.inflight[0];
      FloodRoutes(c, ByFlag, {}, start, nets, |nets| - 1);
      assert Route(c, ByFlag, start, m);
      UnfinishedMeansUnreached(c, ByFlag, {}, start, nets, m);
    }
  }

  /** A heartbeat or cancel that every node can apply reaches every node exactly
      when it was sent to a node of the instance's own zone, or there is no other. */
  lemma RenewReachesAllIffOwnZone(c: Cluster, zone: string, holders: set<string>, start: string, nets: seq<Net>)
    requires Complete(c) && FloodRun(c, ByZone(zone), holders, start, nets) && c.views.Keys <= holders
    requires nets[|nets| - 1].inflight == []
    ensures nets[|nets| - 1].applied == multiset(c.views.Keys) <==>
      zone == c.views[start].zone || forall a | a in c.views :: c.views[a].zone == c.views[start].zone
  {
    FloodReachesEachOnce(c, ByZone(zone), holders, start, nets);
    var audience := Audience(c, ByZone(zone), start);
    if zone != c.views[start].zone {
      assert forall a | a in c.views :: a in audience <==> c.views[a].zone == c.views[start].zone;
      assert forall a :: multiset(audience)[a] == (if a in audience then 1 else 0);
      assert forall a :: multiset(c.views.Keys)[a] == (if a in c.views then 1 else 0);
      if multiset(audience) == multiset(c.views.Keys) {
        forall a | a in c.views ensures a in audience {
          assert multiset(c.views.Keys)[a] == 1;
        }
      } else {
        assert audience != c.views.Keys;
      }
    }
  }

  // ----- where requests travel -----

  /** The client's request, the origin's copies and relays, the relays' copies. */
  ghost predicate Route(c: Cluster, rule: Rule, start: string, m: Msg) {
    && m.to in c.views && start in c.views
    && m.hops <= 2
    && (m.hops == 0 ==> m.to == start && !m.replication && !m.fromZone)
    && (m.hops == 1 ==> m.from == start && m.fromZone && (m.replication <==> c.views[m.to].zone == c.views[start].zone))
    && (m.hops == 2 ==>
          && m.replication && m.from in c.views
          && c.views[m.from].zone == c.views[m.to].zone != c.views[start].zone)
    && (m.hops > 0 && c.views[m.from].zone != c.views[m.to].zone ==> rule.ByFlag? || rule.zone == c.views[m.from].zone)
  }

  ghost predicate Routes(c: Cluster, rule: Rule, start: string, msgs: seq<Msg>) {
    forall m | m in msgs :: Route(c, rule, start, m)
  }

  lemma {:induction false} OwnCopiesRoute(c: Cluster, rule: Rule, start: string, v: NodeView, n: nat, hops: nat)
    requires Sound(c) && v.self in c.views && c.views[v.self] == v && n <= |v.nodes| && start in c.views
    requires (hops == 1 && v.self == start) || (hops == 2 && v.zone != c.views[start].zone)
    ensures Routes(c, rule, start, OwnCopies(v, n, hops))
  {
    if n > 0 {
      OwnCopiesRoute(c, rule, start, v, n - 1, hops);
      assert v.nodes[n - 1] in v.nodes;
      OwnListInside(c, v, v.self);
      assert Route(c, rule, start, Msg(v.nodes[n - 1], true, true, v.self, hops));
    }
  }

  lemma {:induction false} RelayCopiesRoute(c: Cluster, rule: Rule, start: string, v: NodeView, order: seq<string>,
                                            drawn: map<string, string>)
    requires Sound(c) && start in c.views && c.views[start] == v && v.self == start
    requires rule.ByFlag? || rule.zone == v.zone
    requires forall z | z in order :: z in drawn && drawn[z] in c.views && c.views[drawn[z]].zone == z
    requires v.zone !in order
    ensures Routes(c, rule, start, RelayCopies(v, order, drawn, 1))
  {
    if order != [] {
      var n := |order| - 1;
      RelayCopiesRoute(c, rule, start, v, order[..n], drawn);
      assert order[n] in order;
    }
  }

  lemma ReplicateRoutes(c: Cluster, rule: Rule, start: string, m: Msg, sent: seq<Msg>)
    requires Sound(c) && Route(c, rule, start, m) && !m.replication
    requires Replicates(c.views[m.to], OtherZone(rule, c.views[m.to], m), m.hops + 1, sent)
    ensures Routes(c, rule, start, sent)
  {
    var v := c.views[m.to];
    OwnListInside(c, v, m.to);
    OwnCopiesRoute(c, rule, start, v, |v.nodes|, m.hops + 1);
    if v.nodes != [] && !OtherZone(rule, v, m) {
      assert m.hops == 0;
      var order, drawn :| Draw(v, order, drawn) && sent == OwnCopies(v, |v.nodes|, 1) + RelayCopies(v, order, drawn, 1);
      DrawnZones(c, v, m.to, order, drawn);
      RelayCopiesRoute(c, rule, start, v, order, drawn);
    }
  }

  lemma DeliverRoutes(c: Cluster, rule: Rule, holders: set<string>, start: string, net: Net, i: nat, sent: seq<Msg>,
                      net': Net)
    requires Sound(c) && Routes(c, rule, start, net.inflight) && Deliver(c, rule, holders, net, i, sent, net')
    ensures Routes(c, rule, start, net'.inflight)
  {
    var m := net.inflight[i];
    assert m in net.inflight;
    if !m.replication && Forwards(rule, holders, m.to) {
      ReplicateRoutes(c, rule, start, m, sent);
    }
    assert Routes(c, rule, start, sent);
  }

  /** In every run a request travels at most two hops after the client's, only
      relays cross zones, no request comes back to the origin's zone from outside
      it, and with renew and cancel only nodes of the instance's zone cross. */
  lemma {:induction false} FloodRoutes(c: Cluster, rule: Rule, holders: set<string>, start: string, nets: seq<Net>,
                                       n: nat)
    requires Sound(c) && FloodRun(c, rule, holders, start, nets) && n < |nets|
    ensures Routes(c, rule, start, nets[n].inflight)
    ensures forall m | m in nets[n].inflight && m.hops > 0 && c.views[m.to].zone == c.views[start].zone ::
      m.from == start && m.replication
  {
    if n > 0 {
      FloodRoutes(c, rule, holders, start, nets, n - 1);
      assert DeliverSome(c, rule, holders, nets[n - 1], nets[n - 1 + 1]);
      var i: nat, sent :| Deliver(c, rule, holders, nets[n - 1], i, sent, nets[n]);
      DeliverRoutes(c, rule, holders, start, nets[n - 1], i, sent, nets[n]);
    }
    forall m | m in nets[n].inflight && m.hops > 0 && c.views[m.to].zone == c.views[start].zone
      ensures m.from == start && m.replication
    {
      assert Route(c, rule, start, m);
    }
  }

  // ----- deliveries are always possible -----

  lemma {:induction false} DrawForZones(v: NodeView, zones: set<string>)
    returns (order: seq<string>, drawn: map<string, string>)
    requires forall z | z in zones :: z in v.zones && v.zones[z] != []
    ensures Distinct(order) && (forall z :: z in order <==> z in zones)
    ensures forall z | z in order :: z in drawn && drawn[z] in v.zones[z]
    decreases |zones|
  {
    if zones == {} {
      order, drawn := [], map[];
    } else {
      var z :| z in zones;
      var rest, chosen := DrawForZones(v, zones - {z});
      order, drawn := rest + [z], chosen[z := v.zones[z][0]];
    }
  }

  /** Whatever is under way can be delivered next, so a run that has not reached
      its whole audience can go on. */
  lemma SomethingCanBeDelivered(c: Cluster, rule: Rule, holders: set<string>, net: Net, i: nat)
    returns (sent: seq<Msg>, net': Net)
    requires i < |net.inflight| && net.inflight[i].to in c.views
    ensures Deliver(c, rule, holders, net, i, sent, net')
  {
    var m := net.inflight[i];
    var v := c.views[m.to];
    sent := [];
    if !m.replication && Forwards(rule, holders, m.to) && v.nodes != [] {
      sent := OwnCopies(v, |v.nodes|, m.hops + 1);
      if !OtherZone(rule, v, m) {
        var order, drawn := DrawForZones(v, set z | z in v.zones && v.zones[z] != []);
        assert Draw(v, order, drawn);
        sent := sent + RelayCopies(v, order, drawn, m.hops + 1);
      }
    }
    net' := Net(net.inflight[..i] + net.inflight[i + 1..] + sent, net.applied + multiset{m.to});
  }
}
