/** Which own lists make the flood exact: every registration is applied once
    everywhere exactly when each node's list names each other node of its zone once. */
module FloodLists {
  import opened Sequences
  import opened Wrappers

  import opened Flood

  // ----- every run ends -----

  /** A request that has left its first node: whoever gets it keeps it in the zone. */
  predicate Inward(c: Cluster, rule: Rule, m: Msg) {
    m.to in c.views && (m.replication || OtherZone(rule, c.views[m.to], m))
  }

  ghost predicate AllInward(c: Cluster, rule: Rule, msgs: seq<Msg>) {
    forall m | m in msgs :: Inward(c, rule, m)
  }

  /** The deliveries that a request may lead to, itself included. */
  function Cost(c: Cluster, m: Msg): nat {
    if m.replication || m.to !in c.views then 1 else 1 + |c.views[m.to].nodes|
  }

  function TotalCost(c: Cluster, msgs: seq<Msg>): nat {
    if msgs == [] then 0 else Cost(c, msgs[0]) + TotalCost(c, msgs[1..])
  }

  lemma {:induction false} CostConcat(c: Cluster, p: seq<Msg>, q: seq<Msg>)
    ensures TotalCost(c, p + q) == TotalCost(c, p) + TotalCost(c, q)
  {
    if p == [] {
      assert p + q == q;
    } else {
      CostConcat(c, p[1..], q);
      assert (p + q)[1..] == p[1..] + q && (p + q)[0] == p[0];
    }
  }

  lemma CostSingle(c: Cluster, m: Msg)
    ensures TotalCost(c, [m]) == Cost(c, m)
  {
    assert [m][1..] == [];
  }

  lemma {:induction false} OwnCopiesCost(c: Cluster, rule: Rule, v: NodeView, n: nat, hops: nat)
    requires n <= |v.nodes| && forall b | b in v.nodes :: b in c.views
    ensures TotalCost(c, OwnCopies(v, n, hops)) <= n && AllInward(c, rule, OwnCopies(v, n, hops))
    ensures forall m | m in OwnCopies(v, n, hops) :: m.replication
  {
    if n > 0 {
      OwnCopiesCost(c, rule, v, n - 1, hops);
      assert v.nodes[n - 1] in v.nodes;
      var m := Msg(v.nodes[n - 1], true, true, v.self, hops);
      CostConcat(c, OwnCopies(v, n - 1, hops), [m]);
      CostSingle(c, m);
    }
  }

  /** An inward request leads at most to copies within its receiver's zone. */
  lemma InwardSends(c: Cluster, rule: Rule, m: Msg, ok: bool, sent: seq<Msg>)
    requires Sound(c) && Inward(c, rule, m) && Forwarded(c.views[m.to], rule, m, ok, sent)
    ensures AllInward(c, rule, sent) && TotalCost(c, sent) < Cost(c, m)
    ensures forall x | x in sent :: x.replication && !m.replication && c.views[x.to].zone == c.views[m.to].zone
  {
    var v := c.views[m.to];
    OwnListInside(c, v, m.to);
    OwnCopiesCost(c, rule, v, |v.nodes|, m.hops + 1);
    if !m.replication && v.nodes != [] {
      OwnCopiesInside(c, v, |v.nodes|, m.hops + 1);
    }
  }

  lemma {:induction false} OwnCopiesInside(c: Cluster, v: NodeView, n: nat, hops: nat)
    requires n <= |v.nodes| && forall b | b in v.nodes :: b in c.views && c.views[b].zone == v.zone
    ensures forall m | m in OwnCopies(v, n, hops) :: m.to in c.views && c.views[m.to].zone == v.zone
  {
    if n > 0 {
      OwnCopiesInside(c, v, n - 1, hops);
      assert v.nodes[n - 1] in v.nodes;
    }
  }

  lemma CostRemove(c: Cluster, msgs: seq<Msg>, i: nat)
    requires i < |msgs|
    ensures TotalCost(c, msgs) == TotalCost(c, msgs[..i] + msgs[i + 1..]) + Cost(c, msgs[i])
  {
    assert msgs == msgs[..i] + ([msgs[i]] + msgs[i + 1..]);
    CostConcat(c, msgs[..i], [msgs[i]] + msgs[i + 1..]);
    CostConcat(c, [msgs[i]], msgs[i + 1..]);
    CostSingle(c, msgs[i]);
    CostConcat(c, msgs[..i], msgs[i + 1..]);
  }

  /** Any delivery of an inward request leaves less to do. */
  lemma DeliveryLowers(c: Cluster, rule: Rule, holders: set<string>, net: Net, i: nat, sent: seq<Msg>, net': Net)
    requires Sound(c) && AllInward(c, rule, net.inflight) && Deliver(c, rule, holders, net, i, sent, net')
    ensures AllInward(c, rule, net'.inflight) && TotalCost(c, net'.inflight) < TotalCost(c, net.inflight)
  {
    var m, rest := net.inflight[i], net.inflight[..i] + net.inflight[i + 1..];
    assert m in net.inflight;
    InwardSends(c, rule, m, Forwards(rule, holders, m.to), sent);
    CostRemove(c, net.inflight, i);
    CostConcat(c, rest, sent);
    forall x | x in net'.inflight ensures Inward(c, rule, x) {
      assert x in net.inflight || x in sent;
    }
  }

  /** What relaying to the zones of `order` costs when no own list is longer than `w`. */
  lemma {:induction false} RelayCopiesCost(c: Cluster, rule: Rule, v: NodeView, order: seq<string>,
                                           drawn: map<string, string>, hops: nat, w: nat)
    requires forall a | a in c.views :: |c.views[a].nodes| <= w
    requires forall z | z in order :: z in drawn && drawn[z] in c.views && c.views[drawn[z]].zone == z
    requires rule.ByFlag? || rule.zone !in order
    ensures AllInward(c, rule, RelayCopies(v, order, drawn, hops))
    ensures TotalCost(c, RelayCopies(v, order, drawn, hops)) <= |order| * (1 + w)
  {
    if order != [] {
      var n := |order| - 1;
      assert order[n] in order;
      RelayCopiesCost(c, rule, v, order[..n], drawn, hops, w);
      var m := Msg(drawn[order[n]], false, true, v.self, hops);
      CostConcat(c, RelayCopies(v, order[..n], drawn, hops), [m]);
      CostSingle(c, m);
      Times(n, 1 + w);
    }
  }

  lemma Times(n: nat, k: nat)
    ensures n * k + k == (n + 1) * k
  {}

  lemma TimesMonotone(m: nat, n: nat, k: nat)
    requires m <= n
    ensures m * k <= n * k
  {}

  /** No list of the cluster is longer than `w`, and no node knows more than `z` other zones. */
  ghost predicate Within(c: Cluster, w: nat, z: nat) {
    forall a | a in c.views :: |c.views[a].nodes| <= w && |c.views[a].zones| <= z
  }

  /** The deliveries after the first: copies in the origin's zone, and a relay with its
      own copies per other zone. */
  function Bound(w: nat, z: nat): nat {
    w + z * (1 + w)
  }

  lemma WithinBound(own: nat, relayed: nat, w: nat, z: nat)
    requires own <= w && relayed <= z * (1 + w)
    ensures own + relayed <= Bound(w, z)
  {}

  lemma RelaysWithin(c: Cluster, rule: Rule, start: string, order: seq<string>, drawn: map<string, string>, w: nat,
                     z: nat)
    requires Sound(c) && start in c.views && Within(c, w, z) && Draw(c.views[start], order, drawn)
    requires rule.ByFlag? || rule.zone == c.views[start].zone
    ensures AllInward(c, rule, RelayCopies(c.views[start], order, drawn, 1))
    ensures TotalCost(c, RelayCopies(c.views[start], order, drawn, 1)) <= z * (1 + w)
  {
    var v := c.views[start];
    DrawnZones(c, v, start, order, drawn);
    RelayCopiesCost(c, rule, v, order, drawn, 1, w);
    DistinctWithin(order, v.zones.Keys);
    assert |v.zones.Keys| == |v.zones|;
    TimesMonotone(|order|, z, 1 + w);
  }

  lemma FirstSends(c: Cluster, rule: Rule, start: string, sent: seq<Msg>, w: nat, z: nat)
    requires Sound(c) && start in c.views && Within(c, w, z) && c.views[start].nodes != []
    requires Replicates(c.views[start], OtherZone(rule, c.views[start], Start(start).inflight[0]), 1, sent)
    ensures AllInward(c, rule, sent) && TotalCost(c, sent) <= Bound(w, z)
  {
    var v := c.views[start];
    OwnListInside(c, v, start);
    OwnCopiesCost(c, rule, v, |v.nodes|, 1);
    var own := OwnCopies(v, |v.nodes|, 1);
    if OtherZone(rule, v, Start(start).inflight[0]) {
      TimesMonotone(0, z, 1 + w);
      WithinBound(TotalCost(c, own), 0, w, z);
    } else {
      var order, drawn :| Draw(v, order, drawn) && sent == own + RelayCopies(v, order, drawn, 1);
      RelaysWithin(c, rule, start, order, drawn, w, z);
      CostConcat(c, own, RelayCopies(v, order, drawn, 1));
      WithinBound(TotalCost(c, own), TotalCost(c, RelayCopies(v, order, drawn, 1)), w, z);
    }
  }

  /** After the client's request has been handled everything under way is inward. */
  lemma FirstDelivery(c: Cluster, rule: Rule, holders: set<string>, start: string, i: nat, sent: seq<Msg>, net: Net,
                      w: nat, z: nat)
    requires Sound(c) && start in c.views && Within(c, w, z) && Deliver(c, rule, holders, Start(start), i, sent, net)
    ensures net.inflight == sent && net.applied == multiset{start}
    ensures AllInward(c, rule, sent) && TotalCost(c, sent) <= Bound(w, z)
  {
    assert Start(start).inflight[..0] + Start(start).inflight[1..] == [];
    if sent != [] {
      FirstSends(c, rule, start, sent, w, z);
    }
  }

  lemma {:induction false} RunBounded(c: Cluster, rule: Rule, holders: set<string>, start: string, nets: seq<Net>,
                                      n: nat, w: nat, z: nat)
    requires Sound(c) && Within(c, w, z) && FloodRun(c, rule, holders, start, nets) && 0 < n < |nets|
    ensures AllInward(c, rule, nets[n].inflight)
    ensures n + TotalCost(c, nets[n].inflight) <= 1 + Bound(w, z)
  {
    assert DeliverSome(c, rule, holders, nets[n - 1], nets[n - 1 + 1]);
    var i: nat, sent :| Deliver(c, rule, holders, nets[n - 1], i, sent, nets[n]);
    if n == 1 {
      FirstDelivery(c, rule, holders, start, i, sent, nets[1], w, z);
    } else {
      RunBounded(c, rule, holders, start, nets, n - 1, w, z);
      DeliveryLowers(c, rule, holders, nets[n - 1], i, sent, nets[n]);
    }
  }

  lemma NothingLeft(c: Cluster, msgs: seq<Msg>)
    requires TotalCost(c, msgs) == 0
    ensures msgs == []
  {}

  /** Every run ends: with lists that name real nodes, missing or repeated entries
      included, any change is delivered at most so many times. */
  lemma EveryRunEnds(c: Cluster, rule: Rule, holders: set<string>, start: string, nets: seq<Net>, w: nat, z: nat)
    requires Sound(c) && Within(c, w, z) && FloodRun(c, rule, holders, start, nets)
    ensures |nets| - 1 <= 1 + Bound(w, z)
    ensures |nets| - 1 == 1 + Bound(w, z) ==> nets[|nets| - 1].inflight == []
  {
    var n := |nets| - 1;
    if n > 0 {
      RunBounded(c, rule, holders, start, nets, n, w, z);
      if TotalCost(c, nets[n].inflight) == 0 {
        NothingLeft(c, nets[n].inflight);
      }
    }
  }

  ghost predicate Chain(c: Cluster, rule: Rule, holders: set<string>, nets: seq<Net>) {
    forall n :: 0 <= n < |nets| - 1 ==> DeliverSome(c, rule, holders, nets[n], nets[n + 1])
  }

  lemma Ended(c: Cluster, rule: Rule, holders: set<string>, net: Net) returns (nets: seq<Net>)
    requires Sound(c) && AllInward(c, rule, net.inflight)
    ensures nets != [] && nets[0] == net && Chain(c, rule, holders, nets) && nets[|nets| - 1].inflight == []
    decreases TotalCost(c, net.inflight)
  {
    if net.inflight == [] {
      nets := [net];
    } else {
      assert net.inflight[0] in net.inflight;
      var sent, net' := SomethingCanBeDelivered(c, rule, holders, net, 0);
      DeliveryLowers(c, rule, holders, net, 0, sent, net');
      var rest := Ended(c, rule, holders, net');
      nets := [net] + rest;
      ChainCons(c, rule, holders, net, rest);
    }
  }

  lemma ChainCons(c: Cluster, rule: Rule, holders: set<string>, net: Net, rest: seq<Net>)
    requires rest != [] && Chain(c, rule, holders, rest) && DeliverSome(c, rule, holders, net, rest[0])
    ensures Chain(c, rule, holders, [net] + rest)
  {
    var nets := [net] + rest;
    forall n | 0 <= n < |nets| - 1 ensures DeliverSome(c, rule, holders, nets[n], nets[n + 1]) {
      if n > 0 {
        assert nets[n] == rest[n - 1] && nets[n + 1] == rest[n];
      }
    }
  }

  lemma SomeBound(c: Cluster) returns (w: nat, z: nat)
    ensures Within(c, w, z)
  {
    w, z := LargestOf(c, c.views.Keys);
  }

  lemma {:induction false} LargestOf(c: Cluster, names: set<string>) returns (w: nat, z: nat)
    requires names <= c.views.Keys
    ensures forall a | a in names :: |c.views[a].nodes| <= w && |c.views[a].zones| <= z
  {
    w, z := 0, 0;
    if names != {} {
      var a :| a in names;
      w, z := LargestOf(c, names - {a});
      w := if w < |c.views[a].nodes| then |c.views[a].nodes| else w;
      z := if z < |c.views[a].zones| then |c.views[a].zones| else z;
    }
  }

  /** A change at any node has a run that ends. */
  lemma EndedRunExists(c: Cluster, rule: Rule, holders: set<string>, start: string) returns (nets: seq<Net>)
    requires Sound(c) && start in c.views
    ensures FloodRun(c, rule, holders, start, nets) && |nets| > 1 && nets[|nets| - 1].inflight == []
  {
    var sent, net := SomethingCanBeDelivered(c, rule, holders, Start(start), 0);
    var w, z := SomeBound(c);
    FirstDelivery(c, rule, holders, start, 0, sent, net, w, z);
    var rest := Ended(c, rule, holders, net);
    assert DeliverSome(c, rule, holders, Start(start), net);
    ChainCons(c, rule, holders, Start(start), rest);
    nets := [Start(start)] + rest;
    assert forall n :: 0 <= n < |nets| - 1 ==> DeliverSome(c, rule, holders, nets[n], nets[n + 1]);
  }

  // ----- what the origin's own zone gets -----

  /** Under way to the origin's zone there are only copies, and `b` has applied or is
      still to get the change `total` times. */
  ghost predicate HomeCount(c: Cluster, home: string, net: Net, b: string, total: nat) {
    && AllInward(c, ByFlag, net.inflight)
    && (forall m | m in net.inflight :: c.views[m.to].zone == home ==> m.replication)
    && net.applied[b] + ReachAll(c, ByFlag, net.inflight, b) == total
  }

  lemma DeliverKeepsHomeCount(c: Cluster, home: string, net: Net, net': Net, i: nat, sent: seq<Msg>, b: string,
                              total: nat)
    requires Sound(c) && b in c.views && c.views[b].zone == home && HomeCount(c, home, net, b, total)
    requires Deliver(c, ByFlag, {}, net, i, sent, net')
    ensures HomeCount(c, home, net', b, total)
  {
    var m := net.inflight[i];
    assert m in net.inflight;
    var rest := net.inflight[..i] + net.inflight[i + 1..];
    ReachAllRemove(c, ByFlag, net.inflight, i, b);
    ReachAllConcat(c, ByFlag, rest, sent, b);
    InwardSends(c, ByFlag, m, true, sent);
    NoneAtHome(c, home, sent, b);
    forall x | x in net'.inflight ensures Inward(c, ByFlag, x) && (c.views[x.to].zone == home ==> x.replication) {
      assert x in net.inflight || x in sent;
    }
  }

  lemma {:induction false} NoneAtHome(c: Cluster, home: string, sent: seq<Msg>, b: string)
    requires b in c.views && c.views[b].zone == home
    requires forall x | x in sent :: x.to in c.views && x.replication && c.views[x.to].zone != home
    ensures ReachAll(c, ByFlag, sent, b) == 0
  {
    if sent != [] {
      var n := |sent| - 1;
      assert sent[n] in sent;
      NoneAtHome(c, home, sent[..n], b);
    }
  }

  /** Of what the origin sends only the copies go to its own zone. */
  lemma SentHome(c: Cluster, start: string, sent: seq<Msg>)
    requires Sound(c) && start in c.views && c.views[start].nodes != [] && Replicates(c.views[start], false, 1, sent)
    ensures forall m | m in sent ::
      m.to in c.views && (c.views[m.to].zone == c.views[start].zone ==> m.replication)
  {
    var v := c.views[start];
    var own := OwnCopies(v, |v.nodes|, 1);
    OwnListInside(c, v, start);
    OwnCopiesCost(c, ByFlag, v, |v.nodes|, 1);
    var order, drawn :| Draw(v, order, drawn) && sent == own + RelayCopies(v, order, drawn, 1);
    DrawnZones(c, v, start, order, drawn);
    RelaysAbroad(c, v, order, drawn, 1);
    forall m | m in sent ensures m.to in c.views && (c.views[m.to].zone == v.zone ==> m.replication) {
      assert m in own || m in RelayCopies(v, order, drawn, 1);
    }
  }

  lemma SentCount(c: Cluster, start: string, sent: seq<Msg>, b: string)
    requires Sound(c) && start in c.views && b in c.views && b != start && c.views[b].zone == c.views[start].zone
    requires Replicates(c.views[start], false, 1, sent)
    ensures ReachAll(c, ByFlag, sent, b) == multiset(c.views[start].nodes)[b]
  {
    var v := c.views[start];
    OwnListInside(c, v, start);
    OwnCopiesReach(c, ByFlag, v, |v.nodes|, 1, b);
    assert v.nodes[..|v.nodes|] == v.nodes;
    if v.nodes != [] {
      RelaysReach(c, ByFlag, Start(start).inflight[0], sent, b);
    }
  }

  lemma FirstHomeCount(c: Cluster, start: string, i: nat, sent: seq<Msg>, net: Net, b: string)
    requires Sound(c) && start in c.views && b in c.views && b != start && c.views[b].zone == c.views[start].zone
    requires Deliver(c, ByFlag, {}, Start(start), i, sent, net)
    ensures HomeCount(c, c.views[start].zone, net, b, multiset(c.views[start].nodes)[b])
  {
    var w, z := SomeBound(c);
    FirstDelivery(c, ByFlag, {}, start, i, sent, net, w, z);
    SentCount(c, start, sent, b);
    if c.views[start].nodes != [] {
      SentHome(c, start, sent);
    }
  }

  lemma {:induction false} RelaysAbroad(c: Cluster, v: NodeView, order: seq<string>, drawn: map<string, string>,
                                        hops: nat)
    requires v.zone !in order
    requires forall z | z in order :: z in drawn && drawn[z] in c.views && c.views[drawn[z]].zone == z
    ensures forall m | m in RelayCopies(v, order, drawn, hops) :: m.to in c.views && c.views[m.to].zone != v.zone
  {
    if order != [] {
      var n := |order| - 1;
      assert order[n] in order;
      RelaysAbroad(c, v, order[..n], drawn, hops);
    }
  }

  /** In every run that has ended, a zone-mate of the origin has applied the change as
      often as the origin's list names it. */
  lemma {:induction false} ZoneMateCount(c: Cluster, start: string, nets: seq<Net>, n: nat, b: string)
    requires Sound(c) && FloodRun(c, ByFlag, {}, start, nets) && 0 < n < |nets|
    requires b in c.views && b != start && c.views[b].zone == c.views[start].zone
    ensures HomeCount(c, c.views[start].zone, nets[n], b, multiset(c.views[start].nodes)[b])
  {
    assert DeliverSome(c, ByFlag, {}, nets[n - 1], nets[n - 1 + 1]);
    var i: nat, sent :| Deliver(c, ByFlag, {}, nets[n - 1], i, sent, nets[n]);
    if n == 1 {
      FirstHomeCount(c, start, i, sent, nets[1], b);
    } else {
      ZoneMateCount(c, start, nets, n - 1, b);
      var v := c.views[start];
      DeliverKeepsHomeCount(c, v.zone, nets[n - 1], nets[n], i, sent, b, multiset(v.nodes)[b]);
    }
  }

  // ----- the exact condition -----

  /** Every ended registration run, from every node, has been applied once everywhere. */
  ghost predicate Exact(c: Cluster) {
    forall start, nets: seq<Net> |
      start in c.views && FloodRun(c, ByFlag, {}, start, nets) && nets[|nets| - 1].inflight == [] ::
      nets[|nets| - 1].applied == multiset(c.views.Keys)
  }

  lemma MiscountedZoneMate(c: Cluster, a: string, b: string)
    requires Sound(c) && a in c.views && b in c.views && b != a && c.views[b].zone == c.views[a].zone
    requires multiset(c.views[a].nodes)[b] != 1
    ensures !Exact(c)
  {
    var nets := EndedRunExists(c, ByFlag, {}, a);
    var n := |nets| - 1;
    ZoneMateCount(c, a, nets, n, b);
    assert nets[n].applied[b] != multiset(c.views.Keys)[b];
  }

  lemma EmptyListStrandsOthers(c: Cluster, a: string, x: string)
    requires Sound(c) && a in c.views && c.views[a].nodes == [] && x in c.views && c.views[x].zone != c.views[a].zone
    ensures !Exact(c)
  {
    var sent, net := SomethingCanBeDelivered(c, ByFlag, {}, Start(a), 0);
    var w, z := SomeBound(c);
    FirstDelivery(c, ByFlag, {}, a, 0, sent, net, w, z);
    var nets := [Start(a), net];
    assert DeliverSome(c, ByFlag, {}, nets[0], nets[0 + 1]);
    assert FloodRun(c, ByFlag, {}, a, nets) && nets[|nets| - 1].inflight == [];
    assert net.applied[x] == 0 && multiset(c.views.Keys)[x] == 1;
  }

  /** With lists that name real nodes, registrations are exact, from every node, for any
      relays and in any order, exactly when each node's own list names each other node
      of its zone once. Repeated entries for foreign nodes or for the node itself do no harm. */
  lemma RegisterExactIff(c: Cluster)
    requires Sound(c)
    ensures Exact(c) <==> forall a | a in c.views :: NamesEachOnce(c, c.views[a])
  {
    if forall a | a in c.views :: NamesEachOnce(c, c.views[a]) {
      forall start, nets: seq<Net> |
        start in c.views && FloodRun(c, ByFlag, {}, start, nets) && nets[|nets| - 1].inflight == []
        ensures nets[|nets| - 1].applied == multiset(c.views.Keys)
      {
        assert Complete(c);
        RegisterReachesAllOnce(c, start, nets);
      }
    } else {
      var a :| a in c.views && !NamesEachOnce(c, c.views[a]);
      WrongListBreaks(c, a);
    }
  }

  lemma WrongListBreaks(c: Cluster, a: string)
    requires Sound(c) && a in c.views && !NamesEachOnce(c, c.views[a])
    ensures !Exact(c)
  {
    var mate, other := WrongEntry(c, a);
    if mate.Some? {
      MiscountedZoneMate(c, a, mate.value);
    } else {
      EmptyListStrandsOthers(c, a, other);
    }
  }

  /** A zone-mate that the list misses or repeats, or else no list and a node of another zone. */
  lemma WrongEntry(c: Cluster, a: string) returns (mate: Option<string>, other: string)
    requires Sound(c) && a in c.views && !NamesEachOnce(c, c.views[a])
    ensures mate.Some? ==>
      var b := mate.value;
      b in c.views && b != a && c.views[b].zone == c.views[a].zone && multiset(c.views[a].nodes)[b] != 1
    ensures mate.None? ==> c.views[a].nodes == [] && other in c.views && c.views[other].zone != c.views[a].zone
  {
    var v := c.views[a];
    mate, other := None, a;
    ZoneMates(c, a);
    if b :| b in c.zones[v.zone] && b != a && multiset(v.nodes)[b] != 1 {
      mate := Some(b);
    } else {
      assert v.nodes == [];
      other :| other in c.views && c.views[other].zone != v.zone;
    }
  }

  lemma ZoneMates(c: Cluster, a: string)
    requires Sound(c) && a in c.views
    ensures c.views[a].self == a && c.views[a].zone in c.zones
    ensures forall b | b in c.zones[c.views[a].zone] :: b in c.views && c.views[b].zone == c.views[a].zone
  {}

  /** The deployment of the documentation: two zones of three nodes, where each zone
      mounts a single node of the other. */
  function TwoZones(y: string, z: string, p: seq<string>, q: seq<string>): Cluster
    requires |p| == |q| == 3
  {
    Cluster(map[y := {p[0], p[1], p[2]}, z := {q[0], q[1], q[2]}],
            map a | a in p + q ::
              if a in p then NodeView(a, y, p, map[z := [q[0]]]) else NodeView(a, z, q, map[y := [p[0]]]))
  }

  lemma Apart(p: seq<string>, q: seq<string>)
    requires |p| == |q| == 3 && Distinct(p + q)
    ensures p[0] != p[1] && p[0] != p[2] && p[1] != p[2] && q[0] != q[1] && q[0] != q[2] && q[1] != q[2]
    ensures forall a | a in p :: a !in q
  {
    var r := p + q;
    assert r[0] == p[0] && r[1] == p[1] && r[2] == p[2] && r[3] == q[0] && r[4] == q[1] && r[5] == q[2];
  }

  lemma OnceEach(p: seq<string>, b: string)
    requires |p| == 3 && p[0] != p[1] && p[0] != p[2] && p[1] != p[2] && b in p
    ensures multiset(p)[b] == 1
  {
    assert p == [p[0], p[1], p[2]];
  }

  lemma TwoZonesSound(y: string, z: string, p: seq<string>, q: seq<string>)
    requires y != z && |p| == |q| == 3 && forall a | a in p :: a !in q
    ensures Sound(TwoZones(y, z, p, q))
  {
    var c := TwoZones(y, z, p, q);
    MembersOf(p);
    MembersOf(q);
    MountSound(c, y, z, p, q);
    MountSound(c, z, y, q, p);
    forall a | a in c.views ensures SoundView(c, c.views[a]) {
      assert a in p || a in q;
    }
  }

  lemma MembersOf(p: seq<string>)
    requires |p| == 3
    ensures forall a :: a in p <==> a in {p[0], p[1], p[2]}
  {
    assert p == [p[0], p[1], p[2]];
  }

  lemma MountSound(c: Cluster, y: string, z: string, p: seq<string>, q: seq<string>)
    requires y != z && |p| == |q| == 3 && c.zones.Keys == {y, z}
    requires (forall a :: a in p <==> a in c.zones[y]) && (forall a :: a in q <==> a in c.zones[z])
    ensures forall a :: SoundView(c, NodeView(a, y, p, map[z := [q[0]]]))
  {
    assert q[0] in q;
  }

  lemma OneMountIsEnough(y: string, z: string, p: seq<string>, q: seq<string>)
    requires y != z && |p| == |q| == 3 && Distinct(p + q)
    ensures Complete(TwoZones(y, z, p, q))
  {
    var c := TwoZones(y, z, p, q);
    Apart(p, q);
    TwoZonesSound(y, z, p, q);
    forall a | a in c.views ensures NamesEachOnce(c, c.views[a]) {
      forall b | b in c.views[a].nodes ensures multiset(c.views[a].nodes)[b] == 1 {
        OnceEach(c.views[a].nodes, b);
      }
    }
  }

  // ----- registrations that carry no status -----

  /** A delivery when forwarded registrations carry no status: the register handler
      refuses them, and takes only the client's own request. */
  ghost predicate DeliverUnsent(c: Cluster, net: Net, i: nat, sent: seq<Msg>, net': Net) {
    && i < |net.inflight| && net.inflight[i].to in c.views
    && if net.inflight[i].fromZone
       then sent == [] && net' == Net(net.inflight[..i] + net.inflight[i + 1..], net.applied)
       else Deliver(c, ByFlag, {}, net, i, sent, net')
  }

  ghost predicate DeliverSomeUnsent(c: Cluster, net: Net, net': Net) {
    exists i: nat, sent :: DeliverUnsent(c, net, i, sent, net')
  }

  lemma {:induction false} OwnCopiesFlagged(v: NodeView, n: nat, hops: nat)
    requires n <= |v.nodes|
    ensures forall m | m in OwnCopies(v, n, hops) :: m.fromZone
  {
    if n > 0 {
      OwnCopiesFlagged(v, n - 1, hops);
    }
  }

  lemma {:induction false} RelayCopiesFlagged(v: NodeView, order: seq<string>, drawn: map<string, string>, hops: nat)
    requires forall z | z in order :: z in drawn
    ensures forall m | m in RelayCopies(v, order, drawn, hops) :: m.fromZone
  {
    if order != [] {
      RelayCopiesFlagged(v, order[..|order| - 1], drawn, hops);
    }
  }

  lemma ForwardedFlagged(v: NodeView, m: Msg, sent: seq<Msg>)
    requires Forwarded(v, ByFlag, m, true, sent)
    ensures forall x | x in sent :: x.fromZone
  {
    OwnCopiesFlagged(v, |v.nodes|, m.hops + 1);
    if !m.replication && v.nodes != [] && !OtherZone(ByFlag, v, m) {
      var own := OwnCopies(v, |v.nodes|, m.hops + 1);
      var order, drawn :| Draw(v, order, drawn) && sent == own + RelayCopies(v, order, drawn, m.hops + 1);
      RelayCopiesFlagged(v, order, drawn, m.hops + 1);
    }
  }

  /** Then a registration is applied where the client sent it and nowhere else, whatever
      the lists, relays and delivery order. */
  lemma {:induction false} UnsentStatusStaysAtOrigin(c: Cluster, start: string, nets: seq<Net>, n: nat)
    requires start in c.views && 0 < n < |nets| && nets[0] == Start(start)
    requires forall m :: 0 <= m < |nets| - 1 ==> DeliverSomeUnsent(c, nets[m], nets[m + 1])
    ensures nets[n].applied == multiset{start} && forall x | x in nets[n].inflight :: x.fromZone
  {
    assert DeliverSomeUnsent(c, nets[n - 1], nets[n - 1 + 1]);
    var i: nat, sent :| DeliverUnsent(c, nets[n - 1], i, sent, nets[n]);
    if n == 1 {
      ForwardedFlagged(c.views[start], Start(start).inflight[0], sent);
      assert Start(start).inflight[..0] + Start(start).inflight[1..] == [];
    } else {
      UnsentStatusStaysAtOrigin(c, start, nets, n - 1);
      assert nets[n - 1].inflight[i] in nets[n - 1].inflight;
    }
  }
}
