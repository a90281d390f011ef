/** The Nodes object of registry/nodes.go, with the flags that node.go puts on a
    forwarded request. */
module NodesObject {
  import opened Sequences

  import opened Flood

  datatype NodeStatus = Up | Lost

  /** A remote node as this node sees it. */
  datatype Peer = Peer(addr: string, zone: string, otherZone: bool, status: NodeStatus)

  /** The request a call to `p` makes: it always says from_zone, and it says
      replication unless the peer is to relay it within its own zone. */
  function Call(p: Peer, self: string, hops: nat): Msg {
    Msg(p.addr, !p.otherZone, true, self, hops)
  }

  function Peers(addrs: seq<string>, zone: string, otherZone: bool): seq<Peer> {
    seq(|addrs|, i requires 0 <= i < |addrs| => Peer(addrs[i], zone, otherZone, Lost))
  }

  function Addrs(peers: seq<Peer>): seq<string> {
    seq(|peers|, i requires 0 <= i < |peers| => peers[i].addr)
  }

  lemma AddrsOfPeers(addrs: seq<string>, zone: string, otherZone: bool)
    ensures Addrs(Peers(addrs, zone, otherZone)) == addrs
  {}

  method NewPeers(addrs: seq<string>, zone: string, otherZone: bool) returns (peers: seq<Peer>)
    ensures peers == Peers(addrs, zone, otherZone)
  {
    peers := [];
    var i := 0;
    while i < |addrs|
      invariant 0 <= i <= |addrs| && peers == Peers(addrs[..i], zone, otherZone)
    {
      peers := peers + [Peer(addrs[i], zone, otherZone, Lost)];
      i := i + 1;
    }
    assert addrs[..i] == addrs;
  }

  /** The configuration NewNodes reads. */
  datatype Config = Config(addr: string, zone: string, nodes: seq<string>, zones: map<string, seq<string>>)

  class Nodes {
    var nodes: seq<Peer>
    var zones: map<string, seq<Peer>>
    const selfAddr: string
    ghost const zone: string

    /** Own-zone peers replicate, foreign peers relay. */
    ghost predicate Valid()
      reads this
    {
      && (forall i :: 0 <= i < |nodes| ==> !nodes[i].otherZone)
      && (forall z, i | z in zones && 0 <= i < |zones[z]| :: zones[z][i].otherZone)
    }

    ghost function View(): NodeView
      reads this
    {
      NodeView(selfAddr, zone, Addrs(nodes), map z | z in zones :: Addrs(zones[z]))
    }

    constructor (c: Config)
      ensures Valid() && View() == NodeView(c.addr, c.zone, c.nodes, c.zones)
    {
      selfAddr, zone := c.addr, c.zone;
      var own := NewPeers(c.nodes, c.zone, false);
      var others: map<string, seq<Peer>> := map[];
      var left := c.zones.Keys;
      while left != {}
        invariant left <= c.zones.Keys && others.Keys == c.zones.Keys - left
        invariant forall z | z in others :: others[z] == Peers(c.zones[z], z, true)
        decreases |left|
      {
        var z :| z in left;
        left := left - {z};
        var zns := NewPeers(c.zones[z], z, true);
        others := others[z := zns];
      }
      nodes, zones := own, others;
      AddrsOfPeers(c.nodes, c.zone, false);
      forall z | z in c.zones ensures Addrs(others[z]) == c.zones[z] {
        AddrsOfPeers(c.zones[z], z, true);
      }
    }

    predicate Myself(addr: string) {
      selfAddr == addr
    }

    /** One request per other node of the own zone and, for a request that has not
        crossed zones yet, one to a random node of every other zone. */
    method Replicate(otherZone: bool, hops: nat) returns (sent: seq<Msg>)
      requires Valid()
      ensures Replicates(View(), otherZone, hops, sent)
    {
      sent := [];
      if |nodes| == 0 {
        return;
      }
      var i := 0;
      while i < |nodes|
        invariant 0 <= i <= |nodes|
        invariant sent == OwnCopies(View(), i, hops)
      {
        if !Myself(nodes[i].addr) {
          sent := sent + [Call(nodes[i], selfAddr, hops)];
        }
        i := i + 1;
      }
      if !otherZone {
        var relays, order, drawn := Relay(hops);
        sent := sent + relays;
      }
    }

    /** The second loop of Replicate: a random node of every other zone. */
    method Relay(hops: nat) returns (sent: seq<Msg>, ghost order: seq<string>, ghost drawn: map<string, string>)
      requires Valid()
      ensures Draw(View(), order, drawn) && sent == RelayCopies(View(), order, drawn, hops)
    {
      sent, order, drawn := [], [], map[];
      var left := zones.Keys;
      while left != {}
        invariant left <= zones.Keys
        invariant DrawSoFar(View(), order, drawn, left)
        invariant sent == RelayCopies(View(), order, drawn, hops)
        decreases |left|
      {
        var z :| z in left;
        left := left - {z};
        if |zones[z]| > 0 {
          var n: nat :| n < |zones[z]|;
          var node := zones[z][n];
          assert Addrs(zones[z])[n] == node.addr;
          DrawMore(View(), order, drawn, left, z, node.addr, hops);
          order, drawn := order + [z], drawn[z := node.addr];
          sent := sent + [Call(node, selfAddr, hops)];
        }
      }
    }

    /** The node marks itself as up. */
    method MarkUp()
      requires Valid()
      modifies this`nodes
      ensures Valid() && View() == old(View())
      ensures |nodes| == |old(nodes)| && forall j :: 0 <= j < |nodes| ==>
        nodes[j] == if old(nodes)[j].addr == selfAddr then old(nodes)[j].(status := Up) else old(nodes)[j]
    {
      var i := 0;
      while i < |nodes|
        invariant 0 <= i <= |nodes| == |old(nodes)|
        invariant forall j :: 0 <= j < |nodes| ==>
          nodes[j] == if j < i && old(nodes)[j].addr == selfAddr then old(nodes)[j].(status := Up) else old(nodes)[j]
      {
        if Myself(nodes[i].addr) {
          nodes := nodes[i := nodes[i].(status := Up)];
        }
        i := i + 1;
      }
      assert Addrs(nodes) == Addrs(old(nodes));
    }
  }

  /** The draws made before the zones in `left` are visited. */
  ghost predicate DrawSoFar(v: NodeView, order: seq<string>, drawn: map<string, string>, left: set<string>) {
    && Distinct(order)
    && (forall z :: z in order <==> z in v.zones && z !in left && v.zones[z] != [])
    && (forall z | z in order :: z in drawn && drawn[z] in v.zones[z])
  }

  lemma {:induction false} RelaysIgnore(v: NodeView, order: seq<string>, drawn: map<string, string>, z: string,
                                        addr: string, hops: nat)
    requires z !in order && forall x | x in order :: x in drawn
    ensures RelayCopies(v, order, drawn[z := addr], hops) == RelayCopies(v, order, drawn, hops)
  {
    if order != [] {
      RelaysIgnore(v, order[..|order| - 1], drawn, z, addr, hops);
      assert order[|order| - 1] in order;
    }
  }

  lemma DrawMore(v: NodeView, order: seq<string>, drawn: map<string, string>, left: set<string>, z: string,
                 addr: string, hops: nat)
    requires DrawSoFar(v, order, drawn, left + {z}) && z !in left && z in v.zones && addr in v.zones[z]
    ensures DrawSoFar(v, order + [z], drawn[z := addr], left)
    ensures RelayCopies(v, order + [z], drawn[z := addr], hops)
      == RelayCopies(v, order, drawn, hops) + [Msg(addr, false, true, v.self, hops)]
  {
    RelaysIgnore(v, order, drawn, z, addr, hops);
    assert (order + [z])[..|order|] == order;
    assert z !in order;
  }
}
