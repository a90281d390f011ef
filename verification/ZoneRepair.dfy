/** How many heartbeats bring the copies of one instance in a whole zone together, when
    the peers' answers come through and the registrations that follow are accepted. */
module ZoneRepair {
  import opened Sequences
  import opened Wrappers

  import opened Instances
  import opened Repair

  /** The copy at the node that gets the heartbeats, and those of its zone-mates. */
  datatype Copies = Copies(origin: Instance, mates: seq<Option<Instance>>)

  // ----- one heartbeat, call by call -----

  /** The registration that the call to the j-th zone-mate leads to, for the copy that
      was sent, arrives. */
  function Called(c: Copies, sent: Instance, j: nat, wire: Wire): Copies
    requires j < |c.mates|
  {
    match FollowupOf(sent, Faithful(sent, c.mates[j], true))
    case Nothing => c
    case AtPeer(i) => c.(mates := c.mates[j := Received(c.mates[j], i, wire)])
    case AtSelf(i) => c.(origin := Received(Some(c.origin), i, wire).value)
  }

  /** `order` lists each zone-mate once, in the order in which their registrations arrive. */
  ghost predicate Arrivals(c: Copies, order: seq<nat>, wires: seq<Wire>) {
    && Distinct(order) && |wires| == |order| && forall j: nat :: j in order <==> j < |c.mates|
  }

  ghost function AfterArrivals(c: Copies, order: seq<nat>, wires: seq<Wire>, n: nat): (r: Copies)
    requires Arrivals(c, order, wires) && n <= |order|
    ensures |r.mates| == |c.mates|
  {
    if n == 0 then c
    else
      assert order[n - 1] in order;
      Called(AfterArrivals(c, order, wires, n - 1), c.origin, order[n - 1], wires[n - 1])
  }

  predicate StepAccepted(c: Copies, sent: Instance, j: nat, wire: Wire)
    requires j < |c.mates|
  {
    match FollowupOf(sent, Faithful(sent, c.mates[j], true))
    case Nothing => true
    case AtPeer(i) => Accepted(i, c.mates[j], wire)
    case AtSelf(i) => Accepted(i, Some(c.origin), wire)
  }

  /** Every registration that follows is taken. */
  ghost predicate AllAccepted(c: Copies, order: seq<nat>, wires: seq<Wire>)
    requires Arrivals(c, order, wires)
  {
    forall n: nat | n < |order| :: NthAccepted(c, order, wires, n)
  }

  ghost predicate NthAccepted(c: Copies, order: seq<nat>, wires: seq<Wire>, n: nat)
    requires Arrivals(c, order, wires) && n < |order|
  {
    assert order[n] in order;
    StepAccepted(AfterArrivals(c, order, wires, n), c.origin, order[n], wires[n])
  }

  // ----- what one heartbeat amounts to -----

  predicate Ahead(c: Copies, j: nat) {
    j < |c.mates| && c.mates[j].Some? && c.mates[j].value.dirtyTs > c.origin.dirtyTs
  }

  /** A zone-mate without a copy or with an older one ends with the origin's DirtyTimestamp,
      any other keeps its own. */
  predicate MateAfter(c: Copies, j: nat, after: Option<Instance>)
    requires j < |c.mates|
  {
    && after.Some?
    && after.value.dirtyTs == if Ahead(c, j) then c.mates[j].value.dirtyTs else c.origin.dirtyTs
  }

  /** The origin takes over from one of the zone-mates ahead of it, if there is any. */
  ghost predicate OriginAfter(c: Copies, js: seq<nat>, after: Instance) {
    if exists j: nat :: j in js && Ahead(c, j)
    then exists j: nat :: j in js && Ahead(c, j) && after.dirtyTs == c.mates[j].value.dirtyTs
    else after == c.origin
  }

  ghost predicate Told(c: Copies, c': Copies) {
    && |c'.mates| == |c.mates|
    && (forall j: nat | j < |c.mates| :: MateAfter(c, j, c'.mates[j]))
    && (if exists j: nat :: Ahead(c, j)
        then exists j: nat :: Ahead(c, j) && c'.origin.dirtyTs == c.mates[j].value.dirtyTs
        else c'.origin.dirtyTs == c.origin.dirtyTs)
  }

  lemma CalledOne(c: Copies, sent: Instance, j: nat, wire: Wire)
    requires j < |c.mates| && StepAccepted(c, sent, j, wire)
    ensures
      var c' := Called(c, sent, j, wire);
      && |c'.mates| == |c.mates| && (forall x: nat | x < |c.mates| && x != j :: c'.mates[x] == c.mates[x])
      && c'.mates[j].Some?
      && (if c.mates[j].Some? && c.mates[j].value.dirtyTs > sent.dirtyTs
          then c'.mates[j] == c.mates[j] && c'.origin.dirtyTs == c.mates[j].value.dirtyTs
          else c'.mates[j].value.dirtyTs == sent.dirtyTs && c'.origin == c.origin)
  {}

  /** The mates called so far are as after the heartbeat, the others as before. */
  ghost predicate MatesSoFar(c: Copies, js: seq<nat>, r: Copies) {
    && |r.mates| == |c.mates|
    && forall j: nat | j < |c.mates| :: if j in js then MateAfter(c, j, r.mates[j]) else r.mates[j] == c.mates[j]
  }

  lemma OneMoreCalled(c: Copies, js: seq<nat>, r: Copies, j: nat, wire: Wire)
    requires MatesSoFar(c, js, r) && OriginAfter(c, js, r.origin) && j < |c.mates| && j !in js
    requires StepAccepted(r, c.origin, j, wire)
    ensures MatesSoFar(c, js + [j], Called(r, c.origin, j, wire))
    ensures OriginAfter(c, js + [j], Called(r, c.origin, j, wire).origin)
  {
    CalledOne(r, c.origin, j, wire);
    assert j in js + [j];
  }

  lemma {:induction false} SoFar(c: Copies, order: seq<nat>, wires: seq<Wire>, n: nat)
    requires Arrivals(c, order, wires) && AllAccepted(c, order, wires) && n <= |order|
    ensures MatesSoFar(c, order[..n], AfterArrivals(c, order, wires, n))
    ensures OriginAfter(c, order[..n], AfterArrivals(c, order, wires, n).origin)
  {
    if n > 0 {
      SoFar(c, order, wires, n - 1);
      assert NthAccepted(c, order, wires, n - 1);
      assert order[..n] == order[..n - 1] + [order[n - 1]] && order[n - 1] in order;
      OneMoreCalled(c, order[..n - 1], AfterArrivals(c, order, wires, n - 1), order[n - 1], wires[n - 1]);
    }
  }

  /** In whatever order the registrations arrive. */
  lemma HeartbeatTells(c: Copies, order: seq<nat>, wires: seq<Wire>)
    requires Arrivals(c, order, wires) && AllAccepted(c, order, wires)
    ensures Told(c, AfterArrivals(c, order, wires, |order|))
  {
    SoFar(c, order, wires, |order|);
    assert order[..|order|] == order;
    forall j: nat | Ahead(c, j) ensures j in order {}
  }

  // ----- heartbeat after heartbeat -----

  ghost function AllAhead(c: Copies): set<nat> {
    set j: nat | j < |c.mates| && Ahead(c, j)
  }

  /** The largest DirtyTimestamp of all copies. */
  ghost predicate Largest(c: Copies, d: int) {
    && c.origin.dirtyTs <= d && (forall j: nat | j < |c.mates| && c.mates[j].Some? :: c.mates[j].value.dirtyTs <= d)
    && (c.origin.dirtyTs == d || exists j: nat :: j < |c.mates| && c.mates[j].Some? && c.mates[j].value.dirtyTs == d)
  }

  ghost predicate AllHold(c: Copies, d: int) {
    c.origin.dirtyTs == d && forall j: nat | j < |c.mates| :: c.mates[j].Some? && c.mates[j].value.dirtyTs == d
  }

  lemma NobodyAhead(c: Copies, d: int)
    requires Largest(c, d)
    ensures c.origin.dirtyTs == d || AllAhead(c) != {}
  {
    if c.origin.dirtyTs != d {
      var j: nat :| j < |c.mates| && c.mates[j].Some? && c.mates[j].value.dirtyTs == d;
      assert j in AllAhead(c);
    }
  }

  /** No heartbeat loses the largest DirtyTimestamp, and fewer copies stay ahead. */
  lemma OneHeartbeat(c: Copies, c': Copies, d: int)
    requires Told(c, c') && Largest(c, d)
    ensures Largest(c', d)
    ensures AllAhead(c) != {} ==> AllAhead(c') < AllAhead(c)
    ensures AllAhead(c) == {} ==> AllHold(c', d)
  {
    forall j: nat | j < |c.mates| ensures c'.mates[j].Some? && c'.mates[j].value.dirtyTs <= d {
      assert MateAfter(c, j, c'.mates[j]);
    }
    if AllAhead(c) == {} {
      forall j: nat | j < |c.mates| ensures !Ahead(c, j) {
        assert j !in AllAhead(c);
      }
      NobodyAhead(c, d);
    } else {
      var j0 :| j0 in AllAhead(c);
      assert Ahead(c, j0);
      var j: nat :| Ahead(c, j) && c'.origin.dirtyTs == c.mates[j].value.dirtyTs;
      assert MateAfter(c, j, c'.mates[j]);
      assert j in AllAhead(c) && j !in AllAhead(c');
      forall x | x in AllAhead(c') ensures x in AllAhead(c) {
        assert MateAfter(c, x, c'.mates[x]);
      }
      TopStays(c, c', d);
    }
  }

  lemma TopStays(c: Copies, c': Copies, d: int)
    requires Told(c, c') && Largest(c, d) && exists j: nat :: Ahead(c, j)
    ensures exists j: nat :: j < |c'.mates| && c'.mates[j].Some? && c'.mates[j].value.dirtyTs == d
  {
    var x: nat :| Ahead(c, x);
    var j: nat :| j < |c.mates| && c.mates[j].Some? && c.mates[j].value.dirtyTs == d;
    assert Ahead(c, j) && MateAfter(c, j, c'.mates[j]);
  }

  lemma Fewer(a: set<nat>, b: set<nat>)
    requires a < b
    ensures |a| < |b|
  {
    assert b == a + (b - a);
  }

  lemma {:induction false} ToldConverges(cs: seq<Copies>, n: nat, d: int)
    requires n < |cs| && (forall m :: 0 <= m < |cs| - 1 ==> Told(cs[m], cs[m + 1])) && Largest(cs[0], d)
    ensures Largest(cs[n], d)
    ensures n > |AllAhead(cs[0])| ==> AllHold(cs[n], d)
    decreases n
  {
    if n > 0 {
      assert Told(cs[0], cs[0 + 1]);
      OneHeartbeat(cs[0], cs[1], d);
      forall m | 0 <= m < |cs[1..]| - 1 ensures Told(cs[1..][m], cs[1..][m + 1]) {
        assert Told(cs[m + 1], cs[m + 1 + 1]);
      }
      ToldConverges(cs[1..], n - 1, d);
      if AllAhead(cs[0]) != {} {
        Fewer(AllAhead(cs[1]), AllAhead(cs[0]));
      } else {
        HeldStaysHeld(cs, n, d);
      }
    }
  }

  /** One heartbeat, with the registrations in some order and all of them accepted. */
  ghost predicate Heartbeat(c: Copies, c': Copies) {
    exists order, wires ::
      Arrivals(c, order, wires) && AllAccepted(c, order, wires) && c' == AfterArrivals(c, order, wires, |order|)
  }

  /** One heartbeat more than there are zone-mates ahead of the origin brings every copy of
      the zone to the largest DirtyTimestamp, and it stays there. */
  lemma ZoneConverges(cs: seq<Copies>, n: nat, d: int)
    requires n < |cs| && (forall m :: 0 <= m < |cs| - 1 ==> Heartbeat(cs[m], cs[m + 1])) && Largest(cs[0], d)
    ensures Largest(cs[n], d)
    ensures n > |AllAhead(cs[0])| ==> AllHold(cs[n], d)
  {
    forall m | 0 <= m < |cs| - 1 ensures Told(cs[m], cs[m + 1]) {
      HeartbeatIsTold(cs[m], cs[m + 1]);
    }
    ToldConverges(cs, n, d);
  }

  lemma HeartbeatIsTold(c: Copies, c': Copies)
    requires Heartbeat(c, c')
    ensures Told(c, c')
  {
    var order, wires :| Arrivals(c, order, wires) && AllAccepted(c, order, wires)
                        && c' == AfterArrivals(c, order, wires, |order|);
    HeartbeatTells(c, order, wires);
  }

  lemma {:induction false} HeldStaysHeld(cs: seq<Copies>, n: nat, d: int)
    requires 1 <= n < |cs| && (forall m :: 0 <= m < |cs| - 1 ==> Told(cs[m], cs[m + 1])) && AllHold(cs[1], d)
    ensures AllHold(cs[n], d)
    decreases n
  {
    if n > 1 {
      HeldStaysHeld(cs, n - 1, d);
      assert Told(cs[n - 1], cs[n - 1 + 1]);
      forall j: nat | j < |cs[n].mates| ensures MateAfter(cs[n - 1], j, cs[n].mates[j]) {}
    }
  }

  // ----- two heartbeats need not do -----

  /** Two heartbeats do exactly when the first has brought the largest DirtyTimestamp to
      the origin: nobody was ahead of it, or a largest copy registered last. */
  lemma TwoSufficeIff(c0: Copies, c1: Copies, c2: Copies, d: int)
    requires Heartbeat(c0, c1) && Heartbeat(c1, c2) && Largest(c0, d)
    ensures AllHold(c2, d) <==> c1.origin.dirtyTs == d
  {
    HeartbeatIsTold(c0, c1);
    HeartbeatIsTold(c1, c2);
    OneHeartbeat(c0, c1, d);
    OneHeartbeat(c1, c2, d);
    if c1.origin.dirtyTs == d {
      assert AllAhead(c1) == {} by {
        forall j: nat | j < |c1.mates| ensures !Ahead(c1, j) {}
      }
    } else {
      StillBehind(c0, c1, c2, d);
    }
  }

  /** The zone-mate that the origin took over from is left behind. */
  lemma StillBehind(c0: Copies, c1: Copies, c2: Copies, d: int)
    requires Told(c0, c1) && Told(c1, c2) && Largest(c0, d) && c1.origin.dirtyTs < d
    ensures !AllHold(c2, d)
  {
    NobodyAhead(c0, d);
    if exists j: nat :: Ahead(c0, j) {
      var j: nat :| Ahead(c0, j) && c1.origin.dirtyTs == c0.mates[j].value.dirtyTs;
      assert MateAfter(c0, j, c1.mates[j]) && MateAfter(c1, j, c2.mates[j]);
    }
  }

  function Dated(i: Instance, d: int): Instance {
    i.(dirtyTs := d)
  }

  /** The origin at 3 and zone-mates at 5 and 7: when the registration of the 5 arrives
      last, the second heartbeat still finds one copy ahead, and two leave the 5 behind. */
  lemma TwoAreNotEnough(i: Instance, w: Wire)
    requires Admitted(w) && i.latestTs <= w.stamp
    ensures
      var c0 := Copies(Dated(i, 3), [Some(Dated(i, 5)), Some(Dated(i, 7))]);
      && Arrivals(c0, [1, 0], [w, w]) && AllAccepted(c0, [1, 0], [w, w])
      && var c1 := AfterArrivals(c0, [1, 0], [w, w], 2);
      && Arrivals(c1, [1, 0], [w, w]) && AllAccepted(c1, [1, 0], [w, w])
      && var c2 := AfterArrivals(c1, [1, 0], [w, w], 2);
      && c1.origin.dirtyTs == 5 && c2.origin.dirtyTs == 7 && c2.mates == c0.mates
  {
    var c0 := Copies(Dated(i, 3), [Some(Dated(i, 5)), Some(Dated(i, 7))]);
    TwoCalls(c0, w);
    TwoCalls(AfterArrivals(c0, [1, 0], [w, w], 2), w);
  }

  /** Two zone-mates, called in the order 1, 0, neither of them behind the origin. */
  lemma TwoCalls(c: Copies, w: Wire)
    requires |c.mates| == 2 && c.mates[0].Some? && c.mates[1].Some? && Admitted(w) && c.origin.latestTs <= w.stamp
    requires c.origin.dirtyTs >= 1
    requires c.mates[0].value.dirtyTs >= c.origin.dirtyTs && c.mates[1].value.dirtyTs >= c.origin.dirtyTs
    ensures Arrivals(c, [1, 0], [w, w]) && AllAccepted(c, [1, 0], [w, w])
    ensures
      var c' := AfterArrivals(c, [1, 0], [w, w], 2);
      && c'.mates == c.mates && c'.origin.latestTs <= w.stamp
      && c'.origin.dirtyTs == if Ahead(c, 0) then c.mates[0].value.dirtyTs
                              else if Ahead(c, 1) then c.mates[1].value.dirtyTs else c.origin.dirtyTs
  {
    var order: seq<nat> := [1, 0];
    assert order[0] == 1 && order[1] == 0;
    assert Arrivals(c, order, [w, w]);
    var c1 := Called(c, c.origin, 1, w);
    UpToDateMate(c, c.origin, 1, w);
    UpToDateMate(c1, c.origin, 0, w);
    Unrolled(c, order, [w, w], c1);
  }

  lemma Unrolled(c: Copies, order: seq<nat>, wires: seq<Wire>, c1: Copies)
    requires Arrivals(c, order, wires) && |order| == 2 && order[0] < |c.mates| && order[1] < |c.mates|
    requires c1 == Called(c, c.origin, order[0], wires[0]) && StepAccepted(c, c.origin, order[0], wires[0])
    requires |c1.mates| == |c.mates| && StepAccepted(c1, c.origin, order[1], wires[1])
    ensures AllAccepted(c, order, wires)
      && AfterArrivals(c, order, wires, 2) == Called(c1, c.origin, order[1], wires[1])
  {
    assert AfterArrivals(c, order, wires, 0) == c && AfterArrivals(c, order, wires, 1) == c1;
    assert NthAccepted(c, order, wires, 0) && NthAccepted(c, order, wires, 1);
  }

  lemma UpToDateMate(c: Copies, sent: Instance, j: nat, w: Wire)
    requires j < |c.mates| && c.mates[j].Some? && c.mates[j].value.dirtyTs >= sent.dirtyTs >= 1
    requires Admitted(w) && c.origin.latestTs <= w.stamp
    ensures StepAccepted(c, sent, j, w)
    ensures
      var c' := Called(c, sent, j, w);
      && c'.mates == c.mates && c'.origin.latestTs <= w.stamp
      && c'.origin.dirtyTs
           == if c.mates[j].value.dirtyTs > sent.dirtyTs then c.mates[j].value.dirtyTs else c.origin.dirtyTs
  {}
}
