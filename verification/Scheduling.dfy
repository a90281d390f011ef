/** Choosing the instances of a zone by the scheduler's table and rescaling their
    weights in place. */
module SchedulingObject {
  import opened Sequences
  import opened Wrappers

  import opened Proportion
  import opened RepeatedCalls

  /** One row of the scheduler's table. */
  datatype Schedule = Schedule(src: string, dst: map<string, int>)

  /** One destination visited while the matching rows are walked. */
  datatype Stop = Stop(zone: string, weight: int)

  /** A call either returns a list or dies of a runtime error. */
  datatype Outcome = Panicked | Chosen(list: seq<Backend>)

  // ----- the weight of one instance -----

  /** The stored weight as a number: no metadata, or no usable number in it, reads as 0. */
  function Read(m: Option<int>): int {
    if m.Some? then m.value else 0
  }

  /** The stored weight after being rescaled n times by a factor, if there is one. */
  function After(m: Option<int>, factor: Option<int>, n: nat): Option<int> {
    if n == 0 then m else Once(After(m, factor, n - 1), factor)
  }

  function Once(m: Option<int>, factor: Option<int>): Option<int> {
    var w := Effective(Read(m));
    Some(if factor.Some? then Wrap(w * factor.value) else w)
  }

  function FactorOf(fix: map<string, int>, zone: string): Option<int> {
    if zone in fix then Some(fix[zone]) else None
  }

  /** An instance as the client holds it: its own zone and the weight in its metadata,
      `None` when there is no metadata map. */
  class Backend {
    const zone: string
    var weight: Option<int>

    constructor (zone: string, weight: Option<int>)
      ensures this.zone == zone && this.weight == weight
    {
      this.zone := zone;
      this.weight := weight;
    }

    /** Reads the weight, applies the zone's factor if there is one, and writes it back. */
    method Rescale(fix: map<string, int>)
      modifies this
      ensures weight == Once(old(weight), FactorOf(fix, zone))
    {
      var w := Effective(Read(weight));
      weight := Some(if zone in fix then Wrap(w * fix[zone]) else w);
    }
  }

  ghost function Raws(list: seq<Backend>): (ws: seq<int>)
    reads list
    ensures |ws| == |list| && forall j :: 0 <= j < |list| ==> ws[j] == Read(list[j].weight)
  {
    if list == [] then [] else Raws(list[..|list| - 1]) + [Read(list[|list| - 1].weight)]
  }

  /** The total weight of one zone, in 64-bit arithmetic. */
  method TotalWeight(list: seq<Backend>) returns (total: int)
    ensures total == Wrap(Sum(EffectiveAll(Raws(list))))
  {
    total := 0;
    ghost var es := EffectiveAll(Raws(list));
    for i := 0 to |list|
      invariant total == Wrap(Sum(es[..i]))
    {
      assert es[..i + 1][..i] == es[..i];
      WrapAdd(Sum(es[..i]), es[i]);
      total := Wrap(total + Effective(Read(list[i].weight)));
    }
    assert es[..|list|] == es;
  }

  // ----- the walk -----

  /** The destinations of the rows that match `src`, in the table's order. */
  function Matches(rows: seq<Schedule>, src: string): seq<map<string, int>> {
    if rows == [] then []
    else
      var rest := Matches(rows[..|rows| - 1], src);
      var row := rows[|rows| - 1];
      if row.src == src then rest + [row.dst] else rest
  }

  /** `stops` lists each of `zones` once, with its weight in `dst`. */
  ghost predicate Lists(dst: map<string, int>, zones: set<string>, stops: seq<Stop>) {
    && (forall i :: 0 <= i < |stops| ==>
      stops[i].zone in zones && stops[i].zone in dst && stops[i].weight == dst[stops[i].zone])
    && (forall z | z in zones :: exists i :: 0 <= i < |stops| && stops[i].zone == z)
    && (forall i, j :: 0 <= i < j < |stops| ==> stops[i].zone != stops[j].zone)
  }

  /** The walk lists the destinations of each matching row in turn. */
  ghost predicate Legal(dsts: seq<map<string, int>>, walk: seq<Stop>)
    decreases |dsts|
  {
    if dsts == [] then walk == []
    else
      var n := |dsts| - 1;
      exists m: nat :: m <= |walk| && Legal(dsts[..n], walk[..m]) && Lists(dsts[n], dsts[n].Keys, walk[m..])
  }

  /** The i-th stop is a destination of a row for `src`, with that row's weight. */
  ghost predicate FromRow(rows: seq<Schedule>, src: string, stop: Stop) {
    exists j ::
      && 0 <= j < |rows| && rows[j].src == src
      && stop.zone in rows[j].dst && stop.weight == rows[j].dst[stop.zone]
  }

  /** Row j is the only one for `src`. */
  predicate OnlyRow(rows: seq<Schedule>, src: string, j: nat) {
    j < |rows| && rows[j].src == src && forall i :: 0 <= i < |rows| && i != j ==> rows[i].src != src
  }

  predicate NoRow(rows: seq<Schedule>, src: string) {
    forall i :: 0 <= i < |rows| ==> rows[i].src != src
  }

  lemma {:induction false} MatchesAre(rows: seq<Schedule>, src: string, d: map<string, int>)
    ensures d in Matches(rows, src) <==> exists j :: 0 <= j < |rows| && rows[j].src == src && rows[j].dst == d
  {
    if rows != [] {
      var n := |rows| - 1;
      MatchesAre(rows[..n], src, d);
      assert forall j :: 0 <= j < n ==> rows[..n][j] == rows[j];
    }
  }

  lemma {:induction false} NoMatches(rows: seq<Schedule>, src: string)
    requires NoRow(rows, src)
    ensures Matches(rows, src) == []
  {
    if rows != [] {
      NoMatches(rows[..|rows| - 1], src);
    }
  }

  lemma {:induction false} OnlyMatch(rows: seq<Schedule>, src: string, j: nat)
    requires OnlyRow(rows, src, j)
    ensures Matches(rows, src) == [rows[j].dst]
  {
    var n := |rows| - 1;
    if j == n {
      NoMatches(rows[..n], src);
    } else {
      OnlyMatch(rows[..n], src, j);
    }
  }

  /** Every destination of every listed row is a stop, and every stop is one. */
  lemma {:induction false} LegalStops(dsts: seq<map<string, int>>, walk: seq<Stop>, stop: Stop)
    requires Legal(dsts, walk)
    ensures stop in walk <==> exists d :: d in dsts && stop.zone in d && stop.weight == d[stop.zone]
    decreases |dsts|
  {
    if dsts != [] {
      var n := |dsts| - 1;
      var m: nat :| m <= |walk| && Legal(dsts[..n], walk[..m]) && Lists(dsts[n], dsts[n].Keys, walk[m..]);
      LegalStops(dsts[..n], walk[..m], stop);
      ListsStops(dsts[n], walk[m..], stop);
      assert walk == walk[..m] + walk[m..] && dsts == dsts[..n] + [dsts[n]];
    }
  }

  lemma ListsStops(dst: map<string, int>, stops: seq<Stop>, stop: Stop)
    requires Lists(dst, dst.Keys, stops)
    ensures stop in stops <==> stop.zone in dst && stop.weight == dst[stop.zone]
  {
    if stop.zone in dst {
      var i: nat :| i < |stops| && stops[i].zone == stop.zone;
      assert stops[i] in stops;
    }
  }

  /** The walk's stops are exactly the destinations of the rows for the zone, each with its
      row's weight. */
  lemma WalkIsOfRows(rows: seq<Schedule>, src: string, walk: seq<Stop>, stop: Stop)
    requires Legal(Matches(rows, src), walk)
    ensures stop in walk <==> FromRow(rows, src, stop)
  {
    LegalStops(Matches(rows, src), walk, stop);
    if d :| d in Matches(rows, src) && stop.zone in d && stop.weight == d[stop.zone] {
      MatchesAre(rows, src, d);
    }
    if FromRow(rows, src, stop) {
      var j :|
        && 0 <= j < |rows| && rows[j].src == src
        && stop.zone in rows[j].dst && stop.weight == rows[j].dst[stop.zone];
      MatchesAre(rows, src, rows[j].dst);
    }
  }

  /** What the table alone decides about a walk. */
  lemma RowsDecide(rows: seq<Schedule>, src: string, walk: seq<Stop>)
    requires Legal(Matches(rows, src), walk)
    ensures forall stop :: stop in walk <==> FromRow(rows, src, stop)
    ensures NoRow(rows, src) ==> walk == []
    ensures forall j: nat | OnlyRow(rows, src, j) ::
      Matches(rows, src) == [rows[j].dst] && Lists(rows[j].dst, rows[j].dst.Keys, walk)
  {
    forall stop ensures stop in walk <==> FromRow(rows, src, stop) {
      WalkIsOfRows(rows, src, walk, stop);
    }
    if NoRow(rows, src) {
      NoMatches(rows, src);
    }
    forall j: nat | OnlyRow(rows, src, j)
      ensures Matches(rows, src) == [rows[j].dst] && Lists(rows[j].dst, rows[j].dst.Keys, walk)
    {
      OnlyMatch(rows, src, j);
      OneMatch(Matches(rows, src), walk);
    }
  }

  type Zones = map<string, seq<Backend>>

  function ListAt(instances: Zones, z: string): seq<Backend> {
    if z in instances then instances[z] else []
  }

  /** The instances picked up along a walk. */
  ghost function Picked(instances: Zones, walk: seq<Stop>): seq<Backend> {
    if walk == [] then []
    else
      var n := |walk| - 1;
      Picked(instances, walk[..n]) + ListAt(instances, walk[n].zone)
  }

  function TotalAt(weights: Weights, z: string): seq<int> {
    if z in weights then [Wrap(Sum(EffectiveAll(weights[z])))] else []
  }

  lemma Onward(instances: Zones, weights: Weights, walk: seq<Stop>, stop: Stop)
    ensures Picked(instances, walk + [stop]) == Picked(instances, walk) + ListAt(instances, stop.zone)
    ensures Noted(weights, walk + [stop]) == Noted(weights, walk) + TotalAt(weights, stop.zone)
  {
    assert (walk + [stop])[..|walk|] == walk;
  }

  /** The totals noted along a walk: one per zone that is present. */
  ghost function Noted(weights: Weights, walk: seq<Stop>): seq<int> {
    if walk == [] then []
    else
      var n := |walk| - 1;
      Noted(weights, walk[..n]) + TotalAt(weights, walk[n].zone)
  }

  /** What has been picked and noted is what the walk so far leads to. */
  ghost predicate Tracks(instances: Zones, weights: Weights, walk: seq<Stop>, picked: seq<Backend>, totals: seq<int>) {
    picked == Picked(instances, walk) && totals == Noted(weights, walk)
  }

  ghost function Backends(instances: Zones): set<Backend> {
    set z, b | z in instances && b in instances[z] :: b
  }

  ghost function WeightsOf(instances: Zones): (w: Weights)
    reads Backends(instances)
  {
    map z | z in instances ::
      assert forall b | b in instances[z] :: b in Backends(instances); Raws(instances[z])
  }

  /** The stored weight of each backend. */
  ghost function Held(instances: Zones): map<Backend, Option<int>>
    reads Backends(instances)
  {
    map b | b in Backends(instances) :: b.weight
  }

  // ----- the calibration factors -----

  /** The factor of the i-th stop; the division truncates and both results wrap. */
  function Factor(walk: seq<Stop>, totals: seq<int>, i: nat): int
    requires i < |walk| && i < |totals| && totals[i] != 0
  {
    WrappedFix(walk[i].weight, totals, i)
  }

  /** There is one non-zero total per stop. */
  ghost predicate Divisible(walk: seq<Stop>, totals: seq<int>) {
    |walk| <= |totals| && forall i :: 0 <= i < |walk| ==> totals[i] != 0
  }

  /** ... so far. */
  ghost predicate DivisibleUpTo(walk: seq<Stop>, totals: seq<int>, n: nat) {
    n <= |walk| && n <= |totals| && forall i :: 0 <= i < n ==> totals[i] != 0
  }

  /** The i-th of the first n stops is the last of them in its zone. */
  ghost predicate LastVisit(walk: seq<Stop>, n: nat, i: nat) {
    i < n <= |walk| && forall j :: i < j < n ==> walk[j].zone != walk[i].zone
  }

  /** `fix` holds each visited zone's factor at its last visit. */
  ghost predicate Fixes(walk: seq<Stop>, totals: seq<int>, n: nat, fix: map<string, int>)
    requires DivisibleUpTo(walk, totals, n)
  {
    && (forall z :: z in fix <==> exists i :: 0 <= i < n && walk[i].zone == z)
    && (forall i: nat | LastVisit(walk, n, i) :: walk[i].zone in fix && fix[walk[i].zone] == Factor(walk, totals, i))
  }

  lemma FixesMore(walk: seq<Stop>, totals: seq<int>, n: nat, fix: map<string, int>)
    requires n < |walk| && DivisibleUpTo(walk, totals, n + 1) && Fixes(walk, totals, n, fix)
    ensures Fixes(walk, totals, n + 1, fix[walk[n].zone := Factor(walk, totals, n)])
  {
    var more := fix[walk[n].zone := Factor(walk, totals, n)];
    forall i: nat | LastVisit(walk, n + 1, i)
      ensures walk[i].zone in more && more[walk[i].zone] == Factor(walk, totals, i)
    {
      assert i == n || LastVisit(walk, n, i);
    }
  }

  /** A zone visited in several rows is rescaled by the factor of its last stop. */
  lemma LastStopDecides(walk: seq<Stop>, totals: seq<int>, fix: map<string, int>, i: nat)
    requires Divisible(walk, totals) && Fixes(walk, totals, |walk|, fix)
    requires i < |walk| && forall j :: i < j < |walk| ==> walk[j].zone != walk[i].zone
    ensures FactorOf(fix, walk[i].zone)
         == Some(Wrap(Quotient(Wrap(walk[i].weight * Wrap(Product(totals))), totals[i])))
  {
    assert LastVisit(walk, |walk|, i);
  }

  /** The last stop in a zone, if the walk has one there. */
  predicate LastIn(walk: seq<Stop>, zone: string, i: nat) {
    i < |walk| && walk[i].zone == zone && forall j :: i < j < |walk| ==> walk[j].zone != zone
  }

  /** What the n-th visit of an instance stores: the weight it reads, or 10 where there is no
      positive one, times the factor of the zone's last stop; without a stop there, the weight
      it reads. */
  lemma VisitStores(walk: seq<Stop>, totals: seq<int>, fix: map<string, int>, m: Option<int>, zone: string, n: nat)
    requires Divisible(walk, totals) && Fixes(walk, totals, |walk|, fix) && n > 0
    ensures
      var before := After(m, FactorOf(fix, zone), n - 1);
      var w := if before.Some? && before.value > 0 then before.value else 10;
      var after := After(m, FactorOf(fix, zone), n);
      && ((forall i :: 0 <= i < |walk| ==> walk[i].zone != zone) ==> after == Some(w))
      && (forall i: nat | LastIn(walk, zone, i) ::
            after == Some(Wrap(w * Wrap(Quotient(Wrap(walk[i].weight * Wrap(Product(totals))), totals[i])))))
  {
    forall i: nat | LastIn(walk, zone, i)
      ensures FactorOf(fix, zone) == Some(Wrap(Quotient(Wrap(walk[i].weight * Wrap(Product(totals))), totals[i])))
    {
      LastStopDecides(walk, totals, fix, i);
    }
  }

  function SumOrTen(ws: seq<int>): int {
    if ws == [] then 0
    else
      var w := ws[|ws| - 1];
      SumOrTen(ws[..|ws| - 1]) + if w > 0 then w else 10
  }

  /** The totals that are noted: a weight that is not positive counts as 10. */
  lemma {:induction false} TotalIsSum(ws: seq<int>)
    ensures Sum(EffectiveAll(ws)) == SumOrTen(ws)
  {
    if ws != [] {
      var n := |ws| - 1;
      TotalIsSum(ws[..n]);
      assert EffectiveAll(ws)[..n] == EffectiveAll(ws[..n]);
    }
  }

  method Multiply(totals: seq<int>) returns (com: int)
    ensures com == Wrap(Product(totals))
  {
    com := 1;
    for i := 0 to |totals|
      invariant com == Wrap(Product(totals[..i]))
    {
      assert totals[..i + 1][..i] == totals[..i];
      WrapMul(Product(totals[..i]), totals[i]);
      com := Wrap(com * totals[i]);
    }
    assert totals[..|totals|] == totals;
  }

  lemma NothingFixed(walk: seq<Stop>, totals: seq<int>)
    ensures DivisibleUpTo(walk, totals, 0) && Fixes(walk, totals, 0, map[])
  {}

  /** The totals noted so far reach up to here and none of them is zero. */
  lemma DivisibleMore(walk: seq<Stop>, totals: seq<int>, n: nat)
    requires n < |walk| && DivisibleUpTo(walk, totals, n)
    ensures DivisibleUpTo(walk, totals, n + 1) <==> n < |totals| && totals[n] != 0
    ensures !DivisibleUpTo(walk, totals, n + 1) ==> !Divisible(walk, totals)
  {}

  method Calibrate(walk: seq<Stop>, totals: seq<int>, com: int) returns (ok: bool, fix: map<string, int>)
    requires com == Wrap(Product(totals))
    ensures ok <==> Divisible(walk, totals)
    ensures ok ==> Fixes(walk, totals, |walk|, fix) == true
  {
    fix := map[];
    NothingFixed(walk, totals);
    for i := 0 to |walk|
      invariant DivisibleUpTo(walk, totals, i) == true && Fixes(walk, totals, i, fix) == true
    {
      DivisibleMore(walk, totals, i);
      if i >= |totals| || totals[i] == 0 {
        return false, fix;
      }
      FixesMore(walk, totals, i, fix);
      fix := fix[walk[i].zone := FactorFrom(walk[i].weight, com, totals[i])];
    }
    ok := true;
  }

  // ----- the loops over the instances -----

  function Occurrences(list: seq<Backend>, b: Backend): nat {
    if list == [] then 0 else Occurrences(list[..|list| - 1], b) + (if list[|list| - 1] == b then 1 else 0)
  }

  lemma OneMore(list: seq<Backend>, i: nat)
    requires i < |list|
    ensures forall b :: Occurrences(list[..i + 1], b) == Occurrences(list[..i], b) + (if list[i] == b then 1 else 0)
  {
    assert list[..i + 1][..i] == list[..i];
  }

  /** Every backend of the list holds what its visits among the first n made of `before`. */
  ghost predicate Applied(list: seq<Backend>, before: map<Backend, Option<int>>, fix: map<string, int>, n: nat)
    requires n <= |list|
    reads list
  {
    forall b | b in list ::
      && b in before && (before[b].Some? <==> b.weight.Some?)
      && b.weight == After(before[b], FactorOf(fix, b.zone), Occurrences(list[..n], b))
  }

  method ApplyOne(list: seq<Backend>, fix: map<string, int>, ghost before: map<Backend, Option<int>>, i: nat)
    requires i < |list| && Applied(list, before, fix, i) && list[i].weight.Some?
    modifies list[i]
    ensures Applied(list, before, fix, i + 1)
  {
    OneMore(list, i);
    list[i].Rescale(fix);
  }

  /** Rescales the list in place. The first instance without metadata stops the loop
      with a runtime error; what was done before it stays done. */
  method Apply(list: seq<Backend>, fix: map<string, int>) returns (ok: bool, ghost n: nat)
    modifies list
    ensures n <= |list| && (ok <==> n == |list|)
    ensures forall k :: 0 <= k < n ==> old(list[k].weight).Some?
    ensures !ok ==> old(list[n].weight).None?
    ensures forall b | b in list :: b.weight == After(old(b.weight), FactorOf(fix, b.zone), Occurrences(list[..n], b))
  {
    ghost var before := map b | b in list :: b.weight;
    for i := 0 to |list|
      invariant Applied(list, before, fix, i)
      invariant forall k :: 0 <= k < i ==> list[k] in before && before[list[k]].Some?
    {
      assert list[i] in list;
      if list[i].weight.None? {
        return false, i;
      }
      ApplyOne(list, fix, before, i);
    }
    return true, |list|;
  }

  /** The concatenation of the zones' lists in the given order. */
  ghost function Joined(instances: Zones, order: seq<string>): seq<Backend> {
    if order == [] then []
    else
      var n := |order| - 1;
      Joined(instances, order[..n]) + ListAt(instances, order[n])
  }

  /** `order` names each zone once. */
  ghost predicate Orders(instances: Zones, order: seq<string>) {
    && (forall z :: z in order <==> z in instances)
    && (forall i, j :: 0 <= i < j < |order| ==> order[i] != order[j])
  }

  /** The first n picked instances had metadata, the next one if any had none, and
      every backend holds what its visits among those n made of it. */
  ghost predicate RescaledFrom(instances: Zones, before: map<Backend, Option<int>>, picked: seq<Backend>,
                               fix: map<string, int>, n: nat)
    reads Backends(instances)
  {
    && n <= |picked|
    && (forall k :: 0 <= k < n ==> picked[k] in before && before[picked[k]].Some?)
    && (n < |picked| ==> picked[n] in before && before[picked[n]].None?)
    && (forall b | b in Backends(instances) ::
      b in before && b.weight == After(before[b], FactorOf(fix, b.zone), Occurrences(picked[..n], b)))
  }

  /** What a call that picked something did to the weights. */
  ghost predicate Went(instances: Zones, before: map<Backend, Option<int>>, weights: Weights, t: Trace, r: Outcome)
    reads Backends(instances)
  {
    if t.picked == [] || !Divisible(t.walk, t.totals) then
      Held(instances) == before && WeightsOf(instances) == weights && (t.picked != [] ==> r == Panicked)
    else
      && r == (if t.n == |t.picked| then Chosen(t.picked) else Panicked)
      && Fixes(t.walk, t.totals, |t.walk|, t.fix)
      && RescaledFrom(instances, before, t.picked, t.fix, t.n)
  }

  /** How a call went: the stops, what it picked and noted there, the factors, how
      many instances it rescaled, and the zone order of the fallback. */
  datatype Trace = Trace(walk: seq<Stop>, picked: seq<Backend>, totals: seq<int>, fix: map<string, int>, n: nat,
                         order: seq<string>)

  class InstancesInfo {
    const instances: Zones
    const scheduler: seq<Schedule>

    constructor (instances: Zones, scheduler: seq<Schedule>)
      ensures this.instances == instances && this.scheduler == scheduler
    {
      this.instances := instances;
      this.scheduler := scheduler;
    }

    /** Walks one matching row, in an arbitrary order of its destinations. */
    method WalkRow(dst: map<string, int>, walk0: seq<Stop>, picked0: seq<Backend>, totals0: seq<int>,
                   ghost weights: Weights)
      returns (walk: seq<Stop>, picked: seq<Backend>, totals: seq<int>)
      requires weights == WeightsOf(instances)
      requires Tracks(instances, weights, walk0, picked0, totals0)
      ensures walk0 <= walk && Lists(dst, dst.Keys, walk[|walk0|..])
      ensures Tracks(instances, weights, walk, picked, totals) && weights == WeightsOf(instances)
    {
      walk, picked, totals := walk0, picked0, totals0;
      ghost var stops: seq<Stop> := [];
      var rest := dst.Keys;
      assert Lists(dst, dst.Keys - rest, stops);
      while rest != {}
        invariant rest <= dst.Keys && Lists(dst, dst.Keys - rest, stops)
        invariant walk == walk0 + stops
        invariant Tracks(instances, weights, walk, picked, totals) && weights == WeightsOf(instances)
      {
        var z :| z in rest;
        var stop := Stop(z, dst[z]);
        picked, totals := Visit(stop, walk, picked, totals, weights);
        Extends(dst, rest, stops, z);
        walk, stops, rest := walk + [stop], stops + [stop], rest - {z};
      }
      assert dst.Keys - rest == dst.Keys;
    }

    /** Notes the total and picks the instances of one destination, if it is present. */
    method Visit(stop: Stop, ghost walk: seq<Stop>, picked0: seq<Backend>, totals0: seq<int>, ghost weights: Weights)
      returns (picked: seq<Backend>, totals: seq<int>)
      requires weights == WeightsOf(instances)
      requires Tracks(instances, weights, walk, picked0, totals0)
      ensures Tracks(instances, weights, walk + [stop], picked, totals) && weights == WeightsOf(instances)
    {
      Onward(instances, weights, walk, stop);
      picked, totals := picked0, totals0;
      if stop.zone in instances {
        var total := TotalWeight(instances[stop.zone]);
        picked, totals := picked + instances[stop.zone], totals + [total];
      }
    }

    /** Walks every matching row. */
    method Select(zone: string) returns (walk: seq<Stop>, picked: seq<Backend>, totals: seq<int>)
      ensures Legal(Matches(scheduler, zone), walk)
      ensures Tracks(instances, WeightsOf(instances), walk, picked, totals)
    {
      walk, picked, totals := [], [], [];
      ghost var weights := WeightsOf(instances);
      for i := 0 to |scheduler|
        invariant Legal(Matches(scheduler[..i], zone), walk)
        invariant Tracks(instances, weights, walk, picked, totals) && weights == WeightsOf(instances)
      {
        assert scheduler[..i + 1][..i] == scheduler[..i];
        if scheduler[i].src == zone {
          ghost var before, dsts := walk, Matches(scheduler[..i], zone);
          walk, picked, totals := WalkRow(scheduler[i].dst, walk, picked, totals, weights);
          LegalSnoc(dsts, scheduler[i].dst, before, walk);
        }
      }
      assert scheduler[..|scheduler|] == scheduler;
    }

    /** The answer when no destination has an instance: the zone's own list if there
        is one, else all lists. */
    method Fallback(zone: string) returns (list: seq<Backend>, ghost order: seq<string>)
      ensures zone in instances ==> list == instances[zone]
      ensures zone !in instances ==> Orders(instances, order) && list == Joined(instances, order)
    {
      if zone in instances {
        return instances[zone], [];
      }
      list, order := [], [];
      var rest := instances.Keys;
      while rest != {}
        invariant rest <= instances.Keys
        invariant forall z :: z in order <==> z in instances && z !in rest
        invariant forall i, j :: 0 <= i < j < |order| ==> order[i] != order[j]
        invariant list == Joined(instances, order)
      {
        var z :| z in rest;
        list := list + instances[z];
        assert (order + [z])[..|order|] == order;
        order := order + [z];
        rest := rest - {z};
      }
    }

    /** Rescales what was picked. */
    method Rescale(walk: seq<Stop>, picked: seq<Backend>, totals: seq<int>)
      returns (ok: bool, ghost fix: map<string, int>, ghost n: nat)
      requires picked == Picked(instances, walk)
      modifies Backends(instances)
      ensures !Divisible(walk, totals) ==> !ok && unchanged(Backends(instances))
      ensures !Divisible(walk, totals) ==>
        Held(instances) == old(Held(instances)) && WeightsOf(instances) == old(WeightsOf(instances))
      ensures Divisible(walk, totals) ==> Fixes(walk, totals, |walk|, fix) && (ok <==> n == |picked|)
      ensures Divisible(walk, totals) ==> RescaledFrom(instances, old(Held(instances)), picked, fix, n)
    {
      var com := Multiply(totals);
      var f;
      ok, f := Calibrate(walk, totals, com);
      fix, n := f, 0;
      if !ok {
        return;
      }
      PickedAreBackends(instances, walk);
      ok, n := Apply(picked, f);
      forall b | b in Backends(instances)
        ensures b.weight == After(old(b.weight), FactorOf(fix, b.zone), Occurrences(picked[..n], b))
      {
        if b !in picked {
          Absent(picked[..n], b);
        }
      }
    }

    /** Chooses and rescales. A destination without a list or with a zero total, while
        another has instances, is a runtime error before any weight changes; an
        instance without metadata is one in the middle of the rescaling. */
    method Choose(zone: string) returns (r: Outcome, ghost t: Trace)
      modifies Backends(instances)
      ensures Legal(Matches(scheduler, zone), t.walk)
      ensures Tracks(instances, old(WeightsOf(instances)), t.walk, t.picked, t.totals)
      ensures t.picked == [] && zone in instances ==> r == Chosen(instances[zone])
      ensures t.picked == [] && zone !in instances ==>
        Orders(instances, t.order) && r == Chosen(Joined(instances, t.order))
      ensures t.picked == [] || !Divisible(t.walk, t.totals) ==> unchanged(Backends(instances))
      ensures t.picked != [] && !Divisible(t.walk, t.totals) ==> r.Panicked?
      ensures t.picked != [] && Divisible(t.walk, t.totals) ==>
        && r == (if t.n == |t.picked| then Chosen(t.picked) else Panicked)
        && Fixes(t.walk, t.totals, |t.walk|, t.fix)
        && RescaledFrom(instances, old(Held(instances)), t.picked, t.fix, t.n)
      ensures Went(instances, old(Held(instances)), old(WeightsOf(instances)), t, r)
    {
      var walk, picked, totals := Select(zone);
      if picked == [] {
        var list;
        ghost var order;
        list, order := Fallback(zone);
        return Chosen(list), Trace(walk, picked, totals, map[], 0, order);
      }
      var ok;
      ghost var fix, n;
      ok, fix, n := Rescale(walk, picked, totals);
      r := if ok then Chosen(picked) else Panicked;
      t := Trace(walk, picked, totals, fix, n, []);
    }

    /** As `Choose`; and in the terms of the table: the stops are the destinations of the
        zone's rows, without a row for the zone nothing is rescaled, and with one row, in the
        case the scheduler is meant for, the weights after the call are those of `Stored` and
        the next call meets the same case again. */
    method UseScheduler(zone: string) returns (r: Outcome, ghost t: Trace)
      modifies Backends(instances)
      ensures Legal(Matches(scheduler, zone), t.walk)
      ensures Tracks(instances, old(WeightsOf(instances)), t.walk, t.picked, t.totals)
      ensures t.picked == [] && zone in instances ==> r == Chosen(instances[zone])
      ensures t.picked == [] && zone !in instances ==>
        Orders(instances, t.order) && r == Chosen(Joined(instances, t.order))
      ensures t.picked == [] || !Divisible(t.walk, t.totals) ==> unchanged(Backends(instances))
      ensures t.picked != [] && !Divisible(t.walk, t.totals) ==> r.Panicked?
      ensures t.picked != [] && Divisible(t.walk, t.totals) ==>
        && r == (if t.n == |t.picked| then Chosen(t.picked) else Panicked)
        && Fixes(t.walk, t.totals, |t.walk|, t.fix)
        && RescaledFrom(instances, old(Held(instances)), t.picked, t.fix, t.n)
      ensures Intended(instances, Matches(scheduler, zone), old(Held(instances))) ==>
        && Met(old(WeightsOf(instances)), Matches(scheduler, zone)[0], t, r, WeightsOf(instances))
        && Intended(instances, Matches(scheduler, zone), Held(instances))
      ensures forall stop :: stop in t.walk <==> FromRow(scheduler, zone, stop)
      ensures NoRow(scheduler, zone) ==> unchanged(Backends(instances))
      ensures NoRow(scheduler, zone) && zone in instances ==> r == Chosen(instances[zone])
      ensures NoRow(scheduler, zone) && zone !in instances ==>
        Orders(instances, t.order) && r == Chosen(Joined(instances, t.order))
      ensures forall j: nat | OnlyRow(scheduler, zone, j) :: Lists(scheduler[j].dst, scheduler[j].dst.Keys, t.walk)
      ensures forall j: nat | OnlyRow(scheduler, zone, j) ::
        Intended(instances, [scheduler[j].dst], old(Held(instances))) ==>
          && Met(old(WeightsOf(instances)), scheduler[j].dst, t, r, WeightsOf(instances))
          && Intended(instances, [scheduler[j].dst], Held(instances))
    {
      ghost var dsts, before, weights := Matches(scheduler, zone), Held(instances), WeightsOf(instances);
      HeldMatches(instances);
      r, t := Choose(zone);
      if Intended(instances, dsts, before) {
        WeightsMet(instances, dsts, before, weights, t, r);
        StillIntended(instances, dsts, before, weights, t, r);
      }
      RowsDecide(scheduler, zone, t.walk);
    }
  }

  lemma Extends(dst: map<string, int>, rest: set<string>, stops: seq<Stop>, z: string)
    requires rest <= dst.Keys && Lists(dst, dst.Keys - rest, stops) && z in rest
    ensures Lists(dst, dst.Keys - (rest - {z}), stops + [Stop(z, dst[z])])
  {
    var more := stops + [Stop(z, dst[z])];
    assert more[|stops|].zone == z && dst.Keys - (rest - {z}) == dst.Keys - rest + {z};
    forall y | y in dst.Keys - rest ensures exists i :: 0 <= i < |more| && more[i].zone == y {
      var i: nat :| i < |stops| && stops[i].zone == y;
      assert more[i].zone == y;
    }
  }

  lemma LegalSnoc(dsts: seq<map<string, int>>, dst: map<string, int>, before: seq<Stop>, walk: seq<Stop>)
    requires Legal(dsts, before) && before <= walk
    requires Lists(dst, dst.Keys, walk[|before|..])
    ensures Legal(dsts + [dst], walk)
  {
    assert (dsts + [dst])[..|dsts|] == dsts && walk[..|before|] == before;
  }

  lemma {:induction false} PickedAreBackends(instances: Zones, walk: seq<Stop>)
    ensures forall b | b in Picked(instances, walk) :: b in Backends(instances)
  {
    if walk != [] {
      PickedAreBackends(instances, walk[..|walk| - 1]);
    }
  }

  lemma {:induction false} Absent(list: seq<Backend>, b: Backend)
    requires b !in list
    ensures Occurrences(list, b) == 0
  {
    if list != [] {
      Absent(list[..|list| - 1], b);
    }
  }

  // ----- what one matching row does to the weights -----

  function ZonesOf(walk: seq<Stop>): (zs: seq<string>)
    ensures |zs| == |walk| && forall i :: 0 <= i < |walk| ==> zs[i] == walk[i].zone
  {
    seq(|walk|, i requires 0 <= i < |walk| => walk[i].zone)
  }

  function WeightsAlong(walk: seq<Stop>): (ws: seq<int>)
    ensures |ws| == |walk| && forall i :: 0 <= i < |walk| ==> ws[i] == walk[i].weight
  {
    seq(|walk|, i requires 0 <= i < |walk| => walk[i].weight)
  }

  lemma OneMatch(dsts: seq<map<string, int>>, walk: seq<Stop>)
    requires |dsts| == 1 && Legal(dsts, walk)
    ensures Lists(dsts[0], dsts[0].Keys, walk)
  {
    var m: nat :| m <= |walk| && Legal(dsts[..0], walk[..m]) && Lists(dsts[0], dsts[0].Keys, walk[m..]);
    assert m == 0 && walk[m..] == walk by { assert |walk[..m]| == m; }
  }

  lemma ListsIsWalk(dst: map<string, int>, walk: seq<Stop>)
    requires Lists(dst, dst.Keys, walk)
    ensures Walk(dst, ZonesOf(walk))
  {
    assert Distinct(ZonesOf(walk));
    forall z ensures z in ZonesOf(walk) <==> z in dst {
      if z in dst {
        var i: nat :| i < |walk| && walk[i].zone == z;
        assert ZonesOf(walk)[i] == z;
      }
    }
  }

  /** One total is noted per stop. */
  lemma {:induction false} NotedExactly(weights: Weights, walk: seq<Stop>)
    requires forall i :: 0 <= i < |walk| ==> walk[i].zone in weights
    ensures |Noted(weights, walk)| == |walk|
    ensures forall i :: 0 <= i < |walk| ==> Noted(weights, walk)[i] == Wrap(Sum(EffectiveAll(weights[walk[i].zone])))
  {
    if walk != [] {
      NotedExactly(weights, walk[..|walk| - 1]);
    }
  }

  /** The totals noted are those of the walk's zones, each wrapped. */
  lemma NotedAreTotals(weights: Weights, dst: map<string, int>, walk: seq<Stop>)
    requires Ready(weights, dst) && Lists(dst, dst.Keys, walk) && Walk(dst, ZonesOf(walk))
    ensures Noted(weights, walk) == WrappedAll(Totals(weights, dst, ZonesOf(walk)))
  {
    NotedExactly(weights, walk);
    var ts := Totals(weights, dst, ZonesOf(walk));
    forall i | 0 <= i < |walk| ensures Noted(weights, walk)[i] == Wrap(ts[i]) {
      assert ZonesOf(walk)[i] == walk[i].zone;
    }
  }

  /** Every instance is filed under its own zone, once. */
  ghost predicate Filed(instances: Zones) {
    && (forall z, b | z in instances && b in instances[z] :: b.zone == z)
    && (forall z, i, j | z in instances && 0 <= i < j < |instances[z]| :: instances[z][i] != instances[z][j])
  }

  lemma {:induction false} OccursOnce(list: seq<Backend>, k: nat)
    requires k < |list| && forall i, j :: 0 <= i < j < |list| ==> list[i] != list[j]
    ensures Occurrences(list, list[k]) == 1
  {
    var n := |list| - 1;
    if k < n {
      OccursOnce(list[..n], k);
    } else {
      Absent(list[..n], list[n]);
    }
  }

  lemma {:induction false} OccurrencesAdd(xs: seq<Backend>, ys: seq<Backend>, b: Backend)
    ensures Occurrences(xs + ys, b) == Occurrences(xs, b) + Occurrences(ys, b)
  {
    if ys == [] {
      assert xs + ys == xs;
    } else {
      var n := |ys| - 1;
      OccurrencesAdd(xs, ys[..n], b);
      assert (xs + ys)[..|xs + ys| - 1] == xs + ys[..n];
    }
  }

  ghost predicate Visited(walk: seq<Stop>, z: string) {
    exists i :: 0 <= i < |walk| && walk[i].zone == z
  }

  lemma {:induction false} PickedOnce(instances: Zones, walk: seq<Stop>, z: string, k: nat)
    requires Filed(instances) && z in instances && k < |instances[z]|
    requires forall i, j :: 0 <= i < j < |walk| ==> walk[i].zone != walk[j].zone
    ensures Occurrences(Picked(instances, walk), instances[z][k]) == if Visited(walk, z) then 1 else 0
  {
    if walk != [] {
      var n, b := |walk| - 1, instances[z][k];
      var last := ListAt(instances, walk[n].zone);
      PickedOnce(instances, walk[..n], z, k);
      OccurrencesAdd(Picked(instances, walk[..n]), last, b);
      if walk[n].zone == z {
        OccursOnce(instances[z], k);
        VisitedLast(walk, n, z);
      } else {
        FiledElsewhere(instances, walk[n].zone, z, b);
        Absent(last, b);
        VisitedPrefix(walk, n, z);
      }
    }
  }

  function Visits(walk: seq<Stop>, z: string): nat {
    if walk == [] then 0 else Visits(walk[..|walk| - 1], z) + if walk[|walk| - 1].zone == z then 1 else 0
  }

  /** An instance is picked, and so rescaled, once for each visit of its zone. */
  lemma {:induction false} PickedPerVisit(instances: Zones, walk: seq<Stop>, z: string, k: nat)
    requires Filed(instances) && z in instances && k < |instances[z]|
    ensures Occurrences(Picked(instances, walk), instances[z][k]) == Visits(walk, z)
  {
    if walk != [] {
      var n, b := |walk| - 1, instances[z][k];
      var last := ListAt(instances, walk[n].zone);
      PickedPerVisit(instances, walk[..n], z, k);
      OccurrencesAdd(Picked(instances, walk[..n]), last, b);
      if walk[n].zone == z {
        OccursOnce(instances[z], k);
      } else {
        FiledElsewhere(instances, walk[n].zone, z, b);
        Absent(last, b);
      }
    }
  }

  lemma FiledElsewhere(instances: Zones, y: string, z: string, b: Backend)
    requires Filed(instances) && y != z && z in instances && b in instances[z]
    ensures b !in ListAt(instances, y)
  {
    assert b.zone == z;
  }

  lemma VisitedLast(walk: seq<Stop>, n: nat, z: string)
    requires |walk| == n + 1 && walk[n].zone == z
    requires forall i, j :: 0 <= i < j < |walk| ==> walk[i].zone != walk[j].zone
    ensures Visited(walk, z) && !Visited(walk[..n], z)
  {}

  lemma VisitedPrefix(walk: seq<Stop>, n: nat, z: string)
    requires |walk| == n + 1 && walk[n].zone != z
    ensures Visited(walk, z) <==> Visited(walk[..n], z)
  {
    if Visited(walk, z) {
      var i: nat :| i < |walk| && walk[i].zone == z;
      assert walk[..n][i].zone == z;
    }
  }

  lemma {:induction false} PickedFrom(instances: Zones, walk: seq<Stop>, b: Backend)
    requires b in Picked(instances, walk)
    ensures exists i :: 0 <= i < |walk| && walk[i].zone in instances && b in instances[walk[i].zone]
  {
    var n := |walk| - 1;
    if b in ListAt(instances, walk[n].zone) {
      assert walk[n].zone in instances;
    } else {
      PickedFrom(instances, walk[..n], b);
      var i: nat :| i < n && walk[..n][i].zone in instances && b in instances[walk[..n][i].zone];
      assert walk[i] == walk[..n][i];
    }
  }

  /** What is picked are the instances of the stops that are present. */
  lemma {:induction false} PickedAre(instances: Zones, walk: seq<Stop>, b: Backend)
    ensures b in Picked(instances, walk) <==>
      exists stop :: stop in walk && stop.zone in instances && b in instances[stop.zone]
  {
    if walk != [] {
      var n := |walk| - 1;
      PickedAre(instances, walk[..n], b);
      assert walk == walk[..n] + [walk[n]];
    }
  }

  lemma {:induction false} JoinedAre(instances: Zones, order: seq<string>, b: Backend)
    ensures b in Joined(instances, order) <==> exists z :: z in order && z in instances && b in instances[z]
  {
    if order != [] {
      var n := |order| - 1;
      JoinedAre(instances, order[..n], b);
      assert order == order[..n] + [order[n]];
    }
  }

  lemma {:induction false} JoinedOnce(instances: Zones, order: seq<string>, z: string, k: nat)
    requires Filed(instances) && z in instances && k < |instances[z]|
    requires forall i, j :: 0 <= i < j < |order| ==> order[i] != order[j]
    ensures Occurrences(Joined(instances, order), instances[z][k]) == if z in order then 1 else 0
  {
    if order != [] {
      var n, b := |order| - 1, instances[z][k];
      var last := ListAt(instances, order[n]);
      JoinedOnce(instances, order[..n], z, k);
      assert order == order[..n] + [order[n]];
      OccurrencesAdd(Joined(instances, order[..n]), last, b);
      if order[n] == z {
        OccursOnce(instances[z], k);
      } else {
        FiledElsewhere(instances, order[n], z, b);
        Absent(last, b);
      }
    }
  }

  /** The fallback for a zone without instances answers every instance of every zone, each
      once where zones do not share any. */
  lemma FallbackIsAll(instances: Zones, order: seq<string>)
    requires Orders(instances, order)
    ensures forall b :: b in Joined(instances, order) <==> b in Backends(instances)
    ensures Filed(instances) ==> forall b | b in Backends(instances) :: Occurrences(Joined(instances, order), b) == 1
  {
    forall b ensures b in Joined(instances, order) <==> b in Backends(instances) {
      JoinedAre(instances, order, b);
    }
    if Filed(instances) {
      forall b | b in Backends(instances) ensures Occurrences(Joined(instances, order), b) == 1 {
        var z :| z in instances && b in instances[z];
        var k: nat :| k < |instances[z]| && instances[z][k] == b;
        JoinedOnce(instances, order, z, k);
      }
    }
  }

  /** The case the scheduler is meant for: one row for the zone, every destination of
      it present with instances that have metadata, and every instance filed under its
      own zone, once. */
  ghost predicate Intended(instances: Zones, dsts: seq<map<string, int>>, before: map<Backend, Option<int>>) {
    && |dsts| == 1 && dsts[0] != map[] && Filed(instances)
    && (forall z | z in dsts[0] :: z in instances && instances[z] != [])
    && (forall z, b | z in dsts[0] && z in instances && b in instances[z] :: b in before && before[b].Some?)
  }

  lemma IntendedIsReady(instances: Zones, dst: map<string, int>, weights: Weights)
    requires forall z | z in dst :: z in instances && instances[z] != []
    requires weights.Keys == instances.Keys && forall z | z in instances :: |weights[z]| == |instances[z]|
    ensures Ready(weights, dst)
  {}

  lemma SomethingPicked(instances: Zones, dst: map<string, int>, walk: seq<Stop>)
    requires Lists(dst, dst.Keys, walk) && dst != map[] && forall z | z in dst :: z in instances && instances[z] != []
    ensures Picked(instances, walk) != []
  {
    assert walk != [] by {
      var z :| z in dst;
    }
    var n := |walk| - 1;
    assert instances[walk[n].zone] != [];
  }

  /** Every visited instance had metadata, so the rescaling reached the end. */
  lemma ReachesTheEnd(instances: Zones, dsts: seq<map<string, int>>, before: map<Backend, Option<int>>, t: Trace)
    requires Intended(instances, dsts, before) && Lists(dsts[0], dsts[0].Keys, t.walk)
    requires t.picked == Picked(instances, t.walk) && RescaledFrom(instances, before, t.picked, t.fix, t.n)
    ensures t.n == |t.picked|
  {
    if t.n < |t.picked| {
      PickedFrom(instances, t.walk, t.picked[t.n]);
    }
  }

  /** The factor of a destination is that of its only visit. */
  lemma FactorAt(dst: map<string, int>, walk: seq<Stop>, ts: seq<int>, fix: map<string, int>, z: string, i: nat)
    requires Lists(dst, dst.Keys, walk) && i < |walk| && walk[i].zone == z
    requires Divisible(walk, ts) && Fixes(walk, ts, |walk|, fix)
    ensures z in dst && FactorOf(fix, z) == Some(WrappedFix(dst[z], ts, i))
  {
    assert LastVisit(walk, |walk|, i);
  }

  lemma IndexAt(dst: map<string, int>, walk: seq<Stop>, z: string) returns (i: nat)
    requires Lists(dst, dst.Keys, walk) && Walk(dst, ZonesOf(walk)) && z in dst
    ensures i < |walk| && walk[i].zone == z && i == IndexOf(ZonesOf(walk), z) && Visited(walk, z)
  {
    i := IndexOf(ZonesOf(walk), z);
  }

  lemma NewWeight(m: Option<int>, f: int)
    ensures After(m, Some(f), 1) == Some(Wrap(Effective(Read(m)) * f))
  {
    assert After(m, Some(f), 0) == m;
  }

  lemma NonZeroTotals(walk: seq<Stop>, totals: seq<int>)
    requires |walk| == |totals|
    ensures Divisible(walk, totals) <==> 0 !in totals
  {}

  /** The weight of a destination's instance, visited once. */
  lemma VisitedWeight(dst: map<string, int>, walk: seq<Stop>, totals: seq<int>, fix: map<string, int>,
                      ws: seq<int>, z: string, k: nat, m: Option<int>)
    requires Lists(dst, dst.Keys, walk) && Walk(dst, ZonesOf(walk)) && z in dst && k < |ws| && ws[k] == Read(m)
    requires |totals| == |walk| && 0 !in totals && Divisible(walk, totals) && Fixes(walk, totals, |walk|, fix)
    ensures Visited(walk, z)
    ensures After(m, FactorOf(fix, z), 1) == Some(StoredZone(ws, dst[z], ZonesOf(walk), totals, z)[k])
  {
    var i := IndexAt(dst, walk, z);
    FactorAt(dst, walk, totals, fix, z, i);
    NewWeight(m, WrappedFix(dst[z], totals, i));
  }

  /** What the new stored weight of one instance is. */
  lemma OneWeight(instances: Zones, dst: map<string, int>, before: map<Backend, Option<int>>, weights: Weights,
                  t: Trace, z: string, k: nat)
    requires Filed(instances) && Lists(dst, dst.Keys, t.walk) && Walk(dst, ZonesOf(t.walk))
    requires z in instances && k < |instances[z]| && z in weights && |weights[z]| == |instances[z]|
    requires instances[z][k] in before && weights[z][k] == Read(before[instances[z][k]])
    requires |t.totals| == |t.walk| && 0 !in t.totals && Divisible(t.walk, t.totals)
    requires Fixes(t.walk, t.totals, |t.walk|, t.fix)
    requires t.picked == Picked(instances, t.walk)
    ensures Read(After(before[instances[z][k]], FactorOf(t.fix, z), Occurrences(t.picked, instances[z][k])))
         == StoredZones(weights, dst, ZonesOf(t.walk), t.totals)[z][k]
  {
    PickedOnce(instances, t.walk, z, k);
    if z in dst {
      VisitedWeight(dst, t.walk, t.totals, t.fix, weights[z], z, k, before[instances[z][k]]);
    } else {
      assert !Visited(t.walk, z);
    }
  }

  /** In 64-bit words: the call answers what it picked and the weights after it are the
      stored ones, or it dies before any weight changes because a total wrapped to zero. */
  ghost predicate Met(weights: Weights, dst: map<string, int>, t: Trace, r: Outcome, after: Weights) {
    && Ready(weights, dst) && Walk(dst, ZonesOf(t.walk))
    && match Stored(weights, dst, ZonesOf(t.walk))
       case Some(stored) => r == Chosen(t.picked) && after == stored
       case None => r == Panicked && after == weights
  }

  ghost predicate Matching(instances: Zones, before: map<Backend, Option<int>>, weights: Weights) {
    && weights.Keys == instances.Keys
    && (forall z | z in instances :: |weights[z]| == |instances[z]|)
    && (forall z, k | z in instances && z in weights && 0 <= k < |instances[z]| && k < |weights[z]| ::
      instances[z][k] in before && weights[z][k] == Read(before[instances[z][k]]))
  }

  lemma BackendAt(instances: Zones, z: string, k: nat)
    requires z in instances && k < |instances[z]|
    ensures instances[z][k] in Backends(instances)
  {
    assert instances[z][k] in instances[z];
  }

  lemma HeldMatches(instances: Zones)
    ensures Matching(instances, Held(instances), WeightsOf(instances))
  {
    forall z, k | z in instances && 0 <= k < |instances[z]| ensures instances[z][k] in Held(instances) {
      BackendAt(instances, z, k);
    }
  }

  lemma StoredAfter(instances: Zones, before: map<Backend, Option<int>>, t: Trace, z: string, k: nat)
    requires Filed(instances) && z in instances && k < |instances[z]|
    requires RescaledFrom(instances, before, t.picked, t.fix, t.n) && t.n == |t.picked|
    ensures instances[z][k] in before && instances[z][k].weight
         == After(before[instances[z][k]], FactorOf(t.fix, z), Occurrences(t.picked, instances[z][k]))
  {
    BackendAt(instances, z, k);
    assert t.picked[..t.n] == t.picked && instances[z][k] in instances[z];
  }

  /** Everything rescaled: the weight of one instance after the call. */
  lemma WeightAt(instances: Zones, dst: map<string, int>, before: map<Backend, Option<int>>, weights: Weights, t: Trace,
                 z: string, k: nat)
    requires Filed(instances) && Lists(dst, dst.Keys, t.walk) && Walk(dst, ZonesOf(t.walk))
    requires Matching(instances, before, weights) && z in instances && k < |instances[z]|
    requires |t.totals| == |t.walk| && 0 !in t.totals && Divisible(t.walk, t.totals)
    requires Fixes(t.walk, t.totals, |t.walk|, t.fix) && t.picked == Picked(instances, t.walk)
    requires RescaledFrom(instances, before, t.picked, t.fix, t.n) && t.n == |t.picked|
    ensures z in weights && k < |weights[z]|
    ensures Read(instances[z][k].weight) == StoredZones(weights, dst, ZonesOf(t.walk), t.totals)[z][k]
  {
    StoredAfter(instances, before, t, z, k);
    OneWeight(instances, dst, before, weights, t, z, k);
  }

  /** With no total at zero the call succeeds and stores the rescaled weights of the
      row's zones; no other weight changes. */
  lemma AllStored(instances: Zones, dsts: seq<map<string, int>>, before: map<Backend, Option<int>>, weights: Weights,
                  t: Trace)
    requires Intended(instances, dsts, before) && Lists(dsts[0], dsts[0].Keys, t.walk) && Walk(dsts[0], ZonesOf(t.walk))
    requires Matching(instances, before, weights) && t.picked == Picked(instances, t.walk)
    requires |t.totals| == |t.walk| && 0 !in t.totals && Divisible(t.walk, t.totals)
    requires Fixes(t.walk, t.totals, |t.walk|, t.fix) && RescaledFrom(instances, before, t.picked, t.fix, t.n)
    ensures t.n == |t.picked|
    ensures WeightsOf(instances) == StoredZones(weights, dsts[0], ZonesOf(t.walk), t.totals)
  {
    ReachesTheEnd(instances, dsts, before, t);
    var stored := StoredZones(weights, dsts[0], ZonesOf(t.walk), t.totals);
    forall z, k | z in instances && 0 <= k < |instances[z]| ensures WeightsOf(instances)[z][k] == stored[z][k] {
      WeightAt(instances, dsts[0], before, weights, t, z, k);
    }
    SameWeights(WeightsOf(instances), stored);
  }

  lemma SameWeights(a: Weights, b: Weights)
    requires a.Keys == b.Keys && forall z | z in a :: |a[z]| == |b[z]|
    requires forall z, k | z in a && 0 <= k < |a[z]| :: a[z][k] == b[z][k]
    ensures a == b
  {
    forall z | z in a ensures a[z] == b[z] {}
  }

  /** What a call's outcome amounts to in the intended case. */
  lemma WeightsMet(instances: Zones, dsts: seq<map<string, int>>, before: map<Backend, Option<int>>, weights: Weights,
                   t: Trace, r: Outcome)
    requires Intended(instances, dsts, before) && Legal(dsts, t.walk) && Matching(instances, before, weights)
    requires Tracks(instances, weights, t.walk, t.picked, t.totals)
    requires Went(instances, before, weights, t, r)
    ensures Met(weights, dsts[0], t, r, WeightsOf(instances))
  {
    var dst := dsts[0];
    OneMatch(dsts, t.walk);
    ListsIsWalk(dst, t.walk);
    SomethingPicked(instances, dst, t.walk);
    IntendedIsReady(instances, dst, weights);
    NotedAreTotals(weights, dst, t.walk);
    NonZeroTotals(t.walk, t.totals);
    if 0 !in t.totals {
      AllStored(instances, dsts, before, weights, t);
    }
  }

  lemma StillIntended(instances: Zones, dsts: seq<map<string, int>>, before: map<Backend, Option<int>>,
                      weights: Weights, t: Trace, r: Outcome)
    requires Intended(instances, dsts, before) && Went(instances, before, weights, t, r)
    ensures Intended(instances, dsts, Held(instances))
  {
    forall z, b | z in dsts[0] && z in instances && b in instances[z]
      ensures b in Held(instances) && Held(instances)[b].Some?
    {
      assert b in Backends(instances);
    }
  }

  /** In the intended case, with products that fit, the call succeeds and the weights of
      the row's zones are rescaled exactly; no other weight changes. */
  lemma RatiosMet(weights: Weights, dst: map<string, int>, t: Trace, r: Outcome, after: Weights)
    requires Met(weights, dst, t, r, after)
    requires FitsAt(dst, Product(Totals(weights, dst, ZonesOf(t.walk))))
    ensures r == Chosen(t.picked) && after == Rescaled(weights, dst, ZonesOf(t.walk))
  {
    CallFitsIff(weights, dst, ZonesOf(t.walk));
    StoredIsRescaled(weights, dst, ZonesOf(t.walk));
  }

  // ----- call after call -----

  /** Calls one after the other in the intended case, each on the weights the last one left. */
  ghost predicate CallChain(dst: map<string, int>, ws: seq<Weights>, ts: seq<Trace>, rs: seq<Outcome>) {
    && |ts| >= 1 && |rs| == |ts| && |ws| == |ts| + 1
    && forall m: nat | m < |ts| :: Met(ws[m], dst, ts[m], rs[m], ws[m + 1])
  }

  function OrdersOf(ts: seq<Trace>): (orders: seq<seq<string>>)
    ensures |orders| == |ts| && forall m :: 0 <= m < |ts| ==> orders[m] == ZonesOf(ts[m].walk)
  {
    seq(|ts|, m requires 0 <= m < |ts| => ZonesOf(ts[m].walk))
  }

  lemma ChainNext(dst: map<string, int>, ws: seq<Weights>, ts: seq<Trace>, rs: seq<Outcome>, n: nat)
    requires CallChain(dst, ws, ts, rs) && n < |ts|
    ensures Ready(ws[n], dst) && Walk(dst, OrdersOf(ts)[n])
    ensures Stored(ws[n], dst, OrdersOf(ts)[n]) == if rs[n].Chosen? then Some(ws[n + 1]) else None
  {
    assert Met(ws[n], dst, ts[n], rs[n], ws[n + 1]);
  }

  lemma ChainWalks(dst: map<string, int>, ws: seq<Weights>, ts: seq<Trace>, rs: seq<Outcome>)
    requires CallChain(dst, ws, ts, rs)
    ensures Ready(ws[0], dst) && AllWalk(dst, OrdersOf(ts))
  {
    forall m: nat | m < |ts| ensures Ready(ws[m], dst) && Walk(dst, OrdersOf(ts)[m]) {
      ChainNext(dst, ws, ts, rs, m);
    }
  }

  predicate ChosenUpTo(rs: seq<Outcome>, n: nat)
    requires n <= |rs|
  {
    forall m | 0 <= m < n :: rs[m].Chosen?
  }

  lemma StoredNext(dst: map<string, int>, ws: seq<Weights>, ts: seq<Trace>, rs: seq<Outcome>, n: nat)
    requires CallChain(dst, ws, ts, rs) && n < |ts| && Ready(ws[0], dst) && AllWalk(dst, OrdersOf(ts))
    ensures
      var before, after := StoredCalls(ws[0], dst, OrdersOf(ts)[..n]), StoredCalls(ws[0], dst, OrdersOf(ts)[..n + 1]);
      && (before.None? ==> after.None?)
      && (before == Some(ws[n]) ==> after == if rs[n].Chosen? then Some(ws[n + 1]) else None)
  {
    StoredSnoc(ws[0], dst, OrdersOf(ts), n);
    ChainNext(dst, ws, ts, rs, n);
  }

  lemma {:induction false} UntilOneDies(stored: seq<Option<Weights>>, ws: seq<Weights>, rs: seq<Outcome>, n: nat)
    requires |stored| == |ws| == |rs| + 1 && n <= |rs| && stored[0] == Some(ws[0])
    requires forall m :: 0 <= m < |rs| && stored[m].None? ==> stored[m + 1].None?
    requires forall m :: 0 <= m < |rs| && stored[m] == Some(ws[m]) ==>
      stored[m + 1] == if rs[m].Chosen? then Some(ws[m + 1]) else None
    ensures stored[n] == if ChosenUpTo(rs, n) then Some(ws[n]) else None
  {
    if n > 0 {
      UntilOneDies(stored, ws, rs, n - 1);
      assert stored[n - 1 + 1] == stored[n];
      assert ChosenUpTo(rs, n) <==> ChosenUpTo(rs, n - 1) && rs[n - 1].Chosen?;
    }
  }

  /** As long as no call dies the weights are those of `StoredCalls`. */
  lemma ChainStores(dst: map<string, int>, ws: seq<Weights>, ts: seq<Trace>, rs: seq<Outcome>, n: nat)
    requires CallChain(dst, ws, ts, rs) && n <= |ts|
    requires Ready(ws[0], dst) && AllWalk(dst, OrdersOf(ts))
    ensures StoredCalls(ws[0], dst, OrdersOf(ts)[..n]) == if ChosenUpTo(rs, n) then Some(ws[n]) else None
  {
    var stored := seq(|ws|, m requires 0 <= m < |ws| => StoredCalls(ws[0], dst, OrdersOf(ts)[..m]));
    assert OrdersOf(ts)[..0] == [];
    forall m: nat | m < |rs|
      ensures stored[m].None? ==> stored[m + 1].None?
      ensures stored[m] == Some(ws[m]) ==> stored[m + 1] == if rs[m].Chosen? then Some(ws[m + 1]) else None
    {
      StoredNext(dst, ws, ts, rs, m);
    }
    UntilOneDies(stored, ws, rs, n);
  }

  /** Calls that are foreseen to fit store what is expected of them, and none dies. */
  lemma ChainFits(dst: map<string, int>, ws: seq<Weights>, ts: seq<Trace>, rs: seq<Outcome>)
    requires CallChain(dst, ws, ts, rs)
    requires Ready(ws[0], dst) && AllWalk(dst, OrdersOf(ts))
    requires ForeseenToFit(ws[0], dst, OrdersOf(ts)[0], |ts| - 1)
    ensures StoredCalls(ws[0], dst, OrdersOf(ts)) == Some(ws[|ts|]) && ChosenUpTo(rs, |ts|)
  {
    StoredWhenForeseen(ws[0], dst, OrdersOf(ts));
    ChainStores(dst, ws, ts, rs, |ts|);
    assert OrdersOf(ts)[..|ts|] == OrdersOf(ts);
  }

  /** Calls that are foreseen to fit all answer what they picked, and leave totals in
      exact proportion to the schedule. */
  lemma CallsMeetProportion(dst: map<string, int>, ws: seq<Weights>, ts: seq<Trace>, rs: seq<Outcome>,
                            y: string, z: string)
    requires CallChain(dst, ws, ts, rs) && y in dst && z in dst
    requires Ready(ws[0], dst) && Walk(dst, ZonesOf(ts[0].walk))
    requires ForeseenToFit(ws[0], dst, ZonesOf(ts[0].walk), |ts| - 1)
    ensures forall m :: 0 <= m < |ts| ==> rs[m] == Chosen(ts[m].picked)
    ensures y in ws[|ts|] && z in ws[|ts|] && Sum(ws[|ts|][y]) * dst[z] == Sum(ws[|ts|][z]) * dst[y]
  {
    ChainWalks(dst, ws, ts, rs);
    ChainFits(dst, ws, ts, rs);
    StoredStayProportional(ws[0], dst, OrdersOf(ts), y, z);
    forall m: nat | m < |ts| ensures rs[m] == Chosen(ts[m].picked) {
      ChosenIsPicked(dst, ws, ts, rs, m);
    }
  }

  lemma ChosenIsPicked(dst: map<string, int>, ws: seq<Weights>, ts: seq<Trace>, rs: seq<Outcome>, m: nat)
    requires CallChain(dst, ws, ts, rs) && m < |ts| && rs[m].Chosen?
    ensures rs[m] == Chosen(ts[m].picked)
  {
    assert Met(ws[m], dst, ts[m], rs[m], ws[m + 1]);
  }

  /** ... and keep the ratios inside each zone with a positive schedule weight. */
  lemma CallsMeetRatios(dst: map<string, int>, ws: seq<Weights>, ts: seq<Trace>, rs: seq<Outcome>,
                        z: string, i: nat, j: nat)
    requires CallChain(dst, ws, ts, rs) && z in dst && dst[z] >= 1
    requires Ready(ws[0], dst) && Walk(dst, ZonesOf(ts[0].walk)) && i < |ws[0][z]| && j < |ws[0][z]|
    requires ForeseenToFit(ws[0], dst, ZonesOf(ts[0].walk), |ts| - 1)
    ensures z in ws[|ts|] && |ws[|ts|][z]| == |ws[0][z]|
    ensures Effective(ws[|ts|][z][i]) * Effective(ws[0][z][j]) == Effective(ws[|ts|][z][j]) * Effective(ws[0][z][i])
  {
    ChainWalks(dst, ws, ts, rs);
    ChainFits(dst, ws, ts, rs);
    StoredKeepRatios(ws[0], dst, OrdersOf(ts), z, i, j);
  }

  ghost predicate AllPresent(weights: Weights, walk: seq<Stop>) {
    forall i :: 0 <= i < |walk| ==> walk[i].zone in weights && weights[walk[i].zone] != []
  }

  lemma {:induction false} NotedShort(weights: Weights, walk: seq<Stop>)
    ensures |Noted(weights, walk)| <= |walk|
    ensures |Noted(weights, walk)| == |walk| ==> forall i :: 0 <= i < |walk| ==> walk[i].zone in weights
  {
    if walk != [] {
      var n := |walk| - 1;
      NotedShort(weights, walk[..n]);
      if |Noted(weights, walk)| == |walk| {
        forall i | 0 <= i < n ensures walk[i].zone in weights {
          assert walk[..n][i] == walk[i];
        }
      }
    }
  }

  lemma EmptyIffZero(ws: seq<int>)
    requires InRange(Sum(EffectiveAll(ws)))
    ensures Wrap(Sum(EffectiveAll(ws))) == 0 <==> ws == []
  {
    SumPositive(EffectiveAll(ws));
    WrapInRange(Sum(EffectiveAll(ws)));
  }

  /** The runtime error before the rescaling happens exactly when some destination is
      absent or empty, as long as no zone's total leaves the 64-bit range. */
  lemma DivisibleIffAllPresent(weights: Weights, walk: seq<Stop>)
    requires forall z | z in weights :: InRange(Sum(EffectiveAll(weights[z])))
    ensures Divisible(walk, Noted(weights, walk)) <==> AllPresent(weights, walk)
  {
    NotedShort(weights, walk);
    if forall i :: 0 <= i < |walk| ==> walk[i].zone in weights {
      NotedExactly(weights, walk);
      forall i: nat | i < |walk| ensures Noted(weights, walk)[i] != 0 <==> weights[walk[i].zone] != [] {
        EmptyIffZero(weights[walk[i].zone]);
      }
    }
  }
}
