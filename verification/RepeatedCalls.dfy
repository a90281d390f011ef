/** Rescaling the same weights call after call: what unbounded integers would keep,
    how fast the weights grow, and for how many calls 64-bit words hold them. */
module RepeatedCalls {
  import opened Sequences
  import opened Wrappers

  import opened Proportion

  ghost predicate AllWalk(schedule: map<string, int>, orders: seq<seq<string>>) {
    forall i :: 0 <= i < |orders| ==> Walk(schedule, orders[i])
  }

  // ----- in unbounded integers -----

  /** The weights after calls that walked the zones in the given orders. */
  ghost function AfterCalls(weights: Weights, schedule: map<string, int>, orders: seq<seq<string>>): (r: Weights)
    requires Ready(weights, schedule) && AllWalk(schedule, orders)
    ensures Ready(r, schedule) && r.Keys == weights.Keys
    ensures forall z | z in weights :: |r[z]| == |weights[z]|
    decreases |orders|
  {
    if orders == [] then weights
    else
      var n := |orders| - 1;
      Rescaled(AfterCalls(weights, schedule, orders[..n]), schedule, orders[n])
  }

  /** After one or more calls, in any walking orders and for any schedule weights,
      the zone totals are in exact proportion to the schedule. */
  lemma CallsStayProportional(weights: Weights, schedule: map<string, int>, orders: seq<seq<string>>,
                              y: string, z: string)
    requires Ready(weights, schedule) && AllWalk(schedule, orders) && orders != [] && y in schedule && z in schedule
    ensures
      var after := AfterCalls(weights, schedule, orders);
      Sum(after[y]) * schedule[z] == Sum(after[z]) * schedule[y]
  {
    var n := |orders| - 1;
    var before := AfterCalls(weights, schedule, orders[..n]);
    OneCall(before, schedule, orders[n]);
    CrossMul(schedule[y], schedule[z], Product(Totals(before, schedule, orders[n])));
  }

  /** A zone with a positive schedule weight keeps its inner ratios through any
      number of calls. */
  lemma {:induction false} CallsKeepRatios(weights: Weights, schedule: map<string, int>, orders: seq<seq<string>>,
                                           z: string, i: nat, j: nat)
    requires Ready(weights, schedule) && AllWalk(schedule, orders)
    requires z in schedule && schedule[z] >= 1 && i < |weights[z]| && j < |weights[z]|
    ensures
      var after := AfterCalls(weights, schedule, orders)[z];
      Effective(after[i]) * Effective(weights[z][j]) == Effective(after[j]) * Effective(weights[z][i])
    decreases |orders|
  {
    if orders != [] {
      var n := |orders| - 1;
      var before := AfterCalls(weights, schedule, orders[..n]);
      CallsKeepRatios(weights, schedule, orders[..n], z, i, j);
      RatiosAfterCall(before, schedule, orders[n], z, i, j);
      RatiosAfterCall(before, schedule, orders[n], z, j, i);
      var after := Rescaled(before, schedule, orders[n])[z];
      RatioChain(Effective(before[z][i]), Effective(before[z][j]),
                 after[i], after[j], Effective(weights[z][i]), Effective(weights[z][j]));
    }
  }

  lemma RatioChain(b1: int, b2: int, a1: int, a2: int, w1: int, w2: int)
    requires b1 >= 1 && b2 >= 1
    requires b1 * w2 == b2 * w1 && a1 * b2 == a2 * b1
    ensures a1 * w2 == a2 * w1
  {
    assert (a1 * w2) * b1 == a1 * (b1 * w2);
    assert a1 * (b2 * w1) == (a1 * b2) * w1;
    assert (a2 * b1) * w1 == (a2 * w1) * b1;
    CancelFactor(a1 * w2, a2 * w1, b1);
  }

  lemma CancelFactor(x: int, y: int, b: int)
    requires b >= 1 && x * b == y * b
    ensures x == y
  {}

  // ----- products do not depend on the order -----

  function Without<T>(q: seq<T>, i: nat): (r: seq<T>)
    requires i < |q|
    ensures |r| == |q| - 1
    ensures forall k :: 0 <= k < |r| ==> r[k] == q[if k < i then k else k + 1]
  {
    q[..i] + q[i + 1..]
  }

  lemma {:induction false} ProductWithout(ts: seq<int>, i: nat)
    requires i < |ts|
    ensures Product(ts) == Product(Without(ts, i)) * ts[i]
  {
    var n := |ts| - 1;
    if i == n {
      assert Without(ts, i) == ts[..n];
    } else {
      ProductWithout(ts[..n], i);
      assert Without(ts, i)[..n - 1] == Without(ts[..n], i);
      MulSwap(Product(Without(ts[..n], i)), ts[i], ts[n]);
    }
  }

  lemma WithoutOne<T>(q: seq<T>, i: nat)
    requires i < |q| && Distinct(q)
    ensures Distinct(Without(q, i)) && forall z :: z in Without(q, i) <==> z in q && z != q[i]
  {
    forall z ensures z in Without(q, i) <==> z in q && z != q[i] {
      if z in q && z != q[i] {
        var k: nat :| k < |q| && q[k] == z;
        assert Without(q, i)[if k < i then k else k - 1] == z;
      }
    }
  }

  lemma AlongWithout(m: map<string, int>, q: seq<string>, i: nat)
    requires i < |q| && Distinct(q) && forall z | z in q :: z in m
    ensures forall z | z in Without(q, i) :: z in m
    ensures Product(Along(m, q)) == Product(Along(m, Without(q, i))) * m[q[i]]
  {
    WithoutOne(q, i);
    ProductWithout(Along(m, q), i);
    assert Without(Along(m, q), i) == Along(m, Without(q, i));
  }

  lemma SameMembers<T>(p: seq<T>, q: seq<T>)
    requires p != [] && forall z :: z in p <==> z in q
    ensures q != [] && p[|p| - 1] in q
  {
    assert p[|p| - 1] in q;
  }

  /** Two walks over the same zones multiply to the same product. */
  lemma {:induction false} AlongPermuted(m: map<string, int>, p: seq<string>, q: seq<string>)
    requires Distinct(p) && Distinct(q) && (forall z :: z in p <==> z in q) && forall z | z in p :: z in m
    ensures |p| == |q| && Product(Along(m, p)) == Product(Along(m, q))
    decreases |p|
  {
    if q != [] {
      SameMembers(q, p);
    }
    if p != [] {
      var n := |p| - 1;
      SameMembers(p, q);
      var i := IndexOf(q, p[n]);
      WithoutOne(p, n);
      WithoutOne(q, i);
      AlongPermuted(m, Without(p, n), Without(q, i));
      AlongWithout(m, p, n);
      AlongWithout(m, q, i);
    }
  }

  // ----- growth -----

  function Pow(b: int, k: nat): int {
    if k == 0 then 1 else Pow(b, k - 1) * b
  }

  lemma {:induction false} PowPositive(b: int, k: nat)
    requires b >= 1
    ensures Pow(b, k) >= 1 && (k >= 1 ==> Pow(b, k) >= b)
  {
    if k > 0 {
      PowPositive(b, k - 1);
      MulPositive(Pow(b, k - 1), b);
    }
  }

  /** A zone's total after a call with the common product `p`, as the next call reads it:
      one below 1 leaves weights that are read as the default. */
  function Share(weights: Weights, schedule: map<string, int>, z: string, p: int): int
    requires z in schedule && z in weights
  {
    if schedule[z] >= 1 then schedule[z] * p else DEFAULT_WEIGHT * |weights[z]|
  }

  function Shares(weights: Weights, schedule: map<string, int>, p: int): map<string, int>
    requires forall z | z in schedule :: z in weights
  {
    map z | z in schedule :: Share(weights, schedule, z, p)
  }

  /** How many zones of a walk have a positive schedule weight. */
  function Positives(schedule: map<string, int>, order: seq<string>): nat
    requires forall z | z in order :: z in schedule
  {
    if order == [] then 0
    else
      var n := |order| - 1;
      assert order[n] in order;
      Positives(schedule, order[..n]) + if schedule[order[n]] >= 1 then 1 else 0
  }

  /** The constant of the growth: schedule weights, or what is read instead of them. */
  function Base(weights: Weights, schedule: map<string, int>, order: seq<string>): int
    requires forall z | z in schedule :: z in weights
    requires forall z | z in order :: z in schedule
  {
    Product(Along(Shares(weights, schedule, 1), order))
  }

  lemma {:induction false} SharesMultiply(weights: Weights, schedule: map<string, int>, order: seq<string>, p: int)
    requires forall z | z in schedule :: z in weights
    requires forall z | z in order :: z in schedule
    ensures Product(Along(Shares(weights, schedule, p), order))
         == Base(weights, schedule, order) * Pow(p, Positives(schedule, order))
  {
    if order != [] {
      var n := |order| - 1;
      assert order[n] in order;
      SharesMultiply(weights, schedule, order[..n], p);
      assert Along(Shares(weights, schedule, p), order)[..n] == Along(Shares(weights, schedule, p), order[..n]);
      assert Along(Shares(weights, schedule, 1), order)[..n] == Along(Shares(weights, schedule, 1), order[..n]);
      var b, e := Base(weights, schedule, order[..n]), Pow(p, Positives(schedule, order[..n]));
      if schedule[order[n]] >= 1 {
        Regroup(b, e, schedule[order[n]], p);
      } else {
        MulSwap(b, e, Share(weights, schedule, order[n], 1));
      }
    }
  }

  lemma Regroup(b: int, e: int, s: int, p: int)
    ensures (b * e) * (s * p) == (b * s) * (e * p)
  {
    MulSwap(b, e, s * p);
    MulAssoc(b, s, p);
    MulSwap(b * s, p, e);
    MulAssoc(b * s, e, p);
  }

  lemma {:induction false} SumConstant(ws: seq<int>, d: int)
    requires forall j :: 0 <= j < |ws| ==> ws[j] == d
    ensures Sum(ws) == d * |ws|
  {
    if ws != [] {
      SumConstant(ws[..|ws| - 1], d);
      MulNext(d, |ws| - 1);
    }
  }

  lemma MulNext(d: int, n: int)
    ensures d * n + d == d * (n + 1)
  {}

  /** A zone's total at the next call. */
  lemma NextTotal(weights: Weights, schedule: map<string, int>, order: seq<string>, z: string)
    requires Ready(weights, schedule) && Walk(schedule, order) && z in schedule
    ensures Sum(EffectiveAll(Rescaled(weights, schedule, order)[z]))
         == Share(weights, schedule, z, Product(Totals(weights, schedule, order)))
  {
    var after := Rescaled(weights, schedule, order)[z];
    forall j | 0 <= j < |after|
      ensures EffectiveAll(after)[j] == if schedule[z] >= 1 then after[j] else DEFAULT_WEIGHT
    {
      RatiosAfterCall(weights, schedule, order, z, j, j);
    }
    if schedule[z] >= 1 {
      assert EffectiveAll(after) == after;
      OneCall(weights, schedule, order);
    } else {
      SumConstant(EffectiveAll(after), DEFAULT_WEIGHT);
    }
  }

  lemma NextTotals(weights: Weights, schedule: map<string, int>, order: seq<string>, next: seq<string>)
    requires Ready(weights, schedule) && Walk(schedule, order) && Walk(schedule, next)
    ensures Totals(Rescaled(weights, schedule, order), schedule, next)
         == Along(Shares(weights, schedule, Product(Totals(weights, schedule, order))), next)
  {
    var after := Rescaled(weights, schedule, order);
    var shares := Shares(weights, schedule, Product(Totals(weights, schedule, order)));
    forall i | 0 <= i < |next| ensures Totals(after, schedule, next)[i] == Along(shares, next)[i] {
      assert next[i] in next;
      NextTotal(weights, schedule, order, next[i]);
    }
  }

  /** One call raises the product of the totals to the power of the number of zones with
      a positive schedule weight, times a constant; `first` is any walk. */
  lemma GrowthStep(weights: Weights, schedule: map<string, int>, order: seq<string>, next: seq<string>,
                   first: seq<string>)
    requires Ready(weights, schedule) && Walk(schedule, order) && Walk(schedule, next) && Walk(schedule, first)
    ensures Product(Totals(Rescaled(weights, schedule, order), schedule, next))
         == Base(weights, schedule, first) * Pow(Product(Totals(weights, schedule, order)), Positives(schedule, first))
  {
    var p := Product(Totals(weights, schedule, order));
    NextTotals(weights, schedule, order, next);
    AlongPermuted(Shares(weights, schedule, p), next, first);
    SharesMultiply(weights, schedule, first, p);
  }

  /** The product of the totals n calls later. */
  function Growth(c: int, k: nat, p: int, n: nat): int {
    if n == 0 then p else c * Pow(Growth(c, k, p, n - 1), k)
  }

  ghost function ProductBefore(weights: Weights, schedule: map<string, int>, orders: seq<seq<string>>, n: nat): int
    requires Ready(weights, schedule) && AllWalk(schedule, orders) && n < |orders|
  {
    Product(Totals(AfterCalls(weights, schedule, orders[..n]), schedule, orders[n]))
  }

  /** ... as known before the first call. */
  ghost function Foreseen(weights: Weights, schedule: map<string, int>, first: seq<string>, n: nat): int
    requires Ready(weights, schedule) && Walk(schedule, first)
  {
    Growth(Base(weights, schedule, first), Positives(schedule, first), Product(Totals(weights, schedule, first)), n)
  }

  lemma {:induction false} SameBase(weights: Weights, after: Weights, schedule: map<string, int>, first: seq<string>)
    requires Ready(weights, schedule) && Ready(after, schedule) && Walk(schedule, first)
    requires after.Keys == weights.Keys && forall z | z in weights :: |after[z]| == |weights[z]|
    ensures Base(after, schedule, first) == Base(weights, schedule, first)
  {
    assert Shares(after, schedule, 1) == Shares(weights, schedule, 1);
  }

  lemma CallsSnoc(weights: Weights, schedule: map<string, int>, orders: seq<seq<string>>, n: nat)
    requires Ready(weights, schedule) && AllWalk(schedule, orders) && n < |orders|
    ensures AfterCalls(weights, schedule, orders[..n + 1])
         == Rescaled(AfterCalls(weights, schedule, orders[..n]), schedule, orders[n])
  {
    assert orders[..n + 1][..n] == orders[..n];
  }

  lemma ProductStep(weights: Weights, schedule: map<string, int>, orders: seq<seq<string>>, n: nat)
    requires Ready(weights, schedule) && AllWalk(schedule, orders) && n + 1 < |orders|
    ensures ProductBefore(weights, schedule, orders, n + 1)
         == Base(weights, schedule, orders[0])
          * Pow(ProductBefore(weights, schedule, orders, n), Positives(schedule, orders[0]))
  {
    CallsSnoc(weights, schedule, orders, n);
    var before := AfterCalls(weights, schedule, orders[..n]);
    GrowthStep(before, schedule, orders[n], orders[n + 1], orders[0]);
    SameBase(weights, before, schedule, orders[0]);
  }

  lemma FirstProduct(weights: Weights, schedule: map<string, int>, orders: seq<seq<string>>)
    requires Ready(weights, schedule) && AllWalk(schedule, orders) && orders != []
    ensures ProductBefore(weights, schedule, orders, 0) == Foreseen(weights, schedule, orders[0], 0)
  {
    assert orders[..0] == [];
  }

  lemma {:induction false} GrowthOf(ps: seq<int>, c: int, k: nat, n: nat)
    requires n < |ps| && forall m :: 0 <= m < |ps| - 1 ==> ps[m + 1] == c * Pow(ps[m], k)
    ensures ps[n] == Growth(c, k, ps[0], n)
  {
    if n > 0 {
      GrowthOf(ps, c, k, n - 1);
      assert ps[n - 1 + 1] == c * Pow(ps[n - 1], k);
    }
  }

  /** The product before any call is the one foreseen before the first. */
  lemma ProductForeseen(weights: Weights, schedule: map<string, int>, orders: seq<seq<string>>, n: nat)
    requires Ready(weights, schedule) && AllWalk(schedule, orders) && n < |orders|
    ensures ProductBefore(weights, schedule, orders, n) == Foreseen(weights, schedule, orders[0], n)
  {
    var ps := seq(|orders|, m requires 0 <= m < |orders| => ProductBefore(weights, schedule, orders, m));
    var c, k := Base(weights, schedule, orders[0]), Positives(schedule, orders[0]);
    forall m: nat | m < |orders| - 1 ensures ps[m + 1] == c * Pow(ps[m], k) {
      ProductStep(weights, schedule, orders, m);
    }
    GrowthOf(ps, c, k, n);
    FirstProduct(weights, schedule, orders);
  }

  // ----- for how many calls everything fits -----

  /** Every intermediate of every one of the calls is in range. */
  ghost predicate AllFit(weights: Weights, schedule: map<string, int>, orders: seq<seq<string>>)
    requires Ready(weights, schedule) && AllWalk(schedule, orders)
  {
    forall m: nat | m < |orders| :: NthFits(weights, schedule, orders, m)
  }

  ghost predicate NthFits(weights: Weights, schedule: map<string, int>, orders: seq<seq<string>>, m: nat)
    requires Ready(weights, schedule) && AllWalk(schedule, orders) && m < |orders|
  {
    CallFits(AfterCalls(weights, schedule, orders[..m]), schedule, orders[m])
  }

  lemma {:induction false} SmallerFits(schedule: map<string, int>, p: int, q: int)
    requires FitsAt(schedule, q) && 0 <= p <= q
    ensures FitsAt(schedule, p)
  {
    forall z | z in schedule ensures InRange(schedule[z] * p) {
      var s := schedule[z];
      if s >= 0 {
        MulMonotone(p, q, s);
      } else {
        MulMonotone(p, q, -s);
        assert p * (-s) == -(s * p) && q * (-s) == -(s * q);
      }
    }
  }

  lemma {:induction false} SharesPositive(weights: Weights, schedule: map<string, int>, order: seq<string>)
    requires Ready(weights, schedule) && Walk(schedule, order)
    ensures Base(weights, schedule, order) >= 1
  {
    var bases := Along(Shares(weights, schedule, 1), order);
    forall i | 0 <= i < |bases| ensures bases[i] >= 1 {
      assert order[i] in order;
    }
    ProductPositive(bases);
  }

  /** The product of the totals never falls, or is constant from the first call on. */
  lemma {:induction false} GrowthBounded(c: int, k: nat, p: int, m: nat, n: nat)
    requires c >= 1 && p >= 1 && m <= n
    ensures 1 <= Growth(c, k, p, m)
    ensures Growth(c, k, p, m) <= Growth(c, k, p, n) || (m == 0 && k == 0)
    decreases n
  {
    if m < n {
      GrowthBounded(c, k, p, m, n - 1);
      GrowthStays(c, k, p, n - 1);
    } else if n > 0 {
      GrowthBounded(c, k, p, n - 1, n - 1);
      GrowthStays(c, k, p, n - 1);
    }
  }

  lemma GrowthStays(c: int, k: nat, p: int, n: nat)
    requires c >= 1 && Growth(c, k, p, n) >= 1
    ensures Growth(c, k, p, n + 1) >= 1
    ensures k >= 1 || n >= 1 ==> Growth(c, k, p, n + 1) >= Growth(c, k, p, n)
  {
    var g := Growth(c, k, p, n);
    PowPositive(g, k);
    MulPositive(c, Pow(g, k));
  }

  /** The calls all stay in range exactly when the first and the last do, and what to
      check for those is known before the first call. */
  lemma AllFitIff(weights: Weights, schedule: map<string, int>, orders: seq<seq<string>>)
    requires Ready(weights, schedule) && AllWalk(schedule, orders) && orders != []
    ensures AllFit(weights, schedule, orders) <==>
      && FitsAt(schedule, Foreseen(weights, schedule, orders[0], 0))
      && FitsAt(schedule, Foreseen(weights, schedule, orders[0], |orders| - 1))
  {
    var last := |orders| - 1;
    forall m: nat | m < |orders|
      ensures NthFits(weights, schedule, orders, m)
         <==> FitsAt(schedule, Foreseen(weights, schedule, orders[0], m))
    {
      ProductForeseen(weights, schedule, orders, m);
      CallFitsIff(AfterCalls(weights, schedule, orders[..m]), schedule, orders[m]);
    }
    if && FitsAt(schedule, Foreseen(weights, schedule, orders[0], 0))
       && FitsAt(schedule, Foreseen(weights, schedule, orders[0], last))
    {
      forall m: nat | m < |orders| ensures FitsAt(schedule, Foreseen(weights, schedule, orders[0], m)) {
        ForeseenFits(weights, schedule, orders[0], m, last);
      }
    }
  }

  lemma ForeseenFits(weights: Weights, schedule: map<string, int>, first: seq<string>, m: nat, n: nat)
    requires Ready(weights, schedule) && Walk(schedule, first) && m <= n
    requires FitsAt(schedule, Foreseen(weights, schedule, first, 0))
    requires FitsAt(schedule, Foreseen(weights, schedule, first, n))
    ensures FitsAt(schedule, Foreseen(weights, schedule, first, m))
  {
    var c, k := Base(weights, schedule, first), Positives(schedule, first);
    var p := Product(Totals(weights, schedule, first));
    SharesPositive(weights, schedule, first);
    ProductPositive(Totals(weights, schedule, first));
    GrowthBounded(c, k, p, m, n);
    if m > 0 || k > 0 {
      SmallerFits(schedule, Growth(c, k, p, m), Growth(c, k, p, n));
    }
  }

  ghost predicate PositiveSchedule(schedule: map<string, int>) {
    schedule != map[] && forall z | z in schedule :: schedule[z] >= 1
  }

  lemma {:induction false} AllPositives(schedule: map<string, int>, order: seq<string>)
    requires (forall z | z in order :: z in schedule) && forall z | z in schedule :: schedule[z] >= 1
    ensures Positives(schedule, order) == |order|
  {
    if order != [] {
      assert order[|order| - 1] in order;
      AllPositives(schedule, order[..|order| - 1]);
    }
  }

  lemma WalkLength(schedule: map<string, int>, order: seq<string>)
    requires Walk(schedule, order)
    ensures |order| == |schedule|
  {
    DistinctWithin(order, schedule.Keys);
    assert |schedule.Keys| == |schedule|;
  }

  /** For positive schedule weights over k zones the product of the totals before the
      (n + 1)-th call is (product of the schedule weights) * (product before the n-th) ^ k,
      and the calls stay in range exactly when the largest new total of the last one does. */
  lemma PositiveAllFitIff(weights: Weights, schedule: map<string, int>, orders: seq<seq<string>>)
    requires Ready(weights, schedule) && AllWalk(schedule, orders) && orders != [] && PositiveSchedule(schedule)
    ensures
      var first, n := orders[0], |orders| - 1;
      var before := Growth(Product(Along(schedule, first)), |schedule|, Product(Totals(weights, schedule, first)), n);
      && ProductBefore(weights, schedule, orders, n) == before
      && (AllFit(weights, schedule, orders) <==> forall z | z in schedule :: schedule[z] * before < INT64_LIMIT)
  {
    var first, n := orders[0], |orders| - 1;
    AllPositives(schedule, first);
    WalkLength(schedule, first);
    assert Along(Shares(weights, schedule, 1), first) == Along(schedule, first);
    ProductForeseen(weights, schedule, orders, n);
    AllFitIff(weights, schedule, orders);
    PositiveFits(weights, schedule, first, n);
  }

  lemma PositiveFits(weights: Weights, schedule: map<string, int>, first: seq<string>, n: nat)
    requires Ready(weights, schedule) && Walk(schedule, first) && PositiveSchedule(schedule)
    ensures
      && FitsAt(schedule, Foreseen(weights, schedule, first, 0))
      && FitsAt(schedule, Foreseen(weights, schedule, first, n))
      <==> forall z | z in schedule :: schedule[z] * Foreseen(weights, schedule, first, n) < INT64_LIMIT
  {
    var c, k := Base(weights, schedule, first), Positives(schedule, first);
    var p := Product(Totals(weights, schedule, first));
    AllPositives(schedule, first);
    WalkLength(schedule, first);
    assert |schedule.Keys| >= 1 by {
      assert schedule.Keys != {};
    }
    SharesPositive(weights, schedule, first);
    ProductPositive(Totals(weights, schedule, first));
    GrowthBounded(c, k, p, 0, n);
    if forall z | z in schedule :: schedule[z] * Foreseen(weights, schedule, first, n) < INT64_LIMIT {
      NewTotalsFit(schedule, Growth(c, k, p, n));
      SmallerFits(schedule, p, Growth(c, k, p, n));
    }
  }

  lemma NewTotalsFit(schedule: map<string, int>, p: int)
    requires PositiveSchedule(schedule) && p >= 1 && forall z | z in schedule :: schedule[z] * p < INT64_LIMIT
    ensures FitsAt(schedule, p)
  {
    forall z | z in schedule ensures 1 <= schedule[z] * p && p <= schedule[z] * p {
      MulPositive(schedule[z], p);
    }
    assert schedule.Keys != {};
    var z :| z in schedule.Keys;
    assert p <= schedule[z] * p;
  }

  // ----- in 64-bit words -----

  /** The weights stored after the calls; nothing once a call has died. */
  ghost function StoredCalls(weights: Weights, schedule: map<string, int>, orders: seq<seq<string>>)
    : (r: Option<Weights>)
    requires Ready(weights, schedule) && AllWalk(schedule, orders)
    ensures r.Some? ==> Ready(r.value, schedule)
    decreases |orders|
  {
    if orders == [] then Some(weights)
    else
      var n := |orders| - 1;
      var before := StoredCalls(weights, schedule, orders[..n]);
      if before.None? then None else Stored(before.value, schedule, orders[n])
  }

  lemma StoredSnoc(weights: Weights, schedule: map<string, int>, orders: seq<seq<string>>, n: nat)
    requires Ready(weights, schedule) && AllWalk(schedule, orders) && n < |orders|
    ensures
      var before, after := StoredCalls(weights, schedule, orders[..n]), StoredCalls(weights, schedule, orders[..n + 1]);
      && (before.None? ==> after.None?)
      && (before.Some? ==> after == Stored(before.value, schedule, orders[n]))
  {
    assert orders[..n + 1][..n] == orders[..n];
  }

  lemma FitPrefix(weights: Weights, schedule: map<string, int>, orders: seq<seq<string>>)
    requires Ready(weights, schedule) && AllWalk(schedule, orders) && orders != [] && AllFit(weights, schedule, orders)
    ensures AllFit(weights, schedule, orders[..|orders| - 1])
  {
    var n := |orders| - 1;
    forall m: nat | m < n ensures NthFits(weights, schedule, orders[..n], m) {
      NthPrefix(weights, schedule, orders, n, m);
    }
  }

  lemma NthPrefix(weights: Weights, schedule: map<string, int>, orders: seq<seq<string>>, n: nat, m: nat)
    requires Ready(weights, schedule) && AllWalk(schedule, orders) && m < n <= |orders|
      && NthFits(weights, schedule, orders, m)
    ensures NthFits(weights, schedule, orders[..n], m)
  {
    assert orders[..n][..m] == orders[..m];
  }

  /** Calls that all stay in range store what unbounded integers would. */
  lemma {:induction false} StoredAreExact(weights: Weights, schedule: map<string, int>, orders: seq<seq<string>>)
    requires Ready(weights, schedule) && AllWalk(schedule, orders) && AllFit(weights, schedule, orders)
    ensures StoredCalls(weights, schedule, orders) == Some(AfterCalls(weights, schedule, orders))
    decreases |orders|
  {
    if orders != [] {
      var n := |orders| - 1;
      FitPrefix(weights, schedule, orders);
      StoredAreExact(weights, schedule, orders[..n]);
      assert NthFits(weights, schedule, orders, n);
      StoredIsRescaled(AfterCalls(weights, schedule, orders[..n]), schedule, orders[n]);
    }
  }

  /** What a caller checks before the first of `n + 1` calls. */
  ghost predicate ForeseenToFit(weights: Weights, schedule: map<string, int>, first: seq<string>, n: nat)
    requires Ready(weights, schedule) && Walk(schedule, first)
  {
    FitsAt(schedule, Foreseen(weights, schedule, first, 0)) && FitsAt(schedule, Foreseen(weights, schedule, first, n))
  }

  lemma StoredWhenForeseen(weights: Weights, schedule: map<string, int>, orders: seq<seq<string>>)
    requires Ready(weights, schedule) && AllWalk(schedule, orders) && orders != []
    requires ForeseenToFit(weights, schedule, orders[0], |orders| - 1)
    ensures StoredCalls(weights, schedule, orders) == Some(AfterCalls(weights, schedule, orders))
  {
    AllFitIff(weights, schedule, orders);
    StoredAreExact(weights, schedule, orders);
  }

  /** As many calls as are foreseen to fit leave stored totals in exact proportion to the
      schedule, whatever its weights. */
  lemma StoredStayProportional(weights: Weights, schedule: map<string, int>, orders: seq<seq<string>>,
                               y: string, z: string)
    requires Ready(weights, schedule) && AllWalk(schedule, orders) && orders != [] && y in schedule && z in schedule
    requires ForeseenToFit(weights, schedule, orders[0], |orders| - 1)
    ensures
      var stored := StoredCalls(weights, schedule, orders);
      stored.Some? && Sum(stored.value[y]) * schedule[z] == Sum(stored.value[z]) * schedule[y]
  {
    StoredWhenForeseen(weights, schedule, orders);
    CallsStayProportional(weights, schedule, orders, y, z);
  }

  /** ... and the inner ratios of every zone with a positive schedule weight. */
  lemma StoredKeepRatios(weights: Weights, schedule: map<string, int>, orders: seq<seq<string>>,
                         z: string, i: nat, j: nat)
    requires Ready(weights, schedule) && AllWalk(schedule, orders) && orders != []
    requires ForeseenToFit(weights, schedule, orders[0], |orders| - 1)
    requires z in schedule && schedule[z] >= 1 && i < |weights[z]| && j < |weights[z]|
    ensures
      var stored := StoredCalls(weights, schedule, orders);
      && stored.Some? && |stored.value[z]| == |weights[z]|
      && Effective(stored.value[z][i]) * Effective(weights[z][j])
        == Effective(stored.value[z][j]) * Effective(weights[z][i])
  {
    StoredWhenForeseen(weights, schedule, orders);
    CallsKeepRatios(weights, schedule, orders, z, i, j);
  }

  // ----- three calls are too many -----

  lemma OrdersOfTwo(schedule: map<string, int>, order: seq<string>, y: string, z: string)
    requires y != z && schedule.Keys == {y, z} && Walk(schedule, order)
    ensures order == [y, z] || order == [z, y]
  {
    WalkLength(schedule, order);
    assert order[0] in order && order[1] in order;
  }

  lemma PairProduct(ts: seq<int>)
    requires |ts| == 2
    ensures Product(ts) == ts[0] * ts[1]
  {
    assert ts[..1] == [ts[0]] && ts[..1][..0] == [];
    assert Product(ts[..1]) == ts[0];
  }

  /** What a single weight `w` becomes when the product of the totals is `p`. */
  function Rewritten(w: int, sw: int, p: int): int
    requires w != 0
  {
    Wrap(w * Wrap(Quotient(Wrap(sw * Wrap(p)), w)))
  }

  lemma SingleTotal(w: int)
    requires w >= 1
    ensures EffectiveAll([w]) == [w] && Sum(EffectiveAll([w])) == w
  {
    assert EffectiveAll([w]) == [w];
    assert [w][..0] == [];
  }

  /** One call over two zones with one instance each. */
  lemma TwoZones(weights: Weights, schedule: map<string, int>, order: seq<string>, y: string, z: string)
    requires y != z && schedule.Keys == weights.Keys == {y, z} && Walk(schedule, order)
    requires |weights[y]| == |weights[z]| == 1
    requires InRange(weights[y][0]) && InRange(weights[z][0]) && weights[y][0] >= 1 && weights[z][0] >= 1
    ensures Ready(weights, schedule) && Stored(weights, schedule, order).Some?
    ensures
      var a, b, stored := weights[y][0], weights[z][0], Stored(weights, schedule, order).value;
      && stored.Keys == {y, z}
      && stored[y] == [Rewritten(a, schedule[y], a * b)] && stored[z] == [Rewritten(b, schedule[z], a * b)]
  {
    var a, b := weights[y][0], weights[z][0];
    assert weights[y] == [a] && weights[z] == [b];
    OrdersOfTwo(schedule, order, y, z);
    var ts := Totals(weights, schedule, order);
    SingleTotal(a);
    SingleTotal(b);
    WrapInRange(a);
    WrapInRange(b);
    assert ts == if order[0] == y then [a, b] else [b, a];
    assert WrappedAll(ts) == ts;
    PairProduct(ts);
    MulCommute(a, b);
    SingleStored(a, schedule[y], order, ts, y);
    SingleStored(b, schedule[z], order, ts, z);
  }

  lemma SingleStored(w: int, sw: int, order: seq<string>, ts: seq<int>, z: string)
    requires z in order && |ts| == |order| && 0 !in ts && w >= 1 && ts[IndexOf(order, z)] == w
    ensures StoredZone([w], sw, order, ts, z) == [Rewritten(w, sw, Product(ts))]
  {
    SingleTotal(w);
  }

  /** Zones y and z hold one weight each. */
  ghost predicate Holds(weights: Option<Weights>, y: string, z: string, a: int, b: int) {
    weights.Some? && weights.value.Keys == {y, z} && weights.value[y] == [a] && weights.value[z] == [b]
  }

  /** The weights a', b' are what one call makes of a, b. */
  ghost predicate Follow(sy: int, sz: int, a: int, b: int, a': int, b': int) {
    && InRange(a) && InRange(b) && a >= 1 && b >= 1
    && a' == Rewritten(a, sy, a * b) && b' == Rewritten(b, sz, a * b)
  }

  lemma NextStored(weights: Weights, schedule: map<string, int>, orders: seq<seq<string>>, n: nat, y: string, z: string,
                   a: int, b: int, a': int, b': int)
    requires Ready(weights, schedule) && AllWalk(schedule, orders) && n < |orders| && y != z && schedule.Keys == {y, z}
    requires Holds(StoredCalls(weights, schedule, orders[..n]), y, z, a, b)
    requires Follow(schedule[y], schedule[z], a, b, a', b')
    ensures Holds(StoredCalls(weights, schedule, orders[..n + 1]), y, z, a', b')
  {
    assert orders[..n + 1][..n] == orders[..n];
    TwoZones(StoredCalls(weights, schedule, orders[..n]).value, schedule, orders[n], y, z);
  }

  /** The wrapped product is k words away, and its quotient by the weight is q or -q. */
  lemma RewrittenIs(w: int, sw: int, p: int, k: int, q: int, r: nat)
    requires w >= 1 && q >= 0 && InRange(p) && InRange(sw * p - k * (2 * INT64_LIMIT)) && q < INT64_LIMIT
    requires Abs(sw * p - k * (2 * INT64_LIMIT)) == q * w + r && r < w
    ensures Rewritten(w, sw, p) == if sw * p - k * (2 * INT64_LIMIT) >= 0 then q * w else -(q * w)
  {
    var x := sw * p - k * (2 * INT64_LIMIT);
    WrapInRange(p);
    WrapIgnoresShift(sw * p, k);
    WrapInRange(x);
    DivideIs(Abs(x), w, q, r);
    MulCommute(w, q);
    assert w * (-q) == -(w * q);
    WrapInRange(if x >= 0 then q else -q);
    WrapInRange(if x >= 0 then w * q else w * (-q));
  }

  lemma DivideIs(n: nat, w: int, q: nat, r: nat)
    requires w >= 1 && n == q * w + r && r < w
    ensures n / w == q
  {
    var m := n % w;
    assert n == (n / w) * w + m;
    if r >= m {
      Unique(q, n / w, r - m, w);
    } else {
      Unique(n / w, q, m - r, w);
    }
  }

  lemma FirstFigures()
    ensures Follow(80, 20, 10, 10, 8000, 2000)
  {
    RewrittenIs(10, 80, 100, 0, 800, 0);
    RewrittenIs(10, 20, 100, 0, 200, 0);
  }

  lemma SecondFigures()
    ensures Follow(80, 20, 8000, 2000, 1280000000, 320000000)
  {
    RewrittenIs(8000, 80, 16000000, 0, 160000, 0);
    RewrittenIs(2000, 20, 16000000, 0, 160000, 0);
  }

  lemma ThirdFigures()
    ensures Follow(80, 20, 1280000000, 320000000, -4125488147200000000, 8192000000000000000)
  {
    RewrittenIs(1280000000, 80, 409600000000000000, 2, 3223037615, 219103232);
    RewrittenIs(320000000, 20, 409600000000000000, 0, 25600000000, 0);
  }

  /** The schedule 80 to 20 over two zones with one instance of default weight each: two
      calls keep the proportion, the third stores weights that are out of proportion,
      one of them negative. */
  lemma ThreeCallsBreakProportion(weights: Weights, schedule: map<string, int>, orders: seq<seq<string>>,
                                  y: string, z: string)
    requires y != z && schedule.Keys == {y, z} && schedule[y] == 80 && schedule[z] == 20
    requires Holds(Some(weights), y, z, DEFAULT_WEIGHT, DEFAULT_WEIGHT) && |orders| == 3 && AllWalk(schedule, orders)
    ensures Ready(weights, schedule)
    ensures Holds(StoredCalls(weights, schedule, orders[..1]), y, z, 8000, 2000)
    ensures Holds(StoredCalls(weights, schedule, orders[..2]), y, z, 1280000000, 320000000)
    ensures Holds(StoredCalls(weights, schedule, orders), y, z, -4125488147200000000, 8192000000000000000)
    ensures -4125488147200000000 * schedule[z] != 8192000000000000000 * schedule[y]
  {
    assert orders[..0] == [] && orders[..3] == orders;
    FirstFigures();
    NextStored(weights, schedule, orders, 0, y, z, 10, 10, 8000, 2000);
    SecondFigures();
    NextStored(weights, schedule, orders, 1, y, z, 8000, 2000, 1280000000, 320000000);
    ThirdFigures();
    NextStored(weights, schedule, orders, 2, y, z, 1280000000, 320000000, -4125488147200000000, 8192000000000000000);
  }
}
