/** The integer arithmetic of zone scheduling: why the quotients are exact, what
    the weights add up to, and when 64-bit words hold every intermediate. */
module Proportion {
  import opened Sequences
  import opened Wrappers

  const INT64_LIMIT := 0x8000_0000_0000_0000

  /** Two's-complement wrap-around of a 64-bit result. */
  function Wrap(x: int): int {
    (x + INT64_LIMIT) % (2 * INT64_LIMIT) - INT64_LIMIT
  }

  predicate InRange(x: int) {
    -INT64_LIMIT <= x < INT64_LIMIT
  }

  lemma WrapInRange(x: int)
    requires InRange(x)
    ensures Wrap(x) == x
  {}

  /** Wrapping changes a number by a whole number of words. */
  lemma WrapShift(x: int) returns (k: int)
    ensures Wrap(x) == x - k * (2 * INT64_LIMIT) && InRange(Wrap(x))
  {
    k := (x + INT64_LIMIT) / (2 * INT64_LIMIT);
  }

  /** A wrapped number is the one of its residue class modulo 2^64 that a signed word holds. */
  lemma WrapIsWord(x: int, y: int)
    requires -0x8000_0000_0000_0000 <= y < 0x8000_0000_0000_0000
    ensures y == Wrap(x) <==> (x - y) % 0x1_0000_0000_0000_0000 == 0
  {
    var k := WrapShift(x);
    if (x - y) % 0x1_0000_0000_0000_0000 == 0 {
      var j := (x - y) / 0x1_0000_0000_0000_0000;
      assert Wrap(x) - y == (j - k) * 0x1_0000_0000_0000_0000;
      assert -1 < j - k < 1;
    }
  }

  lemma WrapIgnoresShift(x: int, k: int)
    ensures Wrap(x - k * (2 * INT64_LIMIT)) == Wrap(x)
  {
    var j := WrapShift(x);
    var i := WrapShift(x - k * (2 * INT64_LIMIT));
    assert -1 < i - (j - k) < 1;
  }

  /** Wrapping an intermediate result does not change the wrapped sum or product. */
  lemma WrapAdd(a: int, b: int)
    ensures Wrap(Wrap(a) + b) == Wrap(a + b)
  {
    var k := WrapShift(a);
    WrapIgnoresShift(a + b, k);
  }

  lemma WrapMul(a: int, b: int)
    ensures Wrap(Wrap(a) * b) == Wrap(a * b)
  {
    var k := WrapShift(a);
    assert (a - k * (2 * INT64_LIMIT)) * b == a * b - (k * b) * (2 * INT64_LIMIT);
    WrapIgnoresShift(a * b, k * b);
  }

  /** Division that truncates toward zero. */
  function Quotient(a: int, b: int): int
    requires b != 0
  {
    if (a >= 0) == (b > 0) then Abs(a) / Abs(b) else -(Abs(a) / Abs(b))
  }

  function Abs(a: int): nat {
    if a < 0 then -a else a
  }

  lemma {:induction false} MulPositive(a: int, b: int)
    requires a >= 1 && b >= 1
    ensures a * b >= a && a * b >= b && a * b >= 1
  {}

  lemma ExactQuotient(k: int, b: int)
    requires b >= 1
    ensures Quotient(k * b, b) == k
  {
    if k >= 0 {
      DivExact(k, b);
      MulSign(k, b);
    } else {
      DivExact(-k, b);
      MulSign(-k, b);
      assert (-k) * b == -(k * b);
    }
  }

  lemma DivExact(k: nat, b: int)
    requires b >= 1
    ensures (k * b) / b == k
  {
    Unique((k * b) / b, k, (k * b) % b, b);
  }

  /** Quotients with a remainder below the divisor are unique. */
  lemma Unique(q: int, k: int, r: int, b: int)
    requires k * b == q * b + r && 0 <= r < b
    ensures q == k
  {
    assert (k - q) * b == r;
    if k - q >= 1 {
      MulPositive(k - q, b);
    } else if k - q <= -1 {
      MulPositive(q - k, b);
    }
  }

  lemma MulSign(k: nat, b: int)
    requires b >= 1
    ensures k * b >= 0
    ensures k > 0 ==> k * b > 0
  {}

  // ----- sums and products -----

  function Sum(ws: seq<int>): int {
    if ws == [] then 0 else Sum(ws[..|ws| - 1]) + ws[|ws| - 1]
  }

  function Product(ts: seq<int>): int {
    if ts == [] then 1 else Product(ts[..|ts| - 1]) * ts[|ts| - 1]
  }

  ghost predicate AllPositive(ws: seq<int>) {
    forall w | w in ws :: w >= 1
  }

  lemma PrefixPositive(ws: seq<int>, n: nat)
    requires AllPositive(ws) && n < |ws|
    ensures AllPositive(ws[..n]) && ws[n] >= 1
  {
    assert ws[n] in ws;
    forall w | w in ws[..n] ensures w >= 1 {
      assert w in ws;
    }
  }

  lemma {:induction false} SumPositive(ws: seq<int>)
    requires AllPositive(ws)
    ensures Sum(ws) >= |ws|
    ensures forall n :: 0 <= n <= |ws| ==> 0 <= Sum(ws[..n]) <= Sum(ws)
    ensures forall j :: 0 <= j < |ws| ==> ws[j] <= Sum(ws)
  {
    if ws != [] {
      var n := |ws| - 1;
      assert AllPositive(ws[..n]) && ws[n] >= 1 by { PrefixPositive(ws, n); }
      SumPositive(ws[..n]);
      assert ws[..|ws|] == ws;
      forall m | 0 <= m <= n ensures ws[..m] == ws[..n][..m] {}
      forall j | 0 <= j < n ensures ws[j] <= Sum(ws) {
        assert ws[j] == ws[..n][j];
      }
    }
  }

  lemma {:induction false} ProductPositive(ts: seq<int>)
    requires AllPositive(ts)
    ensures Product(ts) >= 1
    ensures forall n :: 0 <= n <= |ts| ==> 1 <= Product(ts[..n]) <= Product(ts)
    ensures forall j :: 0 <= j < |ts| ==> ts[j] <= Product(ts)
  {
    if ts != [] {
      var n := |ts| - 1;
      assert AllPositive(ts[..n]) && ts[n] >= 1 by { PrefixPositive(ts, n); }
      ProductPositive(ts[..n]);
      MulPositive(Product(ts[..n]), ts[n]);
      assert ts[..|ts|] == ts;
      forall m | 0 <= m <= n ensures ts[..m] == ts[..n][..m] {}
      forall j | 0 <= j < n ensures ts[j] <= Product(ts) {
        assert ts[j] == ts[..n][j];
      }
    }
  }

  /** Every factor divides the product: the cofactor. */
  function Cofactor(ts: seq<int>, i: nat): int
    requires i < |ts|
  {
    if i == |ts| - 1 then Product(ts[..i]) else Cofactor(ts[..|ts| - 1], i) * ts[|ts| - 1]
  }

  lemma {:induction false} FactorDivides(ts: seq<int>, i: nat)
    requires i < |ts|
    ensures Product(ts) == Cofactor(ts, i) * ts[i]
  {
    var n := |ts| - 1;
    if i < n {
      FactorDivides(ts[..n], i);
      MulSwap(Cofactor(ts[..n], i), ts[i], ts[n]);
    }
  }

  lemma MulSwap(a: int, b: int, c: int)
    ensures (a * b) * c == (a * c) * b
  {}

  lemma MulAssoc(a: int, b: int, c: int)
    ensures a * (b * c) == (a * b) * c
  {}

  /** The calibration factor of the i-th zone. */
  function Fix(sw: int, ts: seq<int>, i: nat): int
    requires i < |ts| && ts[i] != 0
  {
    Quotient(sw * Product(ts), ts[i])
  }

  /** The division by a zone's total is exact. */
  lemma FixIsExact(sw: int, ts: seq<int>, i: nat)
    requires i < |ts| && ts[i] >= 1
    ensures Fix(sw, ts, i) == sw * Cofactor(ts, i)
    ensures Fix(sw, ts, i) * ts[i] == sw * Product(ts)
  {
    var k := Cofactor(ts, i);
    FactorDivides(ts, i);
    MulAssoc(sw, k, ts[i]);
    ExactQuotient(sw * k, ts[i]);
  }

  function Scaled(ws: seq<int>, f: int): (r: seq<int>)
    ensures |r| == |ws|
  {
    seq(|ws|, j requires 0 <= j < |ws| => ws[j] * f)
  }

  lemma {:induction false} SumScaled(ws: seq<int>, f: int)
    ensures Sum(Scaled(ws, f)) == Sum(ws) * f
  {
    if ws != [] {
      var n := |ws| - 1;
      SumScaled(ws[..n], f);
      assert Scaled(ws, f)[..n] == Scaled(ws[..n], f);
    }
  }

  /** A zone's new total is its schedule weight times the common product. */
  lemma ZoneTotal(sw: int, ts: seq<int>, i: nat, ws: seq<int>)
    requires i < |ts| && ts[i] == Sum(ws) >= 1
    ensures Sum(Scaled(ws, Fix(sw, ts, i))) == sw * Product(ts)
  {
    SumScaled(ws, Fix(sw, ts, i));
    FixIsExact(sw, ts, i);
    MulCommute(Sum(ws), Fix(sw, ts, i));
  }

  lemma MulCommute(a: int, b: int)
    ensures a * b == b * a
  {}

  // ----- 64-bit words -----

  /** The bounds under which no intermediate leaves the 64-bit range. */
  ghost predicate Fits(sws: seq<int>, ts: seq<int>) {
    && |sws| == |ts|
    && Product(ts) < INT64_LIMIT
    && forall i :: 0 <= i < |sws| ==> InRange(sws[i] * Product(ts))
  }

  /** With positive schedule weights it is enough to bound the new totals. */
  lemma PositiveSchedulesFit(sws: seq<int>, ts: seq<int>)
    requires |sws| == |ts| && ts != [] && AllPositive(ts) && AllPositive(sws)
    requires forall i :: 0 <= i < |sws| ==> sws[i] * Product(ts) < INT64_LIMIT
    ensures Fits(sws, ts)
  {
    ProductPositive(ts);
    forall i | 0 <= i < |sws| ensures InRange(sws[i] * Product(ts)) && Product(ts) < INT64_LIMIT {
      assert sws[i] in sws;
      MulPositive(sws[i], Product(ts));
    }
    assert sws[0] * Product(ts) < INT64_LIMIT;
  }

  lemma ScaledInRange(w: int, total: int, f: int)
    requires 1 <= w <= total && InRange(total * f)
    ensures InRange(w * f)
  {
    if f >= 0 {
      MulMonotone(w, total, f);
      assert 0 <= w * f <= total * f;
    } else {
      MulMonotone(w, total, -f);
      assert w * (-f) == -(w * f) && total * (-f) == -(total * f);
    }
  }

  lemma MulMonotone(a: int, b: int, f: nat)
    requires 0 <= a <= b
    ensures 0 <= a * f <= b * f
  {}

  /** Under those bounds no intermediate of a call leaves the range: partial sums
      of a zone, partial products of the totals, the scaled product, the factor and
      each new weight. */
  lemma NothingOverflows(sws: seq<int>, ts: seq<int>, i: nat, ws: seq<int>, j: nat)
    requires Fits(sws, ts) && AllPositive(ts) && i < |ts| && AllPositive(ws) && j < |ws| && ts[i] == Sum(ws)
    ensures InRange(Sum(ws[..j])) && InRange(ts[i]) && ts[i] >= 1
    ensures InRange(Product(ts[..i])) && InRange(Product(ts)) && InRange(sws[i] * Product(ts))
    ensures InRange(Fix(sws[i], ts, i)) && InRange(ws[j] * Fix(sws[i], ts, i))
  {
    ProductPositive(ts);
    SumPositive(ws);
    assert ws[j] in ws;
    var f := Fix(sws[i], ts, i);
    FixIsExact(sws[i], ts, i);
    MulCommute(f, ts[i]);
    ScaledInRange(ws[j], ts[i], f);
    ScaledInRange(1, ts[i], f);
  }

  // ----- one call -----

  const DEFAULT_WEIGHT := 10

  /** A weight as it is read: an unusable or non-positive one counts as the default. */
  function Effective(w: int): (e: int)
    ensures e >= 1
  {
    if w <= 0 then DEFAULT_WEIGHT else w
  }

  function EffectiveAll(ws: seq<int>): (es: seq<int>)
    ensures |es| == |ws| && AllPositive(es)
  {
    seq(|ws|, j requires 0 <= j < |ws| => Effective(ws[j]))
  }

  type Weights = map<string, seq<int>>

  /** Every scheduled zone is present and not empty. */
  ghost predicate Ready(weights: Weights, schedule: map<string, int>) {
    forall z | z in schedule :: z in weights && weights[z] != []
  }

  /** `order` visits exactly the scheduled zones, each once. */
  ghost predicate Walk(schedule: map<string, int>, order: seq<string>) {
    Distinct(order) && forall z :: z in order <==> z in schedule
  }

  ghost function Totals(weights: Weights, schedule: map<string, int>, order: seq<string>): (ts: seq<int>)
    requires Ready(weights, schedule) && Walk(schedule, order)
    ensures |ts| == |order| && AllPositive(ts)
    ensures forall i :: 0 <= i < |order| ==> order[i] in weights && ts[i] == Sum(EffectiveAll(weights[order[i]]))
  {
    var ts := seq(|order|, i requires 0 <= i < |order| =>
      assert order[i] in order; Sum(EffectiveAll(weights[order[i]])));
    assert AllPositive(ts) by {
      forall i: nat | i < |ts| ensures ts[i] >= 1 {
        assert order[i] in order;
        SumPositive(EffectiveAll(weights[order[i]]));
      }
    }
    ts
  }

  function IndexOf(order: seq<string>, z: string): (i: nat)
    requires z in order
    ensures i < |order| && order[i] == z
  {
    if order[0] == z then 0 else 1 + IndexOf(order[1..], z)
  }

  /** The weights of one zone after a call. */
  ghost function RescaledZone(weights: Weights, schedule: map<string, int>, order: seq<string>, z: string)
    : (r: seq<int>)
    requires Ready(weights, schedule) && Walk(schedule, order) && z in schedule
    ensures |r| == |weights[z]|
  {
    var ts := Totals(weights, schedule, order);
    Scaled(EffectiveAll(weights[z]), Fix(schedule[z], ts, PositiveAt(ts, IndexOf(order, z))))
  }

  ghost function PositiveAt(ts: seq<int>, i: nat): (r: nat)
    requires AllPositive(ts) && i < |ts|
    ensures r == i && ts[r] >= 1
  {
    assert ts[i] in ts;
    i
  }

  /** The weights after one call that walks the scheduled zones in the given order. */
  ghost function Rescaled(weights: Weights, schedule: map<string, int>, order: seq<string>): (r: Weights)
    requires Ready(weights, schedule) && Walk(schedule, order)
    ensures Ready(r, schedule) && r.Keys == weights.Keys
    ensures forall z | z in weights :: |r[z]| == |weights[z]|
  {
    map z | z in weights :: if z in schedule then RescaledZone(weights, schedule, order, z) else weights[z]
  }

  /** One call gives every scheduled zone the total of its schedule weight times
      one positive number common to all zones, whatever the schedule weights are. */
  lemma {:induction false} OneCall(weights: Weights, schedule: map<string, int>, order: seq<string>)
    requires Ready(weights, schedule) && Walk(schedule, order)
    ensures Product(Totals(weights, schedule, order)) >= 1
    ensures forall z | z in schedule ::
      Sum(Rescaled(weights, schedule, order)[z]) == schedule[z] * Product(Totals(weights, schedule, order))
  {
    var ts := Totals(weights, schedule, order);
    ProductPositive(ts);
    forall z | z in schedule ensures Sum(RescaledZone(weights, schedule, order, z)) == schedule[z] * Product(ts) {
      var i := IndexOf(order, z);
      assert ts[i] in ts;
      ZoneTotal(schedule[z], ts, i, EffectiveAll(weights[z]));
    }
  }

  /** One call keeps the ratios inside a zone. A positive schedule weight leaves
      usable weights; any other leaves weights that the next call reads as the default. */
  lemma RatiosAfterCall(weights: Weights, schedule: map<string, int>, order: seq<string>, z: string, i: nat, j: nat)
    requires Ready(weights, schedule) && Walk(schedule, order) && z in schedule && i < |weights[z]| && j < |weights[z]|
    ensures
      var after := Rescaled(weights, schedule, order)[z];
      && after[i] * Effective(weights[z][j]) == after[j] * Effective(weights[z][i])
      && Effective(after[i]) == if schedule[z] >= 1 then after[i] else DEFAULT_WEIGHT
  {
    var ts := Totals(weights, schedule, order);
    var k := PositiveAt(ts, IndexOf(order, z));
    var f := Fix(schedule[z], ts, k);
    var w := Effective(weights[z][i]);
    CrossMul(w, Effective(weights[z][j]), f);
    FixSign(schedule[z], ts, k);
    if schedule[z] >= 1 {
      MulPositive(w, f);
    } else {
      NonPositiveMul(f, w);
      MulCommute(f, w);
    }
  }

  lemma CrossMul(x: int, y: int, f: int)
    ensures (x * f) * y == (y * f) * x
  {}

  lemma FixSign(sw: int, ts: seq<int>, i: nat)
    requires AllPositive(ts) && i < |ts| && ts[i] >= 1
    ensures Fix(sw, ts, i) >= 1 <==> sw >= 1
  {
    FixIsExact(sw, ts, i);
    ProductPositive(ts);
    var f := Fix(sw, ts, i);
    if sw >= 1 {
      MulPositive(sw, Product(ts));
      if f <= 0 {
        NonPositiveMul(f, ts[i]);
      }
    } else {
      NonPositiveMul(sw, Product(ts));
      if f >= 1 {
        MulPositive(f, ts[i]);
      }
    }
  }

  lemma NonPositiveMul(f: int, t: int)
    requires f <= 0 && t >= 1
    ensures f * t <= 0
  {}

  // ----- one call in 64-bit words -----

  /** A factor as it is computed: each operation wraps. */
  function FactorFrom(sw: int, com: int, total: int): int
    requires total != 0
  {
    Wrap(Quotient(Wrap(sw * com), total))
  }

  /** ... for the i-th zone, from the wrapped product of all totals. */
  function WrappedFix(sw: int, ts: seq<int>, i: nat): int
    requires i < |ts| && ts[i] != 0
  {
    FactorFrom(sw, Wrap(Product(ts)), ts[i])
  }

  function WrappedAll(ws: seq<int>): (r: seq<int>)
    ensures |r| == |ws| && forall j :: 0 <= j < |ws| ==> r[j] == Wrap(ws[j])
  {
    seq(|ws|, j requires 0 <= j < |ws| => Wrap(ws[j]))
  }

  lemma WrappedAllInRange(ws: seq<int>)
    requires forall j :: 0 <= j < |ws| ==> InRange(ws[j])
    ensures WrappedAll(ws) == ws
  {
    forall j | 0 <= j < |ws| ensures Wrap(ws[j]) == ws[j] {
      WrapInRange(ws[j]);
    }
  }

  /** The weights that one call stores, with wrap-around; no weights when a total that
      wrapped to zero is divided by, which is a runtime error. */
  ghost function Stored(weights: Weights, schedule: map<string, int>, order: seq<string>): (r: Option<Weights>)
    requires Ready(weights, schedule) && Walk(schedule, order)
  {
    var ts := WrappedAll(Totals(weights, schedule, order));
    if 0 in ts then None else Some(StoredZones(weights, schedule, order, ts))
  }

  ghost function StoredZones(weights: Weights, schedule: map<string, int>, order: seq<string>, ts: seq<int>)
    : (r: Weights)
    requires Walk(schedule, order) && |ts| == |order| && 0 !in ts
    ensures r.Keys == weights.Keys
    ensures forall z | z in weights :: |r[z]| == |weights[z]|
    ensures Ready(weights, schedule) ==> Ready(r, schedule)
  {
    map z | z in weights :: if z in schedule then StoredZone(weights[z], schedule[z], order, ts, z) else weights[z]
  }

  ghost function StoredZone(ws: seq<int>, sw: int, order: seq<string>, ts: seq<int>, z: string): (r: seq<int>)
    requires z in order && |ts| == |order| && 0 !in ts
    ensures |r| == |ws|
  {
    var i := IndexOf(order, z);
    assert ts[i] in ts;
    WrappedAll(Scaled(EffectiveAll(ws), WrappedFix(sw, ts, i)))
  }

  /** Every intermediate of a call is in range: partial sums, partial products, scaled
      products, factors and new weights. */
  ghost predicate CallFits(weights: Weights, schedule: map<string, int>, order: seq<string>)
    requires Ready(weights, schedule) && Walk(schedule, order)
  {
    var ts := Totals(weights, schedule, order);
    && (forall n | 0 <= n <= |ts| :: InRange(Product(ts[..n])))
    && (forall z | z in schedule :: ZoneFits(weights[z], schedule[z], ts, IndexOf(order, z)))
  }

  ghost predicate ZoneFits(ws: seq<int>, sw: int, ts: seq<int>, i: nat)
    requires AllPositive(ts) && i < |ts|
  {
    && (forall j | 0 <= j <= |ws| :: InRange(Sum(EffectiveAll(ws)[..j])))
    && InRange(sw * Product(ts)) && InRange(Fix(sw, ts, PositiveAt(ts, i)))
    && (forall j | 0 <= j < |ws| :: InRange(EffectiveAll(ws)[j] * Fix(sw, ts, PositiveAt(ts, i))))
  }

  /** What a caller checks: the product of the totals and the new totals. */
  ghost predicate FitsAt(schedule: map<string, int>, p: int) {
    p < INT64_LIMIT && forall z | z in schedule :: InRange(schedule[z] * p)
  }

  function Along(m: map<string, int>, order: seq<string>): (r: seq<int>)
    requires forall z | z in order :: z in m
    ensures |r| == |order| && forall i :: 0 <= i < |order| ==> order[i] in m && r[i] == m[order[i]]
  {
    seq(|order|, i requires 0 <= i < |order| => assert order[i] in order; m[order[i]])
  }

  lemma ZoneFitsWhen(ws: seq<int>, sws: seq<int>, ts: seq<int>, i: nat)
    requires Fits(sws, ts) && AllPositive(ts) && i < |ts| && ws != [] && ts[i] == Sum(EffectiveAll(ws))
    ensures ZoneFits(ws, sws[i], ts, i)
  {
    var es := EffectiveAll(ws);
    forall j | 0 <= j < |es| ensures InRange(Sum(es[..j])) && InRange(es[j] * Fix(sws[i], ts, PositiveAt(ts, i))) {
      NothingOverflows(sws, ts, i, es, j);
    }
    NothingOverflows(sws, ts, i, es, 0);
    assert es[..|es|] == es;
  }

  /** Every intermediate of a call is in range exactly when the product of the totals
      and the new totals are. */
  lemma CallFitsIff(weights: Weights, schedule: map<string, int>, order: seq<string>)
    requires Ready(weights, schedule) && Walk(schedule, order)
    ensures CallFits(weights, schedule, order) <==> FitsAt(schedule, Product(Totals(weights, schedule, order)))
  {
    var ts := Totals(weights, schedule, order);
    assert ts[..|ts|] == ts;
    if FitsAt(schedule, Product(ts)) {
      PrefixesFit(ts);
      forall z | z in schedule ensures ZoneFits(weights[z], schedule[z], ts, IndexOf(order, z)) {
        FitsAlong(schedule, order, ts);
        ZoneFitsWhen(weights[z], Along(schedule, order), ts, IndexOf(order, z));
      }
    }
  }

  lemma FitsAlong(schedule: map<string, int>, order: seq<string>, ts: seq<int>)
    requires Walk(schedule, order) && |ts| == |order| && FitsAt(schedule, Product(ts))
    ensures Fits(Along(schedule, order), ts)
  {}

  lemma PrefixesFit(ts: seq<int>)
    requires AllPositive(ts) && Product(ts) < INT64_LIMIT
    ensures forall n | 0 <= n <= |ts| :: InRange(Product(ts[..n]))
  {
    ProductPositive(ts);
  }

  lemma WrappedFixIsFix(sw: int, ts: seq<int>, i: nat)
    requires AllPositive(ts) && i < |ts| && ts[i] >= 1
    requires InRange(Product(ts)) && InRange(sw * Product(ts)) && InRange(Fix(sw, ts, i))
    ensures WrappedFix(sw, ts, i) == Fix(sw, ts, i)
  {
    WrapInRange(Product(ts));
    WrapInRange(sw * Product(ts));
    WrapInRange(Fix(sw, ts, i));
  }

  lemma TotalsInRange(ts: seq<int>)
    requires AllPositive(ts) && InRange(Product(ts))
    ensures WrappedAll(ts) == ts && 0 !in ts
  {
    ProductPositive(ts);
    forall j | 0 <= j < |ts| ensures InRange(ts[j]) {
      assert ts[j] in ts;
    }
    WrappedAllInRange(ts);
  }

  lemma StoredZoneExact(ws: seq<int>, sw: int, order: seq<string>, ts: seq<int>, z: string)
    requires z in order && |ts| == |order| && AllPositive(ts) && 0 !in ts && InRange(Product(ts))
    requires ZoneFits(ws, sw, ts, IndexOf(order, z))
    ensures StoredZone(ws, sw, order, ts, z) == Scaled(EffectiveAll(ws), Fix(sw, ts, PositiveAt(ts, IndexOf(order, z))))
  {
    var i := IndexOf(order, z);
    assert ts[i] in ts;
    WrappedFixIsFix(sw, ts, i);
    WrappedAllInRange(Scaled(EffectiveAll(ws), Fix(sw, ts, i)));
  }

  /** A call that stays in range stores exactly the rescaled weights. */
  lemma StoredIsRescaled(weights: Weights, schedule: map<string, int>, order: seq<string>)
    requires Ready(weights, schedule) && Walk(schedule, order) && CallFits(weights, schedule, order)
    ensures Stored(weights, schedule, order) == Some(Rescaled(weights, schedule, order))
  {
    var ts := Totals(weights, schedule, order);
    assert ts[..|ts|] == ts;
    TotalsInRange(ts);
    var s, r := StoredZones(weights, schedule, order, ts), Rescaled(weights, schedule, order);
    forall z | z in weights ensures s[z] == r[z] {
      if z in schedule {
        StoredZoneExact(weights[z], schedule[z], order, ts, z);
      }
    }
    assert s == r;
  }
}
