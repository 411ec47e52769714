/** Fee recommendations: size-weighted percentiles of pool rates, and pressure from occupancy. */
module FeeMarket {
  import opened Paqus
  import opened Ordering
  import opened Mempool
  import Selection = BlockSelection

  datatype Entry = Entry(rate: nat, size: nat)

  ghost predicate Descending(e: seq<Entry>) {
    forall i, j :: 0 <= i < j < |e| ==> e[i].rate >= e[j].rate
  }

  /** Total size of the entries paying at least `rate`. */
  function Mass(e: seq<Entry>, rate: nat): nat {
    if e == [] then 0
    else Mass(e[..|e| - 1], rate) + if e[|e| - 1].rate >= rate then e[|e| - 1].size else 0
  }

  function Total(e: seq<Entry>): nat {
    Mass(e, 0)
  }

  /** `rate` is the greatest rate of the pool at which entries paying it or more reach `target`. */
  ghost predicate IsThreshold(e: seq<Entry>, target: nat, rate: nat) {
    && (exists i :: 0 <= i < |e| && e[i].rate == rate)
    && Mass(e, rate) >= target
    && forall i :: 0 <= i < |e| && e[i].rate > rate ==> Mass(e, e[i].rate) < target
  }

  function PercentileTarget(total: nat, percentile: nat): nat {
    Max((total * percentile + 99) / 100, 1)
  }

  /** The target is the share of the total rounded up, and at least one. */
  lemma TargetIsCeiling(total: nat, percentile: nat)
    ensures
      var target := PercentileTarget(total, percentile);
      && target >= 1 && total * percentile <= 100 * target
      && (total * percentile > 0 ==> 100 * (target - 1) < total * percentile)
  {
  }

  /** In a descending list, the entries paying at least `e[i].rate` include the first `i + 1`. */
  lemma {:induction false} MassOfPrefix(e: seq<Entry>, i: nat)
    requires Descending(e) && i < |e|
    ensures Mass(e, e[i].rate) >= Total(e[..i + 1])
    decreases |e|
  {
    var front := e[..|e| - 1];
    if i < |e| - 1 {
      MassOfPrefix(front, i);
      assert front[..i + 1] == e[..i + 1];
    } else {
      assert e[..i + 1] == e;
      AllPay(e, e[i].rate);
    }
  }

  lemma {:induction false} AllPay(e: seq<Entry>, rate: nat)
    requires forall i :: 0 <= i < |e| ==> e[i].rate >= rate
    ensures Mass(e, rate) == Total(e)
  {
    if e != [] { AllPay(e[..|e| - 1], rate); }
  }

  /** Entries paying more than `e[i].rate` all come before `i`. */
  lemma {:induction false} MassAbove(e: seq<Entry>, i: nat, rate: nat)
    requires Descending(e) && i < |e| && rate > e[i].rate
    ensures Mass(e, rate) <= Total(e[..i])
    decreases |e|
  {
    var front := e[..|e| - 1];
    if i < |e| - 1 {
      MassAbove(front, i, rate);
      assert front[..i] == e[..i];
    } else {
      assert front == e[..i];
      MassAtMostTotal(front, rate);
    }
  }

  lemma {:induction false} MassAtMostTotal(e: seq<Entry>, rate: nat)
    ensures Mass(e, rate) <= Total(e)
  {
    if e != [] { MassAtMostTotal(e[..|e| - 1], rate); }
  }

  lemma ReachingGivesThreshold(e: seq<Entry>, i: nat, target: nat)
    requires Descending(e) && i < |e|
    requires Total(e[..i + 1]) >= target > Total(e[..i])
    ensures IsThreshold(e, target, e[i].rate)
  {
    MassOfPrefix(e, i);
    forall j | 0 <= j < |e| && e[j].rate > e[i].rate ensures Mass(e, e[j].rate) < target {
      MassAbove(e, i, e[j].rate);
    }
  }

  /** The percentile: defined on a non-empty pool, and on a pool of positive size the threshold
      for the matching share of it, where sizes past the machine word count as that much. */
  method WeightedPercentileRate(e: seq<Entry>, percentile: nat) returns (rate: Option<nat>)
    requires Descending(e)
    ensures rate.None? <==> e == []
    ensures Total(e) > 0 && percentile <= 100 ==>
      rate.Some? && IsThreshold(e, PercentileTarget(Min(Total(e), U64_MAX), percentile), rate.value)
    ensures e != [] && Total(e) == 0 ==> rate == Some(e[0].rate)
  {
    if e == [] {
      return None;
    }
    var total := SumSizes(e);
    if total == 0 {
      return Some(e[0].rate);
    }
    var target := PercentileTarget(total, percentile);
    if percentile <= 100 { TargetReachable(total, percentile); }
    hide PercentileTarget;
    var accumulated := 0;
    var i := 0;
    while i < |e|
      invariant 0 <= i <= |e|
      invariant accumulated == Min(Total(e[..i]), U64_MAX)
      invariant accumulated < target
    {
      assert e[..i + 1][..i] == e[..i];
      accumulated := SaturatingAdd(accumulated, e[i].size);
      if accumulated >= target {
        if percentile <= 100 {
          ReachingGivesThreshold(e, i, target);
        }
        return Some(e[i].rate);
      }
      i := i + 1;
    }
    assert e[..i] == e;
    rate := Some(e[|e| - 1].rate);
  }

  method SumSizes(e: seq<Entry>) returns (total: nat)
    ensures total == Min(Total(e), U64_MAX)
  {
    total := 0;
    var i := 0;
    while i < |e|
      invariant 0 <= i <= |e|
      invariant total == Min(Total(e[..i]), U64_MAX)
    {
      assert e[..i + 1][..i] == e[..i];
      total := SaturatingAdd(total, e[i].size);
      i := i + 1;
    }
    assert e[..i] == e;
  }

  lemma TargetReachable(total: nat, percentile: nat)
    requires total > 0 && percentile <= 100
    ensures 1 <= PercentileTarget(total, percentile) <= total
  {
    assert total * percentile <= total * 100;
  }

  lemma TargetRises(total: nat, low: nat, high: nat)
    requires low <= high
    ensures 1 <= PercentileTarget(total, low) <= PercentileTarget(total, high)
  {
    assert total * low <= total * high;
  }

  /** The clearing rate: the threshold for a full block, or the lowest rate when the whole
      pool fits into one. Saturating sums do not disturb it. */
  method WeightedClearingRate(e: seq<Entry>, target: nat) returns (rate: Option<nat>)
    requires Descending(e) && 0 < target <= U64_MAX
    ensures rate.None? <==> e == []
    ensures Total(e) >= target ==> rate.Some? && IsThreshold(e, target, rate.value)
    ensures e != [] && Total(e) < target ==> rate == Some(e[|e| - 1].rate)
  {
    if e == [] {
      return None;
    }
    var accumulated := 0;
    var lastRate := e[0].rate;
    var i := 0;
    while i < |e|
      invariant 0 <= i <= |e|
      invariant accumulated == Min(Total(e[..i]), U64_MAX)
      invariant accumulated < target
      invariant lastRate == if i == 0 then e[0].rate else e[i - 1].rate
    {
      assert e[..i + 1][..i] == e[..i];
      accumulated := SaturatingAdd(accumulated, e[i].size);
      lastRate := e[i].rate;
      if accumulated >= target {
        ReachingGivesThreshold(e, i, target);
        PrefixAtMostTotal(e, i + 1);
        return Some(e[i].rate);
      }
      i := i + 1;
    }
    assert e[..i] == e;
    rate := Some(lastRate);
  }

  lemma {:induction false} PrefixAtMostTotal(e: seq<Entry>, n: nat)
    requires n <= |e|
    ensures Total(e[..n]) <= Total(e)
    decreases |e|
  {
    if n == |e| {
      assert e[..n] == e;
    } else {
      PrefixAtMostTotal(e[..|e| - 1], n);
      assert e[..|e| - 1][..n] == e[..n];
    }
  }

  /** The threshold falls as the target rises; equal targets give equal thresholds. */
  lemma ThresholdFalls(e: seq<Entry>, low: nat, high: nat, a: nat, b: nat)
    requires low <= high && IsThreshold(e, low, a) && IsThreshold(e, high, b)
    ensures a >= b
  {
  }

  lemma {:induction false} MassIgnoresOrder(e: seq<Entry>, f: seq<Entry>, rate: nat)
    requires multiset(e) == multiset(f)
    ensures Mass(e, rate) == Mass(f, rate)
    decreases |e|
  {
    hide Mass;
    if e == [] {
      assert |multiset(f)| == 0;
      assert f == e;
    } else {
      var n, last := |e| - 1, e[|e| - 1];
      assert last in multiset(f);
      var k :| 0 <= k < |f| && f[k] == last;
      DropOne(e, n);
      DropOne(f, k);
      MassIgnoresOrder(e[..n] + e[n + 1..], f[..k] + f[k + 1..], rate);
      MassDrops(e, n, rate);
      MassDrops(f, k, rate);
    }
  }

  lemma DropOne(f: seq<Entry>, k: nat)
    requires k < |f|
    ensures multiset(f[..k] + f[k + 1..]) == multiset(f) - multiset{f[k]}
  {
    assert f == f[..k] + [f[k]] + f[k + 1..];
  }

  lemma {:induction false} MassDrops(f: seq<Entry>, k: nat, rate: nat)
    requires k < |f|
    ensures Mass(f, rate) == Mass(f[..k] + f[k + 1..], rate) + if f[k].rate >= rate then f[k].size else 0
    decreases |f|
  {
    var without := f[..k] + f[k + 1..];
    if k == |f| - 1 {
      assert without == f[..|f| - 1];
    } else {
      var front := f[..|f| - 1];
      MassDrops(front, k, rate);
      assert without[..|without| - 1] == front[..k] + front[k + 1..];
      assert without[|without| - 1] == f[|f| - 1];
    }
  }

  /** How ties are ordered does not matter: reorderings of a pool have the same thresholds. */
  lemma ThresholdIgnoresOrder(e: seq<Entry>, f: seq<Entry>, target: nat, a: nat, b: nat)
    requires multiset(e) == multiset(f)
    requires IsThreshold(e, target, a) && IsThreshold(f, target, b)
    ensures a == b
  {
    var i :| 0 <= i < |e| && e[i].rate == a;
    var j :| 0 <= j < |f| && f[j].rate == b;
    assert e[i] in multiset(f) && f[j] in multiset(e);
    var i' :| 0 <= i' < |f| && f[i'] == e[i];
    var j' :| 0 <= j' < |e| && e[j'] == f[j];
    MassIgnoresOrder(e, f, a);
    MassIgnoresOrder(e, f, b);
  }

  // ---- Pressure ----

  const MAX_MULTIPLIER: nat := 8

  function SaturatingMul(a: nat, b: nat): nat {
    Min(a * b, U64_MAX)
  }

  function OccupancyBps(used: nat, capacity: nat): nat {
    if capacity == 0 then 10_000 else Min(used * 10_000 / capacity, 10_000)
  }

  function BaseRate(c: Config): nat {
    Max(c.marketFee, c.minRelayFee)
  }

  function PressureBps(p: Pool): nat {
    Max(OccupancyBps(p.totalBytes, p.config.maxBytes), OccupancyBps(|p.txs|, p.config.maxTransactions))
  }

  function PressureRate(base: nat, bps: nat): nat {
    SaturatingAdd(base, SaturatingMul(SaturatingMul(base, MAX_MULTIPLIER), bps) / 10_000)
  }

  /** Occupancy is the share used, in basis points rounded down, and full from capacity on. */
  lemma OccupancyIs(used: nat, capacity: nat)
    ensures
      var bps := OccupancyBps(used, capacity);
      if used >= capacity then bps == 10_000
      else bps * capacity <= used * 10_000 < (bps + 1) * capacity
  {
    if capacity > 0 {
      QuotientBounds(used * 10_000, capacity);
      if used >= capacity {
        DivRises(capacity * 10_000, used * 10_000, capacity);
        WholeQuotient(10_000, capacity);
      } else {
        BelowWhole(used, capacity);
      }
    }
  }

  lemma WholeQuotient(q: nat, d: nat)
    requires d > 0
    ensures (d * q) / d == q
  {
    QuotientBounds(d * q, d);
    ProductGap((d * q) / d, q, d);
    ProductGap(q, (d * q) / d, d);
  }

  lemma BelowWhole(used: nat, capacity: nat)
    requires used < capacity
    ensures used * 10_000 / capacity <= 10_000
  {
    DivRises(used * 10_000, capacity * 10_000, capacity);
    WholeQuotient(10_000, capacity);
  }

  /** The premium over the base rate is eight times the base at full occupancy and its share below
      that, rounded down, with sums and products capped at the machine word. */
  lemma PressureIs(base: nat, bps: nat) returns (premium: nat)
    requires base <= U64_MAX
    ensures PressureRate(base, bps) == Min(base + premium, U64_MAX)
    ensures
      var product := Min(8 * base * bps, U64_MAX);
      premium * 10_000 <= product < (premium + 1) * 10_000
  {
    premium := SaturatingMul(SaturatingMul(base, MAX_MULTIPLIER), bps) / 10_000;
    QuotientBounds(SaturatingMul(SaturatingMul(base, MAX_MULTIPLIER), bps), 10_000);
    CappedTwice(base, bps);
  }

  lemma CappedTwice(base: nat, bps: nat)
    ensures SaturatingMul(SaturatingMul(base, MAX_MULTIPLIER), bps) == Min(8 * base * bps, U64_MAX)
  {
    if base * MAX_MULTIPLIER > U64_MAX && bps > 0 {
      ProductAtLeast(U64_MAX, bps);
      ProductAtLeast(8 * base, bps);
    }
  }

  lemma ProductAtLeast(a: nat, b: nat)
    requires b > 0
    ensures a * b >= a
  {
    assert a * b == a * (b - 1) + a;
  }

  lemma OccupancyRises(a: nat, b: nat, capacity: nat)
    requires a <= b
    ensures OccupancyBps(a, capacity) <= OccupancyBps(b, capacity) <= 10_000
  {
    if capacity > 0 {
      DivRises(a * 10_000, b * 10_000, capacity);
    }
  }

  lemma DivRises(x: nat, y: nat, d: nat)
    requires x <= y && d > 0
    ensures x / d <= y / d
  {
    ProductGap(x / d, y / d, d);
  }

  lemma {:induction false} ProductGap(a: nat, b: nat, d: nat)
    ensures a > b ==> d * a >= d * b + d
  {
    if a > b + 1 {
      ProductGap(a - 1, b, d);
      assert d * a == d * (a - 1) + d;
    }
  }

  /** The pressure rate lies between the base rate and nine times it, and rises with occupancy. */
  lemma PressureBounded(base: nat, low: nat, high: nat)
    requires base <= U64_MAX && low <= high <= 10_000
    ensures base <= PressureRate(base, low) <= PressureRate(base, high) <= 9 * base
  {
    var m := SaturatingMul(base, MAX_MULTIPLIER);
    assert m * low <= m * high <= m * 10_000;
    DivRises(SaturatingMul(m, low), SaturatingMul(m, high), 10_000);
    DivRises(SaturatingMul(m, high), m * 10_000, 10_000);
  }

  // ---- The published snapshot ----

  datatype Snapshot = Snapshot(
    pressureBps: nat,
    clearingRate: nat,
    medianRate: nat,
    p75Rate: nat,
    p90Rate: nat,
    recommendedRate: nat)

  function PoolEntries(txs: map<Hash, Tx>): seq<Entry> {
    var order := Listed(txs, set h | h in txs :: Key(-(Rate(txs[h]) as int), h, h));
    seq(|order|, i requires 0 <= i < |order| => Entry(Rate(order[i]), order[i].virtualSize))
  }

  lemma PoolEntriesDescend(txs: map<Hash, Tx>)
    ensures Descending(PoolEntries(txs))
  {
    var keys := set h | h in txs :: Key(-(Rate(txs[h]) as int), h, h);
    SortedIsAscending(keys);
    var order := Sorted(keys);
    forall i, j | 0 <= i < j < |order| ensures PoolEntries(txs)[i].rate >= PoolEntries(txs)[j].rate {
      assert order[i] in keys && order[j] in keys && Less(order[i], order[j]);
    }
  }

  /** The statistics are over the pool's own transactions, each once, with its rate and its virtual
      size. */
  lemma PoolEntriesExact(txs: map<Hash, Tx>) returns (q: seq<Tx>)
    requires forall h :: h in txs ==> txs[h].hash == h
    ensures NoRepeats(q) && Kept(txs, q) && |PoolEntries(txs)| == |q|
    ensures forall i :: 0 <= i < |q| ==> PoolEntries(txs)[i] == Entry(Rate(q[i]), q[i].virtualSize)
  {
    hide Sorted, Rate;
    var keys := set h | h in txs :: Key(-(Rate(txs[h]) as int), h, h);
    q := Listed(txs, keys);
    ListedAt(txs, keys);
    hide Listed;
    var order := Sorted(keys);
    assert forall i :: 0 <= i < |order| ==> order[i] in keys && q[i].hash == order[i].c;
    forall i, j | 0 <= i < j < |q| ensures q[i] != q[j] {
      assert Less(order[i], order[j]);
      assert order[i] in keys && order[j] in keys;
    }
    forall h | h in txs ensures txs[h] in q {
      assert Key(-(Rate(txs[h]) as int), h, h) in keys;
    }
  }

  /** The percentiles are the thresholds for their shares and fall as they rise in rank; the
      clearing rate is the threshold for a full block, or the lowest rate when the pool fits; the
      recommendation is the greatest of base, pressure, clearing and 75th percentile rates. An
      empty pool reports the base rate throughout. */
  method FeeMarketSnapshot(p: Pool) returns (s: Snapshot)
    requires BaseRate(p.config) <= U64_MAX
    ensures s.pressureBps <= 10_000
    ensures s.pressureBps ==
      Max(OccupancyBps(p.totalBytes, p.config.maxBytes), OccupancyBps(|p.txs|, p.config.maxTransactions))
    ensures
      var base := Max(p.config.marketFee, p.config.minRelayFee);
      && base <= PressureRate(base, s.pressureBps) <= 9 * base
      && s.recommendedRate == Max(Max(base, PressureRate(base, s.pressureBps)), Max(s.clearingRate, s.p75Rate))
    ensures
      var e, base := PoolEntries(p.txs), Max(p.config.marketFee, p.config.minRelayFee);
      && (e == [] ==> s.clearingRate == s.medianRate == s.p75Rate == s.p90Rate == base)
      && (Total(e) >= Selection.MAX_BLOCK_WEIGHT ==> IsThreshold(e, Selection.MAX_BLOCK_WEIGHT, s.clearingRate))
      && (e != [] && Total(e) < Selection.MAX_BLOCK_WEIGHT ==> s.clearingRate == e[|e| - 1].rate)
      && (e != [] && Total(e) == 0 ==> s.medianRate == s.p75Rate == s.p90Rate == e[0].rate)
    ensures
      var e := PoolEntries(p.txs);
      var total := Min(Total(e), U64_MAX);
      total > 0 ==>
        && IsThreshold(e, PercentileTarget(total, 50), s.medianRate)
        && IsThreshold(e, PercentileTarget(total, 75), s.p75Rate)
        && IsThreshold(e, PercentileTarget(total, 90), s.p90Rate)
        && s.medianRate >= s.p75Rate >= s.p90Rate
  {
    hide Mass, PercentileTarget, OccupancyBps, PoolEntries, PressureRate, IsThreshold;
    var base := BaseRate(p.config);
    var bps := PressureBps(p);
    OccupancyRises(p.totalBytes, p.totalBytes, p.config.maxBytes);
    OccupancyRises(|p.txs|, |p.txs|, p.config.maxTransactions);
    PressureBounded(base, bps, bps);
    var pressure := PressureRate(base, bps);
    var e := PoolEntries(p.txs);
    PoolEntriesDescend(p.txs);
    var clearing := WeightedClearingRate(e, Selection.MAX_BLOCK_WEIGHT);
    var median := WeightedPercentileRate(e, 50);
    var p75 := WeightedPercentileRate(e, 75);
    var p90 := WeightedPercentileRate(e, 90);
    var clear75 := Max(Or(clearing, base), Or(p75, base));
    s := Snapshot(bps, Or(clearing, base), Or(median, base), Or(p75, base), Or(p90, base),
                  Max(Max(base, pressure), clear75));
    ghost var total: nat := Min(Total(e), U64_MAX);
    if total > 0 {
      TargetRises(total, 50, 75);
      TargetRises(total, 75, 90);
      ThresholdFalls(e, PercentileTarget(total, 50), PercentileTarget(total, 75), s.medianRate, s.p75Rate);
      ThresholdFalls(e, PercentileTarget(total, 75), PercentileTarget(total, 90), s.p75Rate, s.p90Rate);
    }
  }

  function Or(rate: Option<nat>, fallback: nat): nat {
    if rate.Some? then rate.value else fallback
  }
}
