/** The wallet's cash planner: greedy change-making over the selected denominations. */
module CashPlanner {
  import opened Paqus
  import O = Ordering

  ghost predicate AllPositive(units: seq<nat>) {
    forall i :: 0 <= i < |units| ==> units[i] > 0
  }

  function Quot(a: nat, d: nat): nat
    requires d > 0
  {
    a / d
  }

  function Rem(a: nat, d: nat): nat
    requires d > 0
  {
    a % d
  }

  function Times(k: nat, unit: nat): nat {
    k * unit
  }

  lemma QuotRem(a: nat, d: nat)
    requires d > 0
    ensures a == Times(Quot(a, d), d) + Rem(a, d) && Rem(a, d) < d
  {
  }

  /** How many files of each unit the planner issues. */
  function Counts(amount: nat, units: seq<nat>): (ks: seq<nat>)
    requires AllPositive(units)
    ensures |ks| == |units|
    decreases |units|
  {
    if units == [] then [] else [Quot(amount, units[0])] + Counts(Rem(amount, units[0]), units[1..])
  }

  function Remainder(amount: nat, units: seq<nat>): nat
    requires AllPositive(units)
    decreases |units|
  {
    if units == [] then amount else Remainder(Rem(amount, units[0]), units[1..])
  }

  function Value(ks: seq<nat>, units: seq<nat>): nat
    requires |ks| == |units|
    decreases |ks|
  {
    if ks == [] then 0 else Times(ks[0], units[0]) + Value(ks[1..], units[1..])
  }

  function Files(ks: seq<nat>): nat {
    if ks == [] then 0 else ks[0] + Files(ks[1..])
  }

  function Repeated(unit: nat, n: nat): seq<nat> {
    seq(n, _ => unit)
  }

  function Outputs(amount: nat, units: seq<nat>): seq<nat>
    requires AllPositive(units)
    decreases |units|
  {
    if units == [] then []
    else Repeated(units[0], Quot(amount, units[0])) + Outputs(Rem(amount, units[0]), units[1..])
  }

  function Total(outputs: seq<nat>): nat {
    if outputs == [] then 0 else outputs[0] + Total(outputs[1..])
  }

  lemma {:induction false} TotalJoins(a: seq<nat>, b: seq<nat>)
    ensures Total(a + b) == Total(a) + Total(b)
  {
    if a == [] {
      assert a + b == b;
    } else {
      assert (a + b)[1..] == a[1..] + b;
      TotalJoins(a[1..], b);
    }
  }

  lemma {:induction false} TotalRepeats(unit: nat, n: nat)
    ensures Total(Repeated(unit, n)) == Times(n, unit)
  {
    if n > 0 {
      assert Repeated(unit, n)[1..] == Repeated(unit, n - 1);
      TotalRepeats(unit, n - 1);
    }
  }

  ghost predicate OutIn(out: seq<nat>, units: seq<nat>) {
    forall k :: 0 <= k < |out| ==> out[k] in units
  }

  /** The files come largest first, each of a unit that was selected. */
  lemma {:induction false} OutputsDescend(amount: nat, units: seq<nat>)
    requires AllPositive(units) && Descending(units)
    ensures OutIn(Outputs(amount, units), units) && Descending(Outputs(amount, units))
    decreases |units|
  {
    if units != [] {
      var left, more := Rem(amount, units[0]), units[1..];
      OutputsDescend(left, more);
      var first, rest := Repeated(units[0], Quot(amount, units[0])), Outputs(left, more);
      forall u | u in more ensures u in units && u <= units[0] {
        var i :| 0 <= i < |more| && more[i] == u;
        assert units[i + 1] == u;
      }
      FirstThenRest(first, rest, units, more);
    }
  }

  lemma FirstThenRest(first: seq<nat>, rest: seq<nat>, units: seq<nat>, more: seq<nat>)
    requires units != [] && forall k :: 0 <= k < |first| ==> first[k] == units[0]
    requires OutIn(rest, more) && Descending(rest)
    requires forall u :: u in more ==> u in units && u <= units[0]
    ensures OutIn(first + rest, units) && Descending(first + rest)
  {
  }

  /** Outputs and remainder add up to the request, and the remainder is below every unit. */
  lemma {:induction false} PlanBalances(amount: nat, units: seq<nat>)
    requires AllPositive(units)
    ensures Total(Outputs(amount, units)) + Remainder(amount, units) == amount
    ensures forall i :: 0 <= i < |units| ==> Remainder(amount, units) < units[i]
    decreases |units|
  {
    hide Quot, Rem, Times, Repeated, Total;
    if units == [] {
      NoOutputs();
    } else {
      var u, rest := units[0], units[1..];
      QuotRem(amount, u);
      PlanBalances(Rem(amount, u), rest);
      TotalRepeats(u, Quot(amount, u));
      TotalJoins(Repeated(u, Quot(amount, u)), Outputs(Rem(amount, u), rest));
      RemainderShrinks(Rem(amount, u), rest);
    }
  }

  lemma NoOutputs()
    ensures Total([]) == 0
  {
  }

  lemma {:induction false} RemainderShrinks(amount: nat, units: seq<nat>)
    requires AllPositive(units)
    ensures Remainder(amount, units) <= amount
    decreases |units|
  {
    hide Quot, Rem, Times;
    if units != [] {
      QuotRem(amount, units[0]);
      RemainderShrinks(Rem(amount, units[0]), units[1..]);
    }
  }

  /** The counts describe the outputs: same worth, same number of files. */
  lemma {:induction false} CountsMatchOutputs(amount: nat, units: seq<nat>)
    requires AllPositive(units)
    ensures Value(Counts(amount, units), units) == Total(Outputs(amount, units))
    ensures Files(Counts(amount, units)) == |Outputs(amount, units)|
    decreases |units|
  {
    hide Quot, Rem, Times, Total;
    if units == [] {
      NoOutputs();
    } else {
      var u, rest := units[0], units[1..];
      CountsMatchOutputs(Rem(amount, u), rest);
      TotalRepeats(u, Quot(amount, u));
      TotalJoins(Repeated(u, Quot(amount, u)), Outputs(Rem(amount, u), rest));
      assert Counts(amount, units)[1..] == Counts(Rem(amount, u), rest);
    }
  }

  datatype PlanError = TooManyOutputs | CannotRepresent

  datatype Plan = Plan(amount: nat, remainder: nat, outputs: seq<nat>)

  method PlanSelected(requested: nat, allowed: seq<nat>, maxOutputs: nat) returns (result: Result<Plan, PlanError>)
    requires AllPositive(allowed) && requested <= U64_MAX && maxOutputs <= U64_MAX
    ensures result.Ok? ==>
      var p := result.value;
      && p.outputs == Outputs(requested, allowed) && p.outputs != []
      && p.amount == Total(p.outputs) && p.amount + p.remainder == requested
      && forall i :: 0 <= i < |allowed| ==> p.remainder < allowed[i]
    ensures result == Err(TooManyOutputs) <==> |Outputs(requested, allowed)| > maxOutputs
    ensures result == Err(CannotRepresent) <==> Outputs(requested, allowed) == []
  {
    hide Quot, Rem, Times, Total, Repeated;
    var remaining := requested;
    var outputs: seq<nat> := [];
    var i := 0;
    while i < |allowed|
      invariant 0 <= i <= |allowed| && |outputs| <= maxOutputs
      invariant AllPositive(allowed[i..])
      invariant outputs + Outputs(remaining, allowed[i..]) == Outputs(requested, allowed)
      invariant Remainder(remaining, allowed[i..]) == Remainder(requested, allowed)
    {
      var unit := allowed[i];
      assert allowed[i..][0] == unit && allowed[i..][1..] == allowed[i + 1..];
      var count := Quot(remaining, unit);
      RepeatedSize(unit, count);
      if |outputs| + count > maxOutputs {
        return Err(TooManyOutputs);
      }
      outputs := outputs + Repeated(unit, count);
      remaining := Rem(remaining, unit);
      i := i + 1;
    }
    PlanBalances(requested, allowed);
    EmptyTotals(outputs, allowed, requested);
    var amount := SaturatingSub(requested, remaining);
    if outputs == [] || amount == 0 {
      return Err(CannotRepresent);
    }
    result := Ok(Plan(amount, remaining, outputs));
  }

  lemma RepeatedSize(unit: nat, n: nat)
    ensures |Repeated(unit, n)| == n
  {
  }

  /** Every issued file has a positive value, so only an empty plan is worth nothing. */
  lemma EmptyTotals(outputs: seq<nat>, units: seq<nat>, amount: nat)
    requires AllPositive(units) && outputs == Outputs(amount, units)
    ensures Total(outputs) == 0 <==> outputs == []
  {
    OutputsPositive(amount, units);
    if outputs != [] { assert outputs[0] in outputs; }
  }

  lemma {:induction false} OutputsPositive(amount: nat, units: seq<nat>)
    requires AllPositive(units)
    ensures forall x :: x in Outputs(amount, units) ==> x > 0
    decreases |units|
  {
    if units != [] { OutputsPositive(Rem(amount, units[0]), units[1..]); }
  }

  // ---- When greedy planning is best possible ----

  /** Quotient and remainder are the only such split. */
  lemma SplitAt(n: nat, d: nat, q: int, x: nat)
    requires d > 0 && n == q * d + x && x < d
    ensures q >= 0 && Quot(n, d) == q && Rem(n, d) == x
  {
    var p, y := n / d, n % d;
    assert n == p * d + y;
    assert (p - q) * d == p * d - q * d;
    GapScales(p - q, d);
  }

  lemma GapScales(k: int, d: nat)
    ensures k >= 1 ==> k * d >= d
    ensures k <= -1 ==> k * d <= -(d as int)
  {
    if k >= 1 { assert k * d == d + (k - 1) * d; }
    if k <= -1 { assert k * d == -(d as int) + (k + 1) * d; }
  }

  lemma DivShift(x: nat, d: nat, m: nat)
    requires d > 0
    ensures Quot(x + m * d, d) == Quot(x, d) + m && Rem(x + m * d, d) == Rem(x, d)
    ensures Times(Quot(x, d) + m, d) == Times(Quot(x, d), d) + m * d
  {
    QuotRem(x, d);
    var q := Quot(x, d);
    assert (q + m) * d == q * d + m * d;
    SplitAt(x + m * d, d, q + m, Rem(x, d));
  }

  function Worth(amount: nat, units: seq<nat>): nat
    requires AllPositive(units)
  {
    Value(Counts(amount, units), units)
  }

  function FileCount(amount: nat, units: seq<nat>): nat
    requires AllPositive(units)
  {
    Files(Counts(amount, units))
  }

  lemma GreedyUnfolds(amount: nat, units: seq<nat>)
    requires AllPositive(units) && units != []
    ensures
      var u, rest := units[0], units[1..];
      && Worth(amount, units) == Times(Quot(amount, u), u) + Worth(Rem(amount, u), rest)
      && FileCount(amount, units) == Quot(amount, u) + FileCount(Rem(amount, u), rest)
  {
    hide Quot, Rem, Times;
    assert Counts(amount, units)[1..] == Counts(Rem(amount, units[0]), units[1..]);
  }

  /** Five of something next to two of it, with one or one half of it below: 5, 2, 1 or 50, 20, 5. */
  predicate FiveTwo(units: seq<nat>) {
    && |units| >= 3 && 2 * units[0] == 5 * units[1]
    && (units[1] == 2 * units[2] || units[1] == 4 * units[2])
  }

  predicate HeadFits(units: seq<nat>) {
    || |units| <= 1
    || (units[1] > 0 && units[0] % units[1] == 0)
    || FiveTwo(units)
  }

  predicate Canonical(units: seq<nat>) {
    units == [] || (HeadFits(units) && Canonical(units[1..]))
  }

  /** Planning `amount` without the unit `u` is no better than spending one `u` on it. */
  ghost predicate Absorbs(u: nat, rest: seq<nat>, amount: nat)
    requires AllPositive(rest) && amount >= u
  {
    && Worth(amount, rest) <= u + Worth(amount - u, rest)
    && (Worth(amount, rest) == u + Worth(amount - u, rest) ==>
         FileCount(amount, rest) >= 1 + FileCount(amount - u, rest))
  }

  lemma DivisorAbsorbs(u: nat, rest: seq<nat>, amount: nat)
    requires AllPositive(rest) && rest != [] && u > 0 && u % rest[0] == 0 && amount >= u
    ensures Absorbs(u, rest, amount)
  {
    var m := u / rest[0];
    assert u == m * rest[0] && m > 0;
    hide Quot, Rem, Times, Worth, FileCount;
    BelowShift(amount - u, rest, m, u);
  }

  /** Adding `m` whole units of the largest kind adds exactly that worth and `m` files. */
  lemma BelowShift(x: nat, units: seq<nat>, m: nat, w: nat)
    requires AllPositive(units) && units != [] && w == m * units[0]
    ensures Worth(x + w, units) == Worth(x, units) + w
    ensures FileCount(x + w, units) == FileCount(x, units) + m
  {
    hide Quot, Rem, Times, Worth, FileCount;
    DivShift(x, units[0], m);
    GreedyUnfolds(x, units);
    GreedyUnfolds(x + w, units);
  }

  lemma FiveTwoAbsorbs(u: nat, rest: seq<nat>, amount: nat)
    requires AllPositive(rest) && FiveTwo([u] + rest) && amount >= u
    ensures Absorbs(u, rest, amount)
  {
    hide Quot, Rem, Times, Worth, FileCount;
    var w := rest[0] / 2;
    var m := if rest[0] == 2 * rest[1] then 1 else 2;
    assert rest[0] == 2 * w && u == 5 * w && w == m * rest[1] && w > 0;
    GreedyUnfolds(amount, rest);
    GreedyUnfolds(amount - u, rest);
    FiveTwoSplit(amount, w);
    var x := Rem(amount, 2 * w);
    if x >= w {
      BelowShift(x - w, rest[1..], m, w);
    } else {
      BelowShift(x, rest[1..], m, w);
    }
  }

  /** Taking away five of `w` moves the split by twos to two or three fewer. */
  lemma FiveTwoSplit(amount: nat, w: nat)
    requires w > 0 && amount >= 5 * w
    ensures
      var d := 2 * w;
      var a, x := Quot(amount, d), Rem(amount, d);
      && (x >= w ==> Rem(amount - 5 * w, d) == x - w && Quot(amount - 5 * w, d) == a - 2)
      && (x < w ==> Rem(amount - 5 * w, d) == x + w && Quot(amount - 5 * w, d) == a - 3)
      && Times(Quot(amount - 5 * w, d), d) == amount - 5 * w - Rem(amount - 5 * w, d)
      && Times(a, d) == amount - x
  {
    var d := 2 * w;
    QuotRem(amount, d);
    QuotRem(amount - 5 * w, d);
    var a, x := Quot(amount, d), Rem(amount, d);
    assert (a - 2) * d == a * d - 2 * d;
    assert (a - 3) * d == a * d - 3 * d;
    if x >= w {
      SplitAt(amount - 5 * w, d, a - 2, x - w);
    } else {
      SplitAt(amount - 5 * w, d, a - 3, x + w);
    }
  }

  lemma HeadAbsorbs(units: seq<nat>, amount: nat)
    requires AllPositive(units) && units != [] && HeadFits(units) && amount >= units[0]
    ensures Absorbs(units[0], units[1..], amount)
  {
    if |units| > 1 {
      if units[0] % units[1] == 0 {
        DivisorAbsorbs(units[0], units[1..], amount);
      } else {
        assert [units[0]] + units[1..] == units;
        FiveTwoAbsorbs(units[0], units[1..], amount);
      }
    }
    hide Quot, Rem, Times;
  }

  /** Spending `j` more of the head unit is at least as good as planning that amount without it. */
  lemma {:induction false} HeadAbsorbsMany(units: seq<nat>, x: nat, j: nat)
    requires AllPositive(units) && units != [] && HeadFits(units)
    ensures
      var u, rest := units[0], units[1..];
      && Worth(x + Times(j, u), rest) <= Times(j, u) + Worth(x, rest)
      && (Worth(x + Times(j, u), rest) == Times(j, u) + Worth(x, rest) ==>
           FileCount(x + Times(j, u), rest) >= j + FileCount(x, rest))
    decreases j
  {
    hide Worth, FileCount, HeadFits;
    if j > 0 {
      var u := units[0];
      assert Times(j, u) == Times(j - 1, u) + u;
      HeadAbsorbs(units, x + Times(j, u));
      HeadAbsorbsMany(units, x, j - 1);
    }
  }

  /** No choice of counts worth at most `amount` beats the greedy one: none is worth more, and
      none worth the same uses fewer files. */
  ghost predicate NoBetter(amount: nat, units: seq<nat>, ks: seq<nat>)
    requires AllPositive(units) && |ks| == |units|
  {
    && Value(ks, units) <= Worth(amount, units)
    && (Value(ks, units) == Worth(amount, units) ==> Files(ks) >= FileCount(amount, units))
  }

  lemma {:induction false} CanonicalIsBest(amount: nat, units: seq<nat>, ks: seq<nat>)
    requires AllPositive(units) && Canonical(units) && |ks| == |units| && Value(ks, units) <= amount
    ensures NoBetter(amount, units, ks)
    decreases |units|
  {
    if units != [] {
      var u, rest := units[0], units[1..];
      var k, more := ks[0], ks[1..];
      var budget := amount - Times(k, u);
      CanonicalIsBest(budget, rest, more);
      QuotRem(amount, u);
      QuotLargest(amount, u, k);
      GreedyUnfolds(amount, units);
      HeadAbsorbsMany(units, Rem(amount, u), Quot(amount, u) - k);
    }
    hide Worth, FileCount, HeadFits, Quot, Rem;
  }

  lemma QuotLargest(amount: nat, u: nat, k: nat)
    requires u > 0 && Times(k, u) <= amount
    ensures k <= Quot(amount, u)
    ensures amount - Times(k, u) == Rem(amount, u) + Times(Quot(amount, u) - k, u)
  {
    QuotRem(amount, u);
    var q := Quot(amount, u);
    assert (k - q) * u == k * u - q * u;
    GapScales(k - q, u);
    assert k <= q;
    assert (q - k) * u == q * u - k * u;
  }

  // ---- The denominations the wallet offers ----

  const XPQ: nat := 1_000_000

  const DENOMINATIONS: set<nat> := {1, 2, 5, 10, 20, 50, 100, 500, 1000, 5000, 10000, 50000, 100000, 500000, 1000000}

  ghost predicate StrictlyDescending(values: seq<nat>) {
    forall i, j :: 0 <= i < j < |values| ==> values[i] > values[j]
  }

  ghost predicate Offered(values: seq<nat>) {
    StrictlyDescending(values) && forall i :: 0 <= i < |values| ==> values[i] in DENOMINATIONS
  }

  function Units(values: seq<nat>): seq<nat> {
    seq(|values|, i requires 0 <= i < |values| => Times(values[i], XPQ))
  }

  /** Fives with twos need ones, and fifties with twenties need tens or fives. */
  predicate Compatible(values: seq<nat>) {
    && (5 in values && 2 in values ==> 1 in values)
    && (50 in values && 20 in values ==> 10 in values || 5 in values)
  }

  lemma PairDivides(a: nat, b: nat)
    requires a in DENOMINATIONS && b in DENOMINATIONS && a > b
    requires !(a == 5 && b == 2) && !(a == 50 && b == 20)
    ensures a % b == 0
  {
  }

  lemma ScaledDivides(a: nat, b: nat)
    requires b > 0 && a % b == 0
    ensures Times(b, XPQ) > 0 && Times(a, XPQ) % Times(b, XPQ) == 0
  {
    var m := a / b;
    assert a == m * b;
    assert Times(a, XPQ) == m * Times(b, XPQ);
    SplitAt(Times(a, XPQ), Times(b, XPQ), m, 0);
  }

  lemma OfferedPositive(values: seq<nat>)
    requires Offered(values)
    ensures AllPositive(Units(values))
  {
  }

  /** Below a given entry of a descending list, the largest smaller member comes next. */
  lemma NextIsAtLeast(values: seq<nat>, i: nat, v: nat)
    requires StrictlyDescending(values) && i < |values| && v in values && v < values[i]
    ensures i + 1 < |values| && values[i + 1] >= v
  {
    var k :| 0 <= k < |values| && values[k] == v;
  }

  lemma CompatibleFits(values: seq<nat>, i: nat)
    requires Offered(values) && Compatible(values) && i < |values|
    ensures HeadFits(Units(values)[i..])
  {
    var us := Units(values)[i..];
    if i + 1 < |values| {
      var a, b := values[i], values[i + 1];
      assert us[0] == Times(a, XPQ) && us[1] == Times(b, XPQ);
      if a == 5 && b == 2 {
        NextIsAtLeast(values, i + 1, 1);
        assert us[2] == Times(values[i + 2], XPQ);
      } else if a == 50 && b == 20 {
        if 10 in values { NextIsAtLeast(values, i + 1, 10); } else { NextIsAtLeast(values, i + 1, 5); }
        assert values[i + 2] == 10 || values[i + 2] == 5;
        assert us[2] == Times(values[i + 2], XPQ);
      } else {
        PairDivides(a, b);
        ScaledDivides(a, b);
      }
    }
  }

  lemma {:induction false} CompatibleIsCanonical(values: seq<nat>, i: nat)
    requires Offered(values) && Compatible(values) && i <= |values|
    ensures Canonical(Units(values)[i..])
    decreases |values| - i
  {
    hide HeadFits, Offered, Compatible;
    if i < |values| {
      CompatibleFits(values, i);
      CompatibleIsCanonical(values, i + 1);
      assert Units(values)[i..][1..] == Units(values)[i + 1..];
    }
  }

  /** With compatible denominations the greedy plan is best possible for every amount. */
  lemma CompatibleIsBest(values: seq<nat>, amount: nat, ks: seq<nat>)
    requires Offered(values) && Compatible(values) && |ks| == |values|
    requires Value(ks, Units(values)) <= amount
    ensures AllPositive(Units(values)) && NoBetter(amount, Units(values), ks)
  {
    hide Canonical, NoBetter, Value, Compatible;
    OfferedPositive(values);
    CompatibleIsCanonical(values, 0);
    assert Units(values)[0..] == Units(values);
    CanonicalIsBest(amount, Units(values), ks);
  }

  // ---- Where greedy planning falls short ----

  /** `k` files of the `i`-th unit and nothing else. */
  function OnlyAt(n: nat, i: nat, k: nat): seq<nat> {
    seq(n, j => if j == i then k else 0)
  }

  lemma {:induction false} OnlyAtValue(units: seq<nat>, i: nat, k: nat)
    requires i < |units|
    ensures Value(OnlyAt(|units|, i, k), units) == Times(k, units[i])
    ensures Files(OnlyAt(|units|, i, k)) == k
    decreases |units|
  {
    var ks := OnlyAt(|units|, i, k);
    if i == 0 {
      NothingElse(ks[1..], units[1..]);
    } else {
      assert ks[1..] == OnlyAt(|units| - 1, i - 1, k);
      OnlyAtValue(units[1..], i - 1, k);
    }
  }

  lemma {:induction false} NothingElse(ks: seq<nat>, units: seq<nat>)
    requires |ks| == |units| && forall i :: 0 <= i < |ks| ==> ks[i] == 0
    ensures Value(ks, units) == 0 && Files(ks) == 0
    decreases |ks|
  {
    if ks != [] { NothingElse(ks[1..], units[1..]); }
  }

  /** Units above the amount are passed over. */
  lemma {:induction false} GreedySkips(amount: nat, units: seq<nat>, i: nat)
    requires AllPositive(units) && i <= |units|
    requires forall j :: 0 <= j < i ==> units[j] > amount
    ensures Worth(amount, units) == Worth(amount, units[i..])
    ensures FileCount(amount, units) == FileCount(amount, units[i..])
    decreases i
  {
    hide Worth, FileCount, Quot, Rem;
    if i == 0 {
      assert units[0..] == units;
    } else {
      GreedyUnfolds(amount, units);
      SplitAt(amount, units[0], 0, amount);
      GreedySkips(amount, units[1..], i - 1);
      assert units[1..][i - 1..] == units[i..];
    }
  }

  lemma {:induction false} FilesCarryAtMost(ks: seq<nat>, units: seq<nat>, most: nat)
    requires |ks| == |units| && forall i :: 0 <= i < |units| ==> units[i] <= most
    ensures Value(ks, units) <= Times(Files(ks), most)
    decreases |ks|
  {
    hide Times;
    if ks == [] {
      TimesAdds(0, 0, most);
    } else {
      FilesCarryAtMost(ks[1..], units[1..], most);
      TimesRises(ks[0], units[0], most);
      TimesAdds(ks[0], Files(ks[1..]), most);
    }
  }

  lemma TimesRises(k: nat, u: nat, most: nat)
    requires u <= most
    ensures Times(k, u) <= Times(k, most)
  {
  }

  lemma TimesAdds(a: nat, b: nat, u: nat)
    ensures Times(a + b, u) == Times(a, u) + Times(b, u)
  {
  }

  /** Entries of an offered list before a given one exceed it, those after it fall below. */
  lemma PlaceOf(values: seq<nat>, v: nat) returns (i: nat)
    requires Offered(values) && v in values
    ensures i < |values| && values[i] == v
    ensures forall j :: 0 <= j < i ==> values[j] > v
    ensures forall j :: i < j < |values| ==> values[j] < v
  {
    i :| 0 <= i < |values| && values[i] == v;
  }

  /** Fives and twos without ones: six is planned as five, though three twos make six. */
  lemma SixFails(values: seq<nat>) returns (ks: seq<nat>)
    requires Offered(values) && 5 in values && 2 in values && 1 !in values
    ensures |ks| == |values| && Value(ks, Units(values)) <= 6 * XPQ
    ensures AllPositive(Units(values)) && !NoBetter(6 * XPQ, Units(values), ks)
  {
    OfferedPositive(values);
    var us := Units(values);
    var i := PlaceOf(values, 5);
    NextIsAtLeast(values, i, 2);
    assert values[i + 1] == 2;
    NothingBelowTwo(values, i + 1);
    ks := OnlyAt(|us|, i + 1, 3);
    OnlyAtValue(us, i + 1, 3);
    GreedySkips(6 * XPQ, us, i);
    assert us[i..] == [5 * XPQ, 2 * XPQ];
    SixWorth();
  }

  lemma NothingBelowTwo(values: seq<nat>, i: nat)
    requires Offered(values) && 1 !in values && i < |values| && values[i] == 2
    ensures |values| == i + 1
  {
    if i + 1 < |values| {
      EntryAt(values, i + 1);
      assert false;
    }
  }

  lemma EntryAt(values: seq<nat>, j: nat)
    requires Offered(values) && j < |values|
    ensures values[j] in DENOMINATIONS && values[j] in values
    ensures forall i :: 0 <= i < j ==> values[j] < values[i]
  {
  }

  lemma SixWorth()
    ensures Worth(6 * XPQ, [5 * XPQ, 2 * XPQ]) == 5 * XPQ
  {
    hide Worth;
    var units := [5 * XPQ, 2 * XPQ];
    GreedyUnfolds(6 * XPQ, units);
    assert units[1..] == [2 * XPQ];
    assert Quot(6 * XPQ, 5 * XPQ) == 1 && Rem(6 * XPQ, 5 * XPQ) == XPQ;
    GreedyUnfolds(XPQ, [2 * XPQ]);
    assert Quot(XPQ, 2 * XPQ) == 0 && Rem(XPQ, 2 * XPQ) == XPQ;
    assert [2 * XPQ][1..] == [];
    NothingWorth(XPQ);
  }

  lemma NothingWorth(amount: nat)
    ensures Worth(amount, []) == 0 && FileCount(amount, []) == 0
  {
  }

  lemma SmallChange(values: seq<nat>, n: nat)
    requires Offered(values) && 10 !in values && 5 !in values
    requires 0 < n <= |values| && values[n - 1] == 20
    ensures AllPositive(Units(values)[n..]) && forall k :: 0 <= k < |values| - n ==> Units(values)[n..][k] <= 2 * XPQ
  {
    OfferedPositive(values);
    forall k | 0 <= k < |values| - n ensures Units(values)[n..][k] <= 2 * XPQ {
      var v := values[n + k];
      assert v < 20 && v in DENOMINATIONS && v in values;
      assert Units(values)[n..][k] == Times(v, XPQ);
    }
  }

  /** Fifties and twenties without tens and fives: sixty is planned as fifty and small change,
      though three twenties make sixty. */
  lemma SixtyFails(values: seq<nat>) returns (ks: seq<nat>)
    requires Offered(values) && 50 in values && 20 in values && 10 !in values && 5 !in values
    ensures |ks| == |values| && Value(ks, Units(values)) <= 60 * XPQ
    ensures AllPositive(Units(values)) && !NoBetter(60 * XPQ, Units(values), ks)
  {
    hide Worth, FileCount, Value;
    OfferedPositive(values);
    var us := Units(values);
    var i := PlaceOf(values, 50);
    NextIsAtLeast(values, i, 20);
    assert values[i + 1] == 20;
    var small := us[i + 2..];
    SmallChange(values, i + 2);
    ks := OnlyAt(|us|, i + 1, 3);
    OnlyAtValue(us, i + 1, 3);
    GreedySkips(60 * XPQ, us, i);
    assert us[i..] == [50 * XPQ, 20 * XPQ] + small;
    SixtyWorth(small);
    WorthAtMost(60 * XPQ, us);
  }

  lemma WorthAtMost(amount: nat, units: seq<nat>)
    requires AllPositive(units)
    ensures Worth(amount, units) <= amount
  {
    CountsMatchOutputs(amount, units);
    PlanBalances(amount, units);
  }

  lemma SixtyWorth(small: seq<nat>)
    requires AllPositive(small) && forall k :: 0 <= k < |small| ==> small[k] <= 2 * XPQ
    ensures
      var units := [50 * XPQ, 20 * XPQ] + small;
      && AllPositive(units)
      && (Worth(60 * XPQ, units) < 60 * XPQ || FileCount(60 * XPQ, units) > 3)
  {
    hide Worth, FileCount;
    var units := [50 * XPQ, 20 * XPQ] + small;
    GreedyUnfolds(60 * XPQ, units);
    assert units[1..] == [20 * XPQ] + small;
    GreedyUnfolds(10 * XPQ, units[1..]);
    assert units[1..][1..] == small;
    TenInSmall(small);
  }

  lemma TenInSmall(small: seq<nat>)
    requires AllPositive(small) && forall k :: 0 <= k < |small| ==> small[k] <= 2 * XPQ
    ensures Worth(10 * XPQ, small) <= Times(FileCount(10 * XPQ, small), 2 * XPQ)
  {
    FilesCarryAtMost(Counts(10 * XPQ, small), small, 2 * XPQ);
  }

  /** For the denominations on offer, greedy planning is best possible for every amount exactly
      when they are compatible. */
  lemma BestIffCompatible(values: seq<nat>)
    requires Offered(values)
    ensures AllPositive(Units(values))
    ensures Compatible(values) <==>
      forall amount: nat, ks: seq<nat> | |ks| == |values| && Value(ks, Units(values)) <= amount ::
        NoBetter(amount, Units(values), ks)
  {
    OfferedPositive(values);
    if Compatible(values) {
      forall amount: nat, ks: seq<nat> | |ks| == |values| && Value(ks, Units(values)) <= amount
        ensures NoBetter(amount, Units(values), ks)
      {
        CompatibleIsBest(values, amount, ks);
      }
    } else if 5 in values && 2 in values && 1 !in values {
      var ks := SixFails(values);
    } else {
      var ks := SixtyFails(values);
    }
  }

  // ---- Choosing denominations ----

  datatype ParseError = Unsupported | NoneSelected | TooManySelected

  function Denomination(text: string): Option<nat> {
    if text == "1" then Some(1)
    else if text == "2" then Some(2)
    else if text == "5" then Some(5)
    else if text == "10" then Some(10)
    else if text == "20" then Some(20)
    else if text == "50" then Some(50)
    else if text == "100" then Some(100)
    else if text == "500" then Some(500)
    else if text == "1000" then Some(1000)
    else if text == "5000" then Some(5000)
    else if text == "10000" then Some(10000)
    else if text == "50000" then Some(50000)
    else if text == "100000" then Some(100000)
    else if text == "500000" then Some(500000)
    else if text == "1000000" then Some(1000000)
    else None
  }

  /** The decimal numeral of a number. */
  function Numeral(v: nat): string {
    var digit := ['0', '1', '2', '3', '4', '5', '6', '7', '8', '9'][v % 10];
    if v < 10 then [digit] else Numeral(v / 10) + [digit]
  }

  /** An item names a denomination exactly when it is the decimal numeral of one on offer. */
  lemma ReadsNumerals(text: string, v: nat)
    ensures Denomination(text) == Some(v) <==> v in DENOMINATIONS && text == Numeral(v)
  {
    hide Numeral, Denomination;
    if Denomination(text) == Some(v) { NamedIsNumeral(text, v); }
    if v in DENOMINATIONS { NumeralIsNamed(v); }
  }

  lemma NamedIsNumeral(text: string, v: nat)
    requires Denomination(text) == Some(v)
    ensures v in DENOMINATIONS && text == Numeral(v)
  {
    hide Numeral;
    NumeralsOfOne();
    NumeralsOfTwo();
    NumeralsOfFive();
  }

  lemma NumeralIsNamed(v: nat)
    requires v in DENOMINATIONS
    ensures Denomination(Numeral(v)) == Some(v)
  {
    hide Numeral, Denomination;
    NumeralsOfOne();
    NumeralsOfTwo();
    NumeralsOfFive();
    NamesOfOne();
    NamesOfRest();
  }

  lemma NamesOfOne()
    ensures Denomination("1") == Some(1) && Denomination("10") == Some(10) && Denomination("100") == Some(100)
    ensures Denomination("1000") == Some(1000) && Denomination("10000") == Some(10000)
    ensures Denomination("100000") == Some(100000) && Denomination("1000000") == Some(1000000)
  {
  }

  lemma NamesOfRest()
    ensures Denomination("2") == Some(2) && Denomination("20") == Some(20)
    ensures Denomination("5") == Some(5) && Denomination("50") == Some(50) && Denomination("500") == Some(500)
    ensures Denomination("5000") == Some(5000) && Denomination("50000") == Some(50000)
    ensures Denomination("500000") == Some(500000)
  {
  }

  lemma NumeralsOfOne()
    ensures Numeral(1) == "1" && Numeral(10) == "10" && Numeral(100) == "100" && Numeral(1000) == "1000"
    ensures Numeral(10000) == "10000" && Numeral(100000) == "100000" && Numeral(1000000) == "1000000"
  {
    assert Numeral(1) == "1";
    hide Numeral;
    TimesTen(1, "1");
    TimesTen(10, "10");
    TimesTen(100, "100");
    TimesTen(1000, "1000");
    TimesTen(10000, "10000");
    TimesTen(100000, "100000");
  }

  lemma NumeralsOfTwo()
    ensures Numeral(2) == "2" && Numeral(20) == "20"
  {
    assert Numeral(2) == "2";
    hide Numeral;
    TimesTen(2, "2");
  }

  lemma NumeralsOfFive()
    ensures Numeral(5) == "5" && Numeral(50) == "50" && Numeral(500) == "500" && Numeral(5000) == "5000"
    ensures Numeral(50000) == "50000" && Numeral(500000) == "500000"
  {
    assert Numeral(5) == "5";
    hide Numeral;
    TimesTen(5, "5");
    TimesTen(50, "50");
    TimesTen(500, "500");
    TimesTen(5000, "5000");
    TimesTen(50000, "50000");
  }

  lemma TimesTen(v: nat, text: string)
    requires v > 0 && Numeral(v) == text
    ensures Numeral(10 * v) == text + "0"
  {
    assert (10 * v) % 10 == 0 && (10 * v) / 10 == v;
  }

  /** Maps the trimmed, non-empty list items to denominations, sorts them largest first and drops
      repetitions: the result is an offered list naming exactly the items' denominations. */
  method ParseDenominations(items: seq<string>, maxOutputs: nat) returns (result: Result<seq<nat>, ParseError>)
    ensures result == Err(Unsupported) <==> exists i :: 0 <= i < |items| && Denomination(items[i]).None?
    ensures result == Err(NoneSelected) <==> items == []
    ensures result == Err(TooManySelected) <==>
      |items| > maxOutputs && items != [] && forall i :: 0 <= i < |items| ==> Denomination(items[i]).Some?
    ensures result.Ok? ==>
      && |items| <= maxOutputs && result.value != [] && Offered(result.value)
      && forall v :: v in result.value <==> exists i :: 0 <= i < |items| && Denomination(items[i]) == Some(v)
  {
    var values: seq<nat> := [];
    var i := 0;
    while i < |items|
      invariant 0 <= i <= |items| && |values| == i
      invariant forall k :: 0 <= k < i ==> Denomination(items[k]) == Some(values[k]) && values[k] in DENOMINATIONS
    {
      var d := Denomination(items[i]);
      if d.None? {
        return Err(Unsupported);
      }
      values := values + [d.value];
      i := i + 1;
    }
    if values == [] {
      return Err(NoneSelected);
    }
    if |values| > maxOutputs {
      return Err(TooManySelected);
    }
    var sorted := SortDescending(values);
    var unique := Dedup(sorted);
    assert values[0] in values && forall v :: v in unique <==> v in values;
    assert forall k :: 0 <= k < |unique| ==> unique[k] in values;
    result := Ok(unique);
  }

  ghost predicate Descending(values: seq<nat>) {
    forall i, j :: 0 <= i < j < |values| ==> values[i] >= values[j]
  }

  function LargestFirst(v: nat): O.Key {
    O.Key(0 - v, 0, 0)
  }

  /** A descending rearrangement. */
  method SortDescending(values: seq<nat>) returns (sorted: seq<nat>)
    ensures Descending(sorted) && multiset(sorted) == multiset(values)
    ensures forall v :: v in sorted <==> v in values
  {
    sorted := O.SortBy(values, LargestFirst);
    O.SortKeeps(values, LargestFirst);
    assert forall a: nat, b: nat :: O.Less(LargestFirst(a), LargestFirst(b)) <==> a > b;
    forall v ensures v in sorted <==> v in values {
      assert v in multiset(sorted) <==> v in multiset(values);
    }
  }

  method Dedup(values: seq<nat>) returns (unique: seq<nat>)
    requires Descending(values)
    ensures StrictlyDescending(unique)
    ensures forall v :: v in unique <==> v in values
  {
    unique := [];
    var i := 0;
    while i < |values|
      invariant 0 <= i <= |values|
      invariant StrictlyDescending(unique)
      invariant forall v :: v in unique <==> v in values[..i]
      invariant i > 0 ==> unique != [] && unique[|unique| - 1] == values[i - 1]
      invariant i == 0 ==> unique == []
    {
      assert values[..i + 1] == values[..i] + [values[i]];
      if unique == [] || unique[|unique| - 1] != values[i] {
        assert unique != [] ==> unique[|unique| - 1] > values[i];
        unique := unique + [values[i]];
      }
      i := i + 1;
    }
    assert values[..i] == values;
  }
}
