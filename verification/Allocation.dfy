/** Splitting a wNEAR balance over positions to open and over purchases still to make. */
module Allocation {
  import opened Numeric

  function Total(s: seq<nat>): nat {
    if s == [] then 0 else Total(s[..|s| - 1]) + s[|s| - 1]
  }

  ghost function Amounts(result: seq<(nat, nat)>): seq<nat> {
    seq(|result|, i requires 0 <= i < |result| => result[i].1)
  }

  lemma TotalExtend(s: seq<nat>, x: nat)
    ensures Total(s + [x]) == Total(s) + x
  {
    assert (s + [x])[..|s|] == s;
  }

  lemma {:induction false} ItemAtMostTotal(s: seq<nat>, i: nat)
    requires i < |s|
    ensures s[i] <= Total(s)
  {
    if i < |s| - 1 {
      ItemAtMostTotal(s[..|s| - 1], i);
    }
  }

  // ---------------------------------------------------------------------------
  // Opening positions by weight.

  const BPS: nat := 10_000

  /** Conversion of a real to u128, truncated; 0 when it does not fit. */
  function TruncU128(x: real): (r: nat) {
    if x < 0.0 || x.Floor > U128_MAX then 0 else x.Floor
  }

  function TotalWeight(weights: seq<real>): real {
    if weights == [] then 0.0 else TotalWeight(weights[..|weights| - 1]) + weights[|weights| - 1]
  }

  function WeightBps(w: real, total: real): (bps: nat) {
    if total == 0.0 then 0 else TruncU128(w / total * BPS as real)
  }

  /** Whole part and rest separately: the product never exceeds the balance by much. */
  function SplitShare(balance: nat, w: nat, total: nat): (r: nat)
    requires 0 < total
  {
    balance / total * w + balance % total * w / total
  }

  lemma SplitQuotient(balance: nat, q: nat, r: nat, w: nat, total: nat, p: nat)
    requires 0 < total && balance == q * total + r && p * total <= r * w < (p + 1) * total
    ensures balance * w / total == q * w + p
  {
    Distribute(q * total, r, w);
    SwapFactors(q, total, w);
    Distribute(q * w, p, total);
    Distribute(q * w, p + 1, total);
    DivUnique(balance * w, total, q * w + p);
  }

  /** The split form is the plain floor of balance times weight over total. */
  lemma SplitShareIsFloor(balance: nat, w: nat, total: nat)
    requires 0 < total
    ensures SplitShare(balance, w, total) == balance * w / total
  {
    var q, r := balance / total, balance % total;
    var n := r * w;
    var p := n / total;
    QuotientBounds(balance, total);
    QuotientBounds(n, total);
    SplitQuotient(balance, q, r, w, total, p);
  }

  /** No intermediate of the split form leaves u128 while the total is at most BPS. */
  lemma SplitShareFits(balance: nat, w: nat, total: nat)
    requires balance <= U128_MAX && w <= total && 0 < total <= BPS
    ensures balance / total * w <= U128_MAX
    ensures balance % total * w <= BPS * BPS
    ensures SplitShare(balance, w, total) <= balance
  {
    var q, r := balance / total, balance % total;
    QuotientBounds(balance, total);
    WholePartFits(balance, q, r, w, total);
    RestFits(r, w, BPS);
  }

  lemma WholePartFits(balance: nat, q: nat, r: nat, w: nat, total: nat)
    requires balance == q * total + r && w <= total && 0 < total
    ensures q * w <= balance && q * w + r * w / total <= balance
  {
    MulMonotone(w, total, q);
    MulMonotone(w, total, r);
    DivMonotone(r * w, r * total, total);
    DivUnique(r * total, total, r);
  }

  lemma RestFits(r: nat, w: nat, limit: nat)
    requires r <= limit && w <= limit
    ensures r * w <= limit * limit
  {
    MulMonotone(r, limit, w);
    MulMonotone(w, limit, limit);
  }

  function FloorShare(balance: nat, w: nat, total: nat): (s: nat)
    requires 0 < total
  {
    balance * w / total
  }

  lemma FloorShareBounds(balance: nat, w: nat, total: nat)
    requires 0 < total
    ensures var s := FloorShare(balance, w, total);
            total * s <= balance * w < total * (s + 1)
  {
    QuotientBounds(balance * w, total);
  }

  /** n shares that come to a, of weights that come to p out of total, miss at most one unit each. */
  ghost predicate Tracks(balance: nat, p: nat, total: nat, a: nat, n: nat) {
    total * a <= balance * p <= total * (a + n)
  }

  lemma TrackStep(balance: nat, total: nat, p: nat, a: nat, n: nat, w: nat, s: nat)
    requires Tracks(balance, p, total, a, n)
    requires total * s <= balance * w < total * (s + 1)
    ensures Tracks(balance, p + w, total, a + s, n + 1)
    ensures balance * (p + w) < total * (a + s + (n + 1))
  {
    Distribute(a, s, total);
    Distribute(p, w, balance);
    Distribute(a + n, s + 1, total);
  }

  /** Rounding down loses less than one unit per share. */
  lemma {:induction false} SharesTrackWeights(balance: nat, bps: seq<nat>, total: nat, shares: seq<nat>)
    requires 0 < total && |shares| == |bps|
    requires forall i :: 0 <= i < |bps| ==> shares[i] == FloorShare(balance, bps[i], total)
    ensures Tracks(balance, Total(bps), total, Total(shares), |bps|)
    ensures bps != [] ==> balance * Total(bps) < total * (Total(shares) + |bps|)
    decreases |bps|
  {
    if bps != [] {
      var n := |bps| - 1;
      SharesTrackWeights(balance, bps[..n], total, shares[..n]);
      FloorShareBounds(balance, bps[n], total);
      TrackStep(balance, total, Total(bps[..n]), Total(shares[..n]), n, bps[n], shares[n]);
    }
  }

  lemma AddQuotients(a: real, w: real, total: real, scale: real)
    requires total > 0.0
    ensures (a + w) / total * scale == a / total * scale + w / total * scale
  {
    var x, y := a / total, w / total;
    assert (a + w) / total == x + y;
    assert (x + y) * scale == x * scale + y * scale;
  }

  lemma WeightBpsAtMost(w: real, total: real)
    requires w >= 0.0 && total > 0.0
    ensures WeightBps(w, total) as real <= w / total * BPS as real
  {
    assert w / total >= 0.0;
  }

  /** a is q rounded down, without the quotient. */
  ghost predicate IsFloor(a: nat, part: real, whole: real) {
    a as real * whole <= part < (a + 1) as real * whole
  }

  lemma FloorOfQuotient(a: nat, q: real, part: real, whole: real)
    requires whole > 0.0 && part == q * whole && a as real <= q < (a + 1) as real
    ensures IsFloor(a, part, whole)
  {
    assert (q - a as real) * whole >= 0.0;
    assert ((a + 1) as real - q) * whole > 0.0;
  }

  lemma PartAtMostWhole(w: real, total: real, scale: real)
    requires 0.0 <= w <= total && total > 0.0 && scale >= 0.0
    ensures 0.0 <= w / total * scale <= scale
    ensures w / total * scale * total == w * scale
  {
    var q := w / total;
    assert q * total == w;
    assert 0.0 <= q <= 1.0;
    assert (1.0 - q) * scale >= 0.0;
    assert q * scale * total == q * total * scale;
  }

  /** The basis points of a weight are its part of the total in ten-thousandths, rounded down. */
  lemma WeightBpsBounds(w: real, total: real)
    requires 0.0 <= w <= total && total > 0.0
    ensures IsFloor(WeightBps(w, total), 10_000.0 * w, total)
  {
    var q := w / total * BPS as real;
    PartAtMostWhole(w, total, BPS as real);
    FloorOfQuotient(WeightBps(w, total), q, 10_000.0 * w, total);
  }

  lemma {:induction false} ItemAtMostWeight(weights: seq<real>, i: nat)
    requires i < |weights| && forall j :: 0 <= j < |weights| ==> weights[j] >= 0.0
    ensures 0.0 <= weights[i] <= TotalWeight(weights)
  {
    var n := |weights| - 1;
    NonNegativeTotal(weights[..n]);
    if i < n {
      ItemAtMostWeight(weights[..n], i);
    }
  }

  /** part is less than a times the total, or nothing of nothing. */
  ghost predicate Below(part: real, a: nat, total: real) {
    part < a as real * total || (part == 0.0 && a == 0)
  }

  lemma AddFloor(part: real, a: nat, w: real, b: nat, total: real)
    requires Below(part, a, total) && IsFloor(b, w, total)
    ensures Below(part + w, a + (b + 1), total)
  {
    assert (a + (b + 1)) as real * total == a as real * total + (b + 1) as real * total;
  }

  /** Floors of the values over one total. */
  ghost predicate AreFloors(parts: seq<nat>, values: seq<real>, total: real) {
    |parts| == |values| && forall i :: 0 <= i < |values| ==> IsFloor(parts[i], values[i], total)
  }

  /** Rounding down loses less than one unit per value. */
  lemma {:induction false} FloorsReach(parts: seq<nat>, values: seq<real>, total: real)
    requires AreFloors(parts, values, total)
    ensures Below(TotalWeight(values), Total(parts) + |parts|, total)
    decreases |values|
  {
    if values != [] {
      var n := |values| - 1;
      FloorsReach(parts[..n], values[..n], total);
      AddFloor(TotalWeight(values[..n]), Total(parts[..n]) + n, values[n], parts[n], total);
    }
  }

  ghost function Times(scale: real, values: seq<real>): (r: seq<real>)
    ensures |r| == |values|
  {
    seq(|values|, i requires 0 <= i < |values| => scale * values[i])
  }

  lemma {:induction false} TotalTimes(scale: real, values: seq<real>)
    ensures TotalWeight(Times(scale, values)) == scale * TotalWeight(values)
    decreases |values|
  {
    if values != [] {
      var n := |values| - 1;
      TotalTimes(scale, values[..n]);
      TimesPrefix(scale, values, n);
      AddProducts(scale, TotalWeight(values[..n]), values[n]);
    }
  }

  lemma TimesPrefix(scale: real, values: seq<real>, n: nat)
    requires n <= |values|
    ensures Times(scale, values)[..n] == Times(scale, values[..n])
  {
    forall i | 0 <= i < n ensures Times(scale, values)[..n][i] == Times(scale, values[..n])[i] {
      assert values[..n][i] == values[i];
    }
  }

  lemma AddProducts(a: real, b: real, c: real)
    ensures a * (b + c) == a * b + a * c
  {
  }

  /** Weights that are not negative come to at most BPS in all. */
  lemma {:induction false} BpsAtMost(weights: seq<real>, total: real, bps: seq<nat>)
    requires total > 0.0 && |bps| == |weights|
    requires forall i :: 0 <= i < |weights| ==> weights[i] >= 0.0 && bps[i] == WeightBps(weights[i], total)
    ensures Total(bps) as real <= TotalWeight(weights) / total * BPS as real
    decreases |weights|
  {
    if weights != [] {
      var n := |weights| - 1;
      BpsAtMost(weights[..n], total, bps[..n]);
      WeightBpsAtMost(weights[n], total);
      AddQuotients(TotalWeight(weights[..n]), weights[n], total, BPS as real);
    }
  }

  function AllBps(weights: seq<real>): (bps: seq<nat>)
    ensures |bps| == |weights|
  {
    var total := TotalWeight(weights);
    seq(|weights|, i requires 0 <= i < |weights| => WeightBps(weights[i], total))
  }

  /** What each position but the last gets, and what its exact share of the balance would be. */
  function Share(balance: nat, bps: seq<nat>, i: nat): (r: nat)
    requires i < |bps|
  {
    var total := Total(bps);
    if total > 0 then balance * bps[i] / total else 0
  }

  function Shares(balance: nat, bps: seq<nat>, n: nat): (r: seq<nat>)
    requires n <= |bps|
    ensures |r| == n && forall i :: 0 <= i < n ==> r[i] == Share(balance, bps, i)
  {
    seq(n, i requires 0 <= i < n => Share(balance, bps, i))
  }

  lemma {:induction false} PrefixAtMostTotal(s: seq<nat>, n: nat)
    requires n <= |s|
    ensures Total(s[..n]) <= Total(s)
    decreases |s|
  {
    if n < |s| {
      PrefixAtMostTotal(s[..|s| - 1], n);
      assert s[..|s| - 1][..n] == s[..n];
    } else {
      assert s[..n] == s;
    }
  }

  /** The first n shares never exceed the balance. */
  lemma SharesAtMostBalance(balance: nat, bps: seq<nat>, n: nat)
    requires n <= |bps|
    ensures Total(Shares(balance, bps, n)) <= balance
  {
    var total, shares := Total(bps), Shares(balance, bps, n);
    if total > 0 {
      SharesTrackWeights(balance, bps[..n], total, shares);
      PrefixAtMostTotal(bps, n);
      MulMonotone(Total(bps[..n]), total, balance);
      NoLargerFactor(Total(shares), balance, total);
    } else {
      AllZero(shares);
    }
  }

  lemma {:induction false} AllZero(s: seq<nat>)
    requires forall i :: 0 <= i < |s| ==> s[i] == 0
    ensures Total(s) == 0
  {
    if s != [] {
      AllZero(s[..|s| - 1]);
    }
  }

  /** All shares together miss less than one unit each, so the remainder is close to the last share. */
  lemma LastTakesRemainder(balance: nat, bps: seq<nat>)
    requires Total(bps) > 0
    ensures bps != []
    ensures var n := |bps| - 1;
            var last := balance - Total(Shares(balance, bps, n));
            Share(balance, bps, n) <= last < Share(balance, bps, n) + |bps|
  {
    var n, total := |bps| - 1, Total(bps);
    var shares := Shares(balance, bps, |bps|);
    SharesTrackWeights(balance, bps, total, shares);
    SharesAtMostBalance(balance, bps, |bps|);
    SmallerFactor(balance, Total(shares) + |bps|, total);
    assert shares[..n] == Shares(balance, bps, n);
  }

  /** The allocation loop: floor shares, and everything that is left for the last one. */
  method AllocateShares(balance: nat, bps: seq<nat>) returns (amounts: seq<nat>)
    requires bps != []
    ensures |amounts| == |bps| && Total(amounts) == balance
    ensures forall i :: 0 <= i < |bps| - 1 ==> amounts[i] == Share(balance, bps, i)
    ensures Total(bps) > 0 ==>
              var last := |bps| - 1;
              Share(balance, bps, last) <= amounts[last] < Share(balance, bps, last) + |bps|
  {
    var n, total := |bps|, Total(bps);
    var allocatedSum := 0;
    amounts := [];
    for i := 0 to n - 1
      invariant amounts == Shares(balance, bps, i) && allocatedSum == Total(amounts)
    {
      var amount := 0;
      if total > 0 {
        amount := SplitShare(balance, bps[i], total);
        SplitShareIsFloor(balance, bps[i], total);
      }
      TotalExtend(amounts, amount);
      allocatedSum := allocatedSum + amount;
      amounts := amounts + [amount];
    }
    SharesAtMostBalance(balance, bps, n - 1);
    var rest := SaturatingSub(balance, allocatedSum);
    TotalExtend(amounts, rest);
    amounts := amounts + [rest];
    if total > 0 {
      LastTakesRemainder(balance, bps);
    }
  }

  /** An amount is at least its weight's share of the balance, short of a basis point of it and one unit. */
  ghost predicate AtLeastShare(amount: nat, balance: nat, w: real, total: real) {
    balance as real * (10_000.0 * w - total) < (amount + 1) as real * 10_000.0 * total
  }

  /** Apart from `extra` units, an amount is at most its share, with n basis points missing from the whole. */
  ghost predicate AtMostShare(amount: nat, extra: nat, balance: nat, w: real, total: real, n: nat) {
    (amount - extra) as real * (10_000 - n) as real * total <= balance as real * 10_000.0 * w
  }

  lemma ScaleInequality(a: int, b: int, total: real)
    requires a <= b && total > 0.0
    ensures a as real * total <= b as real * total
  {
  }

  lemma FewerParts(amount: int, t: nat, u: int, product: nat)
    requires amount * t <= product && u <= t && (amount >= 0 || u >= 0)
    ensures amount * u <= product
  {
    if amount >= 0 {
      assert amount * (t - u) >= 0;
      assert amount * t == amount * u + amount * (t - u);
    } else {
      assert amount * u <= 0;
    }
  }

  lemma FloorTimes(balance: nat, b: nat, part: real, total: real)
    requires IsFloor(b, part, total)
    ensures (balance * b) as real * total <= balance as real * part
  {
    var x, y := balance as real, b as real * total;
    assert x * (part - y) >= 0.0;
    assert x * part == x * y + x * (part - y);
    assert (balance * b) as real == x * b as real;
  }

  /** From basis points b of t to the weight w of the total behind them. */
  lemma ShareAtMost(balance: nat, b: nat, t: nat, amount: int, w: real, total: real, u: int)
    requires total > 0.0 && IsFloor(b, 10_000.0 * w, total) && u <= t
    requires amount * t <= balance * b && (amount >= 0 || u >= 0)
    ensures amount as real * u as real * total <= balance as real * 10_000.0 * w
  {
    FewerParts(amount, t, u, balance * b);
    FloorTimes(balance, b, 10_000.0 * w, total);
    ScaleInequality(amount * u, balance * b, total);
    assert (amount * u) as real == amount as real * u as real;
  }

  lemma ShareAtLeast(balance: nat, b: nat, t: nat, amount: nat, w: real, total: real)
    requires total > 0.0 && IsFloor(b, 10_000.0 * w, total) && t <= 10_000
    requires balance * b < (amount + 1) * t
    ensures AtLeastShare(amount, balance, w, total)
  {
    MulMonotone(t, 10_000, amount + 1);
    assert balance * b + 1 <= (amount + 1) * 10_000;
    ScaleInequality(balance * b + 1, (amount + 1) * 10_000, total);
    assert (balance * b + 1) as real * total == balance as real * (b as real * total) + total;
    assert balance as real * (10_000.0 * w - total) <= balance as real * (b as real * total) by {
      assert balance as real * ((b + 1) as real * total - 10_000.0 * w) >= 0.0;
    }
    assert ((amount + 1) * 10_000) as real == (amount + 1) as real * 10_000.0;
  }

  lemma AllBpsFloors(weights: seq<real>)
    requires forall i :: 0 <= i < |weights| ==> weights[i] >= 0.0
    requires TotalWeight(weights) > 0.0
    ensures AreFloors(AllBps(weights), Times(10_000.0, weights), TotalWeight(weights))
  {
    forall i | 0 <= i < |weights| ensures IsFloor(AllBps(weights)[i], 10_000.0 * weights[i], TotalWeight(weights)) {
      ItemAtMostWeight(weights, i);
      WeightBpsBounds(weights[i], TotalWeight(weights));
    }
  }

  lemma AllBpsAtMost(weights: seq<real>)
    requires forall i :: 0 <= i < |weights| ==> weights[i] >= 0.0
    requires TotalWeight(weights) > 0.0
    ensures Total(AllBps(weights)) <= 10_000
  {
    BpsAtMost(weights, TotalWeight(weights), AllBps(weights));
    WholeIsAll(Total(AllBps(weights)), TotalWeight(weights));
  }

  lemma WholeIsAll(t: nat, total: real)
    requires total > 0.0 && t as real <= total / total * BPS as real
    ensures t <= 10_000
  {
    assert total / total == 1.0;
  }

  /** Together the basis points come to 10000, less at most one per weight. */
  lemma AllBpsAtLeast(weights: seq<real>)
    requires forall i :: 0 <= i < |weights| ==> weights[i] >= 0.0
    requires TotalWeight(weights) > 0.0
    ensures 10_000 - |weights| < Total(AllBps(weights))
  {
    AllBpsFloors(weights);
    FloorsReach(AllBps(weights), Times(10_000.0, weights), TotalWeight(weights));
    TotalTimes(10_000.0, weights);
    CompareFactor(10_000, Total(AllBps(weights)) + |weights|, 10_000.0 * TotalWeight(weights), TotalWeight(weights));
  }

  lemma CompareFactor(a: nat, b: nat, part: real, total: real)
    requires total > 0.0 && a > 0 && part == a as real * total && Below(part, b, total)
    ensures a < b
  {
    if b <= a {
      ScaleInequality(b, a, total);
    }
  }

  lemma ShareNearFromBelow(balance: nat, b: nat, t: nat, amount: nat, w: real, total: real)
    requires total > 0.0 && IsFloor(b, 10_000.0 * w, total) && 0 < t <= 10_000
    requires FloorShare(balance, b, t) <= amount
    ensures AtLeastShare(amount, balance, w, total)
  {
    var s := FloorShare(balance, b, t);
    FloorShareBounds(balance, b, t);
    ShareAtLeast(balance, b, t, s, w, total);
    RaiseAtLeast(s, amount, balance, w, total);
  }

  /** An amount that exceeds its floor share of the basis points by at most `extra` is close to its weight's share. */
  lemma ShareNearFromAbove(balance: nat, b: nat, t: nat, amount: nat, extra: nat, w: real, total: real, n: nat)
    requires total > 0.0 && IsFloor(b, 10_000.0 * w, total) && 10_000 - n < t && t > 0
    requires FloorShare(balance, b, t) <= amount <= FloorShare(balance, b, t) + extra
    requires extra == 0 || n <= 10_000
    ensures AtMostShare(amount, extra, balance, w, total, n)
  {
    var s := FloorShare(balance, b, t);
    FloorShareBounds(balance, b, t);
    FewerUnits(amount - extra, s, t);
    ShareAtMost(balance, b, t, amount - extra, w, total, 10_000 - n);
  }

  lemma FewerUnits(a: int, s: nat, t: nat)
    requires a <= s
    ensures a * t <= t * s
  {
    assert t * (s - a) >= 0;
  }

  lemma SharesNearWeights(weights: seq<real>, balance: nat, i: nat, amount: nat, extra: nat)
    requires i < |weights| && forall j :: 0 <= j < |weights| ==> weights[j] >= 0.0
    requires TotalWeight(weights) > 0.0
    requires var s := Share(balance, AllBps(weights), i);
             if Total(AllBps(weights)) > 0 then s <= amount <= s + extra else extra == 0 ==> amount == s
    ensures AtLeastShare(amount, balance, weights[i], TotalWeight(weights))
    ensures extra == 0 || |weights| <= 10_000 ==>
              AtMostShare(amount, extra, balance, weights[i], TotalWeight(weights), |weights|)
  {
    var bps, total := AllBps(weights), TotalWeight(weights);
    var t := Total(bps);
    AllBpsFloors(weights);
    assert IsFloor(bps[i], Times(10_000.0, weights)[i], total);
    AllBpsAtLeast(weights);
    if t > 0 {
      AllBpsAtMost(weights);
      ShareNearFromBelow(balance, bps[i], t, amount, weights[i], total);
      if extra == 0 || |weights| <= 10_000 {
        ShareNearFromAbove(balance, bps[i], t, amount, extra, weights[i], total, |weights|);
      }
    } else {
      ItemAtMostTotal(bps, i);
      RestAtLeast(amount, balance, weights[i], total);
      NothingAtMost(balance, weights[i], total, |weights|);
    }
  }

  lemma NothingAtMost(balance: nat, w: real, total: real, n: nat)
    requires w >= 0.0
    ensures AtMostShare(0, 0, balance, w, total, n)
  {
    assert balance as real * 10_000.0 * w >= 0.0;
  }

  lemma RaiseAtLeast(s: nat, amount: nat, balance: nat, w: real, total: real)
    requires total > 0.0 && s <= amount && AtLeastShare(s, balance, w, total)
    ensures AtLeastShare(amount, balance, w, total)
  {
    ScaleInequality((s + 1) * 10_000, (amount + 1) * 10_000, total);
  }

  lemma RestAtLeast(amount: nat, balance: nat, w: real, total: real)
    requires total > 0.0 && IsFloor(0, 10_000.0 * w, total)
    ensures AtLeastShare(amount, balance, w, total)
  {
    assert balance as real * (10_000.0 * w - total) <= 0.0;
    assert (amount + 1) as real * 10_000.0 * total > 0.0;
  }

  /** What allocating by the weights gives each position. */
  ghost predicate NearWeights(weights: seq<real>, balance: nat, amounts: seq<nat>)
    requires |amounts| == |weights|
  {
    var total, n := TotalWeight(weights), |weights|;
    if total == 0.0 then forall i :: 0 <= i < n - 1 ==> amounts[i] == 0
    else
      && (forall i :: 0 <= i < n ==> AtLeastShare(amounts[i], balance, weights[i], total))
      && (forall i :: 0 <= i < n - 1 ==> AtMostShare(amounts[i], 0, balance, weights[i], total, n))
      && (0 < n <= 10_000 ==> AtMostShare(amounts[n - 1], n, balance, weights[n - 1], total, n))
  }

  lemma WeightlessAmounts(weights: seq<real>, balance: nat, amounts: seq<nat>)
    requires |amounts| == |weights| && TotalWeight(weights) == 0.0
    requires forall i :: 0 <= i < |weights| - 1 ==> amounts[i] == Share(balance, AllBps(weights), i)
    ensures NearWeights(weights, balance, amounts)
  {
    AllZero(AllBps(weights));
  }

  lemma AmountsNearWeights(weights: seq<real>, balance: nat, amounts: seq<nat>)
    requires weights != [] && |amounts| == |weights| && forall i :: 0 <= i < |weights| ==> weights[i] >= 0.0
    requires TotalWeight(weights) > 0.0
    requires forall i :: 0 <= i < |weights| - 1 ==> amounts[i] == Share(balance, AllBps(weights), i)
    requires Total(AllBps(weights)) > 0 ==>
               var s := Share(balance, AllBps(weights), |weights| - 1);
               s <= amounts[|weights| - 1] < s + |weights|
    ensures NearWeights(weights, balance, amounts)
  {
    var total, n := TotalWeight(weights), |weights|;
    forall i | 0 <= i < n - 1
      ensures AtLeastShare(amounts[i], balance, weights[i], total)
      ensures AtMostShare(amounts[i], 0, balance, weights[i], total, n)
    {
      SharesNearWeights(weights, balance, i, amounts[i], 0);
    }
    SharesNearWeights(weights, balance, n - 1, amounts[n - 1], n);
  }

  function Weights(positions: seq<(nat, real)>): (ws: seq<real>)
    ensures |ws| == |positions| && forall i :: 0 <= i < |ws| ==> ws[i] == positions[i].1
  {
    seq(|positions|, i requires 0 <= i < |positions| => positions[i].1)
  }

  /** Every position gets its floor share of the balance; the last takes whatever is left, to the last unit. */
  method AllocateAddPositionAmounts(positions: seq<(nat, real)>, balance: nat) returns (result: seq<(nat, nat)>)
    ensures |result| == |positions| && forall i :: 0 <= i < |result| ==> result[i].0 == positions[i].0
    ensures positions != [] ==> Total(Amounts(result)) == balance
    ensures var bps := AllBps(Weights(positions));
            && (forall i :: 0 <= i < |result| - 1 ==> result[i].1 == Share(balance, bps, i))
            && (result != [] && Total(bps) > 0 ==>
                  var last := |result| - 1;
                  Share(balance, bps, last) <= result[last].1 < Share(balance, bps, last) + |result|)
    ensures (forall i :: 0 <= i < |positions| ==> positions[i].1 >= 0.0) ==>
              NearWeights(Weights(positions), balance, Amounts(result))
  {
    if positions == [] {
      return [];
    }
    var weights, n := Weights(positions), |positions|;
    var amounts := AllocateShares(balance, AllBps(weights));
    result := seq(n, i requires 0 <= i < n => (positions[i].0, amounts[i]));
    assert Amounts(result) == amounts;
    if forall i :: 0 <= i < n ==> weights[i] >= 0.0 {
      NonNegativeTotal(weights);
      if TotalWeight(weights) == 0.0 {
        WeightlessAmounts(weights, balance, amounts);
      } else {
        AmountsNearWeights(weights, balance, amounts);
      }
    }
  }

  /** With weights that are not negative every intermediate of the allocation fits u128. */
  lemma AllocationFits(weights: seq<real>, balance: nat, i: nat)
    requires balance <= U128_MAX && i < |weights|
    requires forall j :: 0 <= j < |weights| ==> weights[j] >= 0.0
    ensures var bps := AllBps(weights);
            var total := Total(bps);
            && total <= BPS
            && (total > 0 ==>
                  && balance / total * bps[i] <= U128_MAX
                  && balance % total * bps[i] <= BPS * BPS
                  && SplitShare(balance, bps[i], total) <= balance)
  {
    var bps, sum := AllBps(weights), TotalWeight(weights);
    if sum > 0.0 {
      BpsAtMost(weights, sum, bps);
    } else {
      NonNegativeTotal(weights);
      AllZero(bps);
    }
    if Total(bps) > 0 {
      ItemAtMostTotal(bps, i);
      SplitShareFits(balance, bps[i], Total(bps));
    }
  }

  lemma {:induction false} NonNegativeTotal(weights: seq<real>)
    requires forall j :: 0 <= j < |weights| ==> weights[j] >= 0.0
    ensures TotalWeight(weights) >= 0.0
  {
    if weights != [] {
      NonNegativeTotal(weights[..|weights| - 1]);
    }
  }

  // ---------------------------------------------------------------------------
  // Purchases when wNEAR is scarce.

  /** What a purchase is scaled to: all of its value, or its part of what is available. */
  function Scaled(values: seq<real>, available: nat, i: nat): (v: real)
    requires i < |values|
  {
    var total := TotalWeight(values);
    if total > available as real then values[i] * (available as real / total) else values[i]
  }

  ghost function Floors(values: seq<real>, available: nat, n: nat): (r: seq<nat>)
    requires n <= |values|
  {
    seq(n, i requires 0 <= i < n => TruncU128(Scaled(values, available, i)))
  }

  lemma AddScaled(a: real, v: real, ratio: real)
    ensures (a + v) * ratio == a * ratio + v * ratio
  {
  }

  lemma TruncAtMost(x: real)
    requires x >= 0.0
    ensures TruncU128(x) as real <= x
  {
  }

  ghost predicate AllWithin(values: seq<real>, parts: seq<nat>, ratio: real) {
    |parts| == |values| && forall i :: 0 <= i < |values| ==> parts[i] as real <= values[i] * ratio
  }

  lemma {:induction false} TotalAtMostScaled(values: seq<real>, parts: seq<nat>, ratio: real)
    requires AllWithin(values, parts, ratio)
    ensures Total(parts) as real <= TotalWeight(values) * ratio
    decreases |values|
  {
    if values != [] {
      var n := |values| - 1;
      TotalAtMostScaled(values[..n], parts[..n], ratio);
      AddScaled(TotalWeight(values[..n]), values[n], ratio);
    }
  }

  /** The common factor of all purchases. */
  ghost function Ratio(values: seq<real>, available: nat): real {
    var total := TotalWeight(values);
    if total > available as real then available as real / total else 1.0
  }

  lemma FloorAtMostScaled(values: seq<real>, available: nat, i: nat)
    requires i < |values| && values[i] >= 0.0
    ensures TruncU128(Scaled(values, available, i)) as real <= values[i] * Ratio(values, available)
  {
    assert Scaled(values, available, i) == values[i] * Ratio(values, available);
    assert Ratio(values, available) >= 0.0;
    TruncAtMost(Scaled(values, available, i));
  }

  lemma FloorsWithin(values: seq<real>, available: nat, n: nat)
    requires n <= |values| && forall i :: 0 <= i < |values| ==> values[i] >= 0.0
    ensures AllWithin(values[..n], Floors(values, available, n), Ratio(values, available))
  {
    forall i | 0 <= i < n
      ensures Floors(values, available, n)[i] as real <= values[..n][i] * Ratio(values, available)
    {
      FloorAtMostScaled(values, available, i);
    }
  }

  /** Rounded-down purchases never exceed their part of what is available. */
  lemma FloorsAtMostScaled(values: seq<real>, available: nat, n: nat)
    requires n <= |values| && forall i :: 0 <= i < |values| ==> values[i] >= 0.0
    ensures Total(Floors(values, available, n)) as real <= TotalWeight(values[..n]) * Ratio(values, available)
  {
    FloorsWithin(values, available, n);
    TotalAtMostScaled(values[..n], Floors(values, available, n), Ratio(values, available));
  }

  lemma {:induction false} PrefixAtMostWeight(values: seq<real>, n: nat)
    requires n <= |values| && forall i :: 0 <= i < |values| ==> values[i] >= 0.0
    ensures TotalWeight(values[..n]) <= TotalWeight(values)
    decreases |values|
  {
    if n < |values| {
      PrefixAtMostWeight(values[..|values| - 1], n);
      assert values[..|values| - 1][..n] == values[..n];
    } else {
      assert values[..n] == values;
    }
  }

  lemma FloorsAtMostAvailable(values: seq<real>, available: nat, n: nat)
    requires n <= |values| && forall i :: 0 <= i < |values| ==> values[i] >= 0.0
    ensures Total(Floors(values, available, n)) <= available
  {
    FloorsAtMostScaled(values, available, n);
    PrefixAtMostWeight(values, n);
    var total := TotalWeight(values);
    if total > available as real {
      ScaleBack(TotalWeight(values[..n]), total, available as real);
    }
  }

  lemma ScaleBack(part: real, total: real, available: real)
    requires part <= total && 0.0 <= available < total
    ensures part * (available / total) <= available
  {
    var ratio := available / total;
    assert ratio * total == available && ratio >= 0.0;
    assert (total - part) * ratio >= 0.0;
  }

  /** Each part is its value rounded down. */
  ghost predicate RoundedDown(parts: seq<nat>, values: seq<real>) {
    |parts| == |values| && forall i :: 0 <= i < |values| ==> parts[i] as real <= values[i] < (parts[i] + 1) as real
  }

  lemma {:induction false} RoundingLoss(parts: seq<nat>, values: seq<real>)
    requires RoundedDown(parts, values)
    ensures Total(parts) as real <= TotalWeight(values) <= (Total(parts) + |parts|) as real
    decreases |values|
  {
    if values != [] {
      RoundingLoss(parts[..|values| - 1], values[..|values| - 1]);
    }
  }

  ghost function AllScaled(values: seq<real>, available: nat): (q: seq<real>)
    ensures |q| == |values|
  {
    seq(|values|, i requires 0 <= i < |values| => Scaled(values, available, i))
  }

  lemma {:induction false} TotalOfMultiples(q: seq<real>, values: seq<real>, ratio: real)
    requires |q| == |values| && forall i :: 0 <= i < |values| ==> q[i] == values[i] * ratio
    ensures TotalWeight(q) == TotalWeight(values) * ratio
    decreases |values|
  {
    if values != [] {
      var n := |values| - 1;
      TotalOfMultiples(q[..n], values[..n], ratio);
      AddScaled(TotalWeight(values[..n]), values[n], ratio);
    }
  }

  /** What the purchases are scaled to uses up exactly what is available. */
  lemma ScaledTotal(values: seq<real>, available: nat)
    requires TotalWeight(values) > available as real
    ensures TotalWeight(AllScaled(values, available)) == available as real
  {
    var total := TotalWeight(values);
    TotalOfMultiples(AllScaled(values, available), values, available as real / total);
    assert total * (available as real / total) == available as real;
  }

  lemma ScaledFits(values: seq<real>, available: nat, i: nat)
    requires i < |values| && available <= U128_MAX && forall j :: 0 <= j < |values| ==> values[j] >= 0.0
    ensures 0.0 <= Scaled(values, available, i) <= available as real
  {
    ItemAtMostWeight(values, i);
    if TotalWeight(values) > available as real {
      ScaleBack(values[i], TotalWeight(values), available as real);
      assert values[i] * (available as real / TotalWeight(values)) >= 0.0;
    }
  }

  lemma FloorsRounded(values: seq<real>, available: nat, n: nat)
    requires n <= |values| && available <= U128_MAX && forall j :: 0 <= j < |values| ==> values[j] >= 0.0
    ensures RoundedDown(Floors(values, available, n), AllScaled(values, available)[..n])
  {
    forall i | 0 <= i < n ensures 0.0 <= Scaled(values, available, i) <= available as real {
      ScaledFits(values, available, i);
    }
  }

  /** What is left for the last purchase is its own part and what rounding left of the others. */
  lemma LastBuy(values: seq<real>, available: nat, n: nat)
    requires n + 1 == |values| && available <= U128_MAX && forall j :: 0 <= j < |values| ==> values[j] >= 0.0
    requires TotalWeight(values) > available as real
    ensures var rest := (available - Total(Floors(values, available, n))) as real;
            AllScaled(values, available)[n] <= rest <= AllScaled(values, available)[n] + n as real
  {
    FloorsRounded(values, available, n);
    RoundingLoss(Floors(values, available, n), AllScaled(values, available)[..n]);
    ScaledTotal(values, available);
  }

  /**
   What each purchase is: its value rounded down, or when wNEAR is scarce its value's part of what is
   available, rounded down for all but the last, which takes its part and what that left.
   */
  ghost predicate FairBuys(values: seq<real>, available: nat, amounts: seq<nat>)
    requires |amounts| == |values|
  {
    var total := TotalWeight(values);
    if total <= available as real then RoundedDown(amounts, values)
    else RoundedButLast(amounts, Parts(values, available as real / total))
  }

  /** The values times the ratio. */
  ghost function Parts(values: seq<real>, ratio: real): (q: seq<real>)
    ensures |q| == |values|
  {
    seq(|values|, i requires 0 <= i < |values| => values[i] * ratio)
  }

  /** All amounts but the last are rounded down; the last is its part and less than one unit of each of the others. */
  ghost predicate RoundedButLast(amounts: seq<nat>, q: seq<real>)
    requires |amounts| == |q|
  {
    forall i :: 0 <= i < |q| ==>
      if i < |q| - 1 then amounts[i] as real <= q[i] < (amounts[i] + 1) as real
      else q[i] <= amounts[i] as real <= q[i] + (|q| - 1) as real
  }

  lemma PlentyIsFair(values: seq<real>, available: nat, amounts: seq<nat>)
    requires amounts == Floors(values, available, |values|) && available <= U128_MAX
    requires forall j :: 0 <= j < |values| ==> values[j] >= 0.0
    requires TotalWeight(values) <= available as real
    ensures FairBuys(values, available, amounts)
  {
    FloorsRounded(values, available, |values|);
    assert AllScaled(values, available)[..|values|] == values;
  }

  lemma ScarcityIsFair(values: seq<real>, available: nat, amounts: seq<nat>, n: nat)
    requires |amounts| == |values| == n + 1 && amounts[..n] == Floors(values, available, n)
    requires Total(amounts) == available <= U128_MAX && forall j :: 0 <= j < |values| ==> values[j] >= 0.0
    requires TotalWeight(values) > available as real
    ensures FairBuys(values, available, amounts)
  {
    LastBuy(values, available, n);
    FloorsRounded(values, available, n);
    RoundedAsScaled(amounts, Floors(values, available, n), AllScaled(values, available), n);
    ScaledParts(values, available);
  }

  lemma ScaledParts(values: seq<real>, available: nat)
    requires TotalWeight(values) > available as real
    ensures AllScaled(values, available) == Parts(values, available as real / TotalWeight(values))
  {
    var ratio := available as real / TotalWeight(values);
    forall i | 0 <= i < |values| ensures AllScaled(values, available)[i] == Parts(values, ratio)[i] {
      assert Scaled(values, available, i) == values[i] * ratio;
    }
  }

  lemma RoundedAsScaled(amounts: seq<nat>, floors: seq<nat>, q: seq<real>, n: nat)
    requires |amounts| == |q| == n + 1 && amounts[..n] == floors && RoundedDown(floors, q[..n])
    requires q[n] <= amounts[n] as real <= q[n] + n as real
    ensures RoundedButLast(amounts, q)
  {
    forall i | 0 <= i < n ensures amounts[i] as real <= q[i] < (amounts[i] + 1) as real {
      assert floors[i] == amounts[i] && q[..n][i] == q[i];
    }
  }

  /**
   Purchases planned for values in yocto. Never more than is available; when wNEAR is scarce
   exactly all of it, the last purchase taking up the rounding.
   */
  method AllocateBuys(values: seq<real>, available: nat) returns (amounts: seq<nat>)
    requires forall i :: 0 <= i < |values| ==> values[i] >= 0.0
    ensures |amounts| == |values|
    ensures Total(amounts) <= available
    ensures values != [] && TotalWeight(values) > available as real ==> Total(amounts) == available
    ensures forall i :: 0 <= i < |values| &&
                        (i < |values| - 1 || TotalWeight(values) <= available as real) ==>
              amounts[i] == TruncU128(Scaled(values, available, i))
    ensures available <= U128_MAX ==> FairBuys(values, available, amounts)
  {
    var n := |values|;
    var scarce := TotalWeight(values) > available as real;
    amounts := [];
    var allocatedSum := 0;
    for i := 0 to n
      invariant |amounts| == i && allocatedSum == Total(amounts) <= available
      invariant i < n || !scarce ==> amounts == Floors(values, available, i)
      invariant i == n && n > 0 && scarce ==>
                  amounts[..n - 1] == Floors(values, available, n - 1) && allocatedSum == available
    {
      FloorsAtMostAvailable(values, available, i);
      FloorsAtMostAvailable(values, available, i + 1);
      var amount := if i == n - 1 && scarce then SaturatingSub(available, allocatedSum)
                    else TruncU128(Scaled(values, available, i));
      TotalExtend(amounts, amount);
      assert Floors(values, available, i + 1) ==
             Floors(values, available, i) + [TruncU128(Scaled(values, available, i))];
      amounts := amounts + [amount];
      allocatedSum := allocatedSum + amount;
    }
    assert scarce && n > 0 ==> forall i :: 0 <= i < n - 1 ==> amounts[i] == amounts[..n - 1][i];
    if available <= U128_MAX {
      if scarce && n > 0 {
        ScarcityIsFair(values, available, amounts, n - 1);
      } else if !scarce {
        PlentyIsFair(values, available, amounts);
      }
    }
  }
}
