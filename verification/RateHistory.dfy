/**
 Recorded exchange rates and their correction to spot rates. A rate is measured by a trade of some
 size, so it carries the price impact of every pool on the trade's path; the correction removes it.
 Amounts are exact: the decimals of the program are rationals here.
 */
module RateHistory {
  import opened Numeric

  /** Reserves of one hop: what the trade pays into (x) and what it takes out of (y). */
  datatype Hop = Hop(x: nat, y: nat)

  datatype TokenRate = TokenRate(timestamp: int, rate: real, tradeNear: int, path: Option<seq<Hop>>)

  const YOCTO_PER_NEAR: real := 1000000000000000000000000.0

  // ---------------------------------------------------------------------------
  // Which path corrects a rate that has none of its own.

  function FirstPath(rates: seq<TokenRate>, from: nat): (r: Option<nat>)
    requires from <= |rates|
    ensures r.Some? ==> from <= r.value < |rates| && rates[r.value].path.Some?
    ensures r.Some? ==> forall k :: from <= k < r.value ==> rates[k].path.None?
    ensures r.None? ==> forall k :: from <= k < |rates| ==> rates[k].path.None?
    decreases |rates| - from
  {
    if from == |rates| then None
    else if rates[from].path.Some? then Some(from)
    else FirstPath(rates, from + 1)
  }

  /** Index of the oldest path among the newer rates, for a rate without one. */
  function FallbackIndex(rates: seq<TokenRate>, index: nat): (r: Option<nat>)
    requires index < |rates|
  {
    if rates[index].path.Some? then None else FirstPath(rates, index + 1)
  }

  /** One pass from the newest rate to the oldest finds what a search from every rate would find. */
  method PrecomputeFallbackIndices(rates: seq<TokenRate>) returns (fallbacks: array<Option<nat>>)
    ensures fresh(fallbacks) && fallbacks.Length == |rates|
    ensures forall i :: 0 <= i < |rates| ==> fallbacks[i] == FallbackIndex(rates, i)
  {
    fallbacks := new Option<nat>[|rates|](_ => None);
    var last: Option<nat> := None;
    for i := |rates| downto 0
      invariant last == FirstPath(rates, i)
      invariant forall k :: i <= k < |rates| ==> fallbacks[k] == FallbackIndex(rates, k)
    {
      if rates[i].path.Some? {
        last := Some(i);
        fallbacks[i] := None;
      } else {
        fallbacks[i] := last;
      }
    }
  }

  /** The first path found when looking through the rates from the oldest on. */
  function FindPath(rates: seq<TokenRate>): (r: Option<seq<Hop>>) {
    if rates == [] then None else if rates[0].path.Some? then rates[0].path else FindPath(rates[1..])
  }

  /** The rate at k is the first from `from` on that has a path. */
  ghost predicate IsFirst(rates: seq<TokenRate>, k: int, from: int) {
    0 <= from <= k < |rates| && rates[k].path.Some? && forall j :: from <= j < k ==> rates[j].path.None?
  }

  function FindFallbackPath(rates: seq<TokenRate>, index: nat): (r: Option<seq<Hop>>) {
    if index >= |rates| || rates[index].path.Some? then None else FindPath(rates[index + 1..])
  }

  function PathAt(rates: seq<TokenRate>, index: Option<nat>): (r: Option<seq<Hop>>)
    requires index.Some? ==> index.value < |rates|
  {
    if index.None? then None else rates[index.value].path
  }

  lemma {:induction false} FindPathIsFirst(rates: seq<TokenRate>, from: nat)
    requires from <= |rates|
    ensures FindPath(rates[from..]) == PathAt(rates, FirstPath(rates, from))
    decreases |rates| - from
  {
    if from < |rates| {
      assert rates[from..][1..] == rates[from + 1..];
      FindPathIsFirst(rates, from + 1);
    }
  }

  /** A rate without a path falls back on the first newer rate that has one. */
  lemma FallbackIsFirstNewer(rates: seq<TokenRate>, index: nat, j: nat)
    requires index < j < |rates| && rates[index].path.None? && IsFirst(rates, j, index + 1)
    ensures FindFallbackPath(rates, index) == rates[j].path
  {
    FindPathIsFirst(rates, index + 1);
    assert FirstPath(rates, index + 1) == Some(j);
  }

  lemma FallbacksAgree(rates: seq<TokenRate>, index: nat)
    requires index < |rates|
    ensures PathAt(rates, FallbackIndex(rates, index)) == FindFallbackPath(rates, index)
  {
    FindPathIsFirst(rates, index + 1);
  }

  // ---------------------------------------------------------------------------
  // Price impact along a path of constant-product pools.

  /** One hop of a trade: the amount put in, the factor 1 + d / x, the amount got out and the ratio y / x. */
  datatype Step = Step(before: real, impact: real, after: real, ratio: real)

  /** Only a negative amount can make the division fail. */
  predicate Divides(h: Hop, d: real) {
    h.x > 0 ==> h.x as real + d != 0.0
  }

  /** A constant-product hop without fees. A hop without an input reserve is passed over. */
  function StepOf(h: Hop, d: real): (s: Step)
    requires Divides(h, d)
  {
    if h.x == 0 then Step(d, 1.0, d, 1.0)
    else
      var x, y := h.x as real, h.y as real;
      Step(d, (x + d) / x, y * d / (x + d), y / x)
  }

  lemma StepTelescopes(h: Hop, d: real)
    requires Divides(h, d)
    ensures StepOf(h, d).impact * StepOf(h, d).after == d * StepOf(h, d).ratio
    ensures d >= 0.0 ==> StepOf(h, d).after >= 0.0 && StepOf(h, d).impact >= 1.0
  {
    if h.x > 0 {
      HopTelescopes(h.x as real, h.y as real, d);
    }
  }

  lemma HopTelescopes(x: real, y: real, d: real)
    requires x > 0.0 && y >= 0.0 && x + d != 0.0
    ensures ((x + d) / x) * (y * d / (x + d)) == d * (y / x)
    ensures d >= 0.0 ==> y * d / (x + d) >= 0.0 && (x + d) / x >= 1.0
  {
    CancelFactor(x + d, x, y * d);
    assert y * d / x == d * (y / x);
  }

  /** A hop is a constant-product pool: what it pays out keeps the product of its reserves. */
  lemma StepKeepsProduct(h: Hop, d: real)
    requires h.x > 0 && h.x as real + d != 0.0
    ensures (h.x as real + d) * (h.y as real - StepOf(h, d).after) == h.x as real * h.y as real
  {
    var x, y := h.x as real, h.y as real;
    var s := x + d;
    assert s * (y * d / s) == y * d;
    assert s * (y - y * d / s) == s * y - s * (y * d / s);
  }

  lemma CancelFactor(s: real, x: real, p: real)
    requires x != 0.0 && s != 0.0
    ensures (s / x) * (p / s) == p / x
  {
  }

  predicate Defined(hops: seq<Hop>, d: real) {
    hops == [] || (Divides(hops[0], d) && Defined(hops[1..], StepOf(hops[0], d).after))
  }

  lemma {:induction false} NonNegativeTradeDefined(hops: seq<Hop>, d: real)
    requires d >= 0.0
    ensures Defined(hops, d)
    decreases |hops|
  {
    if hops != [] {
      StepTelescopes(hops[0], d);
      NonNegativeTradeDefined(hops[1..], StepOf(hops[0], d).after);
    }
  }

  /** The steps follow each other, and each trades at its ratio once its impact is taken out. */
  ghost predicate Chained(steps: seq<Step>, d: real) {
    steps == [] ||
    (steps[0].before == d && steps[0].impact * steps[0].after == d * steps[0].ratio &&
     Chained(steps[1..], steps[0].after))
  }

  ghost function Steps(hops: seq<Hop>, d: real): (r: seq<Step>)
    requires Defined(hops, d)
    decreases |hops|
  {
    if hops == [] then []
    else
      var s := StepOf(hops[0], d);
      [s] + Steps(hops[1..], s.after)
  }

  lemma {:induction false} StepsChained(hops: seq<Hop>, d: real)
    requires Defined(hops, d)
    ensures Chained(Steps(hops, d), d)
    decreases |hops|
  {
    if hops != [] {
      var s := StepOf(hops[0], d);
      StepTelescopes(hops[0], d);
      StepsChained(hops[1..], s.after);
      assert Steps(hops, d)[1..] == Steps(hops[1..], s.after);
    }
  }

  ghost function Impacts(steps: seq<Step>): real {
    if steps == [] then 1.0 else steps[0].impact * Impacts(steps[1..])
  }

  ghost function Ratios(steps: seq<Step>): real {
    if steps == [] then 1.0 else steps[0].ratio * Ratios(steps[1..])
  }

  /** What the steps pay out in the end for d. */
  ghost function Output(steps: seq<Step>, d: real): real {
    if steps == [] then d else Output(steps[1..], steps[0].after)
  }

  lemma Regroup(a: real, b: real, c: real, n: real, f: real, d: real, q: real)
    requires b * c == n * f && a * n == d * q
    ensures (a * b) * c == d * (q * f)
  {
    assert (a * b) * c == a * (b * c) == a * (n * f) == (a * n) * f;
    assert (d * q) * f == d * (q * f);
  }

  /** Correcting the effective rate gives exactly the spot rate, whatever the size of the trade. */
  lemma {:induction false} CorrectionTelescopes(steps: seq<Step>, d: real)
    requires Chained(steps, d)
    ensures Impacts(steps) * Output(steps, d) == d * Ratios(steps)
    decreases |steps|
  {
    if steps != [] {
      var s, rest := steps[0], steps[1..];
      CorrectionTelescopes(rest, s.after);
      Regroup(s.impact, Impacts(rest), Output(rest, s.after), s.after, Ratios(rest), d, s.ratio);
    }
  }

  /** Rate of an infinitely small trade along the path: the product of y / x over its hops. */
  ghost function Spot(hops: seq<Hop>): real {
    if hops == [] then 1.0
    else (if hops[0].x == 0 then 1.0 else hops[0].y as real / hops[0].x as real) * Spot(hops[1..])
  }

  lemma {:induction false} RatiosAreSpot(hops: seq<Hop>, d: real)
    requires Defined(hops, d)
    ensures Ratios(Steps(hops, d)) == Spot(hops)
    decreases |hops|
  {
    if hops != [] {
      var s := StepOf(hops[0], d);
      RatiosAreSpot(hops[1..], s.after);
      assert Steps(hops, d)[1..] == Steps(hops[1..], s.after);
    }
  }

  // ---------------------------------------------------------------------------
  // The corrected rates.

  /** A named product, so that equal factors are seen to give equal products. */
  function Times(a: real, b: real): (r: real) {
    a * b
  }

  function PathUsed(rate: TokenRate, fallback: Option<seq<Hop>>): (r: seq<Hop>) {
    if rate.path.Some? then rate.path.value else if fallback.Some? then fallback.value else []
  }

  function TradeSize(rate: TokenRate): real {
    rate.tradeNear as real * YOCTO_PER_NEAR
  }

  predicate Correctable(rate: TokenRate, fallback: Option<seq<Hop>>) {
    Defined(PathUsed(rate, fallback), TradeSize(rate))
  }

  /** The recorded rate with the impact of every hop multiplied back in. */
  ghost function SpotRate(rate: TokenRate, fallback: Option<seq<Hop>>): real
    requires Correctable(rate, fallback)
  {
    Times(rate.rate, Impacts(Steps(PathUsed(rate, fallback), TradeSize(rate))))
  }

  /** A rate without a path is corrected along its fallback exactly as if that were its own path. */
  lemma FallbackStandsIn(rate: TokenRate, hops: seq<Hop>)
    requires rate.path.None?
    ensures Correctable(rate, Some(hops)) <==> Correctable(rate.(path := Some(hops)), None)
    ensures Correctable(rate, Some(hops)) ==>
              SpotRate(rate, Some(hops)) == SpotRate(rate.(path := Some(hops)), None)
  {
  }

  /** A rate with a path of its own is corrected along that, whatever the fallback. */
  lemma OwnPathFirst(rate: TokenRate, fallback: Option<seq<Hop>>)
    requires rate.path.Some?
    ensures Correctable(rate, fallback) <==> Correctable(rate, None)
    ensures Correctable(rate, fallback) ==> SpotRate(rate, fallback) == SpotRate(rate, None)
  {
  }

  /** Without any path a rate stays as it is. */
  lemma NoPathNoCorrection(rate: TokenRate)
    requires rate.path.None?
    ensures Correctable(rate, None) && SpotRate(rate, None) == rate.rate
  {
  }

  /** Along a single hop the recorded rate grows by the traded share of its input reserve. */
  lemma OneHopSpotRate(rate: TokenRate, fallback: Option<seq<Hop>>, h: Hop)
    requires h.x > 0 && h.x as real + rate.tradeNear as real * 1000000000000000000000000.0 != 0.0
    requires rate.path == Some([h]) || (rate.path.None? && fallback == Some([h]))
    ensures Correctable(rate, fallback)
    ensures SpotRate(rate, fallback) ==
            rate.rate * (1.0 + rate.tradeNear as real * 1000000000000000000000000.0 / h.x as real)
  {
    var d := TradeSize(rate);
    var s := StepOf(h, d);
    assert [h][1..] == [];
    assert Defined([], s.after) && Defined([h], d);
    assert Steps([h], d) == [s] + Steps([], s.after) == [s];
    assert [s][1..] == [];
    assert Impacts([]) == 1.0 && Impacts([s]) == s.impact * Impacts([s][1..]) == s.impact;
    ImpactIsShare(h.x as real, d);
  }

  lemma ImpactIsShare(x: real, d: real)
    requires x > 0.0
    ensures (x + d) / x == 1.0 + d / x
  {
    var p, q := (x + d) / x, d / x;
    assert p * x == x + d && q * x == d;
    assert (1.0 + q) * x == x + q * x;
    EqualFactors(p, 1.0 + q, x);
  }

  lemma EqualFactors(p: real, q: real, x: real)
    requires x > 0.0 && p * x == q * x
    ensures p == q
  {
    assert (p - q) * x == 0.0;
  }

  /** A hop without an input reserve corrects nothing and passes the trade on. */
  lemma EmptyHopPasses(h: Hop, hops: seq<Hop>, d: real)
    requires h.x == 0 && Defined(hops, d)
    ensures Defined([h] + hops, d) && Impacts(Steps([h] + hops, d)) == Impacts(Steps(hops, d))
  {
    var s := StepOf(h, d);
    assert ([h] + hops)[1..] == hops;
    assert Steps([h] + hops, d) == [s] + Steps(hops, d);
    assert ([s] + Steps(hops, d))[1..] == Steps(hops, d);
    UnitImpact(s, Steps(hops, d));
  }

  lemma UnitImpact(s: Step, steps: seq<Step>)
    requires s.impact == 1.0
    ensures Impacts([s] + steps) == Impacts(steps)
  {
    assert ([s] + steps)[1..] == steps;
  }

  lemma Rescale(c: real, out: real, d: real, spot: real, unit: real)
    requires d != 0.0 && c * out == d * spot
    ensures unit * (out / d) * c == unit * spot
  {
    var q := out / d;
    assert out == q * d;
    assert c * (q * d) == (c * q) * d;
    assert (c * q) * d == spot * d;
    assert c * q == spot;
    assert unit * q * c == unit * (c * q);
  }

  /** What a trade of d got for each unit of it. */
  ghost function EffectiveRate(steps: seq<Step>, d: real, unit: real): real
    requires d != 0.0
  {
    unit * (Output(steps, d) / d)
  }

  lemma ChainRecovers(steps: seq<Step>, d: real, rate: real, unit: real)
    requires Chained(steps, d) && d != 0.0 && rate == EffectiveRate(steps, d, unit)
    ensures Times(rate, Impacts(steps)) == Times(unit, Ratios(steps))
  {
    CorrectionTelescopes(steps, d);
    Rescale(Impacts(steps), Output(steps, d), d, Ratios(steps), unit);
  }

  /** A rate measured by a trade without fees comes back as the spot rate of its path. */
  lemma SpotRateRecovered(rate: TokenRate, fallback: Option<seq<Hop>>, d: real, unit: real)
    requires Correctable(rate, fallback) && d == TradeSize(rate) && d != 0.0
    requires rate.rate == EffectiveRate(Steps(PathUsed(rate, fallback), d), d, unit)
    ensures SpotRate(rate, fallback) == Times(unit, Spot(PathUsed(rate, fallback)))
  {
    StepsChained(PathUsed(rate, fallback), d);
    ChainRecovers(Steps(PathUsed(rate, fallback), d), d, rate.rate, unit);
    RatiosAreSpot(PathUsed(rate, fallback), d);
  }

  /** The impacts multiplied into c one after the other. */
  ghost function Accumulated(c: real, steps: seq<Step>): real
    decreases |steps|
  {
    if steps == [] then c else Accumulated(Times(c, steps[0].impact), steps[1..])
  }

  lemma {:induction false} AccumulatedImpacts(c: real, steps: seq<Step>)
    ensures Accumulated(c, steps) == c * Impacts(steps)
    decreases |steps|
  {
    if steps != [] {
      AccumulatedImpacts(Times(c, steps[0].impact), steps[1..]);
      Associate(c, steps[0].impact, Impacts(steps[1..]));
    }
  }

  lemma Associate(a: real, b: real, c: real)
    ensures a * (b * c) == (a * b) * c
  {
  }

  lemma StepsUnfold(hops: seq<Hop>, d: real)
    requires hops != [] && Defined(hops, d)
    ensures Divides(hops[0], d) && Defined(hops[1..], StepOf(hops[0], d).after)
    ensures Steps(hops, d) == [StepOf(hops[0], d)] + Steps(hops[1..], StepOf(hops[0], d).after)
  {
  }

  lemma AccumulatedUnfold(c: real, first: Step, rest: seq<Step>)
    ensures Accumulated(c, [first] + rest) == Accumulated(Times(c, first.impact), rest)
  {
    assert ([first] + rest)[1..] == rest;
  }

  lemma HopAccumulates(c: real, hops: seq<Hop>, d: real)
    requires hops != [] && Defined(hops, d)
    ensures Divides(hops[0], d) && Defined(hops[1..], StepOf(hops[0], d).after)
    ensures var s := StepOf(hops[0], d);
            Accumulated(c, Steps(hops, d)) == Accumulated(Times(c, s.impact), Steps(hops[1..], s.after))
  {
    StepsUnfold(hops, d);
    var s := StepOf(hops[0], d);
    AccumulatedUnfold(c, s, Steps(hops[1..], s.after));
  }

  method CorrectionAlong(hops: seq<Hop>, d: real) returns (correction: real)
    requires Defined(hops, d)
    ensures correction == Impacts(Steps(hops, d))
  {
    AccumulatedImpacts(1.0, Steps(hops, d));
    var delta, rest := d, hops;
    correction := 1.0;
    ghost var all := Accumulated(1.0, Steps(hops, d));
    while rest != []
      invariant Defined(rest, delta) && Accumulated(correction, Steps(rest, delta)) == all
    {
      HopAccumulates(correction, rest, delta);
      var step := StepOf(rest[0], delta);
      correction, delta, rest := Times(correction, step.impact), step.after, rest[1..];
    }
  }

  method ToSpotRateWithFallback(rate: TokenRate, fallback: Option<seq<Hop>>) returns (r: real)
    requires Correctable(rate, fallback)
    ensures r == SpotRate(rate, fallback)
  {
    var correction := CorrectionAlong(PathUsed(rate, fallback), TradeSize(rate));
    return Times(rate.rate, correction);
  }

  predicate AllCorrectable(rates: seq<TokenRate>) {
    forall i :: 0 <= i < |rates| ==> Correctable(rates[i], FindFallbackPath(rates, i))
  }

  /** The first rates, each corrected with the path a search from it finds; vanishing rates are dropped. */
  ghost function SpotRates(rates: seq<TokenRate>, to: nat): seq<(int, real)>
    requires to <= |rates| && AllCorrectable(rates)
  {
    if to == 0 then []
    else
      var spot := SpotRate(rates[to - 1], FindFallbackPath(rates, to - 1));
      SpotRates(rates, to - 1) + if spot < 1.0 then [] else [(rates[to - 1].timestamp, spot)]
  }

  /** The corrected rate at an index. */
  ghost function SpotAt(rates: seq<TokenRate>, i: nat): real
    requires i < |rates| && AllCorrectable(rates)
  {
    SpotRate(rates[i], FindFallbackPath(rates, i))
  }

  /** It is corrected along its own path, else along the path of the first newer rate that has one, else not. */
  lemma SpotAtUses(rates: seq<TokenRate>, i: nat)
    requires i < |rates| && AllCorrectable(rates)
    ensures rates[i].path.Some? ==> Correctable(rates[i], None) && SpotAt(rates, i) == SpotRate(rates[i], None)
    ensures forall j :: rates[i].path.None? && IsFirst(rates, j, i + 1) ==>
              var own := rates[i].(path := rates[j].path);
              Correctable(own, None) && SpotAt(rates, i) == SpotRate(own, None)
    ensures (forall j :: i <= j < |rates| ==> rates[j].path.None?) ==> SpotAt(rates, i) == rates[i].rate
  {
    assert Correctable(rates[i], FindFallbackPath(rates, i));
    if rates[i].path.Some? {
      OwnPathFirst(rates[i], FindFallbackPath(rates, i));
    } else {
      forall j | IsFirst(rates, j, i + 1)
        ensures Correctable(rates[i].(path := rates[j].path), None)
        ensures SpotAt(rates, i) == SpotRate(rates[i].(path := rates[j].path), None)
      {
        FallbackIsFirstNewer(rates, i, j);
        FallbackStandsIn(rates[i], rates[j].path.value);
      }
      FindPathIsFirst(rates, i + 1);
      NoPathNoCorrection(rates[i]);
    }
  }

  /** The entries belong to the rates at the increasing indices `at`: exactly those that come out at one or more. */
  ghost predicate AreSpots(rates: seq<TokenRate>, to: nat, spots: seq<(int, real)>, at: seq<nat>)
    requires to <= |rates| && AllCorrectable(rates)
  {
    && |spots| == |at| && (forall j, k :: 0 <= j < k < |at| ==> at[j] < at[k])
    && (forall j :: 0 <= j < |at| ==> at[j] < to && spots[j] == (rates[at[j]].timestamp, SpotAt(rates, at[j])))
    && (forall i :: 0 <= i < to ==> (i in at <==> SpotAt(rates, i) >= 1.0))
  }

  lemma SkipSpot(rates: seq<TokenRate>, n: nat, spots: seq<(int, real)>, at: seq<nat>)
    requires n < |rates| && AllCorrectable(rates) && AreSpots(rates, n, spots, at) && SpotAt(rates, n) < 1.0
    ensures AreSpots(rates, n + 1, spots, at)
  {
    assert n !in at;
  }

  lemma AddSpot(rates: seq<TokenRate>, n: nat, spots: seq<(int, real)>, at: seq<nat>, spot: real)
    requires n < |rates| && AllCorrectable(rates) && AreSpots(rates, n, spots, at)
    requires spot == SpotAt(rates, n) && spot >= 1.0
    ensures AreSpots(rates, n + 1, spots + [(rates[n].timestamp, spot)], at + [n])
  {
    var more := at + [n];
    forall i | 0 <= i < n + 1 ensures i in more <==> SpotAt(rates, i) >= 1.0 {
      assert i in more <==> i in at || i == n;
    }
  }

  lemma {:induction false} SpotRatesAt(rates: seq<TokenRate>, n: nat) returns (at: seq<nat>)
    requires n <= |rates| && AllCorrectable(rates)
    ensures AreSpots(rates, n, SpotRates(rates, n), at)
    decreases n
  {
    if n == 0 {
      at := [];
    } else {
      at := SpotRatesAt(rates, n - 1);
      var spots, spot := SpotRates(rates, n - 1), SpotAt(rates, n - 1);
      if spot < 1.0 {
        SkipSpot(rates, n - 1, spots, at);
        assert spots + [] == spots;
      } else {
        AddSpot(rates, n - 1, spots, at, spot);
        at := at + [n - 1];
      }
    }
  }

  method ToSpotRates(rates: seq<TokenRate>) returns (spots: seq<(int, real)>)
    requires AllCorrectable(rates)
    ensures spots == SpotRates(rates, |rates|)
    ensures exists at :: AreSpots(rates, |rates|, spots, at)
  {
    ghost var at := SpotRatesAt(rates, |rates|);
    var fallbacks := PrecomputeFallbackIndices(rates);
    spots := [];
    for i := 0 to |rates|
      modifies {}
      invariant spots == SpotRates(rates, i)
    {
      FallbacksAgree(rates, i);
      var spot := ToSpotRateWithFallback(rates[i], PathAt(rates, fallbacks[i]));
      if spot >= 1.0 {
        spots := spots + [(rates[i].timestamp, spot)];
      }
    }
  }
}
