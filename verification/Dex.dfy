/** Pools, the token pairs taken from them, and multi-hop paths. */
module Dex {
  import opened Numeric
  import opened Amm

  datatype PoolInfo = PoolInfo(id: nat, tokens: seq<Token>, amounts: seq<nat>, totalFee: nat)
  {
    /** Fees are at most the divisor and balances are u128. */
    predicate Valid() {
      && totalFee <= FEE_DIVISOR
      && forall i :: 0 <= i < |amounts| ==> amounts[i] <= U128_MAX
    }
  }

  datatype DexError =
    | SwapSameToken
    | OutOfIndexOfTokens(index: nat)
    | DifferentLengthOfTokens(tokens: nat, amounts: nat)
    | ZeroAmount
    | Overflow

  datatype TokenPair = TokenPair(pool: PoolInfo, tokenIn: nat, tokenOut: nat)
  {
    /** What taking a pair from a pool guarantees. */
    predicate Valid() {
      && pool.Valid() && tokenIn != tokenOut
      && tokenIn < |pool.tokens| && tokenOut < |pool.tokens|
      && tokenIn < |pool.amounts| && tokenOut < |pool.amounts|
    }
  }

  function GetPair(pool: PoolInfo, tokenIn: nat, tokenOut: nat): (r: Result<TokenPair, DexError>)
    requires pool.Valid()
    ensures r.Ok? <==> TokenPair(pool, tokenIn, tokenOut).Valid()
    ensures r.Ok? ==> r.value == TokenPair(pool, tokenIn, tokenOut)
  {
    if tokenIn == tokenOut then Err(SwapSameToken)
    else if tokenIn >= |pool.tokens| || tokenOut >= |pool.tokens| then
      Err(OutOfIndexOfTokens(if tokenIn > tokenOut then tokenIn else tokenOut))
    else if tokenIn >= |pool.amounts| || tokenOut >= |pool.amounts| then
      Err(DifferentLengthOfTokens(|pool.tokens|, |pool.amounts|))
    else Ok(TokenPair(pool, tokenIn, tokenOut))
  }

  function EstimateReturn(pool: PoolInfo, tokenIn: nat, amount: nat, tokenOut: nat): (r: Result<nat, DexError>)
    requires pool.Valid()
  {
    if tokenIn == tokenOut then Err(SwapSameToken)
    else if tokenIn >= |pool.amounts| then Err(OutOfIndexOfTokens(tokenIn))
    else if tokenOut >= |pool.amounts| then Err(OutOfIndexOfTokens(tokenOut))
    else if pool.amounts[tokenIn] == 0 || pool.amounts[tokenOut] == 0 || amount == 0 then Err(ZeroAmount)
    else
      var out := Estimate(pool.amounts[tokenIn], pool.amounts[tokenOut], pool.totalFee, amount);
      if out <= U128_MAX then Ok(out) else Err(Overflow)
  }

  function PairReturn(pair: TokenPair, amount: nat): (r: Result<nat, DexError>)
    requires pair.Valid()
  {
    EstimateReturn(pair.pool, pair.tokenIn, amount, pair.tokenOut)
  }

  /** A pair can be swapped: both of its reserves are positive. */
  predicate Liquid(pair: TokenPair)
    requires pair.Valid()
  {
    pair.pool.amounts[pair.tokenIn] > 0 && pair.pool.amounts[pair.tokenOut] > 0
  }

  /** The estimate never overflows: it fails exactly for an empty reserve or an empty input. */
  lemma PairReturnFailsIff(pair: TokenPair, amount: nat)
    requires pair.Valid()
    ensures PairReturn(pair, amount).Ok? <==> Liquid(pair) && amount > 0
    ensures PairReturn(pair, amount).Err? ==> PairReturn(pair, amount).error == ZeroAmount
    ensures PairReturn(pair, amount).Ok? ==>
              PairReturn(pair, amount).value < pair.pool.amounts[pair.tokenOut]
  {
    var pool := pair.pool;
    if Liquid(pair) && amount > 0 {
      BelowReserve(pool.amounts[pair.tokenIn], pool.amounts[pair.tokenOut], pool.totalFee, amount);
    }
  }

  /** An estimate pays the pair's own price: reserve to reserve, with the pool's fee taken off the input. */
  lemma PairReturnPrices(pair: TokenPair, amount: nat)
    requires pair.Valid() && PairReturn(pair, amount).Ok?
    ensures var r := PairReturn(pair, amount).value;
            var x, y := pair.pool.amounts[pair.tokenIn], pair.pool.amounts[pair.tokenOut];
            var g := amount * (10_000 - pair.pool.totalFee);
            r * (10_000 * x + g) <= g * y < (r + 1) * (10_000 * x + g)
  {
    PairReturnFailsIff(pair, amount);
    EstimateBound(pair.pool.amounts[pair.tokenIn], pair.pool.amounts[pair.tokenOut], pair.pool.totalFee, amount);
  }

  // ---------------------------------------------------------------------------
  // The pool list.

  /** The pool the list answers with for an id: the last one given with it. */
  ghost predicate IsLastWithId(pools: seq<PoolInfo>, id: nat, pool: PoolInfo) {
    exists i :: 0 <= i < |pools| && pools[i] == pool && pool.id == id
                && forall j :: i < j < |pools| ==> pools[j].id != id
  }

  lemma NextWithId(pools: seq<PoolInfo>, n: nat, id: nat, pool: PoolInfo)
    requires n < |pools|
    ensures IsLastWithId(pools[..n + 1], pools[n].id, pools[n])
    ensures id != pools[n].id && IsLastWithId(pools[..n], id, pool) ==> IsLastWithId(pools[..n + 1], id, pool)
  {
    assert pools[..n + 1][n] == pools[n];
    assert pools[..n + 1] == pools[..n] + [pools[n]];
  }

  method IndexById(pools: seq<PoolInfo>) returns (byId: map<nat, PoolInfo>)
    ensures forall id :: id in byId <==> exists i :: 0 <= i < |pools| && pools[i].id == id
    ensures forall id :: id in byId ==> IsLastWithId(pools, id, byId[id])
  {
    byId := map[];
    for n := 0 to |pools|
      invariant forall id :: id in byId <==> exists i :: 0 <= i < n && pools[i].id == id
      invariant forall id :: id in byId ==> IsLastWithId(pools[..n], id, byId[id])
    {
      byId := byId[pools[n].id := pools[n]];
      forall id | id in byId
        ensures IsLastWithId(pools[..n + 1], id, byId[id])
      {
        NextWithId(pools, n, id, byId[id]);
      }
    }
    assert pools[..|pools|] == pools;
  }

  // ---------------------------------------------------------------------------
  // Paths.

  type Path = seq<TokenPair>

  predicate ValidPath(path: Path) {
    forall i :: 0 <= i < |path| ==> path[i].Valid()
  }

  /** Value after all hops; a value of zero ends the path early without an error. */
  function PathValue(path: Path, value: nat): (r: Result<nat, DexError>)
    requires ValidPath(path)
  {
    if value == 0 then Ok(0)
    else if path == [] then Ok(value)
    else
      match PairReturn(path[0], value)
      case Err(e) => Err(e)
      case Ok(next) => PathValue(path[1..], next)
  }

  method CalcValue(path: Path, initial: nat) returns (r: Result<nat, DexError>)
    requires ValidPath(path)
    ensures r == PathValue(path, initial)
  {
    if initial == 0 {
      return Ok(0);
    }
    var value := initial;
    for i := 0 to |path|
      invariant value > 0 && PathValue(path[i..], value) == PathValue(path, initial)
    {
      assert path[i..][0] == path[i] && path[i..][1..] == path[i + 1..];
      var next := PairReturn(path[i], value);
      if next.Err? {
        return Err(next.error);
      }
      value := next.value;
      if value == 0 {
        return Ok(0);
      }
    }
    return Ok(value);
  }

  /** Putting in more never gives less, over any number of hops. */
  lemma {:induction false} PathMonotone(path: Path, v: nat, w: nat)
    requires ValidPath(path) && v <= w
    requires PathValue(path, v).Ok? && PathValue(path, w).Ok?
    ensures PathValue(path, v).value <= PathValue(path, w).value
    decreases |path|
  {
    if path != [] && v > 0 {
      var pair := path[0];
      PairReturnFailsIff(pair, v);
      Monotone(pair.pool.amounts[pair.tokenIn], pair.pool.amounts[pair.tokenOut], pair.pool.totalFee, v, w);
      PathMonotone(path[1..], PairReturn(pair, v).value, PairReturn(pair, w).value);
    }
  }

  /** Walking one path and then another is walking their concatenation. */
  lemma {:induction false} PathJoin(a: Path, b: Path, v: nat)
    requires ValidPath(a) && ValidPath(b)
    ensures ValidPath(a + b)
    ensures PathValue(a + b, v) ==
            match PathValue(a, v)
            case Err(e) => Err(e)
            case Ok(w) => PathValue(b, w)
    decreases |a|
  {
    if a == [] {
      assert a + b == b;
    } else if v > 0 {
      assert (a + b)[0] == a[0] && (a + b)[1..] == a[1..] + b;
      var next := PairReturn(a[0], v);
      if next.Ok? {
        PathJoin(a[1..], b, next.value);
      }
    }
  }

  function Flip(pair: TokenPair): TokenPair {
    TokenPair(pair.pool, pair.tokenOut, pair.tokenIn)
  }

  function Back(path: Path): (r: Path)
    requires ValidPath(path)
    ensures ValidPath(r) && |r| == |path|
  {
    if path == [] then [] else Back(path[1..]) + [Flip(path[0])]
  }

  /** A path followed by its own way back never returns more than was put in. */
  lemma {:induction false} NoFreeLunch(path: Path, v: nat)
    requires ValidPath(path)
    ensures var r := PathValue(path + Back(path), v);
            r.Ok? ==> r.value <= v
    decreases |path|
  {
    if path != [] && v > 0 {
      var pair, rest := path[0], path[1..];
      var inner := rest + Back(rest);
      var last := [Flip(pair)];
      assert path + Back(path) == [pair] + (inner + last);
      PathJoin([pair], inner + last, v);
      PathJoin(inner, last, PairReturnOr(pair, v));
      NoFreeLunch(rest, PairReturnOr(pair, v));
      if PathValue(path + Back(path), v).Ok? {
        OneHopBack(pair, v, PathValue(inner, PairReturnOr(pair, v)).value);
      }
    }
  }

  function PairReturnOr(pair: TokenPair, v: nat): nat
    requires pair.Valid()
  {
    var r := PairReturn(pair, v);
    if r.Ok? then r.value else 0
  }

  /** Going back over one hop with no more than it gave returns no more than was put in. */
  lemma OneHopBack(pair: TokenPair, v: nat, w: nat)
    requires pair.Valid() && PairReturn(pair, v).Ok? && w <= PairReturn(pair, v).value
    ensures var r := PathValue([Flip(pair)], w); r.Ok? ==> r.value <= v
  {
    PairReturnFailsIff(pair, v);
    var x, y, fee := pair.pool.amounts[pair.tokenIn], pair.pool.amounts[pair.tokenOut], pair.pool.totalFee;
    RoundTrip(x, y, fee, v);
    Monotone(y, x, fee, w, Estimate(x, y, fee, v));
    if w > 0 && PairReturn(Flip(pair), w).Ok? {
      assert PathValue([Flip(pair)][1..], PairReturn(Flip(pair), w).value) == PairReturn(Flip(pair), w);
    }
  }

  // ---------------------------------------------------------------------------
  // Tokens of a path.

  function TokenInId(pair: TokenPair): Token
    requires pair.Valid()
  {
    pair.pool.tokens[pair.tokenIn]
  }

  function TokenOutId(pair: TokenPair): Token
    requires pair.Valid()
  {
    pair.pool.tokens[pair.tokenOut]
  }

  /** Every token of the path, once. */
  method AllTokens(path: Path) returns (seen: seq<Token>)
    requires ValidPath(path)
    ensures forall i, j :: 0 <= i < j < |seen| ==> seen[i] != seen[j]
    ensures forall t :: t in seen <==>
              exists i :: 0 <= i < |path| && (t == TokenInId(path[i]) || t == TokenOutId(path[i]))
  {
    seen := [];
    for n := 0 to |path|
      invariant forall i, j :: 0 <= i < j < |seen| ==> seen[i] != seen[j]
      invariant forall t :: t in seen <==>
                  exists i :: 0 <= i < n && (t == TokenInId(path[i]) || t == TokenOutId(path[i]))
    {
      var tokenIn, tokenOut := TokenInId(path[n]), TokenOutId(path[n]);
      if tokenIn !in seen {
        seen := seen + [tokenIn];
      }
      if tokenOut !in seen {
        seen := seen + [tokenOut];
      }
    }
  }
}
