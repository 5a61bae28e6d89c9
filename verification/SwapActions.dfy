/**
 Turning a path into swap actions, with the estimate made while building them, and the
 simulator's walk over the pools. Both price every hop on the listed reserves.
 */
module SwapActions {
  import opened Numeric
  import opened Dex

  datatype SwapAction = SwapAction(
    poolId: nat,
    tokenIn: Token,
    amountIn: Option<nat>,
    tokenOut: Token,
    minAmountOut: nat)

  type Pools = map<nat, PoolInfo>

  predicate ValidPools(pools: Pools) {
    forall id :: id in pools ==> pools[id].Valid() && pools[id].id == id
  }

  ghost predicate DistinctTokens(pool: PoolInfo) {
    forall i, j :: 0 <= i < j < |pool.tokens| ==> pool.tokens[i] != pool.tokens[j]
  }

  /** Every pair was taken from the list, and no pool lists a token twice. */
  ghost predicate FromPools(path: Path, pools: Pools) {
    && ValidPools(pools) && ValidPath(path)
    && forall i :: 0 <= i < |path| ==>
         && path[i].pool.id in pools && pools[path[i].pool.id] == path[i].pool
         && DistinctTokens(path[i].pool)
  }

  // ---------------------------------------------------------------------------
  // Building.

  /** Amount that reaches hop i, and after the last hop the output. */
  function AmountAt(path: Path, initial: nat, i: nat): (r: Result<nat, DexError>)
    requires ValidPath(path) && i <= |path|
  {
    if i == 0 then Ok(initial)
    else
      match AmountAt(path, initial, i - 1)
      case Err(e) => Err(e)
      case Ok(v) => PairReturn(path[i - 1], v)
  }

  function ActionFor(path: Path, i: nat, amount: nat, minOut: nat): SwapAction
    requires ValidPath(path) && i < |path|
  {
    var id := path[i].pool.id;
    SwapAction(id, TokenInId(path[i]),
               if id == path[0].pool.id then Some(amount) else None,
               TokenOutId(path[i]),
               if id == path[|path| - 1].pool.id then minOut else 0)
  }

  /** The actions of the first n hops when all of them can be estimated. */
  ghost predicate AreActions(path: Path, initial: nat, minOut: nat, n: nat, actions: seq<SwapAction>)
    requires ValidPath(path)
  {
    && |actions| == n <= |path|
    && forall i :: 0 <= i < n ==>
         && AmountAt(path, initial, i).Ok?
         && actions[i] == ActionFor(path, i, AmountAt(path, initial, i).value, minOut)
  }

  method BuildSwapActions(path: Path, initialIn: nat, minOut: nat)
    returns (r: Result<(seq<SwapAction>, nat), DexError>)
    requires ValidPath(path)
    ensures r.Ok? <==> AmountAt(path, initialIn, |path|).Ok?
    ensures r.Err? ==> AmountAt(path, initialIn, |path|) == Err(r.error)
    ensures r.Ok? ==> r.value.1 == AmountAt(path, initialIn, |path|).value
    ensures r.Ok? ==> AreActions(path, initialIn, minOut, |path|, r.value.0)
  {
    if path == [] {
      return Ok(([], initialIn));
    }
    var firstId, lastId := path[0].pool.id, path[|path| - 1].pool.id;
    var actions: seq<SwapAction> := [];
    var prevOut := initialIn;
    for i := 0 to |path|
      invariant AmountAt(path, initialIn, i) == Ok(prevOut)
      invariant AreActions(path, initialIn, minOut, i, actions)
    {
      var pair := path[i];
      var isFirst := pair.pool.id == firstId;
      var min := if pair.pool.id == lastId then minOut else 0;
      var nextOut := PairReturn(pair, prevOut);
      if nextOut.Err? {
        AmountFails(path, initialIn, i + 1, |path|);
        return Err(nextOut.error);
      }
      actions := actions + [SwapAction(pair.pool.id, TokenInId(pair),
                                       if isFirst then Some(prevOut) else None, TokenOutId(pair), min)];
      prevOut := nextOut.value;
    }
    return Ok((actions, prevOut));
  }

  lemma AmountStep(path: Path, initial: nat, i: nat, v: nat)
    requires ValidPath(path) && i < |path| && AmountAt(path, initial, i) == Ok(v)
    ensures AmountAt(path, initial, i + 1) == PairReturn(path[i], v)
  {
  }

  lemma {:induction false} AmountFails(path: Path, initial: nat, i: nat, j: nat)
    requires ValidPath(path) && i <= j <= |path| && AmountAt(path, initial, i).Err?
    ensures AmountAt(path, initial, j) == AmountAt(path, initial, i)
    decreases j
  {
    if i < j {
      AmountFails(path, initial, i, j - 1);
    }
  }

  /** With pool ids that occur once, only the first action names its input and only the last its minimum. */
  lemma ActionShape(path: Path, initial: nat, minOut: nat, actions: seq<SwapAction>, i: nat)
    requires ValidPath(path) && AreActions(path, initial, minOut, |path|, actions) && i < |path|
    ensures actions[i].poolId == path[i].pool.id
    ensures actions[i].tokenIn == TokenInId(path[i]) && actions[i].tokenOut == TokenOutId(path[i])
    ensures AmountAt(path, initial, i).Ok?
    ensures actions[i].amountIn ==
            if path[i].pool.id == path[0].pool.id then Some(AmountAt(path, initial, i).value) else None
    ensures actions[i].minAmountOut == if path[i].pool.id == path[|path| - 1].pool.id then minOut else 0
    ensures (forall a, b :: 0 <= a < b < |path| ==> path[a].pool.id != path[b].pool.id) ==>
              && (actions[i].amountIn.Some? <==> i == 0)
              && (i == 0 ==> actions[i].amountIn == Some(initial))
              && actions[i].minAmountOut == if i == |path| - 1 then minOut else 0
  {
  }

  // ---------------------------------------------------------------------------
  // The building estimate and the path value.

  /** Skipping the first hop shifts the amounts by one. */
  lemma {:induction false} AmountShift(path: Path, initial: nat, i: nat)
    requires ValidPath(path) && path != [] && 0 < i <= |path| && PairReturn(path[0], initial).Ok?
    ensures AmountAt(path, initial, i) == AmountAt(path[1..], PairReturn(path[0], initial).value, i - 1)
    decreases i
  {
    if i > 1 {
      AmountShift(path, initial, i - 1);
    }
  }

  /**
   When building succeeds it estimates the path value, and it succeeds whenever that value
   is positive; only a path value of zero can be without actions.
   */
  lemma {:induction false} BuildAgreesWithValue(path: Path, initial: nat)
    requires ValidPath(path)
    ensures AmountAt(path, initial, |path|).Ok? ==> PathValue(path, initial) == AmountAt(path, initial, |path|)
    ensures PathValue(path, initial).Ok? && PathValue(path, initial).value > 0 ==>
              AmountAt(path, initial, |path|).Ok?
    decreases |path|
  {
    if path != [] {
      var first := PairReturn(path[0], initial);
      PairReturnFailsIff(path[0], initial);
      if first.Ok? {
        AmountShift(path, initial, |path|);
        BuildAgreesWithValue(path[1..], first.value);
        if first.value == 0 && |path| > 1 {
          PairReturnFailsIff(path[1], 0);
          AmountStep(path, initial, 0, initial);
          AmountStep(path, initial, 1, 0);
          AmountFails(path, initial, 2, |path|);
        }
      } else {
        AmountFails(path, initial, 1, |path|);
      }
    }
  }

  lemma {:induction false} AmountPrefix(path: Path, initial: nat, n: nat, i: nat)
    requires ValidPath(path) && i <= n <= |path|
    ensures AmountAt(path[..n], initial, i) == AmountAt(path, initial, i)
    decreases i
  {
    if i > 0 {
      AmountPrefix(path, initial, n, i - 1);
    }
  }

  /**
   Building succeeds exactly when something positive reaches the last hop and that hop can be
   swapped. A hop before the last that gives zero makes it fail, while the path value is zero.
   */
  lemma BuildSucceedsIff(path: Path, initial: nat)
    requires ValidPath(path) && path != []
    ensures var n := |path| - 1;
            var before := PathValue(path[..n], initial);
            AmountAt(path, initial, |path|).Ok? <==> before.Ok? && before.value > 0 && Liquid(path[n])
  {
    var n := |path| - 1;
    AmountPrefix(path, initial, n, n);
    BuildAgreesWithValue(path[..n], initial);
    if AmountAt(path, initial, n).Ok? {
      PairReturnFailsIff(path[n], AmountAt(path, initial, n).value);
    }
  }

  /** One unit into a pool of 1000 to 10 gives nothing: the path value is zero, and there are no actions. */
  lemma ZeroHopHasNoActions()
    ensures var pool := PoolInfo(1, ["a", "b"], [1000, 10], 0);
            var there := TokenPair(pool, 0, 1);
            var path := [there, Flip(there)];
            ValidPath(path) && PathValue(path, 1) == Ok(0) && AmountAt(path, 1, 2).Err?
  {
    var pool := PoolInfo(1, ["a", "b"], [1000, 10], 0);
    var there := TokenPair(pool, 0, 1);
    var path := [there, Flip(there)];
    assert PairReturn(there, 1) == Ok(0);
    AmountStep(path, 1, 0, 1);
    PairReturnFailsIff(Flip(there), 0);
    AmountStep(path, 1, 1, 0);
  }

  // ---------------------------------------------------------------------------
  // The simulator.

  function PositionOf(tokens: seq<Token>, t: Token): (r: Option<nat>)
    ensures r.Some? ==> r.value < |tokens| && tokens[r.value] == t
    ensures r.None? ==> t !in tokens
    ensures r.Some? ==> forall i :: 0 <= i < r.value ==> tokens[i] != t
  {
    if tokens == [] then None
    else if tokens[0] == t then Some(0)
    else
      match PositionOf(tokens[1..], t)
      case None => None
      case Some(i) => Some(i + 1)
  }

  /** One hop as the simulator does it: look the pool and both tokens up by name. */
  function SimulateHop(pools: Pools, action: SwapAction, amount: nat): (r: Option<nat>)
    requires ValidPools(pools)
  {
    if action.poolId !in pools then None
    else
      var pool := pools[action.poolId];
      var i, o := PositionOf(pool.tokens, action.tokenIn), PositionOf(pool.tokens, action.tokenOut);
      if i.None? || o.None? then None
      else
        match EstimateReturn(pool, i.value, amount, o.value)
        case Err(_) => None
        case Ok(out) => Some(out)
  }

  lemma HopAgrees(path: Path, pools: Pools, i: nat, action: SwapAction, amount: nat)
    requires FromPools(path, pools) && i < |path|
    requires action.poolId == path[i].pool.id
    requires action.tokenIn == TokenInId(path[i]) && action.tokenOut == TokenOutId(path[i])
    ensures SimulateHop(pools, action, amount) ==
            match PairReturn(path[i], amount) case Err(_) => None case Ok(out) => Some(out)
  {
    assert DistinctTokens(path[i].pool);
  }

  /** The simulator ignores the actions' own amounts and feeds each hop's output to the next. */
  function Simulate(pools: Pools, actions: seq<SwapAction>, i: nat, amount: nat): (r: Option<nat>)
    requires ValidPools(pools) && i <= |actions|
    decreases |actions| - i
  {
    if i == |actions| then Some(amount)
    else
      match SimulateHop(pools, actions[i], amount)
      case None => None
      case Some(out) => Simulate(pools, actions, i + 1, out)
  }

  method EstimateSwapViaPools(pools: Pools, actions: seq<SwapAction>, amountIn: nat) returns (r: Option<nat>)
    requires ValidPools(pools)
    ensures r == Simulate(pools, actions, 0, amountIn)
  {
    var current := amountIn;
    for i := 0 to |actions|
      invariant Simulate(pools, actions, i, current) == Simulate(pools, actions, 0, amountIn)
    {
      var out := SimulateHop(pools, actions[i], current);
      if out.None? {
        return None;
      }
      current := out.value;
    }
    return Some(current);
  }

  /** The actions name the pools and tokens of the path, hop by hop. */
  ghost predicate Follows(path: Path, actions: seq<SwapAction>)
    requires ValidPath(path)
  {
    && |actions| == |path|
    && forall i :: 0 <= i < |path| ==>
         && actions[i].poolId == path[i].pool.id
         && actions[i].tokenIn == TokenInId(path[i]) && actions[i].tokenOut == TokenOutId(path[i])
  }

  /** On the actions of a path the simulator gives exactly what building them estimates, or nothing when that fails. */
  lemma {:induction false} SimulatorAgrees(path: Path, pools: Pools, actions: seq<SwapAction>,
                                           initial: nat, i: nat, amount: nat)
    requires FromPools(path, pools) && Follows(path, actions) && i <= |path|
    requires AmountAt(path, initial, i) == Ok(amount)
    ensures Simulate(pools, actions, i, amount) ==
            match AmountAt(path, initial, |path|) case Err(_) => None case Ok(v) => Some(v)
    decreases |path| - i
  {
    if i < |path| {
      HopAgrees(path, pools, i, actions[i], amount);
      AmountStep(path, initial, i, amount);
      var next := PairReturn(path[i], amount);
      if next.Ok? {
        SimulatorAgrees(path, pools, actions, initial, i + 1, next.value);
      } else {
        AmountFails(path, initial, i + 1, |path|);
      }
    }
  }

  /** The three estimates coincide: building, simulating and the plain path value. */
  lemma EstimatesCoincide(path: Path, pools: Pools, actions: seq<SwapAction>, initial: nat, v: nat)
    requires FromPools(path, pools) && Follows(path, actions)
    ensures Simulate(pools, actions, 0, initial) == Some(v) <==> AmountAt(path, initial, |path|) == Ok(v)
    ensures Simulate(pools, actions, 0, initial) == Some(v) ==> PathValue(path, initial) == Ok(v)
    ensures PathValue(path, initial) == Ok(v) && v > 0 ==> Simulate(pools, actions, 0, initial) == Some(v)
  {
    SimulatorAgrees(path, pools, actions, initial, 0, initial);
    BuildAgreesWithValue(path, initial);
  }
}
