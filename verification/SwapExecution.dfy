/**
 The exchange contract's execution of swap actions: each action withdraws its input from the
 account, swaps it at the pool's reserves of that moment, moves those reserves, and deposits the
 output. An action that cannot do all of this rejects the whole call.
 */
module SwapExecution {
  import opened Numeric
  import opened MapSums
  import opened Amm
  import opened Dex
  import opened SwapActions

  /** The pools, and the account's deposits in the exchange. */
  datatype Exchange = Exchange(pools: Pools, account: map<Token, nat>)
  {
    predicate Valid() {
      ValidPools(pools)
    }
  }

  function Deposit(account: map<Token, nat>, t: Token): (amount: nat) {
    if t in account then account[t] else 0
  }

  /** The account after an input was withdrawn and an output deposited. */
  function Booked(account: map<Token, nat>, tokenIn: Token, amount: nat, tokenOut: Token, out: nat): map<Token, nat>
    requires amount <= Deposit(account, tokenIn)
  {
    var withdrawn := account[tokenIn := Deposit(account, tokenIn) - amount];
    withdrawn[tokenOut := Deposit(withdrawn, tokenOut) + out]
  }

  lemma BookedDeposits(account: map<Token, nat>, tokenIn: Token, amount: nat, tokenOut: Token, out: nat, t: Token)
    requires amount <= Deposit(account, tokenIn)
    ensures Deposit(Booked(account, tokenIn, amount, tokenOut, out), t) ==
            Deposit(account, t) - (if t == tokenIn then amount else 0) + (if t == tokenOut then out else 0)
  {
  }

  /** The pool after a swap: all of the input stays in it, the output leaves it. */
  function Moved(pool: PoolInfo, i: nat, amount: nat, o: nat, out: nat): (r: PoolInfo)
    requires i < |pool.amounts| && o < |pool.amounts| && i != o && out <= pool.amounts[o]
  {
    pool.(amounts := pool.amounts[i := pool.amounts[i] + amount][o := pool.amounts[o] - out])
  }

  // ---------------------------------------------------------------------------
  // One action.

  /** What a pool pays for an amount and becomes; None when it cannot, or its reserve would leave u128. */
  function SwapIn(pool: PoolInfo, tokenIn: Token, amount: nat, tokenOut: Token): (r: Option<(PoolInfo, nat)>)
    requires pool.Valid()
    ensures r.Some? ==> r.value.0.Valid() && r.value.0.id == pool.id
  {
    var i, o := PositionOf(pool.tokens, tokenIn), PositionOf(pool.tokens, tokenOut);
    if i.None? || o.None? then None
    else
      match EstimateReturn(pool, i.value, amount, o.value)
      case Err(_) => None
      case Ok(out) =>
        PairReturnFailsIff(TokenPair(pool, i.value, o.value), amount);
        if pool.amounts[i.value] + amount > U128_MAX then None
        else Some((Moved(pool, i.value, amount, o.value, out), out))
  }

  /** One action without its minimum: the exchange afterwards and the output. */
  function Pay(s: Exchange, action: SwapAction, previous: Option<nat>): (r: Option<(Exchange, nat)>)
    requires s.Valid()
    ensures r.Some? ==> r.value.0.Valid()
  {
    var amount := if action.amountIn.Some? then action.amountIn else previous;
    if amount.None? || Deposit(s.account, action.tokenIn) < amount.value || action.poolId !in s.pools then None
    else
      match SwapIn(s.pools[action.poolId], action.tokenIn, amount.value, action.tokenOut)
      case None => None
      case Some((pool, out)) =>
        Some((Exchange(s.pools[action.poolId := pool],
                       Booked(s.account, action.tokenIn, amount.value, action.tokenOut, out)), out))
  }

  function ExecuteOne(s: Exchange, action: SwapAction, previous: Option<nat>): (r: Option<(Exchange, nat)>)
    requires s.Valid()
    ensures r.Some? ==> r.value.0.Valid()
  {
    match Pay(s, action, previous)
    case None => None
    case Some((after, out)) => if out < action.minAmountOut then None else Some((after, out))
  }

  // ---------------------------------------------------------------------------
  // What one action moves.

  /** What a pool holds of a token. */
  function Reserve(pool: PoolInfo, t: Token): (r: nat) {
    var i := PositionOf(pool.tokens, t);
    if i.Some? && i.value < |pool.amounts| then pool.amounts[i.value] else 0
  }

  /** A pool takes in exactly the amount and gives out exactly what it pays, and keeps everything else. */
  lemma SwapInMoves(pool: PoolInfo, tokenIn: Token, amount: nat, tokenOut: Token, t: Token)
    requires pool.Valid() && SwapIn(pool, tokenIn, amount, tokenOut).Some?
    ensures var (after, out) := SwapIn(pool, tokenIn, amount, tokenOut).value;
            && tokenIn != tokenOut && after.tokens == pool.tokens
            && Reserve(after, t) == Reserve(pool, t) + (if t == tokenIn then amount else 0)
                                    - (if t == tokenOut then out else 0)
  {
    var i, o := PositionOf(pool.tokens, tokenIn).value, PositionOf(pool.tokens, tokenOut).value;
    PairReturnFailsIff(TokenPair(pool, i, o), amount);
  }

  /** The product of the two reserves never falls. */
  lemma SwapInKeepsProduct(pool: PoolInfo, tokenIn: Token, amount: nat, tokenOut: Token)
    requires pool.Valid() && SwapIn(pool, tokenIn, amount, tokenOut).Some?
    ensures var after := SwapIn(pool, tokenIn, amount, tokenOut).value.0;
            Reserve(after, tokenIn) * Reserve(after, tokenOut) >= Reserve(pool, tokenIn) * Reserve(pool, tokenOut)
  {
    SwapInMoves(pool, tokenIn, amount, tokenOut, tokenIn);
    SwapInMoves(pool, tokenIn, amount, tokenOut, tokenOut);
    ProductNeverFalls(Reserve(pool, tokenIn), Reserve(pool, tokenOut), pool.totalFee, amount);
  }

  ghost function Reserves(pools: Pools, t: Token): map<nat, int> {
    map id | id in pools :: Reserve(pools[id], t)
  }

  /** All there is of a token: in the account and in every pool. */
  ghost function Supply(s: Exchange, t: Token): int {
    Deposit(s.account, t) + Sum(Reserves(s.pools, t))
  }

  lemma ReservesChange(pools: Pools, id: nat, pool: PoolInfo, t: Token)
    requires id in pools
    ensures Sum(Reserves(pools[id := pool], t)) == Sum(Reserves(pools, t)) - Reserve(pools[id], t) + Reserve(pool, t)
  {
    assert Reserves(pools[id := pool], t) == Reserves(pools, t)[id := Reserve(pool, t)];
    SumUpdate(Reserves(pools, t), id, Reserve(pool, t));
  }

  /** An action only moves tokens between the account and its pool. */
  lemma PayConserves(s: Exchange, action: SwapAction, previous: Option<nat>, t: Token)
    requires s.Valid() && Pay(s, action, previous).Some?
    ensures Supply(Pay(s, action, previous).value.0, t) == Supply(s, t)
  {
    var amount := if action.amountIn.Some? then action.amountIn.value else previous.value;
    var (pool, out) := SwapIn(s.pools[action.poolId], action.tokenIn, amount, action.tokenOut).value;
    SwapInMoves(s.pools[action.poolId], action.tokenIn, amount, action.tokenOut, t);
    BookedDeposits(s.account, action.tokenIn, amount, action.tokenOut, out, t);
    ReservesChange(s.pools, action.poolId, pool, t);
  }

  // ---------------------------------------------------------------------------
  // All actions.

  datatype Settlement = Settlement(after: Exchange, out: Option<nat>)

  /** From action i on, with the output of the action before it. */
  function Execute(s: Exchange, actions: seq<SwapAction>, i: nat, previous: Option<nat>): (r: Option<Settlement>)
    requires s.Valid() && i <= |actions|
    decreases |actions| - i
  {
    if i == |actions| then Some(Settlement(s, previous))
    else
      match ExecuteOne(s, actions[i], previous)
      case None => None
      case Some((after, out)) => Execute(after, actions, i + 1, Some(out))
  }

  /** The same without minimums: what the first n actions from i on pay, each on the reserves left to it. */
  function PayAll(s: Exchange, actions: seq<SwapAction>, i: nat, previous: Option<nat>, n: nat): (r: Option<Settlement>)
    requires s.Valid() && i + n <= |actions|
    decreases n
  {
    if n == 0 then Some(Settlement(s, previous))
    else
      match Pay(s, actions[i], previous)
      case None => None
      case Some((after, out)) => PayAll(after, actions, i + 1, Some(out), n - 1)
  }

  ghost predicate Conserved(s: Exchange, r: Option<Settlement>, t: Token) {
    r.Some? ==> Supply(r.value.after, t) == Supply(s, t)
  }

  /** Whatever is accepted, no token is created or lost. */
  lemma {:induction false} ExecuteConserves(s: Exchange, actions: seq<SwapAction>, i: nat, previous: Option<nat>,
                                            t: Token)
    requires s.Valid() && i <= |actions|
    ensures Conserved(s, Execute(s, actions, i, previous), t)
    decreases |actions| - i
  {
    if i < |actions| && ExecuteOne(s, actions[i], previous).Some? {
      var (next, out) := ExecuteOne(s, actions[i], previous).value;
      PayConserves(s, actions[i], previous, t);
      ExecuteConserves(next, actions, i + 1, Some(out), t);
      assert Execute(s, actions, i, previous) == Execute(next, actions, i + 1, Some(out));
    }
  }

  /** Action i + n pays at least its minimum, on the reserves that the actions before it left. */
  ghost predicate PaysMinimum(s: Exchange, actions: seq<SwapAction>, i: nat, previous: Option<nat>, n: nat)
    requires s.Valid() && i + n < |actions|
  {
    var r := PayAll(s, actions, i, previous, n + 1);
    r.Some? && r.value.out.Some? && r.value.out.value >= actions[i + n].minAmountOut
  }

  lemma PaysMinimumShift(s: Exchange, actions: seq<SwapAction>, i: nat, previous: Option<nat>, n: nat)
    requires s.Valid() && i + n < |actions| && n > 0
    ensures PaysMinimum(s, actions, i, previous, n) <==>
              var first := Pay(s, actions[i], previous);
              first.Some? && PaysMinimum(first.value.0, actions, i + 1, Some(first.value.1), n - 1)
  {
  }

  ghost predicate AllPay(s: Exchange, actions: seq<SwapAction>, i: nat, previous: Option<nat>)
    requires s.Valid() && i <= |actions|
    decreases |actions| - i
  {
    i == |actions| ||
    var first := Pay(s, actions[i], previous);
    && first.Some? && first.value.1 >= actions[i].minAmountOut
    && AllPay(first.value.0, actions, i + 1, Some(first.value.1))
  }

  /** Executing from action i on settles as the actions pay, if all of them do. */
  ghost predicate SettlesAsPaid(s: Exchange, actions: seq<SwapAction>, i: nat, previous: Option<nat>)
    requires s.Valid() && i <= |actions|
  {
    Execute(s, actions, i, previous) ==
    if AllPay(s, actions, i, previous) then PayAll(s, actions, i, previous, |actions| - i) else None
  }

  lemma PayStep(s: Exchange, actions: seq<SwapAction>, i: nat, previous: Option<nat>, next: Exchange, out: nat)
    requires s.Valid() && next.Valid() && i < |actions| && Pay(s, actions[i], previous) == Some((next, out))
    requires SettlesAsPaid(next, actions, i + 1, Some(out))
    ensures SettlesAsPaid(s, actions, i, previous)
  {
  }

  lemma NoPayStep(s: Exchange, actions: seq<SwapAction>, i: nat, previous: Option<nat>)
    requires s.Valid() && (i == |actions| || (i < |actions| && Pay(s, actions[i], previous).None?))
    ensures SettlesAsPaid(s, actions, i, previous)
  {
  }

  lemma {:induction false} ExecuteAllPay(s: Exchange, actions: seq<SwapAction>, i: nat, previous: Option<nat>)
    requires s.Valid() && i <= |actions|
    ensures SettlesAsPaid(s, actions, i, previous)
    decreases |actions| - i
  {
    if i == |actions| || Pay(s, actions[i], previous).None? {
      NoPayStep(s, actions, i, previous);
    } else {
      var (next, out) := Pay(s, actions[i], previous).value;
      ExecuteAllPay(next, actions, i + 1, Some(out));
      PayStep(s, actions, i, previous, next, out);
    }
  }

  lemma {:induction false} AllPayEach(s: Exchange, actions: seq<SwapAction>, i: nat, previous: Option<nat>, n: nat)
    requires s.Valid() && i + n < |actions| && AllPay(s, actions, i, previous)
    ensures PaysMinimum(s, actions, i, previous, n)
    decreases n
  {
    var first := Pay(s, actions[i], previous);
    if n > 0 {
      AllPayEach(first.value.0, actions, i + 1, Some(first.value.1), n - 1);
      PaysMinimumShift(s, actions, i, previous, n);
    } else {
      assert PayAll(first.value.0, actions, i + 1, Some(first.value.1), 0).Some?;
    }
  }

  lemma FirstPays(s: Exchange, actions: seq<SwapAction>, i: nat, previous: Option<nat>)
    requires s.Valid() && i < |actions| && PaysMinimum(s, actions, i, previous, 0)
    ensures Pay(s, actions[i], previous).Some?
    ensures Pay(s, actions[i], previous).value.1 >= actions[i].minAmountOut
  {
    var first := Pay(s, actions[i], previous);
    if first.Some? {
      assert PayAll(first.value.0, actions, i + 1, Some(first.value.1), 0) ==
             Some(Settlement(first.value.0, Some(first.value.1)));
    }
  }

  lemma RestPays(s: Exchange, actions: seq<SwapAction>, i: nat, previous: Option<nat>,
                 next: Exchange, k: nat, out: Option<nat>)
    requires s.Valid() && next.Valid() && i < |actions| && k == i + 1
    requires out.Some? && Pay(s, actions[i], previous) == Some((next, out.value))
    requires forall n :: 0 <= n < |actions| - i ==> PaysMinimum(s, actions, i, previous, n)
    ensures forall n :: 0 <= n < |actions| - k ==> PaysMinimum(next, actions, k, out, n)
  {
    forall n | 0 <= n < |actions| - k ensures PaysMinimum(next, actions, k, out, n) {
      assert PaysMinimum(s, actions, i, previous, n + 1);
      PaysMinimumShift(s, actions, i, previous, n + 1);
    }
  }

  lemma {:induction false} EachPaysAll(s: Exchange, actions: seq<SwapAction>, i: nat, previous: Option<nat>)
    requires s.Valid() && i <= |actions|
    requires forall n :: 0 <= n < |actions| - i ==> PaysMinimum(s, actions, i, previous, n)
    ensures AllPay(s, actions, i, previous)
    decreases |actions| - i
  {
    if i < |actions| {
      FirstPays(s, actions, i, previous);
      var (next, out) := Pay(s, actions[i], previous).value;
      RestPays(s, actions, i, previous, next, i + 1, Some(out));
      EachPaysAll(next, actions, i + 1, Some(out));
    }
  }

  /** Every action pays its minimum on the reserves that the ones before it left. */
  ghost predicate EachPays(s: Exchange, actions: seq<SwapAction>)
    requires s.Valid()
  {
    forall n :: 0 <= n < |actions| ==> PaysMinimum(s, actions, 0, None, n)
  }

  lemma AllPayIff(s: Exchange, actions: seq<SwapAction>)
    requires s.Valid()
    ensures AllPay(s, actions, 0, None) <==> EachPays(s, actions)
  {
    if AllPay(s, actions, 0, None) {
      forall n | 0 <= n < |actions| ensures PaysMinimum(s, actions, 0, None, n) {
        AllPayEach(s, actions, 0, None, n);
      }
    }
    if EachPays(s, actions) {
      EachPaysAll(s, actions, 0, None);
    }
  }

  /** The contract accepts actions exactly when each pays, pools used again or not; it then settles as they pay. */
  lemma ContractAcceptsIff(s: Exchange, actions: seq<SwapAction>)
    requires s.Valid()
    ensures Execute(s, actions, 0, None) ==
            if EachPays(s, actions) then PayAll(s, actions, 0, None, |actions|) else None
    ensures EachPays(s, actions) ==> PayAll(s, actions, 0, None, |actions|).Some?
  {
    AllPayIff(s, actions);
    ExecuteAllPay(s, actions, 0, None);
    if EachPays(s, actions) && actions != [] {
      assert PaysMinimum(s, actions, 0, None, |actions| - 1);
    }
  }

  // ---------------------------------------------------------------------------
  // A path that uses every pool once.

  ghost predicate DistinctPools(path: Path) {
    forall a, b :: 0 <= a < b < |path| ==> path[a].pool.id != path[b].pool.id
  }

  /** Each hop takes the token the one before it gives. */
  ghost predicate Connected(path: Path)
    requires ValidPath(path)
  {
    forall j :: 0 < j < |path| ==> TokenInId(path[j]) == TokenOutId(path[j - 1])
  }

  /** The pools of hops i and later are still as the path lists them. */
  ghost predicate Untouched(pools: Pools, path: Path, i: nat) {
    forall j :: i <= j < |path| ==> path[j].pool.id in pools && pools[path[j].pool.id] == path[j].pool
  }

  /** The input reserve of hop i has room for what reaches it. */
  predicate HasRoom(path: Path, initial: nat, i: nat)
    requires ValidPath(path) && i < |path|
  {
    AmountAt(path, initial, i).Ok? ==>
      path[i].pool.amounts[path[i].tokenIn] + AmountAt(path, initial, i).value <= U128_MAX
  }

  lemma PositionIn(pair: TokenPair)
    requires pair.Valid() && DistinctTokens(pair.pool)
    ensures PositionOf(pair.pool.tokens, TokenInId(pair)) == Some(pair.tokenIn)
    ensures PositionOf(pair.pool.tokens, TokenOutId(pair)) == Some(pair.tokenOut)
  {
  }

  /** A pool that is as listed pays the hop's estimate, when it has room for the input. */
  lemma SwapInHop(pair: TokenPair, amount: nat, out: nat)
    requires pair.Valid() && DistinctTokens(pair.pool) && PairReturn(pair, amount) == Ok(out)
    ensures var r := SwapIn(pair.pool, TokenInId(pair), amount, TokenOutId(pair));
            if pair.pool.amounts[pair.tokenIn] + amount <= U128_MAX then
              r.Some? && r.value.1 == out && r.value.0.id == pair.pool.id
            else r.None?
  {
    PositionIn(pair);
  }

  /** A valid path over pools without repeated tokens, each pool used once, with the actions built for it. */
  ghost predicate IsBuilt(path: Path, initial: nat, minOut: nat, actions: seq<SwapAction>) {
    && ValidPath(path) && DistinctPools(path) && Connected(path)
    && (forall j :: 0 <= j < |path| ==> DistinctTokens(path[j].pool))
    && AmountAt(path, initial, |path|).Ok? && AreActions(path, initial, minOut, |path|, actions)
  }

  /** Action i can go through: its input is deposited, its pool has room, and the last one meets the minimum. */
  ghost predicate HopFits(path: Path, account: map<Token, nat>, initial: nat, minOut: nat,
                          i: nat, amount: nat, out: nat)
    requires ValidPath(path) && i < |path|
  {
    && amount <= Deposit(account, TokenInId(path[i])) && HasRoom(path, initial, i)
    && (i == |path| - 1 ==> out >= minOut)
  }

  lemma BuiltAction(path: Path, initial: nat, minOut: nat, actions: seq<SwapAction>, i: nat)
    requires IsBuilt(path, initial, minOut, actions) && i < |path|
    ensures actions[i] == SwapAction(path[i].pool.id, TokenInId(path[i]), if i == 0 then Some(initial) else None,
                                     TokenOutId(path[i]), if i == |path| - 1 then minOut else 0)
  {
    ActionShape(path, initial, minOut, actions, i);
  }

  lemma PayHop(s: Exchange, path: Path, initial: nat, minOut: nat, actions: seq<SwapAction>,
               i: nat, amount: nat, out: nat)
    requires s.Valid() && IsBuilt(path, initial, minOut, actions) && i < |path| && Untouched(s.pools, path, i)
    requires AmountAt(path, initial, i) == Ok(amount) && AmountAt(path, initial, i + 1) == Ok(out)
    ensures var r := Pay(s, actions[i], if i == 0 then None else Some(amount));
            if amount <= Deposit(s.account, TokenInId(path[i])) && HasRoom(path, initial, i) then
              && r.Some? && r.value.1 == out && Untouched(r.value.0.pools, path, i + 1)
              && r.value.0.account == Booked(s.account, TokenInId(path[i]), amount, TokenOutId(path[i]), out)
            else r.None?
  {
    BuiltAction(path, initial, minOut, actions, i);
    AmountStep(path, initial, i, amount);
    SwapInHop(path[i], amount, out);
  }

  lemma ExecuteHop(s: Exchange, path: Path, initial: nat, minOut: nat, actions: seq<SwapAction>,
                   i: nat, amount: nat, out: nat)
    requires s.Valid() && IsBuilt(path, initial, minOut, actions) && i < |path| && Untouched(s.pools, path, i)
    requires AmountAt(path, initial, i) == Ok(amount) && AmountAt(path, initial, i + 1) == Ok(out)
    ensures var r := ExecuteOne(s, actions[i], if i == 0 then None else Some(amount));
            if HopFits(path, s.account, initial, minOut, i, amount, out) then
              && r.Some? && r.value.1 == out && Untouched(r.value.0.pools, path, i + 1)
              && r.value.0.account == Booked(s.account, TokenInId(path[i]), amount, TokenOutId(path[i]), out)
            else r.None?
  {
    PayHop(s, path, initial, minOut, actions, i, amount, out);
    BuiltAction(path, initial, minOut, actions, i);
  }

  /** Nothing but the two ends of the path changes in the account. */
  ghost predicate Exchanged(before: map<Token, nat>, after: map<Token, nat>, tokenIn: Token, amount: nat,
                            tokenOut: Token, out: nat) {
    forall t :: Deposit(after, t) == Deposit(before, t) - (if t == tokenIn then amount else 0)
                                     + (if t == tokenOut then out else 0)
  }

  ghost predicate RoomFrom(path: Path, initial: nat, i: nat)
    requires ValidPath(path)
  {
    forall j :: i <= j < |path| ==> HasRoom(path, initial, j)
  }

  /** What executing from hop i on comes to, with `amount` deposited for it. */
  ghost predicate SettlesFrom(r: Option<Settlement>, s: Exchange, path: Path, initial: nat, minOut: nat,
                              i: nat, amount: nat)
    requires ValidPath(path) && i < |path| && AmountAt(path, initial, |path|).Ok?
  {
    var out, last := AmountAt(path, initial, |path|).value, path[|path| - 1];
    if RoomFrom(path, initial, i) && out >= minOut then
      && r.Some? && r.value.out == Some(out)
      && Exchanged(s.account, r.value.after.account, TokenInId(path[i]), amount, TokenOutId(last), out)
    else r.None?
  }

  lemma AmountOk(path: Path, initial: nat, i: nat)
    requires ValidPath(path) && i <= |path| && AmountAt(path, initial, |path|).Ok?
    ensures AmountAt(path, initial, i).Ok?
  {
    if AmountAt(path, initial, i).Err? {
      AmountFails(path, initial, i, |path|);
    }
  }

  lemma ExchangedJoin(a: map<Token, nat>, b: map<Token, nat>, c: map<Token, nat>,
                      t: Token, amount: nat, u: Token, middle: nat, v: Token, out: nat)
    requires Exchanged(a, b, t, amount, u, middle) && Exchanged(b, c, u, middle, v, out)
    ensures Exchanged(a, c, t, amount, v, out)
  {
  }

  lemma BookedExchanged(account: map<Token, nat>, t: Token, amount: nat, u: Token, out: nat)
    requires amount <= Deposit(account, t)
    ensures Exchanged(account, Booked(account, t, amount, u, out), t, amount, u, out)
    ensures out <= Deposit(Booked(account, t, amount, u, out), u)
  {
    forall x {
      BookedDeposits(account, t, amount, u, out, x);
    }
  }

  /** What follows hop i settles it. */
  lemma SettlesBefore(r: Option<Settlement>, s: Exchange, after: Exchange, path: Path, initial: nat, minOut: nat,
                      i: nat, amount: nat, out: nat)
    requires ValidPath(path) && Connected(path) && i + 1 < |path| && AmountAt(path, initial, |path|).Ok?
    requires HasRoom(path, initial, i) && SettlesFrom(r, after, path, initial, minOut, i + 1, out)
    requires Exchanged(s.account, after.account, TokenInId(path[i]), amount, TokenOutId(path[i]), out)
    ensures SettlesFrom(r, s, path, initial, minOut, i, amount)
  {
    assert RoomFrom(path, initial, i) <==> RoomFrom(path, initial, i + 1);
    if r.Some? {
      var last := path[|path| - 1];
      ExchangedJoin(s.account, after.account, r.value.after.account, TokenInId(path[i]), amount,
                    TokenOutId(path[i]), out, TokenOutId(last), AmountAt(path, initial, |path|).value);
    }
  }

  /** Hop i is executed and leaves the rest to do, unless it does not fit. */
  lemma HopThenRest(s: Exchange, path: Path, initial: nat, minOut: nat, actions: seq<SwapAction>,
                    i: nat, amount: nat, previous: Option<nat>, out: nat) returns (after: Option<Exchange>)
    requires s.Valid() && IsBuilt(path, initial, minOut, actions) && i < |path| && Untouched(s.pools, path, i)
    requires AmountAt(path, initial, i) == Ok(amount) && AmountAt(path, initial, i + 1) == Ok(out)
    requires previous == if i == 0 then None else Some(amount)
    ensures after.Some? <==> HopFits(path, s.account, initial, minOut, i, amount, out)
    ensures after.None? ==> Execute(s, actions, i, previous).None?
    ensures after.Some? ==>
              && after.value.Valid() && Untouched(after.value.pools, path, i + 1)
              && Exchanged(s.account, after.value.account, TokenInId(path[i]), amount, TokenOutId(path[i]), out)
              && out <= Deposit(after.value.account, TokenOutId(path[i]))
              && Execute(s, actions, i, previous) == Execute(after.value, actions, i + 1, Some(out))
  {
    ExecuteHop(s, path, initial, minOut, actions, i, amount, out);
    var one := ExecuteOne(s, actions[i], previous);
    after := None;
    if one.Some? {
      BookedExchanged(s.account, TokenInId(path[i]), amount, TokenOutId(path[i]), out);
      after := Some(one.value.0);
    }
  }

  lemma {:induction false} SettleFrom(s: Exchange, path: Path, initial: nat, minOut: nat, actions: seq<SwapAction>,
                                      i: nat, amount: nat, previous: Option<nat>)
    requires s.Valid() && IsBuilt(path, initial, minOut, actions) && i < |path| && Untouched(s.pools, path, i)
    requires AmountAt(path, initial, i) == Ok(amount) && amount <= Deposit(s.account, TokenInId(path[i]))
    requires previous == if i == 0 then None else Some(amount)
    ensures SettlesFrom(Execute(s, actions, i, previous), s, path, initial, minOut, i, amount)
    decreases |path| - i
  {
    AmountOk(path, initial, i + 1);
    var out := AmountAt(path, initial, i + 1).value;
    var after := HopThenRest(s, path, initial, minOut, actions, i, amount, previous, out);
    if after.Some? && i + 1 < |path| {
      SettleFrom(after.value, path, initial, minOut, actions, i + 1, out, Some(out));
      SettlesBefore(Execute(s, actions, i, previous), s, after.value, path, initial, minOut, i, amount, out);
    }
  }

  /**
   With every pool used once, the contract pays exactly the built estimate, and changes the account by exactly
   that exchange, if and only if the input is deposited, every pool has room for its input and the estimate meets
   the minimum. Otherwise it rejects the call.
   */
  lemma DistinctPoolsSettleIff(s: Exchange, path: Path, initial: nat, minOut: nat, actions: seq<SwapAction>)
    requires s.Valid() && FromPools(path, s.pools) && path != [] && IsBuilt(path, initial, minOut, actions)
    ensures var r := Execute(s, actions, 0, None);
            var out := AmountAt(path, initial, |path|).value;
            && (r.Some? <==>
                  && initial <= Deposit(s.account, TokenInId(path[0]))
                  && RoomFrom(path, initial, 0) && out >= minOut)
            && (r.Some? ==>
                  && r.value.out == Some(out)
                  && Exchanged(s.account, r.value.after.account, TokenInId(path[0]), initial,
                               TokenOutId(path[|path| - 1]), out))
  {
    if initial <= Deposit(s.account, TokenInId(path[0])) {
      SettleFrom(s, path, initial, minOut, actions, 0, initial, None);
    } else {
      AmountOk(path, initial, 1);
      ExecuteHop(s, path, initial, minOut, actions, 0, initial, AmountAt(path, initial, 1).value);
    }
  }

  // ---------------------------------------------------------------------------
  // Paths that use a pool again.

  lemma FirstBelowMinimum(s: Exchange, actions: seq<SwapAction>)
    requires s.Valid() && actions != []
    requires var first := Pay(s, actions[0], None); first.Some? ==> first.value.1 < actions[0].minAmountOut
    ensures Execute(s, actions, 0, None).None?
  {
  }

  /** The first of the actions pays three, or nothing when its input is not deposited. */
  lemma FirstPaysThree(pool: PoolInfo, account: map<Token, nat>)
    requires pool == PoolInfo(1, ["a", "b"], [1000, 10], 0)
    ensures PairReturn(TokenPair(pool, 0, 1), 500) == Ok(3)
    ensures var first := Pay(Exchange(map[1 := pool], account), SwapAction(1, "a", Some(500), "b", 200), None);
            first.Some? ==> first.value.1 == 3
  {
    SwapInHop(TokenPair(pool, 0, 1), 500, 3);
  }

  lemma ThereAndBack(pool: PoolInfo, path: Path, actions: seq<SwapAction>)
    requires pool == PoolInfo(1, ["a", "b"], [1000, 10], 0)
    requires path == [TokenPair(pool, 0, 1), TokenPair(pool, 1, 0)]
    requires actions == [SwapAction(1, "a", Some(500), "b", 200), SwapAction(1, "b", Some(3), "a", 200)]
    ensures FromPools(path, map[1 := pool]) && AreActions(path, 500, 200, 2, actions)
    ensures AmountAt(path, 500, 2) == Ok(230)
  {
    assert PairReturn(path[0], 500) == Ok(3) && PairReturn(path[1], 3) == Ok(230);
    AmountStep(path, 500, 0, 500);
    AmountStep(path, 500, 1, 3);
  }

  /**
   There and back through one pool with a minimum of 200: the first hop gives 3 and carries the
   minimum too, so the contract rejects actions whose estimate is 230, whatever is deposited.
   */
  lemma RepeatedPoolRejected(account: map<Token, nat>)
    ensures var pool := PoolInfo(1, ["a", "b"], [1000, 10], 0);
            var path := [TokenPair(pool, 0, 1), TokenPair(pool, 1, 0)];
            var actions := [SwapAction(1, "a", Some(500), "b", 200), SwapAction(1, "b", Some(3), "a", 200)];
            && FromPools(path, map[1 := pool]) && AreActions(path, 500, 200, 2, actions)
            && AmountAt(path, 500, 2) == Ok(230)
            && Execute(Exchange(map[1 := pool], account), actions, 0, None).None?
  {
    var pool := PoolInfo(1, ["a", "b"], [1000, 10], 0);
    var path := [TokenPair(pool, 0, 1), TokenPair(pool, 1, 0)];
    var actions := [SwapAction(1, "a", Some(500), "b", 200), SwapAction(1, "b", Some(3), "a", 200)];
    ThereAndBack(pool, path, actions);
    FirstPaysThree(pool, account);
    FirstBelowMinimum(Exchange(map[1 := pool], account), actions);
  }

  /** The three hops of a path that comes back to its first pool. */
  function ReturningPath(): (path: Path) {
    var first, second := PoolInfo(1, ["a", "b"], [1000, 1000], 0), PoolInfo(2, ["b", "a"], [1000, 1000], 0);
    [TokenPair(first, 0, 1), TokenPair(second, 0, 1), TokenPair(first, 0, 1)]
  }

  function ReturningActions(): (actions: seq<SwapAction>) {
    [SwapAction(1, "a", Some(500), "b", 150), SwapAction(2, "b", None, "a", 0),
     SwapAction(1, "a", Some(249), "b", 150)]
  }

  lemma ReturningReturns()
    ensures var path := ReturningPath();
            && PairReturn(path[0], 500) == Ok(333) && PairReturn(path[1], 333) == Ok(249)
            && PairReturn(path[2], 249) == Ok(199)
  {
  }

  lemma ReturningIsBuilt()
    ensures var path := ReturningPath();
            && FromPools(path, ReturningExchange().pools)
            && AmountAt(path, 500, 3) == Ok(199) && AreActions(path, 500, 150, 3, ReturningActions())
  {
    var path := ReturningPath();
    ReturningReturns();
    AmountStep(path, 500, 0, 500);
    AmountStep(path, 500, 1, 333);
    AmountStep(path, 500, 2, 249);
  }

  /** An action on a pool that is as listed: what it pays, and what it leaves. */
  lemma PayListed(s: Exchange, action: SwapAction, previous: Option<nat>, pair: TokenPair, amount: nat, out: nat)
    requires s.Valid() && action.poolId in s.pools && s.pools[action.poolId] == pair.pool
    requires pair.Valid() && DistinctTokens(pair.pool) && PairReturn(pair, amount) == Ok(out)
    requires action.tokenIn == TokenInId(pair) && action.tokenOut == TokenOutId(pair)
    requires Some(amount) == if action.amountIn.Some? then action.amountIn else previous
    requires amount <= Deposit(s.account, action.tokenIn)
    requires pair.pool.amounts[pair.tokenIn] + amount <= U128_MAX
    ensures var r := Pay(s, action, previous);
            && r.Some? && r.value.1 == out && pair.tokenIn != pair.tokenOut && out <= pair.pool.amounts[pair.tokenOut]
            && r.value.0.pools == s.pools[action.poolId :=
                                          Moved(pair.pool, pair.tokenIn, amount, pair.tokenOut, out)]
            && r.value.0.account == Booked(s.account, action.tokenIn, amount, action.tokenOut, out)
  {
    PositionIn(pair);
    PairReturnFailsIff(pair, amount);
  }

  /** Three actions, each paid on what the ones before it left. */
  lemma ThreeActions(s: Exchange, actions: seq<SwapAction>, a: (Exchange, nat), b: (Exchange, nat), c: (Exchange, nat))
    requires |actions| == 3 && s.Valid() && a.0.Valid() && b.0.Valid() && c.0.Valid()
    requires Pay(s, actions[0], None) == Some(a) && Pay(a.0, actions[1], Some(a.1)) == Some(b)
    requires Pay(b.0, actions[2], Some(b.1)) == Some(c) && c.1 < actions[2].minAmountOut
    ensures PayAll(s, actions, 0, None, 3) == Some(Settlement(c.0, Some(c.1)))
    ensures Execute(s, actions, 0, None).None?
  {
    assert PayAll(c.0, actions, 3, Some(c.1), 0) == Some(Settlement(c.0, Some(c.1)));
    assert PayAll(b.0, actions, 2, Some(b.1), 1) == Some(Settlement(c.0, Some(c.1)));
    assert PayAll(a.0, actions, 1, Some(a.1), 2) == Some(Settlement(c.0, Some(c.1)));
    assert Execute(b.0, actions, 2, Some(b.1)).None?;
    assert Execute(a.0, actions, 1, Some(a.1)).None?;
  }

  /** The pools of the path, and its input deposited. */
  function ReturningExchange(): (s: Exchange)
    ensures s.Valid()
  {
    Exchange(map[1 := ReturningPath()[0].pool, 2 := ReturningPath()[1].pool], map["a" := 500])
  }

  /** The first of the actions leaves its pool at 1500 to 667, and 333 of its output deposited. */
  lemma ReturningFirst(s: Exchange, action: SwapAction) returns (a: (Exchange, nat))
    requires s == ReturningExchange() && action == SwapAction(1, "a", Some(500), "b", 150)
    ensures a.0.Valid() && a.1 == 333 && Pay(s, action, None) == Some(a)
    ensures a.0.pools == s.pools[1 := PoolInfo(1, ["a", "b"], [1500, 667], 0)]
    ensures Deposit(a.0.account, "a") == 0 && Deposit(a.0.account, "b") == 333
  {
    ReturningReturns();
    PayListed(s, action, None, ReturningPath()[0], 500, 333);
    assert Moved(ReturningPath()[0].pool, 0, 500, 1, 333) == PoolInfo(1, ["a", "b"], [1500, 667], 0);
    a := Pay(s, action, None).value;
    BookedDeposits(s.account, "a", 500, "b", 333, "a");
    BookedDeposits(s.account, "a", 500, "b", 333, "b");
  }

  /** The second turns these into 249 of what the last one takes. */
  lemma ReturningSecond(s: Exchange, action: SwapAction) returns (b: (Exchange, nat))
    requires s.Valid() && action == SwapAction(2, "b", None, "a", 0)
    requires 2 in s.pools && s.pools[2] == ReturningPath()[1].pool
    requires Deposit(s.account, "a") == 0 && Deposit(s.account, "b") == 333
    ensures b.0.Valid() && b.1 == 249 && Pay(s, action, Some(333)) == Some(b)
    ensures 1 in s.pools ==> 1 in b.0.pools && b.0.pools[1] == s.pools[1]
    ensures Deposit(b.0.account, "a") == 249
  {
    ReturningReturns();
    PayListed(s, action, Some(333), ReturningPath()[1], 333, 249);
    b := Pay(s, action, Some(333)).value;
    BookedDeposits(s.account, "b", 333, "a", 249, "a");
  }

  /** The last of the actions, on the pool the first one moved. */
  lemma ReturningLast(s: Exchange, action: SwapAction) returns (c: (Exchange, nat))
    requires s.Valid() && action == SwapAction(1, "a", Some(249), "b", 150) && Deposit(s.account, "a") == 249
    requires 1 in s.pools && s.pools[1] == PoolInfo(1, ["a", "b"], [1500, 667], 0)
    ensures c.0.Valid() && c.1 == 94 && Pay(s, action, Some(249)) == Some(c)
  {
    var moved := TokenPair(s.pools[1], 0, 1);
    assert PairReturn(moved, 249) == Ok(94);
    PayListed(s, action, Some(249), moved, 249, 94);
    c := Pay(s, action, Some(249)).value;
  }

  /**
   Every hop's estimate meets the minimum of 150, and the contract still rejects: the first hop leaves its pool at
   1500 to 667, on which the last hop pays 94 instead of 199.
   */
  lemma MovedReservesReject(s: Exchange, actions: seq<SwapAction>)
    requires s == ReturningExchange() && actions == ReturningActions()
    ensures Execute(s, actions, 0, None).None?
    ensures var paid := PayAll(s, actions, 0, None, 3); paid.Some? && paid.value.out == Some(94)
  {
    var a := ReturningFirst(s, actions[0]);
    var b := ReturningSecond(a.0, actions[1]);
    var c := ReturningLast(b.0, actions[2]);
    ThreeActions(s, actions, a, b, c);
  }

  // ---------------------------------------------------------------------------
  // Slippage protection.

  datatype SlippagePolicy = FromExpectedReturn(ratio: real) | Unprotected

  const MIN_SLIPPAGE_BUDGET: real := 0.005
  const MAX_SLIPPAGE_BUDGET: real := 0.15

  /** The size of the ratio, or the nearer limit when it lies outside. */
  function Budget(ratio: real): (b: real)
    ensures 0.005 <= b <= 0.15
    ensures 0.005 < b < 0.15 ==> b == ratio || b == -ratio
    ensures b == 0.005 <==> -0.005 <= ratio <= 0.005
    ensures b == 0.15 <==> ratio <= -0.15 || 0.15 <= ratio
  {
    var size := if ratio < 0.0 then -ratio else ratio;
    if size < MIN_SLIPPAGE_BUDGET then MIN_SLIPPAGE_BUDGET
    else if size > MAX_SLIPPAGE_BUDGET then MAX_SLIPPAGE_BUDGET else size
  }

  /** Share of the estimate that is protected, in basis points. */
  function ProtectionBps(ratio: real): (bps: nat)
    ensures 8_500 <= bps <= 9_950
    ensures (10_000 - bps) as real <= Budget(ratio) * 10_000.0 < (10_001 - bps) as real
  {
    var slippage := (Budget(ratio) * 10_000.0).Floor;
    assert 50.0 <= Budget(ratio) * 10_000.0 <= 1_500.0;
    10_000 - slippage
  }

  /** None when the product leaves u128. Of an estimate of at most one unit nothing is protected. */
  function CalculateMinOut(estimated: nat, policy: SlippagePolicy): (r: Option<nat>)
    ensures policy.Unprotected? ==> r == Some(0)
    ensures policy.FromExpectedReturn? ==> (r.None? <==> estimated * ProtectionBps(policy.ratio) > U128_MAX)
    ensures r.Some? ==> r.value <= estimated
    ensures policy.FromExpectedReturn? && r.Some? ==>
              10_000 * r.value <= estimated * ProtectionBps(policy.ratio) < 10_000 * (r.value + 1)
    ensures policy.FromExpectedReturn? && r.Some? ==>
              10_000 * r.value <= 9_950 * estimated && 10_000 * (r.value + 1) > 8_500 * estimated
    ensures policy.FromExpectedReturn? && r.Some? ==> (r.value == 0 <==> estimated <= 1)
  {
    match policy
    case Unprotected => Some(0)
    case FromExpectedReturn(ratio) =>
      var bps := ProtectionBps(ratio);
      MulMonotone(bps, 9_950, estimated);
      MulMonotone(8_500, bps, estimated);
      if estimated * bps <= U128_MAX then Some(estimated * bps / 10_000) else None
  }

  /**
   The whole of a protected swap, with every pool used once: on pools still as listed, with the input deposited and
   room for it, the actions built with the minimum derived from the path value are accepted, pay out exactly that
   value, and change the account by exactly this exchange.
   */
  lemma ProtectedSwapSucceeds(s: Exchange, path: Path, initial: nat, policy: SlippagePolicy, actions: seq<SwapAction>)
    requires s.Valid() && FromPools(path, s.pools) && path != [] && DistinctPools(path) && Connected(path)
    requires PathValue(path, initial).Ok? && PathValue(path, initial).value > 0
    requires var minOut := CalculateMinOut(PathValue(path, initial).value, policy);
             minOut.Some? && AreActions(path, initial, minOut.value, |path|, actions)
    requires initial <= Deposit(s.account, TokenInId(path[0])) && RoomFrom(path, initial, 0)
    ensures var r := Execute(s, actions, 0, None);
            && r.Some? && r.value.out == Some(PathValue(path, initial).value)
            && Exchanged(s.account, r.value.after.account, TokenInId(path[0]), initial,
                         TokenOutId(path[|path| - 1]), PathValue(path, initial).value)
  {
    var minOut := CalculateMinOut(PathValue(path, initial).value, policy).value;
    BuildAgreesWithValue(path, initial);
    DistinctPoolsSettleIff(s, path, initial, minOut, actions);
  }
}
