# Verified model of the trading bot's core

A Dafny model of the parts of a NEAR / REF Finance trading bot whose correctness spans
several functions or whole runs. Objects that the program updates in place are classes, its
loops are methods with invariants, its pure code is functions; each method is proved
against a value-level specification about which the laws are proved.

| file | what it models |
|---|---|
| `Combinations.dfy`, `Exhaustive.dfy`, `Drawdown.dfy` | the k-subset iterator, the memoised exhaustive optimizer with its filter loop, maximum drawdown |
| `Ledger.dfy`, `PortfolioState.dfy`, `MapSums.dfy` | the simulation portfolio: cash, holdings, cost basis, realized P&L |
| `PathSearch.dfy` | the memoised three-point search for the best input amount |
| `StoragePlanner.dfy`, `StorageSetup.dfy`, `StorageProtocol.dfy`, `StorageRefinement.dfy` | the REF storage planner, one storage call against arbitrary responses, any number of concurrent calls on one account, and the first as a run of the second |
| `Amm.dfy`, `Dex.dfy`, `SwapActions.dfy`, `SwapExecution.dfy` | constant-product pricing, multi-hop paths, swap actions and the simulator's estimate, the contract's execution on reserves that move with every hop, slippage |
| `Allocation.dfy`, `Matching.dfy` | splitting balances over positions and purchases, matching sales with purchases |
| `RateHistory.dfy` | fallback paths and the price-impact correction of recorded rates |
| `EndpointPool.dfy`, `RpcRetry.dfy` | endpoint selection and the retry loops of an RPC call |
| `Numeric.dfy`, `Selections.dfy` | integer ranges, options, results and small arithmetic facts; choosing elements of a sequence in their order |

## How the program's values are modelled

- `BigDecimal` and `f64` values are exact (`real` or integers); u128, i128, u32 and u16 are
  integers with the range written out wherever the program converts, saturates or checks.
- The numeric optimizer and its score, route evaluation, rates, clocks, random draws and the
  outcome of every request or transaction are parameters, so every statement holds for all of them.
- Where the program iterates over a map, any order is covered.
- The storage contract follows `storage_deposit` of NEP-145 as described in section 2.2 of
  the repository's contract notes. Swaps follow sections 1.2 and 1.3 of the same notes: each action
  withdraws its input from the account, is priced on the pool's reserves of that moment, moves
  them, and deposits its output, and one failing action rejects the call.

## Where the code differs from what one might expect

- The search's divisor 2 is two yocto in the MicroNear instance, which is zero MicroNear, and
  division by zero gives zero. So in production every step is zero and the search only compares
  min, average and max (`PathSearch.MicroStep`, `PathSearch.NoStepIsOneRound`).
- Gains are compared in whole MicroNear as u64. Gains less than a MicroNear apart can tie, so that
  the worse input is answered, and gains below one MicroNear count as nothing
  (`PathSearch.WorseInputWins`, `PathSearch.GainsNotSeen`). `PathSearch.BestInYoctoIff` says exactly
  when the answer is the best in yocto: when nothing within its own whole MicroNear gains more.
- The plain integer instance of the search (used by unit tests) can subtract below zero in a
  left move. `PathSearch.CanClip` is the exact condition on the start, with both directions in
  `PathSearch.SafeStartNeverClips` and `PathSearch.ClippingStartClips`.
- The accounting equation breaks for an uneven WNEAR-to-WNEAR swap, for gains that leave i128 and
  for the liquidation of a holding above u128 that has a cost. `Ledger.StepFits` is the exact
  condition on each operation; `Ledger.SelfSwapBreaksBooks` and
  `Ledger.LargeLiquidationBreaksBooks` give inputs.
- `build_swap_actions` recognises the first and the last hop by pool id. A path through the last
  pool twice carries `min_out` on both hops (`SwapExecution.RepeatedPoolRejected`), and the estimate
  prices the second visit on reserves that the first has moved, so that the contract pays less
  (`SwapExecution.MovedReservesReject`). `SwapExecution.ContractAcceptsIff` says exactly when the
  contract accepts any actions, and `SwapExecution.DistinctPoolsSettleIff` that a path through
  different pools is paid exactly its estimate.
- The minimum output of a protected swap is rounded down, so an estimate of one unit is protected
  by a minimum of zero, as if it were unprotected (`SwapExecution.CalculateMinOut`).
- A storage call that reads a stale balance can send an initial deposit for an account that is
  already registered; the contract refunds it (`StorageProtocol.StaleReadIsRefunded`).
- The planner's comments describe a cost per token of zero right after the first registration.
  The code raises the cost to the account minimum, and the model follows the code.
- `calc_value` returns zero as soon as a hop gives zero, while building actions then fails on the
  next hop; `BuildSucceedsIff` says exactly when, and `ZeroHopHasNoActions` shows a path.

## Model

| member | source | states |
|---|---|---|
| `Combinations.BumpIsImmediate` | crates/common/src/algorithm/portfolio.rs:1132-1161 | no combination lies strictly between an item and the one the iterator makes of it |
| `Combinations.BumpIsCombination` | crates/common/src/algorithm/portfolio.rs:1149-1158 | raising a position below its ceiling and refilling gives a larger combination |
| `Combinations.SaturatedIsGreatest` | crates/common/src/algorithm/portfolio.rs:1142-1152 | an item the iterator cannot raise any more is the last one |
| `Combinations.InitialIsLeast` | crates/common/src/algorithm/portfolio.rs:1118-1127 | 0, 1, …, k - 1 is the first one |
| `Combinations.ExtendRun` | crates/common/src/algorithm/portfolio.rs:1132-1161 | a run that holds exactly the combinations up to its last item stays so when the next one is added, and never repeats |
| `Combinations.CombinationCount` | crates/common/src/algorithm/portfolio.rs:1110-1127 | there are exactly C(n, k) combinations |
| `Combinations.WholeRunSize` | crates/common/src/algorithm/portfolio.rs:1132-1161 | a run to exhaustion has exactly C(n, k) items |
| `Combinations.Iterator.constructor` | crates/common/src/algorithm/portfolio.rs:1118-1127 | the iterator starts with nothing yielded, for every n and k |
| `Combinations.Iterator.LastRaisable` | crates/common/src/algorithm/portfolio.rs:1142-1152 | the scan from the right finds the last position below its ceiling, or none exists |
| `Combinations.Iterator.Raise` | crates/common/src/algorithm/portfolio.rs:1154-1158 | in-place update: one position raised, the rest refilled consecutively |
| `Combinations.Iterator.Next` | crates/common/src/algorithm/portfolio.rs:1132-1161 | each call yields the immediate lexicographic successor; None only when everything has been yielded |
| `Combinations.Enumerate` | crates/common/src/algorithm/portfolio.rs:1253-1260 | draining the iterator terminates and gives every k-combination once, in strict lexicographic order, C(n, k) of them; nothing for k = 0 |
| `Exhaustive.ExpandAt` | crates/common/src/algorithm/portfolio.rs:954-991 | expanded weights sit at their own token index |
| `Exhaustive.Survivors` | crates/common/src/algorithm/portfolio.rs:1184-1205 | the kept indices are exactly those of sufficient weight |
| `Exhaustive.SubsetCache.BlendAndExpand` | crates/common/src/algorithm/portfolio.rs:1004-1028 | a cached answer always equals direct evaluation, and the cache stays correct |
| `Exhaustive.FilteredIsFixpoint` | crates/common/src/algorithm/portfolio.rs:1184-1205 | filtering ends with all remaining weights large enough or none, weights are the optimizer's result on what remains, and no weight lies outside the subset |
| `Exhaustive.FilteredRounds` | crates/common/src/algorithm/portfolio.rs:1184-1205 | from the subset on, each round keeps exactly the tokens given at least the minimum, in their order; the result is the optimizer's own weight for each token of the last round and zero elsewhere, all large enough or all too small |
| `Exhaustive.FilterAndReoptimize` | crates/common/src/algorithm/portfolio.rs:1184-1205 | the bounded loop with the shared cache reaches exactly the uncached fixpoint |
| `Exhaustive.ExtendBest` | crates/common/src/algorithm/portfolio.rs:1262-1327 | a strictly better candidate takes over, anything else changes nothing |
| `Exhaustive.ScanFindsWinner` | crates/common/src/algorithm/portfolio.rs:1253-1327 | the scan has a result exactly when some subset gives a positive weight, and it is the best-scoring one, the first among equals |
| `Exhaustive.FeasibleIff` | crates/common/src/algorithm/portfolio.rs:1253-1327 | some combination of positions gives a positive weight if and only if some choice of that many active tokens does |
| `Exhaustive.WinnerIsBest` | crates/common/src/algorithm/portfolio.rs:1253-1327 | the winner over the combinations is the filtered result of a choice of k active tokens that no other choice of k beats |
| `Exhaustive.CandidateHoldings` | crates/common/src/algorithm/portfolio.rs:1253-1327 | every candidate holds at most k tokens, all active |
| `Exhaustive.Consider` | crates/common/src/algorithm/portfolio.rs:1262-1327 | one round of the scan keeps cache and running best correct |
| `Exhaustive.Scan` | crates/common/src/algorithm/portfolio.rs:1253-1327 | the whole enumeration loop returns the best of all choices of k active tokens, the first combination among equals |
| `Exhaustive.EqualSplitAt` | crates/common/src/algorithm/portfolio.rs:1328-1338 | in the equal split each of the first max_holdings active tokens gets 1 / max_holdings |
| `Exhaustive.ExhaustiveOptimize` | crates/common/src/algorithm/portfolio.rs:1212-1338 | all active tokens filtered when they are few enough; else the filtered result of some choice of max_holdings of them that no other choice outscores, or the equal split if and only if no choice gives a positive weight; never more than max_holdings tokens |
| `Drawdown.DropMonotone` | crates/common/src/algorithm/portfolio.rs:1854-1876 | a fall from a higher peak to the same value is a larger relative drop |
| `Drawdown.MaxDrawdown` | crates/common/src/algorithm/portfolio.rs:1854-1876 | one pass gives the largest drop from the running peak for every series, and for non-negative series the maximum of (v_i - v_j) / v_i over all i <= j |
| `Ledger.ScaleOutput` | crates/simulate/src/portfolio_state.rs:341-352 | the output is scaled to the available input and rounded down, to the unit |
| `Ledger.AverageCost` | crates/simulate/src/portfolio_state.rs:416-444 | never more than the cost, and the whole cost when a position is closed |
| `Ledger.AverageCostRounds` | crates/simulate/src/portfolio_state.rs:416-444 | the average cost of the sold units, rounded down to the unit |
| `Ledger.ClampedExactly` | crates/simulate/src/portfolio_state.rs:215-252 | a swap takes the whole balance up to the request, nothing of a balance above u128, and keeps the requested price rounded down; nothing moves exactly when that is zero |
| `Ledger.SwapMovesUnits` | crates/simulate/src/portfolio_state.rs:215-317 | a swap takes the paid units from one position and adds the received ones to another, and no other position changes |
| `Ledger.SwapMovesCost` | crates/simulate/src/portfolio_state.rs:215-317 | for every token: the position that pays loses the average cost of the paid units rounded down, the one that receives gains the cash paid in a purchase and that same cost in a transfer, and no other cost changes |
| `Ledger.SaleMovesCostOf` | crates/simulate/src/portfolio_state.rs:254-289 | a sale takes the average cost of its units out of the cost of exactly its own token |
| `Ledger.SaturationExact` | crates/simulate/src/portfolio_state.rs:448-494 | a recorded sum is exact or the limit it would pass, a conversion exact or zero |
| `Ledger.SaleMovesUnits` | crates/simulate/src/portfolio_state.rs:254-289 | a sale takes exactly its units out of exactly one holding |
| `Ledger.SaleMovesCost` | crates/simulate/src/portfolio_state.rs:448-494 | recording a sale takes exactly the cost of the sold units out of the basis |
| `Ledger.SaleRealizesIff` | crates/simulate/src/portfolio_state.rs:448-494 | a sale realizes exactly proceeds minus cost, in total and for its token, if and only if the gain and both sums stay in i128 |
| `Ledger.SaleBalancesIff` | crates/simulate/src/portfolio_state.rs:448-494 | a sale keeps cash + cost basis = capital + P&L if and only if neither the conversion nor the addition saturates |
| `Ledger.SelfSwapBalancesIff` | crates/simulate/src/portfolio_state.rs:215-317 | a WNEAR-to-WNEAR swap keeps the equation if and only if, by its amounts and the cash, it moves nothing or its rounded output is its input |
| `Ledger.SelfSwapBreaksBooks` | crates/simulate/src/portfolio_state.rs:215-317 | one unit of WNEAR swapped for two breaks it |
| `Ledger.LiquidationBalancesIff` | crates/simulate/src/portfolio_state.rs:497-546 | a liquidation keeps the equation if and only if the holding fits u128 or has no cost |
| `Ledger.LargeLiquidationBreaksBooks` | crates/simulate/src/portfolio_state.rs:497-546 | two purchases of the largest amount from the opening balance and the liquidation of both break it |
| `Ledger.BuyKeepsBooks` | crates/simulate/src/portfolio_state.rs:215-317 | a purchase of any size keeps the books |
| `Ledger.SellKeepsBooksIff` | crates/simulate/src/portfolio_state.rs:254-289 | a sale keeps the books if and only if its gain over average cost can be recorded without saturation |
| `Ledger.TransferRealizesNothing` | crates/simulate/src/portfolio_state.rs:254-289 | a token-to-token swap of any size realizes exactly nothing for any token: the cost moves with the position |
| `Ledger.LiquidateMoves` | crates/simulate/src/portfolio_state.rs:497-546 | closing a position with proceeds removes it and its basis and credits the proceeds |
| `Ledger.LiquidateKeepsBooksIff` | crates/simulate/src/portfolio_state.rs:497-546 | it keeps the books if and only if nothing saturates, for a holding above u128 with every coincidence spelled out |
| `Ledger.StepKeepsBooksIff` | crates/simulate/src/portfolio_state.rs:215-546 | every operation keeps the books if and only if a condition on the state before it and its amounts holds |
| `Ledger.RunKeepsBooksIff` | crates/simulate/src/portfolio_state.rs:215-546 | the books hold after every operation of a run if and only if every step meets that condition |
| `Ledger.EveryRunBalances` | crates/simulate/src/portfolio_state.rs:195-546 | the same from the opening balance: cash + cost basis = capital + P&L, P&L = sum per token, positive holdings and basis keys that are held, throughout every run in which no step saturates, and in no other |
| `Ledger.TradesAlwaysBalance` | crates/simulate/src/portfolio_state.rs:215-317 | purchases and token-to-token swaps keep the books in any number and size |
| `PortfolioState.PortfolioState.constructor` | crates/simulate/src/portfolio_state.rs:195-206 | the opening state |
| `PortfolioState.PortfolioState.AddToCostBasis` | crates/simulate/src/portfolio_state.rs:320-327 | the mutable update is the ledger's |
| `PortfolioState.PortfolioState.RecordSellPnl` | crates/simulate/src/portfolio_state.rs:448-494 | the mutable update is the ledger's |
| `PortfolioState.PortfolioState.ExecuteSimulatedSwap` | crates/simulate/src/portfolio_state.rs:215-317 | the step-by-step swap, its early returns included, produces exactly the ledger's swap and result |
| `PortfolioState.PortfolioState.LiquidateAll` | crates/simulate/src/portfolio_state.rs:497-546 | every actual holding is offered exactly once, in some order, and the state is that of those sales one after the other |
| `PortfolioState.LiquidationEnds` | crates/simulate/src/portfolio_state.rs:497-546 | in whatever order, exactly the unpriced holdings and their basis are left and all proceeds are credited; with rates for everything nothing is left but cash |
| `PortfolioState.LiquidationBooksIff` | crates/simulate/src/portfolio_state.rs:497-546 | the books hold after every sale of a liquidation if and only if every sale fits when its turn comes |
| `PortfolioState.LiquidationRealizesAll` | crates/simulate/src/portfolio_state.rs:497-546 | with rates for everything and every sale fitting, final cash = capital + realized P&L |
| `PathSearch.Memo.Evaluate` | crates/blockchain/src/ref_finance/path.rs:165-184 | a memoised evaluation equals direct evaluation |
| `PathSearch.MoveLeftSound` | crates/blockchain/src/ref_finance/path.rs:211-235 | the left move keeps min <= a <= b <= c <= max, keeps the best point and descends lexicographically |
| `PathSearch.ShrinkSound` | crates/blockchain/src/ref_finance/path.rs:236-253 | the same for the shrinking move |
| `PathSearch.MoveRightSound` | crates/blockchain/src/ref_finance/path.rs:254-269 | the same for the right move |
| `PathSearch.RoundSound` | crates/blockchain/src/ref_finance/path.rs:188-270 | every round keeps order, descends in (width, middle point on an edge) and keeps the best of the three points in the window |
| `PathSearch.RoundCentres` | crates/blockchain/src/ref_finance/path.rs:211-269 | the next window lies around the best point with a step on either side, not beyond min or max; from min or max itself it is three points a step apart |
| `PathSearch.FirstError` | crates/blockchain/src/ref_finance/path.rs:188-205 | the error of the first of the three points, in order, that fails |
| `PathSearch.NearStartNeverClips` | crates/blockchain/src/ref_finance/path.rs:211-235 | for any steps of at most half, a start near enough to max keeps every left move above zero, whatever the gains |
| `PathSearch.SafeStartNeverClips` | crates/blockchain/src/ref_finance/path.rs:211-235 | with half steps, no gains make the search go below zero unless a right move rounds to just above average and halving left moves from there outrun it |
| `PathSearch.ClippingStartClips` | crates/blockchain/src/ref_finance/path.rs:211-235 | and from exactly those starts some gains do |
| `PathSearch.WideStartClips` | crates/blockchain/src/ref_finance/path.rs:211-235 | a concrete start from which the second round would go below zero |
| `PathSearch.AllZero` | crates/blockchain/src/ref_finance/path.rs:206-210 | three zero gains can only be met in the first round |
| `PathSearch.Search` | crates/blockchain/src/ref_finance/path.rs:130-283 | terminates and answers as direct evaluation of the windows would; the memo is left with what was evaluated, no evaluated input gains more than the answer, and there is none only when every evaluated gain is zero; min, average and max are always evaluated and nothing outside the range is |
| `PathSearch.MicroStep` | crates/blockchain/src/types/micro_near.rs:103-112 | with MicroNear every step is zero |
| `PathSearch.NoStepIsOneRound` | crates/blockchain/src/ref_finance/path.rs:188-270 | without steps the search is three evaluations and one comparison |
| `PathSearch.SearchMicroNear` | crates/blockchain/src/ref_finance/path.rs:130-283 | the production search: first error, else the first of min, average and max with the largest gain in whole MicroNear, else nothing |
| `PathSearch.BestOfThreeInYocto` | crates/blockchain/src/ref_finance/path.rs:163-184 | in yocto: no input that fits u64 gains a whole MicroNear more than the answer, and there is none if and only if every gain reads as zero MicroNear |
| `PathSearch.BestInYoctoIff` | crates/blockchain/src/ref_finance/path.rs:163-184 | with gains within u64 and one of a MicroNear or more, the answer has the largest yocto gain if and only if no input in the same whole MicroNear gains more |
| `PathSearch.WorseInputWins` | crates/blockchain/src/ref_finance/path.rs:163-184 | gains of 1.0 and 1.9 MicroNear tie and the worse input is answered |
| `PathSearch.GainsNotSeen` | crates/blockchain/src/ref_finance/path.rs:163-184 | gains below one MicroNear, and one of 2^64 MicroNear, are not seen |
| `StoragePlanner.PerToken` | crates/blockchain/src/ref_finance/storage/planner.rs:231-234 | the cost per token covers all used storage and is at least the bound |
| `StoragePlanner.PerTokenIsLeast` | crates/blockchain/src/ref_finance/storage/planner.rs:183-234 | and is the least such cost |
| `StoragePlanner.PlanSucceedsIff` | crates/blockchain/src/ref_finance/storage/planner.rs:145-261 | there is a plan if and only if at most 100 tokens are to be registered, no more is available than the total and 11 times the cost fits u128; and which error is reported otherwise |
| `StoragePlanner.PlanKeepsOrder` | crates/blockchain/src/ref_finance/storage/planner.rs:236-316 | missing tokens are registered each as often and in the order requested; the candidates dropped are the first in the order of the deposits |
| `StoragePlanner.DropCount` | crates/blockchain/src/ref_finance/storage/planner.rs:300-309 | the smallest number of registrations that covers the shortage, or all |
| `StoragePlanner.PlanSelectsTokens` | crates/blockchain/src/ref_finance/storage/planner.rs:145-316 | only empty registrations that are neither kept nor requested are dropped; exactly the missing tokens are registered, at most 100 |
| `StoragePlanner.PlanDropsOnce` | crates/blockchain/src/ref_finance/storage/planner.rs:292-309 | no registration is dropped twice |
| `StoragePlanner.PlanIsFrugal` | crates/blockchain/src/ref_finance/storage/planner.rs:262-315 | the estimate is the cost times 1.1 rounded up; nothing is dropped when storage suffices, and one drop fewer would not have been enough |
| `StorageSetup.MaxTopUp` | crates/blockchain/src/ref_finance/storage.rs:44-70 | the cap is the configured one or the 5 NEAR ceiling, whichever is smaller |
| `StorageSetup.Verified` | crates/blockchain/src/ref_finance/storage.rs:446-470 | what is dropped was planned, is still registered and empty in the fresh read, and is not kept |
| `StorageSetup.VerifiedKeeps` | crates/blockchain/src/ref_finance/storage.rs:446-470 | each of them once for each time it was planned, in that order |
| `StorageSetup.UnregisterChunks` | crates/blockchain/src/ref_finance/storage.rs:471-505 | the chunks concatenate to exactly the verified tokens, at most 10 each, and the counters add up, whatever fails |
| `StorageSetup.UnregisterStale` | crates/blockchain/src/ref_finance/storage.rs:446-505 | dropping fails only when the fresh read fails |
| `StorageSetup.HandleInitialRegister` | crates/blockchain/src/ref_finance/storage.rs:379-398 | one registration of all tokens, or none when there are none, successful exactly when its transaction is |
| `StorageSetup.TopUpAndRegister` | crates/blockchain/src/ref_finance/storage.rs:578-605 | the top-up is sent when there is one, and registration follows exactly when it went through |
| `StorageSetup.HandleNormalPlan` | crates/blockchain/src/ref_finance/storage.rs:420-608 | for any plan and any answers, exactly what is sent and returned: drops re-verified against the fresh deposits, a top-up of exactly the shortage against the balance read back, the cap error and nothing sent if and only if that crosses the cap, registration if and only if nothing before it failed |
| `StorageSetup.InitialDeposit` | crates/blockchain/src/ref_finance/storage.rs:274-314 | one initial deposit of exactly the minimum if and only if the account is unregistered and the minimum is within the cap, and success if and only if the account is registered then |
| `StorageSetup.TakeSnapshot` | crates/blockchain/src/ref_finance/storage.rs:316-344 | the plan is the planner's on exactly the three answers read, and fails if one of them or the planner does |
| `StorageSetup.SetupIsSafe` | crates/blockchain/src/ref_finance/storage.rs:230-370 | money sent <= cap, at most one deposit of each kind, nothing needed or kept is dropped, and success means every needed token was or is registered |
| `StorageSetup.SuccessIsCovered` | crates/blockchain/src/ref_finance/storage.rs:230-608 | a successful call over existing deposits has the storage for what it registers: the balance read back after dropping and the top-up reach 1.1 times the count times a cost that covers what the deposits used |
| `StorageSetup.EnsureRefStorageSetup` | crates/blockchain/src/ref_finance/storage.rs:230-370 | the whole call, decided by its answers: which plan, what is sent, what is returned; and safe in that sense for all of them |
| `StorageProtocol.StorageDeposit` | crates/blockchain/src/ref_finance/storage.rs:146-167 | the contract refuses exactly an unregistered account below the minimum; it takes the minimum for a registration, nothing for a second one and everything for a top-up, and what it takes is added to the total |
| `StorageProtocol.LockMap.LockFor` | crates/blockchain/src/ref_finance/storage.rs:102-119 | one lock per account, the same one on every call, never shared between accounts |
| `StorageProtocol.HolderMoves` | crates/blockchain/src/ref_finance/storage.rs:263-314 | whatever the lock holder does to the contract within its cap stays within the bounds of all calls, and keeps every task's knowledge of the contract if its own is right |
| `StorageProtocol.StepSafe` | crates/blockchain/src/ref_finance/storage.rs:230-608 | every step of any task stays within the bounds, however stale the balance it reads, and with current reads also keeps what every task knows |
| `StorageProtocol.RunSafe` | crates/blockchain/src/ref_finance/storage.rs:230-608 | so does every run |
| `StorageProtocol.EveryInterleavingIsSafe` | crates/blockchain/src/ref_finance/storage.rs:230-608 | in every interleaving of any number of calls, reads stale or not: one past the lock, at most one initial deposit taken, each call charged at most its cap, and in all at most the sum of the caps, at most 5 NEAR a call; with current reads nothing is refunded |
| `StorageProtocol.StaleReadIsRefunded` | crates/blockchain/src/ref_finance/storage.rs:274-314 | on any registered account, a stale read makes the call send an initial deposit, all of which comes back |
| `StorageProtocol.TopUpIsExact` | crates/blockchain/src/ref_finance/storage.rs:578-595 | under the lock a top-up brings the available storage to the estimate and no further |
| `StorageProtocol.RegistrationSucceedsIff` | crates/blockchain/src/ref_finance/storage.rs:578-605 | after the top-up a registration goes through if and only if it needs at most the estimate; it uses exactly its need, and the lock is free again |
| `StorageProtocol.UnlockedCallsTopUpTwice` | crates/blockchain/src/ref_finance/storage.rs:102-119 | without the lock two calls can both pay for one shortage |
| `StorageRefinement.ChunksRun` | crates/blockchain/src/ref_finance/storage.rs:471-505 | the unregister transactions are events of the protocol with the same effect on the contract |
| `StorageRefinement.NormalRun` | crates/blockchain/src/ref_finance/storage.rs:420-608 | a normal plan answered by the contract is a stretch of one task's run |
| `StorageRefinement.CallIsATask` | crates/blockchain/src/ref_finance/storage.rs:230-370 | a whole call answered by the contract is one task's run of the protocol, with the same result and charged at most what it sent |
| `Amm.EstimateBound` | crates/dex/src/pool_info.rs:106-126 | the estimate is a (10000 - fee) y / (10000 x + a (10000 - fee)) rounded down |
| `Amm.BelowReserve` | crates/dex/src/pool_info.rs:106-126 | a pool never pays out its whole reserve |
| `Amm.ProductNeverFalls` | crates/dex/src/pool_info.rs:106-126 | (x + a)(y - r) >= x y |
| `Amm.Monotone` | crates/dex/src/pool_info.rs:106-126 | more in, no less out |
| `Amm.Subadditive` | crates/dex/src/pool_info.rs:106-126 | one swap of a + b beats two quotes by at most one unit |
| `Amm.RoundTrip` | crates/dex/src/pool_info.rs:106-126 | there and back through one pool never gains |
| `Dex.GetPair` | crates/dex/src/pool_info.rs:61-83 | a pair is given exactly for two different positions inside both lists |
| `Dex.PairReturnFailsIff` | crates/dex/src/pool_info.rs:106-126 | an estimate fails if and only if a reserve or the input is zero; it never overflows |
| `Dex.PairReturnPrices` | crates/dex/src/pool_info.rs:106-126 | a pair is priced by its own two reserves and its pool's fee, with that formula |
| `Dex.IndexById` | crates/dex/src/pool_info.rs:130-138 | the index answers every given id with the last pool given for it, and no other id |
| `Dex.CalcValue` | crates/dex/src/token_pair.rs:144-156 | the loop with its early exits computes the composed value |
| `Dex.PathMonotone` | crates/dex/src/token_pair.rs:144-156 | more in, no less out, over any number of hops |
| `Dex.PathJoin` | crates/dex/src/token_pair.rs:144-156 | walking two paths in turn is walking their concatenation, errors included |
| `Dex.NoFreeLunch` | crates/dex/src/token_pair.rs:144-156 | a path followed by its own reverse never returns more than was put in |
| `Dex.AllTokens` | crates/dex/src/token_pair.rs:129-142 | every token of the path, exactly once |
| `SwapActions.BuildSwapActions` | crates/blockchain/src/ref_finance/swap.rs:38-89 | succeeds exactly when every hop can be estimated, with that output and those actions |
| `SwapActions.ActionShape` | crates/blockchain/src/ref_finance/swap.rs:38-89 | each action names its hop; amount_in and min_out go by pool id, hence with distinct ids only to the first and only to the last |
| `SwapActions.BuildAgreesWithValue` | crates/blockchain/src/ref_finance/swap.rs:38-89 | when building succeeds its output is calc_value, and it succeeds whenever calc_value is positive |
| `SwapActions.BuildSucceedsIff` | crates/blockchain/src/ref_finance/swap.rs:38-89 | it succeeds if and only if something positive reaches the last hop and that hop has reserves |
| `SwapActions.ZeroHopHasNoActions` | crates/blockchain/src/ref_finance/swap.rs:38-89 | a path whose first hop gives zero: calc_value is zero and there are no actions |
| `SwapActions.HopAgrees` | crates/simulate/src/mock_client.rs:106-135 | one simulated hop, looked up by names, is the estimate of the path's hop |
| `SwapActions.EstimateSwapViaPools` | crates/simulate/src/mock_client.rs:106-135 | the simulator's loop feeds each output to the next hop |
| `SwapActions.SimulatorAgrees` | crates/simulate/src/mock_client.rs:106-135 | from any hop on, the simulator gives exactly what building estimates, or nothing when that fails |
| `SwapActions.EstimatesCoincide` | crates/simulate/src/mock_client.rs:106-135 | the simulator gives v if and only if building does, and v is then calc_value |
| `SwapExecution.ContractAcceptsIff` | crates/blockchain/src/ref_finance/swap.rs:38-89 | for any actions, pools used again or not: the contract accepts them if and only if each pays its minimum on the reserves that the ones before it left, and then settles as they pay |
| `SwapExecution.SwapInMoves` | crates/blockchain/src/ref_finance/swap.rs:38-89 | a swap adds exactly its input to one reserve and takes exactly its output from another |
| `SwapExecution.SwapInKeepsProduct` | crates/blockchain/src/ref_finance/swap.rs:38-89 | the product of the two reserves never falls |
| `SwapExecution.ExecuteConserves` | crates/blockchain/src/ref_finance/swap.rs:38-89 | whatever actions are accepted, account and pools together hold as much of every token as before |
| `SwapExecution.RepeatedPoolRejected` | crates/blockchain/src/ref_finance/swap.rs:38-89 | there and back through one pool: actions the contract rejects, whatever is deposited, although their estimate meets the minimum |
| `SwapExecution.ReturningIsBuilt` | crates/blockchain/src/ref_finance/swap.rs:38-89 | a path that comes back to its first pool: the actions built for it, with an estimate of 199 and a minimum of 150 |
| `SwapExecution.MovedReservesReject` | crates/blockchain/src/ref_finance/swap.rs:38-89 | the contract rejects these, because the last hop pays only 94 on the reserves the first one moved |
| `SwapExecution.DistinctPoolsSettleIff` | crates/blockchain/src/ref_finance/swap.rs:38-89 | with every pool used once: accepted if and only if the input is deposited, every pool has room for its input and the estimate meets min_out; then exactly the estimate is paid and only the two ends of the path change in the account |
| `SwapExecution.Budget` | crates/trade/src/slippage.rs:1-62 | the size of the expected return, or the nearer of 0.5% and 15% |
| `SwapExecution.ProtectionBps` | crates/trade/src/slippage.rs:56-66 | 10000 less that budget in basis points rounded down |
| `SwapExecution.CalculateMinOut` | crates/trade/src/slippage.rs:56-76 | the estimate times that share rounded down, between 85% and 99.5% of it; zero exactly when unprotected or the estimate is at most one unit, an error exactly when the product would wrap |
| `SwapExecution.ProtectedSwapSucceeds` | crates/trade/src/slippage.rs:56-76 | on pools as listed, each used once and with room, a swap with the derived min_out goes through, pays exactly the estimate and changes the account by exactly that |
| `Allocation.SplitShareIsFloor` | crates/trade/src/execution.rs:123-130 | the split quotient and remainder form is the plain floor of balance times weight over total |
| `Allocation.SplitShareFits` | crates/trade/src/execution.rs:123-130 | no intermediate of it leaves u128 |
| `Allocation.SharesTrackWeights` | crates/trade/src/execution.rs:120-135 | rounding loses less than one unit per share |
| `Allocation.BpsAtMost` | crates/trade/src/execution.rs:102-118 | non-negative weights come to at most 10000 basis points |
| `Allocation.WeightBpsBounds` | crates/trade/src/execution.rs:102-118 | the basis points of a weight are 10000 w / W rounded down |
| `Allocation.LastTakesRemainder` | crates/trade/src/execution.rs:123-126 | the last amount exceeds its own floor share by less than the list length |
| `Allocation.AllocateShares` | crates/trade/src/execution.rs:120-138 | amounts sum exactly to the balance, floor shares for all but the last |
| `Allocation.AllocateAddPositionAmounts` | crates/trade/src/execution.rs:91-139 | the amounts sum exactly to the balance, in the order of the positions. For non-negative weights of sum W > 0, each amount a of weight w among n satisfies (a + 1) 10000 W > balance (10000 w - W) and, but for the last, a (10000 - n) W <= balance 10000 w; the last exceeds that by at most n units, for up to 10000 positions. Without any weight the last takes all |
| `Allocation.AllocationFits` | crates/trade/src/execution.rs:91-139 | with non-negative weights no intermediate leaves u128 |
| `Allocation.FloorsAtMostAvailable` | crates/trade/src/execution.rs:764-800 | rounded-down purchases never exceed the available wNEAR |
| `Allocation.AllocateBuys` | crates/trade/src/execution.rs:764-800 | purchases are their values rounded down when these fit; when wNEAR is scarce each but the last is its value times available / total rounded down, the last at least its own part and less than one unit per other purchase more, and together exactly what is available |
| `Matching.SortDescending` | crates/trade/src/execution/matching.rs:65-69 | sorting keeps every operation with its multiplicity |
| `Matching.SortedDescending` | crates/trade/src/execution/matching.rs:65-69 | and puts the largest first |
| `Matching.SwapConserves` | crates/trade/src/execution/matching.rs:84-98 | one match moves the same value out of both sides |
| `Matching.MatchRebalanceOperations` | crates/trade/src/execution/matching.rs:53-161 | for every token, swapped plus remaining is what there was, on both sides; swaps are positive and carry a sale's token and rate; one side is used up, only the smallest operations of the other remain; fewer swaps than operations |
| `Matching.MatchesTheSmallerTotal` | crates/trade/src/execution/matching.rs:49-52 | the value matched is the smaller of the two totals |
| `RateHistory.PrecomputeFallbackIndices` | crates/persistence/src/token_rate.rs:501-515 | one backward pass gives the forward search's index at every position |
| `RateHistory.FallbacksAgree` | crates/persistence/src/token_rate.rs:479-489 | the path at that index is the one the forward search finds |
| `RateHistory.FallbackIsFirstNewer` | crates/persistence/src/token_rate.rs:479-515 | a rate without a path falls back on the first newer rate that has one |
| `RateHistory.StepKeepsProduct` | crates/persistence/src/token_rate.rs:563-571 | a hop of the correction is a constant-product pool |
| `RateHistory.CorrectionTelescopes` | crates/persistence/src/token_rate.rs:549-576 | accumulated correction times output is input times the product of y / x, for any path |
| `RateHistory.NonNegativeTradeDefined` | crates/persistence/src/token_rate.rs:549-576 | a trade of non-negative size never divides by zero |
| `RateHistory.SpotRateRecovered` | crates/persistence/src/token_rate.rs:549-576 | a rate measured by a fee-less trade of any size comes back as the spot rate of its path |
| `RateHistory.FallbackStandsIn` | crates/persistence/src/token_rate.rs:549-576 | a rate without a path is corrected along its fallback exactly as if that were its own |
| `RateHistory.OwnPathFirst` | crates/persistence/src/token_rate.rs:549-576 | with a path of its own the fallback makes no difference |
| `RateHistory.NoPathNoCorrection` | crates/persistence/src/token_rate.rs:549-576 | without either the rate stays as it is |
| `RateHistory.OneHopSpotRate` | crates/persistence/src/token_rate.rs:549-576 | along one hop the rate is multiplied by 1 + trade in yocto / x |
| `RateHistory.EmptyHopPasses` | crates/persistence/src/token_rate.rs:549-576 | a hop without an input reserve changes neither the correction nor the trade |
| `RateHistory.ToSpotRateWithFallback` | crates/persistence/src/token_rate.rs:549-576 | the loop gives the rate corrected along the rate's own path, else along the fallback |
| `RateHistory.SpotAtUses` | crates/persistence/src/token_rate.rs:583-599 | in a history each rate is corrected along its own path, else as if it had the path of the first newer rate that has one, else not at all |
| `RateHistory.ToSpotRates` | crates/persistence/src/token_rate.rs:583-599 | the batch form gives exactly the rates that come out at one or more, each so corrected, with its own timestamp and in order |
| `EndpointPools.WeightedRandomSelect` | crates/blockchain/src/jsonrpc/endpoint_pool.rs:133-157 | a draw selects the endpoint in whose stretch of the total weight it lies; the end of the list is never passed |
| `EndpointPools.SelectsOne` | crates/blockchain/src/jsonrpc/endpoint_pool.rs:133-157 | no draw selects two endpoints |
| `EndpointPools.DrawsPerEndpoint` | crates/blockchain/src/jsonrpc/endpoint_pool.rs:133-157 | exactly weight many of the total weight draws select an endpoint |
| `EndpointPools.Available` | crates/blockchain/src/jsonrpc/endpoint_pool.rs:115-130 | exactly the endpoints without a pending failure |
| `EndpointPools.AvailableKeeps` | crates/blockchain/src/jsonrpc/endpoint_pool.rs:115-130 | each of them once for each time it is configured, in that order |
| `EndpointPools.EndpointPool.constructor` | crates/blockchain/src/jsonrpc/endpoint_pool.rs:30-62 | never empty: the network's default stands in |
| `EndpointPools.MarkedUntil` | crates/blockchain/src/jsonrpc/endpoint_pool.rs:94-130 | a mark keeps its endpoint away until exactly its reset time, and no other endpoint |
| `EndpointPools.EndpointPool.MarkFailed` | crates/blockchain/src/jsonrpc/endpoint_pool.rs:94-112 | the failure table stays what its history of marks leaves pending |
| `EndpointPools.EndpointPool.NextEndpoint` | crates/blockchain/src/jsonrpc/endpoint_pool.rs:65-91 | always gives an endpoint: by weight among the available ones, else the first after forgetting all failures |
| `RpcRetry.FinishedUnique` | crates/blockchain/src/jsonrpc/rpc.rs:239-313 | the outcomes alone decide how many attempts are made and what is answered |
| `RpcRetry.StandardRpcClient.Attempts` | crates/blockchain/src/jsonrpc/rpc.rs:254-311 | a stay makes at most max_retries + 1 attempts, all but the last of them retried, and says exactly when the endpoint is to be marked |
| `RpcRetry.StandardRpcClient.CallEndpoint` | crates/blockchain/src/jsonrpc/rpc.rs:254-311 | the stay adds exactly that mark, or nothing, to the pool's history |
| `RpcRetry.GivenUpIsAvoided` | crates/blockchain/src/jsonrpc/rpc.rs:239-313 | while its failure is pending, an endpoint just given up is not tried next unless every endpoint is failing |
| `RpcRetry.StandardRpcClient.Call` | crates/blockchain/src/jsonrpc/rpc.rs:239-313 | at most retry_limit + 1 attempts in stays without a gap, each at the endpoint selected from the failures marked until then, each given up but the last; the failure table afterwards is exactly what these stays leave; the answer of the first attempt that comes through, else the last error |

## Left out

- PathSearch.Search: needs min <= average <= max when steps are not all zero, and does not model an overflow of u128 in `in_c + step` near 2^128.
- Amm.EstimateBound: fees above 10000 are excluded; the program would underflow on them.
- RpcRetry.StandardRpcClient.Call: a retry limit of 65535 is excluded, because the u16 counter cannot exceed it; requests that find no endpoint cannot occur, because a pool is never empty.
- EndpointPools.EndpointPool.constructor: total weights above u32 are excluded, where the program's sum overflows.
- Matching.SortDescending: ties are kept in one fixed order, the program's unstable sort may order them differently.
- Exhaustive.ExhaustiveOptimize: the optimizer and the score are exact pure functions; floating-point rounding and NaN scores are not modelled.
- SwapExecution.DistinctPoolsSettleIff: paths whose hops do not connect are excluded; the shares of the fee that the contract mints for itself and the width of account deposits are not modelled.
- StorageProtocol.EveryInterleavingIsSafe: gas and the 1-yocto deposits attached to register and unregister are not counted, and transactions are atomic.
- Balance movement (`balances.rs`: wrapping, refilling, harvesting): would only add straight-line transfers between three balances.
- Path finding (`graph.rs`, `by_token.rs`, `edge.rs`, `preview.rs`) and the sorting of the pool list.
- The numeric bodies of the Sharpe and risk-parity optimizers, covariance shrinkage and matrix factorisations.
- Prediction, confidence and liquidity scores, volatility, and the retry delay formula.
- Trade and snapshot records, decimals in display values, reports and sweeps.
- Databases, configuration, authentication, gRPC, transaction signing, wallets and the classification of HTTP and JSON-RPC errors.
