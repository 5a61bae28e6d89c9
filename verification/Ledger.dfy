/**
 The simulation ledger as a value: cash, holdings, cost basis and realized P&L,
 with the pure effect of one swap and of one liquidation, and the accounting
 equation every run of them keeps.
 */
module Ledger {
  import opened Numeric
  import opened MapSums

  const WNEAR: Token := "wrap.near"

  datatype Ledger = Ledger(
    cash: nat,
    holdings: map<Token, nat>,
    basis: map<Token, nat>,
    pnl: int,
    pnlByToken: map<Token, int>)

  datatype SwapResult = SwapResult(actualIn: nat, actualOut: nat)

  function Opened(capital: nat): (l: Ledger) {
    Ledger(capital, map[], map[], 0, map[])
  }

  /** Conversion to u128 that gives 0 instead of failing. */
  function ToU128(v: nat): (r: nat) {
    if v <= U128_MAX then v else 0
  }

  /** Conversion to i128 that gives 0 instead of failing. */
  function ToI128(v: int): (r: int) {
    if I128_MIN <= v <= I128_MAX then v else 0
  }

  /** The sum, or the limit it would pass. */
  function AddSaturating(a: int, b: int): (r: int) {
    if I128_MIN <= a + b <= I128_MAX then a + b else if b > 0 then I128_MAX else I128_MIN
  }

  predicate InI128(v: int) {
    I128_MIN <= v <= I128_MAX
  }

  /** Nothing leaves its range: a sum stops at the limit it would pass, a conversion that fails gives zero. */
  lemma SaturationExact(a: int, b: int)
    ensures InI128(a) ==>
              var r := AddSaturating(a, b);
              InI128(r) && (r == a + b || r == I128_MAX < a + b || a + b < I128_MIN == r)
    ensures InI128(ToI128(b)) && (ToI128(b) == b || (ToI128(b) == 0 && !InI128(b)))
    ensures b >= 0 ==> ToU128(b) <= U128_MAX && (ToU128(b) == b || (ToU128(b) == 0 && b > U128_MAX))
  {
  }

  /** Output scaled down to the input that was really available, rounded down. */
  function ScaleOutput(toAmount: nat, actual: nat, requested: nat): (r: nat)
    requires actual <= requested && 0 < requested
    ensures r <= toAmount
    ensures toAmount <= U128_MAX ==> r * requested <= toAmount * actual < (r + 1) * requested
  {
    if actual == requested then toAmount
    else
      ScaledAtMost(toAmount, actual, requested);
      ToU128(toAmount * actual / requested)
  }

  lemma ScaledAtMost(x: nat, actual: nat, requested: nat)
    requires actual <= requested && 0 < requested
    ensures x * actual / requested <= x
  {
    assert x * actual <= x * requested;
    DivMonotone(x * actual, x * requested, requested);
  }

  /** Average cost of the sold part of a position; the whole cost when it is closed. */
  function AverageCost(cost: nat, sold: nat, held: nat): (r: nat)
    ensures sold <= held ==> r <= cost
    ensures sold == held && sold > 0 ==> r == cost
  {
    if cost == 0 || sold == 0 then 0
    else if sold == held then cost
    else if held > 0 then
      AverageBounds(cost, sold, held);
      cost * sold / held
    else 0
  }

  lemma AverageCostRounds(cost: nat, sold: nat, held: nat)
    requires 0 < sold <= held
    ensures var r := AverageCost(cost, sold, held);
            r * held <= cost * sold < (r + 1) * held
  {
    AverageBounds(cost, sold, held);
    Distribute(cost, 1, held);
  }

  lemma AverageBounds(cost: nat, sold: nat, held: nat)
    requires held > 0
    ensures sold <= held ==> cost * sold / held <= cost
    ensures cost * sold / held * held <= cost * sold < (cost * sold / held + 1) * held
  {
    QuotientBounds(cost * sold, held);
    if sold <= held {
      ScaledAtMost(cost, sold, held);
    }
  }

  function Held(l: Ledger, t: Token): nat {
    if t in l.holdings then l.holdings[t] else 0
  }

  function Cost(l: Ledger, t: Token): nat {
    if t in l.basis then l.basis[t] else 0
  }

  /** Cost of `sold` units that have already left the position of t. */
  function CostOfSold(l: Ledger, t: Token, sold: nat): nat {
    AverageCost(Cost(l, t), sold, ToU128(Held(l, t)) + sold)
  }

  /** Realize the P&L of a sale whose units have already left the holdings. */
  function RecordSale(l: Ledger, t: Token, sold: nat, proceeds: nat): Ledger {
    var cost := CostOfSold(l, t, sold);
    var gain := ToI128(proceeds - cost);
    l.(basis := if Held(l, t) == 0 then l.basis - {t}
                else if t in l.basis then l.basis[t := SaturatingSub(l.basis[t], cost)] else l.basis,
       pnl := AddSaturating(l.pnl, gain),
       pnlByToken := l.pnlByToken[t := AddSaturating(Get(l.pnlByToken, t), gain)])
  }

  function AddCost(l: Ledger, t: Token, amount: nat): Ledger {
    l.(basis := l.basis[t := Cost(l, t) + amount])
  }

  function Deduct(l: Ledger, t: Token, amount: nat): Ledger {
    if t in l.holdings then l.(holdings := l.holdings[t := SaturatingSub(l.holdings[t], amount)]) else l
  }

  function DropEmpty(l: Ledger, t: Token): Ledger {
    if Held(l, t) == 0 then l.(holdings := l.holdings - {t}) else l
  }

  function Acquire(l: Ledger, t: Token, amount: nat): Ledger {
    l.(holdings := l.holdings[t := Held(l, t) + amount])
  }

  /** Sell `amount` units of t for proceeds: deduct, realize, drop an emptied position. */
  function SellFrom(l: Ledger, t: Token, amount: nat, proceeds: nat): Ledger {
    DropEmpty(RecordSale(Deduct(l, t, amount), t, amount, proceeds), t)
  }

  function Available(l: Ledger, t: Token): nat {
    if t == WNEAR then ToU128(l.cash) else ToU128(Held(l, t))
  }

  /** What a requested swap comes to after clamping to the balance; None when nothing moves. */
  function Clamped(l: Ledger, from: Token, fromAmount: nat, toAmount: nat): (r: Option<SwapResult>)
    ensures r.Some? ==> 0 < r.value.actualIn <= fromAmount && r.value.actualIn <= Available(l, from)
    ensures r.Some? ==> 0 < r.value.actualOut <= toAmount
  {
    var actual := Min(fromAmount, Available(l, from));
    if actual == 0 then None
    else
      var out := ScaleOutput(toAmount, actual, fromAmount);
      if out == 0 then None else Some(SwapResult(actual, out))
  }

  /** Clamping takes all there is up to the request and keeps the requested price, rounded down. */
  lemma ClampedExactly(l: Ledger, from: Token, fromAmount: nat, toAmount: nat)
    requires toAmount <= U128_MAX
    ensures var balance := if from == WNEAR then l.cash else if from in l.holdings then l.holdings[from] else 0;
            var paid := if balance > U128_MAX then 0 else if balance < fromAmount then balance else fromAmount;
            var r := Clamped(l, from, fromAmount, toAmount);
            if r.None? then paid == 0 || toAmount * paid < fromAmount
            else && r.value.actualIn == paid
                 && r.value.actualOut * fromAmount <= toAmount * paid < (r.value.actualOut + 1) * fromAmount
  {
  }

  /** The whole effect of a simulated swap. */
  function Swap(l: Ledger, from: Token, fromAmount: nat, to: Token, toAmount: nat): Ledger {
    match Clamped(l, from, fromAmount, toAmount)
    case None => l
    case Some(SwapResult(paid, got)) =>
      if from == WNEAR then
        var spent := l.(cash := SaturatingSub(l.cash, paid));
        if to == WNEAR then spent.(cash := spent.cash + got)
        else AddCost(Acquire(spent, to, got), to, paid)
      else if to == WNEAR then
        var sold := SellFrom(l, from, paid, got);
        sold.(cash := sold.cash + got)
      else
        var moved := AverageCost(Cost(l, from), paid, Available(l, from));
        var sold := SellFrom(l, from, paid, moved);
        var bought := Acquire(sold, to, got);
        if moved == 0 then bought else AddCost(bought, to, moved)
  }

  function Position(l: Ledger, t: Token): nat {
    if t == WNEAR then l.cash else Held(l, t)
  }

  /** A swap takes the paid units from one position, adds the received ones to another, and moves nothing else. */
  lemma SwapMovesUnits(l: Ledger, from: Token, fromAmount: nat, to: Token, toAmount: nat, t: Token)
    ensures var r := Clamped(l, from, fromAmount, toAmount);
            var l' := Swap(l, from, fromAmount, to, toAmount);
            if r.None? then l' == l
            else Position(l', t) == Position(l, t)
                                    - (if t == from then r.value.actualIn else 0)
                                    + (if t == to then r.value.actualOut else 0)
  {
    var r := Clamped(l, from, fromAmount, toAmount);
    if r.Some? && from != WNEAR {
      var paid := r.value.actualIn;
      SaleMovesUnits(l, from, paid, r.value.actualOut, t);
      SaleMovesUnits(l, from, paid, AverageCost(Cost(l, from), paid, Available(l, from)), t);
    }
  }

  lemma SaleMovesUnits(l: Ledger, from: Token, amount: nat, proceeds: nat, t: Token)
    requires amount <= Held(l, from)
    ensures var s := SellFrom(l, from, amount, proceeds);
            && s.cash == l.cash
            && Held(s, t) == Held(l, t) - (if t == from then amount else 0)
  {
  }

  lemma SaleMovesCostOf(l: Ledger, from: Token, amount: nat, proceeds: nat, t: Token)
    requires 0 < amount <= Held(l, from) <= U128_MAX
    ensures var cost := AverageCost(Cost(l, from), amount, Held(l, from));
            Cost(SellFrom(l, from, amount, proceeds), t) == Cost(l, t) - (if t == from then cost else 0)
  {
    assert CostOfSold(Deduct(l, from, amount), from, amount) == AverageCost(Cost(l, from), amount, Held(l, from));
  }

  /**
   A swap takes the average cost of the paid units, rounded down, out of the cost of the position that
   paid them, and places what was paid for the received ones on theirs: the cash of a purchase, the same
   average cost in a transfer, nothing in a sale. The cost of no other token changes.
   */
  lemma SwapMovesCost(l: Ledger, from: Token, fromAmount: nat, to: Token, toAmount: nat, t: Token)
    returns (moved: nat, placed: nat)
    requires Clamped(l, from, fromAmount, toAmount).Some?
    ensures var paid := Clamped(l, from, fromAmount, toAmount).value.actualIn;
            && (if from == WNEAR then moved == 0
                else moved * Held(l, from) <= Cost(l, from) * paid < (moved + 1) * Held(l, from))
            && placed == (if to == WNEAR then 0 else if from == WNEAR then paid else moved)
    ensures Cost(Swap(l, from, fromAmount, to, toAmount), t) ==
            Cost(l, t) - (if t == from then moved else 0) + (if t == to then placed else 0)
  {
    var SwapResult(paid, got) := Clamped(l, from, fromAmount, toAmount).value;
    moved := if from == WNEAR then 0 else AverageCost(Cost(l, from), paid, Held(l, from));
    placed := if to == WNEAR then 0 else if from == WNEAR then paid else moved;
    if from != WNEAR {
      AverageCostRounds(Cost(l, from), paid, Held(l, from));
      SaleMovesCostOf(l, from, paid, if to == WNEAR then got else moved, t);
    }
  }

  /** Close one position for the given proceeds; skipped when there is no rate. */
  function Liquidate(l: Ledger, t: Token, proceeds: nat): Ledger {
    if Held(l, t) == 0 || proceeds == 0 then l
    else
      var closed := l.(holdings := l.holdings - {t});
      var sold := RecordSale(closed, t, ToU128(Held(l, t)), proceeds);
      sold.(cash := sold.cash + proceeds)
  }

  // ---------------------------------------------------------------------------
  // Invariants.

  /** Cash plus cost basis is the capital plus everything realized. */
  ghost predicate Balanced(l: Ledger, capital: nat) {
    l.cash + Sum(l.basis) == capital + l.pnl
  }

  /** Only positive positions, and a cost only where there is a position. */
  ghost predicate Shaped(l: Ledger) {
    && (forall t :: t in l.holdings ==> l.holdings[t] > 0)
    && l.basis.Keys <= l.holdings.Keys
    && WNEAR !in l.holdings
  }

  ghost predicate Books(l: Ledger, capital: nat) {
    Balanced(l, capital) && l.pnl == Sum(l.pnlByToken) && Shaped(l)
  }

  /** The figures that are i128 in the program. */
  ghost predicate Typed(l: Ledger) {
    InI128(l.pnl) && forall t :: t in l.pnlByToken ==> InI128(l.pnlByToken[t])
  }

  /** A gain on t can be recorded without any conversion or addition saturating. */
  predicate Realizable(l: Ledger, t: Token, gain: int) {
    InI128(gain) && InI128(l.pnl + gain) && InI128(Get(l.pnlByToken, t) + gain)
  }

  // ---------------------------------------------------------------------------
  // One sale.

  /** Recording a sale takes exactly the cost of the sold units out of the basis. */
  lemma SaleMovesCost(l: Ledger, t: Token, sold: nat, proceeds: nat)
    requires sold > 0 && Held(l, t) + sold <= U128_MAX
    ensures var cost := CostOfSold(l, t, sold);
            && cost <= Cost(l, t)
            && Sum(RecordSale(l, t, sold, proceeds).basis) == Sum(l.basis) - cost
            && cost <= Sum(l.basis)
  {
    var cost := CostOfSold(l, t, sold);
    EntryAtMostSum(l.basis, t);
    SumRemove(l.basis, t);
    if Held(l, t) != 0 && t in l.basis {
      SumUpdate(l.basis, t, l.basis[t] - cost);
    }
  }

  /** A sale realizes exactly proceeds minus cost, in total and for the token, if and only if nothing saturates. */
  lemma SaleRealizesIff(l: Ledger, t: Token, sold: nat, proceeds: nat, capital: nat)
    requires sold > 0 && Held(l, t) + sold <= U128_MAX && Typed(l)
    requires Balanced(l, capital) && l.pnl == Sum(l.pnlByToken)
    ensures var gain := proceeds - CostOfSold(l, t, sold);
            var l' := RecordSale(l, t, sold, proceeds);
            && Typed(l')
            && (Realizable(l, t, gain) ==>
                  l'.pnl == l.pnl + gain && l'.pnlByToken == l.pnlByToken[t := Get(l.pnlByToken, t) + gain])
            && (Realizable(l, t, gain) <==>
                  l'.cash + proceeds + Sum(l'.basis) == capital + l'.pnl && l'.pnl == Sum(l'.pnlByToken))
  {
    SaleMovesCost(l, t, sold, proceeds);
    var gain := proceeds - CostOfSold(l, t, sold);
    SumUpdate(l.pnlByToken, t, AddSaturating(Get(l.pnlByToken, t), ToI128(gain)));
  }

  /** A sale keeps the accounting equation exactly when neither conversion nor addition saturates. */
  lemma SaleBalancesIff(l: Ledger, t: Token, sold: nat, proceeds: nat, capital: nat)
    requires sold > 0 && Held(l, t) + sold <= U128_MAX && Balanced(l, capital)
    requires I128_MIN <= l.pnl <= I128_MAX
    ensures var gain := proceeds - CostOfSold(l, t, sold);
            var l' := RecordSale(l, t, sold, proceeds);
            Balanced(l'.(cash := l'.cash + proceeds), capital) <==>
            I128_MIN <= gain <= I128_MAX && I128_MIN <= l.pnl + gain <= I128_MAX
  {
    SaleMovesCost(l, t, sold, proceeds);
  }

  /** A WNEAR-to-WNEAR swap that moves nothing, or whose rounded output is its input. */
  predicate SelfSwapEvens(l: Ledger, fromAmount: nat, toAmount: nat) {
    var paid := Min(fromAmount, ToU128(l.cash));
    || paid == 0
    || toAmount * paid < fromAmount
    || paid * fromAmount <= toAmount * paid < (paid + 1) * fromAmount
  }

  /** A WNEAR-to-WNEAR swap keeps the equation exactly when its amounts come out even. */
  lemma SelfSwapBalancesIff(l: Ledger, fromAmount: nat, toAmount: nat, capital: nat)
    requires Balanced(l, capital) && toAmount <= U128_MAX
    ensures Balanced(Swap(l, WNEAR, fromAmount, WNEAR, toAmount), capital) <==> SelfSwapEvens(l, fromAmount, toAmount)
  {
    ClampedExactly(l, WNEAR, fromAmount, toAmount);
    var paid := Min(fromAmount, ToU128(l.cash));
    match Clamped(l, WNEAR, fromAmount, toAmount) {
      case None =>
      case Some(SwapResult(_, out)) =>
        SameFloor(toAmount * paid, fromAmount, out, paid);
    }
  }

  /** Two floors of one quotient are equal. */
  lemma SameFloor(n: nat, d: nat, p: nat, q: nat)
    requires d > 0 && p * d <= n < (p + 1) * d
    ensures q * d <= n < (q + 1) * d <==> p == q
    ensures p > 0 ==> n >= d
  {
    if p < q {
      MulMonotone(p + 1, q, d);
    } else if q < p {
      MulMonotone(q + 1, p, d);
    }
    if p > 0 {
      MulMonotone(1, p, d);
    }
  }

  /**
   Closing a position keeps the equation exactly when its size fits u128 or it has no cost:
   a larger size reads as 0 units sold, and the cost is dropped without being realized.
   */
  lemma LiquidationBalancesIff(l: Ledger, t: Token, proceeds: nat, capital: nat)
    requires Balanced(l, capital) && Held(l, t) > 0 && 0 < proceeds <= I128_MAX
    requires Cost(l, t) <= I128_MAX
    requires I128_MIN <= l.pnl - Cost(l, t) && l.pnl + proceeds <= I128_MAX
    ensures Balanced(Liquidate(l, t, proceeds), capital) <==> Held(l, t) <= U128_MAX || Cost(l, t) == 0
  {
    SumRemove(l.basis, t);
  }

  // ---------------------------------------------------------------------------
  // Each operation keeps the books.

  /** A purchase keeps the books whatever its size. */
  lemma BuyKeepsBooks(l: Ledger, fromAmount: nat, to: Token, toAmount: nat, capital: nat)
    requires Books(l, capital) && to != WNEAR
    ensures Books(Swap(l, WNEAR, fromAmount, to, toAmount), capital)
  {
    var r := Clamped(l, WNEAR, fromAmount, toAmount);
    if r.Some? {
      SumUpdate(l.basis, to, Cost(l, to) + r.value.actualIn);
    }
  }

  lemma DeductedState(l: Ledger, t: Token, amount: nat, capital: nat)
    requires Books(l, capital) && Typed(l) && 0 < amount <= Held(l, t) <= U128_MAX
    ensures var d := Deduct(l, t, amount);
            && Balanced(d, capital) && d.pnl == Sum(d.pnlByToken) && Typed(d)
            && Held(d, t) + amount == Held(l, t)
            && CostOfSold(d, t, amount) == AverageCost(Cost(l, t), amount, Held(l, t))
  {
  }

  lemma SaleStaysShaped(l: Ledger, t: Token, amount: nat, proceeds: nat)
    requires Shaped(l) && 0 < amount <= Held(l, t)
    ensures Shaped(SellFrom(l, t, amount, proceeds))
  {
  }

  /** A sale keeps the books if and only if its gain can be recorded. */
  lemma SellKeepsBooksIff(l: Ledger, t: Token, amount: nat, proceeds: nat, capital: nat)
    requires Books(l, capital) && Typed(l) && 0 < amount <= Held(l, t) <= U128_MAX
    ensures var gain := proceeds - AverageCost(Cost(l, t), amount, Held(l, t));
            var l' := SellFrom(l, t, amount, proceeds);
            && Typed(l') && (Books(l'.(cash := l'.cash + proceeds), capital) <==> Realizable(l, t, gain))
            && (Realizable(l, t, gain) ==> l'.pnl == l.pnl + gain)
  {
    DeductedState(l, t, amount, capital);
    SaleRealizesIff(Deduct(l, t, amount), t, amount, proceeds, capital);
    SaleStaysShaped(l, t, amount, proceeds);
  }

  /** Selling at cost: the books hold except for the cost still to be placed. */
  lemma SoldAtCost(l: Ledger, t: Token, paid: nat, capital: nat)
    requires Books(l, capital) && Typed(l) && 0 < paid <= Held(l, t) <= U128_MAX
    ensures var moved := AverageCost(Cost(l, t), paid, Held(l, t));
            var s := SellFrom(l, t, paid, moved);
            && s.pnl == l.pnl == Sum(s.pnlByToken) && s.cash == l.cash
            && Sum(s.basis) + moved == Sum(l.basis)
            && (forall x :: Get(s.pnlByToken, x) == Get(l.pnlByToken, x))
            && Shaped(s) && Typed(s)
  {
    var moved, d := AverageCost(Cost(l, t), paid, Held(l, t)), Deduct(l, t, paid);
    DeductedState(l, t, paid, capital);
    SaleRealizesIff(d, t, paid, moved, capital);
    SaleMovesCost(d, t, paid, moved);
    SaleStaysShaped(l, t, paid, moved);
  }

  /** Adding units and their cost completes the books again. */
  lemma PlaceCost(s: Ledger, to: Token, got: nat, moved: nat, capital: nat)
    requires s.cash + Sum(s.basis) + moved == capital + s.pnl && s.pnl == Sum(s.pnlByToken)
    requires Shaped(s) && to != WNEAR && 0 < got
    ensures var b := Acquire(s, to, got);
            var l' := if moved == 0 then b else AddCost(b, to, moved);
            Sum(l'.basis) == Sum(s.basis) + moved && Books(l', capital)
  {
    SumUpdate(s.basis, to, Cost(s, to) + moved);
  }

  /** A token-to-token swap of any size realizes exactly nothing: the cost moves with the position. */
  lemma TransferRealizesNothing(l: Ledger, from: Token, fromAmount: nat, to: Token, toAmount: nat, capital: nat)
    requires Books(l, capital) && Typed(l) && from != WNEAR && to != WNEAR
    ensures var l' := Swap(l, from, fromAmount, to, toAmount);
            && l'.pnl == l.pnl && l'.cash == l.cash && Sum(l'.basis) == Sum(l.basis)
            && (forall t :: Get(l'.pnlByToken, t) == Get(l.pnlByToken, t))
            && Books(l', capital) && Typed(l')
  {
    var r := Clamped(l, from, fromAmount, toAmount);
    if r.Some? {
      var paid := r.value.actualIn;
      var moved := AverageCost(Cost(l, from), paid, Held(l, from));
      SoldAtCost(l, from, paid, capital);
      PlaceCost(SellFrom(l, from, paid, moved), to, r.value.actualOut, moved, capital);
    }
  }

  /** When closing a position keeps the books, in terms of the state before it. */
  predicate LiquidationFits(l: Ledger, t: Token, proceeds: nat) {
    var cost, pnl := Cost(l, t), l.pnl;
    if Held(l, t) == 0 || proceeds == 0 then true
    else if Held(l, t) <= U128_MAX then Realizable(l, t, proceeds - cost)
    else
      // The size reads as 0 units, so the cost is dropped unrealized: harmless when there is
      // none, and otherwise only when a saturation happens to make up for exactly the cost.
      || (cost == 0 && Realizable(l, t, proceeds))
      || (proceeds > I128_MAX && cost == proceeds)
      || (0 < cost && proceeds <= I128_MAX && pnl == Get(l.pnlByToken, t) && pnl + proceeds - cost == I128_MAX)
  }

  lemma OversizedLiquidation(l: Ledger, t: Token, proceeds: nat, capital: nat)
    requires Books(l, capital) && Typed(l) && Held(l, t) > U128_MAX && proceeds > 0
    ensures Books(Liquidate(l, t, proceeds), capital) <==> LiquidationFits(l, t, proceeds)
  {
    SumRemove(l.basis, t);
    SumUpdate(l.pnlByToken, t, AddSaturating(Get(l.pnlByToken, t), ToI128(proceeds)));
  }

  /** Closing a position removes it and its cost and credits the proceeds, fitting or not. */
  lemma LiquidateMoves(l: Ledger, t: Token, proceeds: nat)
    requires Shaped(l)
    ensures var l' := Liquidate(l, t, proceeds);
            && Shaped(l')
            && l'.holdings == (if proceeds == 0 then l.holdings else l.holdings - {t})
            && l'.basis == (if proceeds == 0 then l.basis else l.basis - {t})
            && l'.cash == l.cash + (if t in l.holdings then proceeds else 0)
  {
    assert t !in l.holdings ==> l.holdings - {t} == l.holdings && l.basis - {t} == l.basis;
  }

  /** Closing a position keeps the books if and only if it fits. */
  lemma LiquidateKeepsBooksIff(l: Ledger, t: Token, proceeds: nat, capital: nat)
    requires Books(l, capital) && Typed(l)
    ensures var l' := Liquidate(l, t, proceeds);
            Typed(l') && (Books(l', capital) <==> LiquidationFits(l, t, proceeds))
  {
    LiquidateMoves(l, t, proceeds);
    if Held(l, t) != 0 && proceeds != 0 {
      if Held(l, t) <= U128_MAX {
        SaleRealizesIff(l.(holdings := l.holdings - {t}), t, Held(l, t), proceeds, capital);
      } else {
        OversizedLiquidation(l, t, proceeds, capital);
      }
    }
  }

  // ---------------------------------------------------------------------------
  // Whole runs.

  datatype Op =
    | SwapOp(from: Token, fromAmount: nat, to: Token, toAmount: nat)
    | LiquidateOp(token: Token, proceeds: nat)

  function Apply(l: Ledger, op: Op): Ledger {
    match op
    case SwapOp(from, fromAmount, to, toAmount) => Swap(l, from, fromAmount, to, toAmount)
    case LiquidateOp(t, proceeds) => Liquidate(l, t, proceeds)
  }

  function Run(l: Ledger, ops: seq<Op>): Ledger
    decreases |ops|
  {
    if ops == [] then l else Run(Apply(l, ops[0]), ops[1..])
  }

  /** Amounts are u128. */
  predicate TypedOp(op: Op) {
    op.SwapOp? ==> op.fromAmount <= U128_MAX && op.toAmount <= U128_MAX
  }

  /** When one operation keeps the books: a condition on the state before it and its amounts. */
  predicate StepFits(l: Ledger, op: Op) {
    match op
    case LiquidateOp(t, proceeds) => LiquidationFits(l, t, proceeds)
    case SwapOp(from, fromAmount, to, toAmount) =>
      if to != WNEAR then true
      else if from == WNEAR then SelfSwapEvens(l, fromAmount, toAmount)
      else
        match Clamped(l, from, fromAmount, toAmount)
        case None => true
        case Some(SwapResult(paid, got)) =>
          Realizable(l, from, got - AverageCost(Cost(l, from), paid, Held(l, from)))
  }

  lemma StepKeepsBooksIff(l: Ledger, op: Op, capital: nat)
    requires Books(l, capital) && Typed(l) && TypedOp(op)
    ensures Typed(Apply(l, op))
    ensures Books(Apply(l, op), capital) <==> StepFits(l, op)
  {
    match op
    case LiquidateOp(t, proceeds) =>
      LiquidateKeepsBooksIff(l, t, proceeds, capital);
    case SwapOp(from, fromAmount, to, toAmount) =>
      if to != WNEAR {
        if from == WNEAR {
          BuyKeepsBooks(l, fromAmount, to, toAmount, capital);
        } else {
          TransferRealizesNothing(l, from, fromAmount, to, toAmount, capital);
        }
      } else if from == WNEAR {
        SelfSwapBalancesIff(l, fromAmount, toAmount, capital);
      } else {
        var r := Clamped(l, from, fromAmount, toAmount);
        if r.Some? {
          SellKeepsBooksIff(l, from, r.value.actualIn, r.value.actualOut, capital);
        }
      }
  }

  ghost predicate AllFit(l: Ledger, ops: seq<Op>)
    decreases |ops|
  {
    ops == [] || (StepFits(l, ops[0]) && AllFit(Apply(l, ops[0]), ops[1..]))
  }

  /** The books hold now and after every operation of the run. */
  ghost predicate AlwaysBooks(l: Ledger, ops: seq<Op>, capital: nat)
    decreases |ops|
  {
    Books(l, capital) && (ops == [] || AlwaysBooks(Apply(l, ops[0]), ops[1..], capital))
  }

  lemma {:induction false} RunKeepsBooksIff(l: Ledger, ops: seq<Op>, capital: nat)
    requires Books(l, capital) && Typed(l) && forall op :: op in ops ==> TypedOp(op)
    ensures AlwaysBooks(l, ops, capital) <==> AllFit(l, ops)
    ensures AllFit(l, ops) ==> Books(Run(l, ops), capital) && Typed(Run(l, ops))
    decreases |ops|
  {
    if ops != [] {
      assert ops[0] in ops;
      StepKeepsBooksIff(l, ops[0], capital);
      if StepFits(l, ops[0]) {
        RunKeepsBooksIff(Apply(l, ops[0]), ops[1..], capital);
      }
    }
  }

  /**
   From the opening balance, a run of swaps and liquidations keeps the books at every
   moment if and only if no step of it saturates.
   */
  lemma EveryRunBalances(capital: nat, ops: seq<Op>)
    requires forall op :: op in ops ==> TypedOp(op)
    ensures AlwaysBooks(Opened(capital), ops, capital) <==> AllFit(Opened(capital), ops)
    ensures AllFit(Opened(capital), ops) ==> Books(Run(Opened(capital), ops), capital)
  {
    RunKeepsBooksIff(Opened(capital), ops, capital);
  }

  /** Purchases and transfers never saturate, however many and however large. */
  lemma {:induction false} TradesAlwaysBalance(l: Ledger, ops: seq<Op>, capital: nat)
    requires Books(l, capital) && Typed(l)
    requires forall op :: op in ops ==> op.SwapOp? && op.to != WNEAR && TypedOp(op)
    ensures AlwaysBooks(l, ops, capital)
    decreases |ops|
  {
    if ops != [] {
      assert ops[0] in ops;
      StepKeepsBooksIff(l, ops[0], capital);
      TradesAlwaysBalance(Apply(l, ops[0]), ops[1..], capital);
    }
  }

  // ---------------------------------------------------------------------------
  // Inputs for which the equation fails.

  /** One unit of WNEAR swapped for two. */
  lemma SelfSwapBreaksBooks()
    ensures !Balanced(Swap(Opened(10), WNEAR, 1, WNEAR, 2), 10)
  {
    assert Balanced(Opened(10), 10);
    SelfSwapBalancesIff(Opened(10), 1, 2, 10);
  }

  /** Two purchases of the largest amount, each for one unit, and the sale of both for one. */
  lemma LargeLiquidationBreaksBooks(t: Token)
    requires t != WNEAR
    ensures var buy := SwapOp(WNEAR, 1, t, U128_MAX);
            AllFit(Opened(2), [buy, buy]) && !Books(Run(Opened(2), [buy, buy, LiquidateOp(t, 1)]), 2)
  {
    var buy, sell := SwapOp(WNEAR, 1, t, U128_MAX), LiquidateOp(t, 1);
    var one := Apply(Opened(2), buy);
    var two := Apply(one, buy);
    StepKeepsBooksIff(Opened(2), buy, 2);
    StepKeepsBooksIff(one, buy, 2);
    assert Held(two, t) == 2 * U128_MAX && Cost(two, t) == 2 && two.pnl == 0;
    StepKeepsBooksIff(two, sell, 2);
    assert [buy, buy, sell][1..] == [buy, sell] && [buy, sell][1..] == [sell] && [sell][1..] == [];
    assert [buy, buy][1..] == [buy] && [buy][1..] == [];
    var end := Apply(two, sell);
    assert Run(end, []) == end && Run(two, [sell]) == end && Run(one, [buy, sell]) == end;
  }
}
