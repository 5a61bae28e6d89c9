/** The mutable simulation portfolio, each method proved against the ledger value it produces. */
module PortfolioState {
  import opened Numeric
  import opened MapSums
  import L = Ledger

  class PortfolioState {
    var cashBalance: nat
    var holdings: map<Token, nat>
    var costBasis: map<Token, nat>
    var realizedPnl: int
    var realizedPnlByToken: map<Token, int>

    ghost function State(): L.Ledger
      reads this
    {
      L.Ledger(cashBalance, holdings, costBasis, realizedPnl, realizedPnlByToken)
    }

    constructor (initialCapital: nat)
      ensures State() == L.Opened(initialCapital)
    {
      cashBalance := initialCapital;
      holdings, costBasis := map[], map[];
      realizedPnl, realizedPnlByToken := 0, map[];
    }

    method AddToCostBasis(token: Token, amount: nat)
      modifies this`costBasis
      ensures State() == L.AddCost(old(State()), token, amount)
    {
      var current := if token in costBasis then costBasis[token] else 0;
      costBasis := costBasis[token := current + amount];
    }

    function AverageCostOfSold(token: Token, sellAmount: nat, totalHolding: nat): (r: nat)
      reads this
      ensures r == L.AverageCost(L.Cost(State(), token), sellAmount, totalHolding)
    {
      var totalCost := if token in costBasis then costBasis[token] else 0;
      L.AverageCost(totalCost, sellAmount, totalHolding)
    }

    method RecordSellPnl(token: Token, sellAmount: nat, proceeds: nat)
      modifies this`costBasis, this`realizedPnl, this`realizedPnlByToken
      ensures State() == L.RecordSale(old(State()), token, sellAmount, proceeds)
    {
      var held := if token in holdings then L.ToU128(holdings[token]) else 0;
      var costOfSold := AverageCostOfSold(token, sellAmount, held + sellAmount);
      var pnl := L.ToI128(proceeds - costOfSold);
      if token in costBasis {
        costBasis := costBasis[token := SaturatingSub(costBasis[token], costOfSold)];
      }
      realizedPnl := L.AddSaturating(realizedPnl, pnl);
      var tokenPnl := Get(realizedPnlByToken, token);
      realizedPnlByToken := realizedPnlByToken[token := L.AddSaturating(tokenPnl, pnl)];
      if token !in holdings || holdings[token] == 0 {
        costBasis := costBasis - {token};
        assert costBasis == old(costBasis) - {token};
      }
    }

    method ExecuteSimulatedSwap(from: Token, fromAmount: nat, to: Token, toAmount: nat)
      returns (r: Option<L.SwapResult>)
      modifies this
      ensures r == L.Clamped(old(State()), from, fromAmount, toAmount)
      ensures State() == L.Swap(old(State()), from, fromAmount, to, toAmount)
    {
      var fromBalance :=
        if from == L.WNEAR then L.ToU128(cashBalance)
        else if from in holdings then L.ToU128(holdings[from]) else 0;
      var actualFrom := Min(fromAmount, fromBalance);
      if actualFrom == 0 {
        return None;
      }
      var actualTo := L.ScaleOutput(toAmount, actualFrom, fromAmount);
      if actualTo == 0 {
        return None;
      }
      // Taken before the sale changes the basis it is computed from.
      var transferredCost :=
        if from != L.WNEAR && to != L.WNEAR then AverageCostOfSold(from, actualFrom, fromBalance) else 0;
      if from == L.WNEAR {
        cashBalance := SaturatingSub(cashBalance, actualFrom);
      } else {
        SellPosition(from, actualFrom, if to == L.WNEAR then actualTo else transferredCost);
      }
      if to == L.WNEAR {
        cashBalance := cashBalance + actualTo;
      } else {
        var current := if to in holdings then holdings[to] else 0;
        holdings := holdings[to := current + actualTo];
        if from == L.WNEAR {
          AddToCostBasis(to, actualFrom);
        } else if transferredCost != 0 {
          AddToCostBasis(to, transferredCost);
        }
      }
      return Some(L.SwapResult(actualFrom, actualTo));
    }

    method SellPosition(token: Token, amount: nat, proceeds: nat)
      modifies this
      ensures State() == L.SellFrom(old(State()), token, amount, proceeds)
    {
      if token in holdings {
        holdings := holdings[token := SaturatingSub(holdings[token], amount)];
      }
      RecordSellPnl(token, amount, proceeds);
      if token !in holdings || holdings[token] == 0 {
        holdings := holdings - {token};
      }
    }

    method LiquidateOne(token: Token, amount: nat, proceeds: nat)
      requires token in holdings && holdings[token] == amount > 0
      modifies this
      ensures State() == L.Liquidate(old(State()), token, proceeds)
    {
      if proceeds == 0 {
        return;
      }
      holdings := holdings - {token};
      RecordSellPnl(token, L.ToU128(amount), proceeds);
      cashBalance := cashBalance + proceeds;
    }

    /**
     Sell every holding at the value the rate provider gives for its amount; a value
     of zero means there is no usable rate and the position stays. Any order is covered.
     */
    method LiquidateAll(value: (Token, nat) -> nat) returns (ghost order: seq<Token>)
      modifies this
      ensures IsOrder(order, old(holdings))
      ensures State() == LiquidateEach(old(State()), order, value)
    {
      order := [];
      var todo := map t | t in holdings && holdings[t] > 0 :: holdings[t];
      while todo != map[]
        invariant StillToSell(todo, order, old(holdings), holdings)
        invariant State() == LiquidateEach(old(State()), order, value)
        decreases |todo|
      {
        assert todo.Keys != {};
        var token :| token in todo;
        SellNext(todo, order, old(State()), State(), value, token);
        LiquidateOne(token, todo[token], value(token, todo[token]));
        todo := todo - {token};
        order := order + [token];
      }
    }
  }

  // ---------------------------------------------------------------------------
  // Liquidation as a sequence of sales.

  /** Every token actually held, once. */
  ghost predicate IsOrder(order: seq<Token>, holdings: map<Token, nat>) {
    && (forall i, j :: 0 <= i < j < |order| ==> order[i] != order[j])
    && (forall t :: t in order <==> t in holdings && holdings[t] > 0)
  }

  ghost function LiquidateEach(l: L.Ledger, order: seq<Token>, value: (Token, nat) -> nat): L.Ledger {
    if order == [] then l
    else
      var n := |order| - 1;
      L.Liquidate(LiquidateEach(l, order[..n], value), order[n], value(order[n], L.Held(l, order[n])))
  }

  /** The positions not in the order so far are untouched. */
  ghost predicate StillToSell(todo: map<Token, nat>, order: seq<Token>,
                              before: map<Token, nat>, now: map<Token, nat>) {
    && (forall i, j :: 0 <= i < j < |order| ==> order[i] != order[j])
    && (forall t :: t in before && before[t] > 0 <==> t in order || t in todo)
    && (forall t :: t in todo ==> t !in order && t in now && todo[t] == now[t] == before[t])
  }

  lemma SellNext(todo: map<Token, nat>, order: seq<Token>, start: L.Ledger, now: L.Ledger,
                 value: (Token, nat) -> nat, t: Token)
    requires StillToSell(todo, order, start.holdings, now.holdings) && t in todo
    requires now == LiquidateEach(start, order, value)
    ensures var next := L.Liquidate(now, t, value(t, todo[t]));
            && next == LiquidateEach(start, order + [t], value)
            && StillToSell(todo - {t}, order + [t], start.holdings, next.holdings)
  {
    assert (order + [t])[..|order|] == order;
    assert forall x :: x in order + [t] <==> x in order || x == t;
  }

  ghost function Unsold(holdings: map<Token, nat>, order: seq<Token>): map<Token, nat> {
    map t | t in holdings && t !in order :: holdings[t]
  }

  lemma UnsoldNext(holdings: map<Token, nat>, order: seq<Token>)
    requires order != [] && order[|order| - 1] in holdings
    requires forall i, j :: 0 <= i < j < |order| ==> order[i] != order[j]
    ensures var init, t := order[..|order| - 1], order[|order| - 1];
            t in Unsold(holdings, init) && Unsold(holdings, init) - {t} == Unsold(holdings, order)
  {
    var init, t := order[..|order| - 1], order[|order| - 1];
    assert order == init + [t];
  }

  lemma {:induction false} EachMoves(l: L.Ledger, order: seq<Token>, value: (Token, nat) -> nat)
    requires L.Shaped(l)
    requires forall i, j :: 0 <= i < j < |order| ==> order[i] != order[j]
    requires forall t :: t in order ==> t in l.holdings
    ensures var now := LiquidateEach(l, order, value);
            L.Shaped(now) && Liquidating(l, now, Unsold(l.holdings, order), value)
    decreases |order|
  {
    if order == [] {
      assert Unsold(l.holdings, order) == l.holdings;
    } else {
      var init, t := order[..|order| - 1], order[|order| - 1];
      EachMoves(l, init, value);
      UnsoldNext(l.holdings, order);
      var now, todo := LiquidateEach(l, init, value), Unsold(l.holdings, init);
      L.LiquidateMoves(now, t, value(t, todo[t]));
      LiquidatingStep(l, now, todo, value, t);
    }
  }

  /**
   In whatever order, a liquidation leaves exactly what has no rate, with its cost, and
   credits every sale; with a rate for everything only cash is left.
   */
  lemma LiquidationEnds(l: L.Ledger, order: seq<Token>, value: (Token, nat) -> nat)
    requires L.Shaped(l) && IsOrder(order, l.holdings)
    ensures var now := LiquidateEach(l, order, value);
            && now.holdings == Unpriced(l.holdings, value)
            && now.basis == (map t | t in l.basis && t in now.holdings :: l.basis[t])
            && now.cash == l.cash + TotalValue(l.holdings, value)
            && ((forall t :: t in l.holdings ==> value(t, l.holdings[t]) > 0) ==>
                  now.holdings == map[] && now.basis == map[])
  {
    assert Unsold(l.holdings, order) == map[];
    EachMoves(l, order, value);
    LiquidatedAll(l, LiquidateEach(l, order, value), value);
  }

  /** Each sale of the order can be recorded when its turn comes. */
  ghost predicate EachFits(l: L.Ledger, order: seq<Token>, value: (Token, nat) -> nat) {
    order == [] ||
    var n := |order| - 1;
    && EachFits(l, order[..n], value)
    && L.LiquidationFits(LiquidateEach(l, order[..n], value), order[n], value(order[n], L.Held(l, order[n])))
  }

  /** The books hold at the start and after every sale. */
  ghost predicate EachBooks(l: L.Ledger, order: seq<Token>, value: (Token, nat) -> nat, capital: nat) {
    && L.Books(LiquidateEach(l, order, value), capital)
    && (order == [] || EachBooks(l, order[..|order| - 1], value, capital))
  }

  /**
   The books hold throughout a liquidation if and only if every sale fits; the end then is the capital and
   what was realized.
   */
  lemma {:induction false} LiquidationBooksIff(l: L.Ledger, order: seq<Token>, value: (Token, nat) -> nat, capital: nat)
    requires L.Books(l, capital) && L.Typed(l)
    ensures EachBooks(l, order, value, capital) <==> EachFits(l, order, value)
    ensures EachFits(l, order, value) ==> L.Typed(LiquidateEach(l, order, value))
    decreases |order|
  {
    if order != [] {
      var n := |order| - 1;
      LiquidationBooksIff(l, order[..n], value, capital);
      if EachFits(l, order[..n], value) {
        var now := LiquidateEach(l, order[..n], value);
        L.LiquidateKeepsBooksIff(now, order[n], value(order[n], L.Held(l, order[n])), capital);
      }
    }
  }

  /** When everything has a rate and every sale fits, the final cash is the capital plus the realized P&L. */
  lemma LiquidationRealizesAll(l: L.Ledger, order: seq<Token>, value: (Token, nat) -> nat, capital: nat)
    requires L.Books(l, capital) && L.Typed(l) && IsOrder(order, l.holdings)
    requires (forall t :: t in l.holdings ==> value(t, l.holdings[t]) > 0) && EachFits(l, order, value)
    ensures var now := LiquidateEach(l, order, value);
            now.holdings == map[] && now.basis == map[] && now.cash == capital + now.pnl
  {
    LiquidationBooksIff(l, order, value, capital);
    LiquidationEnds(l, order, value);
  }

  /** `now` is `start` with every token outside `todo` already offered for sale. */
  ghost predicate Liquidating(start: L.Ledger, now: L.Ledger, todo: map<Token, nat>, value: (Token, nat) -> nat) {
    && (forall t :: t in todo ==> t in now.holdings && todo[t] == now.holdings[t] > 0)
    && (forall t :: t in now.holdings ==> t in start.holdings && now.holdings[t] == start.holdings[t])
    && (forall t :: t in start.holdings && t !in todo ==> (t in now.holdings <==> value(t, start.holdings[t]) == 0))
    && (forall t :: t in now.basis <==> t in start.basis && t in now.holdings)
    && (forall t :: t in now.basis ==> now.basis[t] == start.basis[t])
    && now.cash + TotalValue(todo, value) == start.cash + TotalValue(start.holdings, value)
  }

  lemma LiquidatingStep(start: L.Ledger, now: L.Ledger, todo: map<Token, nat>,
                        value: (Token, nat) -> nat, t: Token)
    requires Liquidating(start, now, todo, value) && t in todo
    requires var next := L.Liquidate(now, t, value(t, todo[t]));
             && next.holdings == (if value(t, todo[t]) == 0 then now.holdings else now.holdings - {t})
             && next.basis == (if value(t, todo[t]) == 0 then now.basis else now.basis - {t})
             && next.cash == now.cash + value(t, todo[t])
    ensures Liquidating(start, L.Liquidate(now, t, value(t, todo[t])), todo - {t}, value)
  {
    TakeValue(todo, value, t);
  }

  lemma LiquidatedAll(start: L.Ledger, now: L.Ledger, value: (Token, nat) -> nat)
    requires Liquidating(start, now, map[], value)
    ensures now.holdings == Unpriced(start.holdings, value)
    ensures now.basis == map t | t in start.basis && t in now.holdings :: start.basis[t]
    ensures now.cash == start.cash + TotalValue(start.holdings, value)
    ensures (forall t :: t in start.holdings ==> value(t, start.holdings[t]) > 0) ==>
              now.holdings == map[] && now.basis == map[]
  {
    assert TotalValue(map[], value) == 0 by {
      assert Values(map[], value) == map[];
    }
    if forall t :: t in start.holdings ==> value(t, start.holdings[t]) > 0 {
      assert now.holdings == map[] && now.basis == map[];
    }
  }

  /** Holdings without a usable rate. */
  ghost function Unpriced(holdings: map<Token, nat>, value: (Token, nat) -> nat): map<Token, nat> {
    map t | t in holdings && value(t, holdings[t]) == 0 :: holdings[t]
  }

  ghost function Values(holdings: map<Token, nat>, value: (Token, nat) -> nat): map<Token, int> {
    map t | t in holdings :: value(t, holdings[t])
  }

  ghost function TotalValue(holdings: map<Token, nat>, value: (Token, nat) -> nat): nat {
    EntryAtMostSum(Values(holdings, value), L.WNEAR);
    Sum(Values(holdings, value))
  }

  lemma TakeValue(holdings: map<Token, nat>, value: (Token, nat) -> nat, t: Token)
    requires t in holdings
    ensures TotalValue(holdings, value) == value(t, holdings[t]) + TotalValue(holdings - {t}, value)
  {
    SumRemove(Values(holdings, value), t);
    assert Values(holdings, value) - {t} == Values(holdings - {t}, value);
  }
}
