/**
 Matching the sales of a rebalance with its purchases, so that matched value is swapped
 directly from token to token instead of through wNEAR.
 */
module Matching {
  import opened Numeric

  datatype Operation =
    | Sell(token: Token, value: real, rate: real)
    | Buy(token: Token, value: real)

  datatype DirectSwap = DirectSwap(sellToken: Token, buyToken: Token, value: real, rate: real)

  datatype MatchResult = MatchResult(
    swaps: seq<DirectSwap>,
    remainingSells: seq<Operation>,
    remainingBuys: seq<Operation>)

  predicate NonNegative(ops: seq<Operation>) {
    forall i :: 0 <= i < |ops| ==> ops[i].value >= 0.0
  }

  predicate AllSells(ops: seq<Operation>) {
    forall i :: 0 <= i < |ops| ==> ops[i].Sell?
  }

  predicate AllBuys(ops: seq<Operation>) {
    forall i :: 0 <= i < |ops| ==> ops[i].Buy?
  }

  /** Value of the operations on one token. */
  ghost function ValueOf(ops: seq<Operation>, t: Token): real {
    if ops == [] then 0.0 else (if ops[0].token == t then ops[0].value else 0.0) + ValueOf(ops[1..], t)
  }

  ghost function TotalValue(ops: seq<Operation>): real {
    if ops == [] then 0.0 else ops[0].value + TotalValue(ops[1..])
  }

  ghost function SoldIn(swaps: seq<DirectSwap>, t: Token): real {
    if swaps == [] then 0.0
    else
      var last := swaps[|swaps| - 1];
      SoldIn(swaps[..|swaps| - 1], t) + if last.sellToken == t then last.value else 0.0
  }

  ghost function BoughtIn(swaps: seq<DirectSwap>, t: Token): real {
    if swaps == [] then 0.0
    else
      var last := swaps[|swaps| - 1];
      BoughtIn(swaps[..|swaps| - 1], t) + if last.buyToken == t then last.value else 0.0
  }

  ghost function TotalSwapped(swaps: seq<DirectSwap>): real {
    if swaps == [] then 0.0 else TotalSwapped(swaps[..|swaps| - 1]) + swaps[|swaps| - 1].value
  }

  // ---------------------------------------------------------------------------
  // Largest first.

  ghost predicate Descending(ops: seq<Operation>) {
    forall i, j :: 0 <= i < j < |ops| ==> ops[i].value >= ops[j].value
  }

  function Insert(op: Operation, ops: seq<Operation>): (r: seq<Operation>)
    ensures |r| == |ops| + 1 && multiset(r) == multiset(ops) + multiset{op}
    ensures forall o :: o in r <==> o == op || o in ops
  {
    if ops == [] || op.value >= ops[0].value then [op] + ops
    else
      assert ops == [ops[0]] + ops[1..];
      [ops[0]] + Insert(op, ops[1..])
  }

  function SortDescending(ops: seq<Operation>): (r: seq<Operation>)
    ensures |r| == |ops| && multiset(r) == multiset(ops)
    ensures forall o :: o in r <==> o in ops
  {
    if ops == [] then []
    else
      assert ops == [ops[0]] + ops[1..];
      Insert(ops[0], SortDescending(ops[1..]))
  }

  lemma {:induction false} InsertKeepsOrder(op: Operation, ops: seq<Operation>)
    requires Descending(ops)
    ensures Descending(Insert(op, ops))
    decreases |ops|
  {
    if ops != [] && op.value < ops[0].value {
      InsertKeepsOrder(op, ops[1..]);
      var rest := Insert(op, ops[1..]);
      forall j | 0 <= j < |rest| ensures ops[0].value >= rest[j].value {
        assert rest[j] in rest;
        if rest[j] != op {
          var i :| 0 <= i < |ops[1..]| && ops[1..][i] == rest[j];
          assert ops[i + 1] == rest[j];
        }
      }
    }
  }

  lemma {:induction false} SortedDescending(ops: seq<Operation>)
    ensures Descending(SortDescending(ops))
  {
    if ops != [] {
      SortedDescending(ops[1..]);
      InsertKeepsOrder(ops[0], SortDescending(ops[1..]));
    }
  }

  lemma {:induction false} InsertKeepsValue(op: Operation, ops: seq<Operation>, t: Token)
    ensures ValueOf(Insert(op, ops), t) == ValueOf([op] + ops, t)
    ensures TotalValue(Insert(op, ops)) == TotalValue([op] + ops)
    decreases |ops|
  {
    assert ([op] + ops)[1..] == ops;
    if ops != [] && op.value < ops[0].value {
      InsertKeepsValue(op, ops[1..], t);
      var rest := Insert(op, ops[1..]);
      assert ([ops[0]] + rest)[1..] == rest && ([op] + ops[1..])[1..] == ops[1..];
    }
  }

  lemma {:induction false} SortKeepsValue(ops: seq<Operation>, t: Token)
    ensures ValueOf(SortDescending(ops), t) == ValueOf(ops, t)
    ensures TotalValue(SortDescending(ops)) == TotalValue(ops)
  {
    if ops != [] {
      SortKeepsValue(ops[1..], t);
      InsertKeepsValue(ops[0], SortDescending(ops[1..]), t);
      var rest := SortDescending(ops[1..]);
      assert ([ops[0]] + rest)[1..] == rest;
    }
  }

  // ---------------------------------------------------------------------------
  // The walk over both lists.

  /** The first operation with what is left of it, followed by the rest. */
  ghost function Left(ops: seq<Operation>, left: real): seq<Operation>
    requires ops != []
  {
    [ops[0].(value := left)] + ops[1..]
  }

  lemma LeftValue(ops: seq<Operation>, left: real, t: Token)
    requires ops != []
    ensures ValueOf(Left(ops, left), t) == (if ops[0].token == t then left else 0.0) + ValueOf(ops[1..], t)
    ensures TotalValue(Left(ops, left)) == left + TotalValue(ops[1..])
  {
    assert Left(ops, left)[1..] == ops[1..];
  }

  /** Nothing is lost: for every token, what was swapped and what is left make up what there was. */
  ghost predicate Conserves(swaps: seq<DirectSwap>, sells: seq<Operation>, buys: seq<Operation>,
                            allSells: seq<Operation>, allBuys: seq<Operation>) {
    && (forall t :: SoldIn(swaps, t) + ValueOf(sells, t) == ValueOf(allSells, t))
    && (forall t :: BoughtIn(swaps, t) + ValueOf(buys, t) == ValueOf(allBuys, t))
    && TotalSwapped(swaps) + TotalValue(sells) == TotalValue(allSells)
    && TotalSwapped(swaps) + TotalValue(buys) == TotalValue(allBuys)
  }

  /** Every swap has a positive value and carries the token and rate of a sale, and the token of a purchase. */
  ghost predicate FromOperations(swaps: seq<DirectSwap>, sells: seq<Operation>, buys: seq<Operation>) {
    forall i :: 0 <= i < |swaps| ==>
      && swaps[i].value > 0.0
      && (exists s :: s in sells && s.Sell? && s.token == swaps[i].sellToken && s.rate == swaps[i].rate)
      && (exists b :: b in buys && b.token == swaps[i].buyToken)
  }

  /** Matching v of the current sale with v of the current purchase. */
  lemma SwapConserves(swaps: seq<DirectSwap>, sells: seq<Operation>, buys: seq<Operation>, v: real,
                      sellLeft: real, buyLeft: real, rate: real,
                      allSells: seq<Operation>, allBuys: seq<Operation>)
    requires sells != [] && buys != []
    requires Conserves(swaps, Left(sells, sellLeft), Left(buys, buyLeft), allSells, allBuys)
    ensures Conserves(swaps + [DirectSwap(sells[0].token, buys[0].token, v, rate)],
                      Left(sells, sellLeft - v), Left(buys, buyLeft - v), allSells, allBuys)
  {
    var swap := DirectSwap(sells[0].token, buys[0].token, v, rate);
    assert (swaps + [swap])[..|swaps|] == swaps;
    forall t
      ensures SoldIn(swaps + [swap], t) + ValueOf(Left(sells, sellLeft - v), t) == ValueOf(allSells, t)
      ensures BoughtIn(swaps + [swap], t) + ValueOf(Left(buys, buyLeft - v), t) == ValueOf(allBuys, t)
    {
      LeftValue(sells, sellLeft, t);
      LeftValue(sells, sellLeft - v, t);
      LeftValue(buys, buyLeft, t);
      LeftValue(buys, buyLeft - v, t);
    }
    LeftValue(sells, sellLeft, "");
    LeftValue(sells, sellLeft - v, "");
    LeftValue(buys, buyLeft, "");
    LeftValue(buys, buyLeft - v, "");
  }

  /** An operation with nothing left can be dropped. */
  lemma DropSpent(ops: seq<Operation>)
    requires ops != []
    ensures forall t :: ValueOf(Left(ops, 0.0), t) == ValueOf(ops[1..], t)
    ensures TotalValue(Left(ops, 0.0)) == TotalValue(ops[1..])
  {
    forall t ensures ValueOf(Left(ops, 0.0), t) == ValueOf(ops[1..], t) {
      LeftValue(ops, 0.0, t);
    }
    LeftValue(ops, 0.0, "");
  }

  lemma Whole(ops: seq<Operation>)
    requires ops != []
    ensures Left(ops, ops[0].value) == ops
  {
  }

  lemma {:induction false} NonNegativeTotal(ops: seq<Operation>)
    requires NonNegative(ops)
    ensures TotalValue(ops) >= 0.0
  {
    if ops != [] {
      NonNegativeTotal(ops[1..]);
    }
  }

  /** What is left to walk over: the smallest |ops| of the given operations, largest first. */
  ghost predicate Tail(ops: seq<Operation>, all: seq<Operation>) {
    |ops| <= |all| && ops == SortDescending(all)[|all| - |ops|..]
  }

  lemma TailNext(ops: seq<Operation>, all: seq<Operation>)
    requires ops != [] && Tail(ops, all)
    ensures Tail(ops[1..], all)
  {
  }

  lemma TailFrom(ops: seq<Operation>, all: seq<Operation>)
    requires ops != [] && Tail(ops, all)
    ensures ops[0] in all
  {
    assert ops[0] == SortDescending(all)[|all| - |ops|];
  }

  /** The unfinished operation, unless nothing is left of it, and everything behind it. */
  function Unfinished(ops: seq<Operation>, left: real): (rest: seq<Operation>)
    requires ops != []
  {
    (if left > 0.0 then [ops[0].(value := left)] else []) + ops[1..]
  }

  lemma UnfinishedValue(ops: seq<Operation>, left: real)
    requires ops != [] && left >= 0.0
    ensures forall t :: ValueOf(Unfinished(ops, left), t) == ValueOf(Left(ops, left), t)
    ensures TotalValue(Unfinished(ops, left)) == TotalValue(Left(ops, left))
  {
    if left > 0.0 {
      assert Unfinished(ops, left) == Left(ops, left);
    } else {
      assert Unfinished(ops, left) == ops[1..];
      DropSpent(ops);
    }
  }

  /** Only the smallest operations remain: a tail of the sorted ones, its first perhaps used in part. */
  ghost predicate Leftover(rest: seq<Operation>, all: seq<Operation>) {
    exists ops: seq<Operation>, left: real ::
      ops != [] && Tail(ops, all) && 0.0 <= left <= ops[0].value && rest == Unfinished(ops, left)
  }

  /** Where the walk stands: the swaps so far and the current operations with what is left of them. */
  datatype Walk = Walk(swaps: seq<DirectSwap>, sells: seq<Operation>, sellLeft: real,
                       buys: seq<Operation>, buyLeft: real)

  ghost predicate Balanced(w: Walk, sells: seq<Operation>, buys: seq<Operation>)
    requires w.sells != [] && w.buys != []
  {
    Conserves(w.swaps, Left(w.sells, w.sellLeft), Left(w.buys, w.buyLeft), sells, buys)
  }

  /** One match of the two current operations: as much as the smaller of them allows. */
  function Matched(w: Walk): (r: Walk)
    requires w.sells != [] && w.sells[0].Sell? && w.buys != []
  {
    var v := if w.sellLeft <= w.buyLeft then w.sellLeft else w.buyLeft;
    var swap := DirectSwap(w.sells[0].token, w.buys[0].token, v, w.sells[0].rate);
    Walk(if v > 0.0 then w.swaps + [swap] else w.swaps, w.sells, w.sellLeft - v, w.buys, w.buyLeft - v)
  }

  lemma MatchedBalanced(w: Walk, sells: seq<Operation>, buys: seq<Operation>)
    requires w.sells != [] && w.buys != [] && w.sells[0].Sell?
    requires w.sellLeft >= 0.0 && w.buyLeft >= 0.0 && Balanced(w, sells, buys)
    ensures Balanced(Matched(w), sells, buys)
  {
    var v := if w.sellLeft <= w.buyLeft then w.sellLeft else w.buyLeft;
    if v > 0.0 {
      SwapConserves(w.swaps, w.sells, w.buys, v, w.sellLeft, w.buyLeft, w.sells[0].rate, sells, buys);
    } else {
      assert Matched(w) == w;
    }
  }

  lemma MatchedFrom(w: Walk, sells: seq<Operation>, buys: seq<Operation>)
    requires w.sells != [] && w.sells[0].Sell? && Tail(w.sells, sells)
    requires w.buys != [] && Tail(w.buys, buys) && FromOperations(w.swaps, sells, buys)
    ensures FromOperations(Matched(w).swaps, sells, buys)
  {
    TailFrom(w.sells, sells);
    TailFrom(w.buys, buys);
  }

  function NextSell(w: Walk): (r: Walk)
    requires |w.sells| > 1
  {
    w.(sells := w.sells[1..], sellLeft := w.sells[1].value)
  }

  function NextBuy(w: Walk): (r: Walk)
    requires |w.buys| > 1
  {
    w.(buys := w.buys[1..], buyLeft := w.buys[1].value)
  }

  lemma NextSellBalanced(w: Walk, sells: seq<Operation>, buys: seq<Operation>)
    requires |w.sells| > 1 && w.sellLeft == 0.0 && w.buys != [] && Balanced(w, sells, buys)
    ensures Balanced(NextSell(w), sells, buys)
  {
    DropSpent(w.sells);
    Whole(w.sells[1..]);
  }

  lemma NextBuyBalanced(w: Walk, sells: seq<Operation>, buys: seq<Operation>)
    requires |w.buys| > 1 && w.buyLeft == 0.0 && w.sells != [] && Balanced(w, sells, buys)
    ensures Balanced(NextBuy(w), sells, buys)
  {
    DropSpent(w.buys);
    Whole(w.buys[1..]);
  }

  function Start(sells: seq<Operation>, buys: seq<Operation>): (w: Walk)
    requires sells != [] && buys != []
  {
    var s, b := SortDescending(sells), SortDescending(buys);
    Walk([], s, s[0].value, b, b[0].value)
  }

  lemma StartBalanced(sells: seq<Operation>, buys: seq<Operation>)
    requires sells != [] && buys != []
    ensures Balanced(Start(sells, buys), sells, buys)
  {
    var w := Start(sells, buys);
    Whole(w.sells);
    Whole(w.buys);
    forall t ensures ValueOf(w.sells, t) == ValueOf(sells, t) && ValueOf(w.buys, t) == ValueOf(buys, t) {
      SortKeepsValue(sells, t);
      SortKeepsValue(buys, t);
    }
    SortKeepsValue(sells, "");
    SortKeepsValue(buys, "");
  }

  /** Everything kept between rounds; the extra swap is made up for by an operation that is spent. */
  ghost predicate Walking(w: Walk, extra: nat, sells: seq<Operation>, buys: seq<Operation>) {
    && w.sells != [] && Tail(w.sells, sells) && 0.0 <= w.sellLeft <= w.sells[0].value
    && w.buys != [] && Tail(w.buys, buys) && 0.0 <= w.buyLeft <= w.buys[0].value
    && |w.swaps| + |w.sells| + |w.buys| <= |sells| + |buys| + extra
    && Balanced(w, sells, buys) && FromOperations(w.swaps, sells, buys)
  }

  lemma LeftoverTotal(rest: seq<Operation>, all: seq<Operation>)
    requires NonNegative(all) && Leftover(rest, all)
    ensures TotalValue(rest) >= 0.0
  {
    var ops: seq<Operation>, left: real :|
      ops != [] && Tail(ops, all) && 0.0 <= left <= ops[0].value && rest == Unfinished(ops, left);
    forall i | 0 <= i < |rest| ensures rest[i].value >= 0.0 {
      if rest[i].value != left {
        assert rest[i] in ops;
        assert rest[i] in SortDescending(all);
      }
    }
    NonNegativeTotal(rest);
  }

  /** What the matching of non-empty sides promises. */
  ghost predicate IsMatching(r: MatchResult, sells: seq<Operation>, buys: seq<Operation>) {
    && Conserves(r.swaps, r.remainingSells, r.remainingBuys, sells, buys)
    && FromOperations(r.swaps, sells, buys)
    && |r.swaps| < |sells| + |buys|
    && ((r.remainingSells == [] && Leftover(r.remainingBuys, buys))
        || (r.remainingBuys == [] && Leftover(r.remainingSells, sells)))
  }

  /** As much is matched as can be: the smaller of the two totals. */
  lemma MatchesTheSmallerTotal(r: MatchResult, sells: seq<Operation>, buys: seq<Operation>)
    requires NonNegative(sells) && NonNegative(buys) && IsMatching(r, sells, buys)
    ensures TotalSwapped(r.swaps) ==
            if TotalValue(sells) <= TotalValue(buys) then TotalValue(sells) else TotalValue(buys)
  {
    if r.remainingSells == [] && Leftover(r.remainingBuys, buys) {
      LeftoverTotal(r.remainingBuys, buys);
    } else {
      LeftoverTotal(r.remainingSells, sells);
    }
  }

  /** All sales are used up: the purchases left over are the smallest. */
  lemma SalesUsedUp(w: Walk, sells: seq<Operation>, buys: seq<Operation>)
    requires Walking(w, 1, sells, buys) && |w.sells| == 1 && w.sellLeft == 0.0
    ensures IsMatching(MatchResult(w.swaps, [], Unfinished(w.buys, w.buyLeft)), sells, buys)
  {
    DropSpent(w.sells);
    assert w.sells[1..] == [];
    UnfinishedValue(w.buys, w.buyLeft);
  }

  lemma PurchasesUsedUp(w: Walk, extra: nat, sells: seq<Operation>, buys: seq<Operation>)
    requires Walking(w, extra, sells, buys) && extra <= 1 && |w.buys| == 1 && w.buyLeft == 0.0
    ensures IsMatching(MatchResult(w.swaps, Unfinished(w.sells, w.sellLeft), []), sells, buys)
  {
    DropSpent(w.buys);
    assert w.buys[1..] == [];
    UnfinishedValue(w.sells, w.sellLeft);
  }

  lemma MatchedWalking(w: Walk, sells: seq<Operation>, buys: seq<Operation>)
    requires Walking(w, 0, sells, buys) && w.sells[0].Sell?
    ensures Walking(Matched(w), 1, sells, buys)
    ensures Matched(w).sellLeft == 0.0 || Matched(w).buyLeft == 0.0
  {
    MatchedBalanced(w, sells, buys);
    MatchedFrom(w, sells, buys);
  }

  lemma NextSellWalking(w: Walk, extra: nat, sells: seq<Operation>, buys: seq<Operation>)
    requires Walking(w, extra, sells, buys) && NonNegative(sells) && |w.sells| > 1 && w.sellLeft == 0.0
    ensures Walking(NextSell(w), if extra == 0 then 0 else extra - 1, sells, buys)
  {
    NextSellBalanced(w, sells, buys);
    TailNext(w.sells, sells);
    TailFrom(w.sells[1..], sells);
  }

  lemma NextBuyWalking(w: Walk, extra: nat, sells: seq<Operation>, buys: seq<Operation>)
    requires Walking(w, extra, sells, buys) && NonNegative(buys) && |w.buys| > 1 && w.buyLeft == 0.0
    ensures Walking(NextBuy(w), if extra == 0 then 0 else extra - 1, sells, buys)
  {
    NextBuyBalanced(w, sells, buys);
    TailNext(w.buys, buys);
    TailFrom(w.buys[1..], buys);
  }

  lemma StartWalking(sells: seq<Operation>, buys: seq<Operation>)
    requires sells != [] && buys != [] && NonNegative(sells) && NonNegative(buys)
    ensures Walking(Start(sells, buys), 0, sells, buys)
  {
    StartBalanced(sells, buys);
    var w := Start(sells, buys);
    assert w.sells[0] in w.sells && w.buys[0] in w.buys;
  }

  method MatchRebalanceOperations(sells: seq<Operation>, buys: seq<Operation>) returns (r: MatchResult)
    requires AllSells(sells) && AllBuys(buys) && NonNegative(sells) && NonNegative(buys)
    ensures sells == [] || buys == [] ==> r == MatchResult([], sells, buys)
    ensures sells != [] && buys != [] ==> IsMatching(r, sells, buys)
  {
    if sells == [] || buys == [] {
      return MatchResult([], sells, buys);
    }
    var w := Start(sells, buys);
    StartWalking(sells, buys);
    while true
      invariant Walking(w, 0, sells, buys)
      decreases |w.sells| + |w.buys|
    {
      ghost var extra := 1;
      TailFrom(w.sells, sells);
      MatchedWalking(w, sells, buys);
      w := Matched(w);
      if w.sellLeft == 0.0 {
        if |w.sells| == 1 {
          SalesUsedUp(w, sells, buys);
          return MatchResult(w.swaps, [], Unfinished(w.buys, w.buyLeft));
        }
        NextSellWalking(w, 1, sells, buys);
        w := NextSell(w);
        extra := 0;
      }
      if w.buyLeft == 0.0 {
        if |w.buys| == 1 {
          PurchasesUsedUp(w, extra, sells, buys);
          return MatchResult(w.swaps, Unfinished(w.sells, w.sellLeft), []);
        }
        NextBuyWalking(w, extra, sells, buys);
        w := NextBuy(w);
      }
    }
  }
}
