/**
 The storage planner: from one snapshot of the exchange contract, which stale token
 registrations to drop, which tokens to register, and how much storage that takes.
 */
module StoragePlanner {
  import opened Numeric
  import opened Selections

  const MAX_REGISTER_PER_CYCLE: nat := 100
  const SAFETY_MARGIN_NUMERATOR: nat := 11
  const SAFETY_MARGIN_DENOMINATOR: nat := 10

  /** Registered tokens with their balances, in ascending order of token. */
  type Deposits = seq<(Token, nat)>

  datatype Snapshot = Snapshot(total: nat, available: nat, deposits: Deposits, minBound: nat)

  datatype Plan =
    | InitialRegister(toRegister: seq<Token>)
    | Normal(toUnregister: seq<Token>, toRegister: seq<Token>, estimate: nat)

  datatype PlanError =
    | ArithmeticOverflow
    | TooManyTokens(requested: nat)

  function Tokens(deposits: Deposits): (ts: seq<Token>)
    ensures |ts| == |deposits|
    ensures forall i :: 0 <= i < |ts| ==> ts[i] == deposits[i].0
  {
    seq(|deposits|, i requires 0 <= i < |deposits| => deposits[i].0)
  }

  ghost predicate Distinct(ts: seq<Token>) {
    forall i, j :: 0 <= i < j < |ts| ==> ts[i] != ts[j]
  }

  function Missing(requested: seq<Token>, deposits: Deposits): (ts: seq<Token>)
    ensures |ts| <= |requested|
    ensures forall t :: t in ts <==> t in requested && t !in Tokens(deposits)
  {
    if requested == [] then []
    else
      var rest := Missing(requested[1..], deposits);
      if requested[0] in Tokens(deposits) then rest else [requested[0]] + rest
  }

  /** Registrations without balance that nobody asks to keep or to use. */
  function Stale(deposits: Deposits, requested: seq<Token>, keep: seq<Token>): (ts: seq<Token>)
    ensures |ts| <= |deposits|
    ensures forall t :: t in ts <==> (t, 0) in deposits && t !in keep && t !in requested
  {
    if deposits == [] then []
    else
      var (t, amount) := deposits[0];
      var rest := Stale(deposits[1..], requested, keep);
      if amount == 0 && t !in keep && t !in requested then [t] + rest else rest
  }

  /** Storage cost of one token, rounded up and never below the account's own minimum. */
  function PerToken(s: Snapshot): (c: nat)
    requires s.deposits != [] && s.available <= s.total
    ensures c >= s.minBound
    ensures c * |s.deposits| >= s.total - s.available - s.minBound
  {
    var usable := SaturatingSub(s.total - s.available, s.minBound);
    var average := DivCeil(usable, |s.deposits|);
    if average >= s.minBound then average
    else
      MulMonotone(average, s.minBound, |s.deposits|);
      s.minBound
  }

  function WithMargin(raw: nat): (r: nat) {
    DivCeil(raw * SAFETY_MARGIN_NUMERATOR, SAFETY_MARGIN_DENOMINATOR)
  }

  /** How many registrations have to go: enough to cover the shortage, or all there are. */
  function DropCount(stale: nat, shortage: nat, perToken: nat): (n: nat)
    requires perToken > 0
    ensures n <= stale
    ensures n < stale ==> n * perToken >= shortage
    ensures n > 0 ==> (n - 1) * perToken < shortage
  {
    var needed := DivCeil(shortage, perToken);
    if needed <= stale then needed
    else
      MulMonotone(stale, needed - 1, perToken);
      (if stale > 0 then MulMonotone(stale - 1, needed - 1, perToken); stale else stale)
  }

  function MakePlan(s: Snapshot, requested: seq<Token>, keep: seq<Token>): (r: Result<Plan, PlanError>) {
    if s.deposits == [] then
      if |requested| > MAX_REGISTER_PER_CYCLE then Err(TooManyTokens(|requested|))
      else Ok(InitialRegister(requested))
    else if s.total < s.available then Err(ArithmeticOverflow)
    else
      var perToken := PerToken(s);
      var toRegister := Missing(requested, s.deposits);
      var raw := perToken * |toRegister|;
      if |toRegister| > MAX_REGISTER_PER_CYCLE then Err(TooManyTokens(|toRegister|))
      else if raw > U128_MAX || raw * SAFETY_MARGIN_NUMERATOR > U128_MAX then Err(ArithmeticOverflow)
      else
        var estimate := WithMargin(raw);
        if estimate <= s.available then Ok(Normal([], toRegister, estimate))
        else
          var stale := Stale(s.deposits, requested, keep);
          assert perToken > 0;
          var n := DropCount(|stale|, estimate - s.available, perToken);
          Ok(Normal(stale[..n], toRegister, estimate))
  }

  // ---------------------------------------------------------------------------
  // When there is a plan.

  /** The cost per token is the least one that covers the used storage and is not below the minimum. */
  lemma PerTokenIsLeast(s: Snapshot, c: nat)
    requires s.deposits != [] && s.available <= s.total
    requires c >= s.minBound && c * |s.deposits| >= s.total - s.available - s.minBound
    ensures PerToken(s) <= c
  {
    var usable := SaturatingSub(s.total - s.available, s.minBound);
    var average := DivCeil(usable, |s.deposits|);
    if c < average {
      MulMonotone(c, average - 1, |s.deposits|);
    }
  }

  /**
   Without deposits there is a plan exactly for at most 100 tokens. With deposits, exactly when at most 100
   are missing, no more is available than the total, and 11 times their cost fits u128; too many tokens are
   reported before a cost that does not fit, and an inconsistent balance before both.
   */
  lemma PlanSucceedsIff(s: Snapshot, requested: seq<Token>, keep: seq<Token>)
    ensures var r := MakePlan(s, requested, keep);
            if s.deposits == [] then
              if |requested| <= 100 then r == Ok(InitialRegister(requested)) else r == Err(TooManyTokens(|requested|))
            else
              var missing := |Missing(requested, s.deposits)|;
              if s.available > s.total then r == Err(ArithmeticOverflow)
              else if missing > 100 then r == Err(TooManyTokens(missing))
              else if 11 * (PerToken(s) * missing) > U128_MAX then r == Err(ArithmeticOverflow)
              else r.Ok? && r.value.Normal?
  {
  }

  // ---------------------------------------------------------------------------
  // What a plan promises.

  /** A plan drops only empty registrations nobody wants, and registers exactly what is missing. */
  lemma PlanSelectsTokens(s: Snapshot, requested: seq<Token>, keep: seq<Token>)
    requires MakePlan(s, requested, keep).Ok?
    ensures match MakePlan(s, requested, keep).value
            case InitialRegister(r) => s.deposits == [] && r == requested
            case Normal(u, r, _) =>
              && s.deposits != []
              && (forall t :: t in u ==> (t, 0) in s.deposits && t !in keep && t !in requested)
              && (forall t :: t in r <==> t in requested && t !in Tokens(s.deposits))
              && |r| <= MAX_REGISTER_PER_CYCLE
  {
    var plan := MakePlan(s, requested, keep).value;
    if plan.Normal? {
      var stale := Stale(s.deposits, requested, keep);
      forall t | t in plan.toUnregister ensures t in stale {
      }
    }
  }

  /** Which of the requested tokens are not registered. */
  ghost function Unregistered(requested: seq<Token>, deposits: Deposits): (r: seq<bool>)
    ensures |r| == |requested| && forall j :: 0 <= j < |r| ==> (r[j] <==> requested[j] !in Tokens(deposits))
  {
    seq(|requested|, j requires 0 <= j < |requested| => requested[j] !in Tokens(deposits))
  }

  /** Which of the registrations are empty and wanted by nobody. */
  ghost function Droppable(deposits: Deposits, requested: seq<Token>, keep: seq<Token>): (r: seq<bool>)
    ensures |r| == |deposits|
    ensures forall j :: 0 <= j < |r| ==>
              (r[j] <==> deposits[j].1 == 0 && deposits[j].0 !in keep && deposits[j].0 !in requested)
  {
    seq(|deposits|, j requires 0 <= j < |deposits| =>
          deposits[j].1 == 0 && deposits[j].0 !in keep && deposits[j].0 !in requested)
  }

  lemma {:induction false} MissingKeeps(requested: seq<Token>, deposits: Deposits)
    ensures Keeps(Missing(requested, deposits), requested, Unregistered(requested, deposits))
  {
    if requested == [] {
      KeepsNothing(requested);
    } else {
      MissingKeeps(requested[1..], deposits);
      var kept := Unregistered(requested, deposits);
      assert kept[1..] == Unregistered(requested[1..], deposits);
      KeepsFront(Missing(requested[1..], deposits), requested, kept);
    }
  }

  lemma {:induction false} StaleKeeps(deposits: Deposits, requested: seq<Token>, keep: seq<Token>)
    ensures Keeps(Stale(deposits, requested, keep), Tokens(deposits), Droppable(deposits, requested, keep))
  {
    if deposits == [] {
      KeepsNothing(Tokens(deposits));
    } else {
      StaleKeeps(deposits[1..], requested, keep);
      var kept := Droppable(deposits, requested, keep);
      assert kept[1..] == Droppable(deposits[1..], requested, keep);
      assert Tokens(deposits)[1..] == Tokens(deposits[1..]);
      KeepsFront(Stale(deposits[1..], requested, keep), Tokens(deposits), kept);
    }
  }

  /**
   A normal plan registers every missing token once for each time it was requested, in that order, and drops
   the first of the candidates, in the order of the deposits.
   */
  lemma PlanKeepsOrder(s: Snapshot, requested: seq<Token>, keep: seq<Token>) returns (stale: seq<Token>)
    requires MakePlan(s, requested, keep).Ok? && MakePlan(s, requested, keep).value.Normal?
    ensures var plan := MakePlan(s, requested, keep).value;
            && Keeps(plan.toRegister, requested, Unregistered(requested, s.deposits))
            && Keeps(stale, Tokens(s.deposits), Droppable(s.deposits, requested, keep))
            && plan.toUnregister <= stale
  {
    stale := Stale(s.deposits, requested, keep);
    MissingKeeps(requested, s.deposits);
    StaleKeeps(s.deposits, requested, keep);
  }

  lemma {:induction false} StaleDistinct(deposits: Deposits, requested: seq<Token>, keep: seq<Token>)
    requires Distinct(Tokens(deposits))
    ensures Distinct(Stale(deposits, requested, keep))
  {
    if deposits != [] {
      var tail := deposits[1..];
      forall i, j | 0 <= i < j < |tail| ensures Tokens(tail)[i] != Tokens(tail)[j] {
        assert Tokens(deposits)[i + 1] != Tokens(deposits)[j + 1];
      }
      StaleDistinct(tail, requested, keep);
      assert forall i :: 0 <= i < |tail| ==> deposits[0].0 != Tokens(deposits)[i + 1] == tail[i].0;
    }
  }

  /** No registration is dropped twice. */
  lemma PlanDropsOnce(s: Snapshot, requested: seq<Token>, keep: seq<Token>)
    requires Distinct(Tokens(s.deposits)) && MakePlan(s, requested, keep).Ok?
    ensures var plan := MakePlan(s, requested, keep).value;
            plan.Normal? ==> Distinct(plan.toUnregister)
  {
    StaleDistinct(s.deposits, requested, keep);
  }

  /**
   The estimate is the least whole number that is 11/10 of the cost of the new tokens;
   registrations are dropped only in a shortage, no more of them than the shortage needs,
   and no fewer unless every candidate is gone.
   */
  lemma PlanIsFrugal(s: Snapshot, requested: seq<Token>, keep: seq<Token>)
    requires MakePlan(s, requested, keep).Ok? && MakePlan(s, requested, keep).value.Normal?
    ensures var plan := MakePlan(s, requested, keep).value;
            var u, est := |plan.toUnregister|, plan.estimate;
            && s.deposits != [] && s.available <= s.total
            && var perToken := PerToken(s);
            && 10 * est >= 11 * (perToken * |plan.toRegister|) > 10 * (est - 1)
            && (est <= s.available ==> u == 0)
            && (u > 0 ==> s.available + (u - 1) * perToken < est)
            && (u < |Stale(s.deposits, requested, keep)| ==> s.available + u * perToken >= est)
  {
  }
}
