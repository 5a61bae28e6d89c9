/**
 One call of the storage setup, over a client whose every answer is arbitrary: any view
 result, any failure of any request, any success or failure of any transaction.

 The client keeps account of what was sent through it. Its preconditions are the order
 the protocol promises: nothing is unregistered after money for a top-up was sent, and
 nothing at all follows the registration.
 */
module StorageSetup {
  import opened Numeric
  import opened StoragePlanner
  import opened Selections

  const CHUNK_SIZE: nat := 10

  /** Hard limit on the configured cap: 5 NEAR in yocto. */
  const TOP_UP_CEILING: nat := 5_000_000_000_000_000_000_000_000

  datatype Mode = RegistrationOnly | DepositWithRegistration

  datatype Balance = Balance(total: nat, available: nat)

  datatype SetupError =
    | NeededTooMany
    | RequestFailed
    | InitialDepositOverCap
    | BalanceDisappeared
    | PlanFailed(error: PlanError)
    | TopUpOverCap

  function MaxTopUp(configured: nat): (cap: nat)
    ensures cap <= configured && cap <= TOP_UP_CEILING
    ensures cap == configured || cap == TOP_UP_CEILING
  {
    Min(configured, TOP_UP_CEILING)
  }

  class Client {
    /** Answers by number of the request; None is a failed request. */
    const balanceAt: nat -> Option<Option<Balance>>
    const minBoundAt: nat -> Option<nat>
    const depositsAt: nat -> Option<Deposits>
    const succeedsAt: nat -> bool

    var requests: nat
    /** Storage money sent, whether or not the transaction reported success. */
    var spent: nat
    var initialDeposits: nat
    var topUps: nat
    /** Unregister transactions sent, and the tokens of the successful ones. */
    var chunks: seq<seq<Token>>
    var unregistered: nat
    var registerCalls: nat
    /** Tokens a successful transaction registered. */
    var registered: seq<Token>

    constructor (balanceAt: nat -> Option<Option<Balance>>, minBoundAt: nat -> Option<nat>,
                 depositsAt: nat -> Option<Deposits>, succeedsAt: nat -> bool)
      ensures Unused() && this.balanceAt == balanceAt && this.minBoundAt == minBoundAt
      ensures this.depositsAt == depositsAt && this.succeedsAt == succeedsAt
    {
      this.balanceAt, this.minBoundAt := balanceAt, minBoundAt;
      this.depositsAt, this.succeedsAt := depositsAt, succeedsAt;
      requests, spent, initialDeposits, topUps := 0, 0, 0, 0;
      chunks, unregistered, registerCalls, registered := [], 0, 0, [];
    }

    ghost predicate Unused()
      reads this
    {
      && requests == spent == initialDeposits == topUps == unregistered == registerCalls == 0
      && chunks == [] && registered == []
    }

    method BalanceOf() returns (r: Option<Option<Balance>>)
      modifies this`requests
      ensures requests == old(requests) + 1 && r == balanceAt(old(requests))
    {
      r := balanceAt(requests);
      requests := requests + 1;
    }

    method MinBound() returns (r: Option<nat>)
      modifies this`requests
      ensures requests == old(requests) + 1 && r == minBoundAt(old(requests))
    {
      r := minBoundAt(requests);
      requests := requests + 1;
    }

    method GetDeposits() returns (r: Option<Deposits>)
      modifies this`requests
      ensures requests == old(requests) + 1 && r == depositsAt(old(requests))
    {
      r := depositsAt(requests);
      requests := requests + 1;
    }

    method Deposit(amount: nat, mode: Mode) returns (ok: bool)
      requires registerCalls == 0 && (mode == RegistrationOnly ==> topUps == 0 && chunks == [])
      modifies this`requests, this`spent, this`initialDeposits, this`topUps
      ensures requests == old(requests) + 1 && spent == old(spent) + amount && ok == succeedsAt(old(requests))
      ensures initialDeposits == old(initialDeposits) + if mode == RegistrationOnly then 1 else 0
      ensures topUps == old(topUps) + if mode == RegistrationOnly then 0 else 1
    {
      ok := succeedsAt(requests);
      requests, spent := requests + 1, spent + amount;
      if mode == RegistrationOnly {
        initialDeposits := initialDeposits + 1;
      } else {
        topUps := topUps + 1;
      }
    }

    method UnregisterTokens(tokens: seq<Token>) returns (ok: bool)
      requires registerCalls == 0 && topUps == 0
      modifies this`requests, this`chunks, this`unregistered
      ensures requests == old(requests) + 1 && chunks == old(chunks) + [tokens] && ok == succeedsAt(old(requests))
      ensures unregistered == old(unregistered) + if ok then |tokens| else 0
    {
      ok := succeedsAt(requests);
      requests, chunks := requests + 1, chunks + [tokens];
      if ok {
        unregistered := unregistered + |tokens|;
      }
    }

    method RegisterTokens(tokens: seq<Token>) returns (ok: bool)
      requires registerCalls == 0
      modifies this`requests, this`registerCalls, this`registered
      ensures requests == old(requests) + 1 && registerCalls == 1 && ok == succeedsAt(old(requests))
      ensures registered == if ok then tokens else old(registered)
    {
      ok := succeedsAt(requests);
      requests, registerCalls := requests + 1, 1;
      if ok {
        registered := tokens;
      }
    }
  }

  ghost function Flatten(chunks: seq<seq<Token>>): seq<Token> {
    if chunks == [] then [] else Flatten(chunks[..|chunks| - 1]) + chunks[|chunks| - 1]
  }

  ghost predicate SmallChunks(chunks: seq<seq<Token>>) {
    forall i :: 0 <= i < |chunks| ==> 0 < |chunks[i]| <= CHUNK_SIZE
  }

  function Lookup(deposits: Deposits, t: Token): (amount: nat)
    requires t in Tokens(deposits)
    ensures (t, amount) in deposits
  {
    if deposits[0].0 == t then deposits[0].1
    else
      assert Tokens(deposits) == [deposits[0].0] + Tokens(deposits[1..]);
      Lookup(deposits[1..], t)
  }

  /** Planned registrations that are still empty and still unwanted. */
  function Verified(planned: seq<Token>, latest: Deposits, keep: seq<Token>): (ts: seq<Token>)
    ensures forall t :: t in ts <==> t in planned && t in Tokens(latest) && Lookup(latest, t) == 0 && t !in keep
  {
    if planned == [] then []
    else
      var t, rest := planned[0], Verified(planned[1..], latest, keep);
      if t in Tokens(latest) && Lookup(latest, t) == 0 && t !in keep then [t] + rest else rest
  }

  /** Which of the planned tokens are registered, empty and not kept. */
  ghost function StillStale(planned: seq<Token>, latest: Deposits, keep: seq<Token>): (r: seq<bool>)
    ensures |r| == |planned|
    ensures forall j :: 0 <= j < |r| ==>
              (r[j] <==> planned[j] in Tokens(latest) && Lookup(latest, planned[j]) == 0 && planned[j] !in keep)
  {
    seq(|planned|, j requires 0 <= j < |planned| =>
          planned[j] in Tokens(latest) && Lookup(latest, planned[j]) == 0 && planned[j] !in keep)
  }

  lemma {:induction false} VerifiedKeeps(planned: seq<Token>, latest: Deposits, keep: seq<Token>)
    ensures Keeps(Verified(planned, latest, keep), planned, StillStale(planned, latest, keep))
  {
    if planned == [] {
      KeepsNothing(planned);
    } else {
      VerifiedKeeps(planned[1..], latest, keep);
      var kept := StillStale(planned, latest, keep);
      assert kept[1..] == StillStale(planned[1..], latest, keep);
      KeepsFront(Verified(planned[1..], latest, keep), planned, kept);
    }
  }

  // ---------------------------------------------------------------------------
  // The steps.

  /** Unregister the verified tokens, at most ten per transaction; a failed one is passed over. */
  method UnregisterChunks(client: Client, verified: seq<Token>) returns (okCount: nat, failCount: nat)
    requires client.registerCalls == client.topUps == 0 && client.chunks == [] && client.unregistered == 0
    modifies client`requests, client`chunks, client`unregistered
    ensures Flatten(client.chunks) == verified && SmallChunks(client.chunks)
    ensures okCount == client.unregistered && okCount + failCount == |verified|
    ensures client.requests == old(client.requests) + |client.chunks|
  {
    okCount, failCount := 0, 0;
    var i := 0;
    while i < |verified|
      invariant i <= |verified|
      invariant Flatten(client.chunks) == verified[..i] && SmallChunks(client.chunks)
      invariant okCount == client.unregistered && okCount + failCount == i
      invariant client.requests == old(client.requests) + |client.chunks|
    {
      var next := Min(i + CHUNK_SIZE, |verified|);
      var chunk := verified[i..next];
      ghost var before := client.chunks;
      var ok := client.UnregisterTokens(chunk);
      assert client.chunks[..|before|] == before;
      if ok {
        okCount := okCount + |chunk|;
      } else {
        failCount := failCount + |chunk|;
      }
      assert verified[..next] == verified[..i] + chunk;
      i := next;
    }
  }

  /** What is dropped, given the answer to the re-read of the deposits. */
  ghost function ToDrop(planned: seq<Token>, answer: Option<Deposits>, keep: seq<Token>): seq<Token> {
    if planned == [] || answer.None? then [] else Verified(planned, answer.value, keep)
  }

  /** Re-read the deposits and drop what is still safe to drop; only a failed read is an error. */
  method UnregisterStale(client: Client, planned: seq<Token>, keep: seq<Token>) returns (r: Result<(), SetupError>)
    requires client.registerCalls == client.topUps == 0 && client.chunks == [] && client.unregistered == 0
    modifies client`requests, client`chunks, client`unregistered
    ensures Flatten(client.chunks) == ToDrop(planned, client.depositsAt(old(client.requests)), keep)
    ensures SmallChunks(client.chunks)
    ensures r.Err? <==> planned != [] && client.depositsAt(old(client.requests)).None?
    ensures r.Err? ==> r.error == RequestFailed && client.chunks == []
    ensures client.requests == old(client.requests) + if planned == [] then 0 else 1 + |client.chunks|
  {
    if planned == [] {
      return Ok(());
    }
    var latest := client.GetDeposits();
    if latest.None? {
      return Err(RequestFailed);
    }
    var ok, failed := UnregisterChunks(client, Verified(planned, latest.value, keep));
    return Ok(());
  }

  /** Registration alone: it sends no storage money, so it needs no cap. */
  method HandleInitialRegister(client: Client, toRegister: seq<Token>) returns (r: Result<(), SetupError>)
    requires client.registerCalls == 0 && client.registered == []
    modifies client`requests, client`registerCalls, client`registered
    ensures RegisterDone(client, old(client.requests), toRegister, r)
  {
    if toRegister != [] {
      var ok := client.RegisterTokens(toRegister);
      if !ok {
        return Err(RequestFailed);
      }
    }
    return Ok(());
  }

  /** One registration of all the tokens, or none when there are none; it succeeds when its transaction does. */
  ghost predicate RegisterDone(client: Client, from: nat, toRegister: seq<Token>, r: Result<(), SetupError>)
    reads client
  {
    && client.registerCalls == (if toRegister == [] then 0 else 1)
    && r == (if toRegister == [] || client.succeedsAt(from) then Ok(()) else Err(RequestFailed))
    && client.registered == (if r.Ok? then toRegister else [])
  }

  ghost predicate IsBalance(answer: Option<Option<Balance>>) {
    answer.Some? && answer.value.Some?
  }

  /** What is missing of the estimate, given the balance read back after dropping. */
  ghost function Shortage(plan: Plan, answer: Option<Option<Balance>>): nat
    requires plan.Normal? && IsBalance(answer)
  {
    SaturatingSub(plan.estimate, answer.value.value.available)
  }

  /** The number of the request that reads the balance back: after the re-read of the deposits and the chunks. */
  ghost function ReadBackAt(client: Client, from: nat, plan: Plan): nat
    requires plan.Normal?
    reads client
  {
    from + if plan.toUnregister == [] then 0 else 1 + |client.chunks|
  }

  /**
   Everything a normal plan does from request number `from` on, with `spent` already sent: what is dropped is
   what the fresh deposits still allow; the top-up is exactly the shortage against the balance read back, and is
   sent exactly when it is needed and within the cap; registration follows exactly when no step before it failed.
   */
  ghost predicate NormalDone(client: Client, from: nat, spent: nat, keep: seq<Token>, maxTopUp: nat,
                             plan: Plan, r: Result<(), SetupError>)
    requires plan.Normal?
    reads client
  {
    && Flatten(client.chunks) == ToDrop(plan.toUnregister, client.depositsAt(from), keep)
    && SmallChunks(client.chunks)
    && var k := ReadBackAt(client, from, plan);
    if (plan.toUnregister != [] && client.depositsAt(from).None?) || client.balanceAt(k).None? then
      r == Err(RequestFailed) && Untouched(client, spent)
    else if client.balanceAt(k).value.None? then
      r == Err(BalanceDisappeared) && Untouched(client, spent)
    else SpendDone(client, k + 1, spent, Shortage(plan, client.balanceAt(k)), maxTopUp, plan.toRegister, r)
  }

  /** From the cap check on: over the cap nothing is sent; else the top-up, if any, and then the registration. */
  ghost predicate SpendDone(client: Client, from: nat, spent: nat, topUp: nat, maxTopUp: nat,
                            toRegister: seq<Token>, r: Result<(), SetupError>)
    reads client
  {
    if spent + topUp > maxTopUp then r == Err(TopUpOverCap) && Untouched(client, spent)
    else if topUp == 0 then client.spent == spent && client.topUps == 0 && RegisterDone(client, from, toRegister, r)
    else
      && client.spent == spent + topUp && client.topUps == 1
      && if client.succeedsAt(from) then RegisterDone(client, from + 1, toRegister, r)
         else r == Err(RequestFailed) && client.registerCalls == 0 && client.registered == []
  }

  /** No top-up and no registration was sent. */
  ghost predicate Untouched(client: Client, spent: nat)
    reads client
  {
    client.spent == spent && client.topUps == client.registerCalls == 0 && client.registered == []
  }

  /**
   The standard path: drop stale registrations, recompute the top-up from what is available
   now, check it against what the cap leaves, spend it, and only then register.
   */
  method HandleNormalPlan(client: Client, keep: seq<Token>, maxTopUp: nat, initialDeposit: nat, plan: Plan)
    returns (r: Result<(), SetupError>)
    requires plan.Normal? && initialDeposit <= maxTopUp && client.spent == initialDeposit
    requires client.registerCalls == client.topUps == client.unregistered == 0
    requires client.chunks == [] && client.registered == []
    modifies client`requests, client`spent, client`initialDeposits, client`topUps,
             client`chunks, client`unregistered, client`registerCalls, client`registered
    ensures client.initialDeposits == old(client.initialDeposits)
    ensures NormalDone(client, old(client.requests), initialDeposit, keep, maxTopUp, plan, r)
  {
    r := UnregisterStale(client, plan.toUnregister, keep);
    if r.Err? {
      return;
    }
    var balance := client.BalanceOf();
    if balance.None? {
      return Err(RequestFailed);
    }
    if balance.value.None? {
      return Err(BalanceDisappeared);
    }
    var actualTopUp := SaturatingSub(plan.estimate, balance.value.value.available);
    var remainingCap := maxTopUp - initialDeposit;
    if actualTopUp > remainingCap {
      return Err(TopUpOverCap);
    }
    r := TopUpAndRegister(client, actualTopUp, plan.toRegister);
  }

  /** Spend a top-up that the cap allows, if there is any to spend, and register when that went through. */
  method TopUpAndRegister(client: Client, topUp: nat, toRegister: seq<Token>) returns (r: Result<(), SetupError>)
    requires client.registerCalls == client.topUps == 0 && client.registered == []
    modifies client`requests, client`spent, client`initialDeposits, client`topUps
    modifies client`registerCalls, client`registered
    ensures client.initialDeposits == old(client.initialDeposits)
    ensures client.spent == old(client.spent) + topUp && client.topUps == if topUp == 0 then 0 else 1
    ensures if topUp == 0 then RegisterDone(client, old(client.requests), toRegister, r)
            else if client.succeedsAt(old(client.requests)) then
              RegisterDone(client, old(client.requests) + 1, toRegister, r)
            else r == Err(RequestFailed) && client.registerCalls == 0 && client.registered == []
  {
    if topUp != 0 {
      var ok := client.Deposit(topUp, DepositWithRegistration);
      if !ok {
        return Err(RequestFailed);
      }
    }
    r := HandleInitialRegister(client, toRegister);
  }

  /** The account has no storage balance and its minimum is within the cap: the first deposit is sent. */
  ghost predicate Registers(client: Client, maxTopUp: nat) {
    client.balanceAt(0) == Some(None) && client.minBoundAt(1).Some? && client.minBoundAt(1).value <= maxTopUp
  }

  ghost function FirstDeposit(client: Client, maxTopUp: nat): nat {
    if Registers(client, maxTopUp) then client.minBoundAt(1).value else 0
  }

  /** The account is registered: it was, or the first deposit succeeded. */
  ghost predicate Prepared(client: Client, maxTopUp: nat) {
    IsBalance(client.balanceAt(0)) || (Registers(client, maxTopUp) && client.succeedsAt(2))
  }

  /** Register the account when it has no storage balance: for exactly the minimum, within the cap. */
  method InitialDeposit(client: Client, maxTopUp: nat) returns (r: Result<nat, SetupError>)
    requires client.Unused()
    modifies client`requests, client`spent, client`initialDeposits, client`topUps
    ensures client.initialDeposits == (if Registers(client, maxTopUp) then 1 else 0) && client.topUps == 0
    ensures client.spent == FirstDeposit(client, maxTopUp) <= maxTopUp
    ensures r.Ok? <==> Prepared(client, maxTopUp)
    ensures r.Ok? ==> r.value == client.spent && client.requests == if Registers(client, maxTopUp) then 3 else 1
  {
    var balance := client.BalanceOf();
    if balance.None? {
      return Err(RequestFailed);
    }
    if balance.value.Some? {
      return Ok(0);
    }
    var bound := client.MinBound();
    if bound.None? {
      return Err(RequestFailed);
    }
    if bound.value > maxTopUp {
      return Err(InitialDepositOverCap);
    }
    var ok := client.Deposit(bound.value, RegistrationOnly);
    return if ok then Ok(bound.value) else Err(RequestFailed);
  }

  /** The snapshot that three answers from request number `from` on make up. */
  ghost function SnapshotAt(client: Client, from: nat): Option<Snapshot> {
    if IsBalance(client.balanceAt(from)) && client.depositsAt(from + 1).Some? && client.minBoundAt(from + 2).Some? then
      var b := client.balanceAt(from).value.value;
      Some(Snapshot(b.total, b.available, client.depositsAt(from + 1).value, client.minBoundAt(from + 2).value))
    else None
  }

  ghost function PlanAt(client: Client, from: nat, needed: seq<Token>, keep: seq<Token>): Option<Plan> {
    match SnapshotAt(client, from)
    case None => None
    case Some(snapshot) =>
      match MakePlan(snapshot, needed, keep)
      case Err(_) => None
      case Ok(plan) => Some(plan)
  }

  /** Read balance, deposits and bound again, and let the planner decide. */
  method TakeSnapshot(client: Client, needed: seq<Token>, keep: seq<Token>) returns (r: Result<Plan, SetupError>)
    modifies client`requests
    ensures (if r.Ok? then Some(r.value) else None) == PlanAt(client, old(client.requests), needed, keep)
    ensures r.Ok? ==> client.requests == old(client.requests) + 3
  {
    var balance := client.BalanceOf();
    if balance.None? {
      return Err(RequestFailed);
    }
    if balance.value.None? {
      return Err(BalanceDisappeared);
    }
    var deposits := client.GetDeposits();
    if deposits.None? {
      return Err(RequestFailed);
    }
    var bound := client.MinBound();
    if bound.None? {
      return Err(RequestFailed);
    }
    var snapshot := Snapshot(balance.value.value.total, balance.value.value.available, deposits.value, bound.value);
    var plan := MakePlan(snapshot, needed, keep);
    if plan.Err? {
      return Err(PlanFailed(plan.error));
    }
    return Ok(plan.value);
  }

  // ---------------------------------------------------------------------------
  // The whole call.

  /** The number of the first request of the snapshot. */
  ghost function SnapshotFrom(client: Client, maxTopUp: nat): nat {
    if Registers(client, maxTopUp) then 3 else 1
  }

  /** The plan the answers lead to, if they lead to one. */
  ghost function PlanOf(client: Client, needed: seq<Token>, keep: seq<Token>, maxTopUp: nat): Option<Plan> {
    if |needed| > MAX_REGISTER_PER_CYCLE || !Prepared(client, maxTopUp) then None
    else PlanAt(client, SnapshotFrom(client, maxTopUp), needed, keep)
  }

  /** Everything a call does, as its answers decide it. */
  ghost predicate SetupDone(client: Client, needed: seq<Token>, keep: seq<Token>, maxTopUp: nat,
                            r: Result<(), SetupError>)
    reads client
  {
    && (|needed| > MAX_REGISTER_PER_CYCLE ==> client.Unused() && r == Err(NeededTooMany))
    && (|needed| <= MAX_REGISTER_PER_CYCLE ==>
          && client.initialDeposits == (if Registers(client, maxTopUp) then 1 else 0)
          && var first, from := FirstDeposit(client, maxTopUp), SnapshotFrom(client, maxTopUp) + 3;
          match PlanOf(client, needed, keep, maxTopUp)
          case None => r.Err? && Untouched(client, first) && client.chunks == []
          case Some(InitialRegister(toRegister)) =>
            && client.spent == first && client.topUps == 0 && client.chunks == []
            && RegisterDone(client, from, toRegister, r)
          case Some(Normal(u, n, e)) => NormalDone(client, from, first, keep, maxTopUp, Normal(u, n, e), r))
  }

  /** The deposits the plan was made from. */
  ghost function SeenDeposits(client: Client, maxTopUp: nat): Deposits {
    var answer := client.depositsAt(SnapshotFrom(client, maxTopUp) + 1);
    if answer.None? then [] else answer.value
  }

  /**
   What every call keeps to, whatever the answers: money within the cap, each kind of deposit at most once,
   nothing needed or kept is dropped, only needed tokens are registered, and after a success every needed
   token was registered before or is registered now.
   */
  ghost predicate SetupSafe(client: Client, needed: seq<Token>, keep: seq<Token>, maxTopUp: nat,
                            r: Result<(), SetupError>)
    reads client
  {
    && client.spent <= maxTopUp && client.initialDeposits <= 1 && client.topUps <= 1 && client.registerCalls <= 1
    && SmallChunks(client.chunks)
    && (forall t :: t in Flatten(client.chunks) ==> t !in needed && t !in keep)
    && (forall t :: t in client.registered ==> t in needed)
    && (r.Ok? ==> forall t :: t in needed ==> t in Tokens(SeenDeposits(client, maxTopUp)) || t in client.registered)
  }

  lemma NormalIsSafe(client: Client, from: nat, spent: nat, keep: seq<Token>, maxTopUp: nat,
                     plan: Plan, r: Result<(), SetupError>)
    requires plan.Normal? && spent <= maxTopUp && NormalDone(client, from, spent, keep, maxTopUp, plan, r)
    ensures client.spent <= maxTopUp && client.topUps <= 1 && client.registerCalls <= 1
    ensures forall t :: t in Flatten(client.chunks) ==> t in plan.toUnregister && t !in keep
    ensures client.registered == plan.toRegister || client.registered == []
    ensures r.Ok? ==> client.registered == plan.toRegister
  {
  }

  lemma SetupIsSafe(client: Client, needed: seq<Token>, keep: seq<Token>, maxTopUp: nat, r: Result<(), SetupError>)
    requires SetupDone(client, needed, keep, maxTopUp, r)
    ensures SetupSafe(client, needed, keep, maxTopUp, r)
  {
    match PlanOf(client, needed, keep, maxTopUp) {
      case None =>
      case Some(InitialRegister(_)) =>
        PlanSelectsTokens(SnapshotAt(client, SnapshotFrom(client, maxTopUp)).value, needed, keep);
      case Some(Normal(u, n, e)) =>
        PlanSelectsTokens(SnapshotAt(client, SnapshotFrom(client, maxTopUp)).value, needed, keep);
        NormalIsSafe(client, SnapshotFrom(client, maxTopUp) + 3, FirstDeposit(client, maxTopUp), keep, maxTopUp,
                     Normal(u, n, e), r);
    }
  }

  /**
   A successful call that registers tokens has secured the storage for them: the balance it read back and its
   top-up together reach 1.1 times a cost per token that covers what the deposits it saw were using.
   */
  lemma SuccessIsCovered(client: Client, needed: seq<Token>, keep: seq<Token>, maxTopUp: nat,
                         r: Result<(), SetupError>) returns (c: nat, estimate: nat, k: nat)
    requires SetupDone(client, needed, keep, maxTopUp, r) && r.Ok? && SeenDeposits(client, maxTopUp) != []
    ensures var from := SnapshotFrom(client, maxTopUp);
            && IsBalance(client.balanceAt(from)) && client.minBoundAt(from + 2).Some?
            && var b, bound := client.balanceAt(from).value.value, client.minBoundAt(from + 2).value;
            && b.available <= b.total && c >= bound
            && c * |SeenDeposits(client, maxTopUp)| >= b.total - b.available - bound
    ensures 10 * estimate >= 11 * (c * |client.registered|)
    ensures IsBalance(client.balanceAt(k)) && k >= SnapshotFrom(client, maxTopUp) + 3 + |client.chunks|
    ensures client.balanceAt(k).value.value.available + client.spent >= estimate + FirstDeposit(client, maxTopUp)
  {
    var from := SnapshotFrom(client, maxTopUp);
    var s, plan := SnapshotAt(client, from).value, PlanOf(client, needed, keep, maxTopUp).value;
    PlanIsFrugal(s, needed, keep);
    NormalIsSafe(client, from + 3, FirstDeposit(client, maxTopUp), keep, maxTopUp, plan, r);
    c, estimate, k := PerToken(s), plan.estimate, ReadBackAt(client, from + 3, plan);
  }

  method EnsureRefStorageSetup(client: Client, needed: seq<Token>, keep: seq<Token>, maxTopUp: nat)
    returns (r: Result<(), SetupError>)
    requires client.Unused()
    modifies client
    ensures SetupDone(client, needed, keep, maxTopUp, r) && SetupSafe(client, needed, keep, maxTopUp, r)
  {
    r := RunSetup(client, needed, keep, maxTopUp);
    SetupIsSafe(client, needed, keep, maxTopUp, r);
  }

  method RunSetup(client: Client, needed: seq<Token>, keep: seq<Token>, maxTopUp: nat)
    returns (r: Result<(), SetupError>)
    requires client.Unused()
    modifies client
    ensures SetupDone(client, needed, keep, maxTopUp, r)
  {
    if |needed| > MAX_REGISTER_PER_CYCLE {
      return Err(NeededTooMany);
    }
    var initial := InitialDeposit(client, maxTopUp);
    if initial.Err? {
      return Err(initial.error);
    }
    var plan := TakeSnapshot(client, needed, keep);
    if plan.Err? {
      return Err(plan.error);
    }
    match plan.value {
      case InitialRegister(toRegister) =>
        r := HandleInitialRegister(client, toRegister);
      case Normal(_, _, _) =>
        r := HandleNormalPlan(client, keep, maxTopUp, initial.value, plan.value);
    }
  }
}
