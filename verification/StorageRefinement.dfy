/**
 The two views of one storage setup agree: what the code sends, as its answers decide it, is the
 run of one task of the concurrent protocol, whenever those answers are the contract's.
 */
module StorageRefinement {
  import opened Numeric
  import opened StoragePlanner
  import opened StorageSetup
  import opened StorageProtocol

  /**
   What the answers do not tell: whether a transaction reported as failed took effect all the same, and by how
   much each transaction frees or uses storage.
   */
  datatype World = World(lost: nat -> bool, freed: nat -> nat, used: nat -> nat)

  ghost function Fate(client: Client, w: World, k: nat): Tx {
    if client.succeedsAt(k) then Applied else if w.lost(k) then AppliedButReportedFailed else Rejected
  }

  ghost predicate At(s: System, i: nat, t: Task, c: Contract) {
    i < |s.tasks| && s.tasks[i] == t && s.contract == c
  }

  ghost predicate Own(events: seq<Event>, i: nat) {
    forall k :: 0 <= k < |events| ==> events[k].task == i
  }

  lemma {:induction false} RunJoin(s: System, a: seq<Event>, b: seq<Event>)
    ensures Run(s, a + b) == Run(Run(s, a), b)
    decreases |a|
  {
    if a == [] {
      assert a + b == b;
    } else {
      assert (a + b)[1..] == a[1..] + b;
      RunJoin(Step(s, a[0]), a[1..], b);
    }
  }

  lemma RunOne(s: System, e: Event)
    ensures Run(s, [e]) == Step(s, e)
  {
    assert [e][1..] == [];
  }

  // ---------------------------------------------------------------------------
  // Dropping registrations.

  ghost function AfterChunks(c: Contract, client: Client, w: World, from: nat, n: nat): Contract {
    if n == 0 then c
    else
      var before, k := AfterChunks(c, client, w, from, n - 1), from + n - 1;
      if Fate(client, w, k).Rejected? || before.available + w.freed(k) > before.total then before
      else before.(available := before.available + w.freed(k))
  }

  lemma {:induction false} ChunksRun(s: System, i: nat, t: Task, c: Contract, client: Client, w: World,
                                     from: nat, n: nat)
    returns (events: seq<Event>)
    requires At(s, i, t, c) && t.phase.Cleaning?
    ensures Own(events, i) && At(Run(s, events), i, t, AfterChunks(c, client, w, from, n))
    ensures AfterChunks(c, client, w, from, n).registered == c.registered
    decreases n
  {
    if n == 0 {
      events := [];
    } else {
      var rest := ChunksRun(s, i, t, c, client, w, from, n - 1);
      var k := from + n - 1;
      var e := UnregisterChunk(i, w.freed(k), Fate(client, w, k));
      RunJoin(s, rest, [e]);
      RunOne(Run(s, rest), e);
      events := rest + [e];
    }
  }

  // ---------------------------------------------------------------------------
  // The first deposit.

  /** The contract once the account is registered. */
  ghost function Registered(c: Contract, client: Client, cap: nat): Contract {
    if Registers(client, cap) then c.(registered := true, total := c.total + c.minBound) else c
  }

  /** The first answers are the contract's. */
  ghost predicate AnswersFirst(client: Client, c: Contract) {
    && (client.balanceAt(0).Some? ==> (client.balanceAt(0).value.Some? <==> c.registered))
    && (client.minBoundAt(1).Some? ==> client.minBoundAt(1).value == c.minBound)
  }

  lemma FirstRun(s: System, i: nat, cap: nat, c: Contract, client: Client, w: World) returns (events: seq<Event>)
    requires At(s, i, Task(cap, Locked, 0, 0), c) && AnswersFirst(client, c)
    ensures Own(events, i)
    ensures var s' := Run(s, events);
            if Prepared(client, cap) then
              At(s', i, Task(cap, Ready, FirstDeposit(client, cap), FirstDeposit(client, cap)),
                 Registered(c, client, cap))
            else
              && i < |s'.tasks| && s'.tasks[i].phase == Done(false) && s'.tasks[i].cap == cap
              && s'.tasks[i].charged <= FirstDeposit(client, cap)
  {
    if client.balanceAt(0).None? || (client.balanceAt(0).value.None? && client.minBoundAt(1).None?) {
      RunOne(s, RequestFails(i));
      events := [RequestFails(i)];
    } else {
      RunOne(s, ReadBalance(i));
      events := [ReadBalance(i)];
      if Registers(client, cap) {
        var e := SendInitialDeposit(i, Fate(client, w, 2));
        RunJoin(s, events, [e]);
        RunOne(Run(s, events), e);
        events := events + [e];
      }
    }
  }

  // ---------------------------------------------------------------------------
  // Registration.

  /** A registration that succeeds had the storage it uses. */
  ghost predicate AnswersRegister(client: Client, w: World, k: nat, c: Contract) {
    client.succeedsAt(k) ==> w.used(k) <= c.available
  }

  lemma RegisterRun(s: System, i: nat, t: Task, c: Contract, client: Client, w: World,
                    k: nat, toRegister: seq<Token>, r: Result<(), SetupError>) returns (events: seq<Event>)
    requires At(s, i, t, c) && t.phase.Registering?
    requires RegisterDone(client, k, toRegister, r) && AnswersRegister(client, w, k, c)
    ensures Own(events, i)
    ensures var s' := Run(s, events);
            i < |s'.tasks| && s'.tasks[i] == t.(phase := Done(r.Ok?))
  {
    var e := if toRegister == [] then RegisterTokens(i, 0, Applied)
             else RegisterTokens(i, w.used(k), Fate(client, w, k));
    RunOne(s, e);
    events := [e];
  }

  // ---------------------------------------------------------------------------
  // The normal plan.

  ghost function Credited(c: Contract, amount: nat): Contract {
    if amount == 0 then c else c.(total := c.total + amount, available := c.available + amount)
  }

  /** The balance read back after dropping is the contract's, and so is the answer to the registration. */
  ghost predicate AnswersNormal(client: Client, w: World, from: nat, plan: Plan, c: Contract)
    requires plan.Normal?
    reads client
  {
    var k, dropped := ReadBackAt(client, from, plan), AfterChunks(c, client, w, from + 1, |client.chunks|);
    IsBalance(client.balanceAt(k)) ==>
      && client.balanceAt(k).value.value.available == dropped.available
      && var topUp := Shortage(plan, client.balanceAt(k));
      AnswersRegister(client, w, if topUp == 0 then k + 1 else k + 2, Credited(dropped, topUp))
  }

  /** The call of task i is over, with result r and no more charged than was sent. */
  ghost predicate Ended(s: System, i: nat, cap: nat, sent: nat, r: Result<(), SetupError>) {
    i < |s.tasks| && s.tasks[i].phase == Done(r.Ok?) && s.tasks[i].cap == cap && s.tasks[i].charged <= sent
  }

  lemma TopUpRun(s: System, i: nat, cap: nat, spent: nat, estimate: nat, topUp: nat, c: Contract, client: Client,
                 w: World, from: nat, toRegister: seq<Token>, r: Result<(), SetupError>) returns (events: seq<Event>)
    requires At(s, i, Task(cap, MustTopUp(estimate, topUp), spent, spent), c) && c.registered
    requires 0 < topUp && spent + topUp <= cap && SpendDone(client, from, spent, topUp, cap, toRegister, r)
    requires AnswersRegister(client, w, from + 1, Credited(c, topUp))
    ensures Own(events, i) && Ended(Run(s, events), i, cap, client.spent, r)
  {
    var e := SendTopUp(i, Fate(client, w, from));
    RunOne(s, e);
    events := [e];
    if client.succeedsAt(from) {
      var t := Task(cap, Registering, spent + topUp, spent + topUp);
      var rest := RegisterRun(Run(s, [e]), i, t, Credited(c, topUp), client, w, from + 1, toRegister, r);
      RunJoin(s, [e], rest);
      events := [e] + rest;
    }
  }

  /** From the cap check on, with the balance read back. */
  lemma SpendRun(s: System, i: nat, cap: nat, spent: nat, estimate: nat, c: Contract, client: Client, w: World,
                 from: nat, toRegister: seq<Token>, r: Result<(), SetupError>) returns (events: seq<Event>)
    requires At(s, i, Task(cap, Cleaning(estimate), spent, spent), c) && c.registered
    requires SpendDone(client, from, spent, SaturatingSub(estimate, c.available), cap, toRegister, r)
    requires var topUp := SaturatingSub(estimate, c.available);
             AnswersRegister(client, w, if topUp == 0 then from else from + 1, Credited(c, topUp))
    ensures Own(events, i) && Ended(Run(s, events), i, cap, client.spent, r)
  {
    var e, topUp := CheckCap(i), SaturatingSub(estimate, c.available);
    RunOne(s, e);
    events := [e];
    if spent + topUp <= cap {
      var rest;
      if topUp == 0 {
        rest := RegisterRun(Run(s, [e]), i, Task(cap, Registering, spent, spent), c, client, w, from, toRegister, r);
      } else {
        rest := TopUpRun(Run(s, [e]), i, cap, spent, estimate, topUp, c, client, w, from, toRegister, r);
      }
      RunJoin(s, [e], rest);
      events := [e] + rest;
    }
  }

  lemma CleaningRun(s: System, i: nat, t: Task, c: Contract, client: Client, w: World, from: nat, n: nat, estimate: nat)
    returns (events: seq<Event>)
    requires At(s, i, t, c) && t.phase.Ready?
    ensures Own(events, i)
    ensures At(Run(s, events), i, t.(phase := Cleaning(estimate)), AfterChunks(c, client, w, from, n))
    ensures AfterChunks(c, client, w, from, n).registered == c.registered
  {
    var e := PlanNormal(i, estimate);
    RunOne(s, e);
    var rest := ChunksRun(Run(s, [e]), i, t.(phase := Cleaning(estimate)), c, client, w, from, n);
    RunJoin(s, [e], rest);
    events := [e] + rest;
  }

  lemma CleanedRun(s: System, i: nat, cap: nat, spent: nat, c: Contract, client: Client, w: World, from: nat,
                   keep: seq<Token>, plan: Plan, r: Result<(), SetupError>) returns (events: seq<Event>)
    requires plan.Normal? && c.registered && NormalDone(client, from, spent, keep, cap, plan, r)
    requires AnswersNormal(client, w, from, plan, c)
    requires At(s, i, Task(cap, Cleaning(plan.estimate), spent, spent),
                AfterChunks(c, client, w, from + 1, |client.chunks|))
    requires AfterChunks(c, client, w, from + 1, |client.chunks|).registered
    ensures Own(events, i) && Ended(Run(s, events), i, cap, client.spent, r)
  {
    var k := ReadBackAt(client, from, plan);
    if (plan.toUnregister == [] || client.depositsAt(from).Some?) && IsBalance(client.balanceAt(k)) {
      events := SpendRun(s, i, cap, spent, plan.estimate, s.contract, client, w, k + 1, plan.toRegister, r);
    } else {
      RunOne(s, RequestFails(i));
      events := [RequestFails(i)];
    }
  }

  lemma NormalRun(s: System, i: nat, cap: nat, spent: nat, c: Contract, client: Client, w: World, from: nat,
                  keep: seq<Token>, plan: Plan, r: Result<(), SetupError>) returns (events: seq<Event>)
    requires plan.Normal? && At(s, i, Task(cap, Ready, spent, spent), c) && c.registered
    requires NormalDone(client, from, spent, keep, cap, plan, r) && AnswersNormal(client, w, from, plan, c)
    ensures Own(events, i) && Ended(Run(s, events), i, cap, client.spent, r)
  {
    var first := CleaningRun(s, i, Task(cap, Ready, spent, spent), c, client, w, from + 1, |client.chunks|,
                             plan.estimate);
    var rest := CleanedRun(Run(s, first), i, cap, spent, c, client, w, from, keep, plan, r);
    RunJoin(s, first, rest);
    events := first + rest;
  }

  // ---------------------------------------------------------------------------
  // The whole call.

  /** Every answer the call depends on is the contract's at that time, for a call that holds the lock. */
  ghost predicate AnswersAll(client: Client, w: World, needed: seq<Token>, keep: seq<Token>, cap: nat, c: Contract)
    reads client
  {
    && AnswersFirst(client, c)
    && var c1, from := Registered(c, client, cap), SnapshotFrom(client, cap) + 3;
    match PlanOf(client, needed, keep, cap)
    case None => true
    case Some(InitialRegister(_)) => AnswersRegister(client, w, from, c1)
    case Some(Normal(u, n, e)) => AnswersNormal(client, w, from, Normal(u, n, e), c1)
  }

  /**
   A call whose answers are the contract's is a task's run of the protocol: from waiting for the lock to its end,
   through events of that task alone, with the same result, and charged at most what the call sent.
   */
  lemma CallIsATask(s: System, i: nat, client: Client, w: World, needed: seq<Token>, keep: seq<Token>, cap: nat,
                    r: Result<(), SetupError>) returns (events: seq<Event>)
    requires |needed| <= MAX_REGISTER_PER_CYCLE && SetupDone(client, needed, keep, cap, r)
    requires At(s, i, Task(cap, Waiting, 0, 0), s.contract) && (s.locking ==> s.lock.None?)
    requires AnswersAll(client, w, needed, keep, cap, s.contract)
    ensures Own(events, i) && Ended(Run(s, events), i, cap, client.spent, r)
  {
    RunOne(s, Acquire(i));
    var s0, c := Step(s, Acquire(i)), s.contract;
    var first := FirstRun(s0, i, cap, c, client, w);
    RunJoin(s, [Acquire(i)], first);
    events := [Acquire(i)] + first;
    if Prepared(client, cap) {
      var rest := PlannedRun(Run(s, events), i, client, w, needed, keep, cap, Registered(c, client, cap), r);
      RunJoin(s, events, rest);
      events := events + rest;
    }
  }

  /** From the snapshot on. */
  lemma PlannedRun(s: System, i: nat, client: Client, w: World, needed: seq<Token>, keep: seq<Token>, cap: nat,
                   c: Contract, r: Result<(), SetupError>) returns (events: seq<Event>)
    requires |needed| <= MAX_REGISTER_PER_CYCLE && SetupDone(client, needed, keep, cap, r) && Prepared(client, cap)
    requires At(s, i, Task(cap, Ready, FirstDeposit(client, cap), FirstDeposit(client, cap)), c) && c.registered
    requires var from := SnapshotFrom(client, cap) + 3;
             match PlanOf(client, needed, keep, cap)
             case None => true
             case Some(InitialRegister(_)) => AnswersRegister(client, w, from, c)
             case Some(Normal(u, n, e)) => AnswersNormal(client, w, from, Normal(u, n, e), c)
    ensures Own(events, i) && Ended(Run(s, events), i, cap, client.spent, r)
  {
    var first, from := FirstDeposit(client, cap), SnapshotFrom(client, cap) + 3;
    match PlanOf(client, needed, keep, cap) {
      case None =>
        RunOne(s, RequestFails(i));
        events := [RequestFails(i)];
      case Some(InitialRegister(toRegister)) =>
        var e := PlanInitialRegister(i);
        RunOne(s, e);
        var rest := RegisterRun(Run(s, [e]), i, Task(cap, Registering, first, first), c, client, w, from,
                                toRegister, r);
        RunJoin(s, [e], rest);
        events := [e] + rest;
      case Some(Normal(u, n, e)) =>
        events := NormalRun(s, i, cap, first, c, client, w, from, keep, Normal(u, n, e), r);
    }
  }
}
