/**
 Any number of storage setups of one account running at once, against one contract.

 Every step is one request or one atomic transaction; the scheduler, the planner's
 estimates and the fate of every transaction are chosen by the environment. A transaction
 may also take effect and still be reported as failed.
 */
module StorageProtocol {
  import opened Numeric
  import opened StorageSetup

  // ---------------------------------------------------------------------------
  // The contract's storage account, after NEP-145.

  datatype Contract = Contract(registered: bool, total: nat, available: nat, minBound: nat)

  /** A deposit either registers only, keeping the minimum, or credits all of it. */
  function StorageDeposit(c: Contract, amount: nat, mode: Mode): (r: Option<(Contract, nat)>)
    ensures r.None? <==> !c.registered && amount < c.minBound
    ensures r.Some? ==> r.value.1 <= amount && r.value.0.total == c.total + r.value.1
    ensures r.Some? ==> r.value.0.registered && r.value.0.minBound == c.minBound
    ensures r.Some? ==>
              r.value.1 == if mode != RegistrationOnly then amount else if c.registered then 0 else c.minBound
    ensures r.Some? && c.registered ==> r.value.0.available == c.available + r.value.1
  {
    if !c.registered && amount < c.minBound then None
    else if mode == RegistrationOnly then
      if c.registered then Some((c, 0))
      else Some((c.(registered := true, total := c.total + c.minBound), c.minBound))
    else if c.registered then
      Some((c.(total := c.total + amount, available := c.available + amount), amount))
    else
      Some((c.(registered := true, total := c.total + amount, available := amount - c.minBound), amount))
  }

  // ---------------------------------------------------------------------------
  // The lock map.

  class Mutex {
    constructor () {}
  }

  /** One lock per account, created on first use and never replaced. */
  class LockMap {
    var locks: map<string, Mutex>

    /** Different accounts never share a lock. */
    ghost predicate Valid()
      reads this
    {
      forall a, b :: a in locks && b in locks && a != b ==> locks[a] != locks[b]
    }

    constructor ()
      ensures Valid() && locks == map[]
    {
      locks := map[];
    }

    method LockFor(account: string) returns (lock: Mutex)
      requires Valid()
      modifies this
      ensures Valid() && account in locks && locks[account] == lock
      ensures account in old(locks) ==> locks == old(locks)
      ensures account !in old(locks) ==> fresh(lock) && locks == old(locks)[account := lock]
    {
      if account !in locks {
        var created := new Mutex();
        locks := locks[account := created];
      }
      return locks[account];
    }
  }

  // ---------------------------------------------------------------------------
  // Tasks.

  datatype Phase =
    | Waiting
    /** Holds the lock, nothing read yet. */
    | Locked
    /** The account is not registered; the minimum passed the cap guard. */
    | MustRegister(amount: nat)
    /** Registered; about to take the snapshot. */
    | Ready
    /** Dropping stale registrations towards this estimate. */
    | Cleaning(estimate: nat)
    /** The cap check let this top-up pass. */
    | MustTopUp(estimate: nat, amount: nat)
    | Registering
    | Done(ok: bool)

  /** `charged` is the storage money the contract took for this call, `sent` what the call attached. */
  datatype Task = Task(cap: nat, phase: Phase, charged: nat, sent: nat)

  predicate PastLock(p: Phase) {
    !p.Waiting? && !p.Done?
  }

  datatype Tx = Applied | AppliedButReportedFailed | Rejected

  datatype Event =
    | Acquire(task: nat)
    | ReadBalance(task: nat)
    /** A balance or bounds view that need not be the contract's, such as that of a node lagging behind. */
    | ReadStale(task: nat, registered: bool, minBound: nat)
    | SendInitialDeposit(task: nat, tx: Tx)
    | PlanInitialRegister(task: nat)
    | PlanNormal(task: nat, estimate: nat)
    | UnregisterChunk(task: nat, freed: nat, tx: Tx)
    | CheckCap(task: nat)
    | CheckCapStale(task: nat, available: nat)
    | SendTopUp(task: nat, tx: Tx)
    | RegisterTokens(task: nat, used: nat, tx: Tx)
    | RequestFails(task: nat)

  /**
   `locking` says whether tasks take the account's lock; it is true inside one process.
   `refunded` counts initial deposits that reached an account already registered.
   */
  datatype System = System(
    contract: Contract,
    locking: bool,
    lock: Option<nat>,
    tasks: seq<Task>,
    initialDeposits: nat,
    refunded: nat)

  function Move(s: System, i: nat, p: Phase): System
    requires i < |s.tasks|
  {
    var s' := s.(tasks := s.tasks[i := s.tasks[i].(phase := p)]);
    if p.Done? && s.lock == Some(i) then s'.(lock := None) else s'
  }

  /** The contract takes money for task i. */
  function Charge(s: System, i: nat, c: Contract, amount: nat): System
    requires i < |s.tasks|
  {
    s.(contract := c, tasks := s.tasks[i := s.tasks[i].(charged := s.tasks[i].charged + amount)])
  }

  function Attach(s: System, i: nat, amount: nat): System
    requires i < |s.tasks|
  {
    s.(tasks := s.tasks[i := s.tasks[i].(sent := s.tasks[i].sent + amount)])
  }

  function SendDeposit(s: System, i: nat, amount: nat, mode: Mode, tx: Tx, next: Phase): System
    requires i < |s.tasks|
  {
    var sent := Attach(s, i, amount);
    if tx.Rejected? then Move(sent, i, Done(false))
    else
      match StorageDeposit(s.contract, amount, mode)
      case None => Move(sent, i, Done(false))
      case Some((c, taken)) =>
        var paid := Charge(sent, i, c, taken);
        var counted :=
          if mode == RegistrationOnly && s.contract.registered then paid.(refunded := s.refunded + 1)
          else if mode == RegistrationOnly then paid.(initialDeposits := s.initialDeposits + 1)
          else paid;
        Move(counted, i, if tx.Applied? then next else Done(false))
  }

  /** Where reading the balance and the bounds leads. */
  function AfterRead(t: Task, registered: bool, minBound: nat): Phase {
    if registered then Ready else if minBound > t.cap then Done(false) else MustRegister(minBound)
  }

  /** Where the cap check leads, given the available storage it reads. */
  function AfterCheck(t: Task, available: nat): Phase
    requires t.phase.Cleaning?
  {
    var topUp := SaturatingSub(t.phase.estimate, available);
    if t.sent + topUp > t.cap then Done(false)
    else if topUp == 0 then Registering
    else MustTopUp(t.phase.estimate, topUp)
  }

  /** One step; an event that is not enabled changes nothing. */
  function Step(s: System, e: Event): System {
    var i := e.task;
    if i >= |s.tasks| then s
    else
      var t := s.tasks[i];
      match e
      case Acquire(_) =>
        if !t.phase.Waiting? || (s.locking && s.lock.Some?) then s
        else Move(s, i, Locked).(lock := if s.locking then Some(i) else None)
      case ReadBalance(_) =>
        if !t.phase.Locked? then s else Move(s, i, AfterRead(t, s.contract.registered, s.contract.minBound))
      case ReadStale(_, registered, minBound) =>
        if !t.phase.Locked? then s else Move(s, i, AfterRead(t, registered, minBound))
      case SendInitialDeposit(_, tx) =>
        if !t.phase.MustRegister? then s
        else SendDeposit(s, i, t.phase.amount, RegistrationOnly, tx, Ready)
      case PlanInitialRegister(_) =>
        if !t.phase.Ready? then s else Move(s, i, Registering)
      case PlanNormal(_, estimate) =>
        if !t.phase.Ready? then s else Move(s, i, Cleaning(estimate))
      case UnregisterChunk(_, freed, tx) =>
        if !t.phase.Cleaning? || tx.Rejected? then s
        else if s.contract.available + freed > s.contract.total then s
        else s.(contract := s.contract.(available := s.contract.available + freed))
      case CheckCap(_) =>
        if !t.phase.Cleaning? then s else Move(s, i, AfterCheck(t, s.contract.available))
      case CheckCapStale(_, available) =>
        if !t.phase.Cleaning? then s else Move(s, i, AfterCheck(t, available))
      case SendTopUp(_, tx) =>
        if !t.phase.MustTopUp? then s
        else SendDeposit(s, i, t.phase.amount, DepositWithRegistration, tx, Registering)
      case RegisterTokens(_, used, tx) =>
        if !t.phase.Registering? then s
        else if tx.Rejected? || used > s.contract.available then Move(s, i, Done(false))
        else
          Move(s.(contract := s.contract.(available := s.contract.available - used)), i, Done(tx.Applied?))
      case RequestFails(_) =>
        if PastLock(t.phase) then Move(s, i, Done(false)) else s
  }

  function Run(s: System, events: seq<Event>): System
    decreases |events|
  {
    if events == [] then s else Run(Step(s, events[0]), events[1..])
  }

  /** Calls with the given configured caps, each clipped to the ceiling. */
  function Start(c: Contract, configured: seq<nat>, locking: bool): System {
    System(c, locking, None, seq(|configured|, i requires 0 <= i < |configured| =>
                                   Task(MaxTopUp(configured[i]), Waiting, 0, 0)), 0, 0)
  }

  // ---------------------------------------------------------------------------
  // Safety.

  ghost function Charged(tasks: seq<Task>): nat {
    if tasks == [] then 0 else tasks[0].charged + Charged(tasks[1..])
  }

  /** The lock is held by exactly the call that is past it. */
  ghost predicate Exclusive(s: System) {
    && (forall i :: 0 <= i < |s.tasks| && PastLock(s.tasks[i].phase) ==> s.lock == Some(i))
    && (s.lock.Some? ==> s.lock.value < |s.tasks| && PastLock(s.tasks[s.lock.value].phase))
  }

  /** What every view leaves true of a task: it was charged at most what it sent, and that stays within its cap. */
  ghost predicate WithinCap(t: Task) {
    && t.charged <= t.sent <= t.cap <= TOP_UP_CEILING
    && match t.phase
       case Waiting => t.sent == 0
       case Locked => t.sent == 0
       case MustRegister(amount) => t.sent == 0 && amount <= t.cap
       case MustTopUp(_, amount) => t.sent + amount <= t.cap
       case _ => true
  }

  /** What a task in each phase knows about the contract, when its views are current. */
  ghost predicate Knows(t: Task, c: Contract) {
    match t.phase
    case MustRegister(amount) => !c.registered && amount == c.minBound
    case MustTopUp(estimate, amount) => c.registered && 0 < amount && c.available + amount == estimate
    case Ready => c.registered
    case Cleaning(_) => c.registered
    case Registering => c.registered
    case _ => true
  }

  /** What the contract holds beyond `opening` was charged to some call, and registration happened at most once. */
  ghost predicate Bounded(s: System, opening: nat) {
    && s.locking && Exclusive(s)
    && (forall i :: 0 <= i < |s.tasks| ==> WithinCap(s.tasks[i]))
    && s.contract.total == opening + Charged(s.tasks)
    && s.initialDeposits <= 1 && (s.initialDeposits == 1 ==> s.contract.registered)
  }

  /** With current views, moreover, every task knows the contract and no deposit is refunded. */
  ghost predicate Safe(s: System, opening: nat) {
    Bounded(s, opening) && s.refunded == 0 && forall i :: 0 <= i < |s.tasks| ==> Knows(s.tasks[i], s.contract)
  }

  lemma {:induction false} ChargedUpdate(tasks: seq<Task>, i: nat, t: Task)
    requires i < |tasks|
    ensures Charged(tasks[i := t]) == Charged(tasks) - tasks[i].charged + t.charged
  {
    if i == 0 {
      assert tasks[i := t][1..] == tasks[1..];
    } else {
      ChargedUpdate(tasks[1..], i - 1, t);
      assert tasks[i := t][1..] == tasks[1..][i - 1 := t];
    }
  }

  /** The lock holder may change the contract freely, as long as it stays within its cap. */
  lemma HolderMoves(s: System, opening: nat, i: nat, c: Contract, t: Task, deposits: nat, refunded: nat)
    requires Bounded(s, opening) && s.lock == Some(i) && i < |s.tasks|
    requires t.cap == s.tasks[i].cap && WithinCap(t) && !t.phase.Waiting?
    requires c.total - s.contract.total == t.charged - s.tasks[i].charged
    requires deposits <= 1 && (deposits == 1 ==> c.registered)
    ensures Bounded(Held(s, i, c, t, deposits, refunded), opening)
    ensures Safe(s, opening) && Knows(t, c) && refunded == 0 ==> Safe(Held(s, i, c, t, deposits, refunded), opening)
  {
    ChargedUpdate(s.tasks, i, t);
  }

  /** The system after the lock holder made task i into t and the contract into c. */
  ghost function Held(s: System, i: nat, c: Contract, t: Task, deposits: nat, refunded: nat): System
    requires i < |s.tasks|
  {
    s.(contract := c, tasks := s.tasks[i := t], initialDeposits := deposits, refunded := refunded,
       lock := if t.phase.Done? then None else Some(i))
  }

  lemma AcquireSafe(s: System, opening: nat, i: nat)
    requires Bounded(s, opening) && i < |s.tasks|
    ensures Bounded(Step(s, Acquire(i)), opening)
    ensures Safe(s, opening) ==> Safe(Step(s, Acquire(i)), opening)
  {
    if s.tasks[i].phase.Waiting? && s.lock.None? {
      ChargedUpdate(s.tasks, i, s.tasks[i].(phase := Locked));
    }
  }

  /** A move of the lock holder that leaves the contract alone. */
  lemma MoveSafe(s: System, opening: nat, i: nat, p: Phase)
    requires Bounded(s, opening) && i < |s.tasks| && PastLock(s.tasks[i].phase)
    requires WithinCap(s.tasks[i].(phase := p)) && !p.Waiting?
    ensures Bounded(Move(s, i, p), opening)
    ensures Safe(s, opening) && Knows(s.tasks[i].(phase := p), s.contract) ==> Safe(Move(s, i, p), opening)
  {
    HolderMoves(s, opening, i, s.contract, s.tasks[i].(phase := p), s.initialDeposits, s.refunded);
  }

  /** A deposit of either kind, sent in the phase made for it. */
  ghost predicate InPhase(p: Phase, mode: Mode, next: Phase) {
    if mode == RegistrationOnly then p.MustRegister? && next == Ready else p.MustTopUp? && next == Registering
  }

  /** A deposit that did not take effect only ends the call. */
  lemma DepositRefused(s: System, i: nat, amount: nat, mode: Mode, tx: Tx, next: Phase)
    requires i < |s.tasks| && s.lock == Some(i)
    requires tx.Rejected? || StorageDeposit(s.contract, amount, mode).None?
    ensures SendDeposit(s, i, amount, mode, tx, next) ==
            Held(s, i, s.contract, s.tasks[i].(phase := Done(false), sent := s.tasks[i].sent + amount),
                 s.initialDeposits, s.refunded)
  {
  }

  /** One that did charges what the contract took, and counts as the registration or as a refund. */
  lemma DepositTaken(s: System, i: nat, amount: nat, mode: Mode, tx: Tx, next: Phase)
    requires i < |s.tasks| && s.lock == Some(i) && !next.Done?
    requires !tx.Rejected? && StorageDeposit(s.contract, amount, mode).Some?
    ensures var (c, taken) := StorageDeposit(s.contract, amount, mode).value;
            var t, again := s.tasks[i], mode == RegistrationOnly && s.contract.registered;
            var t' := t.(phase := if tx.Applied? then next else Done(false),
                         charged := t.charged + taken, sent := t.sent + amount);
            SendDeposit(s, i, amount, mode, tx, next) ==
            Held(s, i, c, t', s.initialDeposits + (if mode == RegistrationOnly && !again then 1 else 0),
                 s.refunded + (if again then 1 else 0))
  {
  }

  /** It keeps its task within the cap; if the task knew the contract, it still does and nothing is refunded. */
  lemma TakenWithinCap(t: Task, c: Contract, c': Contract, t': Task, mode: Mode, taken: nat, next: Phase)
    requires WithinCap(t) && InPhase(t.phase, mode, next)
    requires StorageDeposit(c, t.phase.amount, mode) == Some((c', taken))
    requires t' == t.(phase := t'.phase, charged := t.charged + taken, sent := t.sent + t.phase.amount)
    requires t'.phase == next || t'.phase == Done(false)
    ensures WithinCap(t') && !t'.phase.Waiting? && c'.total == c.total + taken
    ensures (c.registered || mode == RegistrationOnly) ==> c'.registered
    ensures Knows(t, c) ==> Knows(t', c') && !(mode == RegistrationOnly && c.registered)
  {
  }

  lemma TakenBounded(s: System, opening: nat, i: nat, mode: Mode, next: Phase,
                     c: Contract, taken: nat, t: Task, deposits: nat, refunded: nat)
    requires Bounded(s, opening) && i < |s.tasks| && s.lock == Some(i) && InPhase(s.tasks[i].phase, mode, next)
    requires StorageDeposit(s.contract, s.tasks[i].phase.amount, mode) == Some((c, taken))
    requires t == s.tasks[i].(phase := t.phase, charged := s.tasks[i].charged + taken,
                              sent := s.tasks[i].sent + s.tasks[i].phase.amount)
    requires t.phase == next || t.phase == Done(false)
    requires var again := mode == RegistrationOnly && s.contract.registered;
             && deposits == s.initialDeposits + (if mode == RegistrationOnly && !again then 1 else 0)
             && refunded == s.refunded + (if again then 1 else 0)
    ensures Bounded(Held(s, i, c, t, deposits, refunded), opening)
    ensures Safe(s, opening) ==> Safe(Held(s, i, c, t, deposits, refunded), opening)
  {
    TakenWithinCap(s.tasks[i], s.contract, c, t, mode, taken, next);
    HolderMoves(s, opening, i, c, t, deposits, refunded);
  }

  lemma TakenDepositBounded(s: System, opening: nat, i: nat, mode: Mode, tx: Tx, next: Phase)
    requires Bounded(s, opening) && i < |s.tasks| && InPhase(s.tasks[i].phase, mode, next) && s.lock == Some(i)
    requires !tx.Rejected? && StorageDeposit(s.contract, s.tasks[i].phase.amount, mode).Some?
    ensures Bounded(SendDeposit(s, i, s.tasks[i].phase.amount, mode, tx, next), opening)
    ensures Safe(s, opening) ==> Safe(SendDeposit(s, i, s.tasks[i].phase.amount, mode, tx, next), opening)
  {
    var amount := s.tasks[i].phase.amount;
    var (c, taken) := StorageDeposit(s.contract, amount, mode).value;
    DepositTaken(s, i, amount, mode, tx, next);
    var after := SendDeposit(s, i, amount, mode, tx, next);
    TakenBounded(s, opening, i, mode, next, c, taken, after.tasks[i], after.initialDeposits, after.refunded);
  }

  lemma RefusedDepositBounded(s: System, opening: nat, i: nat, mode: Mode, tx: Tx, next: Phase)
    requires Bounded(s, opening) && i < |s.tasks| && InPhase(s.tasks[i].phase, mode, next) && s.lock == Some(i)
    requires tx.Rejected? || StorageDeposit(s.contract, s.tasks[i].phase.amount, mode).None?
    ensures Bounded(SendDeposit(s, i, s.tasks[i].phase.amount, mode, tx, next), opening)
    ensures Safe(s, opening) ==> Safe(SendDeposit(s, i, s.tasks[i].phase.amount, mode, tx, next), opening)
  {
    var t, amount := s.tasks[i], s.tasks[i].phase.amount;
    DepositRefused(s, i, amount, mode, tx, next);
    HolderMoves(s, opening, i, s.contract, t.(phase := Done(false), sent := t.sent + amount),
                s.initialDeposits, s.refunded);
  }

  lemma DepositBounded(s: System, opening: nat, i: nat, mode: Mode, tx: Tx, next: Phase)
    requires Bounded(s, opening) && i < |s.tasks| && InPhase(s.tasks[i].phase, mode, next)
    ensures Bounded(SendDeposit(s, i, s.tasks[i].phase.amount, mode, tx, next), opening)
    ensures Safe(s, opening) ==> Safe(SendDeposit(s, i, s.tasks[i].phase.amount, mode, tx, next), opening)
  {
    assert s.lock == Some(i);
    if tx.Rejected? || StorageDeposit(s.contract, s.tasks[i].phase.amount, mode).None? {
      RefusedDepositBounded(s, opening, i, mode, tx, next);
    } else {
      TakenDepositBounded(s, opening, i, mode, tx, next);
    }
  }

  lemma UnregisterSafe(s: System, opening: nat, e: Event)
    requires Bounded(s, opening) && e.UnregisterChunk? && e.task < |s.tasks|
    ensures Bounded(Step(s, e), opening)
    ensures Safe(s, opening) ==> Safe(Step(s, e), opening)
  {
    var i, t, c := e.task, s.tasks[e.task], s.contract;
    if t.phase.Cleaning? && !e.tx.Rejected? && c.available + e.freed <= c.total {
      HolderMoves(s, opening, i, c.(available := c.available + e.freed), t, s.initialDeposits, s.refunded);
      assert s.tasks[i := t] == s.tasks;
    }
  }

  lemma RegisterSafe(s: System, opening: nat, e: Event)
    requires Bounded(s, opening) && e.RegisterTokens? && e.task < |s.tasks|
    ensures Bounded(Step(s, e), opening)
    ensures Safe(s, opening) ==> Safe(Step(s, e), opening)
  {
    var i, t, c := e.task, s.tasks[e.task], s.contract;
    if t.phase.Registering? {
      if e.tx.Rejected? || e.used > c.available {
        MoveSafe(s, opening, i, Done(false));
      } else {
        HolderMoves(s, opening, i, c.(available := c.available - e.used), t.(phase := Done(e.tx.Applied?)),
                    s.initialDeposits, s.refunded);
      }
    }
  }

  /** An event whose views, if it has any, are the contract's. */
  predicate Current(e: Event) {
    !e.ReadStale? && !e.CheckCapStale?
  }

  /** Every step stays within the bounds, whatever it sees; with current views it also stays safe. */
  lemma StepSafe(s: System, opening: nat, e: Event)
    requires Bounded(s, opening)
    ensures Bounded(Step(s, e), opening)
    ensures Safe(s, opening) && Current(e) ==> Safe(Step(s, e), opening)
  {
    var i := e.task;
    if i < |s.tasks| {
      var t, c := s.tasks[i], s.contract;
      match e
      case Acquire(_) => AcquireSafe(s, opening, i);
      case ReadBalance(_) =>
        if t.phase.Locked? {
          MoveSafe(s, opening, i, AfterRead(t, c.registered, c.minBound));
        }
      case ReadStale(_, registered, minBound) =>
        if t.phase.Locked? {
          MoveSafe(s, opening, i, AfterRead(t, registered, minBound));
        }
      case SendInitialDeposit(_, tx) =>
        if t.phase.MustRegister? {
          DepositBounded(s, opening, i, RegistrationOnly, tx, Ready);
        }
      case PlanInitialRegister(_) =>
        if t.phase.Ready? {
          MoveSafe(s, opening, i, Registering);
        }
      case PlanNormal(_, estimate) =>
        if t.phase.Ready? {
          MoveSafe(s, opening, i, Cleaning(estimate));
        }
      case UnregisterChunk(_, _, _) => UnregisterSafe(s, opening, e);
      case CheckCap(_) =>
        if t.phase.Cleaning? {
          MoveSafe(s, opening, i, AfterCheck(t, c.available));
        }
      case CheckCapStale(_, available) =>
        if t.phase.Cleaning? {
          MoveSafe(s, opening, i, AfterCheck(t, available));
        }
      case SendTopUp(_, tx) =>
        if t.phase.MustTopUp? {
          DepositBounded(s, opening, i, DepositWithRegistration, tx, Registering);
        }
      case RegisterTokens(_, _, _) => RegisterSafe(s, opening, e);
      case RequestFails(_) =>
        if PastLock(t.phase) {
          MoveSafe(s, opening, i, Done(false));
        }
    }
  }

  lemma {:induction false} RunSafe(s: System, opening: nat, events: seq<Event>)
    requires Bounded(s, opening)
    ensures Bounded(Run(s, events), opening)
    ensures Safe(s, opening) && (forall e :: e in events ==> Current(e)) ==> Safe(Run(s, events), opening)
    decreases |events|
  {
    if events != [] {
      assert events[0] in events;
      StepSafe(s, opening, events[0]);
      RunSafe(Step(s, events[0]), opening, events[1..]);
    }
  }

  ghost predicate SameCaps(a: seq<Task>, b: seq<Task>) {
    |a| == |b| && forall i :: 0 <= i < |a| ==> a[i].cap == b[i].cap
  }

  lemma SendKeepsCaps(s: System, i: nat, amount: nat, mode: Mode, tx: Tx, next: Phase)
    requires i < |s.tasks|
    ensures SameCaps(SendDeposit(s, i, amount, mode, tx, next).tasks, s.tasks)
  {
  }

  lemma StepKeepsCaps(s: System, e: Event)
    ensures SameCaps(Step(s, e).tasks, s.tasks)
  {
    var i := e.task;
    if i < |s.tasks| && s.tasks[i].phase.MustRegister? && e.SendInitialDeposit? {
      SendKeepsCaps(s, i, s.tasks[i].phase.amount, RegistrationOnly, e.tx, Ready);
    } else if i < |s.tasks| && s.tasks[i].phase.MustTopUp? && e.SendTopUp? {
      SendKeepsCaps(s, i, s.tasks[i].phase.amount, DepositWithRegistration, e.tx, Registering);
    }
  }

  lemma {:induction false} RunKeepsCaps(s: System, events: seq<Event>)
    ensures var s' := Run(s, events);
            |s'.tasks| == |s.tasks| && forall i :: 0 <= i < |s.tasks| ==> s'.tasks[i].cap == s.tasks[i].cap
    decreases |events|
  {
    if events != [] {
      StepKeepsCaps(s, events[0]);
      RunKeepsCaps(Step(s, events[0]), events[1..]);
    }
  }

  ghost function SumCaps(configured: seq<nat>): nat {
    if configured == [] then 0 else MaxTopUp(configured[0]) + SumCaps(configured[1..])
  }

  lemma {:induction false} ChargedAtMostCaps(tasks: seq<Task>, configured: seq<nat>)
    requires |tasks| == |configured|
    requires forall i :: 0 <= i < |tasks| ==> tasks[i].charged <= tasks[i].cap == MaxTopUp(configured[i])
    ensures Charged(tasks) <= SumCaps(configured) <= |tasks| * TOP_UP_CEILING
    decreases |tasks|
  {
    if tasks != [] {
      ChargedAtMostCaps(tasks[1..], configured[1..]);
    }
  }

  lemma {:induction false} NothingCharged(tasks: seq<Task>)
    requires forall i :: 0 <= i < |tasks| ==> tasks[i].charged == 0
    ensures Charged(tasks) == 0
    decreases |tasks|
  {
    if tasks != [] {
      NothingCharged(tasks[1..]);
    }
  }

  /**
   Every interleaving of any number of calls under the lock, whatever views they are given: at most one is past
   the lock, the account is registered by at most one initial deposit, each call is charged at most its clipped
   cap, and the contract never takes more than the sum of these. With current views no deposit is refunded.
   */
  lemma EveryInterleavingIsSafe(c: Contract, configured: seq<nat>, events: seq<Event>)
    ensures var s := Run(Start(c, configured, true), events);
            && |s.tasks| == |configured|
            && (forall i, j :: 0 <= i < j < |s.tasks| ==> !PastLock(s.tasks[i].phase) || !PastLock(s.tasks[j].phase))
            && s.initialDeposits <= 1
            && (forall i :: 0 <= i < |s.tasks| ==> s.tasks[i].charged <= MaxTopUp(configured[i]))
            && c.total <= s.contract.total <= c.total + SumCaps(configured)
            && SumCaps(configured) <= |configured| * TOP_UP_CEILING
            && ((forall e :: e in events ==> Current(e)) ==> s.refunded == 0)
  {
    var start := Start(c, configured, true);
    NothingCharged(start.tasks);
    RunSafe(start, c.total, events);
    RunKeepsCaps(start, events);
    var s := Run(start, events);
    assert forall i :: 0 <= i < |s.tasks| ==> WithinCap(s.tasks[i]);
    ChargedAtMostCaps(s.tasks, configured);
  }

  /** A stale view can make a call deposit for an account already registered: all of it comes back. */
  lemma StaleReadIsRefunded(c: Contract, cap: nat, minBound: nat)
    requires c.registered && 0 < minBound <= MaxTopUp(cap)
    ensures var events := [Acquire(0), ReadStale(0, false, minBound), SendInitialDeposit(0, Applied)];
            var s := Run(Start(c, [cap], true), events);
            s.refunded == 1 && s.contract == c && s.tasks == [Task(MaxTopUp(cap), Ready, 0, minBound)]
  {
    var a, b, d := Acquire(0), ReadStale(0, false, minBound), SendInitialDeposit(0, Applied);
    assert [a, b, d][1..] == [b, d] && [b, d][1..] == [d] && [d][1..] == [];
    var s0 := Start(c, [cap], true);
    var s1 := Step(s0, a);
    var s2 := Step(s1, b);
    var s3 := Step(s2, d);
    assert Run(s3, []) == s3 && Run(s2, [d]) == s3 && Run(s1, [b, d]) == s3;
  }

  /** Under the lock a top-up brings the available storage to the estimate and no further. */
  lemma TopUpIsExact(s: System, opening: nat, i: nat, tx: Tx)
    requires Safe(s, opening) && i < |s.tasks| && s.tasks[i].phase.MustTopUp? && !tx.Rejected?
    ensures Step(s, SendTopUp(i, tx)).contract.available == s.tasks[i].phase.estimate
  {
  }

  /**
   What the estimate is for: after the top-up a registration goes through if and only if it needs no more than
   the estimate. It then uses exactly its need, the call is done and the lock is free.
   */
  lemma RegistrationSucceedsIff(s: System, opening: nat, i: nat, used: nat)
    requires Safe(s, opening) && i < |s.tasks| && s.tasks[i].phase.MustTopUp?
    ensures var estimate := s.tasks[i].phase.estimate;
            var end := Step(Step(s, SendTopUp(i, Applied)), RegisterTokens(i, used, Applied));
            && end.tasks[i].phase == Done(used <= estimate) && end.lock.None?
            && end.contract.total == s.contract.total + s.tasks[i].phase.amount
            && end.contract.available == if used <= estimate then estimate - used else estimate
  {
    assert s.lock == Some(i);
    var paid := Step(s, SendTopUp(i, Applied));
    TopUpIsExact(s, opening, i, Applied);
    assert paid.tasks[i].phase == Registering && paid.lock == Some(i);
  }

  // Without the lock: two calls go through the same phases side by side.

  function RacePhase(k: nat): Phase {
    if k == 0 then Waiting else if k == 1 then Locked else if k == 2 then Ready
    else if k == 3 then Cleaning(5) else MustTopUp(5, 5)
  }

  function RaceEvent(k: nat, i: nat): Event {
    if k == 0 then Acquire(i) else if k == 1 then ReadBalance(i) else if k == 2 then PlanNormal(i, 5)
    else if k == 3 then CheckCap(i) else SendTopUp(i, Applied)
  }

  function Race(k: nat): System {
    System(Contract(true, 0, 0, 1), false, None, [Task(5, RacePhase(k), 0, 0), Task(5, RacePhase(k), 0, 0)], 0, 0)
  }

  lemma RaceStep(k: nat)
    requires k < 4
    ensures Step(Step(Race(k), RaceEvent(k, 0)), RaceEvent(k, 1)) == Race(k + 1)
  {
    var mid := Step(Race(k), RaceEvent(k, 0));
    assert mid == Race(k).(tasks := [Task(5, RacePhase(k + 1), 0, 0), Task(5, RacePhase(k), 0, 0)]);
  }

  lemma {:induction false} RaceRun(k: nat) returns (events: seq<Event>)
    requires k <= 4
    ensures Run(Race(k), events).contract.available == 10
    decreases 4 - k
  {
    var rest: seq<Event> := [];
    if k < 4 {
      RaceStep(k);
      rest := RaceRun(k + 1);
    } else {
      var paid := Step(Race(4), RaceEvent(4, 0));
      assert paid.tasks[1] == Task(5, MustTopUp(5, 5), 0, 0) && paid.contract == Contract(true, 5, 5, 1);
      assert Step(paid, RaceEvent(4, 1)).contract.available == 10;
    }
    events := TwoMore(Race(k), RaceEvent(k, 0), RaceEvent(k, 1), rest);
  }

  lemma TwoMore(s: System, a: Event, b: Event, rest: seq<Event>) returns (events: seq<Event>)
    ensures Run(s, events) == Run(Step(Step(s, a), b), rest)
  {
    events := [a] + ([b] + rest);
    assert events[1..] == [b] + rest && ([b] + rest)[1..] == rest;
  }

  /** Without the lock two calls can both pay for the same shortage: 10 available for an estimate of 5. */
  lemma UnlockedCallsTopUpTwice()
    ensures exists events :: Run(Start(Contract(true, 0, 0, 1), [5, 5], false), events).contract.available == 10
  {
    var events := RaceRun(0);
    assert Start(Contract(true, 0, 0, 1), [5, 5], false) == Race(0);
  }
}
