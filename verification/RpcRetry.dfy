/**
 One RPC call: attempts on an endpoint until it is abandoned, then on the next, until an answer
 comes through or the retry limit is passed. The outcome of every attempt, the clock and the
 random draws are parameters, numbered by attempt.
 */
module RpcRetry {
  import opened Numeric
  import opened EndpointPools

  datatype Outcome<R, E> =
    | Through(answer: Result<R, E>)
    | Retry(error: E)
    | SwitchEndpoint(error: E)

  const U16_MAX: nat := 0xFFFF

  /** After n attempts the call is over, with answer r. */
  ghost predicate Finished<R, E>(outcome: nat -> Outcome<R, E>, limit: nat, n: nat, r: Result<R, E>) {
    && 1 <= n <= limit + 1
    && (forall k :: 0 <= k < n - 1 ==> !outcome(k).Through?)
    && match outcome(n - 1)
       case Through(answer) => r == answer
       case _ => n == limit + 1 && r == Err(outcome(n - 1).error)
  }

  /** The outcomes alone decide how many attempts are made and what the answer is. */
  lemma FinishedUnique<R, E>(outcome: nat -> Outcome<R, E>, limit: nat,
                             n: nat, r: Result<R, E>, m: nat, s: Result<R, E>)
    requires Finished(outcome, limit, n, r) && Finished(outcome, limit, m, s)
    ensures n == m && r == s
  {
  }

  /** A stay at one endpoint: the attempts from first up to, not including, end. */
  datatype Visit = Visit(endpoint: Endpoint, first: nat, end: nat)

  /** A stay lasts while it is worth retrying, at most maxRetries + 1 attempts. */
  ghost predicate IsVisit<R, E>(outcome: nat -> Outcome<R, E>, v: Visit) {
    && v.first < v.end <= v.first + v.endpoint.maxRetries + 1
    && forall k :: v.first <= k < v.end - 1 ==> outcome(k).Retry?
  }

  /** A stay that was given up: the server asked for it, or its retries were used up. */
  ghost predicate IsAbandoned<R, E>(outcome: nat -> Outcome<R, E>, v: Visit) {
    && IsVisit(outcome, v)
    && (outcome(v.end - 1).SwitchEndpoint? ||
        (outcome(v.end - 1).Retry? && v.end == v.first + v.endpoint.maxRetries + 1))
  }

  // ---------------------------------------------------------------------------
  // What a call does to the pool.

  /** The pool's configuration, the clock and the random draws, by number of attempts made. */
  datatype Setting = Setting(endpoints: seq<Endpoint>, resetSeconds: nat, now: nat -> nat, draw: nat -> nat)

  /** The pool's history after one more stay: all forgiven if none was available, and its mark if it was given up. */
  ghost function AfterVisit(s: Setting, history: seq<PoolEvent>, v: Visit, marked: bool): seq<PoolEvent> {
    history
    + (if Available(s.endpoints, Pending(history, s.resetSeconds), s.now(v.first)) == [] then [Forgiven] else [])
    + (if marked then [Marked(v.endpoint.url, s.now(v.end))] else [])
  }

  /** The history after stays that were all given up: each of them marked, in order. */
  ghost function AfterVisits(s: Setting, history: seq<PoolEvent>, visits: seq<Visit>): seq<PoolEvent> {
    if visits == [] then history
    else
      var n := |visits| - 1;
      AfterVisit(s, AfterVisits(s, history, visits[..n]), visits[n], true)
  }

  /** What one stay does, given the pool's history before it. */
  ghost predicate IsStay<R, E>(outcome: nat -> Outcome<R, E>, s: Setting, before: seq<PoolEvent>,
                               after: seq<PoolEvent>, v: Visit, marked: bool) {
    && IsVisit(outcome, v) && after == AfterVisit(s, before, v, marked)
    && Picks(s.endpoints, Pending(before, s.resetSeconds), s.now(v.first), s.draw(v.first), v.endpoint)
  }

  /** n attempts in stays without a gap, each at the endpoint selected at its time, and each given up. */
  ghost predicate GivenUp<R, E>(outcome: nat -> Outcome<R, E>, s: Setting, before: seq<PoolEvent>,
                                given: seq<Visit>, n: nat) {
    if given == [] then n == 0
    else
      var init, v := given[..|given| - 1], given[|given| - 1];
      && v.end == n && IsAbandoned(outcome, v) && GivenUp(outcome, s, before, init, v.first)
      && IsStay(outcome, s, AfterVisits(s, before, init), AfterVisits(s, before, given), v, true)
  }

  /** The call is still going on: n attempts, none of which came through, and their effect on the pool. */
  ghost predicate Underway<R, E>(outcome: nat -> Outcome<R, E>, s: Setting, before: seq<PoolEvent>,
                                 now: seq<PoolEvent>, given: seq<Visit>, n: nat) {
    && GivenUp(outcome, s, before, given, n) && now == AfterVisits(s, before, given)
    && forall k :: 0 <= k < n ==> !outcome(k).Through?
  }

  /** What a whole call does: the stays it gave up and its last one, its answer, and what it leaves in the pool. */
  ghost predicate IsCall<R, E>(outcome: nat -> Outcome<R, E>, s: Setting, limit: nat, before: seq<PoolEvent>,
                               after: seq<PoolEvent>, given: seq<Visit>, last: Visit, answer: Result<R, E>) {
    && Finished(outcome, limit, last.end, answer)
    && GivenUp(outcome, s, before, given, last.first)
    && IsStay(outcome, s, AfterVisits(s, before, given), after, last, outcome(last.end - 1).SwitchEndpoint?)
  }

  lemma NextVisit<R, E>(outcome: nat -> Outcome<R, E>, s: Setting, before: seq<PoolEvent>, now: seq<PoolEvent>,
                        after: seq<PoolEvent>, given: seq<Visit>, v: Visit)
    requires Underway(outcome, s, before, now, given, v.first) && IsAbandoned(outcome, v)
    requires IsStay(outcome, s, now, after, v, true)
    requires forall k :: 0 <= k < v.end ==> !outcome(k).Through?
    ensures Underway(outcome, s, before, after, given + [v], v.end)
  {
    assert (given + [v])[..|given|] == given;
  }

  lemma LastVisit<R, E>(outcome: nat -> Outcome<R, E>, s: Setting, limit: nat, before: seq<PoolEvent>,
                        now: seq<PoolEvent>, after: seq<PoolEvent>, given: seq<Visit>, v: Visit, answer: Result<R, E>)
    requires Underway(outcome, s, before, now, given, v.first) && Finished(outcome, limit, v.end, answer)
    requires IsStay(outcome, s, now, after, v, outcome(v.end - 1).SwitchEndpoint?)
    ensures IsCall(outcome, s, limit, before, after, given, v, answer)
  {
  }

  /** While its failure is pending, an endpoint just given up is not tried next, unless every endpoint is failing. */
  lemma GivenUpIsAvoided(s: Setting, history: seq<PoolEvent>, v: Visit, next: Visit)
    requires var failures := Pending(AfterVisit(s, history, v, true), s.resetSeconds);
             Picks(s.endpoints, failures, s.now(next.first), s.draw(next.first), next.endpoint)
    requires s.now(next.first) < s.now(v.end) + s.resetSeconds
    ensures || next.endpoint.url != v.endpoint.url
            || forall e :: e in s.endpoints ==>
                 !IsAvailable(e, Pending(AfterVisit(s, history, v, true), s.resetSeconds), s.now(next.first))
  {
    var after := AfterVisit(s, history, v, true);
    var failures := Pending(after, s.resetSeconds);
    assert after[|after| - 1] == Marked(v.endpoint.url, s.now(v.end));
    var available := Available(s.endpoints, failures, s.now(next.first));
    if available != [] {
      assert next.endpoint in available;
    }
  }

  class StandardRpcClient {
    const pool: EndpointPool
    const retryLimit: nat

    constructor (pool: EndpointPool, retryLimit: nat)
      ensures this.pool == pool && this.retryLimit == retryLimit
    {
      this.pool := pool;
      this.retryLimit := retryLimit;
    }

    /** Attempts on one endpoint, counted on from first, and whether the endpoint is to be marked. */
    method Attempts<R, E>(endpoint: Endpoint, first: nat, outcome: nat -> Outcome<R, E>)
      returns (answer: Option<Result<R, E>>, count: nat, failed: bool)
      requires first <= retryLimit
      requires forall k :: 0 <= k < first ==> !outcome(k).Through?
      ensures IsVisit(outcome, Visit(endpoint, first, count))
      ensures answer.Some? ==> Finished(outcome, retryLimit, count, answer.value)
      ensures answer.None? ==>
                && IsAbandoned(outcome, Visit(endpoint, first, count)) && count <= retryLimit
                && forall k :: 0 <= k < count ==> !outcome(k).Through?
      ensures failed <==> answer.None? || outcome(count - 1).SwitchEndpoint?
    {
      count := first;
      var endpointCount := 0;
      while true
        invariant first <= count <= retryLimit && count == first + endpointCount
        invariant endpointCount <= endpoint.maxRetries
        invariant forall k :: 0 <= k < count ==> !outcome(k).Through?
        invariant forall k :: first <= k < count ==> outcome(k).Retry?
        decreases retryLimit - count
      {
        match outcome(count) {
          case Through(result) =>
            return Some(result), count + 1, false;
          case Retry(error) =>
            count := count + 1;
            if retryLimit < count {
              return Some(Err(error)), count, false;
            }
            endpointCount := endpointCount + 1;
            if endpointCount > endpoint.maxRetries {
              return None, count, true;
            }
          case SwitchEndpoint(error) =>
            count := count + 1;
            return if retryLimit < count then Some(Err(error)) else None, count, true;
        }
      }
    }

    /** A stay at one endpoint, which is marked when it is given up. */
    method CallEndpoint<R, E>(endpoint: Endpoint, first: nat, outcome: nat -> Outcome<R, E>, now: nat -> nat)
      returns (answer: Option<Result<R, E>>, count: nat)
      requires first <= retryLimit && pool.Valid()
      requires forall k :: 0 <= k < first ==> !outcome(k).Through?
      modifies pool
      ensures pool.Valid() && IsVisit(outcome, Visit(endpoint, first, count))
      ensures answer.Some? ==> Finished(outcome, retryLimit, count, answer.value)
      ensures answer.None? ==>
                && IsAbandoned(outcome, Visit(endpoint, first, count)) && count <= retryLimit
                && forall k :: 0 <= k < count ==> !outcome(k).Through?
      ensures pool.history == old(pool.history) +
                              if answer.None? || outcome(count - 1).SwitchEndpoint?
                              then [Marked(endpoint.url, now(count))] else []
    {
      var failed;
      answer, count, failed := Attempts(endpoint, first, outcome);
      if failed {
        pool.MarkFailed(endpoint.url, now(count));
      }
    }

    /** Select an endpoint and stay with it. */
    method Stay<R, E>(first: nat, outcome: nat -> Outcome<R, E>, now: nat -> nat, draw: nat -> nat)
      returns (answer: Option<Result<R, E>>, count: nat, ghost visit: Visit)
      requires first <= retryLimit && pool.Valid()
      requires forall k :: 0 <= k < first ==> !outcome(k).Through?
      modifies pool
      ensures pool.Valid() && visit.first == first && visit.end == count
      ensures answer.Some? ==> Finished(outcome, retryLimit, count, answer.value)
      ensures answer.None? ==>
                && IsAbandoned(outcome, visit) && count <= retryLimit
                && forall k :: 0 <= k < count ==> !outcome(k).Through?
      ensures var s := Setting(pool.endpoints, pool.resetSeconds, now, draw);
              if answer.None? then IsStay(outcome, s, old(pool.history), pool.history, visit, true)
              else IsStay(outcome, s, old(pool.history), pool.history, visit, outcome(visit.end - 1).SwitchEndpoint?)
    {
      var endpoint := pool.NextEndpoint(now(first), draw(first));
      answer, count := CallEndpoint(endpoint, first, outcome, now);
      visit := Visit(endpoint, first, count);
    }

    /** One round of the outer loop: the call is over, or one more endpoint is given up. */
    method Round<R, E>(count: nat, outcome: nat -> Outcome<R, E>, now: nat -> nat, draw: nat -> nat,
                       ghost before: seq<PoolEvent>, ghost given: seq<Visit>)
      returns (answer: Option<Result<R, E>>, count': nat, ghost last: Visit)
      requires pool.Valid() && count <= retryLimit
      requires Underway(outcome, Setting(pool.endpoints, pool.resetSeconds, now, draw), before, pool.history,
                        given, count)
      modifies pool
      ensures pool.Valid() && count < count'
      ensures var s := Setting(pool.endpoints, pool.resetSeconds, now, draw);
              match answer
              case None => count' <= retryLimit && Underway(outcome, s, before, pool.history, given + [last], count')
              case Some(r) => IsCall(outcome, s, retryLimit, before, pool.history, given, last, r)
    {
      answer, count', last := Stay(count, outcome, now, draw);
      ghost var s := Setting(pool.endpoints, pool.resetSeconds, now, draw);
      if answer.None? {
        NextVisit(outcome, s, before, old(pool.history), pool.history, given, last);
      } else {
        LastVisit(outcome, s, retryLimit, before, old(pool.history), pool.history, given, last, answer.value);
      }
    }

    /**
     The whole call. The stays follow each other without a gap, all but the last were given up, each is
     at the endpoint selected then, and the pool's history is exactly what these stays leave in it.
     */
    method Call<R, E>(outcome: nat -> Outcome<R, E>, now: nat -> nat, draw: nat -> nat)
      returns (answer: Result<R, E>, ghost given: seq<Visit>, ghost last: Visit)
      requires pool.Valid() && retryLimit < U16_MAX
      modifies pool
      ensures pool.Valid()
      ensures IsCall(outcome, Setting(pool.endpoints, pool.resetSeconds, now, draw), retryLimit,
                     old(pool.history), pool.history, given, last, answer)
    {
      given := [];
      var count := 0;
      while true
        invariant pool.Valid() && count <= retryLimit
        invariant Underway(outcome, Setting(pool.endpoints, pool.resetSeconds, now, draw),
                           old(pool.history), pool.history, given, count)
        decreases retryLimit - count
      {
        var result;
        result, count, last := Round(count, outcome, now, draw, old(pool.history), given);
        if result.Some? {
          return result.value, given, last;
        }
        given := given + [last];
      }
    }
  }
}
