/**
 The pool of RPC endpoints: weighted random selection among the endpoints that have not failed
 lately. The clock and the random number are parameters; the number is taken modulo the total weight.
 */
module EndpointPools {
  import opened Selections

  const U32_MAX: nat := 0xFFFF_FFFF

  datatype Endpoint = Endpoint(url: string, weight: nat, maxRetries: nat)

  const MAINNET_DEFAULT := Endpoint("https://rpc.mainnet.near.org", 100, 3)
  const TESTNET_DEFAULT := Endpoint("https://rpc.testnet.near.org", 100, 3)

  // ---------------------------------------------------------------------------
  // Weighted selection.

  /** Total weight of the first n endpoints. */
  function Prefix(endpoints: seq<Endpoint>, n: nat): (w: nat)
    requires n <= |endpoints|
  {
    if n == 0 then 0 else Prefix(endpoints, n - 1) + endpoints[n - 1].weight
  }

  lemma {:induction false} PrefixMonotone(endpoints: seq<Endpoint>, i: nat, j: nat)
    requires i <= j <= |endpoints|
    ensures Prefix(endpoints, i) <= Prefix(endpoints, j)
    decreases j
  {
    if i < j {
      PrefixMonotone(endpoints, i, j - 1);
    }
  }

  /** Endpoint i is selected by the draws in its own stretch of the total weight. */
  predicate Selects(endpoints: seq<Endpoint>, draw: nat, i: nat)
    requires i < |endpoints|
  {
    Prefix(endpoints, i) <= draw < Prefix(endpoints, i + 1)
  }

  /** Subtract weights from the draw until it falls below one. The end of the list is never reached. */
  method WeightedRandomSelect(endpoints: seq<Endpoint>, draw: nat) returns (i: nat)
    requires endpoints != []
    requires Prefix(endpoints, |endpoints|) > 0 ==> draw < Prefix(endpoints, |endpoints|)
    ensures i < |endpoints|
    ensures Prefix(endpoints, |endpoints|) == 0 ==> i == 0
    ensures Prefix(endpoints, |endpoints|) > 0 ==> Selects(endpoints, draw, i)
  {
    i := 0;
    if Prefix(endpoints, |endpoints|) == 0 {
      return;
    }
    var random := draw;
    while random >= endpoints[i].weight
      invariant i < |endpoints| && random >= 0 && random + Prefix(endpoints, i) == draw
      decreases |endpoints| - i
    {
      random := random - endpoints[i].weight;
      i := i + 1;
    }
  }

  /** No draw selects two endpoints. */
  lemma SelectsOne(endpoints: seq<Endpoint>, draw: nat, i: nat, j: nat)
    requires i < |endpoints| && j < |endpoints| && Selects(endpoints, draw, i) && Selects(endpoints, draw, j)
    ensures i == j
  {
    if i < j {
      PrefixMonotone(endpoints, i + 1, j);
    } else if j < i {
      PrefixMonotone(endpoints, j + 1, i);
    }
  }

  predicate Within(lo: nat, r: nat, hi: nat) {
    lo <= r < hi
  }

  lemma {:induction false} StretchSize(lo: nat, hi: nat)
    requires lo <= hi
    ensures |set r: nat | r < hi && Within(lo, r, hi)| == hi - lo
    decreases hi
  {
    var all := set r: nat | r < hi && Within(lo, r, hi);
    if lo == hi {
      assert all == {};
    } else {
      var top := hi - 1;
      StretchSize(lo, top);
      assert all == (set r: nat | r < top && Within(lo, r, top)) + {top};
    }
  }

  /** Of the total weight many draws, exactly weight many select an endpoint. */
  lemma DrawsPerEndpoint(endpoints: seq<Endpoint>, i: nat)
    requires i < |endpoints|
    ensures |set r: nat | r < Prefix(endpoints, |endpoints|) && Selects(endpoints, r, i)| == endpoints[i].weight
  {
    var total, lo, hi := Prefix(endpoints, |endpoints|), Prefix(endpoints, i), Prefix(endpoints, i + 1);
    PrefixMonotone(endpoints, i + 1, |endpoints|);
    StretchSize(lo, hi);
    assert (set r: nat | r < total && Selects(endpoints, r, i)) == set r: nat | r < hi && Within(lo, r, hi);
  }

  // ---------------------------------------------------------------------------
  // The pool.

  /** An endpoint is back once the reset time of its last failure has come. */
  predicate IsAvailable(endpoint: Endpoint, failures: map<string, nat>, now: nat) {
    endpoint.url in failures ==> now >= failures[endpoint.url]
  }

  function Available(endpoints: seq<Endpoint>, failures: map<string, nat>, now: nat): (r: seq<Endpoint>)
    ensures forall e :: e in r <==> e in endpoints && IsAvailable(e, failures, now)
  {
    if endpoints == [] then []
    else
      var n := |endpoints| - 1;
      assert endpoints == endpoints[..n] + [endpoints[n]];
      Available(endpoints[..n], failures, now) +
      if IsAvailable(endpoints[n], failures, now) then [endpoints[n]] else []
  }

  /** Which endpoints have no failure pending. */
  ghost function Working(endpoints: seq<Endpoint>, failures: map<string, nat>, now: nat): (r: seq<bool>)
    ensures |r| == |endpoints| && forall j :: 0 <= j < |r| ==> (r[j] <==> IsAvailable(endpoints[j], failures, now))
  {
    seq(|endpoints|, j requires 0 <= j < |endpoints| => IsAvailable(endpoints[j], failures, now))
  }

  /** The available endpoints are exactly those, each once and in the configured order. */
  lemma {:induction false} AvailableKeeps(endpoints: seq<Endpoint>, failures: map<string, nat>, now: nat)
    ensures Keeps(Available(endpoints, failures, now), endpoints, Working(endpoints, failures, now))
  {
    if endpoints == [] {
      KeepsNothing(endpoints);
    } else {
      var n := |endpoints| - 1;
      AvailableKeeps(endpoints[..n], failures, now);
      assert Working(endpoints, failures, now)[..n] == Working(endpoints[..n], failures, now);
      KeepsBack(Available(endpoints, failures, now), endpoints, Working(endpoints, failures, now),
                Available(endpoints[..n], failures, now), n);
    }
  }

  lemma PrefixExtend(endpoints: seq<Endpoint>, e: Endpoint)
    ensures Prefix(endpoints + [e], |endpoints| + 1) == Prefix(endpoints, |endpoints|) + e.weight
  {
    PrefixOfInit(endpoints + [e], |endpoints|);
    assert (endpoints + [e])[..|endpoints|] == endpoints;
  }

  lemma {:induction false} AvailableWeight(endpoints: seq<Endpoint>, failures: map<string, nat>, now: nat)
    ensures var r := Available(endpoints, failures, now);
            Prefix(r, |r|) <= Prefix(endpoints, |endpoints|)
  {
    if endpoints != [] {
      var n := |endpoints| - 1;
      var rest := Available(endpoints[..n], failures, now);
      AvailableWeight(endpoints[..n], failures, now);
      PrefixOfInit(endpoints, n);
      PrefixExtend(rest, endpoints[n]);
      assert rest + [] == rest;
    }
  }

  lemma {:induction false} PrefixOfInit(endpoints: seq<Endpoint>, n: nat)
    requires n <= |endpoints|
    ensures Prefix(endpoints[..n], n) == Prefix(endpoints, n)
    decreases n
  {
    if n > 0 {
      PrefixOfInit(endpoints, n - 1);
      PrefixOfInit(endpoints[..n], n - 1);
      assert endpoints[..n][..n - 1] == endpoints[..n - 1];
    }
  }

  /** What happens to the failure table. */
  datatype PoolEvent = Marked(url: string, at: nat) | Forgiven

  /** The failure table after a history: every mark since the last forgiveness, with its reset time. */
  ghost function Pending(history: seq<PoolEvent>, resetSeconds: nat): map<string, nat> {
    if history == [] then map[]
    else
      match history[|history| - 1]
      case Forgiven => map[]
      case Marked(url, at) => Pending(history[..|history| - 1], resetSeconds)[url := at + resetSeconds]
  }

  lemma PendingNext(history: seq<PoolEvent>, e: PoolEvent, resetSeconds: nat)
    ensures Pending(history + [e], resetSeconds) ==
            match e
            case Forgiven => map[]
            case Marked(url, at) => Pending(history, resetSeconds)[url := at + resetSeconds]
  {
    assert (history + [e])[..|history|] == history;
  }

  /** A mark keeps its endpoint away until exactly its reset time, and no other endpoint. */
  lemma MarkedUntil(history: seq<PoolEvent>, url: string, at: nat, resetSeconds: nat, e: Endpoint, t: nat)
    ensures var after := Pending(history + [Marked(url, at)], resetSeconds);
            IsAvailable(e, after, t) <==>
            if e.url == url then t >= at + resetSeconds else IsAvailable(e, Pending(history, resetSeconds), t)
  {
    PendingNext(history, Marked(url, at), resetSeconds);
  }

  /** e is what selection gives: by weight among the available endpoints, the first of all when there is none. */
  ghost predicate Picks(endpoints: seq<Endpoint>, failures: map<string, nat>, now: nat, draw: nat, e: Endpoint)
  {
    var available := Available(endpoints, failures, now);
    var total := Prefix(available, |available|);
    if available == [] then endpoints != [] && e == endpoints[0]
    else if total == 0 then e == available[0]
    else exists i :: 0 <= i < |available| && e == available[i] && Selects(available, draw % total, i)
  }

  class EndpointPool {
    const endpoints: seq<Endpoint>
    const resetSeconds: nat
    var failures: map<string, nat>
    ghost var history: seq<PoolEvent>

    /** The failure table is what its history left pending. */
    ghost predicate Valid()
      reads this
    {
      && endpoints != [] && Prefix(endpoints, |endpoints|) <= U32_MAX
      && failures == Pending(history, resetSeconds)
    }

    constructor (configured: seq<Endpoint>, isMainnet: bool, resetSeconds: nat)
      requires Prefix(configured, |configured|) <= U32_MAX
      ensures Valid() && failures == map[] && history == [] && this.resetSeconds == resetSeconds
      ensures endpoints == if configured != [] then configured
                           else if isMainnet then [MAINNET_DEFAULT] else [TESTNET_DEFAULT]
    {
      endpoints := if configured != [] then configured
                   else if isMainnet then [MAINNET_DEFAULT] else [TESTNET_DEFAULT];
      this.resetSeconds := resetSeconds;
      failures := map[];
      history := [];
    }

    method MarkFailed(url: string, now: nat)
      requires Valid()
      modifies this
      ensures Valid() && history == old(history) + [Marked(url, now)]
    {
      PendingNext(history, Marked(url, now), resetSeconds);
      failures := failures[url := now + resetSeconds];
      history := history + [Marked(url, now)];
    }

    /** There is always a next endpoint: a failed one only when all have failed, and then all are forgiven. */
    method NextEndpoint(now: nat, draw: nat) returns (e: Endpoint)
      requires Valid()
      modifies this
      ensures Valid() && e in endpoints && Picks(endpoints, old(failures), now, draw, e)
      ensures IsAvailable(e, failures, now)
      ensures history == old(history) +
                         if Available(endpoints, old(failures), now) == [] then [Forgiven] else []
    {
      var available := Available(endpoints, failures, now);
      if available == [] {
        PendingNext(history, Forgiven, resetSeconds);
        failures := map[];
        history := history + [Forgiven];
        return endpoints[0];
      }
      AvailableWeight(endpoints, failures, now);
      var total := Prefix(available, |available|);
      assert total <= U32_MAX;
      var i := WeightedRandomSelect(available, if total == 0 then 0 else draw % total);
      e := available[i];
      assert e in available;
      assert history + [] == history;
    }
  }
}
