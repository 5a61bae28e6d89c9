/**
 Phase 3 of the portfolio optimizer: every subset of the candidate tokens is
 optimized, stripped of positions that are too small, scored, and the best one wins.

 The numeric optimizer and the composite score are parameters: pure functions of
 the subset and of the weights, over exact reals.
 */
module Exhaustive {
  import opened Numeric
  import opened Combinations
  import opened Selections

  datatype Problem = Problem(
    nTotal: nat,
    /** Optimized, blended and normalised weights of a subset, one per member. */
    blend: seq<nat> -> seq<real>,
    minPosition: real,
    /** Composite score of full-size weights with at least one positive entry. */
    score: seq<real> -> real)
  {
    ghost predicate Valid() {
      forall s :: |blend(s)| == |s|
    }
  }

  /** Spread the weights of a subset over a full-size vector; zero elsewhere. */
  function Expand(subset: seq<nat>, weights: seq<real>, n: nat): (full: seq<real>)
    requires |subset| == |weights| && InBounds(subset, n)
    ensures |full| == n
    ensures forall i :: 0 <= i < n && i !in subset ==> full[i] == 0.0
  {
    if subset == [] then seq(n, _ => 0.0)
    else
      var last := |subset| - 1;
      Expand(subset[..last], weights[..last], n)[subset[last] := weights[last]]
  }

  lemma {:induction false} ExpandAt(subset: seq<nat>, weights: seq<real>, n: nat, j: nat)
    requires |subset| == |weights| && InBounds(subset, n) && j < |subset|
    requires Distinct(subset)
    ensures Expand(subset, weights, n)[subset[j]] == weights[j]
  {
    var last := |subset| - 1;
    if j < last {
      ExpandAt(subset[..last], weights[..last], n, j);
    }
  }

  /** Full-size weights the optimizer assigns to a subset, evaluated directly. */
  ghost function Weights(p: Problem, subset: seq<nat>): (w: seq<real>)
    requires p.Valid() && InBounds(subset, p.nTotal)
    ensures |w| == p.nTotal
  {
    Expand(subset, p.blend(subset), p.nTotal)
  }

  /** s is a choice of k elements, kept in their order. */
  ghost predicate IsSubset(s: seq<nat>, of: seq<nat>, k: nat) {
    |s| == k && exists at :: IsAt(s, of, at)
  }

  ghost predicate Distinct(s: seq<nat>) {
    forall a, b :: 0 <= a < b < |s| ==> s[a] != s[b]
  }

  function Survivors(indices: seq<nat>, w: seq<real>, minPosition: real): (kept: seq<nat>)
    requires InBounds(indices, |w|)
    ensures |kept| <= |indices| && InBounds(kept, |w|)
    ensures forall i :: i in kept <==> i in indices && w[i] >= minPosition
    ensures |kept| == |indices| ==> kept == indices
  {
    if indices == [] then []
    else
      var rest := Survivors(indices[1..], w, minPosition);
      if w[indices[0]] >= minPosition then [indices[0]] + rest else rest
  }

  /** Memo of optimizer results, keyed by subset and shared by all evaluations. */
  class SubsetCache {
    var entries: map<seq<nat>, seq<real>>

    /** Every entry is what direct evaluation would give. */
    ghost predicate Agrees(p: Problem)
      requires p.Valid()
      reads this
    {
      forall s :: s in entries ==> InBounds(s, p.nTotal) && entries[s] == Weights(p, s)
    }

    constructor ()
      ensures entries == map[]
    {
      entries := map[];
    }

    method BlendAndExpand(p: Problem, subset: seq<nat>) returns (w: seq<real>)
      requires p.Valid() && Agrees(p) && InBounds(subset, p.nTotal)
      modifies this
      ensures Agrees(p)
      ensures w == Weights(p, subset)
    {
      if subset in entries {
        return entries[subset];
      }
      w := Expand(subset, p.blend(subset), p.nTotal);
      entries := entries[subset := w];
    }
  }

  datatype Portfolio = Portfolio(indices: seq<nat>, weights: seq<real>)

  /** Drop undersized positions and optimize again, until nothing changes. */
  ghost function Filtered(p: Problem, subset: seq<nat>): (r: Portfolio)
    requires p.Valid() && InBounds(subset, p.nTotal)
    ensures InBounds(r.indices, p.nTotal) && |r.weights| == p.nTotal
    decreases |subset|
  {
    var w := Weights(p, subset);
    var kept := Survivors(subset, w, p.minPosition);
    if |kept| == |subset| || kept == [] then Portfolio(subset, w) else Filtered(p, kept)
  }

  /** Filtering ends where every remaining position is large enough, or none is. */
  lemma {:induction false} FilteredIsFixpoint(p: Problem, subset: seq<nat>)
    requires p.Valid() && InBounds(subset, p.nTotal)
    ensures var r := Filtered(p, subset);
            && r.weights == Weights(p, r.indices)
            && (forall i :: i in r.indices ==> i in subset)
            && |r.indices| <= |subset|
            && (subset != [] ==> r.indices != [])
            && (|| (forall i :: i in r.indices ==> r.weights[i] >= p.minPosition)
                || (forall i :: i in r.indices ==> r.weights[i] < p.minPosition))
            && (forall i :: 0 <= i < p.nTotal && r.weights[i] != 0.0 ==> i in subset)
    decreases |subset|
  {
    var kept := Survivors(subset, Weights(p, subset), p.minPosition);
    if |kept| != |subset| && kept != [] {
      FilteredIsFixpoint(p, kept);
    }
  }

  /** Which of the weights are large enough. */
  ghost function Enough(weights: seq<real>, minPosition: real): (r: seq<bool>)
    ensures |r| == |weights| && forall j :: 0 <= j < |weights| ==> (r[j] <==> weights[j] >= minPosition)
  {
    seq(|weights|, j requires 0 <= j < |weights| => weights[j] >= minPosition)
  }

  /** One round of filtering: exactly those stay that were given enough. */
  ghost predicate IsNext(p: Problem, s: seq<nat>, kept: seq<nat>)
    requires p.Valid()
  {
    Keeps(kept, s, Enough(p.blend(s), p.minPosition))
  }

  /** Each round keeps exactly the tokens of the last one that were given enough, in their order. */
  ghost predicate AreRounds(p: Problem, rounds: seq<seq<nat>>)
    requires p.Valid()
  {
    forall n :: 0 < n < |rounds| ==> IsNext(p, rounds[n - 1], rounds[n])
  }

  /** What the weights say about each of the indices. */
  ghost function Given(indices: seq<nat>, w: seq<real>): (g: seq<real>)
    requires InBounds(indices, |w|)
    ensures |g| == |indices|
  {
    seq(|indices|, i requires 0 <= i < |indices| => w[indices[i]])
  }

  lemma {:induction false} SurvivorsKeep(indices: seq<nat>, w: seq<real>, minPosition: real)
    requires InBounds(indices, |w|)
    ensures Keeps(Survivors(indices, w, minPosition), indices, Enough(Given(indices, w), minPosition))
  {
    var kept := Enough(Given(indices, w), minPosition);
    if indices == [] {
      KeepsNothing(indices);
    } else {
      SurvivorsKeep(indices[1..], w, minPosition);
      assert kept[1..] == Enough(Given(indices[1..], w), minPosition);
      KeepsFront(Survivors(indices[1..], w, minPosition), indices, kept);
    }
  }

  lemma KeptRound(p: Problem, s: seq<nat>)
    requires p.Valid() && InBounds(s, p.nTotal) && Distinct(s)
    ensures IsNext(p, s, Survivors(s, Weights(p, s), p.minPosition))
  {
    SurvivorsKeep(s, Weights(p, s), p.minPosition);
    forall j | 0 <= j < |s| ensures Weights(p, s)[s[j]] == p.blend(s)[j] {
      ExpandAt(s, p.blend(s), p.nTotal, j);
    }
    assert Given(s, Weights(p, s)) == p.blend(s);
  }

  /** Full-size weights: what the optimizer gives each member of the indices, and nothing elsewhere. */
  ghost predicate Blended(p: Problem, indices: seq<nat>, w: seq<real>)
    requires p.Valid()
  {
    && |w| == p.nTotal && InBounds(indices, p.nTotal)
    && (forall j :: 0 <= j < |indices| ==> w[indices[j]] == p.blend(indices)[j])
    && (forall i :: 0 <= i < p.nTotal && i !in indices ==> w[i] == 0.0)
  }

  lemma WeightsBlended(p: Problem, s: seq<nat>)
    requires p.Valid() && InBounds(s, p.nTotal) && Distinct(s)
    ensures Blended(p, s, Weights(p, s))
  {
    forall j | 0 <= j < |s| ensures Weights(p, s)[s[j]] == p.blend(s)[j] {
      ExpandAt(s, p.blend(s), p.nTotal, j);
    }
  }

  lemma PrependRound(p: Problem, s: seq<nat>, rest: seq<seq<nat>>)
    requires p.Valid() && rest != [] && AreRounds(p, rest) && IsNext(p, s, rest[0])
    ensures AreRounds(p, [s] + rest)
  {
    var rounds := [s] + rest;
    forall n | 0 < n < |rounds| ensures IsNext(p, rounds[n - 1], rounds[n]) {
      assert n > 1 ==> rounds[n - 1] == rest[n - 2] && rounds[n] == rest[n - 1];
    }
  }

  /** All of the weights are large enough, or none is. */
  ghost predicate Settled(weights: seq<real>, minPosition: real) {
    || (forall j :: 0 <= j < |weights| ==> weights[j] >= minPosition)
    || (forall j :: 0 <= j < |weights| ==> weights[j] < minPosition)
  }

  lemma LastRound(p: Problem, s: seq<nat>)
    requires p.Valid() && InBounds(s, p.nTotal) && Distinct(s)
    requires var kept := Survivors(s, Weights(p, s), p.minPosition); |kept| == |s| || kept == []
    ensures Blended(p, s, Weights(p, s)) && Settled(p.blend(s), p.minPosition)
  {
    var w := Weights(p, s);
    WeightsBlended(p, s);
    var kept := Survivors(s, w, p.minPosition);
    forall j | 0 <= j < |s| ensures p.blend(s)[j] >= p.minPosition <==> s[j] in kept {
      assert s[j] in s;
    }
    assert |kept| == |s| ==> kept == s;
  }

  /**
   Filtering is a number of rounds from the subset on. It ends with the optimizer's weights for the last
   of them, which are all large enough or all too small.
   */
  lemma {:induction false} FilteredRounds(p: Problem, subset: seq<nat>) returns (rounds: seq<seq<nat>>)
    requires p.Valid() && InBounds(subset, p.nTotal) && Distinct(subset)
    ensures rounds != [] && rounds[0] == subset && AreRounds(p, rounds)
    ensures var r := Filtered(p, subset);
            && r.indices == rounds[|rounds| - 1] && Blended(p, r.indices, r.weights)
            && Settled(p.blend(r.indices), p.minPosition)
    decreases |subset|
  {
    var kept := Survivors(subset, Weights(p, subset), p.minPosition);
    if |kept| == |subset| || kept == [] {
      LastRound(p, subset);
      rounds := [subset];
    } else {
      KeptRound(p, subset);
      StaysDistinct(p, kept, subset);
      var rest := FilteredRounds(p, kept);
      PrependRound(p, subset, rest);
      rounds := [subset] + rest;
    }
  }

  lemma StaysDistinct(p: Problem, kept: seq<nat>, s: seq<nat>)
    requires p.Valid() && IsNext(p, s, kept) && Distinct(s)
    ensures Distinct(kept)
  {
    var at: seq<nat> :| IsAtKept(kept, s, Enough(p.blend(s), p.minPosition), at);
  }

  /** The bounded loop always stops at the fixpoint, whatever the cache holds. */
  method FilterAndReoptimize(p: Problem, subset: seq<nat>, initial: seq<real>, cache: SubsetCache)
    returns (r: Portfolio)
    requires p.Valid() && InBounds(subset, p.nTotal) && cache.Agrees(p)
    requires initial == Weights(p, subset)
    modifies cache
    ensures cache.Agrees(p)
    ensures r == Filtered(p, subset)
  {
    var weights, current := initial, subset;
    for iter := 0 to |subset|
      invariant cache.Agrees(p) && InBounds(current, p.nTotal)
      invariant weights == Weights(p, current)
      invariant Filtered(p, current) == Filtered(p, subset)
      invariant |current| <= |subset| - iter
      invariant subset != [] ==> current != []
    {
      var kept := Survivors(current, weights, p.minPosition);
      if |kept| == |current| || kept == [] {
        return Portfolio(current, weights);
      }
      weights := cache.BlendAndExpand(p, kept);
      current := kept;
    }
    return Portfolio(current, weights);
  }

  // ---------------------------------------------------------------------------
  // The argmax over all subsets.

  function Pick(active: seq<nat>, combo: seq<nat>): (subset: seq<nat>)
    requires InBounds(combo, |active|)
    ensures |subset| == |combo|
    ensures forall i :: i in subset ==> i in active
  {
    seq(|combo|, i requires 0 <= i < |combo| => active[combo[i]])
  }

  lemma PickIsAt(active: seq<nat>, combo: seq<nat>)
    requires IsCombination(combo, |active|, |combo|)
    ensures IsAt(Pick(active, combo), active, combo)
  {
  }

  predicate HasPositive(w: seq<real>) {
    exists i :: 0 <= i < |w| && w[i] > 0.0
  }

  /** What one combination of active tokens ends up as: a direct, uncached definition. */
  ghost function Candidate(p: Problem, active: seq<nat>, combo: seq<nat>): (w: seq<real>)
    requires p.Valid() && InBounds(active, p.nTotal) && InBounds(combo, |active|)
    ensures |w| == p.nTotal
  {
    Filtered(p, Pick(active, combo)).weights
  }

  /** combo has the best score among all k-combinations, and is the first such one. */
  ghost predicate IsWinner(p: Problem, active: seq<nat>, k: nat, combo: seq<nat>)
    requires p.Valid() && InBounds(active, p.nTotal)
  {
    && IsCombination(combo, |active|, k)
    && HasPositive(Candidate(p, active, combo))
    && forall d :: IsCombination(d, |active|, k) && HasPositive(Candidate(p, active, d)) ==>
        && p.score(Candidate(p, active, d)) <= p.score(Candidate(p, active, combo))
        && (LexLess(d, combo) ==>
              p.score(Candidate(p, active, d)) < p.score(Candidate(p, active, combo)))
  }

  /** Some k-combination gives a positive weight. */
  ghost predicate Feasible(p: Problem, active: seq<nat>, k: nat)
    requires p.Valid() && InBounds(active, p.nTotal)
  {
    exists d :: IsCombination(d, |active|, k) && HasPositive(Candidate(p, active, d))
  }

  /** Some choice of k active tokens gives a positive weight. */
  ghost predicate SomeSubsetHolds(p: Problem, active: seq<nat>, k: nat)
    requires p.Valid() && InBounds(active, p.nTotal)
  {
    exists s, i :: IsSubset(s, active, k) && InBounds(s, p.nTotal)
                   && 0 <= i < p.nTotal && Filtered(p, s).weights[i] > 0.0
  }

  /** The filtered weights of some choice of k active tokens, which no other choice beats. */
  ghost predicate IsBestOfSubsets(p: Problem, active: seq<nat>, k: nat, best: seq<real>)
    requires p.Valid() && InBounds(active, p.nTotal)
  {
    && (exists i :: 0 <= i < |best| && best[i] > 0.0)
    && (exists s :: IsSubset(s, active, k) && InBounds(s, p.nTotal) && best == Filtered(p, s).weights)
    && (forall s, i :: IsSubset(s, active, k) && InBounds(s, p.nTotal)
                       && 0 <= i < p.nTotal && Filtered(p, s).weights[i] > 0.0 ==>
          p.score(Filtered(p, s).weights) <= p.score(best))
  }

  /** Every choice of k active tokens is some combination's. */
  lemma SubsetIsPicked(p: Problem, active: seq<nat>, k: nat, s: seq<nat>) returns (combo: seq<nat>)
    requires p.Valid() && InBounds(active, p.nTotal) && IsSubset(s, active, k) && InBounds(s, p.nTotal)
    ensures IsCombination(combo, |active|, k) && Candidate(p, active, combo) == Filtered(p, s).weights
  {
    combo :| IsAt(s, active, combo);
    assert s == Pick(active, combo);
  }

  lemma PickedIsSubset(p: Problem, active: seq<nat>, k: nat, combo: seq<nat>)
    requires p.Valid() && InBounds(active, p.nTotal) && IsCombination(combo, |active|, k)
    ensures var s := Pick(active, combo);
            IsSubset(s, active, k) && InBounds(s, p.nTotal) && Candidate(p, active, combo) == Filtered(p, s).weights
  {
    PickIsAt(active, combo);
  }

  lemma FeasibleIff(p: Problem, active: seq<nat>, k: nat)
    requires p.Valid() && InBounds(active, p.nTotal)
    ensures Feasible(p, active, k) <==> SomeSubsetHolds(p, active, k)
  {
    if Feasible(p, active, k) {
      var d :| IsCombination(d, |active|, k) && HasPositive(Candidate(p, active, d));
      PickedIsSubset(p, active, k, d);
      var i :| 0 <= i < p.nTotal && Candidate(p, active, d)[i] > 0.0;
      assert Filtered(p, Pick(active, d)).weights[i] > 0.0;
    }
    if SomeSubsetHolds(p, active, k) {
      var s, i :| IsSubset(s, active, k) && InBounds(s, p.nTotal)
                  && 0 <= i < p.nTotal && Filtered(p, s).weights[i] > 0.0;
      var d := SubsetIsPicked(p, active, k, s);
    }
  }

  /** The winner over the combinations is the best of all choices of k active tokens. */
  lemma WinnerIsBest(p: Problem, active: seq<nat>, k: nat, c: seq<nat>)
    requires p.Valid() && InBounds(active, p.nTotal) && IsWinner(p, active, k, c)
    ensures IsBestOfSubsets(p, active, k, Candidate(p, active, c))
  {
    PickedIsSubset(p, active, k, c);
    forall s, i | IsSubset(s, active, k) && InBounds(s, p.nTotal)
                  && 0 <= i < p.nTotal && Filtered(p, s).weights[i] > 0.0
      ensures p.score(Filtered(p, s).weights) <= p.score(Candidate(p, active, c))
    {
      var d := SubsetIsPicked(p, active, k, s);
    }
  }

  /** All weight sits on at most k of the active tokens. */
  ghost predicate HoldsAtMost(w: seq<real>, active: seq<nat>, k: nat)
  {
    exists held: seq<nat> ::
      && |held| <= k
      && (forall i :: i in held ==> i in active)
      && (forall i :: 0 <= i < |w| && w[i] != 0.0 ==> i in held)
  }

  /** The state of the scan: `winner` indexes the best of the combinations seen. */
  ghost predicate BestSoFar(p: Problem, active: seq<nat>, k: nat, seen: seq<seq<nat>>,
                            best: Option<real>, weights: seq<real>, winner: int)
    requires p.Valid() && InBounds(active, p.nTotal)
    requires AreCombinations(seen, |active|, k)
  {
    match best
    case None =>
      && (forall j :: 0 <= j < |seen| ==> !HasPositive(Candidate(p, active, seen[j])))
      && weights == seq(p.nTotal, _ => 0.0)
    case Some(top) =>
      && 0 <= winner < |seen|
      && weights == Candidate(p, active, seen[winner])
      && HasPositive(weights) && top == p.score(weights)
      && forall j :: 0 <= j < |seen| && HasPositive(Candidate(p, active, seen[j])) ==>
           && p.score(Candidate(p, active, seen[j])) <= top
           && (j < winner ==> p.score(Candidate(p, active, seen[j])) < top)
  }

  lemma ExtendCombinations(seen: seq<seq<nat>>, next: seq<nat>, n: nat, k: nat)
    requires AreCombinations(seen, n, k) && IsCombination(next, n, k)
    ensures AreCombinations(seen + [next], n, k)
  {
  }

  lemma ExtendTakesOver(p: Problem, active: seq<nat>, k: nat, seen: seq<seq<nat>>,
                        best: Option<real>, weights: seq<real>, winner: int, next: seq<nat>)
    requires p.Valid() && InBounds(active, p.nTotal)
    requires AreCombinations(seen, |active|, k) && AreCombinations(seen + [next], |active|, k)
    requires IsCombination(next, |active|, k)
    requires BestSoFar(p, active, k, seen, best, weights, winner)
    requires var w := Candidate(p, active, next);
             HasPositive(w) && (best.None? || p.score(w) > best.value)
    ensures var w := Candidate(p, active, next);
            BestSoFar(p, active, k, seen + [next], Some(p.score(w)), w, |seen|)
  {
  }

  lemma ExtendKeeps(p: Problem, active: seq<nat>, k: nat, seen: seq<seq<nat>>,
                    best: Option<real>, weights: seq<real>, winner: int, next: seq<nat>)
    requires p.Valid() && InBounds(active, p.nTotal)
    requires AreCombinations(seen, |active|, k) && AreCombinations(seen + [next], |active|, k)
    requires IsCombination(next, |active|, k)
    requires BestSoFar(p, active, k, seen, best, weights, winner)
    requires var w := Candidate(p, active, next);
             !(HasPositive(w) && (best.None? || p.score(w) > best.value))
    ensures BestSoFar(p, active, k, seen + [next], best, weights, winner)
  {
  }

  /** One more combination: a strictly better score takes over, anything else changes nothing. */
  lemma ExtendBest(p: Problem, active: seq<nat>, k: nat, seen: seq<seq<nat>>,
                   best: Option<real>, weights: seq<real>, winner: int, next: seq<nat>)
    requires p.Valid() && InBounds(active, p.nTotal)
    requires AreCombinations(seen, |active|, k) && IsCombination(next, |active|, k)
    requires BestSoFar(p, active, k, seen, best, weights, winner)
    ensures AreCombinations(seen + [next], |active|, k)
    ensures var w := Candidate(p, active, next);
            if HasPositive(w) && (best.None? || p.score(w) > best.value)
            then BestSoFar(p, active, k, seen + [next], Some(p.score(w)), w, |seen|)
            else BestSoFar(p, active, k, seen + [next], best, weights, winner)
  {
    ExtendCombinations(seen, next, |active|, k);
    var w := Candidate(p, active, next);
    if HasPositive(w) && (best.None? || p.score(w) > best.value) {
      ExtendTakesOver(p, active, k, seen, best, weights, winner, next);
    } else {
      ExtendKeeps(p, active, k, seen, best, weights, winner, next);
    }
  }

  /** No combination beats the best of the whole run, and none before it equals it. */
  lemma WinnerUnbeaten(p: Problem, active: seq<nat>, k: nat, run: seq<seq<nat>>,
                       top: real, weights: seq<real>, winner: int, j: nat)
    requires p.Valid() && InBounds(active, p.nTotal)
    requires LexSorted(run) && AreCombinations(run, |active|, k)
    requires BestSoFar(p, active, k, run, Some(top), weights, winner)
    requires j < |run| && HasPositive(Candidate(p, active, run[j]))
    ensures p.score(Candidate(p, active, run[j])) <= top
    ensures LexLess(run[j], run[winner]) ==> p.score(Candidate(p, active, run[j])) < top
  {
    if LexLess(run[j], run[winner]) && winner <= j {
      LexAsymmetric(run[j], run[winner]);
      assert false;
    }
  }

  lemma ScanFindsWinner(p: Problem, active: seq<nat>, k: nat, run: seq<seq<nat>>,
                        best: Option<real>, weights: seq<real>, winner: int)
    requires p.Valid() && InBounds(active, p.nTotal)
    requires IsWholeRun(run, |active|, k) && AreCombinations(run, |active|, k)
    requires BestSoFar(p, active, k, run, best, weights, winner)
    ensures best.Some? <==> Feasible(p, active, k)
    ensures best.Some? ==> IsWinner(p, active, k, run[winner]) && weights == Candidate(p, active, run[winner])
  {
    if best.Some? {
      var c := run[winner];
      assert IsCombination(c, |active|, k);
      forall d | IsCombination(d, |active|, k) && HasPositive(Candidate(p, active, d))
        ensures p.score(Candidate(p, active, d)) <= p.score(weights)
        ensures LexLess(d, c) ==> p.score(Candidate(p, active, d)) < p.score(weights)
      {
        var j :| 0 <= j < |run| && run[j] == d;
        WinnerUnbeaten(p, active, k, run, best.value, weights, winner, j);
      }
    }
  }

  lemma CandidateHoldings(p: Problem, active: seq<nat>, combo: seq<nat>, k: nat)
    requires p.Valid() && InBounds(active, p.nTotal) && InBounds(combo, |active|) && |combo| == k
    ensures HoldsAtMost(Candidate(p, active, combo), active, k)
  {
    FilteredIsFixpoint(p, Pick(active, combo));
    var held := Pick(active, combo);
    assert |held| <= k;
  }

  /** The first k active tokens share equally. */
  function EqualSplit(active: seq<nat>, k: nat, n: nat): (w: seq<real>)
    requires 0 < k <= |active| && InBounds(active, n)
    ensures |w| == n && HoldsAtMost(w, active, k)
    ensures forall i :: 0 <= i < n && i !in active[..k] ==> w[i] == 0.0
  {
    var held := active[..k];
    var w := Expand(held, seq(k, _ => 1.0 / k as real), n);
    assert |held| <= k && forall i :: 0 <= i < n && w[i] != 0.0 ==> i in held;
    w
  }

  lemma EqualSplitAt(active: seq<nat>, k: nat, n: nat, j: nat)
    requires 0 < k <= |active| && InBounds(active, n) && Distinct(active) && j < k
    ensures EqualSplit(active, k, n)[active[j]] == 1.0 / k as real
  {
    ExpandAt(active[..k], seq(k, _ => 1.0 / k as real), n, j);
  }

  /**
   Up to maxHoldings active tokens: all of them, filtered. More: the best of all choices of maxHoldings of
   them, the first among equals, or an equal split when no choice gives a positive weight.
   */
  method ExhaustiveOptimize(p: Problem, active: seq<nat>, maxHoldings: nat) returns (best: seq<real>)
    requires p.Valid() && InBounds(active, p.nTotal)
    ensures |best| == p.nTotal && HoldsAtMost(best, active, maxHoldings)
    ensures 0 < |active| <= maxHoldings ==> best == Filtered(p, active).weights
    ensures 0 < maxHoldings < |active| && SomeSubsetHolds(p, active, maxHoldings) ==>
              IsBestOfSubsets(p, active, maxHoldings, best)
    ensures 0 < maxHoldings < |active| ==>
              if SomeSubsetHolds(p, active, maxHoldings)
              then exists c :: IsWinner(p, active, maxHoldings, c) && best == Candidate(p, active, c)
              else best == EqualSplit(active, maxHoldings, p.nTotal)
  {
    best := seq(p.nTotal, _ => 0.0);
    if active == [] || maxHoldings == 0 {
      ZeroHoldings(best, active, maxHoldings);
      if active == [] {
        return;
      }
    }
    if |active| <= maxHoldings {
      var cache := new SubsetCache();
      var w := cache.BlendAndExpand(p, active);
      var r := FilterAndReoptimize(p, active, w, cache);
      FilteredIsFixpoint(p, active);
      assert HoldsAtMost(r.weights, active, maxHoldings);
      return r.weights;
    }
    var score: Option<real>;
    best, score := Scan(p, active, maxHoldings);
    FeasibleIff(p, active, maxHoldings);
    if score.None? && 0 < maxHoldings {
      best := EqualSplit(active, maxHoldings, p.nTotal);
    }
  }

  lemma ZeroHoldings(w: seq<real>, active: seq<nat>, k: nat)
    requires forall i :: 0 <= i < |w| ==> w[i] == 0.0
    ensures HoldsAtMost(w, active, k)
  {
    var held: seq<nat> := [];
    assert |held| <= k;
  }

  /** Evaluate one combination through the shared cache and keep the better of it and the best so far. */
  method Consider(p: Problem, active: seq<nat>, k: nat, combo: seq<nat>, cache: SubsetCache,
                  best: seq<real>, score: Option<real>, ghost seen: seq<seq<nat>>, ghost winner: int)
    returns (best': seq<real>, score': Option<real>, ghost winner': int)
    requires p.Valid() && InBounds(active, p.nTotal) && cache.Agrees(p)
    requires AreCombinations(seen, |active|, k) && IsCombination(combo, |active|, k)
    requires BestSoFar(p, active, k, seen, score, best, winner)
    modifies cache
    ensures cache.Agrees(p)
    ensures AreCombinations(seen + [combo], |active|, k)
    ensures BestSoFar(p, active, k, seen + [combo], score', best', winner')
  {
    var subset := Pick(active, combo);
    var blended := cache.BlendAndExpand(p, subset);
    var filtered := FilterAndReoptimize(p, subset, blended, cache);
    var w := filtered.weights;
    ExtendBest(p, active, k, seen, score, best, winner, combo);
    if HasPositive(w) && (score.None? || p.score(w) > score.value) {
      best', score', winner' := w, Some(p.score(w)), |seen|;
    } else {
      best', score', winner' := best, score, winner;
    }
  }

  /** The enumeration loop: one shared cache, the running best score and weights. */
  method Scan(p: Problem, active: seq<nat>, k: nat) returns (best: seq<real>, score: Option<real>)
    requires p.Valid() && InBounds(active, p.nTotal) && k < |active|
    ensures |best| == p.nTotal && HoldsAtMost(best, active, k)
    ensures score.Some? ==> exists c :: IsWinner(p, active, k, c) && best == Candidate(p, active, c)
    ensures score.Some? ==> IsBestOfSubsets(p, active, k, best)
    ensures 0 < k ==> (score.Some? <==> Feasible(p, active, k))
    ensures score.None? ==> best == seq(p.nTotal, _ => 0.0)
  {
    best, score := seq(p.nTotal, _ => 0.0), None;
    ghost var winner := 0;
    var cache := new SubsetCache();
    var combos := new Iterator(|active|, k);
    ghost var every := CombinationCount(|active|, k);
    var item := combos.Next();
    ghost var seen: seq<seq<nat>> := [];
    while item.Some?
      invariant fresh(combos) && fresh(combos.indices) && fresh(cache)
      invariant combos.n == |active| && combos.k == k
      invariant combos.Pending(seen, item)
      invariant cache.Agrees(p)
      invariant BestSoFar(p, active, k, seen, score, best, winner)
      decreases every - (set u | u in seen), item.Some?
    {
      best, score, winner := Consider(p, active, k, item.value, cache, best, score, seen, winner);
      RemainingShrinks(every, seen, item.value);
      seen := seen + [item.value];
      item := combos.Next();
    }
    FinishScan(p, active, k, seen, score, best, winner);
  }

  lemma FinishScan(p: Problem, active: seq<nat>, k: nat, run: seq<seq<nat>>,
                   score: Option<real>, best: seq<real>, winner: int)
    requires p.Valid() && InBounds(active, p.nTotal) && AreCombinations(run, |active|, k)
    requires if k == 0 then run == [] else IsWholeRun(run, |active|, k)
    requires BestSoFar(p, active, k, run, score, best, winner)
    ensures |best| == p.nTotal && HoldsAtMost(best, active, k)
    ensures score.Some? ==> exists c :: IsWinner(p, active, k, c) && best == Candidate(p, active, c)
    ensures score.Some? ==> IsBestOfSubsets(p, active, k, best)
    ensures 0 < k ==> (score.Some? <==> Feasible(p, active, k))
  {
    if 0 < k {
      ScanFindsWinner(p, active, k, run, score, best, winner);
    }
    if score.Some? {
      WinnerIsBest(p, active, k, run[winner]);
      CandidateHoldings(p, active, run[winner], k);
    } else {
      ZeroHoldings(best, active, k);
    }
  }
}
