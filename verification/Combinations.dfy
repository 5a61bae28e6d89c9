/**
 The C(n, k) subset iterator of the exhaustive optimizer.

 A combination is a strictly increasing sequence of k indices below n. The
 iterator keeps one combination in an array and moves it, in place, to the next
 one in lexicographic order.
 */
module Combinations {
  import opened Numeric

  predicate InBounds(s: seq<nat>, n: nat)
  {
    forall i :: 0 <= i < |s| ==> s[i] < n
  }

  ghost predicate IsCombination(s: seq<nat>, n: nat, k: nat)
  {
    && |s| == k
    && (forall i, j :: 0 <= i < j < |s| ==> s[i] < s[j])
    && InBounds(s, n)
  }

  ghost predicate AreCombinations(run: seq<seq<nat>>, n: nat, k: nat)
  {
    forall i :: 0 <= i < |run| ==> IsCombination(run[i], n, k)
  }

  /** s and t agree before position p and s is the smaller one at p. */
  ghost predicate SmallerAt(s: seq<nat>, t: seq<nat>, p: nat)
  {
    && p < |s| && p < |t|
    && s[p] < t[p]
    && forall i :: 0 <= i < p ==> s[i] == t[i]
  }

  ghost predicate LexLess(s: seq<nat>, t: seq<nat>)
  {
    exists p: nat :: SmallerAt(s, t, p)
  }

  lemma LexTransitive(s: seq<nat>, t: seq<nat>, u: seq<nat>)
    requires LexLess(s, t) && LexLess(t, u)
    ensures LexLess(s, u)
  {
    var p: nat :| SmallerAt(s, t, p);
    var q: nat :| SmallerAt(t, u, q);
    assert SmallerAt(s, u, if p < q then p else q);
  }

  lemma LexAsymmetric(s: seq<nat>, t: seq<nat>)
    ensures !(LexLess(s, t) && LexLess(t, s))
  {
    if LexLess(s, t) && LexLess(t, s) {
      LexTransitive(s, t, s);
    }
  }

  lemma LexTotal(s: seq<nat>, t: seq<nat>)
    requires |s| == |t|
    ensures s == t || LexLess(s, t) || LexLess(t, s)
  {
    if s != t {
      var p: nat := FirstDifference(s, t, 0);
      assert SmallerAt(s, t, p) || SmallerAt(t, s, p);
    }
  }

  ghost function FirstDifference(s: seq<nat>, t: seq<nat>, from: nat): (p: nat)
    requires |s| == |t| && s != t && from <= |s|
    requires forall i :: 0 <= i < from ==> s[i] == t[i]
    ensures from <= p < |s| && s[p] != t[p]
    ensures forall i :: 0 <= i < p ==> s[i] == t[i]
    decreases |s| - from
  {
    if from < |s| && s[from] != t[from] then from else FirstDifference(s, t, from + 1)
  }

  /** Later elements of a combination are at least one apart. */
  lemma {:induction false} Spread(s: seq<nat>, n: nat, k: nat, i: nat, j: nat)
    requires IsCombination(s, n, k) && i <= j < k
    ensures s[i] + (j - i) <= s[j]
    decreases j - i
  {
    if i < j {
      Spread(s, n, k, i, j - 1);
    }
  }

  /** Position i can hold at most n - k + i: the bound the iterator compares with. */
  lemma Ceiling(s: seq<nat>, n: nat, k: nat, i: nat)
    requires IsCombination(s, n, k) && i < k
    ensures k <= n && s[i] <= n - k + i
  {
    Spread(s, n, k, i, k - 1);
    Spread(s, n, k, 0, k - 1);
  }

  /** t is s with position i raised by one and the rest refilled consecutively. */
  ghost predicate Bumped(s: seq<nat>, t: seq<nat>, i: nat)
  {
    && |s| == |t| && i < |s|
    && (forall j :: 0 <= j < i ==> t[j] == s[j])
    && (forall j :: i <= j < |s| ==> t[j] == s[i] + 1 + (j - i))
  }

  /** Every position after i already holds its ceiling. */
  ghost predicate SaturatedAfter(s: seq<nat>, n: nat, k: nat, i: nat)
    requires |s| == k <= n
  {
    forall j :: i < j < k ==> s[j] == n - k + j
  }

  lemma BumpIsCombination(s: seq<nat>, t: seq<nat>, n: nat, k: nat, i: nat)
    requires IsCombination(s, n, k) && k <= n && Bumped(s, t, i) && s[i] < n - k + i
    ensures IsCombination(t, n, k) && LexLess(s, t)
  {
    assert SmallerAt(s, t, i);
    forall a, b | 0 <= a < b < |t|
      ensures t[a] < t[b]
    {
      if a < i {
        assert s[a] < s[i];
      }
    }
  }

  /** Nothing lies strictly between s and its bump at the last raisable position. */
  lemma BumpIsImmediate(s: seq<nat>, t: seq<nat>, u: seq<nat>, n: nat, k: nat, i: nat)
    requires IsCombination(s, n, k) && IsCombination(u, n, k) && k <= n
    requires Bumped(s, t, i) && SaturatedAfter(s, n, k, i)
    requires LexLess(s, u)
    ensures !LexLess(u, t)
  {
    var p: nat :| SmallerAt(s, u, p);
    Ceiling(u, n, k, p);
    assert p <= i;
    if LexLess(u, t) {
      var q: nat :| SmallerAt(u, t, q);
      if p < i || t[i] < u[i] {
        assert false;
      } else {
        assert q > i;
        Spread(u, n, k, i, q);
        assert false;
      }
    }
  }

  /** A combination whose every position is at its ceiling is the greatest one. */
  lemma SaturatedIsGreatest(s: seq<nat>, u: seq<nat>, n: nat, k: nat)
    requires IsCombination(s, n, k) && IsCombination(u, n, k) && k <= n
    requires forall j :: 0 <= j < k ==> s[j] == n - k + j
    ensures !LexLess(s, u)
  {
    if LexLess(s, u) {
      var p: nat :| SmallerAt(s, u, p);
      Ceiling(u, n, k, p);
      assert false;
    }
  }

  /** 0, 1, …, k - 1 is the least combination. */
  lemma InitialIsLeast(s: seq<nat>, u: seq<nat>, n: nat, k: nat)
    requires IsCombination(s, n, k) && IsCombination(u, n, k)
    requires forall j :: 0 <= j < k ==> s[j] == j
    ensures !LexLess(u, s)
  {
    if LexLess(u, s) {
      var p: nat :| SmallerAt(u, s, p);
      Spread(u, n, k, 0, p);
      assert false;
    }
  }

  // ---------------------------------------------------------------------------
  // What a run of the iterator has produced so far.

  /** Strictly increasing in lexicographic order, hence without repetition. */
  ghost predicate LexSorted(run: seq<seq<nat>>)
  {
    forall i, j :: 0 <= i < j < |run| ==> LexLess(run[i], run[j])
  }

  /** The run holds exactly the combinations up to and including its last item. */
  ghost predicate IsInitialRun(run: seq<seq<nat>>, n: nat, k: nat)
  {
    && LexSorted(run)
    && AreCombinations(run, n, k)
    && (run != [] ==>
          forall u :: IsCombination(u, n, k) && !LexLess(run[|run| - 1], u) ==> u in run)
  }

  ghost predicate IsWholeRun(run: seq<seq<nat>>, n: nat, k: nat)
  {
    && LexSorted(run)
    && forall u :: u in run <==> IsCombination(u, n, k)
  }

  lemma StartRun(t: seq<nat>, n: nat, k: nat)
    requires IsCombination(t, n, k)
    requires forall j :: 0 <= j < k ==> t[j] == j
    ensures IsInitialRun([t], n, k)
  {
    forall u | IsCombination(u, n, k) && !LexLess(t, u)
      ensures u in [t]
    {
      LexTotal(u, t);
      InitialIsLeast(t, u, n, k);
    }
  }

  lemma ExtendRun(run: seq<seq<nat>>, t: seq<nat>, n: nat, k: nat, i: nat)
    requires k <= n && run != [] && IsInitialRun(run, n, k)
    requires var s := run[|run| - 1];
             Bumped(s, t, i) && SaturatedAfter(s, n, k, i) && s[i] < n - k + i
    ensures IsInitialRun(run + [t], n, k)
    ensures t !in run
  {
    var s, next := run[|run| - 1], run + [t];
    BumpIsCombination(s, t, n, k, i);
    forall a, b | 0 <= a < b < |next|
      ensures LexLess(next[a], next[b])
    {
      if b == |run| && a < |run| - 1 {
        LexTransitive(run[a], s, t);
      }
    }
    if t in run {
      var a :| 0 <= a < |run| && run[a] == t;
      assert LexLess(next[a], next[|run|]);
      LexAsymmetric(t, t);
      assert false;
    }
    forall u | IsCombination(u, n, k) && !LexLess(t, u)
      ensures u in next
    {
      LexTotal(u, t);
      if LexLess(s, u) {
        BumpIsImmediate(s, t, u, n, k, i);
      }
    }
  }

  lemma FinishRun(run: seq<seq<nat>>, n: nat, k: nat)
    requires k <= n && run != [] && IsInitialRun(run, n, k)
    requires var s := run[|run| - 1];
             forall j :: 0 <= j < k ==> s[j] == n - k + j
    ensures IsWholeRun(run, n, k)
  {
    forall u | IsCombination(u, n, k)
      ensures u in run
    {
      SaturatedIsGreatest(run[|run| - 1], u, n, k);
    }
  }

  // ---------------------------------------------------------------------------
  // How many combinations there are.

  ghost function Binomial(n: nat, k: nat): nat
  {
    if k == 0 then 1 else if n == 0 then 0 else Binomial(n - 1, k) + Binomial(n - 1, k - 1)
  }

  ghost function Appended(base: set<seq<nat>>, x: nat): set<seq<nat>>
  {
    set c | c in base :: c + [x]
  }

  lemma InAppended(base: set<seq<nat>>, x: nat, u: seq<nat>)
    ensures u in Appended(base, x) <==> u != [] && u[|u| - 1] == x && u[..|u| - 1] in base
  {
    if u != [] && u[|u| - 1] == x && u[..|u| - 1] in base {
      assert u == u[..|u| - 1] + [x];
    }
    if u in Appended(base, x) {
      var c :| c in base && c + [x] == u;
      assert u[..|u| - 1] == c;
    }
  }

  lemma {:induction false} AppendedSize(base: set<seq<nat>>, x: nat)
    ensures |Appended(base, x)| == |base|
  {
    if base != {} {
      var c :| c in base;
      var rest := Appended(base - {c}, x);
      AppendedSize(base - {c}, x);
      InAppended(base - {c}, x, c + [x]);
      assert (c + [x])[..|c|] == c;
      assert Appended(base, x) == rest + {c + [x]};
    }
  }

  /** A combination below n either avoids n - 1 or ends with it. */
  lemma SplitLast(u: seq<nat>, n: nat, k: nat)
    requires 0 < k && 0 < n
    ensures IsCombination(u, n, k) <==>
              || IsCombination(u, n - 1, k)
              || (|u| == k && u[k - 1] == n - 1 && IsCombination(u[..k - 1], n - 1, k - 1))
  {
    if |u| == k {
      var init, last := u[..k - 1], u[k - 1];
      if IsCombination(u, n, k) {
        forall i | 0 <= i < k - 1 ensures u[i] < n - 1 {
          assert u[i] < last;
        }
      }
      if last == n - 1 && IsCombination(init, n - 1, k - 1) {
        forall i, j | 0 <= i < j < k ensures u[i] < u[j] {
          assert u[i] == init[i];
          assert j < k - 1 ==> u[j] == init[j];
        }
        forall i | 0 <= i < k ensures u[i] < n {
          assert i < k - 1 ==> u[i] == init[i];
        }
      }
    }
  }

  lemma UnionSize(low: set<seq<nat>>, base: set<seq<nat>>, x: nat)
    requires low !! Appended(base, x)
    ensures |low + Appended(base, x)| == |low| + |base|
  {
    AppendedSize(base, x);
  }

  ghost predicate AreAll(all: set<seq<nat>>, n: nat, k: nat) {
    forall u :: u in all <==> IsCombination(u, n, k)
  }

  /** Pascal's rule: the combinations that avoid n - 1, and those that end with it. */
  lemma PascalStep(low: set<seq<nat>>, base: set<seq<nat>>, n: nat, k: nat)
    requires n > 0 && k > 0 && AreAll(low, n - 1, k) && AreAll(base, n - 1, k - 1)
    ensures AreAll(low + Appended(base, n - 1), n, k) && low !! Appended(base, n - 1)
  {
    forall u
      ensures u in low + Appended(base, n - 1) <==> IsCombination(u, n, k)
      ensures !(u in low && u in Appended(base, n - 1))
    {
      SplitLast(u, n, k);
      InAppended(base, n - 1, u);
    }
  }

  lemma SmallestCases(n: nat, k: nat)
    ensures AreAll({[]}, n, 0) && (k > 0 ==> AreAll({}, 0, k))
  {
    forall u ensures k > 0 ==> !IsCombination(u, 0, k) {
      if k > 0 && |u| == k {
        var first := u[0];
        assert InBounds(u, 0) ==> first < 0;
      }
    }
  }

  lemma {:induction false} CombinationCount(n: nat, k: nat) returns (all: set<seq<nat>>)
    ensures AreAll(all, n, k) && |all| == Binomial(n, k)
    decreases n, k
  {
    if k == 0 || n == 0 {
      SmallestCases(n, k);
      all := if k == 0 then {[]} else {};
    } else {
      var low := CombinationCount(n - 1, k);
      var base := CombinationCount(n - 1, k - 1);
      PascalStep(low, base, n, k);
      UnionSize(low, base, n - 1);
      all := low + Appended(base, n - 1);
    }
  }

  lemma {:induction false} DistinctSize(run: seq<seq<nat>>)
    requires LexSorted(run)
    ensures |set u | u in run| == |run|
  {
    if run != [] {
      var init, last := run[..|run| - 1], run[|run| - 1];
      DistinctSize(init);
      if last in init {
        LexAsymmetric(last, last);
      }
      assert (set u | u in run) == (set u | u in init) + {last};
    }
  }

  /** A run to exhaustion has C(n, k) items. */
  lemma WholeRunSize(run: seq<seq<nat>>, n: nat, k: nat)
    requires IsWholeRun(run, n, k)
    ensures |run| == Binomial(n, k)
  {
    var all := CombinationCount(n, k);
    assert (set v | v in run) == all;
    DistinctSize(run);
  }

  // ---------------------------------------------------------------------------
  // The iterator.

  class Iterator {
    const n: nat
    const k: nat
    const indices: array<nat>
    var first: bool
    /** Everything returned so far, in order. */
    ghost var yielded: seq<seq<nat>>

    ghost predicate Valid()
      reads this, indices
    {
      && indices.Length == k
      && (k > 0 && k <= n ==>
            && IsInitialRun(yielded, n, k)
            && IsCombination(indices[..], n, k)
            && (first <==> yielded == [])
            && (first ==> forall j :: 0 <= j < k ==> indices[j] == j)
            && (!first ==> yielded[|yielded| - 1] == indices[..]))
      && (k == 0 || k > n ==> yielded == [])
    }

    constructor (n: nat, k: nat)
      ensures Valid() && fresh(indices)
      ensures this.n == n && this.k == k && first && yielded == []
    {
      this.n := n;
      this.k := k;
      indices := new nat[k](i => i);
      first := true;
      yielded := [];
    }

    /** Scan from the right for a position below its ceiling. */
    method LastRaisable() returns (pos: Option<nat>)
      requires indices.Length == k <= n && IsCombination(indices[..], n, k)
      ensures pos.None? ==> forall j :: 0 <= j < k ==> indices[j] == n - k + j
      ensures pos.Some? ==>
                && pos.value < k && indices[pos.value] < n - k + pos.value
                && SaturatedAfter(indices[..], n, k, pos.value)
    {
      var i := k;
      while true
        invariant 0 <= i <= k
        invariant forall j :: i <= j < k ==> indices[j] == n - k + j
        decreases i
      {
        if i == 0 {
          return None;
        }
        i := i - 1;
        if indices[i] < n - k + i {
          return Some(i);
        }
        Ceiling(indices[..], n, k, i);
      }
    }

    /** Raise position i and refill everything after it consecutively. */
    method Raise(i: nat)
      requires i < indices.Length == k
      modifies indices
      ensures Bumped(old(indices[..]), indices[..], i)
    {
      ghost var s := indices[..];
      indices[i] := indices[i] + 1;
      for j := i + 1 to k
        invariant forall m :: 0 <= m < i ==> indices[m] == s[m]
        invariant forall m :: i <= m < j ==> indices[m] == s[i] + 1 + (m - i)
      {
        indices[j] := indices[j - 1] + 1;
      }
    }

    /** `item` is what the last call returned, after everything in `seen`. */
    ghost predicate Pending(seen: seq<seq<nat>>, item: Option<seq<nat>>)
      reads this, indices
    {
      && Valid()
      && AreCombinations(seen, n, k)
      && match item
         case Some(t) => 0 < k && IsCombination(t, n, k) && t !in seen && yielded == seen + [t]
         case None => yielded == seen && if k == 0 then seen == [] else IsWholeRun(seen, n, k)
    }

    method Next() returns (item: Option<seq<nat>>)
      requires Valid()
      modifies this, indices
      ensures Pending(old(yielded), item)
    {
      if k == 0 || k > n {
        NoneAboveN(n, k);
        return None;
      }
      if first {
        first := false;
        yielded := [indices[..]];
        StartRun(indices[..], n, k);
        return Some(indices[..]);
      }
      var pos := LastRaisable();
      if pos.None? {
        FinishRun(yielded, n, k);
        return None;
      }
      ghost var s := indices[..];
      Raise(pos.value);
      BumpIsCombination(s, indices[..], n, k, pos.value);
      ExtendRun(yielded, indices[..], n, k, pos.value);
      yielded := yielded + [indices[..]];
      return Some(indices[..]);
    }
  }

  /** What a run over the given combinations has not produced yet shrinks with every new item. */
  lemma RemainingShrinks(every: set<seq<nat>>, run: seq<seq<nat>>, t: seq<nat>)
    requires t in every && t !in run
    ensures every - (set u | u in run + [t]) < every - set u | u in run
  {
    assert t in every - (set u | u in run);
  }

  lemma NoneAboveN(n: nat, k: nat)
    ensures 0 < k && k > n ==> IsWholeRun([], n, k)
  {
    if 0 < k && k > n {
      forall u ensures !IsCombination(u, n, k) {
        if IsCombination(u, n, k) {
          Ceiling(u, n, k, 0);
          assert false;
        }
      }
    }
  }

  /** Draining a fresh iterator, as the optimizer's `for combo in …` loop does. */
  method Enumerate(n: nat, k: nat) returns (all: seq<seq<nat>>)
    ensures 0 < k ==> IsWholeRun(all, n, k) && |all| == Binomial(n, k)
    ensures k == 0 ==> all == []
  {
    var combos := new Iterator(n, k);
    all := [];
    ghost var every := CombinationCount(n, k);
    var item := combos.Next();
    while item.Some?
      invariant fresh(combos) && fresh(combos.indices)
      invariant combos.n == n && combos.k == k && combos.Pending(all, item)
      decreases every - (set u | u in all), item.Some?
    {
      RemainingShrinks(every, all, item.value);
      all := all + [item.value];
      item := combos.Next();
    }
    if 0 < k {
      WholeRunSize(all, n, k);
    }
  }
}
