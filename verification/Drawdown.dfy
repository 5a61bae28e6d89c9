/** Maximum drawdown of a value series: one pass against the maximum over all pairs. */
module Drawdown {

  /** The highest value among v[0..j]. */
  ghost predicate IsPeak(v: seq<real>, j: nat, peak: real)
    requires j < |v|
  {
    && (exists i :: 0 <= i <= j && v[i] == peak)
    && (forall i :: 0 <= i <= j ==> v[i] <= peak)
  }

  /** The part of `high` that is lost on the way down to `low`. */
  ghost function Drop(high: real, low: real): (d: real)
    requires high > 0.0
    ensures d * high == high - low
  {
    (high - low) / high
  }

  /** Falling to the same non-negative value from higher up is a larger relative drop. */
  lemma DropMonotone(a: real, b: real, low: real)
    requires 0.0 < a <= b && 0.0 <= low
    ensures Drop(a, low) <= Drop(b, low)
  {
    var p, q := Drop(a, low), Drop(b, low);
    assert p * a == a - low && q * b == b - low;
    if p > q {
      assert (p * a) * b == (p * b) * a;
      assert (p * b) * a > (q * b) * a by { Scale(q * b, p * b, a); Scale(q, p, b); }
      assert (a - low) * b <= (b - low) * a;
    }
  }

  lemma Scale(x: real, y: real, c: real)
    requires c > 0.0
    ensures x < y ==> x * c < y * c
  {
  }

  /** d is the largest relative drop from an earlier (or equal) positive value to a later one. */
  ghost predicate IsMaxDrawdown(v: seq<real>, n: nat, d: real)
    requires n <= |v|
  {
    && (forall i, j :: 0 <= i <= j < n && v[i] > 0.0 ==> Drop(v[i], v[j]) <= d)
    && (d == 0.0 || exists i, j :: 0 <= i <= j < n && v[i] > 0.0 && Drop(v[i], v[j]) == d)
  }

  /** d is the largest relative drop from the running peak, over every series. */
  ghost predicate IsMaxFromPeak(v: seq<real>, n: nat, d: real)
    requires n <= |v|
  {
    && (forall j, peak :: 0 <= j < n && IsPeak(v, j, peak) && peak > 0.0 ==> Drop(peak, v[j]) <= d)
    && (d == 0.0 || exists j, peak :: 0 <= j < n && IsPeak(v, j, peak) && peak > 0.0 && Drop(peak, v[j]) == d)
  }

  lemma ExtendMaximum(v: seq<real>, n: nat, peak: real, d: real, d': real)
    requires n < |v| && forall i :: 0 <= i < |v| ==> v[i] >= 0.0
    requires d >= 0.0 && IsMaxDrawdown(v, n, d) && IsPeak(v, n, peak)
    requires d' == if peak > 0.0 && Drop(peak, v[n]) > d then Drop(peak, v[n]) else d
    ensures IsMaxDrawdown(v, n + 1, d')
  {
    forall i, j | 0 <= i <= j < n + 1 && v[i] > 0.0
      ensures Drop(v[i], v[j]) <= d'
    {
      if j == n {
        DropMonotone(v[i], peak, v[n]);
      }
    }
    if d' != d {
      var i :| 0 <= i <= n && v[i] == peak;
      assert v[i] > 0.0 && Drop(v[i], v[n]) == d';
    } else if d != 0.0 {
      var i, j :| 0 <= i <= j < n && v[i] > 0.0 && Drop(v[i], v[j]) == d;
      assert 0 <= i <= j < n + 1;
    }
  }

  lemma ExtendPeak(v: seq<real>, n: nat, peak: real)
    requires 0 < n < |v| && IsPeak(v, n - 1, peak)
    ensures IsPeak(v, n, if v[n] > peak then v[n] else peak)
  {
    var i :| 0 <= i <= n - 1 && v[i] == peak;
    assert 0 <= i <= n;
  }

  lemma ExtendFromPeak(v: seq<real>, n: nat, peak: real, d: real, d': real)
    requires n < |v| && IsMaxFromPeak(v, n, d) && IsPeak(v, n, peak)
    requires d' == if peak > 0.0 && Drop(peak, v[n]) > d then Drop(peak, v[n]) else d
    ensures IsMaxFromPeak(v, n + 1, d')
  {
    forall j, p | 0 <= j < n + 1 && IsPeak(v, j, p) && p > 0.0
      ensures Drop(p, v[j]) <= d'
    {
      if j == n {
        assert p == peak;
      }
    }
    if d' == d && d != 0.0 {
      var j, p :| 0 <= j < n && IsPeak(v, j, p) && p > 0.0 && Drop(p, v[j]) == d;
      assert 0 <= j < n + 1;
    }
  }

  /** The deepest drop so far, given one more value below its peak. */
  function Deeper(d: real, peak: real, value: real): (r: real) {
    if peak > 0.0 && (peak - value) / peak > d then (peak - value) / peak else d
  }

  ghost predicate NonNegative(v: seq<real>) {
    forall i :: 0 <= i < |v| ==> v[i] >= 0.0
  }

  /** After n values: the peak among them and the deepest drop. */
  ghost predicate Tracks(v: seq<real>, n: nat, peak: real, d: real)
    requires 0 < n <= |v|
  {
    && d >= 0.0 && IsPeak(v, n - 1, peak) && IsMaxFromPeak(v, n, d)
    && (NonNegative(v) ==> IsMaxDrawdown(v, n, d))
  }

  lemma TracksFirst(v: seq<real>)
    requires v != []
    ensures Tracks(v, 1, v[0], 0.0)
  {
    assert IsPeak(v, 0, v[0]);
    assert forall peak :: IsPeak(v, 0, peak) ==> peak == v[0];
  }

  lemma TracksNext(v: seq<real>, n: nat, peak: real, d: real)
    requires 0 < n < |v| && Tracks(v, n, peak, d)
    ensures var p := if v[n] > peak then v[n] else peak;
            Tracks(v, n + 1, p, Deeper(d, p, v[n]))
  {
    var p := if v[n] > peak then v[n] else peak;
    ExtendPeak(v, n, peak);
    ExtendFromPeak(v, n, p, d, Deeper(d, p, v[n]));
    if NonNegative(v) {
      ExtendMaximum(v, n, p, d, Deeper(d, p, v[n]));
    }
  }

  method MaxDrawdown(v: seq<real>) returns (d: real)
    ensures d >= 0.0 && IsMaxFromPeak(v, |v|, d)
    ensures NonNegative(v) ==> IsMaxDrawdown(v, |v|, d)
  {
    if v == [] {
      return 0.0;
    }
    var peak := v[0];
    d := 0.0;
    TracksFirst(v);
    for n := 1 to |v|
      invariant Tracks(v, n, peak, d)
    {
      TracksNext(v, n, peak, d);
      peak := if v[n] > peak then v[n] else peak;
      d := Deeper(d, peak, v[n]);
    }
  }
}
