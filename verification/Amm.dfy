/** Constant-product pricing with a fee, in whole units rounded down. */
module Amm {
  import opened Numeric

  const FEE_DIVISOR: nat := 10_000

  /** What the fee leaves of the input, times FEE_DIVISOR: the fee itself is the rest of it. */
  function Net(fee: nat, amount: nat): (g: nat)
    requires fee <= FEE_DIVISOR
    ensures g + fee * amount == FEE_DIVISOR * amount
  {
    MulMonotone(FEE_DIVISOR - fee, FEE_DIVISOR, amount);
    amount * (FEE_DIVISOR - fee)
  }

  lemma NetMonotone(fee: nat, a: nat, b: nat)
    requires fee <= FEE_DIVISOR && a <= b
    ensures Net(fee, a) <= Net(fee, b)
  {
    MulMonotone(a, b, FEE_DIVISOR - fee);
  }

  function Quotient(n: nat, d: nat): (q: nat)
    requires 0 < d
  {
    n / d
  }

  /** Output of a swap of `amount` into reserves x (in) and y (out). */
  function Estimate(x: nat, y: nat, fee: nat, amount: nat): (r: nat)
    requires 0 < x && fee <= FEE_DIVISOR
  {
    var g := Net(fee, amount);
    var d := FEE_DIVISOR * x + g;
    assert d > 0;
    Quotient(g * y, d)
  }

  /** r is at most n / d exactly when r times d is at most n. */
  lemma AtMostQuotient(r: nat, n: nat, d: nat)
    requires 0 < d
    ensures r <= n / d <==> r * d <= n
  {
    var q := n / d;
    assert q * d <= n < (q + 1) * d;
    if r <= q {
      MulMonotone(r, q, d);
    } else {
      MulMonotone(q + 1, r, d);
    }
  }

  /** The bound a swap keeps for its net input also holds for any larger one. */
  lemma Raise(r: nat, base: nat, g: nat, h: nat, y: nat)
    requires r <= y && g <= h && r * (base + g) <= g * y
    ensures r * (base + h) <= h * y
  {
    MulMonotone(r, y, h - g);
    assert r * (base + h) == r * (base + g) + r * (h - g);
    assert h * y == g * y + y * (h - g);
  }

  lemma BelowReserve(x: nat, y: nat, fee: nat, amount: nat)
    requires 0 < x && 0 < y && fee <= FEE_DIVISOR
    ensures Estimate(x, y, fee, amount) < y
  {
    var g := Net(fee, amount);
    var d := FEE_DIVISOR * x + g;
    assert y * d == y * g + y * (FEE_DIVISOR * x);
    AtMostQuotient(y, g * y, d);
    assert y * (FEE_DIVISOR * x) > 0;
  }

  /** The bounds of the quotient, in terms of the net input. */
  lemma NetBound(x: nat, y: nat, fee: nat, amount: nat)
    requires 0 < x && fee <= FEE_DIVISOR
    ensures var r, g := Estimate(x, y, fee, amount), Net(fee, amount);
            r * (FEE_DIVISOR * x + g) <= g * y < (r + 1) * (FEE_DIVISOR * x + g)
  {
    var g := Net(fee, amount);
    AtMostQuotient(Estimate(x, y, fee, amount), g * y, FEE_DIVISOR * x + g);
    AtMostQuotient(Estimate(x, y, fee, amount) + 1, g * y, FEE_DIVISOR * x + g);
  }

  /** The output is the exact quotient rounded down, with the fee taken off the input. */
  lemma EstimateBound(x: nat, y: nat, fee: nat, amount: nat)
    requires 0 < x && fee <= FEE_DIVISOR
    ensures var r := Estimate(x, y, fee, amount);
            && r * (10_000 * x + amount * (10_000 - fee)) <= amount * (10_000 - fee) * y
            && amount * (10_000 - fee) * y < (r + 1) * (10_000 * x + amount * (10_000 - fee))
  {
    NetSpelledOut(fee, amount);
    NetBound(x, y, fee, amount);
  }

  lemma NetSpelledOut(fee: nat, amount: nat)
    requires fee <= FEE_DIVISOR
    ensures Net(fee, amount) == amount * (10_000 - fee)
  {
    assert amount * (10_000 - fee) + fee * amount == 10_000 * amount;
  }

  /** A swap never gives more than the fee-less price: r (x + a) <= a y. */
  lemma NoBetterThanFeeless(x: nat, y: nat, fee: nat, amount: nat)
    requires 0 < x && 0 < y && fee <= FEE_DIVISOR
    ensures Estimate(x, y, fee, amount) * (x + amount) <= amount * y
  {
    var r := Estimate(x, y, fee, amount);
    NetBound(x, y, fee, amount);
    BelowReserve(x, y, fee, amount);
    Raise(r, FEE_DIVISOR * x, Net(fee, amount), FEE_DIVISOR * amount, y);
    assert r * (FEE_DIVISOR * x + FEE_DIVISOR * amount) == FEE_DIVISOR * (r * (x + amount));
    assert FEE_DIVISOR * amount * y == FEE_DIVISOR * (amount * y);
  }

  /** The product of the reserves never falls. */
  lemma ProductNeverFalls(x: nat, y: nat, fee: nat, amount: nat)
    requires 0 < x && 0 < y && fee <= FEE_DIVISOR
    ensures var r := Estimate(x, y, fee, amount);
            r < y && (x + amount) * (y - r) >= x * y
  {
    var r := Estimate(x, y, fee, amount);
    BelowReserve(x, y, fee, amount);
    NoBetterThanFeeless(x, y, fee, amount);
    assert (x + amount) * (y - r) == x * y + amount * y - r * (x + amount);
  }

  lemma Monotone(x: nat, y: nat, fee: nat, a: nat, b: nat)
    requires 0 < x && 0 < y && fee <= FEE_DIVISOR && a <= b
    ensures Estimate(x, y, fee, a) <= Estimate(x, y, fee, b)
  {
    var r := Estimate(x, y, fee, a);
    NetBound(x, y, fee, a);
    BelowReserve(x, y, fee, a);
    NetMonotone(fee, a, b);
    Raise(r, FEE_DIVISOR * x, Net(fee, a), Net(fee, b), y);
    AtMostQuotient(r, Net(fee, b) * y, FEE_DIVISOR * x + Net(fee, b));
  }

  /** A bound over one denominator holds over a larger one. */
  lemma Widen(n: nat, p: nat, d: nat, s: nat)
    requires d <= s && n < p * d
    ensures n < p * s
  {
    assert p * s == p * d + p * (s - d);
  }

  lemma SumOfQuotients(p: nat, q: nat, r: nat, base: nat, g: nat, h: nat, y: nat)
    requires g * y < (p + 1) * (base + g) && h * y < (q + 1) * (base + h)
    requires r * (base + (g + h)) <= (g + h) * y
    ensures r <= p + q + 1
  {
    var s := base + (g + h);
    Widen(g * y, p + 1, base + g, s);
    Widen(h * y, q + 1, base + h, s);
    Distribute(g, h, y);
    Distribute(p + 1, q + 1, s);
    SmallerFactor(r, (p + 1) + (q + 1), s);
  }

  /** One swap of a + b beats two separate quotes for a and b by at most one unit of rounding. */
  lemma Subadditive(x: nat, y: nat, fee: nat, a: nat, b: nat)
    requires 0 < x && 0 < y && fee <= FEE_DIVISOR
    ensures Estimate(x, y, fee, a + b) <= Estimate(x, y, fee, a) + Estimate(x, y, fee, b) + 1
  {
    NetBound(x, y, fee, a);
    NetBound(x, y, fee, b);
    NetBound(x, y, fee, a + b);
    assert Net(fee, a + b) == Net(fee, a) + Net(fee, b);
    SumOfQuotients(Estimate(x, y, fee, a), Estimate(x, y, fee, b), Estimate(x, y, fee, a + b),
                   FEE_DIVISOR * x, Net(fee, a), Net(fee, b), y);
  }

  lemma NothingGained(x: nat, y: nat, amount: nat, r: nat, back: nat)
    requires 0 < y && r * (x + amount) <= amount * y && back * (y + r) <= r * x
    ensures back <= amount
  {
    assert (amount + 1) * (y + r) == amount * y + amount * r + y + r;
    assert r * (x + amount) == r * x + amount * r;
    if back > amount {
      MulMonotone(amount + 1, back, y + r);
    }
  }

  /** Swapping there and back through the same reserves never returns more than was put in. */
  lemma RoundTrip(x: nat, y: nat, fee: nat, amount: nat)
    requires 0 < x && 0 < y && fee <= FEE_DIVISOR
    ensures Estimate(y, x, fee, Estimate(x, y, fee, amount)) <= amount
  {
    var r := Estimate(x, y, fee, amount);
    var back := Estimate(y, x, fee, r);
    NoBetterThanFeeless(x, y, fee, amount);
    NoBetterThanFeeless(y, x, fee, r);
    NothingGained(x, y, amount, r, back);
  }
}
