// What the integer amounts mean: each is the real amount of a concentrated
// liquidity position, at the square roots the Q64.96 prices stand for, rounded up.
module LiquidityReal {
  import opened Common
  import opened Liquidity
  import TickAccuracy

  /** The square root of the price, as a real number. */
  function Root(p: nat): real {
    p as real / 79_228_162_514_264_337_593_543_950_336.0
  }

  /** The price moved into [a, b]. */
  function Inside(p: nat, a: nat, b: nat): nat {
    Max(Min(a, b), Min(p, Max(a, b)))
  }

  /** n is the least natural number not below l*w. */
  predicate RoundsUp(n: nat, l: nat, w: real) {
    l as real * w <= n as real && (n > 0 ==> (n - 1) as real < l as real * w)
  }

  lemma RealProduct(x: int, y: int)
    ensures (x * y) as real == x as real * y as real
  {
  }

  /** l*w <= m*q, divided by q. */
  lemma Divided(l: real, w: real, m: real, q: real)
    requires q > 0.0
    ensures l * (w / q) <= m <==> l * w <= m * q
  {
    var x := w / q;
    assert x * q == w;
    assert l * w == l * x * q;
    if l * x <= m { Scale(l * x, m, q); }
    if m < l * x { ScaleLt(m, l * x, q); }
  }

  lemma Scale(x: real, y: real, c: real)
    requires x <= y && 0.0 <= c
    ensures x * c <= y * c
  {
  }

  lemma ScaleLt(x: real, y: real, c: real)
    requires x < y && 0.0 < c
    ensures x * c < y * c
  {
  }

  lemma Amount1Real(a: nat, b: nat, l: nat, q: nat, m: nat)
    requires q > 0
    ensures l * (b - a) <= m * q <==> l as real * (b as real / q as real - a as real / q as real) <= m as real
  {
    RealProduct(l, b - a);
    RealProduct(m, q);
    assert (l * (b - a)) as real <= (m * q) as real <==> l * (b - a) <= m * q;
    assert b as real / q as real - a as real / q as real == (b - a) as real / q as real;
    Divided(l as real, (b - a) as real, m as real, q as real);
  }

  /** 1/(a/q) - 1/(b/q) is q*(b-a) / (a*b). */
  lemma Inverses(a: real, b: real, q: real)
    requires 0.0 < a && 0.0 < b && 0.0 < q
    ensures a * b > 0.0 && a / q > 0.0 && b / q > 0.0
    ensures 1.0 / (a / q) - 1.0 / (b / q) == q * (b - a) / (a * b)
  {
    ScaleLt(0.0, a, b);
    var u, v := 1.0 / (a / q), 1.0 / (b / q);
    assert u == q / a by { Inverse(a, q); }
    assert v == q / b by { Inverse(b, q); }
    assert u * (a * b) == q * b by { assert u * a == q; }
    assert v * (a * b) == q * a by { assert v * b == q; }
    assert (u - v) * (a * b) == q * (b - a);
  }

  lemma Inverse(a: real, q: real)
    requires 0.0 < a && 0.0 < q
    ensures a / q > 0.0 && 1.0 / (a / q) == q / a
  {
    var x, y := a / q, q / a;
    assert x * q == a && y * a == q;
    calc {
      y * x * q;
    ==
      y * (x * q);
    ==
      y * a;
    ==
      q;
    }
    Unscaled(y * x, q);
  }

  lemma Unscaled(x: real, q: real)
    requires 0.0 < q && x * q == q
    ensures x == 1.0
  {
  }

  lemma Amount0Real(a: nat, b: nat, l: nat, q: nat, m: nat)
    requires q > 0 && 0 < a && 0 < b
    ensures a as real / q as real > 0.0 && b as real / q as real > 0.0
    ensures l * q * (b - a) <= m * (a * b)
       <==> l as real * (1.0 / (a as real / q as real) - 1.0 / (b as real / q as real)) <= m as real
  {
    var x, y, z := a as real, b as real, q as real;
    Inverses(x, y, z);
    RealProduct(l * q, b - a);
    RealProduct(l, q);
    RealProduct(a, b);
    RealProduct(m, a * b);
    assert (l * q * (b - a)) as real <= (m * (a * b)) as real <==> l * q * (b - a) <= m * (a * b);
    assert l as real * (z * (y - x)) == (l * q * (b - a)) as real;
    Divided(l as real, z * (y - x), m as real, x * y);
  }

  lemma Amount1RoundsUp(a: nat, b: nat, l: nat)
    requires a <= b
    ensures RoundsUp(Amount1For(a, b, l), l, Root(b) - Root(a))
  {
    var n := Amount1For(a, b, l);
    CeilFits(l * (b - a), Q96, n);
    Amount1Real(a, b, l, Q96, n);
    if n > 0 {
      CeilFits(l * (b - a), Q96, n - 1);
      Amount1Real(a, b, l, Q96, n - 1);
    }
  }

  lemma Amount0RoundsUp(a: nat, b: nat, l: nat)
    requires 0 < a <= b
    ensures Root(a) > 0.0 && Root(b) > 0.0
    ensures RoundsUp(Amount0For(a, b, l), l, 1.0 / Root(a) - 1.0 / Root(b))
  {
    var n := Amount0For(a, b, l);
    CeilFits(l * Q96 * (b - a), b * a, n);
    assert b * a == a * b;
    Amount0Real(a, b, l, Q96, n);
    if n > 0 {
      CeilFits(l * Q96 * (b - a), b * a, n - 1);
      Amount0Real(a, b, l, Q96, n - 1);
    }
  }

  /** The root squared is the price whose distance from the power of 1.0001 is known. */
  lemma RootIsPriceRoot(p: nat)
    ensures TickAccuracy.Price(p) == Root(p) * Root(p)
  {
  }

  /**
   * At any price a position of l over the range asks for l*(1/root(p) -
   * 1/root(hi)) of token0 and l*(root(p) - root(lo)) of token1, with the price
   * moved into the range, and each rounded up once.
   */
  lemma AmountsAreReal(p: nat, a: nat, b: nat, l: nat)
    requires 0 < p && 0 < a && 0 < b
    ensures var x, lo, hi, cost := Inside(p, a, b), Min(a, b), Max(a, b), AmountsForLiquidity(p, a, b, l);
            && Root(x) > 0.0 && Root(hi) > 0.0
            && RoundsUp(cost.amount0, l, 1.0 / Root(x) - 1.0 / Root(hi))
            && RoundsUp(cost.amount1, l, Root(x) - Root(lo))
  {
    hide Root, Amount0For, Amount1For, RoundsUp;
    var x, lo, hi := Inside(p, a, b), Min(a, b), Max(a, b);
    Amount0RoundsUp(x, hi, l);
    Amount1RoundsUp(lo, x, l);
    AmountsInside(p, a, b, l);
  }

  /** The three regions of the price, as one: moved into the range, the price splits it between the tokens. */
  lemma AmountsInside(p: nat, a: nat, b: nat, l: nat)
    requires 0 < p && 0 < a && 0 < b
    ensures var x := Inside(p, a, b);
            AmountsForLiquidity(p, a, b, l) == Amounts(Amount0For(x, Max(a, b), l), Amount1For(Min(a, b), x, l))
  {
    var x, lo, hi := Inside(p, a, b), Min(a, b), Max(a, b);
    Nothing(hi, l);
    Nothing(lo, l);
    NoLiquidity(x, hi);
    NoLiquidity(lo, x);
  }

  lemma Nothing(a: nat, l: nat)
    requires 0 < a
    ensures Amount0For(a, a, l) == 0 && Amount1For(a, a, l) == 0
  {
    CeilFits(0, a * a, 0);
    CeilFits(0, Q96, 0);
    assert l * Q96 * (a - a) == 0 && l * (a - a) == 0;
  }

  lemma NoLiquidity(a: nat, b: nat)
    requires 0 < a <= b
    ensures Amount0For(a, b, 0) == 0 && Amount1For(a, b, 0) == 0
  {
    CeilFits(0, b * a, 0);
    CeilFits(0, Q96, 0);
    assert 0 * Q96 * (b - a) == 0 && 0 * (b - a) == 0;
  }
}
