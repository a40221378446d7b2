// How much of each token a concentrated-liquidity position holds, and how much
// liquidity given amounts fund, in exact integer arithmetic at Q64.96.
module Liquidity {
  import opened Common
  import TickMath

  const Q96 := 0x1_0000_0000_0000_0000_0000_0000

  datatype Amounts = Amounts(amount0: nat, amount1: nat)

  datatype LiquidityError = DivisionByZero

  function Lower(a: nat, b: nat): nat {
    if a > b then b else a
  }

  function Upper(a: nat, b: nat): nat {
    if a > b then a else b
  }

  /** Token0 held over [a, b], rounded up as the pool does. */
  function Amount0For(a: nat, b: nat, l: nat): nat
    requires 0 < a <= b
  {
    CeilDiv(l * Q96 * (b - a), b * a)
  }

  /** Token1 held over [a, b], rounded up. */
  function Amount1For(a: nat, b: nat, l: nat): nat
    requires a <= b
  {
    CeilDiv(l * (b - a), Q96)
  }

  function AmountsForLiquidity(p: nat, a: nat, b: nat, l: nat): Amounts
    requires 0 < p && 0 < a && 0 < b
  {
    var lo, hi := Lower(a, b), Upper(a, b);
    if l == 0 then Amounts(0, 0)
    else if p <= lo then Amounts(Amount0For(lo, hi, l), 0)
    else if p >= hi then Amounts(0, Amount1For(lo, hi, l))
    else Amounts(Amount0For(p, hi, l), Amount1For(lo, p, l))
  }

  function LiquidityFor0(a: nat, b: nat, amount0: nat): nat
    requires a < b
  {
    amount0 * (a * b / Q96) / (b - a)
  }

  function LiquidityFor1(a: nat, b: nat, amount1: nat): nat
    requires a < b
  {
    amount1 * Q96 / (b - a)
  }

  /** Equal bounds divide by zero, which a bigint reports by throwing. */
  function LiquidityForAmounts(p: nat, a: nat, b: nat, amount0: nat, amount1: nat): Result<nat, LiquidityError>
    requires 0 < p && 0 < a && 0 < b
  {
    var lo, hi := Lower(a, b), Upper(a, b);
    if lo == hi then Err(DivisionByZero)
    else if p <= lo then Ok(LiquidityFor0(lo, hi, amount0))
    else if p >= hi then Ok(LiquidityFor1(lo, hi, amount1))
    else Ok(Min(LiquidityFor0(p, hi, amount0), LiquidityFor1(lo, p, amount1)))
  }

  // --------------------------------------------------------- one token

  /** What liquidity l may cost at most, as a product: the exact real-number test. */
  predicate Affords0(a: nat, b: nat, l: nat, amount0: nat) {
    l * Q96 * (b - a) <= amount0 * (a * b)
  }

  lemma Affords0IsAmount(a: nat, b: nat, l: nat, amount0: nat)
    requires 0 < a < b
    ensures Amount0For(a, b, l) <= amount0 <==> Affords0(a, b, l, amount0)
  {
    assert a * b == b * a;
    CeilFits(l * Q96 * (b - a), b * a, amount0);
  }

  /** Token1: the computed liquidity is the exact maximum the amount funds. */
  lemma Liquidity1IsMaximum(a: nat, b: nat, l: nat, amount1: nat)
    requires 0 < a < b
    ensures Amount1For(a, b, l) <= amount1 <==> l <= LiquidityFor1(a, b, amount1)
  {
    CeilFits(l * (b - a), Q96, amount1);
    FitsQuotient(l, amount1 * Q96, b - a);
  }

  /** Token0: the computed liquidity never costs more than the amount. */
  lemma Liquidity0NeverOver(a: nat, b: nat, amount0: nat)
    requires 0 < a < b
    ensures Amount0For(a, b, LiquidityFor0(a, b, amount0)) <= amount0
  {
    var i := a * b / Q96;
    var l := LiquidityFor0(a, b, amount0);
    Floor(a * b, Q96);
    Floor(amount0 * i, b - a);
    Scaled0(l, b - a, amount0, i, a * b, Q96);
    Affords0IsAmount(a, b, l, amount0);
  }

  lemma Scaled0(l: nat, width: nat, amount0: nat, i: nat, product: nat, q: nat)
    requires l * width <= amount0 * i && i * q <= product
    ensures l * q * width <= amount0 * product
  {
    MulLe(l * width, amount0 * i, q);
    Swap(l, width, q);
    MulLe(i * q, product, amount0);
    Swap(i, q, amount0);
    assert amount0 * i == i * amount0 && amount0 * product == product * amount0;
  }

  /** Token0: and no affordable liquidity exceeds it by amount0/(b-a) + 1 or more. */
  lemma Liquidity0NearMaximum(a: nat, b: nat, l: nat, amount0: nat)
    requires 0 < a < b
    requires Amount0For(a, b, l) <= amount0
    ensures (l - LiquidityFor0(a, b, amount0) - 1) * (b - a) < Max(amount0, 1)
  {
    var i := a * b / Q96;
    var m := LiquidityFor0(a, b, amount0);
    Affords0IsAmount(a, b, l, amount0);
    Floor(a * b, Q96);
    Floor(amount0 * i, b - a);
    GapProduct(l, b - a, amount0, a * b, i, m);
  }

  lemma GapProduct(l: nat, d: nat, x: nat, n: nat, i: nat, m: nat)
    requires 0 < d
    requires l * Q96 * d <= x * n && n <= i * Q96 + Q96
    requires x * i < m * d + d
    ensures (l - m - 1) * d < Max(x, 1)
  {
    calc {
      (l * d) * Q96;
      l * Q96 * d;
    <=
      x * n;
    <= { MulLe(n, i * Q96 + Q96, x); }
      (x * i + x) * Q96;
    }
    Cancel(l * d, x * i + x, Q96);
    assert (l - m - 1) * d == l * d - m * d - d;
  }

  // ------------------------------------------------ every price region

  /** liquidityForAmounts fails exactly on an empty range, and never costs more than it was given. */
  lemma NeverOverspends(p: nat, a: nat, b: nat, amount0: nat, amount1: nat)
    requires 0 < p && 0 < a && 0 < b
    ensures LiquidityForAmounts(p, a, b, amount0, amount1).Err? <==> a == b
    ensures a != b ==>
              var cost := AmountsForLiquidity(p, a, b, LiquidityForAmounts(p, a, b, amount0, amount1).value);
              cost.amount0 <= amount0 && cost.amount1 <= amount1
  {
    var lo, hi := Lower(a, b), Upper(a, b);
    if lo < hi {
      if p <= lo {
        Liquidity0NeverOver(lo, hi, amount0);
      } else if p >= hi {
        Liquidity1IsMaximum(lo, hi, LiquidityFor1(lo, hi, amount1), amount1);
      } else {
        var l := Min(LiquidityFor0(p, hi, amount0), LiquidityFor1(lo, p, amount1));
        Liquidity0NeverOver(p, hi, amount0);
        Amount0Monotone(p, hi, l, LiquidityFor0(p, hi, amount0));
        Liquidity1IsMaximum(lo, p, l, amount1);
      }
    }
  }

  lemma Amount0Monotone(a: nat, b: nat, l: nat, m: nat)
    requires 0 < a < b && l <= m
    ensures Amount0For(a, b, l) <= Amount0For(a, b, m)
  {
    Affords0IsAmount(a, b, m, Amount0For(a, b, m));
    Affords0IsAmount(a, b, l, Amount0For(a, b, m));
    MulLe(l, m, Q96 * (b - a));
    assert l * Q96 * (b - a) == l * (Q96 * (b - a)) && m * Q96 * (b - a) == m * (Q96 * (b - a));
  }

  /** The end of the token0 stretch of the range: token0 covers [Token0Low, Upper(a, b)]. */
  function Token0Low(p: nat, a: nat, b: nat): nat {
    Max(p, Lower(a, b))
  }

  /**
   * Maximality: below the price nothing affordable beats the computed
   * liquidity; otherwise it is beaten by less than amount0/width + 1, where
   * width is the token0 stretch of the range.
   */
  lemma NearlyMaximal(p: nat, a: nat, b: nat, amount0: nat, amount1: nat, l: nat)
    requires 0 < p && 0 < a && 0 < b && a != b
    requires var cost := AmountsForLiquidity(p, a, b, l); cost.amount0 <= amount0 && cost.amount1 <= amount1
    ensures var best := LiquidityForAmounts(p, a, b, amount0, amount1).value;
            || l <= best
            || (p < Upper(a, b) && (l - best - 1) * (Upper(a, b) - Token0Low(p, a, b)) < Max(amount0, 1))
  {
    var lo, hi := Lower(a, b), Upper(a, b);
    if l > 0 {
      if p <= lo {
        Liquidity0NearMaximum(lo, hi, l, amount0);
      } else if p >= hi {
        Liquidity1IsMaximum(lo, hi, l, amount1);
      } else {
        Liquidity0NearMaximum(p, hi, l, amount0);
        Liquidity1IsMaximum(lo, p, l, amount1);
      }
    }
  }

  // -------------------------------------------------------- round trip

  /** The liquidity funded by exactly what l costs. */
  function Back(p: nat, a: nat, b: nat, l: nat): nat
    requires 0 < p && 0 < a && 0 < b && a != b
  {
    var cost := AmountsForLiquidity(p, a, b, l);
    LiquidityForAmounts(p, a, b, cost.amount0, cost.amount1).value
  }

  /**
   * Costs round up, so one expects the round trip to give back at least l.
   * That holds for every l exactly when the price is at or above the range,
   * or the product of the token0 bounds is a multiple of 2^96: only then does
   * liquidityFor0's inner division lose nothing.
   */
  lemma RoundTripExactWhen(p: nat, a: nat, b: nat)
    requires 0 < p && 0 < a && 0 < b && a != b
    ensures (forall l: nat :: Back(p, a, b, l) >= l)
       <==> p >= Upper(a, b) || Token0Low(p, a, b) * Upper(a, b) % Q96 == 0
  {
    var lo, hi, x := Lower(a, b), Upper(a, b), Token0Low(p, a, b);
    if p >= hi || x * hi % Q96 == 0 {
      forall l: nat ensures Back(p, a, b, l) >= l {
        RoundTripHolds(p, a, b, l);
      }
    } else {
      RoundTripLoses(x, hi);
      assert Back(p, a, b, x * hi) <= LiquidityFor0(x, hi, Amount0For(x, hi, x * hi));
    }
  }

  lemma RoundTripHolds(p: nat, a: nat, b: nat, l: nat)
    requires 0 < p && 0 < a && 0 < b && a != b
    requires p >= Upper(a, b) || Token0Low(p, a, b) * Upper(a, b) % Q96 == 0
    ensures Back(p, a, b, l) >= l
  {
    var lo, hi, x := Lower(a, b), Upper(a, b), Token0Low(p, a, b);
    if l > 0 {
      if p >= hi {
        Liquidity1IsMaximum(lo, hi, l, Amount1For(lo, hi, l));
      } else {
        ExactProductFunds0(x, hi, l);
        if lo < p {
          Liquidity1IsMaximum(lo, p, l, Amount1For(lo, p, l));
        }
      }
    }
  }

  lemma ExactProductFunds0(a: nat, b: nat, l: nat)
    requires 0 < a < b && a * b % Q96 == 0
    ensures LiquidityFor0(a, b, Amount0For(a, b, l)) >= l
  {
    var i, x := a * b / Q96, Amount0For(a, b, l);
    assert i * Q96 == a * b;
    Affords0IsAmount(a, b, l, x);
    calc {
      (l * (b - a)) * Q96;
      l * Q96 * (b - a);
    <=
      x * (i * Q96);
      (x * i) * Q96;
    }
    Cancel(l * (b - a), x * i, Q96);
    FitsQuotient(l, x * i, b - a);
  }

  lemma CostOfProduct(a: nat, b: nat, n: nat)
    requires 0 < a < b && n == b * a && 0 < n
    ensures Amount0For(a, b, n) <= Q96 * (b - a)
  {
    var x := Q96 * (b - a);
    assert n * Q96 * (b - a) == x * n;
    CeilFits(x * n, n, x);
  }

  /** At l = a*b the cost is exact and the lost remainder shows. */
  lemma RoundTripLoses(a: nat, b: nat)
    requires 0 < a < b && a * b % Q96 != 0
    ensures a * b > 0 && LiquidityFor0(a, b, Amount0For(a, b, a * b)) < a * b
  {
    var n, d, i := a * b, b - a, a * b / Q96;
    var cost := Amount0For(a, b, n);
    CostOfProduct(a, b, n);
    calc {
      cost * i;
    <= { MulLe(cost, Q96 * d, i); }
      Q96 * d * i;
      (i * Q96) * d;
    < { MulLt(i * Q96, n, d); }
      n * d;
    }
    FitsQuotient(n, cost * i, d);
  }

  /** The round trip can lose everything: one tick at the bottom of the range, 10^18 of liquidity. */
  lemma RoundTripCounterexample()
    ensures var p, next := TickMath.SqrtPrice(TickMath.MIN_TICK), TickMath.SqrtPrice(TickMath.MIN_TICK + 1);
            0 < p < next && Back(p, p, next, 1_000_000_000_000_000_000) == 0
  {
    TickMath.LowestBin();
    hide TickMath.SqrtPrice;
    assert 4295128739 * 4295343490 / Q96 == 0;
  }
}
