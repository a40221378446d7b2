// What the tick prices mean: squared, they are 1.0001^tick up to a relative
// error far below one part in a billion. The definition they are compared with
// is the real power, not the twenty factors.
module TickAccuracy {
  import opened Common
  import opened TickMath

  /** 1.0001^n. */
  function Power(n: nat): (p: real)
    ensures p >= 1.0
  {
    if n == 0 then 1.0 else 1.0001 * Power(n - 1)
  }

  function TickPower(tick: int): (p: real)
    ensures p > 0.0
  {
    if tick >= 0 then Power(tick) else 1.0 / Power(-tick)
  }

  lemma {:induction false} PowerAdds(m: nat, n: nat)
    ensures Power(m + n) == Power(m) * Power(n)
  {
    if m > 0 {
      PowerAdds(m - 1, n);
    }
  }

  /** x is 1 up to e. */
  predicate Near(x: real, e: real) {
    1.0 - e <= x <= 1.0 + e
  }

  lemma NearTimes(x: real, y: real, a: real, b: real)
    requires 0.0 <= a <= 0.01 && 0.0 <= b <= 0.01 && Near(x, a) && Near(y, b)
    ensures Near(x * y, a + 1.01 * b)
  {
    ProductLe(x, 1.0 + a, y, 1.0 + b);
    ProductLe(1.0 - a, x, 1.0 - b, y);
    Expand(a, b);
    Expand(-a, -b);
    Signs(a, b);
    ProductLe(a, 0.01, b, b);
    Combine(x * y, a * b, a, b);
  }

  lemma Combine(xy: real, ab: real, a: real, b: real)
    requires 1.0 - a - b + ab <= xy <= 1.0 + a + b + ab && 0.0 <= ab <= 0.01 * b
    ensures Near(xy, a + 1.01 * b)
  {
  }

  lemma Expand(a: real, b: real)
    ensures (1.0 + a) * (1.0 + b) == 1.0 + a + b + a * b
  {
  }

  lemma Signs(a: real, b: real)
    ensures (-a) * (-b) == a * b && (-a) * b == -(a * b)
  {
  }

  lemma ProductLe(x: real, y: real, u: real, v: real)
    requires 0.0 <= x <= y && 0.0 <= u <= v
    ensures 0.0 <= x * u <= y * v
  {
    Scale(x, y, u);
    Scale(u, v, y);
    Commute(u, y);
    Commute(v, y);
    Scale(0.0, x, u);
  }

  lemma Scale(x: real, y: real, c: real)
    requires x <= y && 0.0 <= c
    ensures x * c <= y * c
  {
  }

  lemma ScaleLt(x: real, y: real, c: real)
    requires x < y && 0.0 < c
    ensures x * c < y * c
  {
  }

  lemma Commute(x: real, y: real)
    ensures x * y == y * x
  {
  }

  lemma NearSquare(x: real, a: real)
    requires 0.0 <= a <= 0.01 && Near(x, a)
    ensures Near(x * x, 2.01 * a)
  {
    NearTimes(x, x, a, a);
  }

  /** The inverse, given as y with y*x = 1. */
  lemma NearInverse(x: real, y: real, a: real)
    requires 0.0 <= a <= 0.01 && Near(x, a) && y * x == 1.0
    ensures Near(y, 1.02 * a)
  {
    InverseProducts(a);
    InverseBetween(x, y, 1.0 - a, 1.0 + a, 1.0 - 1.02 * a, 1.0 + 1.02 * a);
  }

  lemma InverseBetween(x: real, y: real, xLow: real, xHigh: real, low: real, high: real)
    requires 0.0 < xLow <= x <= xHigh && 0.0 <= low && 0.0 <= high && y * x == 1.0
    requires high * xLow >= 1.0 && low * xHigh <= 1.0
    ensures low <= y <= high
  {
    Widen(high, xLow, x);
    Unscale(y, high, x, 1.0, high * x);
    Widen(low, x, xHigh);
    Unscale(low, y, x, low * x, 1.0);
  }

  lemma Widen(c: real, x: real, y: real)
    requires 0.0 <= c && 0.0 <= x <= y
    ensures c * x <= c * y
  {
    ProductLe(c, c, x, y);
  }

  lemma Unscale(x: real, y: real, c: real, xc: real, yc: real)
    requires 0.0 < c && xc == x * c && yc == y * c && xc <= yc
    ensures x <= y
  {
    if y < x {
      ScaleLt(y, x, c);
    }
  }

  lemma InverseProducts(a: real)
    requires 0.0 <= a <= 0.01
    ensures (1.0 + 1.02 * a) * (1.0 - a) >= 1.0
    ensures (1.0 - 1.02 * a) * (1.0 + a) <= 1.0
  {
    SmallSquare(a);
    InverseExpanded(a, a * a);
  }

  lemma SmallSquare(a: real)
    requires 0.0 <= a <= 0.01
    ensures 0.0 <= 1.02 * (a * a) <= 0.02 * a
  {
    ProductLe(a, 0.01, a, a);
  }

  lemma InverseExpanded(a: real, aa: real)
    requires aa == a * a
    ensures (1.0 + 1.02 * a) * (1.0 - a) == 1.0 + 0.02 * a - 1.02 * aa
    ensures (1.0 - 1.02 * a) * (1.0 + a) == 1.0 - 0.02 * a - 1.02 * aa
  {
  }

  /** A quotient near one, from its numerator and denominator. */
  lemma NearQuotient(x: real, y: real, a: real)
    requires y > 0.0 && y - a * y <= x <= y + a * y
    ensures Near(x / y, a) && x / y * y == x
  {
    var q := x / y;
    Quotient(x, y);
    Around(y, a);
    Unscale(1.0 - a, q, y, y - a * y, x);
    Unscale(q, 1.0 + a, y, x, y + a * y);
  }

  lemma Quotient(x: real, y: real)
    requires y > 0.0
    ensures x / y * y == x
  {
  }

  lemma Around(y: real, a: real)
    ensures (1.0 - a) * y == y - a * y
    ensures (1.0 + a) * y == y + a * y
  {
  }

  // ------------------------------------------------- the factors

  const SCALE := TWO_128 as real

  /** A Q128.128 number as a real. */
  function Q128(x: nat): real {
    x as real / SCALE
  }

  /** How far u*u is from 1.0001^-n, as a factor. */
  function Deviation(u: real, n: nat): real {
    u * u * Power(n)
  }

  // Each factor is the square of the one before to 27 digits.
  const SQUARE_DIGITS := 1_000_000_000_000_000_000_000_000_000

  lemma FactorsSquare(i: nat)
    requires i + 1 < BITS
    ensures var f := Factor(i) * Factor(i);
            && (Factor(i + 1) * TWO_128 - f) * SQUARE_DIGITS <= f
            && (f - Factor(i + 1) * TWO_128) * SQUARE_DIGITS <= f
  {
    if i == 0 {
      assert Factor(0) * Factor(0) == 0xfff97272373d413259a46990580e2138d285faafa27e6f497170ec77c4b28001;
    } else if i == 1 {
      assert Factor(1) * Factor(1) == 0xfff2e50f5f656932ef12357cf3c7fdcc26d98cc21dbacd7babc0acdf86a80124;
    } else if i == 2 {
      assert Factor(2) * Factor(2) == 0xffe5caca7e10e4e61c3624eaa0941cd0bef5e607d33729a079a99dadd6c4da90;
    } else if i == 3 {
      assert Factor(3) * Factor(3) == 0xffcb9843d60f6159c9db58835c926643cce3be47a2e53ebd4358a5f553be2900;
    } else if i == 4 {
      assert Factor(4) * Factor(4) == 0xff973b41fa98c081472e6896dfb254c026d52825d1fb7d6645f4f6d1ae6a4210;
    } else if i == 5 {
      assert Factor(5) * Factor(5) == 0xff2ea16466c96a3843ec78b326b5286193a3f8d205e1a744c24f7ce0770e9000;
    } else if i == 6 {
      assert Factor(6) * Factor(6) == 0xfe5dee046a99a2a811c461f1969c3053c4c77e7a327ea13e35e3afd4eb8874c1;
    } else if i == 7 {
      assert Factor(7) * Factor(7) == 0xfcbe86c7900a88aedcffc83b479aa3a3f17b30aa0ec6cea44c654a3232473ae9;
    } else if i == 8 {
      assert Factor(8) * Factor(8) == 0xf987a7253ac413176f2b074cf7815e544195758552abcfdf95b6d1c641ea4110;
    } else if i == 9 {
      assert Factor(9) * Factor(9) == 0xf3392b0822b70005940c7a398e4b70f2d4278d4060920d077f7b7f464b69cb90;
    } else if i == 10 {
      assert Factor(10) * Factor(10) == 0xe7159475a2c29b7443b29c7fa6e889d9010f5f39d2a3e3ba231fafbef43786a9;
    } else if i == 11 {
      assert Factor(11) * Factor(11) == 0xd097f3bdfd2022b8845ad8f792aa5826218991973d1b5941b74fa34d8f89f9f1;
    } else if i == 12 {
      assert Factor(12) * Factor(12) == 0xa9f746462d870fdf8a65dc1f90e061e44cf33845d4be0ac7ef7f4549637d7559;
    } else if i == 13 {
      assert Factor(13) * Factor(13) == 0x70d869a156d2a1b890bb3df62baf32f6cc71a01fea49e27433488043162f56d9;
    } else if i == 14 {
      assert Factor(14) * Factor(14) == 0x31be135f97d08fd981231505542fcfa5bb21fdd540f819e3cf4dfbb9b1d76a51;
    } else if i == 15 {
      assert Factor(15) * Factor(15) == 0x9aa508b5b7a84e1c677de54f3e99bc92cc9ecef84d08fb05102c1aed761dfa4;
    } else if i == 16 {
      assert Factor(16) * Factor(16) == 0x5d6af8dedb81196699c329225ee6044e3b6c98e83eb2b5e4c22ad488af03d1;
    } else if i == 17 {
      assert Factor(17) * Factor(17) == 0x2216e584f5fa1ea926041bedfe97b714d39878875a7aba351d8ec99b3010;
    } else {
      assert Factor(18) * Factor(18) == 0x48a170391f7dc42444e8fa23b8aeb32c08211214ec125b572a1fa40;
    }
  }

  // Errors start below FIRST_ERROR and at most triple from factor to factor.
  const DIGIT_27 := 0.000_000_000_000_000_000_000_000_001
  const FIRST_ERROR := 4.0 * DIGIT_27

  function FactorError(i: nat): (e: real)
    ensures e >= FIRST_ERROR
  {
    if i == 0 then FIRST_ERROR else 3.0 * FactorError(i - 1)
  }

  lemma FactorErrorsSmall(i: nat)
    requires i < BITS
    ensures FactorError(i) <= 0.000_000_000_000_000_004_8
    decreases BITS - i
  {
    if i == BITS - 1 {
      assert FactorError(4) == 81.0 * FIRST_ERROR;
      assert FactorError(8) == 6561.0 * FIRST_ERROR;
      assert FactorError(12) == 531441.0 * FIRST_ERROR;
      assert FactorError(16) == 43046721.0 * FIRST_ERROR;
      assert FactorError(19) == 1162261467.0 * FIRST_ERROR;
    } else {
      FactorErrorsSmall(i + 1);
    }
  }

  lemma RealProduct(x: nat, y: nat)
    ensures x * y >= 0
    ensures (x * y) as real == x as real * y as real
  {
  }

  lemma Q128Scaled(x: nat)
    ensures Q128(x) * SCALE == x as real
  {
  }

  /** g is the Q128.128 product of f and h up to gamma, when the integers agree to that many digits. */
  lemma ProductUpTo(f: nat, h: nat, g: nat, digits: nat, delta: real) returns (gamma: real)
    requires f * h > 0 && delta * digits as real == 1.0 && digits > 0
    requires (g * TWO_128 - f * h) * digits <= f * h && (f * h - g * TWO_128) * digits <= f * h
    ensures Near(gamma, delta)
    ensures Q128(g) == Q128(f) * Q128(h) * gamma
  {
    RealProduct(f, h);
    RealProduct(g, TWO_128);
    Q128Scaled(f);
    Q128Scaled(g);
    Q128Scaled(h);
    gamma := Digits(g as real * SCALE, f as real * h as real, digits as real, delta);
    hide *;
    Descale(Q128(f), Q128(h), Q128(g), gamma, SCALE);
  }

  lemma Digits(x: real, y: real, digits: real, delta: real) returns (gamma: real)
    requires y > 0.0 && digits > 0.0 && delta * digits == 1.0
    requires (x - y) * digits <= y && (y - x) * digits <= y
    ensures Near(gamma, delta) && gamma * y == x
  {
    Unscale(x - y, delta * y, digits, (x - y) * digits, y);
    Unscale(y - x, delta * y, digits, (y - x) * digits, y);
    NearQuotient(x, y, delta);
    gamma := x / y;
  }

  lemma Descale(u: real, w: real, v: real, gamma: real, s: real)
    requires s > 0.0
    requires gamma * ((u * s) * (w * s)) == v * s * s
    ensures v == u * w * gamma
  {
    var ss := s * s;
    ProductLe(s, s, s, s);
    assert gamma * ((u * s) * (w * s)) == u * w * gamma * ss;
    assert v * s * s == v * ss;
  }

  lemma FirstFactor()
    ensures var f := Factor(0) * Factor(0) * 10001;
            var p := 10000 * TWO_256;
            && (f - p) * SQUARE_DIGITS <= p && (p - f) * SQUARE_DIGITS <= p
  {
    assert Factor(0) * Factor(0) == 0xfff97272373d413259a46990580e2138d285faafa27e6f497170ec77c4b28001;
  }

  /** Factor(i) is 1.0001^(-2^i/2). */
  lemma {:induction false} FactorAccurate(i: nat)
    requires i < BITS
    ensures Near(Deviation(Q128(Factor(i)), Pow2(i)), FactorError(i))
  {
    hide Factor, Q128, Deviation, Near;
    FactorErrorsSmall(i);
    if i == 0 {
      FirstFactor();
      FirstDeviation(Factor(0));
    } else {
      FactorAccurate(i - 1);
      FactorErrorsSmall(i - 1);
      FactorsSquare(i - 1);
      NextDeviation(Factor(i - 1), Factor(i), i - 1);
    }
  }

  lemma FirstDeviation(f: nat)
    requires f > 0
    requires (f * f * 10001 - 10000 * TWO_256) * SQUARE_DIGITS <= 10000 * TWO_256
    requires (10000 * TWO_256 - f * f * 10001) * SQUARE_DIGITS <= 10000 * TWO_256
    ensures Near(Deviation(Q128(f), Pow2(0)), FIRST_ERROR)
  {
    RealProduct(f, f);
    var y := 10000.0 * (SCALE * SCALE);
    var x := f as real * f as real * 10001.0;
    Q128Scaled(f);
    var gamma := Digits(x, y, SQUARE_DIGITS as real, DIGIT_27);
    var d := Deviation(Q128(f), Pow2(0));
    assert d == Q128(f) * Q128(f) * 1.0001;
    assert d * y == x;
    Unscale(d, gamma, y, x, x);
    Unscale(gamma, d, y, x, x);
  }

  lemma NextDeviation(f: nat, g: nat, i: nat)
    requires f > 0 && i + 1 < BITS
    requires (g * TWO_128 - f * f) * SQUARE_DIGITS <= f * f
    requires (f * f - g * TWO_128) * SQUARE_DIGITS <= f * f
    requires Near(Deviation(Q128(f), Pow2(i)), FactorError(i))
    ensures Near(Deviation(Q128(g), Pow2(i + 1)), FactorError(i + 1))
  {
    MulLt(0, f, f);
    var gamma := ProductUpTo(f, f, g, SQUARE_DIGITS, DIGIT_27);
    SquaredDeviation(Q128(f), Q128(g), gamma, i);
  }

  lemma SquaredDeviation(u: real, v: real, gamma: real, i: nat)
    requires i + 1 < BITS
    requires v == u * u * gamma && Near(gamma, DIGIT_27)
    requires Near(Deviation(u, Pow2(i)), FactorError(i))
    ensures Near(Deviation(v, Pow2(i + 1)), FactorError(i + 1))
  {
    hide Deviation, Near;
    FactorErrorsSmall(i);
    DeviationOfProduct(u, u, gamma, v, Pow2(i), Pow2(i));
    SquaredError(Deviation(u, Pow2(i)), gamma, FactorError(i), Deviation(v, Pow2(i + 1)));
  }

  lemma DeviationOfProduct(u: real, w: real, gamma: real, v: real, m: nat, n: nat)
    requires v == u * w * gamma
    ensures Deviation(v, m + n) == Deviation(u, m) * Deviation(w, n) * (gamma * gamma)
  {
    PowerAdds(m, n);
    Regroup(u, w, gamma, Power(m), Power(n));
  }

  lemma SquaredError(d: real, gamma: real, e: real, x: real)
    requires Near(d, e) && Near(gamma, DIGIT_27) && FIRST_ERROR <= e <= 0.001
    requires x == d * d * (gamma * gamma)
    ensures Near(x, 3.0 * e)
  {
    hide Near;
    NearSquare(d, e);
    NearSquare(gamma, DIGIT_27);
    NearTimes(d * d, gamma * gamma, 2.01 * e, 2.01 * DIGIT_27);
    Wider(x, 2.01 * e + 1.01 * (2.01 * DIGIT_27), 3.0 * e);
  }

  lemma Wider(x: real, a: real, b: real)
    requires a <= b && Near(x, a)
    ensures Near(x, b)
  {
  }

  lemma Regroup(u: real, w: real, gamma: real, p: real, q: real)
    ensures (u * w * gamma) * (u * w * gamma) * (p * q) == (u * u * p) * (w * w * q) * (gamma * gamma)
  {
  }

  // ------------------------------------------------- the product of the factors

  // One multiplication adds the factor's own error and a rounding in the 19th
  // digit, because the running product never falls below MIN_RATIO.
  const STEP_ERROR := 0.000_000_000_000_000_01
  const FLOOR_DIGITS := 10_000_000_000_000_000_000
  const FLOOR_ERROR := 0.000_000_000_000_000_000_1

  lemma FloorDigits(acc: nat, f: nat, g: nat)
    requires g == MulShift(acc, f) && MIN_RATIO <= g
    ensures acc * f > 0
    ensures (g * TWO_128 - acc * f) * FLOOR_DIGITS <= acc * f
    ensures (acc * f - g * TWO_128) * FLOOR_DIGITS <= acc * f
  {
    Floor(acc * f, TWO_128);
  }

  lemma StepAccurate(acc: nat, i: nat, n: nat, e: real)
    requires i < BITS && MIN_RATIO <= MulShift(acc, Factor(i))
    requires 0.0 <= e <= 0.001 && Near(Deviation(Q128(acc), n), e)
    ensures Near(Deviation(Q128(MulShift(acc, Factor(i))), n + Pow2(i)), e + STEP_ERROR)
  {
    hide Near, Deviation, Factor, MulShift, Q128;
    var f := Factor(i);
    var g := MulShift(acc, f);
    FloorDigits(acc, f, g);
    var theta := ProductUpTo(acc, f, g, FLOOR_DIGITS, FLOOR_ERROR);
    DeviationOfProduct(Q128(acc), Q128(f), theta, Q128(g), n, Pow2(i));
    FactorAccurate(i);
    FactorErrorsSmall(i);
    StepError(Deviation(Q128(acc), n), Deviation(Q128(f), Pow2(i)), theta, e, FactorError(i),
              Deviation(Q128(g), n + Pow2(i)));
  }

  lemma StepError(d: real, df: real, theta: real, e: real, ef: real, x: real)
    requires 0.0 <= e <= 0.001 && Near(d, e)
    requires 0.0 <= ef <= 0.000_000_000_000_000_004_8 && Near(df, ef)
    requires Near(theta, FLOOR_ERROR) && x == d * df * (theta * theta)
    ensures Near(x, e + STEP_ERROR)
  {
    hide Near;
    var tt := theta * theta;
    NearSquare(theta, FLOOR_ERROR);
    NearTimes(df, tt, ef, 2.01 * FLOOR_ERROR);
    var b := ef + 1.01 * (2.01 * FLOOR_ERROR);
    NearTimes(d, df * tt, e, b);
    Associate(d, df, tt);
    Wider(x, e + 1.01 * b, e + STEP_ERROR);
  }

  lemma Associate(x: real, y: real, z: real)
    ensures x * y * z == x * (y * z)
  {
  }

  /** acc carries 1.0001^(-n/2); the bits of k from bit i up are still to be multiplied in. */
  lemma {:induction false} RatioFromAccurate(k: nat, i: nat, acc: nat, n: nat)
    requires i <= BITS && k < Pow2(BITS - i)
    requires MIN_RATIO <= RatioFrom(k, i, acc)
    requires Near(Deviation(Q128(acc), n), i as real * STEP_ERROR)
    ensures k * Pow2(i) >= 0
    ensures Near(Deviation(Q128(RatioFrom(k, i, acc)), n + k * Pow2(i)), BITS as real * STEP_ERROR)
    decreases BITS - i
  {
    hide Near, Deviation, Factor, MulShift, Q128;
    if i < BITS {
      HalfOfBits(k, i);
      if k % 2 == 1 {
        var next := MulShift(acc, Factor(i));
        RatioAtMost(k / 2, i + 1, next);
        StepAccurate(acc, i, n, i as real * STEP_ERROR);
        RatioFromAccurate(k / 2, i + 1, next, n + Pow2(i));
      } else {
        Wider(Deviation(Q128(acc), n), i as real * STEP_ERROR, (i + 1) as real * STEP_ERROR);
        RatioFromAccurate(k / 2, i + 1, acc, n);
      }
    }
  }

  lemma HalfOfBits(k: nat, i: nat)
    requires i < BITS && k < Pow2(BITS - i)
    ensures k / 2 < Pow2(BITS - (i + 1))
    ensures k * Pow2(i) == k / 2 * Pow2(i + 1) + if k % 2 == 1 then Pow2(i) else 0
  {
    assert Pow2(BITS - i) == 2 * Pow2(BITS - (i + 1));
    assert Pow2(i + 1) == 2 * Pow2(i);
    hide Pow2;
    SplitBit(k / 2, k % 2, Pow2(i));
  }

  lemma SplitBit(h: nat, bit: nat, p: nat)
    requires bit <= 1
    ensures (2 * h + bit) * p == h * (2 * p) + if bit == 1 then p else 0
  {
    Distribute(2 * h, bit, p);
  }

  const RATIO_ERROR := 0.000_000_000_000_000_2

  /** Ratio(k) is 1.0001^(-k/2). */
  lemma RatioIsAccurate(k: nat)
    requires k <= MAX_TICK
    ensures Near(Deviation(Q128(Ratio(k)), k), RATIO_ERROR)
  {
    assert Pow2(10) == 1024;
    assert Pow2(20) == 1048576;
    RatioNeverBelow(k);
    assert Q128(TWO_128) == 1.0;
    assert Deviation(1.0, 0) == 1.0;
    hide Deviation, Q128, RatioFrom;
    RatioFromAccurate(k, 0, TWO_128, 0);
  }

  // ------------------------------------------------- the prices

  const TWO_96 := 0x1_0000_0000_0000_0000_0000_0000

  /** The price a Q64.96 square root stands for. */
  function Price(sqrtPrice: nat): real {
    var root := sqrtPrice as real / TWO_96 as real;
    root * root
  }

  lemma PriceMeans(sqrtPrice: nat)
    ensures Price(sqrtPrice) == Q128(sqrtPrice * TWO_32) * Q128(sqrtPrice * TWO_32)
  {
    assert Q128(sqrtPrice * TWO_32) == sqrtPrice as real / TWO_96 as real;
  }

  // The final rounding, relative to the least ratio and to the least reciprocal.
  const LOW_DIGITS := 4_000_000_000
  const LOW_ERROR := 0.000_000_000_25
  const HIGH_DIGITS := 10_000_000_000_000_000_000_000_000_000
  const HIGH_ERROR := 0.000_000_000_000_000_000_000_000_000_1

  lemma RoundUpAccurate(ratio: nat, digits: nat, delta: real) returns (theta: real)
    requires 0 < digits && digits * TWO_32 <= ratio && delta * digits as real == 1.0
    ensures Near(theta, delta)
    ensures Q128(RoundUp(ratio) * TWO_32) == Q128(ratio) * 1.0 * theta
  {
    var g := RoundUp(ratio) * TWO_32;
    assert ratio <= g < ratio + TWO_32;
    RoundedDigits(ratio, g, digits);
    theta := ProductUpTo(ratio, TWO_128, g, digits, delta);
    assert Q128(TWO_128) == 1.0;
  }

  lemma RoundedDigits(ratio: nat, g: nat, digits: nat)
    requires 0 < digits && digits * TWO_32 <= ratio <= g < ratio + TWO_32
    ensures (g * TWO_128 - ratio * TWO_128) * digits <= ratio * TWO_128
    ensures (ratio * TWO_128 - g * TWO_128) * digits <= ratio * TWO_128
  {
    MulLe(g - ratio, TWO_32, digits);
    MulLe(0, g - ratio, digits);
    assert (g * TWO_128 - ratio * TWO_128) * digits == (g - ratio) * digits * TWO_128;
    assert (ratio * TWO_128 - g * TWO_128) * digits == -((g - ratio) * digits * TWO_128);
  }

  lemma ReciprocalDigits(ratio: nat, q: nat)
    requires 0 < ratio <= TWO_128 && q == Reciprocal(ratio)
    ensures TWO_128 - 1 <= q && q * ratio > 0
    ensures (TWO_256 - q * ratio) * HIGH_DIGITS <= q * ratio
    ensures (q * ratio - TWO_256) * HIGH_DIGITS <= q * ratio
  {
    Floor(TWO_256 - 1, ratio);
    FitsQuotient(TWO_128 - 1, TWO_256 - 1, ratio);
    MulLe(ratio, TWO_128, TWO_128 - 1);
  }

  lemma ReciprocalAccurate(ratio: nat, q: nat) returns (gamma: real)
    requires 0 < ratio <= TWO_128 && q == Reciprocal(ratio)
    ensures Near(gamma, HIGH_ERROR)
    ensures Q128(q) * Q128(ratio) * gamma == 1.0
  {
    ReciprocalDigits(ratio, q);
    assert Q128(TWO_128) == 1.0;
    hide Reciprocal, Q128;
    gamma := ProductUpTo(q, ratio, TWO_128, HIGH_DIGITS, HIGH_ERROR);
  }

  lemma ReciprocalRoundsUp(ratio: nat, q: nat) returns (theta: real)
    requires 0 < ratio <= TWO_128 && q == Reciprocal(ratio)
    ensures Near(theta, HIGH_ERROR)
    ensures Q128(RoundUp(q) * TWO_32) == Q128(q) * 1.0 * theta
  {
    ReciprocalDigits(ratio, q);
    hide Near, Reciprocal, RoundUp, Q128;
    theta := RoundUpAccurate(q, HIGH_DIGITS, HIGH_ERROR);
  }

  lemma LowPrice(u: real, s: real, theta: real, k: nat)
    requires Near(Deviation(u, k), RATIO_ERROR) && Near(theta, LOW_ERROR) && s == u * 1.0 * theta
    ensures Near(Deviation(s, k), 0.000_000_001)
  {
    assert Deviation(1.0, 0) == 1.0;
    DeviationOfProduct(u, 1.0, theta, s, k, 0);
    hide Near, Deviation;
    var d, tt := Deviation(u, k), theta * theta;
    NearSquare(theta, LOW_ERROR);
    NearTimes(d, tt, RATIO_ERROR, 2.01 * LOW_ERROR);
    Wider(d * tt, RATIO_ERROR + 1.01 * (2.01 * LOW_ERROR), 0.000_000_001);
  }

  /** u is the ratio, w its reciprocal, s the reciprocal rounded up. */
  lemma HighPrice(u: real, w: real, s: real, gamma: real, theta: real, k: nat, x: real)
    requires Near(Deviation(u, k), RATIO_ERROR) && Near(gamma, HIGH_ERROR) && Near(theta, HIGH_ERROR)
    requires w * u * gamma == 1.0 && s == w * 1.0 * theta && x == s * s / Power(k)
    ensures Near(x, 0.000_000_000_000_001)
  {
    var p := Power(k);
    var d := Deviation(u, k);
    var y := w * w / p;
    InverseOfDeviation(u, w, gamma, p, y);
    SquareOver(s, w, theta, p, y);
    hide Near, Deviation, Power;
    HighError(d, gamma * gamma, theta * theta, y, x) by {
      NearSquare(gamma, HIGH_ERROR);
      NearSquare(theta, HIGH_ERROR);
    }
  }

  lemma HighError(d: real, gg: real, tt: real, y: real, x: real)
    requires Near(d, RATIO_ERROR) && Near(gg, 2.01 * HIGH_ERROR) && Near(tt, 2.01 * HIGH_ERROR)
    requires y * (d * gg) == 1.0 && x == y * tt
    ensures Near(x, 0.000_000_000_000_001)
  {
    hide Near;
    var a := RATIO_ERROR + 1.01 * (2.01 * HIGH_ERROR);
    NearTimes(d, gg, RATIO_ERROR, 2.01 * HIGH_ERROR);
    NearInverse(d * gg, y, a);
    NearTimes(y, tt, 1.02 * a, 2.01 * HIGH_ERROR);
    Wider(x, 1.02 * a + 1.01 * (2.01 * HIGH_ERROR), 0.000_000_000_000_001);
  }

  lemma InverseOfDeviation(u: real, w: real, gamma: real, p: real, y: real)
    requires w * u * gamma == 1.0 && y * p == w * w
    ensures y * (u * u * p * (gamma * gamma)) == 1.0
  {
    calc {
      y * (u * u * p * (gamma * gamma));
      (y * p) * (u * u * (gamma * gamma));
      (w * w) * (u * u * (gamma * gamma));
      (w * u * gamma) * (w * u * gamma);
    }
  }

  lemma SquareOver(s: real, w: real, theta: real, p: real, y: real)
    requires p > 0.0 && s == w * 1.0 * theta && y * p == w * w
    ensures s * s / p == y * (theta * theta)
  {
    var x := s * s / p;
    assert x * p == s * s;
    assert s * s == (w * w) * (theta * theta);
    assert y * (theta * theta) * p == (y * p) * (theta * theta);
    Unscale(x, y * (theta * theta), p, s * s, s * s);
    Unscale(y * (theta * theta), x, p, s * s, s * s);
  }

  /**
   * What tickToSqrtPriceX96 is for: the square of its price is 1.0001^tick,
   * to one part in 10^9 at and below tick 0 and one part in 10^15 above.
   */
  lemma PriceIsAccurate(tick: int)
    requires InRange(tick)
    ensures Near(Price(SqrtPrice(tick)) / TickPower(tick), 0.000_000_001)
    ensures tick > 0 ==> Near(Price(SqrtPrice(tick)) / TickPower(tick), 0.000_000_000_000_001)
  {
    hide Near, Price, TickPower, SqrtPrice;
    if tick > 0 {
      AboveZero(tick);
      Wider(Price(SqrtPrice(tick)) / TickPower(tick), 0.000_000_000_000_001, 0.000_000_001);
    } else {
      BelowZero(tick);
    }
  }

  lemma AboveZero(tick: nat)
    requires 0 < tick <= MAX_TICK
    ensures Near(Price(SqrtPrice(tick)) / TickPower(tick), 0.000_000_000_000_001)
  {
    hide Q128, Reciprocal, RoundUp, Near, Deviation, Power, Price, TickPower, Ratio, SqrtPrice;
    var q, gamma, theta := HighFactors(tick);
    RatioIsAccurate(tick);
    PositivePrice(RoundUp(q), tick);
    HighPrice(Q128(Ratio(tick)), Q128(q), Q128(RoundUp(q) * TWO_32), gamma, theta, tick,
              Price(SqrtPrice(tick)) / TickPower(tick));
  }

  /** The factors between the ratio, its reciprocal q and the price. */
  lemma HighFactors(tick: nat) returns (q: nat, gamma: real, theta: real)
    requires 0 < tick <= MAX_TICK
    ensures SqrtPrice(tick) == RoundUp(q)
    ensures Near(gamma, HIGH_ERROR) && Near(theta, HIGH_ERROR)
    ensures Q128(q) * Q128(Ratio(tick)) * gamma == 1.0
    ensures Q128(RoundUp(q) * TWO_32) == Q128(q) * 1.0 * theta
  {
    RatioNeverBelow(tick);
    RatioAtMost(tick, 0, TWO_128);
    hide Q128, Reciprocal, RoundUp, Near;
    q := Reciprocal(Ratio(tick));
    gamma := ReciprocalAccurate(Ratio(tick), q);
    theta := ReciprocalRoundsUp(Ratio(tick), q);
  }

  lemma PositivePrice(sqrtPrice: nat, tick: nat)
    ensures var s := Q128(sqrtPrice * TWO_32);
            Price(sqrtPrice) / TickPower(tick) == s * s / Power(tick)
  {
    PriceMeans(sqrtPrice);
    hide Price, Q128, Power;
  }

  lemma BelowZero(tick: int)
    requires MIN_TICK <= tick <= 0
    ensures Near(Price(SqrtPrice(tick)) / TickPower(tick), 0.000_000_001)
  {
    RatioNeverBelow(-tick);
    RatioIsAccurate(-tick);
    hide RoundUp, Q128, Near, Deviation, Power, Price, TickPower, Ratio;
    var ratio := Ratio(-tick);
    var theta := RoundUpAccurate(ratio, LOW_DIGITS, LOW_ERROR);
    LowPrice(Q128(ratio), Q128(RoundUp(ratio) * TWO_32), theta, -tick);
    NegativePrice(RoundUp(ratio), tick);
  }

  lemma NegativePrice(sqrtPrice: nat, tick: int)
    requires tick <= 0
    ensures Price(sqrtPrice) / TickPower(tick) == Deviation(Q128(sqrtPrice * TWO_32), -tick)
  {
    PriceMeans(sqrtPrice);
    var s := Q128(sqrtPrice * TWO_32);
    var p := Power(-tick);
    assert TickPower(tick) == 1.0 / p;
    hide Price, Q128, Power;
    OverInverse(s * s, p);
  }

  lemma OverInverse(x: real, p: real)
    requires p > 0.0
    ensures x / (1.0 / p) == x * p
  {
    var i := 1.0 / p;
    assert i * p == 1.0;
    ScaleLt(0.0, 1.0, p);
    assert i > 0.0;
    assert x * p * i == x * (i * p);
  }
}
