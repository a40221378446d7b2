// sqrt(1.0001^tick) * 2^96 computed bit by bit, and the proof that it is
// strictly increasing over the whole tick range.
module TickMath {
  import opened Common

  const MIN_TICK := -887272
  const MAX_TICK := 887272
  const BITS := 20

  const TWO_32 := 0x1_0000_0000
  const TWO_128 := 0x1_0000_0000_0000_0000_0000_0000_0000_0000
  const TWO_256 := TWO_128 * TWO_128

  const MIN_SQRT := 4295128739
  const MAX_SQRT := 1461446703485210103287273052203988822378723970342

  /** The Q128.128 factor multiplied in when bit i of |tick| is set. */
  function Factor(i: nat): (f: nat)
    requires i < BITS
    ensures 0 < f < TWO_128
  {
    match i
    case 0 => 0xfffcb933bd6fad37aa2d162d1a594001
    case 1 => 0xfff97272373d413259a46990580e213a
    case 2 => 0xfff2e50f5f656932ef12357cf3c7fdcc
    case 3 => 0xffe5caca7e10e4e61c3624eaa0941cd0
    case 4 => 0xffcb9843d60f6159c9db58835c926644
    case 5 => 0xff973b41fa98c081472e6896dfb254c0
    case 6 => 0xff2ea16466c96a3843ec78b326b52861
    case 7 => 0xfe5dee046a99a2a811c461f1969c3053
    case 8 => 0xfcbe86c7900a88aedcffc83b479aa3a4
    case 9 => 0xf987a7253ac413176f2b074cf7815e54
    case 10 => 0xf3392b0822b70005940c7a398e4b70f3
    case 11 => 0xe7159475a2c29b7443b29c7fa6e889d9
    case 12 => 0xd097f3bdfd2022b8845ad8f792aa5825
    case 13 => 0xa9f746462d870fdf8a65dc1f90e061e5
    case 14 => 0x70d869a156d2a1b890bb3df62baf32f7
    case 15 => 0x31be135f97d08fd981231505542fcfa6
    case 16 => 0x9aa508b5b7a84e1c677de54f3e99bc9
    case 17 => 0x5d6af8dedb81196699c329225ee604
    case 18 => 0x2216e584f5fa1ea926041bedfe98
    case _ => 0x48a170391f7dc42444e8fa2
  }

  function MulShift(ratio: nat, m: nat): nat {
    ratio * m / TWO_128
  }

  /** Multiply in the factors of the bits of k, where bit 0 of k is bit i of |tick|; low bits first. */
  function RatioFrom(k: nat, i: nat, acc: nat): nat
    requires i <= BITS
    decreases BITS - i, k
  {
    if i == BITS then acc
    else RatioFrom(k / 2, i + 1, if k % 2 == 1 then MulShift(acc, Factor(i)) else acc)
  }

  function Ratio(abs: nat): nat {
    RatioFrom(abs, 0, TWO_128)
  }

  function RoundUp(ratio: nat): nat {
    ratio / TWO_32 + if ratio % TWO_32 == 0 then 0 else 1
  }

  function Reciprocal(ratio: nat): nat
    requires ratio > 0
  {
    (TWO_256 - 1) / ratio
  }

  predicate InRange(tick: int) {
    MIN_TICK <= tick <= MAX_TICK
  }

  // ------------------------------------------------------- the margin

  // Consecutive ticks differ by the factor sqrt(1.0001) = 1 + 1/20000.5. The
  // weaker factor 1 + 1/MARGIN survives the rounding of all twenty steps.
  const MARGIN := 21000

  /** a exceeds b by the relative margin, up to "loss" units of rounding. */
  predicate Ahead(a: nat, b: nat, loss: nat) {
    b * (MARGIN + 1) <= (a + loss) * MARGIN
  }

  /** The low part of |tick| with bits 0..i-1 set: the running product before bit i. */
  function AllOnes(i: nat): nat
    requires i <= BITS
  {
    if i == 0 then TWO_128 else MulShift(AllOnes(i - 1), Factor(i - 1))
  }

  /** The value of AllOnes(i), tabulated. */
  function Prefix(i: nat): nat
    requires i < BITS
  {
    match i
    case 0 => 0x100000000000000000000000000000000
    case 1 => 0xfffcb933bd6fad37aa2d162d1a594001
    case 2 => 0xfff62bbb6d458ec3c792106391dc463e
    case 3 => 0xffe9114b9cf28d394c3203dbd44eb085
    case 4 => 0xffcede6f1d8be90b88f350424e84e5b7
    case 5 => 0xff9a80c1ada7480b1daa871d7c4d9b36
    case 6 => 0xff31e58d5a53c84fc142023ec1b1dfd7
    case 7 => 0xfe612f8183b1ea21b72fb71b03542ae4
    case 8 => 0xfcc1c2f380536bc67ee1ff564d1080b2
    case 9 => 0xf98ad8c8d7ecc0a3f8a42c9724cffb6a
    case 10 => 0xf33c480189b415235ad119427d89a1f6
    case 11 => 0xe71889a85903fd03cb7cc40bdf371a9c
    case 12 => 0xd09a9f3e93db5812d4820c2fc67a3e3a
    case 13 => 0xa9f973345b9e647c4163af91d00b255f
    case 14 => 0x70d9db6485f04ddd567e07c7b89f8e7c
    case 15 => 0x31beb65d91af63ae717a760be3b374dc
    case 16 => 0x9aa7036fd2355429c4030b032e1cf71
    case 17 => 0x5d6c2af97aaa8de0e5a6bf23f5e547
    case 18 => 0x221755388a6658e120f4a3c503cf
    case _ => 0x48a25e36942a4fc0c1f899f
  }

  // The twenty concrete comparisons behind monotonicity: bits 0..i-1 set lie
  // a full margin above bit i alone.
  lemma TabulatedMargin(i: nat)
    requires i < BITS
    ensures Ahead(Prefix(i), Factor(i), 0)
  {
  }

  lemma PrefixStep(i: nat)
    requires 0 < i < BITS
    ensures MulShift(Prefix(i - 1), Factor(i - 1)) == Prefix(i)
  {
    if i == 1 {
      assert Prefix(0) * Factor(0) == Prefix(1) * TWO_128 + 0x0;
    } else if i == 2 {
      assert Prefix(1) * Factor(1) == Prefix(2) * TWO_128 + 0x8ed485754c9adc6fdcb15f0f5186a13a;
    } else if i == 3 {
      assert Prefix(2) * Factor(2) == Prefix(3) * TWO_128 + 0x5b26088734c1a2f1b70acb6e61253f68;
    } else if i == 4 {
      assert Prefix(3) * Factor(3) == Prefix(4) * TWO_128 + 0xbd01d27c5d573267e9a527384821f810;
    } else if i == 5 {
      assert Prefix(4) * Factor(4) == Prefix(5) * TWO_128 + 0xa179667c2d3f9fd4fc29bbe39531ee9c;
    } else if i == 6 {
      assert Prefix(5) * Factor(5) == Prefix(6) * TWO_128 + 0x60f946fc0d49251103decb4a6ae2080;
    } else if i == 7 {
      assert Prefix(6) * Factor(6) == Prefix(7) * TWO_128 + 0x6695432c846e3afe0fc4d5d5c626877;
    } else if i == 8 {
      assert Prefix(7) * Factor(7) == Prefix(8) * TWO_128 + 0x8d6987967d4eff3fc0438b719744a7ec;
    } else if i == 9 {
      assert Prefix(8) * Factor(8) == Prefix(9) * TWO_128 + 0xe2caaf31d0f5afd5884c2effa997c808;
    } else if i == 10 {
      assert Prefix(9) * Factor(9) == Prefix(10) * TWO_128 + 0x80b0c092a3c14d32f958e2f568f96ac8;
    } else if i == 11 {
      assert Prefix(10) * Factor(10) == Prefix(11) * TWO_128 + 0x6373d8a0b1bf0d1552017bf847925c82;
    } else if i == 12 {
      assert Prefix(11) * Factor(11) == Prefix(12) * TWO_128 + 0x17a867622281712f4431d119f8530a3c;
    } else if i == 13 {
      assert Prefix(12) * Factor(12) == Prefix(13) * TWO_128 + 0x49d92887aaf2cb642ebeadc21b92ee62;
    } else if i == 14 {
      assert Prefix(13) * Factor(13) == Prefix(14) * TWO_128 + 0x6275fc8287e408a6a240c68a76416cfb;
    } else if i == 15 {
      assert Prefix(14) * Factor(14) == Prefix(15) * TWO_128 + 0x91cf96a2529bb9a53182fceb868ab1a4;
    } else if i == 16 {
      assert Prefix(15) * Factor(15) == Prefix(16) * TWO_128 + 0x9800f1f9302d7ee82eed2d6a663faaa8;
    } else if i == 17 {
      assert Prefix(16) * Factor(16) == Prefix(17) * TWO_128 + 0x267d763000211435740e9fa8bcbe4ab9;
    } else if i == 18 {
      assert Prefix(17) * Factor(17) == Prefix(18) * TWO_128 + 0x409b9bfa77c225fed5d1ff6819e75f1c;
    } else {
      assert Prefix(18) * Factor(18) == Prefix(19) * TWO_128 + 0x8f5e790b76e49aa3076b79c61264a4e8;
    }
  }

  lemma {:induction false} AllOnesIsPrefix(i: nat)
    requires i < BITS
    ensures AllOnes(i) == Prefix(i)
  {
    if i > 0 {
      AllOnesIsPrefix(i - 1);
      PrefixStep(i);
    }
  }

  lemma CarryMargin(i: nat)
    requires i < BITS
    ensures Ahead(AllOnes(i), Factor(i), 0)
  {
    AllOnesIsPrefix(i);
    TabulatedMargin(i);
  }

  /** One shared multiplication costs at most one more unit of rounding. */
  lemma StepKeepsMargin(a: nat, b: nat, m: nat, loss: nat)
    requires m <= TWO_128
    requires Ahead(a, b, loss)
    ensures Ahead(MulShift(a, m), MulShift(b, m), loss + 1)
  {
    Floor(a * m, TWO_128);
    Floor(b * m, TWO_128);
    RoundedProducts(a, b, m, TWO_128, loss, MulShift(a, m), MulShift(b, m));
  }

  lemma RoundedProducts(a: nat, b: nat, m: nat, t: nat, loss: nat, x: nat, y: nat)
    requires 0 < t && m <= t
    requires a * m <= x * t + t && y * t <= b * m
    requires Ahead(a, b, loss)
    ensures Ahead(x, y, loss + 1)
  {
    MulLe(b * (MARGIN + 1), (a + loss) * MARGIN, m);
    Swap(b, MARGIN + 1, m);
    Swap(a + loss, MARGIN, m);
    Distribute(a, loss, m);
    MulLe(m, t, loss);
    Swap(y, MARGIN + 1, t);
    Swap(x + loss + 1, MARGIN, t);
    Distribute(x, loss + 1, t);
    Distribute(loss, 1, t);
    LinearMargin(y * t, b * m, a * m, loss * m, x * t, loss * t, t);
    Cancel(y * (MARGIN + 1), (x + loss + 1) * MARGIN, t);
  }

  /** The linear heart of it, one variable per product. */
  lemma LinearMargin(yt: int, bm: int, am: int, lm: int, xt: int, lt: int, t: int)
    requires yt <= bm && bm * (MARGIN + 1) <= (am + lm) * MARGIN
    requires am <= xt + t && lm <= lt
    ensures yt * (MARGIN + 1) <= (xt + lt + t) * MARGIN
  {
  }

  /** The shared upper bits carry the margin through. */
  lemma {:induction false} UpperBitsKeepMargin(k: nat, i: nat, a: nat, b: nat, loss: nat)
    requires i <= BITS
    requires Ahead(a, b, loss)
    ensures Ahead(RatioFrom(k, i, a), RatioFrom(k, i, b), loss + (BITS - i))
    decreases BITS - i
  {
    if i < BITS {
      if k % 2 == 1 {
        StepKeepsMargin(a, b, Factor(i), loss);
        UpperBitsKeepMargin(k / 2, i + 1, MulShift(a, Factor(i)), MulShift(b, Factor(i)), loss + 1);
      } else {
        UpperBitsKeepMargin(k / 2, i + 1, a, b, loss + 1);
      }
    }
  }

  lemma WholeShift(m: nat)
    ensures MulShift(TWO_128, m) == m
  {
  }

  /**
   * k and k+1 share the bits above the carry. While the carry runs, k has set
   * bits only and k+1 clear bits only; where it stops, the table applies.
   */
  lemma {:induction false} CarryKeepsMargin(k: nat, i: nat)
    requires i <= BITS
    requires k + 1 < Pow2(BITS - i)
    ensures Ahead(RatioFrom(k, i, AllOnes(i)), RatioFrom(k + 1, i, TWO_128), BITS)
    decreases BITS - i
  {
    hide MulShift, Factor, Ahead;
    if k % 2 == 0 {
      CarryMargin(i);
      assert (k + 1) / 2 == k / 2;
      WholeShift(Factor(i));
      UpperBitsKeepMargin(k / 2, i + 1, AllOnes(i), Factor(i), i + 1);
    } else {
      assert (k + 1) / 2 == k / 2 + 1;
      assert Pow2(BITS - i) == 2 * Pow2(BITS - i - 1);
      CarryKeepsMargin(k / 2, i + 1);
    }
  }

  // ------------------------------------------- from margins to ticks

  /** Consecutive |tick|s: the smaller one's ratio is ahead. */
  lemma NextRatio(k: nat)
    requires k < MAX_TICK
    ensures Ahead(Ratio(k), Ratio(k + 1), BITS)
  {
    assert Pow2(10) == 1024;
    assert Pow2(20) == 1048576;
    CarryKeepsMargin(k, 0);
  }

  const MIN_RATIO := 18447437462383981825

  // The concrete product at the far end of the range, tabulated bit by bit:
  // the bits of MAX_TICK from bit i up, and the product before bit i.
  function LastBits(i: nat): nat
    requires i <= BITS
  {
    match i
    case 0 => 887272
    case 1 => 443636
    case 2 => 221818
    case 3 => 110909
    case 4 => 55454
    case 5 => 27727
    case 6 => 13863
    case 7 => 6931
    case 8 => 3465
    case 9 => 1732
    case 10 => 866
    case 11 => 433
    case 12 => 216
    case 13 => 108
    case 14 => 54
    case 15 => 27
    case 16 => 13
    case 17 => 6
    case 18 => 3
    case 19 => 1
    case _ => 0
  }

  function LastProduct(i: nat): nat
    requires i <= BITS
  {
    match i
    case 0 => 0x100000000000000000000000000000000
    case 1 => 0x100000000000000000000000000000000
    case 2 => 0x100000000000000000000000000000000
    case 3 => 0x100000000000000000000000000000000
    case 4 => 0xffe5caca7e10e4e61c3624eaa0941cd0
    case 5 => 0xffe5caca7e10e4e61c3624eaa0941cd0
    case 6 => 0xff7d10c63a977157da4140deb6f31a7b
    case 7 => 0xfeac1d4052f7714818b490c1138ea058
    case 8 => 0xfd0c3654da9e033741d1a9f93707f6f6
    case 9 => 0xf9d459c5817dbafa9e376ae84dcfeb8b
    case 10 => 0xf9d459c5817dbafa9e376ae84dcfeb8b
    case 11 => 0xf9d459c5817dbafa9e376ae84dcfeb8b
    case 12 => 0xe183ac4e25d5949966242a64e9c80e2f
    case 13 => 0xe183ac4e25d5949966242a64e9c80e2f
    case 14 => 0xe183ac4e25d5949966242a64e9c80e2f
    case 15 => 0xe183ac4e25d5949966242a64e9c80e2f
    case 16 => 0x2bd1a4c5d2a1181aca1ef15e64c2e3cf
    case 17 => 0x1a785cbbdc050483e3be5812760be73
    case 18 => 0x1a785cbbdc050483e3be5812760be73
    case 19 => 0x3865a6455d07d2bc87c5956d2e
    case _ => 0x1000276a221a17501
  }

  lemma LastStep(i: nat)
    requires i < BITS
    ensures LastBits(i + 1) == LastBits(i) / 2
    ensures LastProduct(i + 1) == if LastBits(i) % 2 == 1 then MulShift(LastProduct(i), Factor(i)) else LastProduct(i)
  {
    if i == 3 {
      assert LastProduct(3) * Factor(3) == LastProduct(4) * TWO_128 + 0x0;
    } else if i == 5 {
      assert LastProduct(5) * Factor(5) == LastProduct(6) * TWO_128 + 0x5b96683029835bc6199aba9e4129dc00;
    } else if i == 6 {
      assert LastProduct(6) * Factor(6) == LastProduct(7) * TWO_128 + 0x229a8ff9ce8d6e964c44fcca4937409b;
    } else if i == 7 {
      assert LastProduct(7) * Factor(7) == LastProduct(8) * TWO_128 + 0x23a931c1407de3a04432e9f95aee7c88;
    } else if i == 8 {
      assert LastProduct(8) * Factor(8) == LastProduct(9) * TWO_128 + 0xf6291da706a3105f5688fcac1d54d798;
    } else if i == 11 {
      assert LastProduct(11) * Factor(11) == LastProduct(12) * TWO_128 + 0x12b44fae020bf083bf7fd5acd2440bd3;
    } else if i == 15 {
      assert LastProduct(15) * Factor(15) == LastProduct(16) * TWO_128 + 0xbaaba0669ecd2b18f876c8c561d2337a;
    } else if i == 16 {
      assert LastProduct(16) * Factor(16) == LastProduct(17) * TWO_128 + 0x2bd148a7d6ff10c2c7b79fa9f15a3287;
    } else if i == 18 {
      assert LastProduct(18) * Factor(18) == LastProduct(19) * TWO_128 + 0xba51d67e0a3469a6a6b21e33cfde2e48;
    } else if i == 19 {
      assert LastProduct(19) * Factor(19) == LastProduct(20) * TWO_128 + 0x89a8c5f9490130e1ec40b7acfc8fc91c;
    }
  }

  lemma {:induction false} LastRatioFrom(i: nat)
    requires i <= BITS
    ensures RatioFrom(LastBits(i), i, LastProduct(i)) == MIN_RATIO
    decreases BITS - i
  {
    if i < BITS {
      LastStep(i);
      LastRatioFrom(i + 1);
    }
  }

  lemma {:induction false} RatioNeverBelow(k: nat)
    requires k <= MAX_TICK
    ensures Ratio(k) >= MIN_RATIO
    decreases MAX_TICK - k
  {
    if k == MAX_TICK {
      LastRatioFrom(0);
    } else {
      RatioNeverBelow(k + 1);
      NextRatio(k);
    }
  }

  lemma {:induction false} RatioAtMost(k: nat, i: nat, acc: nat)
    requires i <= BITS
    ensures RatioFrom(k, i, acc) <= acc
    decreases BITS - i
  {
    if i < BITS {
      if k % 2 == 1 {
        var m := Factor(i);
        MulLe(m, TWO_128, acc);
        FitsQuotient(acc + 1, acc * m, TWO_128);
        assert (acc + 1) * TWO_128 > acc * m;
      }
      RatioAtMost(k / 2, i + 1, if k % 2 == 1 then MulShift(acc, Factor(i)) else acc);
    }
  }

  /**
   * What the margin is worth once the ratios are at least MIN_RATIO: the two
   * stay more than 2^32 apart, before and after taking reciprocals, so the
   * final rounding cannot merge them.
   */
  lemma MarginSeparates(a: nat, b: nat)
    requires Ahead(a, b, BITS)
    requires MIN_RATIO <= b && a <= TWO_128
    ensures b + TWO_32 <= a
    ensures Reciprocal(a) + TWO_32 <= Reciprocal(b)
  {
    var n := TWO_256 - 1;
    var q := Reciprocal(a) + TWO_32;
    Floor(n, a);
    // q*b <= n, because q*a <= n + 2^32*a and b is a full margin below a.
    FitsQuotient(TWO_128 - 1, n, a);
    assert (TWO_128 - 1) * a <= n by { MulLe(a, TWO_128, TWO_128 - 1); }
    var d := a - b;
    assert b <= 2 * MARGIN * d;
    ScaledGap(Reciprocal(a), a, b, d, n);
    FitsQuotient(q, n, b);
  }

  lemma ScaledGap(r: nat, a: nat, b: nat, d: nat, n: nat)
    requires a == b + d && r * a <= n && TWO_128 - 1 <= r
    requires b <= 2 * MARGIN * d
    ensures (r + TWO_32) * b <= n
  {
    calc {
      (r + TWO_32) * b;
      r * b + TWO_32 * b;
    <=
      r * b + TWO_32 * (2 * MARGIN * d);
    <= { MulLe(TWO_32 * 2 * MARGIN, r, d); }
      r * b + r * d;
      r * a;
    }
  }

  // -------------------------------------------------- the tick function

  /** The specification of tickToSqrtPriceX96 on valid ticks. */
  function SqrtPrice(tick: int): nat
    requires InRange(tick)
  {
    if tick > 0 then
      RatioNeverBelow(tick);
      RoundUp(Reciprocal(Ratio(tick)))
    else
      RoundUp(Ratio(-tick))
  }

  lemma RoundUpSeparates(x: nat, y: nat)
    requires x + TWO_32 <= y
    ensures RoundUp(x) < RoundUp(y)
  {
  }

  lemma NextRatioApart(k: nat)
    requires k < MAX_TICK
    ensures MIN_RATIO <= Ratio(k + 1) && Ratio(k + 1) + TWO_32 <= Ratio(k) <= TWO_128
    ensures Reciprocal(Ratio(k)) + TWO_32 <= Reciprocal(Ratio(k + 1))
  {
    NextRatio(k);
    RatioNeverBelow(k + 1);
    RatioAtMost(k, 0, TWO_128);
    MarginSeparates(Ratio(k), Ratio(k + 1));
  }

  lemma NextTickHigher(tick: int)
    requires InRange(tick) && InRange(tick + 1)
    ensures SqrtPrice(tick) < SqrtPrice(tick + 1)
  {
    if tick < 0 {
      NextRatioApart(-tick - 1);
      RoundUpSeparates(Ratio(-tick), Ratio(-tick - 1));
    } else if tick == 0 {
      NextRatioApart(0);
      AtZero();
      RoundUpSeparates(TWO_128 - 1, Reciprocal(Ratio(1)));
    } else {
      NextRatioApart(tick);
      RoundUpSeparates(Reciprocal(Ratio(tick)), Reciprocal(Ratio(tick + 1)));
    }
  }

  lemma AtZero()
    ensures Ratio(0) == TWO_128
    ensures RoundUp(Ratio(0)) == RoundUp(Reciprocal(Ratio(0)))
    ensures Reciprocal(Ratio(0)) == TWO_128 - 1
  {
    RatioZero(0);
    assert Reciprocal(TWO_128) == TWO_128 - 1;
    assert RoundUp(TWO_128) == RoundUp(TWO_128 - 1);
  }

  lemma {:induction false} RatioZero(i: nat)
    requires i <= BITS
    ensures RatioFrom(0, i, TWO_128) == TWO_128
    decreases BITS - i
  {
    if i < BITS {
      RatioZero(i + 1);
    }
  }

  /** Strict monotonicity over the whole range: distinct ticks have distinct prices. */
  lemma {:induction false} StrictlyIncreasing(s: int, t: int)
    requires InRange(s) && InRange(t) && s < t
    ensures SqrtPrice(s) < SqrtPrice(t)
    decreases t - s
  {
    NextTickHigher(t - 1);
    if s < t - 1 {
      StrictlyIncreasing(s, t - 1);
    }
  }

  /** The ends of the range are TickMath's published constants, and everything lies between. */
  lemma PriceBounds(tick: int)
    requires InRange(tick)
    ensures SqrtPrice(MIN_TICK) == MIN_SQRT && SqrtPrice(MAX_TICK) == MAX_SQRT
    ensures 0 < MIN_SQRT <= SqrtPrice(tick) <= MAX_SQRT
  {
    LastRatioFrom(0);
    assert Reciprocal(MIN_RATIO) == 6276865796315986613307619852238232712866172378830071145882;
    if MIN_TICK < tick { StrictlyIncreasing(MIN_TICK, tick); }
    if tick < MAX_TICK { StrictlyIncreasing(tick, MAX_TICK); }
  }

  // The tick above the lowest one: the carry's bits are set, the ones above them are shared.
  function NextProduct(i: nat): nat
    requires 4 <= i <= BITS
  {
    match i
    case 4 => Prefix(3)
    case 5 => NextProduct(4)
    case 6 => 0xff8055f0309b4cd24490566c82a01721
    case 7 => 0xfeaf5fbd9c5735d660753bc140562349
    case 8 => 0xfd0f737f58cd8fafb267e3c05d8d39cb
    case 9 => 0xf9d78c646fc8cd2a6e44b66c9dd6f5a0
    case 10 => NextProduct(9)
    case 11 => NextProduct(10)
    case 12 => 0xe1868f4090a0eb0837f547ee7cd0a0d5
    case 13 => NextProduct(12)
    case 14 => NextProduct(13)
    case 15 => NextProduct(14)
    case 16 => 0x2bd2345ae0e932a9e094f10326e12688
    case 17 => 0x1a78b37816912cce622050c8bd8179d
    case 18 => NextProduct(17)
    case 19 => 0x38665f117878f5596384fb0421
    case _ => 0x10005bd81331b3621
  }

  lemma NextStep(i: nat)
    requires 4 <= i < BITS
    ensures NextProduct(i + 1) == if LastBits(i) % 2 == 1 then MulShift(NextProduct(i), Factor(i)) else NextProduct(i)
  {
    if i == 5 {
      assert NextProduct(5) * Factor(5) == NextProduct(6) * TWO_128 + 0x94bff956b8bb8148b448a6f1a46a07c0;
    } else if i == 6 {
      assert NextProduct(6) * Factor(6) == NextProduct(7) * TWO_128 + 0x8016be470cda333914817638c29aeb81;
    } else if i == 7 {
      assert NextProduct(7) * Factor(7) == NextProduct(8) * TWO_128 + 0x218d8d55503eed8bf806299b490720ab;
    } else if i == 8 {
      assert NextProduct(8) * Factor(8) == NextProduct(9) * TWO_128 + 0xd91224fc73da818cb623be91eb63470c;
    } else if i == 11 {
      assert NextProduct(11) * Factor(11) == NextProduct(12) * TWO_128 + 0x8c8061fa906af8daf3388afe2da8d4a0;
    } else if i == 15 {
      assert NextProduct(15) * Factor(15) == NextProduct(16) * TWO_128 + 0x54121e4d9f334739f35777ce0c6f851e;
    } else if i == 16 {
      assert NextProduct(16) * Factor(16) == NextProduct(17) * TWO_128 + 0x8f2b28a9708a6f6ef726d32302e398c8;
    } else if i == 18 {
      assert NextProduct(18) * Factor(18) == NextProduct(19) * TWO_128 + 0xd6a277268b88ffb7a4196032db14cb38;
    } else if i == 19 {
      assert NextProduct(19) * Factor(19) == NextProduct(20) * TWO_128 + 0x6f676455b5457127f0f0c65864350be2;
    }
  }

  lemma {:induction false} NextRatioFrom(i: nat)
    requires 4 <= i <= BITS
    ensures RatioFrom(LastBits(i), i, NextProduct(i)) == NextProduct(BITS)
    decreases BITS - i
  {
    if i < BITS {
      LastStep(i);
      NextStep(i);
      NextRatioFrom(i + 1);
    }
  }

  lemma NextRatioIs()
    ensures Ratio(887271) == NextProduct(BITS)
  {
    PrefixStep(1);
    PrefixStep(2);
    PrefixStep(3);
    assert RatioFrom(110908, 3, Prefix(3)) == RatioFrom(LastBits(4), 4, Prefix(3));
    assert RatioFrom(221817, 2, Prefix(2)) == RatioFrom(110908, 3, Prefix(3));
    assert RatioFrom(443635, 1, Prefix(1)) == RatioFrom(221817, 2, Prefix(2));
    assert Ratio(887271) == RatioFrom(443635, 1, Prefix(1));
    NextRatioFrom(4);
  }

  /** The two lowest prices. */
  lemma LowestBin()
    ensures SqrtPrice(MIN_TICK) == MIN_SQRT && SqrtPrice(MIN_TICK + 1) == 4295343490
  {
    PriceBounds(MIN_TICK);
    NextRatioIs();
    hide Ratio, RatioFrom;
    assert RoundUp(NextProduct(BITS)) == 4295343490;
  }

  datatype TickError = TickOutOfRange

  predicate Bit(k: nat, mask: nat)
    requires mask > 0
  {
    Shifted(k, mask) % 2 == 1
  }

  lemma HalveQuotient(k: nat, mask: nat)
    requires mask > 0
    ensures Shifted(k, mask) / 2 == Shifted(k, 2 * mask)
  {
    var q := Shifted(k, mask);
    Floor(k, mask);
    HalfWindow(k, mask, q, q / 2);
    QuotientIs(q / 2, k, 2 * mask);
  }

  lemma HalfWindow(k: nat, mask: nat, q: nat, h: nat)
    requires mask > 0 && q * mask <= k < q * mask + mask && 2 * h <= q <= 2 * h + 1
    ensures h * (2 * mask) <= k < h * (2 * mask) + 2 * mask
  {
    MulLe(2 * h, q, mask);
    MulLe(q, 2 * h + 1, mask);
    Distribute(2 * h, 1, mask);
    assert h * (2 * mask) == 2 * h * mask;
  }

  /** The bits of k from the mask's up. */
  function Shifted(k: nat, mask: nat): nat
    requires mask > 0
  {
    k / mask
  }

  /** One line of the source: `if (abs & mask) mul(m)`. */
  method MulIfSet(abs: nat, mask: nat, ratio: nat, m: nat, ghost i: nat) returns (next: nat)
    requires mask > 0 && i < BITS && m == Factor(i)
    ensures RatioFrom(Shifted(abs, mask), i, ratio) == RatioFrom(Shifted(abs, 2 * mask), i + 1, next)
  {
    HalveQuotient(abs, mask);
    hide Factor, MulShift, Shifted;
    next := if Bit(abs, mask) then MulShift(ratio, m) else ratio;
  }

  lemma FirstBit(abs: nat, ratio: nat)
    requires ratio == if abs % 2 != 0 then 0xfffcb933bd6fad37aa2d162d1a594001 else TWO_128
    ensures Ratio(abs) == RatioFrom(Shifted(abs, 2), 1, ratio)
  {
    WholeShift(Factor(0));
  }

  lemma LastBit(abs: nat, ratio: nat)
    ensures RatioFrom(Shifted(abs, 0x100000), BITS, ratio) == ratio
  {
  }

  /** tickToSqrtPriceX96 as the source runs it: one running ratio, twenty conditional multiplications. */
  method TickToSqrtPriceX96(tick: int) returns (r: Result<nat, TickError>)
    ensures r == if InRange(tick) then Ok(SqrtPrice(tick)) else Err(TickOutOfRange)
  {
    if tick < MIN_TICK || tick > MAX_TICK {
      return Err(TickOutOfRange);
    }
    var abs: nat := if tick < 0 then -tick else tick;
    var ratio: nat := if abs % 2 != 0 then 0xfffcb933bd6fad37aa2d162d1a594001 else TWO_128;
    FirstBit(abs, ratio);
    hide RatioFrom, MulShift, Shifted, Ratio, Factor, Bit;
    ratio := MulIfSet(abs, 0x2, ratio, 0xfff97272373d413259a46990580e213a, 1);
    ratio := MulIfSet(abs, 0x4, ratio, 0xfff2e50f5f656932ef12357cf3c7fdcc, 2);
    ratio := MulIfSet(abs, 0x8, ratio, 0xffe5caca7e10e4e61c3624eaa0941cd0, 3);
    ratio := MulIfSet(abs, 0x10, ratio, 0xffcb9843d60f6159c9db58835c926644, 4);
    ratio := MulIfSet(abs, 0x20, ratio, 0xff973b41fa98c081472e6896dfb254c0, 5);
    ratio := MulIfSet(abs, 0x40, ratio, 0xff2ea16466c96a3843ec78b326b52861, 6);
    ratio := MulIfSet(abs, 0x80, ratio, 0xfe5dee046a99a2a811c461f1969c3053, 7);
    ratio := MulIfSet(abs, 0x100, ratio, 0xfcbe86c7900a88aedcffc83b479aa3a4, 8);
    ratio := MulIfSet(abs, 0x200, ratio, 0xf987a7253ac413176f2b074cf7815e54, 9);
    ratio := MulIfSet(abs, 0x400, ratio, 0xf3392b0822b70005940c7a398e4b70f3, 10);
    ratio := MulIfSet(abs, 0x800, ratio, 0xe7159475a2c29b7443b29c7fa6e889d9, 11);
    ratio := MulIfSet(abs, 0x1000, ratio, 0xd097f3bdfd2022b8845ad8f792aa5825, 12);
    ratio := MulIfSet(abs, 0x2000, ratio, 0xa9f746462d870fdf8a65dc1f90e061e5, 13);
    ratio := MulIfSet(abs, 0x4000, ratio, 0x70d869a156d2a1b890bb3df62baf32f7, 14);
    ratio := MulIfSet(abs, 0x8000, ratio, 0x31be135f97d08fd981231505542fcfa6, 15);
    ratio := MulIfSet(abs, 0x10000, ratio, 0x9aa508b5b7a84e1c677de54f3e99bc9, 16);
    ratio := MulIfSet(abs, 0x20000, ratio, 0x5d6af8dedb81196699c329225ee604, 17);
    ratio := MulIfSet(abs, 0x40000, ratio, 0x2216e584f5fa1ea926041bedfe98, 18);
    ratio := MulIfSet(abs, 0x80000, ratio, 0x48a170391f7dc42444e8fa2, 19);
    LastBit(abs, ratio);
    if tick > 0 {
      RatioNeverBelow(abs);
      ratio := Reciprocal(ratio);
    }
    return Ok(RoundUp(ratio));
  }
}
