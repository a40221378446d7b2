// The twenty constants of the tick price are, each of them, the whole number
// nearest to 2^128 * 1.0001^(-2^i / 2): not one unit of any can be changed.
module TickFactors {
  import opened Common
  import opened TickMath
  import opened TickAccuracy

  const TWO_192 := 0x1000000000000000000000000000000000000000000000000
  const TWO_66 := 0x40000000000000000

  /** The digits of 1.0001^(-2^i): 192 of them, each row the square of the one before, rounded down. */
  function Digits(i: nat): nat
    requires i < BITS
  {
    match i
    case 0 => 0xfff97272373d413259a46990580e2139b8e3eb6b6eb57c60
    case 1 => 0xfff2e50f5f656932ef12357cf3c7fdcb98a5078da53efa25
    case 2 => 0xffe5caca7e10e4e61c3624eaa0941ccff04a8a212009f024
    case 3 => 0xffcb9843d60f6159c9db58835c926643ad7c09ed8821ecf5
    case 4 => 0xff973b41fa98c081472e6896dfb254bf81ef047c569db3a2
    case 5 => 0xff2ea16466c96a3843ec78b326b5286097e9315c35bffb3b
    case 6 => 0xfe5dee046a99a2a811c461f1969c3052f544235f4d64fd85
    case 7 => 0xfcbe86c7900a88aedcffc83b479aa3a3dc268667328f4b13
    case 8 => 0xf987a7253ac413176f2b074cf7815e53facbf1906fa659ad
    case 9 => 0xf3392b0822b70005940c7a398e4b70f2ca02c578b1d41f50
    case 10 => 0xe7159475a2c29b7443b29c7fa6e889d89a78853263da3752
    case 11 => 0xd097f3bdfd2022b8845ad8f792aa58256a3df3fc12a5ba57
    case 12 => 0xa9f746462d870fdf8a65dc1f90e061e4fa160424952d4740
    case 13 => 0x70d869a156d2a1b890bb3df62baf32f6c49744d5020b4d6e
    case 14 => 0x31be135f97d08fd981231505542fcfa586c1e84cfea49fad
    case 15 => 0x9aa508b5b7a84e1c677de54f3e99bc8fdac1d580d2e9b01
    case 16 => 0x5d6af8dedb81196699c329225ee6044e0e6dc91bb283db
    case 17 => 0x2216e584f5fa1ea926041bedfe97b74dcb4ff36b9c96
    case 18 => 0x48a170391f7dc42444e8fa23b8ad7d66987e9cb
    case _ => 0x149b34ee7ac262d231e2817b2dd1cd
  }

  lemma DigitsSquare(i: nat)
    requires i + 1 < BITS
    ensures var a, b := Digits(i), Digits(i + 1);
            a <= TWO_192 && b * TWO_192 <= a * a < b * TWO_192 + TWO_192
  {
    if i == 0 {
      assert Digits(0) * Digits(0) == 0xfff2e50f5f656932ef12357cf3c7fdcb98a5078da53efa253a75578e8fb131a5c0c88313798bc5bb802eafcb9c2d2400;
    } else if i == 1 {
      assert Digits(1) * Digits(1) == 0xffe5caca7e10e4e61c3624eaa0941ccff04a8a212009f0247c8cd65dde61868eb3627340a0deb2514769d0b3d0584959;
    } else if i == 2 {
      assert Digits(2) * Digits(2) == 0xffcb9843d60f6159c9db58835c926643ad7c09ed8821ecf5429b161fbe3e4f4a738d12c0e7fb1d0e524935b3c3cb8510;
    } else if i == 3 {
      assert Digits(3) * Digits(3) == 0xff973b41fa98c081472e6896dfb254bf81ef047c569db3a21abae446008d1beff3fdf81552858f56693607e5427ea279;
    } else if i == 4 {
      assert Digits(4) * Digits(4) == 0xff2ea16466c96a3843ec78b326b5286097e9315c35bffb3b74a225de37f84264e856602976052453a02d6ac6aabff284;
    } else if i == 5 {
      assert Digits(5) * Digits(5) == 0xfe5dee046a99a2a811c461f1969c3052f544235f4d64fd85da5f4815274634f19198672abeb39be116d836674696bf99;
    } else if i == 6 {
      assert Digits(6) * Digits(6) == 0xfcbe86c7900a88aedcffc83b479aa3a3dc268667328f4b13f64a46def757cc5080aaae818383e6bf66546f0f0cf82719;
    } else if i == 7 {
      assert Digits(7) * Digits(7) == 0xf987a7253ac413176f2b074cf7815e53facbf1906fa659ad998182a53226c30782f1696745094a4cad8696d2613e2369;
    } else if i == 8 {
      assert Digits(8) * Digits(8) == 0xf3392b0822b70005940c7a398e4b70f2ca02c578b1d41f5096c56cdd2f1af8021025e757df266edb1d0c4a7c71c5bee9;
    } else if i == 9 {
      assert Digits(9) * Digits(9) == 0xe7159475a2c29b7443b29c7fa6e889d89a78853263da37525bfac214593cea2b613d0a1b1029b69267d57e1080547900;
    } else if i == 10 {
      assert Digits(10) * Digits(10) == 0xd097f3bdfd2022b8845ad8f792aa58256a3df3fc12a5ba57bbc1acc5286de833abf0bb8470c0ab2e6a8b50d3af9c5644;
    } else if i == 11 {
      assert Digits(11) * Digits(11) == 0xa9f746462d870fdf8a65dc1f90e061e4fa160424952d47402230ca0e4c72b0ba6d376142f9aa520c30d9bec5f7c88991;
    } else if i == 12 {
      assert Digits(12) * Digits(12) == 0x70d869a156d2a1b890bb3df62baf32f6c49744d5020b4d6e03fc40f3065fc6d0ae6f5d16e25ca6d4f4e3c6f2a0549000;
    } else if i == 13 {
      assert Digits(13) * Digits(13) == 0x31be135f97d08fd981231505542fcfa586c1e84cfea49fad365ab317d0b014b159cf4bd3994759a02fb976c176df5b44;
    } else if i == 14 {
      assert Digits(14) * Digits(14) == 0x9aa508b5b7a84e1c677de54f3e99bc8fdac1d580d2e9b01eb24fa33e59d0e9d5de1b11d556d8b166f4d757045405ae9;
    } else if i == 15 {
      assert Digits(15) * Digits(15) == 0x5d6af8dedb81196699c329225ee6044e0e6dc91bb283db3a114244ab11557f797c0d0492144dd5e32e8eea2c363601;
    } else if i == 16 {
      assert Digits(16) * Digits(16) == 0x2216e584f5fa1ea926041bedfe97b74dcb4ff36b9c96b08a54ec155841ed74653809614a524a658eb031d275dd59;
    } else if i == 17 {
      assert Digits(17) * Digits(17) == 0x48a170391f7dc42444e8fa23b8ad7d66987e9cb4877bf74a0c0dd18e3bfa4a282fc8e9374720115092b27e4;
    } else {
      assert Digits(18) * Digits(18) == 0x149b34ee7ac262d231e2817b2dd1cd029c84a80cfe1069150ff7bff4b0f40e864a9f54ef9d26f9;
    }
  }

  /** By how many units row i may fall short. */
  function Short(i: nat): (d: nat)
    ensures d > 0
  {
    if i == 0 then 2 else 2 * Short(i - 1) + 2
  }

  lemma {:induction false} ShortIs(i: nat)
    ensures Short(i) + 2 == 4 * Pow2(i)
  {
    if i > 0 {
      ShortIs(i - 1);
    }
  }

  /** Half a unit below the constant is too small, and half a unit above too large. */
  lemma HalfUnits(i: nat)
    requires i < BITS
    ensures var f, a := Factor(i), Digits(i);
            (2 * f - 1) * (2 * f - 1) < TWO_66 * a && TWO_66 * (a + 4_194_304) < (2 * f + 1) * (2 * f + 1)
  {
    if i == 0 {
      assert Factor(0) == 0xfffcb933bd6fad37aa2d162d1a594001 && Digits(0) == 0xfff97272373d413259a46990580e2139b8e3eb6b6eb57c60;
    } else if i == 1 {
      assert Factor(1) == 0xfff97272373d413259a46990580e213a && Digits(1) == 0xfff2e50f5f656932ef12357cf3c7fdcb98a5078da53efa25;
    } else if i == 2 {
      assert Factor(2) == 0xfff2e50f5f656932ef12357cf3c7fdcc && Digits(2) == 0xffe5caca7e10e4e61c3624eaa0941ccff04a8a212009f024;
    } else if i == 3 {
      assert Factor(3) == 0xffe5caca7e10e4e61c3624eaa0941cd0 && Digits(3) == 0xffcb9843d60f6159c9db58835c926643ad7c09ed8821ecf5;
    } else if i == 4 {
      assert Factor(4) == 0xffcb9843d60f6159c9db58835c926644 && Digits(4) == 0xff973b41fa98c081472e6896dfb254bf81ef047c569db3a2;
    } else if i == 5 {
      assert Factor(5) == 0xff973b41fa98c081472e6896dfb254c0 && Digits(5) == 0xff2ea16466c96a3843ec78b326b5286097e9315c35bffb3b;
    } else if i == 6 {
      assert Factor(6) == 0xff2ea16466c96a3843ec78b326b52861 && Digits(6) == 0xfe5dee046a99a2a811c461f1969c3052f544235f4d64fd85;
    } else if i == 7 {
      assert Factor(7) == 0xfe5dee046a99a2a811c461f1969c3053 && Digits(7) == 0xfcbe86c7900a88aedcffc83b479aa3a3dc268667328f4b13;
    } else if i == 8 {
      assert Factor(8) == 0xfcbe86c7900a88aedcffc83b479aa3a4 && Digits(8) == 0xf987a7253ac413176f2b074cf7815e53facbf1906fa659ad;
    } else if i == 9 {
      assert Factor(9) == 0xf987a7253ac413176f2b074cf7815e54 && Digits(9) == 0xf3392b0822b70005940c7a398e4b70f2ca02c578b1d41f50;
    } else if i == 10 {
      assert Factor(10) == 0xf3392b0822b70005940c7a398e4b70f3 && Digits(10) == 0xe7159475a2c29b7443b29c7fa6e889d89a78853263da3752;
    } else if i == 11 {
      assert Factor(11) == 0xe7159475a2c29b7443b29c7fa6e889d9 && Digits(11) == 0xd097f3bdfd2022b8845ad8f792aa58256a3df3fc12a5ba57;
    } else if i == 12 {
      assert Factor(12) == 0xd097f3bdfd2022b8845ad8f792aa5825 && Digits(12) == 0xa9f746462d870fdf8a65dc1f90e061e4fa160424952d4740;
    } else if i == 13 {
      assert Factor(13) == 0xa9f746462d870fdf8a65dc1f90e061e5 && Digits(13) == 0x70d869a156d2a1b890bb3df62baf32f6c49744d5020b4d6e;
    } else if i == 14 {
      assert Factor(14) == 0x70d869a156d2a1b890bb3df62baf32f7 && Digits(14) == 0x31be135f97d08fd981231505542fcfa586c1e84cfea49fad;
    } else if i == 15 {
      assert Factor(15) == 0x31be135f97d08fd981231505542fcfa6 && Digits(15) == 0x9aa508b5b7a84e1c677de54f3e99bc8fdac1d580d2e9b01;
    } else if i == 16 {
      assert Factor(16) == 0x9aa508b5b7a84e1c677de54f3e99bc9 && Digits(16) == 0x5d6af8dedb81196699c329225ee6044e0e6dc91bb283db;
    } else if i == 17 {
      assert Factor(17) == 0x5d6af8dedb81196699c329225ee604 && Digits(17) == 0x2216e584f5fa1ea926041bedfe97b74dcb4ff36b9c96;
    } else if i == 18 {
      assert Factor(18) == 0x2216e584f5fa1ea926041bedfe98 && Digits(18) == 0x48a170391f7dc42444e8fa23b8ad7d66987e9cb;
    } else {
      assert Factor(19) == 0x48a170391f7dc42444e8fa2 && Digits(19) == 0x149b34ee7ac262d231e2817b2dd1cd;
    }
  }

  // ------------------------------------------------------- real numbers

  /** y is the real row a stands for: between a and a + d units of 1/t. */
  predicate Stands(a: nat, d: nat, t: real, y: real) {
    0.0 <= y && a as real <= t * y <= (a + d) as real
  }

  lemma RealOfProduct(x: nat, y: nat)
    ensures (x * y) as real == x as real * y as real
  {
  }

  /** Row b is row a squared, and rounding cannot spoil it. */
  predicate RowFollows(a: nat, b: nat, d: nat, t: nat) {
    a <= t && d * d <= t && b * t <= a * a < b * t + t
  }

  lemma NextRow(i: nat)
    requires i + 1 < BITS
    ensures RowFollows(Digits(i), Digits(i + 1), Short(i), TWO_192)
    ensures Short(i + 1) == 2 * Short(i) + 2
  {
    hide Digits;
    DigitsSquare(i);
    SmallShort(i);
  }

  /** Squaring a row: the shortfall doubles, and rounding down adds less than two. */
  lemma StandsSquare(a: nat, b: nat, d: nat, t: nat, y: real)
    requires 0 < t && Stands(a, d, t as real, y) && RowFollows(a, b, d, t)
    ensures Stands(b, 2 * d + 2, t as real, y * y)
  {
    ShortGrows(a, b, d, t);
    ProductLe(0.0, y, 0.0, y);
    SquareBetweenNat(a, a + d, b, b + (2 * d + 2), t, y);
  }

  lemma SquareBetweenNat(a: nat, c: nat, b: nat, e: nat, t: nat, y: real)
    requires 0 < t && a as real <= t as real * y <= c as real && b * t <= a * a && c * c <= e * t
    ensures b as real <= t as real * (y * y) <= e as real
  {
    RealOfProduct(a, a);
    RealOfProduct(c, c);
    RealOfProduct(b, t);
    RealOfProduct(e, t);
    SquareBetween(a as real, c as real, b as real, e as real, t as real, y);
  }

  lemma SquareBetween(a: real, c: real, b: real, e: real, s: real, y: real)
    requires 0.0 < s && 0.0 <= a <= s * y <= c && b * s <= a * a && c * c <= e * s
    ensures b <= s * (y * y) <= e
  {
    var x, z := s * y, s * (y * y);
    assert x * x == z * s by { SquareOf(s, y); }
    ProductLe(a, x, a, x);
    ProductLe(x, c, x, c);
    Unscale(b, z, s, b * s, x * x);
    Unscale(z, e, s, x * x, e * s);
  }

  lemma SquareOf(s: real, y: real)
    ensures (s * y) * (s * y) == s * (y * y) * s
  {
  }

  lemma ShortGrows(a: nat, b: nat, d: nat, t: nat)
    requires a <= t && d * d <= t && a * a < b * t + t
    ensures (a + d) * (a + d) <= (b + (2 * d + 2)) * t
  {
    MulLe(a, t, 2 * d);
    assert (a + d) * (a + d) == a * a + a * (2 * d) + d * d;
    assert (b + (2 * d + 2)) * t == b * t + t * (2 * d) + 2 * t;
  }

  /** 1.0001^-n. */
  function Inverse(n: nat): (y: real)
    ensures y > 0.0 && y * Power(n) == 1.0
  {
    1.0 / Power(n)
  }

  lemma InverseSquares(n: nat)
    ensures Inverse(n + n) == Inverse(n) * Inverse(n)
  {
    var y, p := Inverse(n), Power(n);
    PowerAdds(n, n);
    hide Power, Inverse;
    assert (y * y) * (p * p) == (y * p) * (y * p);
    SameInverse(y * y, Inverse(n + n), p * p);
  }

  lemma SameInverse(x: real, y: real, p: real)
    requires x * p == 1.0 && y * p == 1.0
    ensures x == y
  {
    assert x == x * (y * p) == y * (x * p) == y;
  }

  lemma FirstDigits()
    ensures Stands(Digits(0), Short(0), TWO_192 as real, Inverse(Pow2(0)))
  {
    var y := Inverse(1);
    assert Power(0) == 1.0 && Power(1) == 1.0001 * Power(0);
    assert Pow2(0) == 1 && Short(0) == 2;
    FirstRow();
    FirstStands(Digits(0), TWO_192, y);
  }

  lemma FirstRow()
    ensures Digits(0) * 10001 <= TWO_192 * 10000 <= (Digits(0) + 2) * 10001
  {
  }

  lemma FirstStands(a: nat, t: nat, y: real)
    requires a * 10001 <= t * 10000 <= (a + 2) * 10001 && y * 1.0001 == 1.0
    ensures Stands(a, 2, t as real, y)
  {
    var s := t as real;
    assert (s * y) * 10001.0 == s * 10000.0;
  }

  lemma {:induction false} Pow2Rises(i: nat, j: nat)
    requires i <= j
    ensures Pow2(i) <= Pow2(j)
    decreases j
  {
    if i < j {
      Pow2Rises(i, j - 1);
    }
  }

  lemma SmallShort(i: nat)
    requires i < BITS
    ensures Short(i) <= 4_194_304 && Short(i) * Short(i) <= TWO_192
  {
    ShortIs(i);
    Pow2Rises(i, 19);
    assert Pow2(10) == 1024 && Pow2(19) == 524_288;
    MulLe(Short(i), 4_194_304, Short(i));
    MulLe(Short(i), 4_194_304, 4_194_304);
  }

  /** Row i stands for 1.0001^(-2^i). */
  lemma {:induction false} DigitsStand(i: nat)
    requires i < BITS
    ensures Stands(Digits(i), Short(i), TWO_192 as real, Inverse(Pow2(i)))
  {
    hide Digits, Inverse, Power;
    if i == 0 {
      FirstDigits();
    } else {
      DigitsStand(i - 1);
      NextStands(i - 1);
    }
  }

  lemma Doubles(i: nat)
    ensures Pow2(i + 1) == Pow2(i) + Pow2(i)
  {
  }

  lemma NextStands(i: nat)
    requires i + 1 < BITS && Stands(Digits(i), Short(i), TWO_192 as real, Inverse(Pow2(i)))
    ensures Stands(Digits(i + 1), Short(i + 1), TWO_192 as real, Inverse(Pow2(i + 1)))
  {
    hide Digits, Inverse, Power, Stands, Pow2, Short, RowFollows;
    InverseSquares(Pow2(i));
    Doubles(i);
    StandsNext(i, Inverse(Pow2(i)), Inverse(Pow2(i + 1)));
  }

  lemma StandsNext(i: nat, y: real, z: real)
    requires i + 1 < BITS && Stands(Digits(i), Short(i), TWO_192 as real, y) && z == y * y
    ensures Stands(Digits(i + 1), Short(i + 1), TWO_192 as real, z)
  {
    hide Digits, Stands, Short, RowFollows;
    NextRow(i);
    StandsSquare(Digits(i), Digits(i + 1), Short(i), TWO_192, y);
  }

  /**
   * Each constant is the whole number nearest to 2^128 * 1.0001^(-2^i / 2):
   * half a unit less, squared, lies below it, and half a unit more above.
   */
  lemma NearestUnit(i: nat)
    requires i < BITS
    ensures var below, above := Q128(2 * Factor(i) - 1), Q128(2 * Factor(i) + 1);
            Deviation(below, Pow2(i)) < 4.0 < Deviation(above, Pow2(i))
  {
    hide Factor, Digits, Inverse, Power, Deviation, Q128, Stands, Short, Pow2;
    UnitBelow(i);
    UnitAbove(i);
  }

  lemma UnitBelow(i: nat)
    requires i < BITS
    ensures Deviation(Q128(2 * Factor(i) - 1), Pow2(i)) < 4.0
  {
    hide Factor, Digits, Inverse, Power, Short, Pow2, Deviation, Q128, SquaredTimes;
    HalfUnits(i);
    DigitsStand(i);
    Scales();
    DeviationIs(2 * Factor(i) - 1, Pow2(i));
    Below(2 * Factor(i) - 1, Digits(i), TWO_66, TWO_192, SCALE, Inverse(Pow2(i)), Power(Pow2(i)));
  }

  lemma UnitAbove(i: nat)
    requires i < BITS
    ensures 4.0 < Deviation(Q128(2 * Factor(i) + 1), Pow2(i))
  {
    hide Factor, Digits, Inverse, Power, Short, Pow2, Deviation, Q128, SquaredTimes;
    HalfUnits(i);
    DigitsStand(i);
    SmallShort(i);
    Scales();
    DeviationIs(2 * Factor(i) + 1, Pow2(i));
    Above(2 * Factor(i) + 1, Digits(i) + Short(i), TWO_66, TWO_192, SCALE, Inverse(Pow2(i)), Power(Pow2(i)));
  }

  lemma Scales()
    ensures SCALE > 0.0 && TWO_66 as real * TWO_192 as real == 4.0 * (SCALE * SCALE)
  {
    RealOfProduct(TWO_66, TWO_192);
    RealOfProduct(TWO_128, TWO_128);
    assert TWO_66 * TWO_192 == 4 * (TWO_128 * TWO_128);
  }

  /** The shape of a deviation. */
  function SquaredTimes(u: real, p: real): real {
    u * u * p
  }

  lemma DeviationIs(x: nat, n: nat)
    ensures Deviation(Q128(x), n) == SquaredTimes(x as real / SCALE, Power(n))
  {
  }

  lemma Below(x: nat, a: nat, k: nat, t: nat, s: real, y: real, p: real)
    requires x * x < k * a && a as real <= t as real * y && k as real * t as real == 4.0 * (s * s) && s > 0.0
    requires 0.0 < p && y * p == 1.0
    ensures SquaredTimes(x as real / s, p) < 4.0
  {
    hide SquaredTimes;
    RealOfProduct(x, x);
    RealOfProduct(k, a);
    Quotient(x as real, s);
    BelowReal(x as real, x as real / s, a as real, k as real, t as real, s, y, p);
  }

  lemma BelowReal(x: real, u: real, a: real, k: real, t: real, s: real, y: real, p: real)
    requires x * x < k * a && 0.0 <= a <= t * y && 0.0 <= k && k * t == 4.0 * (s * s) && s > 0.0 && x == u * s
    requires 0.0 < p && y * p == 1.0
    ensures SquaredTimes(u, p) < 4.0
  {
    ProductLe(k, k, a, t * y);
    Regrouping(u, k, t, s, y, p);
    ScaleLt(x * x, k * (t * y), p);
    ProductLe(s, s, s, s);
    ScaleLt(0.0, s, s);
    if 4.0 <= u * u * p { Scale(4.0, u * u * p, s * s); }
  }

  lemma Above(x: nat, a: nat, k: nat, t: nat, s: real, y: real, p: real)
    requires k * a < x * x && 0.0 <= t as real * y <= a as real && k as real * t as real == 4.0 * (s * s) && s > 0.0
    requires 0.0 < p && y * p == 1.0
    ensures 4.0 < SquaredTimes(x as real / s, p)
  {
    hide SquaredTimes;
    RealOfProduct(x, x);
    RealOfProduct(k, a);
    Quotient(x as real, s);
    AboveReal(x as real, x as real / s, a as real, k as real, t as real, s, y, p);
  }

  lemma AboveReal(x: real, u: real, a: real, k: real, t: real, s: real, y: real, p: real)
    requires k * a < x * x && 0.0 <= t * y <= a && 0.0 <= k && k * t == 4.0 * (s * s) && s > 0.0 && x == u * s
    requires 0.0 < p && y * p == 1.0
    ensures 4.0 < SquaredTimes(u, p)
  {
    ProductLe(k, k, t * y, a);
    Regrouping(u, k, t, s, y, p);
    ScaleLt(k * (t * y), x * x, p);
    ScaleLt(0.0, s, s);
    if u * u * p <= 4.0 { Scale(u * u * p, 4.0, s * s); }
  }

  lemma Regrouping(u: real, k: real, t: real, s: real, y: real, p: real)
    requires k * t == 4.0 * (s * s) && y * p == 1.0
    ensures (u * s) * (u * s) * p == u * u * p * (s * s)
    ensures k * (t * y) * p == 4.0 * (s * s)
  {
    assert k * (t * y) * p == (k * t) * (y * p);
  }
}
