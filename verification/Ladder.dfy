// The ladder planner: cut a tick range into bins, find the scale at which the
// shape spends the budgets, and repair the rounding so that no budget is
// exceeded. Shape weights are floats in the source and enter here as the
// integers Math.round(weights[i] * 1e9) that the arithmetic uses.
module Ladder {
  import opened Common
  import opened Liquidity
  import TickMath

  const MAX_BINS := 40
  const WEIGHT_ONE := 1_000_000_000
  const UNIT := 1_000_000_000_000_000_000
  const SHAVE_PASSES := 8
  const HALVE_PASSES := 64

  datatype Bin = Bin(lo: int, hi: int)

  datatype Side = NoSide | Token0 | Token1

  datatype Scale = Scale(num: nat, den: nat, limitedBy: Side)

  datatype Rung = Rung(tickLower: int, tickUpper: int, amount0: nat, amount1: nat,
                       amount0Min: nat, amount1Min: nat, liquidity: nat, weight: nat)

  datatype Built = Built(rungs: seq<Rung>, total0: nat, total1: nat)

  /** What the planner has fixed once the range is cut: price, bins, weights, slippage. */
  datatype Shape = Shape(sqrtP: nat, bins: seq<Bin>, weights: seq<nat>, slip: nat)
  {
    ghost predicate Valid() {
      && 0 < sqrtP
      && |bins| <= MAX_BINS && |bins| <= |weights|
      && slip <= 5000
      && (forall i :: 0 <= i < |bins| ==> ValidBin(bins[i]))
      && (forall i :: 0 <= i < |weights| ==> weights[i] <= WEIGHT_ONE)
    }
  }

  predicate ValidBin(b: Bin) {
    TickMath.InRange(b.lo) && TickMath.InRange(b.hi) && b.lo < b.hi
  }

  /** Distinct ticks have distinct prices, so every bin has width and no division is by zero. */
  lemma BinHasWidth(b: Bin)
    requires ValidBin(b)
    ensures 0 < TickMath.SqrtPrice(b.lo) < TickMath.SqrtPrice(b.hi)
  {
    TickMath.PriceBounds(b.lo);
    TickMath.StrictlyIncreasing(b.lo, b.hi);
  }

  /** What liquidity l in a bin costs at price p. */
  function Cost(p: nat, b: Bin, l: nat): Amounts
    requires 0 < p && ValidBin(b)
  {
    BinHasWidth(b);
    AmountsForLiquidity(p, TickMath.SqrtPrice(b.lo), TickMath.SqrtPrice(b.hi), l)
  }

  function UnitLiquidity(weight: nat): nat {
    weight * UNIT / WEIGHT_ONE
  }

  function UnitCost(s: Shape, i: nat): Amounts
    requires s.Valid() && i < |s.bins|
  {
    Cost(s.sqrtP, s.bins[i], UnitLiquidity(s.weights[i]))
  }

  /** What the first n bins of the unscaled shape cost. */
  function Need(s: Shape, n: nat): Amounts
    requires s.Valid() && n <= |s.bins|
    decreases n
  {
    if n == 0 then Amounts(0, 0)
    else
      var before, last := Need(s, n - 1), UnitCost(s, n - 1);
      Amounts(before.amount0 + last.amount0, before.amount1 + last.amount1)
  }

  /** A token the shape does not need cannot bind; otherwise the scarcer token does. */
  function Consider(scale: Scale, budget: nat, need: nat, side: Side): Scale {
    if need == 0 then scale
    else if scale.limitedBy.NoSide? || budget * scale.den < scale.num * need then Scale(budget, need, side)
    else scale
  }

  function BindingScale(need: Amounts, budget0: nat, budget1: nat): Scale {
    Consider(Consider(Scale(0, 1, NoSide), budget0, need.amount0, Token0), budget1, need.amount1, Token1)
  }

  function ScaledLiquidity(weight: nat, scale: Scale): nat
    requires scale.den > 0
  {
    if scale.limitedBy.NoSide? then 0 else MulDiv(UnitLiquidity(weight), scale.num, scale.den)
  }

  function MinAfterSlippage(amount: nat, slip: nat): (m: nat)
    requires slip <= 5000
  {
    amount * (10_000 - slip) / 10_000
  }

  function MakeRung(s: Shape, i: nat, l: nat): Rung
    requires s.Valid() && i < |s.bins|
  {
    var a := Cost(s.sqrtP, s.bins[i], l);
    Rung(s.bins[i].lo, s.bins[i].hi, a.amount0, a.amount1,
         MinAfterSlippage(a.amount0, s.slip), MinAfterSlippage(a.amount1, s.slip), l, s.weights[i])
  }

  /** The rungs of the first n bins at a scale, with their totals. */
  function BuildTo(s: Shape, scale: Scale, n: nat): Built
    requires s.Valid() && n <= |s.bins| && scale.den > 0
    decreases n
  {
    if n == 0 then Built([], 0, 0)
    else
      var before := BuildTo(s, scale, n - 1);
      var l := ScaledLiquidity(s.weights[n - 1], scale);
      var a := Cost(s.sqrtP, s.bins[n - 1], l);
      if l == 0 || (a.amount0 == 0 && a.amount1 == 0) then before
      else Built(before.rungs + [MakeRung(s, n - 1, l)], before.total0 + a.amount0, before.total1 + a.amount1)
  }

  function Build(s: Shape, scale: Scale): Built
    requires s.Valid() && scale.den > 0
  {
    BuildTo(s, scale, |s.bins|)
  }

  predicate Over(built: Built, budget0: nat, budget1: nat) {
    built.total0 > budget0 || built.total1 > budget1
  }

  function Shave(scale: Scale): Scale {
    Scale(scale.num * 999_999, scale.den * 1_000_000, scale.limitedBy)
  }

  function Halve(scale: Scale): Scale {
    Scale(scale.num, scale.den * 2, scale.limitedBy)
  }

  /** The shaving loop: the scale it stops at, given the passes it has left. */
  function Shaved(s: Shape, scale: Scale, budget0: nat, budget1: nat, passes: nat): (r: Scale)
    requires s.Valid() && scale.den > 0
    ensures r.den > 0
    decreases passes
  {
    if passes == 0 || !Over(Build(s, scale), budget0, budget1) then scale
    else Shaved(s, Shave(scale), budget0, budget1, passes - 1)
  }

  /** The halving loop: it also stops when no rung is left. */
  function Halved(s: Shape, scale: Scale, budget0: nat, budget1: nat, passes: nat): (r: Scale)
    requires s.Valid() && scale.den > 0
    ensures r.den > 0
    decreases passes
  {
    var built := Build(s, scale);
    if passes == 0 || !Over(built, budget0, budget1) || built.rungs == [] then scale
    else Halved(s, Halve(scale), budget0, budget1, passes - 1)
  }

  /** The scale the planner settles on. */
  function FinalScale(s: Shape, budget0: nat, budget1: nat): (r: Scale)
    requires s.Valid()
    ensures r.den > 0
  {
    var start := BindingScale(Need(s, |s.bins|), budget0, budget1);
    Halved(s, Shaved(s, start, budget0, budget1, SHAVE_PASSES), budget0, budget1, HALVE_PASSES)
  }

  // ------------------------------------------- how cost reacts to scale

  /** A token's cost of scaled-down liquidity: at most the scaled cost plus one unit of rounding. */
  lemma CeilScales(l: nat, m: nat, g: nat, w: nat, num: nat, den: nat)
    requires 0 < w && 0 < den && m * den <= l * num
    ensures CeilDiv(m * g, w) * den <= CeilDiv(l * g, w) * num + den
  {
    var x, y := CeilDiv(m * g, w), CeilDiv(l * g, w);
    CeilAtLeast(m * g, w);
    CeilAtLeast(l * g, w);
    ScaledProducts(l, m, g, w, num, den, x, y);
  }

  lemma ScaledProducts(l: nat, m: nat, g: nat, w: nat, num: nat, den: nat, x: nat, y: nat)
    requires 0 < w && m * den <= l * num
    requires x * w <= m * g + w && l * g <= y * w
    ensures x * den <= y * num + den
  {
    MulLe(x * w, m * g + w, den);
    MulLe(m * den, l * num, g);
    MulLe(l * g, y * w, num);
    Swap(x, w, den);
    Distribute(m * g, w, den);
    Swap(m, g, den);
    Swap(l, num, g);
    Swap(y, w, num);
    Distribute(y * num, den, w);
    Cancel(x * den, y * num + den, w);
  }

  /** Positive liquidity over a positive width costs at least one unit. */
  lemma CeilPositive(l: nat, g: nat, w: nat)
    requires 0 < w
    ensures CeilDiv(l * g, w) == 0 <==> l == 0 || g == 0
  {
    CeilFits(l * g, w, 0);
    if 0 < l && 0 < g {
      MulLe(1, l, g);
    }
  }

  /** One bin, both tokens: scaled cost is bounded, and a token absent at unit scale stays absent. */
  lemma CostScales(p: nat, b: Bin, l: nat, m: nat, num: nat, den: nat)
    requires 0 < p && ValidBin(b) && 0 < den
    requires m * den <= l * num
    ensures var unit, scaled := Cost(p, b, l), Cost(p, b, m);
            && scaled.amount0 * den <= unit.amount0 * num + (if unit.amount0 > 0 then den else 0)
            && scaled.amount1 * den <= unit.amount1 * num + (if unit.amount1 > 0 then den else 0)
  {
    BinHasWidth(b);
    hide TickMath.SqrtPrice, AmountsForLiquidity;
    AmountsScale(p, TickMath.SqrtPrice(b.lo), TickMath.SqrtPrice(b.hi), l, m, num, den);
  }

  lemma AmountsScale(p: nat, lo: nat, hi: nat, l: nat, m: nat, num: nat, den: nat)
    requires 0 < p && 0 < lo < hi && 0 < den
    requires m * den <= l * num
    ensures var unit, scaled := AmountsForLiquidity(p, lo, hi, l), AmountsForLiquidity(p, lo, hi, m);
            && scaled.amount0 * den <= unit.amount0 * num + (if unit.amount0 > 0 then den else 0)
            && scaled.amount1 * den <= unit.amount1 * num + (if unit.amount1 > 0 then den else 0)
  {
    hide Amount0For, Amount1For;
    if l == 0 && m > 0 { MulLe(1, m, den); }
    if l > 0 && m > 0 {
      if p <= lo {
        Amount0Scales(lo, hi, l, m, num, den);
      } else if p >= hi {
        Amount1Scales(lo, hi, l, m, num, den);
      } else {
        Amount0Scales(p, hi, l, m, num, den);
        Amount1Scales(lo, p, l, m, num, den);
      }
    }
  }

  lemma Amount0Scales(a: nat, b: nat, l: nat, m: nat, num: nat, den: nat)
    requires 0 < a < b && 0 < den && 0 < l && m * den <= l * num
    ensures 0 < Amount0For(a, b, l)
    ensures Amount0For(a, b, m) * den <= Amount0For(a, b, l) * num + den
  {
    var g := Q96 * (b - a);
    assert l * Q96 * (b - a) == l * g && m * Q96 * (b - a) == m * g;
    CeilScales(l, m, g, b * a, num, den);
    CeilPositive(l, g, b * a);
  }

  lemma Amount1Scales(a: nat, b: nat, l: nat, m: nat, num: nat, den: nat)
    requires 0 < a < b && 0 < den && 0 < l && m * den <= l * num
    ensures 0 < Amount1For(a, b, l)
    ensures Amount1For(a, b, m) * den <= Amount1For(a, b, l) * num + den
  {
    CeilScales(l, m, b - a, Q96, num, den);
    CeilPositive(l, b - a, Q96);
  }

  // ------------------------------------------------- totals under scale

  /** How many of the first n bins hold each token. */
  function Holders(s: Shape, n: nat): Amounts
    requires s.Valid() && n <= |s.bins|
    decreases n
  {
    if n == 0 then Amounts(0, 0)
    else
      var before, last := Holders(s, n - 1), UnitCost(s, n - 1);
      Amounts(before.amount0 + One(last.amount0),
              before.amount1 + One(last.amount1))
  }

  lemma {:induction false} HoldersBounded(s: Shape, n: nat)
    requires s.Valid() && n <= |s.bins|
    ensures Holders(s, n).amount0 <= n && Holders(s, n).amount0 <= Need(s, n).amount0
    ensures Holders(s, n).amount1 <= n && Holders(s, n).amount1 <= Need(s, n).amount1
    decreases n
  {
    hide UnitCost;
    if n > 0 {
      HoldersBounded(s, n - 1);
    }
  }

  /** The bound rounding respects: the scaled need plus one unit for each of k bins. */
  predicate Within(total: nat, need: nat, k: nat, scale: Scale) {
    total * scale.den <= need * scale.num + k * scale.den
  }

  function One(amount: nat): nat {
    if amount > 0 then 1 else 0
  }

  lemma AddWithin(t: nat, need: nat, k: nat, x: nat, unit: nat, j: nat, scale: Scale)
    requires Within(t, need, k, scale) && Within(x, unit, j, scale)
    ensures Within(t + x, need + unit, k + j, scale)
  {
  }

  lemma BinWithin(s: Shape, scale: Scale, i: nat)
    requires s.Valid() && i < |s.bins| && scale.den > 0
    ensures var scaled := Cost(s.sqrtP, s.bins[i], ScaledLiquidity(s.weights[i], scale));
            && Within(scaled.amount0, UnitCost(s, i).amount0, One(UnitCost(s, i).amount0), scale)
            && Within(scaled.amount1, UnitCost(s, i).amount1, One(UnitCost(s, i).amount1), scale)
  {
    var l, m := UnitLiquidity(s.weights[i]), ScaledLiquidity(s.weights[i], scale);
    if !scale.limitedBy.NoSide? {
      MulDivFloor(l, scale.num, scale.den);
    }
    hide MulDiv, Cost;
    CostScales(s.sqrtP, s.bins[i], l, m, scale.num, scale.den);
  }

  /** Skipped bins cost nothing, so each bin adds exactly its cost to the totals. */
  lemma TotalsStep(s: Shape, scale: Scale, n: nat)
    requires s.Valid() && 0 < n <= |s.bins| && scale.den > 0
    ensures var a := Cost(s.sqrtP, s.bins[n - 1], ScaledLiquidity(s.weights[n - 1], scale));
            && BuildTo(s, scale, n).total0 == BuildTo(s, scale, n - 1).total0 + a.amount0
            && BuildTo(s, scale, n).total1 == BuildTo(s, scale, n - 1).total1 + a.amount1
  {
    assert Cost(s.sqrtP, s.bins[n - 1], 0) == Amounts(0, 0);
    hide Cost;
  }

  ghost predicate TotalsBounded(s: Shape, scale: Scale, n: nat)
    requires s.Valid() && n <= |s.bins| && scale.den > 0
  {
    var built, need, k := BuildTo(s, scale, n), Need(s, n), Holders(s, n);
    && Within(built.total0, need.amount0, k.amount0, scale)
    && Within(built.total1, need.amount1, k.amount1, scale)
  }

  lemma TotalsBoundedStep(s: Shape, scale: Scale, n: nat)
    requires s.Valid() && 0 < n <= |s.bins| && scale.den > 0
    requires TotalsBounded(s, scale, n - 1)
    ensures TotalsBounded(s, scale, n)
  {
    hide Cost, UnitCost, Within, ScaledLiquidity, BuildTo;
    TotalsStep(s, scale, n);
    BinWithin(s, scale, n - 1);
    var before, need, k := BuildTo(s, scale, n - 1), Need(s, n - 1), Holders(s, n - 1);
    var unit, scaled := UnitCost(s, n - 1), Cost(s.sqrtP, s.bins[n - 1], ScaledLiquidity(s.weights[n - 1], scale));
    AddWithin(before.total0, need.amount0, k.amount0, scaled.amount0, unit.amount0, One(unit.amount0), scale);
    AddWithin(before.total1, need.amount1, k.amount1, scaled.amount1, unit.amount1, One(unit.amount1), scale);
  }

  /** Totals at a scale: the scaled need plus at most one unit of rounding per holding bin. */
  lemma {:induction false} TotalsWithin(s: Shape, scale: Scale, n: nat)
    requires s.Valid() && n <= |s.bins| && scale.den > 0
    ensures TotalsBounded(s, scale, n)
    decreases n
  {
    if n > 0 {
      TotalsWithin(s, scale, n - 1);
      TotalsBoundedStep(s, scale, n);
    }
  }

  // -------------------------------------------------- the planner's scale

  /** The scale never asks for more than either budget, before rounding. */
  predicate Affordable(scale: Scale, need: Amounts, budget0: nat, budget1: nat) {
    && scale.num * need.amount0 <= budget0 * scale.den
    && scale.num * need.amount1 <= budget1 * scale.den
  }

  /** The scale is the largest affordable one: the binding token's budget is asked for in full. */
  lemma BindingScaleIsLargest(need: Amounts, budget0: nat, budget1: nat)
    ensures var r := BindingScale(need, budget0, budget1);
            && r.den > 0
            && Affordable(r, need, budget0, budget1)
            && (r.limitedBy.NoSide? <==> need == Amounts(0, 0))
            && (r.limitedBy.Token0? ==> need.amount0 > 0 && r.num * need.amount0 == budget0 * r.den)
            && (r.limitedBy.Token1? ==> need.amount1 > 0 && r.num * need.amount1 == budget1 * r.den)
  {
  }

  /** Shaving and halving only shrink the scale. */
  lemma SmallerStaysAffordable(scale: Scale, need: Amounts, budget0: nat, budget1: nat)
    requires Affordable(scale, need, budget0, budget1)
    ensures Affordable(Shave(scale), need, budget0, budget1)
    ensures Affordable(Halve(scale), need, budget0, budget1)
  {
    Shrunk(scale.num, need.amount0, budget0, scale.den);
    Shrunk(scale.num, need.amount1, budget1, scale.den);
  }

  lemma Shrunk(num: nat, need: nat, budget: nat, den: nat)
    requires num * need <= budget * den
    ensures (num * 999_999) * need <= budget * (den * 1_000_000)
    ensures num * need <= budget * (den * 2)
  {
    assert (num * 999_999) * need == (num * need) * 999_999;
    assert budget * (den * 1_000_000) == (budget * den) * 1_000_000;
    assert budget * (den * 2) == (budget * den) * 2;
  }

  // --------------------------------------------------- halving suffices

  /** At twice the need or more, one halving leaves room for every bin's rounding. */
  lemma HalfLeavesRoom(total: nat, need: nat, k: nat, budget: nat, half: Scale, scale: Scale)
    requires 0 < scale.den && half.num == scale.num && 2 * scale.den <= half.den
    requires scale.num * need <= budget * scale.den
    requires 2 * scale.den <= scale.num && k <= need
    requires Within(total, need, k, half)
    ensures total <= budget
  {
    var n, d, e := scale.num, scale.den, half.den;
    assert 2 * need <= budget by {
      MulLe(2 * d, n, need);
      assert (2 * need) * d == 2 * d * need;
      Cancel(2 * need, budget, d);
    }
    calc {
      (2 * total) * e;
    <= { assert total * e <= need * n + k * e; }
      2 * (need * n) + 2 * (k * e);
    <= { MulLe(k, need, e); }
      2 * (budget * d) + 2 * (need * e);
    <= { MulLe(2 * d, e, budget); MulLe(2 * need, budget, e); }
      (2 * budget) * e;
    }
    Cancel(2 * total, 2 * budget, e);
  }

  /** Below twice the need, 61 halvings leave no liquidity at all. */
  lemma NothingLeft(weight: nat, small: Scale, scale: Scale)
    requires weight <= WEIGHT_ONE && 0 < scale.den
    requires small.num == scale.num < 2 * scale.den
    requires 0x2000_0000_0000_0000 * scale.den <= small.den
    ensures ScaledLiquidity(weight, small) == 0
  {
    var l := UnitLiquidity(weight);
    assert l <= UNIT;
    MulLe(l, UNIT, small.num);
    assert l * small.num < small.den;
    FitsQuotient(1, l * small.num, small.den);
    assert MulDiv(l, small.num, small.den) == l * small.num / small.den;
  }

  lemma {:induction false} NoRungs(s: Shape, small: Scale, scale: Scale, n: nat)
    requires s.Valid() && n <= |s.bins| && 0 < scale.den
    requires small.num == scale.num < 2 * scale.den
    requires 0x2000_0000_0000_0000 * scale.den <= small.den
    ensures BuildTo(s, small, n) == Built([], 0, 0)
    decreases n
  {
    if n > 0 {
      NoRungs(s, small, scale, n - 1);
      NothingLeft(s.weights[n - 1], small, scale);
    }
  }

  /** Whatever the budgets: 61 halvings of an affordable scale always fit. */
  lemma SixtyOneHalvingsFit(s: Shape, scale: Scale, small: Scale, budget0: nat, budget1: nat)
    requires s.Valid() && 0 < scale.den
    requires Affordable(scale, Need(s, |s.bins|), budget0, budget1)
    requires small.num == scale.num && 0x2000_0000_0000_0000 * scale.den <= small.den
    ensures !Over(Build(s, small), budget0, budget1)
  {
    if small.num < 2 * scale.den {
      NoRungs(s, small, scale, |s.bins|);
    } else {
      hide Need, Holders, BuildTo, Within;
      var built, need, k := Build(s, small), Need(s, |s.bins|), Holders(s, |s.bins|);
      TotalsWithin(s, small, |s.bins|);
      HoldersBounded(s, |s.bins|);
      HalfLeavesRoom(built.total0, need.amount0, k.amount0, budget0, small, scale);
      HalfLeavesRoom(built.total1, need.amount1, k.amount1, budget1, small, scale);
    }
  }

  lemma {:induction false} EmptyCostsNothing(s: Shape, scale: Scale, n: nat)
    requires s.Valid() && n <= |s.bins| && scale.den > 0
    requires BuildTo(s, scale, n).rungs == []
    ensures BuildTo(s, scale, n) == Built([], 0, 0)
    decreases n
  {
    if n > 0 {
      EmptyCostsNothing(s, scale, n - 1);
    }
  }

  lemma {:induction false} ShavedStaysAffordable(s: Shape, scale: Scale, budget0: nat, budget1: nat, passes: nat)
    requires s.Valid() && scale.den > 0 && Affordable(scale, Need(s, |s.bins|), budget0, budget1)
    ensures Affordable(Shaved(s, scale, budget0, budget1, passes), Need(s, |s.bins|), budget0, budget1)
    decreases passes
  {
    hide Need, BuildTo, Affordable;
    if passes > 0 && Over(Build(s, scale), budget0, budget1) {
      SmallerStaysAffordable(scale, Need(s, |s.bins|), budget0, budget1);
      ShavedStaysAffordable(s, Shave(scale), budget0, budget1, passes - 1);
    }
  }

  /** How often the halving loop runs. */
  function Halvings(s: Shape, scale: Scale, budget0: nat, budget1: nat, passes: nat): nat
    requires s.Valid() && scale.den > 0
    decreases passes
  {
    var built := Build(s, scale);
    if passes == 0 || !Over(built, budget0, budget1) || built.rungs == [] then 0
    else 1 + Halvings(s, Halve(scale), budget0, budget1, passes - 1)
  }

  /** From a scale already halved `done` times: the loop ends within budget, never past 61 halvings. */
  lemma {:induction false} HalvedFits(s: Shape, start: Scale, scale: Scale, budget0: nat, budget1: nat, done: nat)
    requires s.Valid() && start.den > 0 && done <= 61
    requires Affordable(start, Need(s, |s.bins|), budget0, budget1)
    requires scale.num == start.num && scale.den == start.den * Pow2(done)
    ensures !Over(Build(s, Halved(s, scale, budget0, budget1, HALVE_PASSES - done)), budget0, budget1)
    ensures done + Halvings(s, scale, budget0, budget1, HALVE_PASSES - done) <= 61
    decreases 61 - done
  {
    hide BuildTo, Need, Affordable, Pow2;
    if Over(Build(s, scale), budget0, budget1) {
      DoubledAgain(start.den, done);
      if done == 61 {
        SixtyOneHalvingsAre();
        SixtyOneHalvingsFit(s, start, scale, budget0, budget1);
      } else if Build(s, scale).rungs == [] {
        EmptyCostsNothing(s, scale, |s.bins|);
      } else {
        HalvedFits(s, start, Halve(scale), budget0, budget1, done + 1);
      }
    }
  }

  lemma DoubledAgain(d: nat, done: nat)
    ensures d * Pow2(done + 1) == d * Pow2(done) * 2
  {
  }

  lemma SixtyOneHalvingsAre()
    ensures Pow2(61) == 0x2000_0000_0000_0000
  {
    assert Pow2(10) == 0x400;
    assert Pow2(20) == 0x10_0000;
    assert Pow2(30) == 0x4000_0000;
    assert Pow2(40) == 0x100_0000_0000;
    assert Pow2(50) == 0x4_0000_0000_0000;
  }

  /**
   * The planner never plans more than either budget, for all budgets, prices,
   * ranges and weights: the two repair loops always end with a plan that fits.
   */
  lemma PlanFits(s: Shape, budget0: nat, budget1: nat)
    requires s.Valid()
    ensures !Over(Build(s, FinalScale(s, budget0, budget1)), budget0, budget1)
  {
    hide Need, BuildTo, Shaved, Halved, BindingScale, Affordable;
    assert Pow2(0) == 1;
    var need := Need(s, |s.bins|);
    var start := BindingScale(need, budget0, budget1);
    BindingScaleIsLargest(need, budget0, budget1);
    ShavedStaysAffordable(s, start, budget0, budget1, SHAVE_PASSES);
    var shaved := Shaved(s, start, budget0, budget1, SHAVE_PASSES);
    HalvedFits(s, shaved, shaved, budget0, budget1, 0);
  }

  // ------------------------------------------- when the loops stop

  /** A millionth less, so many times. */
  function ShavedTimes(scale: Scale, times: nat): (r: Scale)
    ensures scale.den > 0 ==> r.den > 0
  {
    if times == 0 then scale
    else
      var before := ShavedTimes(scale, times - 1);
      Scale(before.num * 999_999, before.den * 1_000_000, before.limitedBy)
  }

  /** Half, so many times. */
  function HalvedTimes(scale: Scale, times: nat): (r: Scale)
    ensures scale.den > 0 ==> r.den > 0
  {
    if times == 0 then scale
    else
      var before := HalvedTimes(scale, times - 1);
      Scale(before.num, before.den * 2, before.limitedBy)
  }

  lemma {:induction false} OneShaveFirst(scale: Scale, times: nat)
    ensures ShavedTimes(Shave(scale), times) == ShavedTimes(scale, times + 1)
  {
    if times > 0 { OneShaveFirst(scale, times - 1); }
  }

  lemma {:induction false} OneHalfFirst(scale: Scale, times: nat)
    ensures HalvedTimes(Halve(scale), times) == HalvedTimes(scale, times + 1)
  {
    if times > 0 { OneHalfFirst(scale, times - 1); }
  }

  lemma {:induction false} ShavesUntilFits(s: Shape, scale: Scale, budget0: nat, budget1: nat, passes: nat) returns (times: nat)
    requires s.Valid() && scale.den > 0
    ensures times <= passes && Shaved(s, scale, budget0, budget1, passes) == ShavedTimes(scale, times)
    ensures forall k :: 0 <= k < times ==> Over(Build(s, ShavedTimes(scale, k)), budget0, budget1)
    ensures times < passes ==> !Over(Build(s, ShavedTimes(scale, times)), budget0, budget1)
    decreases passes
  {
    hide BuildTo;
    times := 0;
    if passes > 0 && Over(Build(s, scale), budget0, budget1) {
      var more := ShavesUntilFits(s, Shave(scale), budget0, budget1, passes - 1);
      times := more + 1;
      OneShaveFirst(scale, more);
      forall k | 0 <= k < times ensures Over(Build(s, ShavedTimes(scale, k)), budget0, budget1) {
        if k > 0 { OneShaveFirst(scale, k - 1); }
      }
    }
  }

  lemma {:induction false} HalvesUntilFits(s: Shape, scale: Scale, budget0: nat, budget1: nat, passes: nat) returns (times: nat)
    requires s.Valid() && scale.den > 0
    ensures times <= passes && Halved(s, scale, budget0, budget1, passes) == HalvedTimes(scale, times)
    ensures forall k :: 0 <= k < times ==>
              Over(Build(s, HalvedTimes(scale, k)), budget0, budget1) && Build(s, HalvedTimes(scale, k)).rungs != []
    ensures times < passes ==>
              !Over(Build(s, HalvedTimes(scale, times)), budget0, budget1) || Build(s, HalvedTimes(scale, times)).rungs == []
    decreases passes
  {
    hide BuildTo;
    times := 0;
    if passes > 0 && Over(Build(s, scale), budget0, budget1) && Build(s, scale).rungs != [] {
      var more := HalvesUntilFits(s, Halve(scale), budget0, budget1, passes - 1);
      times := more + 1;
      OneHalfFirst(scale, more);
      forall k | 0 <= k < times
        ensures Over(Build(s, HalvedTimes(scale, k)), budget0, budget1) && Build(s, HalvedTimes(scale, k)).rungs != []
      {
        if k > 0 { OneHalfFirst(scale, k - 1); }
      }
    }
  }

  /**
   * Which scale the planner settles on: the first, from the binding one on,
   * that is within both budgets, a millionth less each time up to eight
   * times, and only then half of it each time. It never goes on from a scale
   * that fits.
   */
  lemma FirstThatFits(s: Shape, budget0: nat, budget1: nat) returns (shaves: nat, halves: nat)
    requires s.Valid()
    ensures var start := BindingScale(Need(s, |s.bins|), budget0, budget1);
            var shaved := ShavedTimes(start, shaves);
            && shaves <= 8 && halves <= 61 && (halves > 0 ==> shaves == 8) && start.den > 0
            && FinalScale(s, budget0, budget1) == HalvedTimes(shaved, halves)
            && !Over(Build(s, HalvedTimes(shaved, halves)), budget0, budget1)
            && (forall k :: 0 <= k < shaves ==> Over(Build(s, ShavedTimes(start, k)), budget0, budget1))
            && (forall k :: 0 <= k < halves ==> Over(Build(s, HalvedTimes(shaved, k)), budget0, budget1))
  {
    hide Need, BuildTo, Shaved, Halved, BindingScale, Affordable, Over;
    assert Pow2(0) == 1;
    var need := Need(s, |s.bins|);
    var start := BindingScale(need, budget0, budget1);
    BindingScaleIsLargest(need, budget0, budget1);
    PlanFits(s, budget0, budget1);
    shaves := ShavesUntilFits(s, start, budget0, budget1, SHAVE_PASSES);
    var shaved := Shaved(s, start, budget0, budget1, SHAVE_PASSES);
    halves := HalvesUntilFits(s, shaved, budget0, budget1, HALVE_PASSES);
    if halves > 0 { assert HalvedTimes(shaved, 0) == shaved; }
    ShavedStaysAffordable(s, start, budget0, budget1, SHAVE_PASSES);
    AtMostSixtyOne(s, shaved, budget0, budget1, halves);
  }

  lemma {:induction false} DenAfter(scale: Scale, times: nat)
    ensures HalvedTimes(scale, times) == Scale(scale.num, scale.den * Pow2(times), scale.limitedBy)
  {
    if times > 0 {
      DenAfter(scale, times - 1);
      DoubledAgain(scale.den, times - 1);
    }
  }

  lemma AtMostSixtyOne(s: Shape, scale: Scale, budget0: nat, budget1: nat, halves: nat)
    requires s.Valid() && scale.den > 0 && Affordable(scale, Need(s, |s.bins|), budget0, budget1)
    requires forall k :: 0 <= k < halves ==> Over(Build(s, HalvedTimes(scale, k)), budget0, budget1)
    ensures halves <= 61
  {
    if 61 < halves {
      DenAfter(scale, 61);
      SixtyOneHalvingsAre();
      SixtyOneHalvingsFit(s, scale, HalvedTimes(scale, 61), budget0, budget1);
      assert false;
    }
  }

  // ------------------------------------------- ordinary budgets are spent

  /** A budget large enough that one shave outweighs every bin's rounding. */
  predicate Ample(need: nat, budget: nat) {
    need == 0 || MAX_BINS * 1_000_000 <= budget
  }

  lemma ShaveLeavesRoom(total: nat, need: nat, k: nat, budget: nat, scale: Scale)
    requires 0 < scale.den && k <= need && k <= MAX_BINS
    requires scale.num * need <= budget * scale.den && Ample(need, budget)
    requires Within(total, need, k, Shave(scale))
    ensures total <= budget
  {
    var n, d := scale.num, scale.den;
    if need == 0 {
      Cancel(total, 0, d * 1_000_000);
    } else {
      calc {
        total * (d * 1_000_000);
      <=
        need * (n * 999_999) + k * (d * 1_000_000);
        (n * need) * 999_999 + (k * 1_000_000) * d;
      <= { MulLe(k * 1_000_000, budget, d); }
        (budget * d) * 999_999 + budget * d;
        budget * (d * 1_000_000);
      }
      Cancel(total, budget, d * 1_000_000);
    }
  }

  /** With ample budgets the planner stops at the binding scale or one shave below it, and never halves. */
  lemma AmpleNeedsOneShave(s: Shape, budget0: nat, budget1: nat)
    requires s.Valid()
    requires Ample(Need(s, |s.bins|).amount0, budget0) && Ample(Need(s, |s.bins|).amount1, budget1)
    ensures var start := BindingScale(Need(s, |s.bins|), budget0, budget1);
            FinalScale(s, budget0, budget1) == if Over(Build(s, start), budget0, budget1) then Shave(start) else start
  {
    hide Need, BuildTo, Holders, Within, BindingScale;
    var need, k := Need(s, |s.bins|), Holders(s, |s.bins|);
    var start := BindingScale(need, budget0, budget1);
    BindingScaleIsLargest(need, budget0, budget1);
    TotalsWithin(s, Shave(start), |s.bins|);
    HoldersBounded(s, |s.bins|);
    var built := Build(s, Shave(start));
    ShaveLeavesRoom(built.total0, need.amount0, k.amount0, budget0, start);
    ShaveLeavesRoom(built.total1, need.amount1, k.amount1, budget1, start);
    assert Shaved(s, start, budget0, budget1, SHAVE_PASSES)
        == if Over(Build(s, start), budget0, budget1) then Shave(start) else start;
  }
}
