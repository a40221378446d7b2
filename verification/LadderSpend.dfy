// The other half of the planner's promise: it does not merely stay within the
// budgets, it spends the binding one, up to rounding it states exactly.
module LadderSpend {
  import opened Common
  import opened Liquidity
  import opened Ladder
  import TickMath

  /**
   * A lower bound on a total: the scaled need, less one scaled unit for each of
   * k holding bins, less a billionth of the need.
   */
  predicate Spends(total: nat, need: nat, k: nat, scale: Scale) {
    need * scale.num * WEIGHT_ONE <= total * scale.den * WEIGHT_ONE + need * scale.den + k * scale.num * WEIGHT_ONE
  }

  lemma AddSpends(t: nat, need: nat, k: nat, x: nat, unit: nat, j: nat, scale: Scale)
    requires Spends(t, need, k, scale) && Spends(x, unit, j, scale)
    ensures Spends(t + x, need + unit, k + j, scale)
  {
    assert (t + x) * scale.den == t * scale.den + x * scale.den;
    assert (need + unit) * scale.den == need * scale.den + unit * scale.den;
    assert (need + unit) * scale.num == need * scale.num + unit * scale.num;
    assert (k + j) * scale.num == k * scale.num + j * scale.num;
  }

  /** Rounding down the liquidity and up the cost: what one bin loses. */
  lemma CeilSpends(l: nat, m: nat, g: nat, w: nat, scale: Scale)
    requires 0 < w && 0 < scale.den && WEIGHT_ONE <= l
    requires l * scale.num <= m * scale.den + scale.den
    ensures Spends(CeilDiv(m * g, w), CeilDiv(l * g, w), 1, scale)
  {
    var x, y, n, d := CeilDiv(m * g, w), CeilDiv(l * g, w), scale.num, scale.den;
    CeilAtLeast(m * g, w);
    CeilAtLeast(l * g, w);
    SpendsProduct(x, y, l, m, g, w, n, d);
  }

  lemma SpendsProduct(x: nat, y: nat, l: nat, m: nat, g: nat, w: nat, n: nat, d: nat)
    requires 0 < w && WEIGHT_ONE <= l && l * n <= m * d + d
    requires m * g <= x * w && l * g <= y * w <= l * g + w
    ensures y * n * WEIGHT_ONE <= x * d * WEIGHT_ONE + y * d + n * WEIGHT_ONE
  {
    var one := WEIGHT_ONE;
    SpendsUpper(x, y, l, m, g, w, n, d);
    // g*one*d <= g*l*d <= y*w*d
    MulLe(one, l, g);
    MulLe(l * g, y * w, d);
    MulLe(one * g, l * g, d);
    Swap(one, g, d);
    SpendsLinear(y * w * n, g * d, x * w * d, w * n, y * w * d, one);
    SpendsCancel(x, y, w, n, d, one);
  }

  /** y*w*n <= l*g*n + w*n <= (m*d + d)*g + w*n. */
  lemma SpendsUpper(x: nat, y: nat, l: nat, m: nat, g: nat, w: nat, n: nat, d: nat)
    requires l * n <= m * d + d && m * g <= x * w && y * w <= l * g + w
    ensures y * w * n <= x * w * d + g * d + w * n
  {
    MulLe(y * w, l * g + w, n);
    Distribute(l * g, w, n);
    Swap(l, g, n);
    MulLe(l * n, m * d + d, g);
    Distribute(m * d, d, g);
    Swap(m, d, g);
    MulLe(m * g, x * w, d);
  }

  lemma SpendsCancel(x: nat, y: nat, w: nat, n: nat, d: nat, one: nat)
    requires 0 < w && y * w * n * one <= x * w * d * one + y * w * d + w * n * one
    ensures y * n * one <= x * d * one + y * d + n * one
  {
    Swap(y, w, n);
    Swap(x, w, d);
    Swap(y, w, d);
    Distribute(x * d * one + y * d, n * one, w);
    Distribute(x * d * one, y * d, w);
    Swap(x * d, one, w);
    Swap(y * n, one, w);
    Swap(n, one, w);
    Cancel(y * n * one, x * d * one + y * d + n * one, w);
  }

  lemma SpendsLinear(ywn: int, gd: int, xwd: int, wn: int, ywd: int, one: int)
    requires one == WEIGHT_ONE && ywn <= xwd + gd + wn && one * gd <= ywd
    ensures ywn * one <= xwd * one + ywd + wn * one
  {
  }

  lemma NothingNeeded(x: nat, scale: Scale)
    ensures Spends(x, 0, 0, scale)
  {
  }

  lemma Amount0Spends(a: nat, b: nat, l: nat, m: nat, scale: Scale)
    requires 0 < a < b && 0 < scale.den && WEIGHT_ONE <= l && l * scale.num <= m * scale.den + scale.den
    ensures 0 < Amount0For(a, b, l)
    ensures Spends(Amount0For(a, b, m), Amount0For(a, b, l), 1, scale)
  {
    var g := Q96 * (b - a);
    assert l * Q96 * (b - a) == l * g && m * Q96 * (b - a) == m * g;
    CeilSpends(l, m, g, b * a, scale);
    CeilPositive(l, g, b * a);
  }

  lemma Amount1Spends(a: nat, b: nat, l: nat, m: nat, scale: Scale)
    requires 0 < a < b && 0 < scale.den && WEIGHT_ONE <= l && l * scale.num <= m * scale.den + scale.den
    ensures 0 < Amount1For(a, b, l)
    ensures Spends(Amount1For(a, b, m), Amount1For(a, b, l), 1, scale)
  {
    CeilSpends(l, m, b - a, Q96, scale);
    CeilPositive(l, b - a, Q96);
  }

  ghost predicate BothSpend(scaled: Amounts, need: Amounts, k: Amounts, scale: Scale) {
    Spends(scaled.amount0, need.amount0, k.amount0, scale) && Spends(scaled.amount1, need.amount1, k.amount1, scale)
  }

  lemma CostSpends(p: nat, b: Bin, l: nat, m: nat, scale: Scale)
    requires 0 < p && ValidBin(b) && 0 < scale.den
    requires WEIGHT_ONE <= l && l * scale.num <= m * scale.den + scale.den
    ensures var unit := Cost(p, b, l);
            BothSpend(Cost(p, b, m), unit, Amounts(One(unit.amount0), One(unit.amount1)), scale)
  {
    hide Spends, Amount0For, Amount1For;
    BinHasWidth(b);
    var lo, hi := TickMath.SqrtPrice(b.lo), TickMath.SqrtPrice(b.hi);
    NothingNeeded(0, scale);
    ZeroCosts(lo, hi, p);
    if p <= lo {
      Amount0Spends(lo, hi, l, m, scale);
    } else if p >= hi {
      Amount1Spends(lo, hi, l, m, scale);
    } else {
      Amount0Spends(p, hi, l, m, scale);
      Amount1Spends(lo, p, l, m, scale);
    }
  }

  lemma ZeroCosts(a: nat, b: nat, p: nat)
    requires 0 < a < b && 0 < p
    ensures Amount0For(a, b, 0) == 0 && Amount1For(a, b, 0) == 0
    ensures a < p < b ==> Amount0For(p, b, 0) == 0 && Amount1For(a, p, 0) == 0
  {
    CeilFits(0, b * a, 0);
    if a < p < b {
      CeilFits(0, b * p, 0);
    }
  }

  lemma BinSpends(s: Shape, scale: Scale, i: nat)
    requires s.Valid() && i < |s.bins| && scale.den > 0 && !scale.limitedBy.NoSide?
    ensures var unit := UnitCost(s, i);
            BothSpend(Cost(s.sqrtP, s.bins[i], ScaledLiquidity(s.weights[i], scale)), unit,
                      Amounts(One(unit.amount0), One(unit.amount1)), scale)
  {
    hide Cost, Spends;
    var l, m := UnitLiquidity(s.weights[i]), ScaledLiquidity(s.weights[i], scale);
    if l == 0 {
      assert UnitCost(s, i) == Amounts(0, 0) by { ZeroLiquidity(s.sqrtP, s.bins[i]); }
      NothingNeeded(Cost(s.sqrtP, s.bins[i], m).amount0, scale);
      NothingNeeded(Cost(s.sqrtP, s.bins[i], m).amount1, scale);
    } else {
      MulDivFloor(l, scale.num, scale.den);
      CostSpends(s.sqrtP, s.bins[i], l, m, scale);
    }
  }

  lemma ZeroLiquidity(p: nat, b: Bin)
    requires 0 < p && ValidBin(b)
    ensures Cost(p, b, 0) == Amounts(0, 0)
  {
  }

  lemma TotalsSpendStep(s: Shape, scale: Scale, n: nat)
    requires s.Valid() && 0 < n <= |s.bins| && scale.den > 0 && !scale.limitedBy.NoSide?
    requires var before := BuildTo(s, scale, n - 1);
             BothSpend(Amounts(before.total0, before.total1), Need(s, n - 1), Holders(s, n - 1), scale)
    ensures var built := BuildTo(s, scale, n);
            BothSpend(Amounts(built.total0, built.total1), Need(s, n), Holders(s, n), scale)
  {
    hide Cost, UnitCost, Spends, ScaledLiquidity, BuildTo;
    TotalsStep(s, scale, n);
    BinSpends(s, scale, n - 1);
    var before, need, k := BuildTo(s, scale, n - 1), Need(s, n - 1), Holders(s, n - 1);
    var unit, scaled := UnitCost(s, n - 1), Cost(s.sqrtP, s.bins[n - 1], ScaledLiquidity(s.weights[n - 1], scale));
    AddSpends(before.total0, need.amount0, k.amount0, scaled.amount0, unit.amount0, One(unit.amount0), scale);
    AddSpends(before.total1, need.amount1, k.amount1, scaled.amount1, unit.amount1, One(unit.amount1), scale);
  }

  lemma {:induction false} TotalsSpend(s: Shape, scale: Scale, n: nat)
    requires s.Valid() && n <= |s.bins| && scale.den > 0 && !scale.limitedBy.NoSide?
    ensures var built := BuildTo(s, scale, n);
            BothSpend(Amounts(built.total0, built.total1), Need(s, n), Holders(s, n), scale)
    decreases n
  {
    if n > 0 {
      TotalsSpend(s, scale, n - 1);
      TotalsSpendStep(s, scale, n);
    }
  }

  /**
   * The binding token's total, as a share of its budget: at least
   * 0.999999 * (1 - k/need), less need/10^9 units, where k <= 40 counts the
   * bins that hold the token and need is the cost of the unscaled shape.
   */
  predicate NearlySpent(total: nat, need: nat, k: nat, budget: nat) {
    (need - k) * 999_999 * WEIGHT_ONE * budget <= total * need * WEIGHT_ONE * 1_000_000 + need * need * 1_000_000
  }

  lemma ShortfallTimesNeed(total: nat, need: nat, k: nat, n: nat, d: nat)
    requires k <= need
    requires need * n * WEIGHT_ONE <= total * d * WEIGHT_ONE + need * d + k * n * WEIGHT_ONE
    ensures (need - k) * WEIGHT_ONE * (n * need) <= (total * need * WEIGHT_ONE + need * need) * d
  {
    var one := WEIGHT_ONE;
    DistributeMinus(need, k, n);
    // ((need - k)*n*one) * need <= (total*d*one + need*d) * need
    assert (need - k) * n == need * n - k * n;
    MulLe((need - k) * n * one, total * d * one + need * d, need);
    Distribute(total * d * one, need * d, need);
    Swap(total * d, one, need);
    Swap(total, d, need);
    Swap(need, d, need);
    Distribute(total * need * one, need * need, d);
    Swap(total * need, one, d);
    Swap(need - k, n, need);
    Swap((need - k) * n, one, need);
    Regroup(need - k, n, need, one);
  }

  lemma Regroup(a: int, n: int, need: int, one: int)
    ensures a * one * (n * need) == a * n * need * one
  {
    assert a * n * need == a * (n * need);
    Swap(a, one, n * need);
  }

  lemma BindingTokenSpent(total: nat, need: nat, k: nat, budget: nat, scale: Scale)
    requires 0 < scale.den && k <= need && Spends(total, need, k, scale)
    requires 999_999 * (budget * scale.den) <= scale.num * need * 1_000_000
    ensures NearlySpent(total, need, k, budget)
  {
    ShortfallTimesNeed(total, need, k, scale.num, scale.den);
    ShareOfBudget((need - k) * WEIGHT_ONE, budget, scale.den, scale.num * need, total * need * WEIGHT_ONE + need * need);
    assert (need - k) * 999_999 * WEIGHT_ONE * budget == (need - k) * WEIGHT_ONE * (999_999 * budget);
  }

  lemma ShareOfBudget(share: nat, budget: nat, d: nat, z: nat, spent: nat)
    requires 0 < d && share * z <= spent * d
    requires 999_999 * (budget * d) <= z * 1_000_000
    ensures share * (999_999 * budget) <= spent * 1_000_000
  {
    calc {
      share * (999_999 * budget) * d;
      (999_999 * (budget * d)) * share;
    <= { MulLe(999_999 * (budget * d), z * 1_000_000, share); }
      (share * z) * 1_000_000;
    <=
      (spent * 1_000_000) * d;
    }
    Cancel(share * (999_999 * budget), spent * 1_000_000, d);
  }

  /** With ample budgets the plan spends the budget of the token that binds it. */
  lemma BindingBudgetIsSpent(s: Shape, budget0: nat, budget1: nat)
    requires s.Valid()
    requires Ample(Need(s, |s.bins|).amount0, budget0) && Ample(Need(s, |s.bins|).amount1, budget1)
    ensures var need, k, scale := Need(s, |s.bins|), Holders(s, |s.bins|), FinalScale(s, budget0, budget1);
            var built := Build(s, scale);
            && k.amount0 <= MAX_BINS && k.amount1 <= MAX_BINS
            && (scale.limitedBy.NoSide? <==> need == Amounts(0, 0))
            && (scale.limitedBy.Token0? ==> NearlySpent(built.total0, need.amount0, k.amount0, budget0))
            && (scale.limitedBy.Token1? ==> NearlySpent(built.total1, need.amount1, k.amount1, budget1))
  {
    hide Need, Holders, BuildTo, Spends, NearlySpent, BindingScale, FinalScale;
    var need, k, scale := Need(s, |s.bins|), Holders(s, |s.bins|), FinalScale(s, budget0, budget1);
    var start := BindingScale(need, budget0, budget1);
    AmpleNeedsOneShave(s, budget0, budget1);
    BindingScaleIsLargest(need, budget0, budget1);
    HoldersBounded(s, |s.bins|);
    if !scale.limitedBy.NoSide? {
      TotalsSpend(s, scale, |s.bins|);
      var built := Build(s, scale);
      if scale.limitedBy.Token0? {
        ScaleStillBinds(start, need.amount0, budget0);
        BindingTokenSpent(built.total0, need.amount0, k.amount0, budget0, scale);
      } else {
        ScaleStillBinds(start, need.amount1, budget1);
        BindingTokenSpent(built.total1, need.amount1, k.amount1, budget1, scale);
      }
    }
  }

  lemma ScaleStillBinds(start: Scale, need: nat, budget: nat)
    requires start.num * need == budget * start.den
    ensures 999_999 * (budget * start.den) <= start.num * need * 1_000_000
    ensures 999_999 * (budget * Shave(start).den) <= Shave(start).num * need * 1_000_000
  {
    assert budget * (start.den * 1_000_000) == (budget * start.den) * 1_000_000;
    assert (start.num * 999_999) * need == (start.num * need) * 999_999;
  }

  // ----------------------------------------------- budgets of any size

  /** At least half of (1 - k/need) of the budget, less k/2 and need/10^9 units. */
  predicate HalfSpent(total: nat, need: nat, k: nat, budget: nat) {
    (need - k) * WEIGHT_ONE * (budget + 1 - k) <= 2 * (total * need * WEIGHT_ONE + need * need)
  }

  /** One pass of a repair loop: the scale is at least half of one that was over budget. */
  predicate Repaired(prev: Scale, scale: Scale) {
    scale == Shave(prev) || scale == Halve(prev)
  }

  lemma {:induction false} ShavedFrom(s: Shape, scale: Scale, budget0: nat, budget1: nat, passes: nat) returns (prev: Option<Scale>)
    requires s.Valid() && scale.den > 0
    ensures var end := Shaved(s, scale, budget0, budget1, passes);
            match prev
            case None => end == scale
            case Some(p) => p.den > 0 && p.limitedBy == scale.limitedBy && Repaired(p, end) && Over(Build(s, p), budget0, budget1)
    decreases passes
  {
    hide BuildTo;
    prev := None;
    if passes > 0 && Over(Build(s, scale), budget0, budget1) {
      prev := ShavedFrom(s, Shave(scale), budget0, budget1, passes - 1);
      if prev.None? { prev := Some(scale); }
    }
  }

  lemma {:induction false} HalvedFrom(s: Shape, scale: Scale, budget0: nat, budget1: nat, passes: nat) returns (prev: Option<Scale>)
    requires s.Valid() && scale.den > 0
    ensures var end := Halved(s, scale, budget0, budget1, passes);
            match prev
            case None => end == scale
            case Some(p) => p.den > 0 && p.limitedBy == scale.limitedBy && Repaired(p, end) && Over(Build(s, p), budget0, budget1)
    decreases passes
  {
    hide BuildTo;
    prev := None;
    if passes > 0 && Over(Build(s, scale), budget0, budget1) && Build(s, scale).rungs != [] {
      prev := HalvedFrom(s, Halve(scale), budget0, budget1, passes - 1);
      if prev.None? { prev := Some(scale); }
    }
  }

  lemma {:induction false} NeedHasHolder(s: Shape, n: nat)
    requires s.Valid() && n <= |s.bins|
    ensures Need(s, n).amount0 > 0 ==> Holders(s, n).amount0 > 0
    ensures Need(s, n).amount1 > 0 ==> Holders(s, n).amount1 > 0
    decreases n
  {
    hide UnitCost;
    if n > 0 {
      NeedHasHolder(s, n - 1);
    }
  }

  lemma Reassociated(p: int, q: int, r: int)
    ensures p * (q * r) == p * r * q
  {
  }

  /** share*t*d <= share*z, and z is worth at most twice what the repaired scale spends. */
  lemma TwiceTheSpent(share: nat, t: int, z: nat, spent: nat, d: nat, a: nat, b: nat)
    requires 0 < d && 0 < a && b <= 2 * a && t * d <= z && share * (a * z) <= spent * (b * d)
    ensures share * t <= 2 * spent
  {
    Reassociated(share, a, z);
    Reassociated(spent, b, d);
    HalfCancels(share * z, spent * d, a, b);
    MulLe(t * d, z, share);
    Swap(t, d, share);
    Commuted(t, share);
    Commuted(z, share);
    Cancel(share * t, 2 * spent, d);
  }

  lemma HalfCancels(x: nat, y: nat, a: nat, b: nat)
    requires 0 < a && b <= 2 * a && x * a <= y * b
    ensures x <= 2 * y
  {
    MulLe(b, 2 * a, y);
    Commuted(y, b);
    Cancel(x, 2 * y, a);
  }

  lemma Commuted(x: int, y: int)
    ensures x * y == y * x
  {
  }

  /** A token that was over budget before the last pass is at least half spent after it. */
  lemma OverBudgetHalfSpent(over: nat, total: nat, need: nat, k: nat, budget: nat, prev: Scale, scale: Scale)
    requires 0 < prev.den && Repaired(prev, scale) && k <= need
    requires Within(over, need, k, prev) && budget < over && Spends(total, need, k, scale)
    ensures HalfSpent(total, need, k, budget)
  {
    var t, z := budget + 1 - k, prev.num * need;
    MulLe(budget + 1, over, prev.den);
    DistributeMinus(budget + 1, k, prev.den);
    assert z == need * prev.num;
    var a, b := if scale == Shave(prev) then 999_999 else 1, if scale == Shave(prev) then 1_000_000 else 2;
    ShortfallTimesNeed(total, need, k, scale.num, scale.den);
    assert scale.num * need == a * z by { Swap(prev.num, a, need); }
    assert scale.den == b * prev.den;
    hide Spends, Within, HalfSpent, Repaired, Shave, Halve;
    TwiceTheSpent((need - k) * WEIGHT_ONE, t, z, total * need * WEIGHT_ONE + need * need, prev.den, a, b);
    HalfSpentIs(total, need, k, budget);
  }

  lemma HalfSpentIs(total: nat, need: nat, k: nat, budget: nat)
    ensures HalfSpent(total, need, k, budget)
       <==> (need - k) * WEIGHT_ONE * (budget + 1 - k) <= 2 * (total * need * WEIGHT_ONE + need * need)
  {
  }

  /** At the binding scale itself the binding token is spent in full, up to rounding. */
  lemma BindingHalfSpent(total: nat, need: nat, k: nat, budget: nat, scale: Scale)
    requires 0 < scale.den && 0 < k <= need && scale.num * need == budget * scale.den && Spends(total, need, k, scale)
    ensures HalfSpent(total, need, k, budget)
  {
    ShortfallTimesNeed(total, need, k, scale.num, scale.den);
    hide Spends, HalfSpent;
    MulLe(budget + 1 - k, budget, scale.den);
    TwiceTheSpent((need - k) * WEIGHT_ONE, budget + 1 - k, scale.num * need, total * need * WEIGHT_ONE + need * need, scale.den, 1, 1);
    HalfSpentIs(total, need, k, budget);
  }

  /**
   * For budgets of any size, however often the planner shaves and halves: as
   * long as anything is needed, some needed token is at least half spent, up
   * to k/2 and need/10^9 units, k being the number of bins that hold it.
   */
  lemma HalfAtLeastSpent(s: Shape, budget0: nat, budget1: nat)
    requires s.Valid() && Need(s, |s.bins|) != Amounts(0, 0)
    ensures var need, k, built := Need(s, |s.bins|), Holders(s, |s.bins|), Build(s, FinalScale(s, budget0, budget1));
            || (0 < need.amount0 && k.amount0 <= MAX_BINS && HalfSpent(built.total0, need.amount0, k.amount0, budget0))
            || (0 < need.amount1 && k.amount1 <= MAX_BINS && HalfSpent(built.total1, need.amount1, k.amount1, budget1))
  {
    hide Need, Holders, BuildTo, Spends, HalfSpent, BindingScale, Shaved, Halved, Within, Repaired;
    var need, k := Need(s, |s.bins|), Holders(s, |s.bins|);
    var start := BindingScale(need, budget0, budget1);
    BindingScaleIsLargest(need, budget0, budget1);
    HoldersBounded(s, |s.bins|);
    NeedHasHolder(s, |s.bins|);
    var shaved := Shaved(s, start, budget0, budget1, SHAVE_PASSES);
    var prev := HalvedFrom(s, shaved, budget0, budget1, HALVE_PASSES);
    var earlier := ShavedFrom(s, start, budget0, budget1, SHAVE_PASSES);
    if prev.None? { prev := earlier; }
    var scale := FinalScale(s, budget0, budget1);
    if prev.None? {
      TotalsSpend(s, scale, |s.bins|);
      var built := Build(s, scale);
      if scale.limitedBy.Token0? {
        BindingHalfSpent(built.total0, need.amount0, k.amount0, budget0, scale);
      } else {
        BindingHalfSpent(built.total1, need.amount1, k.amount1, budget1, scale);
      }
    } else {
      LimitKept(s, start, budget0, budget1, SHAVE_PASSES);
      OverHalfSpent(s, prev.value, scale, budget0, budget1);
    }
  }

  lemma {:induction false} LimitKept(s: Shape, scale: Scale, budget0: nat, budget1: nat, passes: nat)
    requires s.Valid() && scale.den > 0
    ensures Shaved(s, scale, budget0, budget1, passes).limitedBy == scale.limitedBy
    decreases passes
  {
    hide BuildTo;
    if passes > 0 && Over(Build(s, scale), budget0, budget1) {
      LimitKept(s, Shave(scale), budget0, budget1, passes - 1);
    }
  }

  lemma OverHalfSpent(s: Shape, prev: Scale, scale: Scale, budget0: nat, budget1: nat)
    requires s.Valid() && 0 < prev.den && Repaired(prev, scale) && Over(Build(s, prev), budget0, budget1) && !prev.limitedBy.NoSide?
    ensures scale.den > 0
    ensures var need, k, built := Need(s, |s.bins|), Holders(s, |s.bins|), Build(s, scale);
            || (0 < need.amount0 && k.amount0 <= MAX_BINS && HalfSpent(built.total0, need.amount0, k.amount0, budget0))
            || (0 < need.amount1 && k.amount1 <= MAX_BINS && HalfSpent(built.total1, need.amount1, k.amount1, budget1))
  {
    hide Need, Holders, BuildTo, Spends, HalfSpent;
    var need, k, over, built := Need(s, |s.bins|), Holders(s, |s.bins|), Build(s, prev), Build(s, scale);
    HoldersBounded(s, |s.bins|);
    TotalsWithin(s, prev, |s.bins|);
    TotalsSpend(s, scale, |s.bins|);
    if budget0 < over.total0 {
      NeededIfOver(over.total0, need.amount0, k.amount0, prev);
      OverBudgetHalfSpent(over.total0, built.total0, need.amount0, k.amount0, budget0, prev, scale);
    } else {
      NeededIfOver(over.total1, need.amount1, k.amount1, prev);
      OverBudgetHalfSpent(over.total1, built.total1, need.amount1, k.amount1, budget1, prev, scale);
    }
  }

  lemma NeededIfOver(total: nat, need: nat, k: nat, scale: Scale)
    requires 0 < scale.den && 0 < total && k <= need && Within(total, need, k, scale)
    ensures 0 < need
  {
    if need == 0 { MulLe(1, total, scale.den); }
  }
}
