// planLadder itself: cutting the range, running the loops, and what the plan
// they leave looks like.
module LadderPlan {
  import opened Common
  import opened Liquidity
  import opened Ladder
  import TickMath

  datatype PlanInput = PlanInput(tick: int, tickSpacing: int, minTick: int, maxTick: int, bins: int,
                                 budget0: nat, budget1: nat, slippageBps: int)

  datatype Single = Only0 | Only1 | Both

  datatype Plan = Plan(rungs: seq<Rung>, total0: nat, total1: nat, minTick: int, maxTick: int,
                       limitedBy: Side, singleSided: Single)

  datatype PlanError = BadTickSpacing | TickOutOfRange

  function Clamp(tick: int): int {
    Max(TickMath.MIN_TICK, Min(TickMath.MAX_TICK, tick))
  }

  function AlignDown(tick: int, spacing: int): int
    requires spacing > 0
  {
    Clamp(tick / spacing * spacing)
  }

  function AlignUp(tick: int, spacing: int): int
    requires spacing > 0
  {
    Clamp(-(-tick / spacing) * spacing)
  }

  function RangeLow(input: PlanInput): int
    requires input.tickSpacing > 0
  {
    AlignDown(Min(input.minTick, input.maxTick), input.tickSpacing)
  }

  /** The aligned upper end, widened to one spacing when the range is empty. */
  function RangeHigh(input: PlanInput): int
    requires input.tickSpacing > 0
  {
    var hi := AlignUp(Max(input.minTick, input.maxTick), input.tickSpacing);
    if hi <= RangeLow(input) then RangeLow(input) + input.tickSpacing else hi
  }

  /** The clamp to the tick limits left both ends on the spacing grid. */
  predicate WellAligned(input: PlanInput) {
    input.tickSpacing > 0 ==>
      RangeLow(input) % input.tickSpacing == 0 && RangeHigh(input) % input.tickSpacing == 0
  }

  /** How the range is cut: n bins of one width, the last of which ends at `end`. */
  datatype Cut = Cut(n: nat, width: int, end: int)

  /**
   * The source divides the range by the spacing without rounding. When that
   * leaves a fraction and fewer spacings than bins are wanted, its bin count
   * is that fraction: the loop cuts one spacing-wide bin more than fit, and
   * none of them is the last.
   */
  predicate Ragged(d: int, spacing: int, wanted: int) {
    0 < spacing < d < wanted * spacing && d % spacing != 0
  }

  function CutRange(lo: int, hi: int, spacing: int, bins: int): Cut
    requires spacing > 0
  {
    var d, wanted := hi - lo, Min(MAX_BINS, bins);
    if Ragged(d, spacing, wanted) then Cut(d / spacing + 1, spacing, lo + (d / spacing + 1) * spacing)
    else
      var n := Max(1, Min(wanted, d / spacing));
      Cut(n, d / spacing / n * spacing, hi)
  }

  function CutOf(input: PlanInput): Cut
    requires input.tickSpacing > 0
  {
    CutRange(RangeLow(input), RangeHigh(input), input.tickSpacing, input.bins)
  }

  predicate Fits(lo: int, c: Cut) {
    1 <= c.n && lo < c.end && (c.n > 1 ==> 0 < c.width) && lo + c.n * c.width <= c.end
  }

  /** The cut fits the range and ends where the range does, or, when it is ragged, less than a spacing beyond. */
  lemma CutFits(lo: int, hi: int, spacing: int, bins: int)
    requires spacing > 0 && lo < hi
    ensures var c := CutRange(lo, hi, spacing, bins);
            && Fits(lo, c) && c.n <= MAX_BINS && c.width % spacing == 0
            && hi <= c.end < hi + spacing
            && (c.end == hi <==> !Ragged(hi - lo, spacing, Min(MAX_BINS, bins)))
  {
    var d, wanted := hi - lo, Min(MAX_BINS, bins);
    var q := d / spacing;
    Floor(d, spacing);
    hide CutRange;
    if Ragged(d, spacing, wanted) {
      RaggedFits(lo, hi, spacing, bins, q);
    } else {
      EvenFits(lo, hi, spacing, bins, q);
    }
  }

  lemma RaggedFits(lo: int, hi: int, spacing: int, bins: int, q: int)
    requires spacing > 0 && Ragged(hi - lo, spacing, Min(MAX_BINS, bins)) && q == (hi - lo) / spacing
    requires q * spacing <= hi - lo < q * spacing + spacing
    ensures CutRange(lo, hi, spacing, bins) == Cut(q + 1, spacing, lo + (q + 1) * spacing)
    ensures 1 <= q && q + 1 <= MAX_BINS && (q + 1) * spacing == q * spacing + spacing
    ensures q * spacing != hi - lo && spacing % spacing == 0
  {
    FitsQuotient(1, hi - lo, spacing);
    assert hi - lo == q * spacing + (hi - lo) % spacing;
    if MAX_BINS < q + 1 { MulLe(Min(MAX_BINS, bins), q, spacing); }
    DivideMultiple(1, spacing);
  }

  lemma EvenFits(lo: int, hi: int, spacing: int, bins: int, q: int)
    requires spacing > 0 && lo < hi && !Ragged(hi - lo, spacing, Min(MAX_BINS, bins)) && q == (hi - lo) / spacing
    requires q * spacing <= hi - lo
    ensures var c := CutRange(lo, hi, spacing, bins);
            Fits(lo, c) && c.n <= MAX_BINS && c.width % spacing == 0 && c.end == hi
  {
    var n := Max(1, Min(Min(MAX_BINS, bins), q));
    FitsQuotient(0, hi - lo, spacing);
    var c := CutRange(lo, hi, spacing, bins);
    assert c == Cut(n, q / n * spacing, hi);
    hide CutRange, Ragged;
    EvenWidths(hi - lo, spacing, q, n, q / n);
  }

  lemma EvenWidths(d: int, spacing: int, q: nat, n: nat, w: int)
    requires spacing > 0 && n > 0 && w == q / n && q * spacing <= d && (n > 1 ==> n <= q)
    ensures n * (w * spacing) <= d && (n > 1 ==> 0 < w * spacing) && w * spacing % spacing == 0
  {
    Floor(q, n);
    FitsQuotient(1, q, n);
    MulLe(w * n, q, spacing);
    if 1 <= w { MulLe(1, w, spacing); }
    Regrouped(n, w, spacing);
    DivideMultiple(w, spacing);
  }

  lemma Regrouped(n: int, w: int, spacing: int)
    ensures n * (w * spacing) == w * n * spacing
  {
  }

  function CutBin(lo: int, c: Cut, i: nat): Bin {
    Bin(lo + i * c.width, if i == c.n - 1 then c.end else lo + i * c.width + c.width)
  }

  function BinsOf(lo: int, c: Cut): (bins: seq<Bin>)
    ensures |bins| == c.n
  {
    seq(c.n, i requires 0 <= i < c.n => CutBin(lo, c, i))
  }

  /** The bins tile the range: no gap, no overlap, none empty; and on the grid when the range's ends are. */
  lemma CutTiles(lo: int, c: Cut, spacing: int)
    requires Fits(lo, c) && spacing > 0 && c.width % spacing == 0
    ensures var bins := BinsOf(lo, c);
            && bins[0].lo == lo && bins[c.n - 1].hi == c.end
            && (forall i :: 0 <= i < c.n ==> lo <= bins[i].lo < bins[i].hi <= c.end)
            && (forall i :: 0 < i < c.n ==> bins[i].lo == bins[i - 1].hi)
            && (lo % spacing == 0 && c.end % spacing == 0 ==>
                  forall i :: 0 <= i < c.n ==> bins[i].lo % spacing == 0 && bins[i].hi % spacing == 0)
  {
    var bins := BinsOf(lo, c);
    forall i | 0 <= i < c.n
      ensures bins[i] == Bin(lo + i * c.width, if i == c.n - 1 then c.end else lo + (i + 1) * c.width)
      ensures lo <= bins[i].lo < bins[i].hi <= c.end
      ensures lo % spacing == 0 && c.end % spacing == 0 ==> bins[i].lo % spacing == 0 && bins[i].hi % spacing == 0
    {
      CutBinFits(lo, c, i);
      if lo % spacing == 0 {
        WidthsOnGrid(lo, c.width, spacing, i);
        WidthsOnGrid(lo, c.width, spacing, i + 1);
      }
    }
  }

  lemma CutBinFits(lo: int, c: Cut, i: nat)
    requires Fits(lo, c) && i < c.n
    ensures var b := CutBin(lo, c, i);
            && b == Bin(lo + i * c.width, if i == c.n - 1 then c.end else lo + (i + 1) * c.width)
            && lo <= b.lo < b.hi <= c.end
  {
    var w := c.width;
    assert (i + 1) * w == i * w + w;
    assert c.n == 1 ==> i * w == 0;
    if c.n > 1 {
      MulLe(0, i, w);
      MulLe(i + 1, c.n, w);
    }
  }

  lemma WidthsOnGrid(lo: int, width: int, spacing: int, k: nat)
    requires spacing > 0 && lo % spacing == 0 && width % spacing == 0
    ensures (lo + k * width) % spacing == 0
  {
    var w := width / spacing;
    assert width == w * spacing;
    assert k * width == k * w * spacing;
    Multiple(lo, k * w, spacing);
  }

  lemma DivideMultiple(q: int, d: int)
    requires d > 0
    ensures q * d / d == q && q * d % d == 0
  {
    var x, y := q * d / d, q * d % d;
    assert q * d == x * d + y && 0 <= y < d;
    assert (q - x) * d == y;
    if q > x { MulLe(1, q - x, d); }
    if q < x { MulLe(1, x - q, d); }
  }

  lemma Multiple(lo: int, k: int, spacing: int)
    requires spacing > 0 && lo % spacing == 0
    ensures (lo + k * spacing) % spacing == 0
  {
    var a := lo / spacing;
    assert lo == a * spacing;
    assert lo + k * spacing == (a + k) * spacing;
    DivideMultiple(a + k, spacing);
  }

  // ---------------------------------------------------- the whole plan

  predicate ValidWeights(weights: seq<nat>) {
    |weights| == MAX_BINS && forall i :: 0 <= i < |weights| ==> weights[i] <= WEIGHT_ONE
  }

  /** What planLadder rejects by throwing. */
  function Rejected(input: PlanInput): Option<PlanError> {
    if input.tickSpacing <= 0 then Some(BadTickSpacing)
    else if !TickMath.InRange(input.tick) || CutOf(input).end > TickMath.MAX_TICK then Some(TickOutOfRange)
    else None
  }

  function Slippage(bps: int): (slip: nat)
    ensures slip <= 5000
  {
    Max(0, Min(5000, bps))
  }

  lemma RangeIsCut(input: PlanInput)
    requires Rejected(input).None?
    ensures var lo, c := RangeLow(input), CutOf(input);
            && lo < RangeHigh(input) && Fits(lo, c) && c.n <= MAX_BINS && c.width % input.tickSpacing == 0
            && TickMath.InRange(lo) && TickMath.InRange(c.end)
            && RangeHigh(input) <= c.end < RangeHigh(input) + input.tickSpacing
            && (c.end == RangeHigh(input) <==> !Ragged(RangeHigh(input) - lo, input.tickSpacing, Min(MAX_BINS, input.bins)))
  {
    CutFits(RangeLow(input), RangeHigh(input), input.tickSpacing, input.bins);
    hide CutRange, AlignUp, Fits, Ragged;
  }

  function ShapeOf(input: PlanInput, weights: seq<nat>): (s: Shape)
    requires Rejected(input).None? && ValidWeights(weights)
    ensures s.Valid()
  {
    RangeIsCut(input);
    CutTiles(RangeLow(input), CutOf(input), input.tickSpacing);
    TickMath.PriceBounds(input.tick);
    Shape(TickMath.SqrtPrice(input.tick), BinsOf(RangeLow(input), CutOf(input)), weights, Slippage(input.slippageBps))
  }

  function SingleSided(lo: int, hi: int, tick: int): Single {
    if hi <= tick then Only1 else if lo > tick then Only0 else Both
  }

  /** The specification of planLadder. */
  function PlanOf(input: PlanInput, weights: seq<nat>): Result<Plan, PlanError>
    requires ValidWeights(weights)
  {
    match Rejected(input)
    case Some(e) => Err(e)
    case None =>
      var s := ShapeOf(input, weights);
      var scale := FinalScale(s, input.budget0, input.budget1);
      var built := Build(s, scale);
      Ok(Plan(built.rungs, built.total0, built.total1, RangeLow(input), RangeHigh(input), scale.limitedBy,
              SingleSided(RangeLow(input), RangeHigh(input), input.tick)))
  }

  /** One more bin: skipped, or one more rung. */
  lemma BuildStep(s: Shape, scale: Scale, i: nat)
    requires s.Valid() && i < |s.bins| && scale.den > 0
    ensures var l, before := ScaledLiquidity(s.weights[i], scale), BuildTo(s, scale, i);
            var a := Cost(s.sqrtP, s.bins[i], l);
            BuildTo(s, scale, i + 1)
              == if l == 0 || (a.amount0 == 0 && a.amount1 == 0) then before
                 else Built(before.rungs + [MakeRung(s, i, l)], before.total0 + a.amount0, before.total1 + a.amount1)
  {
    hide Cost, ScaledLiquidity, MakeRung;
  }

  method BuildRungs(s: Shape, scale: Scale) returns (built: Built)
    requires s.Valid() && scale.den > 0
    ensures built == Build(s, scale)
  {
    hide BuildTo, Cost, ScaledLiquidity, MakeRung;
    var rungs: seq<Rung>, total0: nat, total1: nat := [], 0, 0;
    assert Built([], 0, 0) == BuildTo(s, scale, 0) by { BuildNothing(s, scale); }
    for i := 0 to |s.bins|
      invariant Built(rungs, total0, total1) == BuildTo(s, scale, i)
    {
      BuildStep(s, scale, i);
      var l := ScaledLiquidity(s.weights[i], scale);
      if l == 0 { continue; }
      var a := Cost(s.sqrtP, s.bins[i], l);
      if a.amount0 == 0 && a.amount1 == 0 { continue; }
      rungs := rungs + [MakeRung(s, i, l)];
      total0, total1 := total0 + a.amount0, total1 + a.amount1;
    }
    built := Built(rungs, total0, total1);
  }

  lemma BuildNothing(s: Shape, scale: Scale)
    requires s.Valid() && scale.den > 0
    ensures BuildTo(s, scale, 0) == Built([], 0, 0)
  {
  }

  lemma NeedStep(s: Shape, i: nat)
    requires s.Valid() && i < |s.bins|
    ensures var before, last := Need(s, i), UnitCost(s, i);
            Need(s, i + 1) == Amounts(before.amount0 + last.amount0, before.amount1 + last.amount1)
  {
    hide UnitCost;
  }

  lemma NothingNeeded(s: Shape)
    requires s.Valid()
    ensures Need(s, 0) == Amounts(0, 0)
  {
  }

  method UnitNeed(s: Shape) returns (need0: nat, need1: nat)
    requires s.Valid()
    ensures Amounts(need0, need1) == Need(s, |s.bins|)
  {
    hide UnitCost, Need;
    need0, need1 := 0, 0;
    assert Need(s, 0) == Amounts(0, 0) by { NothingNeeded(s); }
    for i := 0 to |s.bins|
      invariant Amounts(need0, need1) == Need(s, i)
    {
      NeedStep(s, i);
      var a := UnitCost(s, i);
      need0, need1 := need0 + a.amount0, need1 + a.amount1;
    }
  }

  /** The scale search and the two repair loops. */
  method FitBudgets(s: Shape, budget0: nat, budget1: nat) returns (scale: Scale, built: Built)
    requires s.Valid()
    ensures scale == FinalScale(s, budget0, budget1)
    ensures scale.den > 0 && built == Build(s, scale)
    ensures built.total0 <= budget0 && built.total1 <= budget1
  {
    hide BuildTo, Need;
    var need0, need1 := UnitNeed(s);
    scale := BindingScale(Amounts(need0, need1), budget0, budget1);
    BindingScaleIsLargest(Amounts(need0, need1), budget0, budget1);
    built := BuildRungs(s, scale);
    ghost var start := scale;
    var pass := 0;
    while pass < SHAVE_PASSES && Over(built, budget0, budget1)
      invariant 0 <= pass <= SHAVE_PASSES && scale.den > 0
      invariant built == Build(s, scale)
      invariant Shaved(s, start, budget0, budget1, SHAVE_PASSES) == Shaved(s, scale, budget0, budget1, SHAVE_PASSES - pass)
    {
      scale := Shave(scale);
      built := BuildRungs(s, scale);
      pass := pass + 1;
    }
    ghost var shaved := scale;
    pass := 0;
    while pass < HALVE_PASSES && Over(built, budget0, budget1) && built.rungs != []
      invariant 0 <= pass <= HALVE_PASSES && scale.den > 0
      invariant built == Build(s, scale)
      invariant Halved(s, shaved, budget0, budget1, HALVE_PASSES) == Halved(s, scale, budget0, budget1, HALVE_PASSES - pass)
    {
      scale := Halve(scale);
      built := BuildRungs(s, scale);
      pass := pass + 1;
    }
    PlanFits(s, budget0, budget1);
  }

  method PlanLadder(input: PlanInput, weights: seq<nat>) returns (r: Result<Plan, PlanError>)
    requires ValidWeights(weights)
    ensures r == PlanOf(input, weights)
    ensures r.Ok? ==> r.value.total0 <= input.budget0 && r.value.total1 <= input.budget1
  {
    match Rejected(input) {
      case Some(e) => return Err(e);
      case None =>
        var s := ShapeOf(input, weights);
        var scale, built := FitBudgets(s, input.budget0, input.budget1);
        var minTick, maxTick := RangeLow(input), RangeHigh(input);
        return Ok(Plan(built.rungs, built.total0, built.total1, minTick, maxTick, scale.limitedBy,
                       SingleSided(minTick, maxTick, input.tick)));
    }
  }

  // ------------------------------------------------- what a plan is

  function Total(rungs: seq<Rung>): Amounts {
    if rungs == [] then Amounts(0, 0)
    else
      var before, last := Total(rungs[..|rungs| - 1]), rungs[|rungs| - 1];
      Amounts(before.amount0 + last.amount0, before.amount1 + last.amount1)
  }

  /** A rung carries the liquidity it claims at exactly the amounts it lists, and its minimums never exceed them. */
  ghost predicate Sound(s: Shape, r: Rung)
    requires s.Valid()
  {
    exists i :: 0 <= i < |s.bins| && SoundAt(s, r, i)
  }

  predicate SoundAt(s: Shape, r: Rung, i: nat)
    requires s.Valid() && i < |s.bins|
  {
    && Bin(r.tickLower, r.tickUpper) == s.bins[i] && r.weight == s.weights[i]
    && 0 < r.liquidity && Amounts(r.amount0, r.amount1) == Cost(s.sqrtP, s.bins[i], r.liquidity)
    && r.amount0Min <= r.amount0 <= 2 * r.amount0Min + 1
    && r.amount1Min <= r.amount1 <= 2 * r.amount1Min + 1
  }

  predicate Ordered(bins: seq<Bin>) {
    forall i, j :: 0 <= i < j < |bins| ==> bins[i].hi <= bins[j].lo
  }

  ghost predicate SoundTo(s: Shape, built: Built, n: nat)
    requires s.Valid() && n <= |s.bins|
  {
    && Total(built.rungs) == Amounts(built.total0, built.total1)
    && (forall r <- built.rungs :: Sound(s, r))
    && (forall j :: 0 <= j < |built.rungs| && n < |s.bins| ==> built.rungs[j].tickUpper <= s.bins[n].lo)
    && (forall i, j :: 0 <= i < j < |built.rungs| ==> built.rungs[i].tickUpper <= built.rungs[j].tickLower)
  }

  lemma MadeRungIsSound(s: Shape, i: nat, l: nat)
    requires s.Valid() && i < |s.bins| && 0 < l
    ensures SoundAt(s, MakeRung(s, i, l), i) && Sound(s, MakeRung(s, i, l))
  {
    hide Cost;
    var a := Cost(s.sqrtP, s.bins[i], l);
    MinKeepsHalf(a.amount0, s.slip);
    MinKeepsHalf(a.amount1, s.slip);
    assert SoundAt(s, MakeRung(s, i, l), i);
  }

  lemma BinSkipped(s: Shape, before: Built, n: nat)
    requires s.Valid() && 0 < n <= |s.bins| && Ordered(s.bins) && SoundTo(s, before, n - 1)
    ensures SoundTo(s, before, n)
  {
    hide Sound, Total;
    assert s.bins[n - 1].lo < s.bins[n - 1].hi;
  }

  lemma RungAdded(s: Shape, before: Built, n: nat, l: nat)
    requires s.Valid() && 0 < n <= |s.bins| && Ordered(s.bins) && 0 < l
    requires SoundTo(s, before, n - 1)
    ensures var r := MakeRung(s, n - 1, l);
            SoundTo(s, Built(before.rungs + [r], before.total0 + r.amount0, before.total1 + r.amount1), n)
  {
    hide Cost, Sound, SoundAt, MinAfterSlippage;
    var r := MakeRung(s, n - 1, l);
    MadeRungIsSound(s, n - 1, l);
    BinSkipped(s, before, n);
    assert (before.rungs + [r])[..|before.rungs|] == before.rungs;
    assert s.bins[n - 1].lo < s.bins[n - 1].hi;
  }

  lemma NothingBuilt(s: Shape)
    requires s.Valid()
    ensures SoundTo(s, Built([], 0, 0), 0)
  {
  }

  lemma {:induction false} BuiltIsSound(s: Shape, scale: Scale, n: nat)
    requires s.Valid() && n <= |s.bins| && scale.den > 0 && Ordered(s.bins)
    ensures SoundTo(s, BuildTo(s, scale, n), n)
    decreases n
  {
    hide Cost, SoundTo, ScaledLiquidity, MinAfterSlippage, Ordered;
    if n == 0 {
      NothingBuilt(s);
    } else {
      BuiltIsSound(s, scale, n - 1);
      var before, l := BuildTo(s, scale, n - 1), ScaledLiquidity(s.weights[n - 1], scale);
      BinSkipped(s, before, n);
      if l > 0 {
        RungAdded(s, before, n, l);
      }
    }
  }

  lemma MinKeepsHalf(amount: nat, slip: nat)
    requires slip <= 5000
    ensures MinAfterSlippage(amount, slip) <= amount <= 2 * MinAfterSlippage(amount, slip) + 1
  {
    MulLe(5_000, 10_000 - slip, amount);
    MulLe(10_000 - slip, 10_000, amount);
  }

  /** Consecutive tiles are ordered. */
  lemma {:induction false} TilesOrdered(bins: seq<Bin>, i: nat, j: nat)
    requires i < j < |bins|
    requires forall k :: 0 < k < |bins| ==> bins[k].lo == bins[k - 1].hi
    requires forall k :: 0 <= k < |bins| ==> bins[k].lo < bins[k].hi
    ensures bins[i].hi <= bins[j].lo
    decreases j
  {
    if i < j - 1 {
      TilesOrdered(bins, i, j - 1);
    }
  }

  /**
   * When the planner throws, in terms of its input: a bad spacing, a tick out
   * of range, an empty range that is widened past the highest tick, or a
   * ragged cut whose extra bin passes it, though both ends of the range lie
   * within the limits.
   */
  predicate PlanFails(input: PlanInput) {
    var spacing := input.tickSpacing;
    || spacing <= 0
    || !TickMath.InRange(input.tick)
    || (var low, high := AlignDown(Min(input.minTick, input.maxTick), spacing), AlignUp(Max(input.minTick, input.maxTick), spacing);
        || (high <= low && TickMath.MAX_TICK < low + spacing)
        || (low < high && Ragged(high - low, spacing, Min(MAX_BINS, input.bins))
            && TickMath.MAX_TICK < low + ((high - low) / spacing + 1) * spacing))
  }

  lemma FailsIff(input: PlanInput)
    ensures Rejected(input).Some? <==> PlanFails(input)
  {
    hide AlignDown, AlignUp;
    if input.tickSpacing > 0 {
      AlignsInRange(Max(input.minTick, input.maxTick), input.tickSpacing);
    }
  }

  lemma AlignsInRange(tick: int, spacing: int)
    requires spacing > 0
    ensures AlignUp(tick, spacing) <= TickMath.MAX_TICK
  {
  }

  /** A range at the lower limit whose plan reaches a bin beyond it: seven bins for six spacings and a fraction. */
  lemma RaggedPlan(budget0: nat, budget1: nat)
    ensures var input := PlanInput(0, 200, -887272, -886100, 40, budget0, budget1, 100);
            && !PlanFails(input) && RangeHigh(input) == -886000
            && CutOf(input) == Cut(7, 200, -885872)
  {
  }

  /** A range at the upper limit, wholly within it, for which the planner throws. */
  lemma RaggedThrows(budget0: nat, budget1: nat)
    ensures var input := PlanInput(0, 200, 886900, 887272, 40, budget0, budget1, 100);
            && PlanFails(input) && TickMath.InRange(input.minTick) && TickMath.InRange(input.maxTick)
            && RangeLow(input) == 886800 && RangeHigh(input) == 887272
            && CutOf(input) == Cut(3, 200, 887400)
  {
  }

  // --------------------------------------------- range, bins and rungs

  /** The multiple of the spacing at or next below a tick, kept within the tick limits. */
  ghost predicate IsBelow(r: int, tick: int, spacing: int) {
    exists m :: IsMultiple(m, spacing) && m <= tick < m + spacing && r == if m < -887272 then -887272 else if m > 887272 then 887272 else m
  }

  ghost predicate IsAbove(r: int, tick: int, spacing: int) {
    exists m :: IsMultiple(m, spacing) && m - spacing < tick <= m && r == if m < -887272 then -887272 else if m > 887272 then 887272 else m
  }

  predicate IsMultiple(m: int, spacing: int) {
    spacing > 0 && m % spacing == 0
  }

  /**
   * The range is the given one aligned outward to the spacing, whichever way
   * round it is given, and one spacing wide when nothing is left of it.
   */
  ghost predicate Outward(input: PlanInput, lo: int, hi: int) {
    var first, second := Min(input.minTick, input.maxTick), Max(input.minTick, input.maxTick);
    && IsBelow(lo, first, input.tickSpacing)
    && ((lo < hi && IsAbove(hi, second, input.tickSpacing))
        || (hi == lo + input.tickSpacing && exists h :: h <= lo && IsAbove(h, second, input.tickSpacing)))
  }

  lemma RangeIsOutward(input: PlanInput)
    requires input.tickSpacing > 0
    ensures Outward(input, RangeLow(input), RangeHigh(input))
  {
    var d := input.tickSpacing;
    var first, second := Min(input.minTick, input.maxTick), Max(input.minTick, input.maxTick);
    var m, n := first / d * d, -(-second / d) * d;
    DivideMultiple(first / d, d);
    DivideMultiple(-(-second / d), d);
    assert first == m + first % d;
    assert -second == -second / d * d + -second % d;
    assert n == -(-second / d * d);
    assert IsMultiple(m, d) && m <= first < m + d;
    assert IsMultiple(n, d) && n - d < second <= n;
    assert IsBelow(AlignDown(first, d), first, d);
    assert IsAbove(AlignUp(second, d), second, d);
    hide IsBelow, IsAbove, AlignDown, AlignUp;
  }

  function Width(b: Bin): int {
    b.hi - b.lo
  }

  /**
   * How a range is cut into the wanted number of bins, at most 40. It gets
   * that many, or as many as it has spacings, and one if it has none; all but
   * the last are equally wide, and one spacing more in each would overrun it.
   * A ragged range is cut into single spacings, as many as it takes to cover it.
   */
  predicate WellCut(bins: seq<Bin>, lo: int, hi: int, spacing: int, asked: int) {
    var d, n, wanted := hi - lo, |bins|, Min(40, asked);
    && 1 <= n && bins[0].lo == lo
    && (forall i :: 0 < i < n ==> bins[i].lo == bins[i - 1].hi)
    && if 0 < spacing < d < wanted * spacing && d % spacing != 0 then
         && (n - 1) * spacing < d < n * spacing
         && (forall i :: 0 <= i < n ==> Width(bins[i]) == spacing)
       else
         && bins[n - 1].hi == hi
         && (1 < n ==> n <= wanted && n * spacing <= d)
         && (wanted <= n || d < (n + 1) * spacing)
         && (forall i :: 0 <= i < n - 1 ==>
               var w := Width(bins[i]);
               w == Width(bins[0]) && IsMultiple(w, spacing) && n * w <= d < n * (w + spacing))
  }

  lemma CutIsWell(lo: int, hi: int, spacing: int, bins: int)
    requires spacing > 0 && lo < hi
    ensures WellCut(BinsOf(lo, CutRange(lo, hi, spacing, bins)), lo, hi, spacing, bins)
  {
    var c, d, wanted := CutRange(lo, hi, spacing, bins), hi - lo, Min(MAX_BINS, bins);
    CutFits(lo, hi, spacing, bins);
    CutTiles(lo, c, spacing);
    var q := d / spacing;
    Floor(d, spacing);
    WidthsAre(lo, c);
    if Ragged(d, spacing, wanted) {
      RaggedFits(lo, hi, spacing, bins, q);
    } else {
      EvenCounts(lo, hi, spacing, bins, q);
    }
    hide CutRange, Fits, BinsOf, Ragged;
    var bs := BinsOf(lo, c);
    assert Ragged(d, spacing, wanted) <==> 0 < spacing < d < wanted * spacing && d % spacing != 0 by { RaggedIs(d, spacing, wanted); }
    if Ragged(d, spacing, wanted) {
      assert forall i :: 0 <= i < c.n ==> Width(bs[i]) == spacing;
    }
  }

  lemma RaggedIs(d: int, spacing: int, wanted: int)
    ensures Ragged(d, spacing, wanted) <==> 0 < spacing < d < wanted * spacing && d % spacing != 0
  {
  }

  lemma WidthsAre(lo: int, c: Cut)
    requires Fits(lo, c)
    ensures forall i :: 0 <= i < c.n - 1 ==> Width(BinsOf(lo, c)[i]) == c.width
    ensures Width(BinsOf(lo, c)[c.n - 1]) == c.end - lo - (c.n - 1) * c.width
  {
  }

  lemma EvenCounts(lo: int, hi: int, spacing: int, bins: int, q: int)
    requires spacing > 0 && lo < hi && !Ragged(hi - lo, spacing, Min(MAX_BINS, bins)) && q == (hi - lo) / spacing
    requires q * spacing <= hi - lo < q * spacing + spacing
    ensures var c, d, wanted := CutRange(lo, hi, spacing, bins), hi - lo, Min(MAX_BINS, bins);
            && (1 < c.n ==> c.n <= wanted && c.n * spacing <= d)
            && (wanted <= c.n || d < (c.n + 1) * spacing)
            && c.n * c.width <= d < c.n * (c.width + spacing)
  {
    var d, wanted := hi - lo, Min(MAX_BINS, bins);
    var n := Max(1, Min(wanted, q));
    FitsQuotient(0, d, spacing);
    var c := CutRange(lo, hi, spacing, bins);
    assert c == Cut(n, q / n * spacing, hi);
    hide CutRange, Ragged;
    EvenWidths(d, spacing, q, n, q / n);
    if 1 < n { MulLe(n, q, spacing); }
    if n < wanted { MulLe(q, n, spacing); Distribute(n, 1, spacing); }
    NextWidthOverruns(d, spacing, q, n, q / n);
  }

  lemma NextWidthOverruns(d: int, spacing: int, q: nat, n: nat, w: int)
    requires spacing > 0 && n > 0 && w == q / n && d < q * spacing + spacing
    ensures d < n * (w * spacing + spacing)
  {
    Floor(q, n);
    Distribute(w, 1, n);
    MulLe(q + 1, (w + 1) * n, spacing);
    Distribute(q, 1, spacing);
    Regrouped(n, w + 1, spacing);
    Distribute(w, 1, spacing);
    assert (w + 1) * n == n * (w + 1);
    assert n * (w + 1) * spacing == (w + 1) * n * spacing;
  }

  /** The liquidity a weight gets at a scale: weight * 10^9 scaled, rounded down. */
  predicate IsShare(l: nat, weight: nat, scale: Scale) {
    l * scale.den <= weight * 1_000_000_000 * scale.num < (l + 1) * scale.den
  }

  /** The least a rung accepts: its amount less the slippage, rounded down. */
  predicate IsMinimum(least: nat, amount: nat, slip: nat) {
    least * 10_000 <= amount * (10_000 - slip) < (least + 1) * 10_000
  }

  predicate RungFor(s: Shape, scale: Scale, i: nat, r: Rung)
    requires s.Valid() && i < |s.bins|
  {
    && Bin(r.tickLower, r.tickUpper) == s.bins[i] && r.weight == s.weights[i]
    && 0 < r.liquidity && IsShare(r.liquidity, s.weights[i], scale)
    && Amounts(r.amount0, r.amount1) == Cost(s.sqrtP, s.bins[i], r.liquidity) != Amounts(0, 0)
    && IsMinimum(r.amount0Min, r.amount0, s.slip) && IsMinimum(r.amount1Min, r.amount1, s.slip)
  }

  /** The liquidity of a bin, if it gets a rung. */
  ghost predicate WorthARung(s: Shape, scale: Scale, i: nat)
    requires s.Valid() && i < |s.bins|
  {
    exists l: nat :: 0 < l && IsShare(l, s.weights[i], scale) && Cost(s.sqrtP, s.bins[i], l) != Amounts(0, 0)
  }

  lemma ShareIs(weight: nat, scale: Scale, l: nat)
    requires scale.den > 0 && !scale.limitedBy.NoSide?
    ensures IsShare(l, weight, scale) <==> l == ScaledLiquidity(weight, scale)
  {
    DivideMultiple(weight * 1_000_000_000, WEIGHT_ONE);
    assert UnitLiquidity(weight) == weight * 1_000_000_000;
    var x := weight * 1_000_000_000;
    hide UnitLiquidity;
    MulDivFloor(x, scale.num, scale.den);
    FitsQuotient(l, x * scale.num, scale.den);
    FitsQuotient(l + 1, x * scale.num, scale.den);
    assert MulDiv(x, scale.num, scale.den) == x * scale.num / scale.den;
  }

  lemma MinimumIs(amount: nat, slip: nat)
    requires slip <= 5000
    ensures IsMinimum(MinAfterSlippage(amount, slip), amount, slip)
  {
    Floor(amount * (10_000 - slip), 10_000);
  }

  lemma MadeFor(s: Shape, scale: Scale, i: nat)
    requires s.Valid() && i < |s.bins| && scale.den > 0 && !scale.limitedBy.NoSide?
    ensures var l := ScaledLiquidity(s.weights[i], scale);
            var worth := l > 0 && Cost(s.sqrtP, s.bins[i], l) != Amounts(0, 0);
            && (worth <==> WorthARung(s, scale, i))
            && (worth ==> RungFor(s, scale, i, MakeRung(s, i, l)))
  {
    var l := ScaledLiquidity(s.weights[i], scale);
    hide Cost, MinAfterSlippage, ScaledLiquidity;
    ShareIs(s.weights[i], scale, l);
    var a := Cost(s.sqrtP, s.bins[i], l);
    MinimumIs(a.amount0, s.slip);
    MinimumIs(a.amount1, s.slip);
    forall k: nat | IsShare(k, s.weights[i], scale) ensures k == l {
      ShareIs(s.weights[i], scale, k);
    }
    hide IsShare, IsMinimum;
  }

  /** What has been built from the first n bins: a rung for each bin worth one, and no other. */
  ghost predicate RungsMatch(s: Shape, scale: Scale, n: nat)
    requires s.Valid() && n <= |s.bins| && scale.den > 0
  {
    && (forall r <- BuildTo(s, scale, n).rungs :: exists i :: 0 <= i < n && RungFor(s, scale, i, r))
    && (forall i :: 0 <= i < n && WorthARung(s, scale, i) ==> exists r <- BuildTo(s, scale, n).rungs :: RungFor(s, scale, i, r))
  }

  lemma RungsMatchStep(s: Shape, scale: Scale, n: nat)
    requires s.Valid() && 0 < n <= |s.bins| && scale.den > 0 && !scale.limitedBy.NoSide? && RungsMatch(s, scale, n - 1)
    ensures RungsMatch(s, scale, n)
  {
    hide BuildTo, Cost, ScaledLiquidity, MakeRung, RungFor, WorthARung;
    MadeFor(s, scale, n - 1);
    BuildStep(s, scale, n - 1);
    var before, after, l := BuildTo(s, scale, n - 1).rungs, BuildTo(s, scale, n).rungs, ScaledLiquidity(s.weights[n - 1], scale);
    if WorthARung(s, scale, n - 1) {
      MoreRungs(s, scale, n, before, MakeRung(s, n - 1, l));
    } else {
      assert after == before;
    }
  }

  lemma MoreRungs(s: Shape, scale: Scale, n: nat, before: seq<Rung>, last: Rung)
    requires s.Valid() && 0 < n <= |s.bins| && RungFor(s, scale, n - 1, last)
    requires forall r <- before :: exists i :: 0 <= i < n - 1 && RungFor(s, scale, i, r)
    requires forall i :: 0 <= i < n - 1 && WorthARung(s, scale, i) ==> exists r <- before :: RungFor(s, scale, i, r)
    ensures forall r <- before + [last] :: exists i :: 0 <= i < n && RungFor(s, scale, i, r)
    ensures forall i :: 0 <= i < n && WorthARung(s, scale, i) ==> exists r <- before + [last] :: RungFor(s, scale, i, r)
  {
    hide RungFor, WorthARung;
    forall i | 0 <= i < n && WorthARung(s, scale, i) ensures exists r <- before + [last] :: RungFor(s, scale, i, r) {
      if i < n - 1 {
        var r :| r in before && RungFor(s, scale, i, r);
        assert r in before + [last];
      } else {
        assert last in before + [last];
      }
    }
  }

  /**
   * The rungs at a scale, exactly: a bin has one if and only if its weight's
   * share of the scale is worth some amount there, and it then carries that
   * liquidity, at its cost, with minimums that allow the slippage and no more.
   */
  lemma {:induction false} RungsAre(s: Shape, scale: Scale, n: nat)
    requires s.Valid() && n <= |s.bins| && scale.den > 0 && !scale.limitedBy.NoSide?
    ensures RungsMatch(s, scale, n)
    decreases n
  {
    if n == 0 {
      assert BuildTo(s, scale, 0).rungs == [];
    } else {
      RungsAre(s, scale, n - 1);
      RungsMatchStep(s, scale, n);
    }
  }

  /** Liquidity goes by weight: any two rungs' are in the ratio of their weights, to within one unit each. */
  lemma InProportion(x: nat, y: nat, v: nat, w: nat, scale: Scale)
    requires scale.den > 0 && IsShare(x, v, scale) && IsShare(y, w, scale) && 0 < v
    ensures x * w < (y + 1) * v
  {
    var z := 1_000_000_000 * scale.num;
    assert v * 1_000_000_000 * scale.num == v * z && w * 1_000_000_000 * scale.num == w * z;
    // x*w*den <= v*w*z < (y+1)*den*v
    MulLe(x * scale.den, v * z, w);
    MulLt(w * z, (y + 1) * scale.den, v);
    Swap(x, w, scale.den);
    Swap(y + 1, v, scale.den);
    Swap(v, z, w);
    Swap(w, z, v);
    CancelStrict(x * w, (y + 1) * v, scale.den);
  }

  lemma CancelStrict(a: int, b: int, c: int)
    requires 0 < c && a * c < b * c
    ensures a < b
  {
    if b <= a { MulLe(b, a, c); }
  }

  lemma PlanRangeIs(input: PlanInput, weights: seq<nat>)
    requires Rejected(input).None? && ValidWeights(weights)
    ensures Outward(input, RangeLow(input), RangeHigh(input))
    ensures WellCut(ShapeOf(input, weights).bins, RangeLow(input), RangeHigh(input), input.tickSpacing, input.bins)
  {
    RangeIsOutward(input);
    RangeIsCut(input);
    CutIsWell(RangeLow(input), RangeHigh(input), input.tickSpacing, input.bins);
    hide RangeLow, RangeHigh, CutRange, Fits, Outward, WellCut, Ragged;
  }

  /**
   * Every plan: totals are the sums of its rungs and fit the budgets, rungs
   * are sound, in order and disjoint; they lie in the range the plan returns,
   * unless the cut is ragged, and then in the spacing beyond it at most; they
   * are on the grid when the range's ends are. The range is the given one
   * aligned outward, and it is cut into as many bins as wanted and as fit.
   */
  lemma PlanIsSound(input: PlanInput, weights: seq<nat>)
    requires ValidWeights(weights)
    ensures PlanOf(input, weights).Err? <==> PlanFails(input)
    ensures PlanOf(input, weights).Ok? ==>
              var plan, c := PlanOf(input, weights).value, CutOf(input);
              && plan.total0 <= input.budget0 && plan.total1 <= input.budget1
              && Total(plan.rungs) == Amounts(plan.total0, plan.total1)
              && |plan.rungs| <= MAX_BINS
              && (forall r <- plan.rungs :: Sound(ShapeOf(input, weights), r))
              && (forall i, j :: 0 <= i < j < |plan.rungs| ==> plan.rungs[i].tickUpper <= plan.rungs[j].tickLower)
              && (forall r <- plan.rungs :: plan.minTick <= r.tickLower < r.tickUpper <= c.end)
              && plan.maxTick <= c.end < plan.maxTick + input.tickSpacing
              && (c.end == plan.maxTick <==> !Ragged(plan.maxTick - plan.minTick, input.tickSpacing, Min(MAX_BINS, input.bins)))
              && Outward(input, plan.minTick, plan.maxTick)
              && WellCut(ShapeOf(input, weights).bins, plan.minTick, plan.maxTick, input.tickSpacing, input.bins)
              && (WellAligned(input) ==>
                    && c.end == plan.maxTick
                    && forall r <- plan.rungs :: r.tickLower % input.tickSpacing == 0 && r.tickUpper % input.tickSpacing == 0)
  {
    hide FinalScale, RangeLow, RangeHigh, Build, CutOf, CutRange, Ragged, Fits, BinsOf, Sound, Total, Ordered, PlanFails, Outward, WellCut;
    FailsIff(input);
    if Rejected(input).None? {
      var lo, c, s := RangeLow(input), CutOf(input), ShapeOf(input, weights);
      PlanRangeIs(input, weights);
      RangeIsCut(input);
      CutTiles(lo, c, input.tickSpacing);
      if WellAligned(input) { AlignedIsEven(input); }
      var scale := FinalScale(s, input.budget0, input.budget1);
      PlanFits(s, input.budget0, input.budget1);
      BuildIsSound(s, scale);
      RungsLie(s, Build(s, scale).rungs, lo, c.end, input.tickSpacing);
    }
  }

  /** What is built from bins that tile: sums, sound rungs, in order. */
  lemma BuildIsSound(s: Shape, scale: Scale)
    requires s.Valid() && scale.den > 0
    requires forall k :: 0 < k < |s.bins| ==> s.bins[k].lo == s.bins[k - 1].hi
    ensures var built := Build(s, scale);
            && Total(built.rungs) == Amounts(built.total0, built.total1)
            && |built.rungs| <= |s.bins|
            && (forall r <- built.rungs :: Sound(s, r))
            && (forall i, j :: 0 <= i < j < |built.rungs| ==> built.rungs[i].tickUpper <= built.rungs[j].tickLower)
  {
    forall i, j | 0 <= i < j < |s.bins| ensures s.bins[i].hi <= s.bins[j].lo {
      TilesOrdered(s.bins, i, j);
    }
    BuiltIsSound(s, scale, |s.bins|);
    AtMostOneRungPerBin(s, scale, |s.bins|);
    hide Sound, Total, BuildTo;
  }

  /** Rungs lie where the bins lie. */
  lemma RungsLie(s: Shape, rungs: seq<Rung>, lo: int, end: int, spacing: int)
    requires s.Valid() && spacing > 0 && forall r <- rungs :: Sound(s, r)
    requires forall i :: 0 <= i < |s.bins| ==> lo <= s.bins[i].lo < s.bins[i].hi <= end
    ensures forall r <- rungs :: lo <= r.tickLower < r.tickUpper <= end
    ensures (forall i :: 0 <= i < |s.bins| ==> s.bins[i].lo % spacing == 0 && s.bins[i].hi % spacing == 0)
            ==> forall r <- rungs :: r.tickLower % spacing == 0 && r.tickUpper % spacing == 0
  {
    hide Cost;
    forall r <- rungs ensures exists i :: 0 <= i < |s.bins| && Bin(r.tickLower, r.tickUpper) == s.bins[i] {
      var i :| 0 <= i < |s.bins| && SoundAt(s, r, i);
    }
    hide Sound, SoundAt;
  }

  lemma AlignedIsEven(input: PlanInput)
    requires input.tickSpacing > 0 && WellAligned(input)
    ensures !Ragged(RangeHigh(input) - RangeLow(input), input.tickSpacing, Min(MAX_BINS, input.bins))
  {
    var lo, hi, d := RangeLow(input), RangeHigh(input), input.tickSpacing;
    hide RangeLow, RangeHigh;
    var a, b := lo / d, hi / d;
    assert lo == a * d && hi == b * d;
    assert hi - lo == (b - a) * d;
    DivideMultiple(b - a, d);
  }

  lemma {:induction false} AtMostOneRungPerBin(s: Shape, scale: Scale, n: nat)
    requires s.Valid() && n <= |s.bins| && scale.den > 0
    ensures |BuildTo(s, scale, n).rungs| <= n
    decreases n
  {
    hide Cost, ScaledLiquidity;
    if n > 0 {
      AtMostOneRungPerBin(s, scale, n - 1);
    }
  }

  /**
   * The rungs of a plan: at one scale for all of them, a rung for each bin
   * worth one and no other, at the price of the given tick, with the given
   * weights and the slippage kept within 0 and 50 percent; and none at all
   * when the shape needs nothing.
   */
  lemma PlanRungsAre(input: PlanInput, weights: seq<nat>)
    requires ValidWeights(weights) && Rejected(input).None?
    ensures var plan, s := PlanOf(input, weights).value, ShapeOf(input, weights);
            && s.sqrtP == TickMath.SqrtPrice(input.tick) && s.weights == weights
            && s.slip == (if input.slippageBps < 0 then 0 else if 5_000 < input.slippageBps then 5_000 else input.slippageBps)
            && plan.limitedBy == FinalScale(s, input.budget0, input.budget1).limitedBy
            && if plan.limitedBy.NoSide? then plan.rungs == []
               else exists scale: Scale ::
                 && scale.den > 0 && plan.rungs == BuildTo(s, scale, |s.bins|).rungs && RungsMatch(s, scale, |s.bins|)
  {
    var s := ShapeOf(input, weights);
    var scale := FinalScale(s, input.budget0, input.budget1);
    hide FinalScale, RangeLow, RangeHigh, CutOf, CutRange, BinsOf, RungsMatch;
    if scale.limitedBy.NoSide? {
      NoRungsAtNoScale(s, scale, |s.bins|);
    } else {
      RungsAre(s, scale, |s.bins|);
    }
  }

  lemma {:induction false} NoRungsAtNoScale(s: Shape, scale: Scale, n: nat)
    requires s.Valid() && n <= |s.bins| && scale.den > 0 && scale.limitedBy.NoSide?
    ensures BuildTo(s, scale, n).rungs == []
    decreases n
  {
    hide Cost;
    if n > 0 {
      NoRungsAtNoScale(s, scale, n - 1);
    }
  }

  /** Below its bin a price asks for token0 only, and from its upper end on for token1 only. */
  lemma OneTokenOutside(tick: int, b: Bin, l: nat)
    requires ValidBin(b) && TickMath.InRange(tick)
    ensures 0 < TickMath.SqrtPrice(tick)
    ensures tick < b.lo ==> Cost(TickMath.SqrtPrice(tick), b, l).amount1 == 0
    ensures b.hi <= tick ==> Cost(TickMath.SqrtPrice(tick), b, l).amount0 == 0
  {
    hide TickMath.SqrtPrice, Amount0For, Amount1For;
    PricesKeepOrder(tick, b);
  }

  lemma PricesKeepOrder(tick: int, b: Bin)
    requires ValidBin(b) && TickMath.InRange(tick)
    ensures var p, lo, hi := TickMath.SqrtPrice(tick), TickMath.SqrtPrice(b.lo), TickMath.SqrtPrice(b.hi);
            0 < p && 0 < lo < hi && (tick < b.lo ==> p < lo) && (b.hi <= tick ==> hi <= p)
  {
    hide TickMath.SqrtPrice;
    TickMath.PriceBounds(tick);
    BinHasWidth(b);
    if tick < b.lo { TickMath.StrictlyIncreasing(tick, b.lo); }
    if b.hi < tick { TickMath.StrictlyIncreasing(b.hi, tick); }
  }

  /**
   * The side a plan is said to need: token1 alone when its range lies at or
   * below the tick, token0 alone when it lies above, and then no rung takes
   * the other token, unless a ragged cut reaches beyond the range.
   */
  lemma SingleSidedMeans(input: PlanInput, weights: seq<nat>)
    requires ValidWeights(weights) && Rejected(input).None?
    ensures var plan := PlanOf(input, weights).value;
            && (plan.singleSided == Only1 <==> plan.maxTick <= input.tick)
            && (plan.singleSided == Only0 <==> input.tick < plan.minTick)
            && (plan.singleSided == Only0 ==> forall r <- plan.rungs :: r.amount1 == 0)
            && (plan.singleSided == Only1 && CutOf(input).end == plan.maxTick ==> forall r <- plan.rungs :: r.amount0 == 0)
  {
    hide FinalScale, RangeLow, RangeHigh, Build, CutOf, Ragged, Fits, BinsOf, Total, Cost, Outward, WellCut, PlanFails;
    RangeIsCut(input);
    PlanIsSound(input, weights);
    var plan, s := PlanOf(input, weights).value, ShapeOf(input, weights);
    assert s.sqrtP == TickMath.SqrtPrice(input.tick);
    forall r <- plan.rungs
      ensures input.tick < plan.minTick ==> r.amount1 == 0
      ensures CutOf(input).end <= input.tick ==> r.amount0 == 0
    {
      var i :| 0 <= i < |s.bins| && SoundAt(s, r, i);
      OneTokenOutside(input.tick, s.bins[i], r.liquidity);
    }
  }
}
