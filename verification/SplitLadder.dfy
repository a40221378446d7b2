// The split allocation: cut a range into nearly equal bins and hand each
// token's whole budget out over the bins that can hold it. Shape weights are
// floats in the source and enter as the positive integers it rounds them to.
module SplitLadder {
  import opened Common

  datatype Side = Token0 | Token1 | Both

  datatype Rung = Rung(index: nat, tickLower: int, tickUpper: int, side: Side, weight: nat, amount0: nat, amount1: nat)

  datatype Bounds = Bounds(tickLower: int, tickUpper: int)

  function SideAt(tick: int, b: Bounds): Side {
    if tick >= b.tickUpper then Token1 else if tick < b.tickLower then Token0 else Both
  }

  // ------------------------------------------------------ cutting bins

  /** Math.round(x / d): the nearest integer, halves up. */
  function RoundDiv(x: int, d: int): int
    requires d > 0
  {
    (2 * x + d) / (2 * d)
  }

  /** Math.round(tick / spacing), for a spacing of either sign. */
  function Nearest(tick: int, spacing: int): int
    requires spacing != 0
  {
    if spacing > 0 then RoundDiv(tick, spacing) else RoundDiv(-tick, -spacing)
  }

  function LowEnd(minTick: int, maxTick: int, spacing: int): int
    requires spacing != 0
  {
    Nearest(Min(minTick, maxTick), spacing) * spacing
  }

  function HighEnd(minTick: int, maxTick: int, spacing: int): int
    requires spacing != 0
  {
    Nearest(Max(minTick, maxTick), spacing) * spacing
  }

  function Spacings(minTick: int, maxTick: int, spacing: int): nat
    requires spacing > 0
  {
    Max(0, RoundDiv(Max(minTick, maxTick), spacing) - RoundDiv(Min(minTick, maxTick), spacing))
  }

  function BinCount(bins: int, spacings: nat): (n: nat)
    ensures 1 <= n && (1 <= spacings ==> n <= spacings)
  {
    Max(1, Min(if bins == 0 then 1 else bins, spacings))
  }

  /** Where bin i begins and bin i-1 ends. */
  function Cut(lo: int, spacing: int, spacings: nat, n: nat, i: nat): int
    requires n > 0
  {
    lo + spacings * i / n * spacing
  }

  function Bins(lo: int, spacing: int, spacings: nat, n: nat): (bs: seq<Bounds>)
    requires n > 0
    ensures |bs| == n
  {
    seq(n, i requires 0 <= i < n => Bounds(Cut(lo, spacing, spacings, n, i), Cut(lo, spacing, spacings, n, i + 1)))
  }

  lemma StepWidth(s: nat, n: nat, i: nat)
    requires 0 < n <= s
    ensures s / n <= s * (i + 1) / n - s * i / n <= s / n + 1
    ensures 1 <= s / n
  {
    var f, x, y := s / n, s * i / n, s * (i + 1) / n;
    Floor(s, n);
    Floor(s * i, n);
    Floor(s * (i + 1), n);
    FitsQuotient(1, s, n);
    assert s * (i + 1) == s * i + s;
    assert (y - x) * n == y * n - x * n;
    if y - x < f { MulLe(y - x + 1, f, n); }
    if y - x > f + 1 { MulLe(f + 2, y - x, n); }
  }

  /**
   * The bins tile the aligned range on the spacing grid, each at least one
   * spacing wide, and any two widths differ by at most one spacing.
   */
  lemma BinsTile(lo: int, spacing: int, spacings: nat, n: nat)
    requires spacing > 0 && 0 < n <= spacings
    ensures var bs, w := Bins(lo, spacing, spacings, n), spacings / n * spacing;
            && bs[0].tickLower == lo && bs[n - 1].tickUpper == lo + spacings * spacing
            && (forall i :: 0 < i < n ==> bs[i].tickLower == bs[i - 1].tickUpper)
            && (forall i :: 0 <= i < n ==> bs[i].tickLower < bs[i].tickUpper)
            && (forall i :: 0 <= i < n ==> w <= bs[i].tickUpper - bs[i].tickLower <= w + spacing)
  {
    var bs := Bins(lo, spacing, spacings, n);
    WholeCut(spacings, n);
    assert bs[0].tickLower == lo + 0 * spacing;
    forall i | 0 <= i < n
      ensures bs[i] == Bounds(Cut(lo, spacing, spacings, n, i), Cut(lo, spacing, spacings, n, i + 1))
      ensures bs[i].tickLower < bs[i].tickUpper
      ensures spacings / n * spacing <= bs[i].tickUpper - bs[i].tickLower <= spacings / n * spacing + spacing
    {
      CutWidth(lo, spacing, spacings, n, i);
    }
    hide Cut;
  }

  lemma CutWidth(lo: int, spacing: int, s: nat, n: nat, i: nat)
    requires spacing > 0 && 0 < n <= s
    ensures var w := Cut(lo, spacing, s, n, i + 1) - Cut(lo, spacing, s, n, i);
            0 < w && s / n * spacing <= w <= s / n * spacing + spacing
  {
    StepWidth(s, n, i);
    Widths(s * i / n, s * (i + 1) / n, s / n, spacing);
  }

  lemma Widths(x: int, y: int, f: int, spacing: int)
    requires spacing > 0 && 1 <= f <= y - x <= f + 1
    ensures 0 < y * spacing - x * spacing && f * spacing <= y * spacing - x * spacing <= f * spacing + spacing
  {
    assert y * spacing - x * spacing == (y - x) * spacing;
    MulLe(f, y - x, spacing);
    MulLe(y - x, f + 1, spacing);
    MulLe(1, f, spacing);
  }

  lemma WholeCut(s: nat, n: nat)
    requires n > 0
    ensures s * 0 / n == 0 && s * n / n == s
  {
    QuotientIs(s, s * n, n);
  }

  ghost predicate Ordered(bs: seq<Bounds>) {
    && (forall i :: 0 <= i < |bs| ==> bs[i].tickLower < bs[i].tickUpper)
    && (forall i, j :: 0 <= i < j < |bs| ==> bs[i].tickUpper <= bs[j].tickLower)
  }

  lemma {:induction false} CutsRise(lo: int, spacing: int, spacings: nat, n: nat, i: nat, j: nat)
    requires spacing > 0 && 0 < n <= spacings && i <= j
    ensures Cut(lo, spacing, spacings, n, i) <= Cut(lo, spacing, spacings, n, j)
    decreases j
  {
    if i < j {
      CutsRise(lo, spacing, spacings, n, i, j - 1);
      StepWidth(spacings, n, j - 1);
      MulLe(spacings * (j - 1) / n, spacings * j / n, spacing);
    }
  }

  lemma BinsAreOrdered(lo: int, spacing: int, spacings: nat, n: nat)
    requires spacing > 0 && 0 < n <= spacings
    ensures Ordered(Bins(lo, spacing, spacings, n))
  {
    BinsTile(lo, spacing, spacings, n);
    var bs := Bins(lo, spacing, spacings, n);
    forall i, j | 0 <= i < j < n ensures bs[i].tickUpper <= bs[j].tickLower {
      CutsRise(lo, spacing, spacings, n, i + 1, j);
    }
  }

  function Rank(side: Side): nat {
    match side case Token1 => 0 case Both => 1 case Token0 => 2
  }

  /** Along ordered bins the sides read token1, then at most one both, then token0. */
  lemma SidesInOrder(bs: seq<Bounds>, tick: int, i: nat, j: nat)
    requires Ordered(bs) && i < j < |bs|
    ensures Rank(SideAt(tick, bs[i])) <= Rank(SideAt(tick, bs[j]))
    ensures !(SideAt(tick, bs[i]).Both? && SideAt(tick, bs[j]).Both?)
  {
    assert bs[i].tickUpper <= bs[j].tickLower && bs[i].tickLower < bs[i].tickUpper && bs[j].tickLower < bs[j].tickUpper;
  }

  // --------------------------------------------------- handing out one token

  /** Who holds the token being handed out: everyone but the other token's side. */
  predicate Holds(side: Side, other: Side) {
    side != other
  }

  function WeightOf(rs: seq<Rung>, other: Side, n: nat): nat
    requires n <= |rs|
    decreases n
  {
    if n == 0 then 0 else WeightOf(rs, other, n - 1) + if Holds(rs[n - 1].side, other) then rs[n - 1].weight else 0
  }

  /** The last rung among the first n that holds the token. */
  function LastHolder(rs: seq<Rung>, other: Side, n: nat): (r: Option<nat>)
    requires n <= |rs|
    ensures r.Some? ==> r.value < n && Holds(rs[r.value].side, other) && forall i :: r.value < i < n ==> !Holds(rs[i].side, other)
    ensures r.None? ==> forall i :: 0 <= i < n ==> !Holds(rs[i].side, other)
    decreases n
  {
    if n == 0 then None
    else if Holds(rs[n - 1].side, other) then Some(n - 1)
    else LastHolder(rs, other, n - 1)
  }

  function PartOf(total: nat, weight: nat, sum: nat): nat
    requires sum > 0
  {
    total * weight / sum
  }

  /** The share of rung i: proportional and rounded down, except that the last holder takes what is left. */
  function ShareAt(rs: seq<Rung>, other: Side, total: nat, i: nat): int
    requires i < |rs| && WeightOf(rs, other, |rs|) > 0
    decreases i, 2
  {
    if !Holds(rs[i].side, other) then 0
    else if LastHolder(rs, other, |rs|) == Some(i) then total - Given(rs, other, total, i)
    else PartOf(total, rs[i].weight, WeightOf(rs, other, |rs|))
  }

  /** What the first n rungs were given. */
  function Given(rs: seq<Rung>, other: Side, total: nat, n: nat): int
    requires n <= |rs| && WeightOf(rs, other, |rs|) > 0
    decreases n, 1
  {
    if n == 0 then 0 else Given(rs, other, total, n - 1) + ShareAt(rs, other, total, n - 1)
  }

  /** Up to the last holder, no more than the proportional part has been given. */
  lemma {:induction false} GivenFits(rs: seq<Rung>, other: Side, total: nat, n: nat)
    requires WeightOf(rs, other, |rs|) > 0
    requires LastHolder(rs, other, |rs|).Some? && n <= LastHolder(rs, other, |rs|).value
    ensures 0 <= Given(rs, other, total, n)
    ensures Given(rs, other, total, n) * WeightOf(rs, other, |rs|) <= total * WeightOf(rs, other, n)
    decreases n
  {
    if n > 0 {
      GivenFits(rs, other, total, n - 1);
      var sum, w := WeightOf(rs, other, |rs|), rs[n - 1].weight;
      if Holds(rs[n - 1].side, other) {
        Floor(total * w, sum);
        AddPart(Given(rs, other, total, n - 1), PartOf(total, w, sum), sum, total, WeightOf(rs, other, n - 1), w);
      }
    }
  }

  lemma AddPart(given: int, part: int, sum: nat, total: nat, before: nat, w: nat)
    requires given * sum <= total * before && part * sum <= total * w
    ensures (given + part) * sum <= total * (before + w)
  {
  }

  lemma {:induction false} WeightRises(rs: seq<Rung>, other: Side, n: nat, m: nat)
    requires n <= m <= |rs|
    ensures WeightOf(rs, other, n) <= WeightOf(rs, other, m)
    decreases m
  {
    if n < m {
      WeightRises(rs, other, n, m - 1);
    }
  }

  lemma {:induction false} NothingAfterLast(rs: seq<Rung>, other: Side, total: nat, n: nat)
    requires WeightOf(rs, other, |rs|) > 0 && n <= |rs|
    requires LastHolder(rs, other, |rs|).Some? && LastHolder(rs, other, |rs|).value < n
    ensures Given(rs, other, total, n) == total
    decreases n
  {
    var last := LastHolder(rs, other, |rs|).value;
    if n > last + 1 {
      NothingAfterLast(rs, other, total, n - 1);
      assert !Holds(rs[n - 1].side, other);
    }
  }

  /** The whole budget is handed out, exactly, in non-negative shares, as soon as some rung can hold the token. */
  lemma BudgetHandedOut(rs: seq<Rung>, other: Side, total: nat)
    requires WeightOf(rs, other, |rs|) > 0
    ensures LastHolder(rs, other, |rs|).Some?
    ensures Given(rs, other, total, |rs|) == total
    ensures forall i :: 0 <= i < |rs| ==> 0 <= ShareAt(rs, other, total, i)
  {
    var sum := WeightOf(rs, other, |rs|);
    NoHolderNoWeight(rs, other, |rs|);
    var last := LastHolder(rs, other, |rs|).value;
    NothingAfterLast(rs, other, total, |rs|);
    GivenFits(rs, other, total, last);
    WeightRises(rs, other, last, |rs|);
    LeavesSomething(Given(rs, other, total, last), WeightOf(rs, other, last), sum, total);
    forall i | 0 <= i < |rs| ensures 0 <= ShareAt(rs, other, total, i) {
    }
  }

  lemma LeavesSomething(given: int, before: nat, sum: nat, total: nat)
    requires 0 < sum && before <= sum && given * sum <= total * before
    ensures given <= total
  {
    MulLe(before, sum, total);
    Cancel(given, total, sum);
  }

  lemma {:induction false} NoHolderNoWeight(rs: seq<Rung>, other: Side, n: nat)
    requires n <= |rs|
    ensures LastHolder(rs, other, n).None? ==> WeightOf(rs, other, n) == 0
    ensures LastHolder(rs, other, n).Some? && (forall r <- rs :: r.weight > 0) ==> WeightOf(rs, other, n) > 0
    decreases n
  {
    if n > 0 {
      NoHolderNoWeight(rs, other, n - 1);
    }
  }

  // ------------------------------------------------------ allocateRungs

  predicate PositiveWeights(weights: seq<nat>, n: nat) {
    |weights| == n && forall i :: 0 <= i < n ==> weights[i] > 0
  }

  /** The rungs before any budget is handed out. */
  function Blank(bounds: seq<Bounds>, tick: int, weights: seq<nat>): (rs: seq<Rung>)
    requires |weights| == |bounds|
    ensures |rs| == |bounds|
  {
    seq(|bounds|, i requires 0 <= i < |bounds| =>
      Rung(i, bounds[i].tickLower, bounds[i].tickUpper, SideAt(tick, bounds[i]), weights[i], 0, 0))
  }

  function AmountAt(rs: seq<Rung>, other: Side, total: nat, i: nat): nat
    requires i < |rs|
  {
    if WeightOf(rs, other, |rs|) == 0 then 0
    else
      BudgetHandedOut(rs, other, total);
      ShareAt(rs, other, total, i)
  }

  /** Every rung with its shares of both budgets. */
  function Allocated(bounds: seq<Bounds>, tick: int, weights: seq<nat>, budget0: nat, budget1: nat): (rs: seq<Rung>)
    requires |weights| == |bounds|
    ensures |rs| == |bounds|
  {
    var blank := Blank(bounds, tick, weights);
    seq(|bounds|, i requires 0 <= i < |bounds| =>
      blank[i].(amount0 := AmountAt(blank, Token1, budget0, i), amount1 := AmountAt(blank, Token0, budget1, i)))
  }

  /** A straddling bin needs both tokens; any other one needs something. */
  predicate Keep(r: Rung) {
    (r.amount0 > 0 || r.amount1 > 0) && (r.side != Both || (r.amount0 > 0 && r.amount1 > 0))
  }

  function Kept(rs: seq<Rung>, n: nat): seq<Rung>
    requires n <= |rs|
    decreases n
  {
    if n == 0 then [] else Kept(rs, n - 1) + if Keep(rs[n - 1]) then [rs[n - 1]] else []
  }

  function AllocateOf(bounds: seq<Bounds>, tick: int, weights: seq<nat>, budget0: nat, budget1: nat): seq<Rung>
    requires |weights| == |bounds|
  {
    Kept(Allocated(bounds, tick, weights, budget0, budget1), |bounds|)
  }

  // -------------------------------------- kept, dropped and handed out

  function Amount(r: Rung, token: Side): nat {
    if token.Token0? then r.amount0 else r.amount1
  }

  function TotalOf(rs: seq<Rung>, token: Side): nat {
    if rs == [] then 0 else TotalOf(rs[..|rs| - 1], token) + Amount(rs[|rs| - 1], token)
  }

  /** The dropped straddling rungs' amounts. */
  function DroppedOf(rs: seq<Rung>, n: nat, token: Side): nat
    requires n <= |rs|
    decreases n
  {
    if n == 0 then 0
    else DroppedOf(rs, n - 1, token) + if rs[n - 1].side.Both? && !Keep(rs[n - 1]) then Amount(rs[n - 1], token) else 0
  }

  lemma TotalSnoc(rs: seq<Rung>, r: Rung, token: Side)
    ensures TotalOf(rs + [r], token) == TotalOf(rs, token) + Amount(r, token)
  {
    assert (rs + [r])[..|rs|] == rs;
  }

  lemma {:induction false} KeptAndDropped(rs: seq<Rung>, n: nat, token: Side)
    requires n <= |rs|
    ensures TotalOf(Kept(rs, n), token) + DroppedOf(rs, n, token) == TotalOf(rs[..n], token)
    decreases n
  {
    if n > 0 {
      KeptAndDropped(rs, n - 1, token);
      assert rs[..n] == rs[..n - 1] + [rs[n - 1]];
      TotalSnoc(rs[..n - 1], rs[n - 1], token);
      if Keep(rs[n - 1]) {
        TotalSnoc(Kept(rs, n - 1), rs[n - 1], token);
      } else {
        assert Kept(rs, n - 1) + [] == Kept(rs, n - 1);
      }
    }
  }

  lemma {:induction false} AllocatedTotals(bounds: seq<Bounds>, tick: int, weights: seq<nat>, budget0: nat, budget1: nat, n: nat)
    requires |weights| == |bounds| && n <= |bounds|
    ensures var blank, rs := Blank(bounds, tick, weights), Allocated(bounds, tick, weights, budget0, budget1);
            && TotalOf(rs[..n], Token0) == (if WeightOf(blank, Token1, |blank|) == 0 then 0 else Given(blank, Token1, budget0, n))
            && TotalOf(rs[..n], Token1) == (if WeightOf(blank, Token0, |blank|) == 0 then 0 else Given(blank, Token0, budget1, n))
    decreases n
  {
    if n > 0 {
      AllocatedTotals(bounds, tick, weights, budget0, budget1, n - 1);
      var rs := Allocated(bounds, tick, weights, budget0, budget1);
      assert rs[..n] == rs[..n - 1] + [rs[n - 1]];
      TotalSnoc(rs[..n - 1], rs[n - 1], Token0);
      TotalSnoc(rs[..n - 1], rs[n - 1], Token1);
    }
  }

  predicate SomeHolds(bounds: seq<Bounds>, tick: int, other: Side) {
    exists i :: 0 <= i < |bounds| && SideAt(tick, bounds[i]) != other
  }

  lemma HolderIffWeight(bounds: seq<Bounds>, tick: int, weights: seq<nat>, other: Side)
    requires PositiveWeights(weights, |bounds|)
    ensures WeightOf(Blank(bounds, tick, weights), other, |bounds|) > 0 <==> SomeHolds(bounds, tick, other)
  {
    var blank := Blank(bounds, tick, weights);
    NoHolderNoWeight(blank, other, |bounds|);
    match LastHolder(blank, other, |bounds|)
    case Some(i) => assert SideAt(tick, bounds[i]) != other;
    case None => assert forall i :: 0 <= i < |bounds| ==> SideAt(tick, bounds[i]) == blank[i].side;
  }

  /**
   * Before the filter each budget is handed out to the unit, unless no rung
   * can hold the token, and then none of it; after the filter, what is kept
   * falls short of that by exactly the dropped straddling rungs' shares.
   */
  lemma KeptFallsShortByStraddlers(bounds: seq<Bounds>, tick: int, weights: seq<nat>, budget0: nat, budget1: nat)
    requires PositiveWeights(weights, |bounds|)
    ensures var rs, kept := Allocated(bounds, tick, weights, budget0, budget1), AllocateOf(bounds, tick, weights, budget0, budget1);
            && TotalOf(rs, Token0) == (if SomeHolds(bounds, tick, Token1) then budget0 else 0)
            && TotalOf(rs, Token1) == (if SomeHolds(bounds, tick, Token0) then budget1 else 0)
            && TotalOf(kept, Token0) + DroppedOf(rs, |rs|, Token0) == TotalOf(rs, Token0)
            && TotalOf(kept, Token1) + DroppedOf(rs, |rs|, Token1) == TotalOf(rs, Token1)
  {
    var blank, rs := Blank(bounds, tick, weights), Allocated(bounds, tick, weights, budget0, budget1);
    AllocatedTotals(bounds, tick, weights, budget0, budget1, |bounds|);
    assert rs[..|bounds|] == rs;
    HolderIffWeight(bounds, tick, weights, Token1);
    HolderIffWeight(bounds, tick, weights, Token0);
    if SomeHolds(bounds, tick, Token1) { BudgetHandedOut(blank, Token1, budget0); }
    if SomeHolds(bounds, tick, Token0) { BudgetHandedOut(blank, Token0, budget1); }
    KeptAndDropped(rs, |rs|, Token0);
    KeptAndDropped(rs, |rs|, Token1);
  }

  /** On ordered bins only one rung can straddle, so at most that one is dropped with anything in it. */
  lemma {:induction false} OneStraddlerDropped(rs: seq<Rung>, n: nat, k: nat, token: Side)
    requires n <= |rs| && k < |rs| && rs[k].side.Both? && forall i :: 0 <= i < |rs| && i != k ==> !rs[i].side.Both?
    ensures DroppedOf(rs, n, token) == if k < n && !Keep(rs[k]) then Amount(rs[k], token) else 0
    decreases n
  {
    if n > 0 {
      OneStraddlerDropped(rs, n - 1, k, token);
    }
  }

  lemma {:induction false} NoStraddlerNoneDropped(rs: seq<Rung>, n: nat, token: Side)
    requires n <= |rs| && forall i :: 0 <= i < |rs| ==> !rs[i].side.Both?
    ensures DroppedOf(rs, n, token) == 0
    decreases n
  {
    if n > 0 {
      NoStraddlerNoneDropped(rs, n - 1, token);
    }
  }

  // --------------------------------------------------------- splitLadder

  /**
   * The bins splitLadder cuts. A zero spacing divides to NaN, which is never
   * a range; a negative one leaves room for a single bin.
   */
  function CutRange(minTick: int, maxTick: int, spacing: int, bins: int): seq<Bounds> {
    if spacing == 0 then []
    else
      var lo, hi := LowEnd(minTick, maxTick, spacing), HighEnd(minTick, maxTick, spacing);
      if hi <= lo then []
      else if spacing < 0 then [Bounds(lo, hi)]
      else
        var spacings := Spacings(minTick, maxTick, spacing);
        Bins(lo, spacing, spacings, BinCount(bins, spacings))
  }

  function SplitLadderOf(tick: int, spacing: int, minTick: int, maxTick: int, bins: int, weights: seq<nat>, budget0: nat, budget1: nat): seq<Rung>
    requires PositiveWeights(weights, |CutRange(minTick, maxTick, spacing, bins)|)
  {
    AllocateOf(CutRange(minTick, maxTick, spacing, bins), tick, weights, budget0, budget1)
  }

  lemma RangeInSpacings(minTick: int, maxTick: int, spacing: int)
    requires spacing > 0
    ensures var lo, hi, n := LowEnd(minTick, maxTick, spacing), HighEnd(minTick, maxTick, spacing), Spacings(minTick, maxTick, spacing);
            (hi <= lo <==> n == 0) && (n > 0 ==> hi == lo + n * spacing)
  {
    var x, y := RoundDiv(Min(minTick, maxTick), spacing), RoundDiv(Max(minTick, maxTick), spacing);
    if x < y { MulLt(x, y, spacing); } else { MulLe(y, x, spacing); }
    assert (y - x) * spacing == y * spacing - x * spacing;
  }

  ghost predicate Tiling(bs: seq<Bounds>, lo: int, hi: int) {
    && bs != [] && Ordered(bs) && bs[0].tickLower == lo && bs[|bs| - 1].tickUpper == hi
    && (forall i :: 0 < i < |bs| ==> bs[i].tickLower == bs[i - 1].tickUpper)
  }

  /** The empty-bin skip is dead: a cut bin is never empty, so no rung is ever left out of the tiling. */
  lemma SplitBinsTile(minTick: int, maxTick: int, spacing: int, bins: int)
    ensures var bs := CutRange(minTick, maxTick, spacing, bins);
            && (bs == [] <==> spacing == 0 || HighEnd(minTick, maxTick, spacing) <= LowEnd(minTick, maxTick, spacing))
            && (bs != [] ==> Tiling(bs, LowEnd(minTick, maxTick, spacing), HighEnd(minTick, maxTick, spacing)))
  {
    if spacing > 0 {
      RangeInSpacings(minTick, maxTick, spacing);
      var lo, spacings := LowEnd(minTick, maxTick, spacing), Spacings(minTick, maxTick, spacing);
      if spacings > 0 {
        BinsTile(lo, spacing, spacings, BinCount(bins, spacings));
        BinsAreOrdered(lo, spacing, spacings, BinCount(bins, spacings));
      }
    }
  }

  /** Inside a tiled range the price lies in some bin. */
  lemma {:induction false} BinOf(bs: seq<Bounds>, lo: int, hi: int, tick: int, i: nat) returns (k: nat)
    requires Tiling(bs, lo, hi) && i < |bs| && bs[i].tickLower <= tick < hi
    ensures k < |bs| && bs[k].tickLower <= tick < bs[k].tickUpper
    decreases |bs| - i
  {
    if tick < bs[i].tickUpper {
      k := i;
    } else {
      k := BinOf(bs, lo, hi, tick, i + 1);
    }
  }

  /** Token0 has a home exactly below the upper end, token1 exactly from the lower end on. */
  lemma WhoHolds(bs: seq<Bounds>, lo: int, hi: int, tick: int)
    requires Tiling(bs, lo, hi)
    ensures SomeHolds(bs, tick, Token1) <==> tick < hi
    ensures SomeHolds(bs, tick, Token0) <==> lo <= tick
  {
    var n := |bs|;
    assert SideAt(tick, bs[n - 1]) != Token1 <==> tick < hi;
    assert SideAt(tick, bs[0]) != Token0 <==> lo <= tick;
    assert forall i :: 0 <= i < n - 1 ==> bs[i].tickUpper <= bs[n - 1].tickLower;
    assert forall i :: 0 < i < n ==> bs[0].tickUpper <= bs[i].tickLower;
  }

  /** The amount of a token that a rung loses to the filter. */
  function Lost(r: Rung, token: Side): nat {
    if Keep(r) then 0 else Amount(r, token)
  }

  /**
   * splitLadder as a whole. With the price outside the range no rung
   * straddles it, and the one token the range can hold is kept to the unit.
   * Inside, both budgets are kept to the unit but for the one rung that
   * holds the price, when one of its two shares is zero.
   */
  lemma SplitLadderKeeps(tick: int, spacing: int, minTick: int, maxTick: int, bins: int, weights: seq<nat>, budget0: nat, budget1: nat)
      returns (home: Option<nat>)
    requires spacing != 0 && LowEnd(minTick, maxTick, spacing) < HighEnd(minTick, maxTick, spacing)
    requires PositiveWeights(weights, |CutRange(minTick, maxTick, spacing, bins)|)
    ensures var lo, hi, bs := LowEnd(minTick, maxTick, spacing), HighEnd(minTick, maxTick, spacing), CutRange(minTick, maxTick, spacing, bins);
            var rs := Allocated(bs, tick, weights, budget0, budget1);
            var kept := SplitLadderOf(tick, spacing, minTick, maxTick, bins, weights, budget0, budget1);
            && (home.Some? <==> lo <= tick < hi)
            && (home.Some? ==> home.value < |bs| && bs[home.value].tickLower <= tick < bs[home.value].tickUpper)
            && TotalOf(kept, Token0) == (if tick < hi then budget0 else 0) - (if home.Some? then Lost(rs[home.value], Token0) else 0)
            && TotalOf(kept, Token1) == (if lo <= tick then budget1 else 0) - (if home.Some? then Lost(rs[home.value], Token1) else 0)
  {
    var lo, hi, bs := LowEnd(minTick, maxTick, spacing), HighEnd(minTick, maxTick, spacing), CutRange(minTick, maxTick, spacing, bins);
    SplitBinsTile(minTick, maxTick, spacing, bins);
    hide LowEnd, HighEnd, CutRange;
    home := KeptInTiles(bs, lo, hi, tick, weights, budget0, budget1);
  }

  lemma KeptInTiles(bs: seq<Bounds>, lo: int, hi: int, tick: int, weights: seq<nat>, budget0: nat, budget1: nat) returns (home: Option<nat>)
    requires Tiling(bs, lo, hi) && PositiveWeights(weights, |bs|)
    ensures var rs, kept := Allocated(bs, tick, weights, budget0, budget1), AllocateOf(bs, tick, weights, budget0, budget1);
            && (home.Some? <==> lo <= tick < hi)
            && (home.Some? ==> home.value < |bs| && bs[home.value].tickLower <= tick < bs[home.value].tickUpper)
            && TotalOf(kept, Token0) == (if tick < hi then budget0 else 0) - (if home.Some? then Lost(rs[home.value], Token0) else 0)
            && TotalOf(kept, Token1) == (if lo <= tick then budget1 else 0) - (if home.Some? then Lost(rs[home.value], Token1) else 0)
  {
    hide TotalOf, AllocateOf, Keep, Amount, SomeHolds;
    var rs := Allocated(bs, tick, weights, budget0, budget1);
    KeptFallsShortByStraddlers(bs, tick, weights, budget0, budget1);
    WhoHolds(bs, lo, hi, tick);
    forall i | 0 <= i < |rs| ensures rs[i].side == SideAt(tick, bs[i]) {
    }
    hide Allocated;
    if lo <= tick < hi {
      var k := BinOf(bs, lo, hi, tick, 0);
      home := Some(k);
      forall i | 0 <= i < |rs| && i != k ensures !rs[i].side.Both? {
        if i < k { SidesInOrder(bs, tick, i, k); } else { SidesInOrder(bs, tick, k, i); }
      }
      OneStraddlerDropped(rs, |rs|, k, Token0);
      OneStraddlerDropped(rs, |rs|, k, Token1);
    } else {
      home := None;
      forall i | 0 <= i < |rs| ensures !rs[i].side.Both? {
        assert lo <= bs[i].tickLower && bs[i].tickUpper <= hi;
      }
      NoStraddlerNoneDropped(rs, |rs|, Token0);
      NoStraddlerNoneDropped(rs, |rs|, Token1);
    }
  }

  // -------------------------------------------------------- the methods

  method CutBins(lo: int, spacing: int, spacings: nat, n: nat) returns (bs: seq<Bounds>)
    requires spacing > 0 && 0 < n <= spacings
    ensures bs == Bins(lo, spacing, spacings, n)
  {
    bs := [];
    for i := 0 to n
      invariant bs == Bins(lo, spacing, spacings, n)[..i]
    {
      var a := lo + spacings * i / n * spacing;
      var b := lo + spacings * (i + 1) / n * spacing;
      CutWidth(lo, spacing, spacings, n, i);
      if b <= a { continue; }
      assert Bins(lo, spacing, spacings, n)[..i + 1] == Bins(lo, spacing, spacings, n)[..i] + [Bounds(a, b)];
      bs := bs + [Bounds(a, b)];
    }
  }

  /** Rung i once the budget has been handed out. */
  function SharedRung(rs: seq<Rung>, other: Side, total: nat, i: nat): Rung
    requires i < |rs|
  {
    if !Holds(rs[i].side, other) || total == 0 then rs[i]
    else if other.Token1? then rs[i].(amount0 := AmountAt(rs, other, total, i))
    else rs[i].(amount1 := AmountAt(rs, other, total, i))
  }

  lemma NobodyShares(rs: seq<Rung>, other: Side, total: nat)
    requires total == 0 || LastHolder(rs, other, |rs|).None?
    ensures forall i :: 0 <= i < |rs| ==> SharedRung(rs, other, total, i) == rs[i]
  {
  }

  /** The amount the loop computes for a holder is its share. */
  lemma HolderGets(rs: seq<Rung>, other: Side, total: nat, i: nat, last: nat, given: int)
    requires i < |rs| && WeightOf(rs, other, |rs|) > 0 && total > 0
    requires LastHolder(rs, other, |rs|) == Some(last) && given == Given(rs, other, total, i)
    ensures var amt := if i == last then total - given else PartOf(total, rs[i].weight, WeightOf(rs, other, |rs|));
            if Holds(rs[i].side, other) then
              && amt >= 0 && Given(rs, other, total, i + 1) == given + amt
              && SharedRung(rs, other, total, i) == if other.Token1? then rs[i].(amount0 := amt) else rs[i].(amount1 := amt)
            else SharedRung(rs, other, total, i) == rs[i] && Given(rs, other, total, i + 1) == given
  {
    BudgetHandedOut(rs, other, total);
    assert 0 <= ShareAt(rs, other, total, i);
  }

  /** One budget written into the rungs that can hold it, in place. */
  method Share(rungs: array<Rung>, other: Side, total: nat)
    requires forall r <- rungs[..] :: r.weight > 0
    modifies rungs
    ensures forall i :: 0 <= i < rungs.Length ==> rungs[i] == SharedRung(old(rungs[..]), other, total, i)
  {
    ghost var rs := rungs[..];
    var sum, last := SumWeights(rungs, other);
    NoHolderNoWeight(rs, other, |rs|);
    if sum == 0 || total == 0 {
      NobodyShares(rs, other, total);
      return;
    }
    hide SharedRung, WeightOf, LastHolder, ShareAt, Given, PartOf;
    assert Given(rs, other, total, 0) == 0 by { GivenNone(rs, other, total); }
    var given: int := 0;
    for i := 0 to rungs.Length
      invariant given == Given(rs, other, total, i)
      invariant forall k :: i <= k < rungs.Length ==> rungs[k] == rs[k]
      invariant forall k :: 0 <= k < i ==> rungs[k] == SharedRung(rs, other, total, k)
    {
      HolderGets(rs, other, total, i, last, given);
      if Holds(rungs[i].side, other) {
        var amt := if i == last then total - given else PartOf(total, rungs[i].weight, sum);
        rungs[i] := if other.Token1? then rungs[i].(amount0 := amt) else rungs[i].(amount1 := amt);
        given := given + amt;
      }
    }
  }

  lemma GivenNone(rs: seq<Rung>, other: Side, total: nat)
    requires WeightOf(rs, other, |rs|) > 0
    ensures Given(rs, other, total, 0) == 0
  {
  }

  method SumWeights(rungs: array<Rung>, other: Side) returns (sum: nat, last: nat)
    requires forall r <- rungs[..] :: r.weight > 0
    ensures sum == WeightOf(rungs[..], other, rungs.Length)
    ensures LastHolder(rungs[..], other, rungs.Length) == if sum > 0 then Some(last) else None
  {
    sum, last := 0, 0;
    for i := 0 to rungs.Length
      invariant sum == WeightOf(rungs[..], other, i)
      invariant LastHolder(rungs[..], other, i) == if sum > 0 then Some(last) else None
    {
      assert rungs[i] in rungs[..];
      if Holds(rungs[i].side, other) {
        sum, last := sum + rungs[i].weight, i;
      }
    }
  }

  lemma BlankWeights(bounds: seq<Bounds>, tick: int, weights: seq<nat>, half: seq<Rung>)
    requires PositiveWeights(weights, |bounds|)
    requires half == Blank(bounds, tick, weights) || SameShape(Blank(bounds, tick, weights), half)
    ensures forall r <- half :: r.weight > 0
  {
  }

  method AllocateRungs(bounds: seq<Bounds>, tick: int, weights: seq<nat>, budget0: nat, budget1: nat) returns (kept: seq<Rung>)
    requires PositiveWeights(weights, |bounds|)
    ensures kept == AllocateOf(bounds, tick, weights, budget0, budget1)
  {
    var blank := Blank(bounds, tick, weights);
    if |bounds| == 0 { return []; }
    var rungs := new Rung[|bounds|](i requires 0 <= i < |bounds| => blank[i]);
    assert rungs[..] == blank;
    BlankWeights(bounds, tick, weights, blank);
    hide Allocated, Blank, SharedRung, PositiveWeights;
    Share(rungs, Token1, budget0);
    ghost var half := rungs[..];
    SharedKeepsShape(blank, half, Token1, budget0);
    BlankWeights(bounds, tick, weights, half);
    Share(rungs, Token0, budget1);
    SharedTwice(bounds, tick, weights, budget0, budget1, half, rungs[..]);
    kept := KeepSome(rungs);
  }

  lemma SharedKeepsShape(rs: seq<Rung>, qs: seq<Rung>, other: Side, total: nat)
    requires |qs| == |rs| && forall i :: 0 <= i < |rs| ==> qs[i] == SharedRung(rs, other, total, i)
    ensures SameShape(rs, qs)
  {
  }

  /** The final filter. */
  method KeepSome(rungs: array<Rung>) returns (kept: seq<Rung>)
    ensures kept == Kept(rungs[..], rungs.Length)
  {
    kept := [];
    for i := 0 to rungs.Length
      invariant kept == Kept(rungs[..], i)
    {
      if Keep(rungs[i]) { kept := kept + [rungs[i]]; }
    }
  }

  predicate SameShape(rs: seq<Rung>, qs: seq<Rung>) {
    |rs| == |qs| && forall i :: 0 <= i < |rs| ==> rs[i].side == qs[i].side && rs[i].weight == qs[i].weight
  }

  /** Shares depend on sides and weights only, not on amounts already written. */
  lemma {:induction false} SameWeights(rs: seq<Rung>, qs: seq<Rung>, other: Side, n: nat)
    requires SameShape(rs, qs) && n <= |rs|
    ensures WeightOf(rs, other, n) == WeightOf(qs, other, n) && LastHolder(rs, other, n) == LastHolder(qs, other, n)
    decreases n
  {
    if n > 0 {
      SameWeights(rs, qs, other, n - 1);
    }
  }

  lemma {:induction false} SameGiven(rs: seq<Rung>, qs: seq<Rung>, other: Side, total: nat, n: nat)
    requires SameShape(rs, qs) && n <= |rs| && WeightOf(rs, other, |rs|) > 0 && WeightOf(qs, other, |qs|) > 0
    ensures Given(rs, other, total, n) == Given(qs, other, total, n)
    ensures n < |rs| ==> ShareAt(rs, other, total, n) == ShareAt(qs, other, total, n)
    decreases n
  {
    SameWeights(rs, qs, other, |rs|);
    if n > 0 {
      SameGiven(rs, qs, other, total, n - 1);
    }
  }

  lemma SameSharing(rs: seq<Rung>, qs: seq<Rung>, other: Side)
    requires SameShape(rs, qs)
    ensures forall total, i :: 0 <= i < |rs| ==> AmountAt(rs, other, total, i) == AmountAt(qs, other, total, i)
  {
    SameWeights(rs, qs, other, |rs|);
    forall total: nat, i | 0 <= i < |rs| ensures AmountAt(rs, other, total, i) == AmountAt(qs, other, total, i) {
      if WeightOf(rs, other, |rs|) > 0 {
        SameGiven(rs, qs, other, total, i);
      }
    }
  }

  lemma NoShare(rs: seq<Rung>, other: Side, total: nat, i: nat)
    requires i < |rs| && (!Holds(rs[i].side, other) || total == 0)
    ensures AmountAt(rs, other, total, i) == 0
  {
    if WeightOf(rs, other, |rs|) > 0 && total == 0 {
      BudgetHandedOut(rs, other, 0);
      GivenNothing(rs, other, i);
    }
  }

  lemma {:induction false} GivenNothing(rs: seq<Rung>, other: Side, n: nat)
    requires WeightOf(rs, other, |rs|) > 0 && n <= |rs|
    ensures Given(rs, other, 0, n) == 0
    ensures n < |rs| ==> ShareAt(rs, other, 0, n) == 0
    decreases n
  {
    if n > 0 {
      GivenNothing(rs, other, n - 1);
    }
    if n < |rs| {
      assert 0 * rs[n].weight == 0;
    }
  }

  lemma SharedTwice(bounds: seq<Bounds>, tick: int, weights: seq<nat>, budget0: nat, budget1: nat, half: seq<Rung>, done: seq<Rung>)
    requires |weights| == |bounds| == |half| == |done|
    requires forall i :: 0 <= i < |bounds| ==> half[i] == SharedRung(Blank(bounds, tick, weights), Token1, budget0, i)
    requires forall i :: 0 <= i < |bounds| ==> done[i] == SharedRung(half, Token0, budget1, i)
    ensures done == Allocated(bounds, tick, weights, budget0, budget1)
  {
    var blank := Blank(bounds, tick, weights);
    SharedKeepsShape(blank, half, Token1, budget0);
    SameSharing(blank, half, Token0);
    forall i | 0 <= i < |bounds| ensures done[i] == Allocated(bounds, tick, weights, budget0, budget1)[i] {
      if !Holds(blank[i].side, Token1) || budget0 == 0 { NoShare(blank, Token1, budget0, i); }
      if !Holds(blank[i].side, Token0) || budget1 == 0 { NoShare(blank, Token0, budget1, i); }
    }
  }

  method ComputeSplitLadder(tick: int, spacing: int, minTick: int, maxTick: int, bins: int, weights: seq<nat>, budget0: nat, budget1: nat)
    returns (rungs: seq<Rung>)
    requires PositiveWeights(weights, |CutRange(minTick, maxTick, spacing, bins)|)
    ensures rungs == SplitLadderOf(tick, spacing, minTick, maxTick, bins, weights, budget0, budget1)
  {
    if spacing == 0 { return []; }
    var lo, hi := LowEnd(minTick, maxTick, spacing), HighEnd(minTick, maxTick, spacing);
    if hi <= lo { return []; }
    var bs := [Bounds(lo, hi)];
    if spacing > 0 {
      RangeInSpacings(minTick, maxTick, spacing);
      var spacings := Spacings(minTick, maxTick, spacing);
      bs := CutBins(lo, spacing, spacings, BinCount(bins, spacings));
    }
    rungs := AllocateRungs(bs, tick, weights, budget0, budget1);
  }
}
