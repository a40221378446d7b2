// What splitLadder gives out, bin by bin: where each cut falls on the grid, how
// many bins there are, what each one is given, and which rungs are kept.
module SplitShares {
  import opened Common
  import opened SplitLadder

  // ------------------------------------------------------------ the cuts

  /** `at` is the multiple of the spacing nearest to the tick, and of two equally near the one the quotient rounds up to. */
  ghost predicate IsNearest(at: int, tick: int, spacing: int) {
    (exists q :: at == q * spacing)
    && if spacing > 0 then -spacing < 2 * (at - tick) <= spacing else spacing <= 2 * (at - tick) < -spacing
  }

  lemma RoundsToNearest(x: int, d: int)
    requires d > 0
    ensures -d < 2 * (RoundDiv(x, d) * d - x) <= d
  {
    var q := RoundDiv(x, d);
    assert 2 * x + d == q * (2 * d) + (2 * x + d) % (2 * d);
    assert q * (2 * d) == 2 * (q * d);
  }

  lemma NearestIs(tick: int, spacing: int)
    requires spacing != 0
    ensures IsNearest(Nearest(tick, spacing) * spacing, tick, spacing)
  {
    var q := Nearest(tick, spacing);
    if spacing > 0 {
      RoundsToNearest(tick, spacing);
    } else {
      RoundsToNearest(-tick, -spacing);
      assert q * -spacing == -(q * spacing);
    }
    assert exists k :: q * spacing == k * spacing;
  }

  /** Of the wanted bins as many as there are spacings, and always one. */
  predicate RightCount(n: nat, wanted: int, spacing: int, lo: int, hi: int) {
    && 1 <= n && n * spacing <= hi - lo
    && (wanted <= 1 ==> n == 1)
    && (wanted > 1 ==> n <= wanted && (n == wanted || hi - lo < (n + 1) * spacing))
  }

  /** Bin i of n begins at the last grid point not beyond its proportional place in the range. */
  ghost predicate CutRight(at: int, i: nat, n: nat, spacing: int, lo: int, hi: int) {
    && (exists q :: at == lo + q * spacing)
    && (at - lo) * n <= (hi - lo) * i < (at - lo + spacing) * n
  }

  /** The bins splitLadder cuts, from the ticks alone. */
  lemma BinsAre(minTick: int, maxTick: int, spacing: int, bins: int)
    ensures var bs := CutRange(minTick, maxTick, spacing, bins);
            && (bs == [] || spacing != 0)
            && (spacing != 0 ==>
                  exists lo, hi ::
                    && IsNearest(lo, Min(minTick, maxTick), spacing) && IsNearest(hi, Max(minTick, maxTick), spacing)
                    && (bs == [] <==> hi <= lo)
                    && (bs != [] && spacing < 0 ==> bs == [Bounds(lo, hi)])
                    && (bs != [] && spacing > 0 ==>
                          && RightCount(|bs|, bins, spacing, lo, hi)
                          && bs[|bs| - 1].tickUpper == hi
                          && forall i :: 0 <= i < |bs| ==> CutRight(bs[i].tickLower, i, |bs|, spacing, lo, hi)))
  {
    if spacing != 0 {
      var lo, hi := LowEnd(minTick, maxTick, spacing), HighEnd(minTick, maxTick, spacing);
      NearestIs(Min(minTick, maxTick), spacing);
      NearestIs(Max(minTick, maxTick), spacing);
      if spacing > 0 {
        RangeInSpacings(minTick, maxTick, spacing);
        var s := Spacings(minTick, maxTick, spacing);
        hide IsNearest, Spacings, Nearest;
        if lo < hi {
          CountIsRight(bins, s, spacing, lo, hi);
          CutsAreRight(lo, hi, spacing, s, BinCount(bins, s));
        }
      }
    }
  }

  lemma CountIsRight(bins: int, s: nat, spacing: int, lo: int, hi: int)
    requires spacing > 0 && s > 0 && hi == lo + s * spacing
    ensures RightCount(BinCount(bins, s), bins, spacing, lo, hi)
  {
    var n := BinCount(bins, s);
    MulLe(n, s, spacing);
    if n == s { MulLt(s, n + 1, spacing); }
  }

  lemma CutsAreRight(lo: int, hi: int, spacing: int, s: nat, n: nat)
    requires spacing > 0 && 0 < n <= s && hi == lo + s * spacing
    ensures var bs := Bins(lo, spacing, s, n);
            && bs[n - 1].tickUpper == hi
            && forall i :: 0 <= i < n ==> CutRight(bs[i].tickLower, i, n, spacing, lo, hi)
  {
    BinsTile(lo, spacing, s, n);
    hide Cut;
    forall i | 0 <= i < n ensures CutRight(Bins(lo, spacing, s, n)[i].tickLower, i, n, spacing, lo, hi) {
      CutIsRight(lo, hi, spacing, s, n, i);
    }
  }

  lemma CutIsRight(lo: int, hi: int, spacing: int, s: nat, n: nat, i: nat)
    requires spacing > 0 && 0 < n && hi == lo + s * spacing
    ensures CutRight(Cut(lo, spacing, s, n, i), i, n, spacing, lo, hi)
  {
    var q := s * i / n;
    Floor(s * i, n);
    assert Cut(lo, spacing, s, n, i) == lo + q * spacing;
    MulLe(q * n, s * i, spacing);
    MulLt(s * i, q * n + n, spacing);
    Swap(q, n, spacing);
    Swap(s, i, spacing);
    Distribute(q * n, n, spacing);
    Distribute(q * spacing, spacing, n);
    assert n * spacing == spacing * n;
    assert exists k :: lo + q * spacing == lo + k * spacing;
  }

  // ---------------------------------------------------------- the shares

  /** Token0 is held from the price up, token1 from the price down. */
  predicate HoldsToken(b: Bounds, tick: int, token: Side) {
    if token.Token0? then tick < b.tickUpper else b.tickLower <= tick
  }

  /** The weights of the bins that hold the token. */
  function HeldWeights(bounds: seq<Bounds>, tick: int, weights: seq<nat>, token: Side): (ws: seq<nat>)
    requires |weights| == |bounds|
    ensures |ws| == |bounds|
  {
    seq(|bounds|, i requires 0 <= i < |bounds| => if HoldsToken(bounds[i], tick, token) then weights[i] else 0)
  }

  lemma {:induction false} SumSnoc(xs: seq<nat>, x: nat)
    ensures Sum(xs + [x]) == Sum(xs) + x
  {
    if xs == [] {
      assert [x][1..] == [];
    } else {
      assert (xs + [x])[1..] == xs[1..] + [x];
      SumSnoc(xs[1..], x);
    }
  }

  function Other(token: Side): Side {
    if token.Token0? then Token1 else Token0
  }

  lemma {:induction false} WeightIsSum(bounds: seq<Bounds>, tick: int, weights: seq<nat>, token: Side, n: nat)
    requires |weights| == |bounds| && n <= |bounds| && !token.Both? && (forall b <- bounds :: b.tickLower < b.tickUpper)
    ensures WeightOf(Blank(bounds, tick, weights), Other(token), n) == Sum(HeldWeights(bounds, tick, weights, token)[..n])
    decreases n
  {
    if n > 0 {
      WeightIsSum(bounds, tick, weights, token, n - 1);
      var ws := HeldWeights(bounds, tick, weights, token);
      assert ws[..n] == ws[..n - 1] + [ws[n - 1]];
      SumSnoc(ws[..n - 1], ws[n - 1]);
      assert bounds[n - 1] in bounds;
    }
  }

  /** Someone after bin i holds the token. */
  ghost predicate HeldLater(bounds: seq<Bounds>, tick: int, token: Side, i: nat) {
    exists j :: i < j < |bounds| && HoldsToken(bounds[j], tick, token)
  }

  /** A bin's part of a budget: nothing if it cannot hold the token, its proportional part rounded down if another after it can. */
  ghost predicate IsPart(amount: nat, bounds: seq<Bounds>, tick: int, weights: seq<nat>, token: Side, total: nat, i: nat)
    requires |weights| == |bounds| && i < |bounds|
  {
    var sum := Sum(HeldWeights(bounds, tick, weights, token));
    && (!HoldsToken(bounds[i], tick, token) ==> amount == 0)
    && (HoldsToken(bounds[i], tick, token) && HeldLater(bounds, tick, token, i) ==>
          amount * sum <= total * weights[i] < amount * sum + sum)
  }

  lemma PartIs(bounds: seq<Bounds>, tick: int, weights: seq<nat>, token: Side, total: nat, i: nat)
    requires PositiveWeights(weights, |bounds|) && i < |bounds| && !token.Both? && (forall b <- bounds :: b.tickLower < b.tickUpper)
    ensures IsPart(AmountAt(Blank(bounds, tick, weights), Other(token), total, i), bounds, tick, weights, token, total, i)
  {
    var blank, ws := Blank(bounds, tick, weights), HeldWeights(bounds, tick, weights, token);
    WeightIsSum(bounds, tick, weights, token, |bounds|);
    assert ws[..|bounds|] == ws;
    forall j | 0 <= j < |bounds| ensures Holds(blank[j].side, Other(token)) <==> HoldsToken(bounds[j], tick, token) {
      assert bounds[j] in bounds;
    }
    hide HoldsToken, Blank;
    NoHolderNoWeight(blank, Other(token), |blank|);
    if HoldsToken(bounds[i], tick, token) {
      Floor(total * weights[i], Sum(ws));
    }
  }

  /** Every rung before the filter: its bin, its side of the price, and its part of either budget. */
  lemma RungsBeforeFilter(bounds: seq<Bounds>, tick: int, weights: seq<nat>, budget0: nat, budget1: nat, i: nat)
    requires PositiveWeights(weights, |bounds|) && i < |bounds| && (forall b <- bounds :: b.tickLower < b.tickUpper)
    ensures var r := Allocated(bounds, tick, weights, budget0, budget1)[i];
            && r.index == i && r.tickLower == bounds[i].tickLower && r.tickUpper == bounds[i].tickUpper && r.weight == weights[i]
            && (r.side == Token1 <==> r.tickUpper <= tick) && (r.side == Token0 <==> tick < r.tickLower)
            && IsPart(r.amount0, bounds, tick, weights, Token0, budget0, i)
            && IsPart(r.amount1, bounds, tick, weights, Token1, budget1, i)
  {
    assert bounds[i] in bounds;
    PartIs(bounds, tick, weights, Token0, budget0, i);
    PartIs(bounds, tick, weights, Token1, budget1, i);
    hide AmountAt, IsPart, PositiveWeights;
  }

  // ---------------------------------------------------------- the filter

  /** Which rungs the filter keeps, and that it keeps them in order. */
  lemma {:induction false} KeptAre(rs: seq<Rung>, n: nat)
    requires n <= |rs| && forall i :: 0 <= i < |rs| ==> rs[i].index == i
    ensures var kept := Kept(rs, n);
            && (forall r :: r in kept <==>
                  && r.index < n && r == rs[r.index]
                  && if r.side.Both? then 0 < r.amount0 && 0 < r.amount1 else 0 < r.amount0 + r.amount1)
            && (forall i, j :: 0 <= i < j < |kept| ==> kept[i].index < kept[j].index)
    decreases n
  {
    if n > 0 {
      KeptAre(rs, n - 1);
      var before, last := Kept(rs, n - 1), rs[n - 1];
      assert forall r :: r in before ==> r.index < n - 1;
      var kept := Kept(rs, n);
      forall i, j | 0 <= i < j < |kept| ensures kept[i].index < kept[j].index {
        if j == |before| { assert kept[i] == before[i] && before[i] in before; }
      }
    }
  }
}
