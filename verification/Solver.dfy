// The netting solver for one pair: one clearing price pA/pB for everyone, the
// residual that goes to the AMM, and how the price moves after a simulation.
module Solver {
  import opened Common

  type Token = nat

  const ZERO: Token := 0
  const WETH: Token := 0x0bd7d308f8e1639fab988df18a8011f41eacad73

  /** Ether out is address zero on the order; in the pool it is WETH. */
  function AsToken(t: Token): Token {
    if t == ZERO then WETH else t
  }

  /** What the solver reads of an order. `id` is its identity (its hash). */
  datatype Order = Order(id: nat, sellToken: Token, buyToken: Token, sellAmount: nat, minBuyAmount: int)

  datatype PairBatch = PairBatch(a: Token, b: Token, sellA: seq<Order>, sellB: seq<Order>)

  datatype Clearing = Clearing(pA: nat, pB: nat)

  datatype Residual = Residual(a: nat, b: nat)

  datatype SimResult = SimResult(tokens: seq<Token>, delta: seq<int>, owed: seq<nat>)
  {
    predicate Valid() {
      |delta| == |tokens| && |owed| == |tokens|
    }
  }

  predicate Positive(c: Clearing) {
    0 < c.pA && 0 < c.pB
  }

  function AllOrders(batch: PairBatch): seq<Order> {
    batch.sellA + batch.sellB
  }

  /** Each order sits on the side of the token it sells. */
  ghost predicate Sided(batch: PairBatch) {
    && batch.a != batch.b
    && (forall o <- batch.sellA :: AsToken(o.sellToken) == batch.a)
    && (forall o <- batch.sellB :: AsToken(o.sellToken) == batch.b)
  }

  /** What an order's sells are divided by: the price of the token it buys. */
  function Divisor(o: Order, batch: PairBatch, c: Clearing): nat {
    if AsToken(o.sellToken) == batch.a then c.pB else c.pA
  }

  /** No order is paid at a price of zero, which the source's division answers by throwing. */
  predicate Payable(batch: PairBatch, c: Clearing) {
    forall o <- AllOrders(batch) :: Divisor(o, batch, c) > 0
  }

  /** The zero stands for a throw: callers look at Payable first. */
  function BuyAmount(o: Order, batch: PairBatch, c: Clearing): nat {
    var den := Divisor(o, batch, c);
    if den == 0 then 0 else MulDiv(o.sellAmount, if AsToken(o.sellToken) == batch.a then c.pA else c.pB, den)
  }

  function Sold(os: seq<Order>): nat {
    if os == [] then 0 else os[0].sellAmount + Sold(os[1..])
  }

  function Owed(os: seq<Order>, batch: PairBatch, c: Clearing): nat {
    if os == [] then 0 else BuyAmount(os[0], batch, c) + Owed(os[1..], batch, c)
  }

  function OwedA(batch: PairBatch, c: Clearing): nat {
    Owed(batch.sellB, batch, c)
  }

  function OwedB(batch: PairBatch, c: Clearing): nat {
    Owed(batch.sellA, batch, c)
  }

  function ResidualOf(batch: PairBatch, c: Clearing): Residual {
    var sa, sb, owedA, owedB := Sold(batch.sellA), Sold(batch.sellB), OwedA(batch, c), OwedB(batch, c);
    if owedB > sb then Residual(if sa > owedA then sa - owedA else 0, 0)
    else if owedA > sa then Residual(0, if sb > owedB then sb - owedB else 0)
    else Residual(0, 0)
  }

  // --------------------------------------------- rounding on one side

  /** What one side is owed at num/den: its sells at the price, less up to one unit an order. */
  function Paid(os: seq<Order>, num: nat, den: nat): nat
    requires den > 0
  {
    if os == [] then 0 else MulDiv(os[0].sellAmount, num, den) + Paid(os[1..], num, den)
  }

  lemma {:induction false} PaidBounds(os: seq<Order>, num: nat, den: nat)
    requires den > 0
    ensures Paid(os, num, den) * den <= Sold(os) * num <= Paid(os, num, den) * den + |os| * (den - 1)
  {
    if os != [] {
      var s, x := os[0].sellAmount, MulDiv(os[0].sellAmount, num, den);
      MulDivFloor(s, num, den);
      hide MulDiv;
      PaidBounds(os[1..], num, den);
      AddPaid(s, x, Sold(os[1..]), Paid(os[1..], num, den), |os| - 1, num, den);
    }
  }

  lemma AddPaid(s: nat, x: nat, rest: nat, paid: nat, n: nat, num: nat, den: nat)
    requires den > 0 && x * den <= s * num <= x * den + (den - 1)
    requires paid * den <= rest * num <= paid * den + n * (den - 1)
    ensures (x + paid) * den <= (s + rest) * num <= (x + paid) * den + (n + 1) * (den - 1)
  {
    Distribute(x, paid, den);
    Distribute(s, rest, num);
    Distribute(n, 1, den - 1);
  }

  lemma {:induction false} OwedIsPaid(os: seq<Order>, batch: PairBatch, c: Clearing, sellsA: bool)
    requires Positive(c)
    requires forall o <- os :: (AsToken(o.sellToken) == batch.a) == sellsA
    ensures Owed(os, batch, c) == if sellsA then Paid(os, c.pA, c.pB) else Paid(os, c.pB, c.pA)
  {
    if os != [] {
      OwedIsPaid(os[1..], batch, c, sellsA);
    }
  }

  /** Both sides' rounding at once. */
  lemma OwedBounds(batch: PairBatch, c: Clearing)
    requires Sided(batch) && Positive(c)
    ensures OwedB(batch, c) == Paid(batch.sellA, c.pA, c.pB)
    ensures OwedA(batch, c) == Paid(batch.sellB, c.pB, c.pA)
    ensures OwedB(batch, c) * c.pB <= Sold(batch.sellA) * c.pA <= OwedB(batch, c) * c.pB + |batch.sellA| * (c.pB - 1)
    ensures OwedA(batch, c) * c.pA <= Sold(batch.sellB) * c.pB <= OwedA(batch, c) * c.pA + |batch.sellB| * (c.pA - 1)
  {
    OwedIsPaid(batch.sellA, batch, c, true);
    OwedIsPaid(batch.sellB, batch, c, false);
    PaidBounds(batch.sellA, c.pA, c.pB);
    PaidBounds(batch.sellB, c.pB, c.pA);
  }

  // -------------------------------------------------------- residual

  predicate NetDemandB(batch: PairBatch, c: Clearing) {
    OwedB(batch, c) > Sold(batch.sellB)
  }

  predicate NetDemandA(batch: PairBatch, c: Clearing) {
    OwedA(batch, c) > Sold(batch.sellA)
  }

  /** Demand for b leaves a over: the side in demand is worth more than the other side sells. */
  lemma DemandLeavesSurplus(batch: PairBatch, c: Clearing)
    requires Sided(batch) && Positive(c)
    ensures NetDemandB(batch, c) ==> OwedA(batch, c) < Sold(batch.sellA)
    ensures NetDemandA(batch, c) ==> OwedB(batch, c) < Sold(batch.sellB)
  {
    var sa, sb, owedA, owedB := Sold(batch.sellA), Sold(batch.sellB), OwedA(batch, c), OwedB(batch, c);
    OwedBounds(batch, c);
    if owedB > sb {
      MulLt(sb, owedB, c.pB);
      if sa <= owedA { MulLe(sa, owedA, c.pA); }
    }
    if owedA > sa {
      MulLt(sa, owedA, c.pA);
      if sb <= owedB { MulLe(sb, owedB, c.pB); }
    }
  }

  /**
   * The two sides are never both in net demand, so the residual's guards
   * against zero are dead: net demand gives exactly one strictly positive
   * residual, and selling it leaves the absorbed token exactly even.
   */
  lemma ResidualIsExact(batch: PairBatch, c: Clearing)
    requires Sided(batch) && Positive(c)
    ensures var r := ResidualOf(batch, c);
            && !(NetDemandA(batch, c) && NetDemandB(batch, c))
            && (0 < r.a <==> NetDemandB(batch, c)) && (0 < r.b <==> NetDemandA(batch, c))
            && (0 < r.a ==> r.b == 0 && Sold(batch.sellA) - r.a == OwedA(batch, c))
            && (0 < r.b ==> r.a == 0 && Sold(batch.sellB) - r.b == OwedB(batch, c))
  {
    DemandLeavesSurplus(batch, c);
  }

  /** With no residual both tokens are covered, and what is left over on either side is rounding dust. */
  lemma NoResidualLeavesDust(batch: PairBatch, c: Clearing)
    requires Sided(batch) && Positive(c)
    requires ResidualOf(batch, c) == Residual(0, 0)
    ensures OwedB(batch, c) <= Sold(batch.sellB) && OwedA(batch, c) <= Sold(batch.sellA)
    ensures (Sold(batch.sellB) - OwedB(batch, c)) * c.pB <= |batch.sellA| * c.pB + |batch.sellB| * c.pA
    ensures (Sold(batch.sellA) - OwedA(batch, c)) * c.pA <= |batch.sellA| * c.pB + |batch.sellB| * c.pA
  {
    var sa, sb, owedA, owedB := Sold(batch.sellA), Sold(batch.sellB), OwedA(batch, c), OwedB(batch, c);
    ResidualIsExact(batch, c);
    OwedBounds(batch, c);
    Dust(sa, sb, owedA, owedB, c.pA, c.pB, |batch.sellA|, |batch.sellB|);
    Dust(sb, sa, owedB, owedA, c.pB, c.pA, |batch.sellB|, |batch.sellA|);
  }

  lemma Dust(sa: nat, sb: nat, owedA: nat, owedB: nat, pA: nat, pB: nat, nA: nat, nB: nat)
    requires 0 < pA && 0 < pB && owedA <= sa
    requires sa * pA <= owedB * pB + nA * (pB - 1)
    requires sb * pB <= owedA * pA + nB * (pA - 1)
    ensures (sb - owedB) * pB <= nA * pB + nB * pA
  {
    MulLe(owedA, sa, pA);
    MulLe(pB - 1, pB, nA);
    MulLe(pA - 1, pA, nB);
    assert (sb - owedB) * pB == sb * pB - owedB * pB;
  }

  // ---------------------------------------------------- next clearing

  datatype Side = A | B

  function IndexOf(ts: seq<Token>, t: Token): (r: Option<nat>)
    ensures r.None? <==> t !in ts
    ensures r.Some? ==> r.value < |ts| && ts[r.value] == t && t !in ts[..r.value]
  {
    if ts == [] then None
    else if ts[0] == t then Some(0)
    else match IndexOf(ts[1..], t) case None => None case Some(i) => Some(i + 1)
  }

  function Abs(x: int): nat {
    if x < 0 then -x else x
  }

  function Target(held: nat, feeBps: nat): nat
    requires feeBps <= 10_000
  {
    held * (10_000 - feeBps) / 10_000
  }

  /** The token the AMM fed, or the one with the wider gap when nothing was sent; None when the batch nets perfectly. */
  function Fed(sim: SimResult, ia: nat, ib: nat, res: Residual): Option<Side>
    requires sim.Valid() && ia < |sim.tokens| && ib < |sim.tokens|
  {
    if res.a > 0 then Some(B)
    else if res.b > 0 then Some(A)
    else
      var gapA, gapB := Abs(sim.delta[ia] - sim.owed[ia]), Abs(sim.delta[ib] - sim.owed[ib]);
      if gapA == 0 && gapB == 0 then None else if gapB >= gapA then Some(B) else Some(A)
  }

  /** Scale a price so that what is owed becomes the target. */
  function Rescale(price: nat, held: int, owed: nat, feeBps: nat): nat
    requires feeBps <= 10_000
  {
    if owed == 0 || held <= 0 then price else price * Target(held, feeBps) / owed
  }

  function NextClearing(batch: PairBatch, c: Clearing, sim: SimResult, feeBps: nat, res: Residual): Clearing
    requires sim.Valid() && feeBps <= 10_000
  {
    match (IndexOf(sim.tokens, batch.a), IndexOf(sim.tokens, batch.b))
    case (Some(ia), Some(ib)) =>
      (match Fed(sim, ia, ib, res)
       case None => c
       case Some(B) => Clearing(Rescale(c.pA, sim.delta[ib], sim.owed[ib], feeBps), c.pB)
       case Some(A) => Clearing(c.pA, Rescale(c.pB, sim.delta[ia], sim.owed[ia], feeBps)))
    case _ => c
  }

  /**
   * The dust bound behind the price correction, for either side: orders sold
   * at num/den, `owed` in all; rescaling num towards target t leaves what is
   * owed above t less S/den and one unit an order, and below t by the factor
   * (owed + n)/owed at most.
   */
  lemma RescaleHitsTarget(os: seq<Order>, num: nat, den: nat, t: nat)
    requires den > 0 && Paid(os, num, den) > 0
    ensures var o, next := Paid(os, num, den), num * t / Paid(os, num, den);
            && (t - |os| - Paid(os, next, den)) * den < Sold(os)
            && o * Paid(os, next, den) <= t * (o + |os|)
  {
    var o, n, s := Paid(os, num, den), |os|, Sold(os);
    var next := num * t / o;
    Floor(num * t, o);
    PaidBounds(os, num, den);
    PaidBounds(os, next, den);
    hide Paid, Sold;
    RescaleLower(s, num, den, t, o, next, Paid(os, next, den), n);
    RescaleUpper(s, num, den, t, o, next, Paid(os, next, den), n);
  }

  lemma RescaleLower(s: nat, num: nat, den: nat, t: nat, o: nat, next: nat, p: nat, n: nat)
    requires den > 0 && o > 0
    requires o * den <= s * num && num * t < next * o + o
    requires s * next <= p * den + n * (den - 1)
    ensures (t - n - p) * den < s
  {
    TargetReached(s, num, den, t, o, next);
    MulLe(den - 1, den, n);
    DistributeMinus(t - n, p, den);
    DistributeMinus(t, n, den);
  }

  /** t*den*o <= s*num*t = num*t*s < (next*o + o)*s, and o cancels. */
  lemma TargetReached(s: nat, num: nat, den: nat, t: nat, o: nat, next: nat)
    requires den > 0 && o > 0
    requires o * den <= s * num && num * t < next * o + o
    ensures t * den < s * next + s
  {
    assert 0 < s by {
      if s == 0 { MulLt(0, o, den); }
    }
    var x, y := t * den, s * next + s;
    assert x * o == o * den * t by { Swap(t, den, o); Swap(o, den, t); }
    assert y * o == (next * o + o) * s by { Swap(s, next, o); Distribute(s * next, s, o); Distribute(next * o, o, s); Swap(next, o, s); }
    assert s * num * t == num * t * s by { Swap(s, num, t); Swap(num, t, s); }
    MulLe(o * den, s * num, t);
    MulLt(num * t, next * o + o, s);
    if y <= x { MulLe(y, x, o); }
  }

  lemma RescaleUpper(s: nat, num: nat, den: nat, t: nat, o: nat, next: nat, p: nat, n: nat)
    requires den > 0 && o > 0
    requires s * num <= o * den + n * (den - 1) && next * o <= num * t
    requires p * den <= s * next
    ensures o * p <= t * (o + n)
  {
    MulLe(den - 1, den, n);
    MulLe(p * den, s * next, o);
    MulLe(next * o, num * t, s);
    MulLe(s * num, (o + n) * den, t);
    Distribute(o, n, den);
    Swap(p, den, o);
    Swap(s, next, o);
    Swap(num, t, s);
    Swap(o + n, den, t);
    assert o * p == p * o && next * o * s == o * s * next && (o + n) * t == t * (o + n);
    Cancel(o * p, t * (o + n), den);
  }

  /**
   * What the simulation reports, as OrdoBatch.simulate computes it: per token,
   * what is owed at the clearing price, and what is held after the sells came
   * in, `inA`/`inB` went to the AMM and `outA`/`outB` came back.
   */
  ghost predicate Simulated(batch: PairBatch, c: Clearing, sim: SimResult, inA: nat, inB: nat, outA: nat, outB: nat) {
    && sim.Valid() && batch.a in sim.tokens && batch.b in sim.tokens
    && var ia, ib := IndexOf(sim.tokens, batch.a).value, IndexOf(sim.tokens, batch.b).value;
    && sim.owed[ia] == OwedA(batch, c) && sim.delta[ia] == Sold(batch.sellA) - inA + outA
    && sim.owed[ib] == OwedB(batch, c) && sim.delta[ib] == Sold(batch.sellB) - inB + outB
  }

  /** What the contract holds of a side's token after the simulation. */
  function HeldB(batch: PairBatch, inB: nat, outB: nat): int {
    Sold(batch.sellB) - inB + outB
  }

  function HeldA(batch: PairBatch, inA: nat, outA: nat): int {
    Sold(batch.sellA) - inA + outA
  }

  /**
   * The token whose price the correction moves: the one in net demand, which
   * the AMM fed; without net demand, the one whose held amount is further
   * from what is owed.
   */
  predicate FeedsB(batch: PairBatch, c: Clearing, heldA: int, heldB: int) {
    var gapA, gapB := Abs(heldA - OwedA(batch, c)), Abs(heldB - OwedB(batch, c));
    NetDemandB(batch, c) || (!NetDemandA(batch, c) && gapA <= gapB && 0 < gapB)
  }

  predicate FeedsA(batch: PairBatch, c: Clearing, heldA: int, heldB: int) {
    var gapA, gapB := Abs(heldA - OwedA(batch, c)), Abs(heldB - OwedB(batch, c));
    NetDemandA(batch, c) || (!NetDemandB(batch, c) && gapB < gapA)
  }

  /** The correction in these terms, for any honest simulation. */
  lemma CorrectionIs(batch: PairBatch, c: Clearing, sim: SimResult, feeBps: nat, inA: nat, inB: nat, outA: nat, outB: nat)
    requires Sided(batch) && Positive(c) && feeBps <= 10_000 && Simulated(batch, c, sim, inA, inB, outA, outB)
    ensures var heldA, heldB := HeldA(batch, inA, outA), HeldB(batch, inB, outB);
            && !(FeedsA(batch, c, heldA, heldB) && FeedsB(batch, c, heldA, heldB))
            && NextClearing(batch, c, sim, feeBps, ResidualOf(batch, c))
               == if FeedsB(batch, c, heldA, heldB) then Clearing(Rescale(c.pA, heldB, OwedB(batch, c), feeBps), c.pB)
                  else if FeedsA(batch, c, heldA, heldB) then Clearing(c.pA, Rescale(c.pB, heldA, OwedA(batch, c), feeBps))
                  else c
  {
    ResidualIsExact(batch, c);
    hide ResidualOf, Owed, Sold, Rescale;
  }

  /**
   * Whenever the price of a is corrected, by the AMM's output or in a batch
   * that nets by itself: the new price leaves a's sellers owed the target up
   * to dust, the price of b untouched, and is positive exactly when the
   * target is worth at least one price unit.
   */
  lemma NextClearingTowardsB(batch: PairBatch, c: Clearing, sim: SimResult, feeBps: nat, inA: nat, inB: nat, outA: nat, outB: nat)
    requires Sided(batch) && Positive(c) && feeBps <= 10_000 && Simulated(batch, c, sim, inA, inB, outA, outB)
    requires FeedsB(batch, c, HeldA(batch, inA, outA), HeldB(batch, inB, outB))
    ensures var next := NextClearing(batch, c, sim, feeBps, ResidualOf(batch, c));
            var held, o, n := HeldB(batch, inB, outB), OwedB(batch, c), |batch.sellA|;
            && next.pB == c.pB
            && (o == 0 || held <= 0 ==> next == c)
            && (o > 0 && held > 0 ==>
                  var t := Target(held, feeBps);
                  && (next.pA > 0 <==> o <= c.pA * t)
                  && (next.pA > 0 ==>
                        && (t - n - OwedB(batch, next)) * c.pB < Sold(batch.sellA)
                        && o * OwedB(batch, next) <= t * (o + n)))
  {
    CorrectionIs(batch, c, sim, feeBps, inA, inB, outA, outB);
    OwedBounds(batch, c);
    var held, o := HeldB(batch, inB, outB), OwedB(batch, c);
    var next := NextClearing(batch, c, sim, feeBps, ResidualOf(batch, c));
    hide NextClearing, ResidualOf, FeedsA, FeedsB, Simulated, Target, OwedB;
    if o > 0 && held > 0 {
      var t := Target(held, feeBps);
      FitsQuotient(1, c.pA * t, o);
      if next.pA > 0 {
        OwedBounds(batch, next);
        RescaleHitsTarget(batch.sellA, c.pA, c.pB, t);
      }
    }
  }

  /** The mirror image: the price of b is corrected. */
  lemma NextClearingTowardsA(batch: PairBatch, c: Clearing, sim: SimResult, feeBps: nat, inA: nat, inB: nat, outA: nat, outB: nat)
    requires Sided(batch) && Positive(c) && feeBps <= 10_000 && Simulated(batch, c, sim, inA, inB, outA, outB)
    requires FeedsA(batch, c, HeldA(batch, inA, outA), HeldB(batch, inB, outB))
    ensures var next := NextClearing(batch, c, sim, feeBps, ResidualOf(batch, c));
            var held, o, n := HeldA(batch, inA, outA), OwedA(batch, c), |batch.sellB|;
            && next.pA == c.pA
            && (o == 0 || held <= 0 ==> next == c)
            && (o > 0 && held > 0 ==>
                  var t := Target(held, feeBps);
                  && (next.pB > 0 <==> o <= c.pB * t)
                  && (next.pB > 0 ==>
                        && (t - n - OwedA(batch, next)) * c.pA < Sold(batch.sellB)
                        && o * OwedA(batch, next) <= t * (o + n)))
  {
    CorrectionIs(batch, c, sim, feeBps, inA, inB, outA, outB);
    OwedBounds(batch, c);
    var held, o := HeldA(batch, inA, outA), OwedA(batch, c);
    var next := NextClearing(batch, c, sim, feeBps, ResidualOf(batch, c));
    hide NextClearing, ResidualOf, FeedsA, FeedsB, Simulated, Target, OwedA;
    if o > 0 && held > 0 {
      var t := Target(held, feeBps);
      FitsQuotient(1, c.pB * t, o);
      if next.pB > 0 {
        OwedBounds(batch, next);
        RescaleHitsTarget(batch.sellB, c.pB, c.pA, t);
      }
    }
  }

  // ------------------------------------------------ when the price stands

  /** The fee on what is held, rounded up. */
  function FeeCut(held: nat, feeBps: nat): nat {
    CeilDiv(held * feeBps, 10_000)
  }

  lemma TargetLessFee(held: nat, feeBps: nat)
    requires feeBps <= 10_000
    ensures Target(held, feeBps) == held - FeeCut(held, feeBps)
  {
    assert held * (10_000 - feeBps) == held * 10_000 - held * feeBps;
  }

  /** A price stands when the gap pays the fee and leaves less than one price unit. */
  predicate Stands(price: nat, held: int, owed: nat, feeBps: nat) {
    || owed == 0 || held <= 0
    || (var gap, cut := held - owed, FeeCut(held, feeBps); cut <= gap && price * (gap - cut) < owed)
  }

  lemma RescaleStandsIff(price: nat, held: int, owed: nat, feeBps: nat)
    requires feeBps <= 10_000 && 0 < price
    ensures Rescale(price, held, owed, feeBps) == price <==> Stands(price, held, owed, feeBps)
  {
    if owed > 0 && held > 0 {
      var t := Target(held, feeBps);
      TargetLessFee(held, feeBps);
      hide Target, FeeCut;
      FitsQuotient(price, price * t, owed);
      FitsQuotient(price + 1, price * t, owed);
      Distribute(price, 1, owed);
      if t < owed {
        MulLt(t, owed, price);
        assert price * t == t * price && price * owed == owed * price;
      } else {
        assert price * (t - owed) == price * t - price * owed;
      }
    }
  }

  /**
   * The price stands exactly when both tokens are even, or the gap of the
   * token being corrected covers the fee and leaves less than a price unit.
   */
  lemma PriceStandsIff(batch: PairBatch, c: Clearing, sim: SimResult, feeBps: nat, inA: nat, inB: nat, outA: nat, outB: nat)
    requires Sided(batch) && Positive(c) && feeBps <= 10_000 && Simulated(batch, c, sim, inA, inB, outA, outB)
    ensures var heldA, heldB := HeldA(batch, inA, outA), HeldB(batch, inB, outB);
            NextClearing(batch, c, sim, feeBps, ResidualOf(batch, c)) == c
            <==> (FeedsB(batch, c, heldA, heldB) ==> Stands(c.pA, heldB, OwedB(batch, c), feeBps))
                 && (FeedsA(batch, c, heldA, heldB) ==> Stands(c.pB, heldA, OwedA(batch, c), feeBps))
  {
    CorrectionIs(batch, c, sim, feeBps, inA, inB, outA, outB);
    RescaleStandsIff(c.pA, HeldB(batch, inB, outB), OwedB(batch, c), feeBps);
    RescaleStandsIff(c.pB, HeldA(batch, inA, outA), OwedA(batch, c), feeBps);
    hide NextClearing, ResidualOf, FeedsA, FeedsB, Simulated, Stands, OwedA, OwedB, Rescale;
  }

  /** A batch that nets by itself, one unit of dust aside, whose price still moves down by the whole fee. */
  lemma NettedPriceMoves()
    ensures var batch := PairBatch(1, 2, [Order(0, 1, 2, 500_000, 0), Order(1, 1, 2, 500_001, 0)], [Order(2, 2, 1, 1_000_000, 0)]);
            var c, sim := Clearing(1_000_000, 1_000_001), SimResult([1, 2], [1_000_001, 1_000_000], [1_000_001, 999_999]);
            && Sided(batch) && ResidualOf(batch, c) == Residual(0, 0) && Simulated(batch, c, sim, 0, 0, 0, 0)
            && NextClearing(batch, c, sim, 10, Residual(0, 0)) == Clearing(999_000, 1_000_001)
  {
    var x, y, z := Order(0, 1, 2, 500_000, 0), Order(1, 1, 2, 500_001, 0), Order(2, 2, 1, 1_000_000, 0);
    var batch := PairBatch(1, 2, [x, y], [z]);
    var c, sim := Clearing(1_000_000, 1_000_001), SimResult([1, 2], [1_000_001, 1_000_000], [1_000_001, 999_999]);
    assert BuyAmount(x, batch, c) == 499_999 && BuyAmount(y, batch, c) == 500_000 && BuyAmount(z, batch, c) == 1_000_001;
    assert [x, y][1..] == [y] && [y][1..] == [] && [z][1..] == [];
    hide BuyAmount;
    assert Owed([y], batch, c) == 500_000 + Owed([], batch, c);
    assert Owed([x, y], batch, c) == 499_999 + Owed([y], batch, c);
    assert Owed([z], batch, c) == 1_000_001 + Owed([], batch, c);
    assert Sold([y]) == 500_001 + Sold([]) && Sold([x, y]) == 500_000 + Sold([y]) && Sold([z]) == 1_000_000 + Sold([]);
    assert IndexOf([1, 2], 1) == Some(0);
    assert [1, 2][1..] == [2] && IndexOf([2], 2) == Some(0);
    assert IndexOf([1, 2], 2) == Some(1);
  }

  // -------------------------------------------------------- discovery

  function DiscoveryClearing(batch: PairBatch, outB: nat, outA: nat): (r: Option<Clearing>)
    ensures r.Some? ==> Positive(r.value)
  {
    var sa, sb := Sold(batch.sellA), Sold(batch.sellB);
    if sa > 0 && outB > 0 then Some(Clearing(outB, sa))
    else if sb > 0 && outA > 0 then Some(Clearing(sb, outA))
    else None
  }

  /**
   * A batch with sellers of a only, priced at discovery: the whole side goes
   * to the AMM again, and together the sellers are owed the pool's output but
   * for less than one unit an order.
   */
  lemma OneSidedDiscovery(batch: PairBatch, outB: nat, outA: nat)
    requires Sided(batch) && batch.sellB == [] && Sold(batch.sellA) > 0 && outB > 0
    ensures var c := DiscoveryClearing(batch, outB, outA).value;
            && Positive(c)
            && outB - |batch.sellA| < OwedB(batch, c) <= outB
            && (OwedB(batch, c) > 0 ==> ResidualOf(batch, c) == Residual(Sold(batch.sellA), 0))
  {
    var c := Clearing(outB, Sold(batch.sellA));
    OwedBounds(batch, c);
    ResidualIsExact(batch, c);
    assert batch.sellA != [];
    WithinOneEach(OwedB(batch, c), outB, |batch.sellA|, Sold(batch.sellA));
  }

  /** The mirror image: a batch with sellers of b only. */
  lemma OneSidedDiscoveryB(batch: PairBatch, outB: nat, outA: nat)
    requires Sided(batch) && batch.sellA == [] && Sold(batch.sellB) > 0 && outA > 0
    ensures var c := DiscoveryClearing(batch, outB, outA).value;
            && Positive(c)
            && outA - |batch.sellB| < OwedA(batch, c) <= outA
            && (OwedA(batch, c) > 0 ==> ResidualOf(batch, c) == Residual(0, Sold(batch.sellB)))
  {
    var c := Clearing(Sold(batch.sellB), outA);
    assert Sold(batch.sellA) == 0;
    OwedBounds(batch, c);
    ResidualIsExact(batch, c);
    assert batch.sellB != [];
    WithinOneEach(OwedA(batch, c), outA, |batch.sellB|, Sold(batch.sellB));
  }

  /**
   * Any batch at all: the sellers of a set the price if they sell something
   * the pool pays for, and are owed the pool's output but for less than one
   * unit an order; otherwise the sellers of b do; and a price is missing
   * exactly when the pool pays neither side.
   */
  lemma DiscoveryPaysOut(batch: PairBatch, outB: nat, outA: nat)
    requires Sided(batch)
    ensures var r, paysA, paysB := DiscoveryClearing(batch, outB, outA), Sold(batch.sellA) > 0 && outB > 0, Sold(batch.sellB) > 0 && outA > 0;
            && (r.None? <==> !paysA && !paysB)
            && (paysA ==> outB - |batch.sellA| < OwedB(batch, r.value) <= outB)
            && (!paysA && paysB ==> outA - |batch.sellB| < OwedA(batch, r.value) <= outA)
  {
    var sa, sb := Sold(batch.sellA), Sold(batch.sellB);
    if sa > 0 && outB > 0 {
      OwedBounds(batch, Clearing(outB, sa));
      assert batch.sellA != [];
      WithinOneEach(OwedB(batch, Clearing(outB, sa)), outB, |batch.sellA|, sa);
    } else if sb > 0 && outA > 0 {
      OwedBounds(batch, Clearing(sb, outA));
      assert batch.sellB != [];
      WithinOneEach(OwedA(batch, Clearing(sb, outA)), outA, |batch.sellB|, sb);
    }
  }

  lemma WithinOneEach(o: nat, out: nat, n: nat, s: nat)
    requires 0 < s && 0 < n && o * s <= s * out <= o * s + n * (s - 1)
    ensures out - n < o <= out
  {
    assert s * out == out * s;
    Cancel(o, out, s);
    assert (o + n) * s == o * s + n * s;
    assert n * (s - 1) == n * s - n;
    if o + n <= out {
      MulLe(o + n, out, s);
    }
  }

  /** A lone order at the discovery price with no fee: paid exactly the pool's output, and a fixed point. */
  lemma LoneOrderIsFixedPoint(batch: PairBatch, sim: SimResult, outB: nat, outA: nat)
    requires Sided(batch) && |batch.sellA| == 1 && batch.sellB == [] && Sold(batch.sellA) > 0 && outB > 0
    requires var c := Clearing(outB, Sold(batch.sellA)); Simulated(batch, c, sim, ResidualOf(batch, c).a, 0, 0, outB)
    ensures var c := DiscoveryClearing(batch, outB, outA).value;
            && Positive(c)
            && BuyAmount(batch.sellA[0], batch, c) == outB
            && NextClearing(batch, c, sim, 0, ResidualOf(batch, c)) == c
  {
    var c := Clearing(outB, Sold(batch.sellA));
    OneSidedDiscovery(batch, outB, outA);
    assert OwedB(batch, c) == outB;
    assert Owed(batch.sellA[1..], batch, c) == 0;
    ExactDivision(outB, outB);
  }

  lemma ExactDivision(x: nat, d: nat)
    requires d > 0
    ensures x * d / d == x && d * x / d == x
  {
    QuotientIs(x, x * d, d);
    assert d * x == x * d;
  }

  /** The same for a lone seller of b. */
  lemma LoneOrderIsFixedPointB(batch: PairBatch, sim: SimResult, outB: nat, outA: nat)
    requires Sided(batch) && |batch.sellB| == 1 && batch.sellA == [] && Sold(batch.sellB) > 0 && outA > 0
    requires var c := Clearing(Sold(batch.sellB), outA); Simulated(batch, c, sim, 0, ResidualOf(batch, c).b, outA, 0)
    ensures var c := DiscoveryClearing(batch, outB, outA).value;
            && Positive(c)
            && BuyAmount(batch.sellB[0], batch, c) == outA
            && NextClearing(batch, c, sim, 0, ResidualOf(batch, c)) == c
  {
    var c, s := Clearing(Sold(batch.sellB), outA), Sold(batch.sellB);
    assert DiscoveryClearing(batch, outB, outA) == Some(c);
    assert Sold(batch.sellB[1..]) == 0 && Owed(batch.sellB[1..], batch, c) == 0;
    ExactDivision(outA, s);
    ResidualIsExact(batch, c);
    ExactDivision(outA, outA);
  }
}
