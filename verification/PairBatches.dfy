// Sorting orders into pair batches, judging a simulation, and dropping the
// orders whose limit the clearing price misses.
module PairBatches {
  import opened Common
  import opened Solver

  // ------------------------------------------------------ groupByPair

  datatype Pair = Pair(a: Token, b: Token)

  /** The order's two tokens, sorted, so both directions land in one batch. */
  function PairOf(o: Order): Pair {
    var s, t := AsToken(o.sellToken), AsToken(o.buyToken);
    if s <= t then Pair(s, t) else Pair(t, s)
  }

  predicate Trades(o: Order, s: Token, t: Token) {
    AsToken(o.sellToken) == s && AsToken(o.buyToken) == t
  }

  /** The orders selling s for t, in arrival order. */
  function Sellers(os: seq<Order>, s: Token, t: Token): seq<Order> {
    if os == [] then []
    else
      var last := os[|os| - 1];
      Sellers(os[..|os| - 1], s, t) + if Trades(last, s, t) then [last] else []
  }

  function BatchOf(os: seq<Order>, p: Pair): PairBatch {
    PairBatch(p.a, p.b, Sellers(os, p.a, p.b), Sellers(os, p.b, p.a))
  }

  /** What intake admits: no order buys what it sells. */
  predicate Distinct(os: seq<Order>) {
    forall o <- os :: AsToken(o.sellToken) != AsToken(o.buyToken)
  }

  /** The address behind ether: wrapped ether. */
  function Traded(t: Token): Token {
    if t == 0 then 0x0bd7d308f8e1639fab988df18a8011f41eacad73 else t
  }

  /** A batch trades one pair whichever way its orders go, and ether trades as wrapped ether. */
  lemma PairIs(o: Order)
    ensures var p, s, t := PairOf(o), Traded(o.sellToken), Traded(o.buyToken);
            p.a <= p.b && {p.a, p.b} == {s, t}
  {
  }

  /** Each side of a batch keeps its orders in arrival order, and takes exactly those that sell s for t. */
  lemma {:induction false} SellersAppend(os: seq<Order>, more: seq<Order>, s: Token, t: Token)
    ensures Sellers(os + more, s, t) == Sellers(os, s, t) + Sellers(more, s, t)
    ensures forall o :: o in Sellers(os, s, t) <==> o in os && Traded(o.sellToken) == s && Traded(o.buyToken) == t
    decreases |os| + |more|
  {
    if more != [] {
      var last := more[|more| - 1];
      assert (os + more)[..|os + more| - 1] == os + more[..|more| - 1];
      SellersAppend(os, more[..|more| - 1], s, t);
    } else {
      assert os + more == os;
      SellersHave(os, s, t);
    }
  }

  lemma {:induction false} SellersHave(os: seq<Order>, s: Token, t: Token)
    ensures forall o :: o in Sellers(os, s, t) <==> o in os && Traded(o.sellToken) == s && Traded(o.buyToken) == t
  {
    if os != [] {
      var n := |os| - 1;
      assert os == os[..n] + [os[n]];
      SellersHave(os[..n], s, t);
    }
  }

  type Groups = map<Pair, PairBatch>

  /** The map after the orders `os`, with its keys in insertion order. */
  ghost predicate Grouped(keys: seq<Pair>, pairs: Groups, os: seq<Order>) {
    && (forall k :: k in pairs <==> k in keys)
    && (forall x, y :: 0 <= x < y < |keys| ==> keys[x] != keys[y])
    && (forall k <- keys :: k.a <= k.b && pairs[k] == BatchOf(os, k) && (exists o <- os :: PairOf(o) == k))
    && (forall o <- os :: PairOf(o) in keys)
  }

  /** The source's `(s === a ? pb.sellA : pb.sellB).push(o)`. */
  function Push(pb: PairBatch, o: Order): PairBatch {
    if AsToken(o.sellToken) == pb.a then pb.(sellA := pb.sellA + [o]) else pb.(sellB := pb.sellB + [o])
  }

  lemma SellersSnoc(os: seq<Order>, o: Order, s: Token, t: Token)
    ensures Sellers(os + [o], s, t) == Sellers(os, s, t) + if Trades(o, s, t) then [o] else []
  {
    assert (os + [o])[..|os|] == os;
  }

  lemma BatchSnoc(os: seq<Order>, o: Order, k: Pair)
    requires AsToken(o.sellToken) != AsToken(o.buyToken) && k.a <= k.b
    ensures BatchOf(os + [o], k) == if PairOf(o) == k then Push(BatchOf(os, k), o) else BatchOf(os, k)
  {
    SellersSnoc(os, o, k.a, k.b);
    SellersSnoc(os, o, k.b, k.a);
  }

  lemma {:induction false} NoneYet(os: seq<Order>, p: Pair)
    requires p.a <= p.b && forall o <- os :: PairOf(o) != p
    ensures BatchOf(os, p) == PairBatch(p.a, p.b, [], [])
  {
    if os != [] {
      assert os[|os| - 1] in os;
      NoneYet(os[..|os| - 1], p);
    }
  }

  lemma GroupedStep(keys: seq<Pair>, pairs: Groups, os: seq<Order>, o: Order)
    requires Grouped(keys, pairs, os) && AsToken(o.sellToken) != AsToken(o.buyToken)
    ensures var k := PairOf(o);
            var keys' := if k in keys then keys else keys + [k];
            var pb := if k in keys then pairs[k] else PairBatch(k.a, k.b, [], []);
            Grouped(keys', pairs[k := Push(pb, o)], os + [o]) && (k in keys <==> k in pairs)
  {
    hide BatchOf, Push, PairOf;
    var k := PairOf(o);
    assert k.a <= k.b by { SortedPair(o); }
    if k !in keys {
      NoneYet(os, k);
    }
    var keys' := if k in keys then keys else keys + [k];
    forall x | x in keys' && x.a <= x.b
      ensures BatchOf(os + [o], x) == if k == x then Push(BatchOf(os, x), o) else BatchOf(os, x)
    {
      BatchSnoc(os, o, x);
    }
    assert o in os + [o];
    forall x <- keys' ensures exists q <- os + [o] :: PairOf(q) == x {
      if x != k {
        var q :| q in os && PairOf(q) == x;
        assert q in os + [o];
      }
    }
  }

  lemma SortedPair(o: Order)
    ensures PairOf(o).a <= PairOf(o).b
  {
  }

  /** One batch a pair, pairs in order of first arrival, every order in its own pair's batch. */
  method GroupByPair(orders: seq<Order>) returns (batches: seq<PairBatch>)
    requires Distinct(orders)
    ensures forall i, j :: 0 <= i < j < |batches| ==> Pair(batches[i].a, batches[i].b) != Pair(batches[j].a, batches[j].b)
    ensures forall batch <- batches :: batch == BatchOf(orders, Pair(batch.a, batch.b))
    ensures forall batch <- batches :: exists o <- orders :: PairOf(o) == Pair(batch.a, batch.b)
    ensures forall o <- orders :: BatchOf(orders, PairOf(o)) in batches
  {
    hide BatchOf, Push;
    var keys: seq<Pair>, pairs: Groups := [], map[];
    for i := 0 to |orders|
      invariant Grouped(keys, pairs, orders[..i])
    {
      var o, k := orders[i], PairOf(orders[i]);
      assert orders[..i + 1] == orders[..i] + [o];
      GroupedStep(keys, pairs, orders[..i], o);
      hide Grouped, PairOf;
      var pb := if k in pairs then pairs[k] else PairBatch(k.a, k.b, [], []);
      if k !in pairs { keys := keys + [k]; }
      pairs := pairs[k := Push(pb, o)];
    }
    assert orders[..|orders|] == orders;
    batches := seq(|keys|, n requires 0 <= n < |keys| => pairs[keys[n]]);
    GroupsInOrder(keys, pairs, orders, batches);
  }

  lemma GroupsInOrder(keys: seq<Pair>, pairs: Groups, orders: seq<Order>, batches: seq<PairBatch>)
    requires Grouped(keys, pairs, orders) && |batches| == |keys|
    requires forall n :: 0 <= n < |keys| ==> batches[n] == pairs[keys[n]]
    ensures forall n :: 0 <= n < |keys| ==> batches[n] == BatchOf(orders, keys[n]) && Pair(batches[n].a, batches[n].b) == keys[n]
    ensures forall i, j :: 0 <= i < j < |batches| ==> Pair(batches[i].a, batches[i].b) != Pair(batches[j].a, batches[j].b)
    ensures forall batch <- batches :: batch == BatchOf(orders, Pair(batch.a, batch.b))
    ensures forall batch <- batches :: exists o <- orders :: PairOf(o) == Pair(batch.a, batch.b)
    ensures forall o <- orders :: BatchOf(orders, PairOf(o)) in batches
  {
    forall n | 0 <= n < |keys|
      ensures batches[n] == BatchOf(orders, keys[n]) && Pair(batches[n].a, batches[n].b) == keys[n]
    {
      assert keys[n] in keys;
    }
    hide BatchOf, PairOf;
    forall batch <- batches
      ensures batch == BatchOf(orders, Pair(batch.a, batch.b))
      ensures exists o <- orders :: PairOf(o) == Pair(batch.a, batch.b)
    {
      var n :| 0 <= n < |batches| && batches[n] == batch;
      assert keys[n] in keys;
    }
    forall o <- orders ensures BatchOf(orders, PairOf(o)) in batches {
      var n :| 0 <= n < |keys| && keys[n] == PairOf(o);
      assert batches[n] == BatchOf(orders, PairOf(o));
    }
  }

  lemma {:induction false} SellersCount(os: seq<Order>, s: Token, t: Token, o: Order)
    ensures multiset(Sellers(os, s, t))[o] == if Trades(o, s, t) then multiset(os)[o] else 0
  {
    if os != [] {
      SellersCount(os[..|os| - 1], s, t, o);
      assert os == os[..|os| - 1] + [os[|os| - 1]];
    }
  }

  /** Every order is in its own pair's batch as often as it arrived, and in no other batch: none lost, none doubled. */
  lemma OrderInOneBatch(os: seq<Order>, p: Pair, o: Order)
    requires p.a < p.b
    ensures multiset(AllOrders(BatchOf(os, p)))[o] == if PairOf(o) == p then multiset(os)[o] else 0
  {
    SellersCount(os, p.a, p.b, o);
    SellersCount(os, p.b, p.a, o);
  }

  /** And each order sits on the side of the token it sells. */
  lemma {:induction false} SellersSell(os: seq<Order>, s: Token, t: Token)
    ensures forall o <- Sellers(os, s, t) :: o in os && Trades(o, s, t)
  {
    if os != [] {
      SellersSell(os[..|os| - 1], s, t);
    }
  }

  lemma BatchesAreSided(os: seq<Order>, o: Order)
    requires Distinct(os) && o in os
    ensures Sided(BatchOf(os, PairOf(o)))
  {
    var p := PairOf(o);
    SellersSell(os, p.a, p.b);
    SellersSell(os, p.b, p.a);
  }

  // ------------------------------------------------------- acceptable

  datatype Verdict = Accepted | Short(amount: nat, token: Token) | FeeAboveCap(fee: nat, cap: nat, token: Token)

  function SoldOf(os: seq<Order>, t: Token): nat {
    if os == [] then 0
    else (if AsToken(os[0].sellToken) == t then os[0].sellAmount else 0) + SoldOf(os[1..], t)
  }

  function FeeCap(batch: PairBatch, t: Token, owed: nat, maxFeeBps: nat): nat {
    (SoldOf(AllOrders(batch), t) + owed) * maxFeeBps / 10_000
  }

  function JudgeOne(batch: PairBatch, sim: SimResult, maxFeeBps: nat, i: nat): Verdict
    requires sim.Valid() && i < |sim.tokens|
  {
    var t := sim.tokens[i];
    if t != batch.a && t != batch.b then Accepted
    else if sim.delta[i] < sim.owed[i] then Short(sim.owed[i] - sim.delta[i], t)
    else
      var fee, cap := sim.delta[i] - sim.owed[i], FeeCap(batch, t, sim.owed[i], maxFeeBps);
      if fee > cap then FeeAboveCap(fee, cap, t) else Accepted
  }

  /** The first token that fails decides. */
  function Judge(batch: PairBatch, sim: SimResult, maxFeeBps: nat, i: nat): Verdict
    requires sim.Valid() && i <= |sim.tokens|
    decreases |sim.tokens| - i
  {
    if i == |sim.tokens| then Accepted
    else if JudgeOne(batch, sim, maxFeeBps, i).Accepted? then Judge(batch, sim, maxFeeBps, i + 1)
    else JudgeOne(batch, sim, maxFeeBps, i)
  }

  method Acceptable(batch: PairBatch, sim: SimResult, maxFeeBps: nat) returns (v: Verdict)
    requires sim.Valid()
    ensures v == Judge(batch, sim, maxFeeBps, 0)
  {
    for i := 0 to |sim.tokens|
      invariant Judge(batch, sim, maxFeeBps, 0) == Judge(batch, sim, maxFeeBps, i)
    {
      var t := sim.tokens[i];
      if t != batch.a && t != batch.b { continue; }
      if sim.delta[i] < sim.owed[i] { return Short(sim.owed[i] - sim.delta[i], t); }
      var fee := sim.delta[i] - sim.owed[i];
      var cap := FeeCap(batch, t, sim.owed[i], maxFeeBps);
      if fee > cap { return FeeAboveCap(fee, cap, t); }
    }
    return Accepted;
  }

  /** Accepted exactly when every token of the pair is covered and keeps no more than its cap. */
  lemma {:induction false} AcceptedIff(batch: PairBatch, sim: SimResult, maxFeeBps: nat, i: nat)
    requires sim.Valid() && i <= |sim.tokens|
    ensures Judge(batch, sim, maxFeeBps, i).Accepted?
       <==> forall k :: i <= k < |sim.tokens| && (sim.tokens[k] == batch.a || sim.tokens[k] == batch.b) ==>
              sim.owed[k] <= sim.delta[k] <= sim.owed[k] + FeeCap(batch, sim.tokens[k], sim.owed[k], maxFeeBps)
    decreases |sim.tokens| - i
  {
    if i < |sim.tokens| {
      AcceptedIff(batch, sim, maxFeeBps, i + 1);
    }
  }

  lemma {:induction false} SoldOfIs(os: seq<Order>, t: Token, ours: bool)
    requires forall o <- os :: (AsToken(o.sellToken) == t) == ours
    ensures SoldOf(os, t) == if ours then Sold(os) else 0
  {
    if os != [] {
      SoldOfIs(os[1..], t, ours);
    }
  }

  lemma {:induction false} SoldOfAppend(os: seq<Order>, ps: seq<Order>, t: Token)
    ensures SoldOf(os + ps, t) == SoldOf(os, t) + SoldOf(ps, t)
  {
    if os == [] {
      assert os + ps == ps;
    } else {
      assert (os + ps)[1..] == os[1..] + ps;
      SoldOfAppend(os[1..], ps, t);
    }
  }

  lemma SoldOfSide(batch: PairBatch, t: Token)
    requires Sided(batch) && (t == batch.a || t == batch.b)
    ensures SoldOf(AllOrders(batch), t) == if t == batch.a then Sold(batch.sellA) else Sold(batch.sellB)
  {
    SoldOfAppend(batch.sellA, batch.sellB, t);
    SoldOfIs(batch.sellA, t, t == batch.a);
    SoldOfIs(batch.sellB, t, t == batch.b);
  }

  /**
   * In sold and owed amounts: accepted exactly when each token of the pair is
   * covered, and what it keeps is at most maxFeeBps ten-thousandths of what
   * was sold of it and is owed in it.
   */
  lemma AcceptedMeans(batch: PairBatch, sim: SimResult, maxFeeBps: nat)
    requires sim.Valid() && Sided(batch)
    ensures Judge(batch, sim, maxFeeBps, 0).Accepted?
       <==> forall k :: 0 <= k < |sim.tokens| && (sim.tokens[k] == batch.a || sim.tokens[k] == batch.b) ==>
              var sold := if sim.tokens[k] == batch.a then Sold(batch.sellA) else Sold(batch.sellB);
              && sim.owed[k] <= sim.delta[k]
              && (sim.delta[k] - sim.owed[k]) * 10_000 <= (sold + sim.owed[k]) * maxFeeBps
  {
    AcceptedIff(batch, sim, maxFeeBps, 0);
    hide Judge, SoldOf;
    forall k | 0 <= k < |sim.tokens| && (sim.tokens[k] == batch.a || sim.tokens[k] == batch.b)
      ensures var sold := if sim.tokens[k] == batch.a then Sold(batch.sellA) else Sold(batch.sellB);
              sim.owed[k] <= sim.delta[k] ==>
                (sim.delta[k] - sim.owed[k] <= FeeCap(batch, sim.tokens[k], sim.owed[k], maxFeeBps)
                 <==> (sim.delta[k] - sim.owed[k]) * 10_000 <= (sold + sim.owed[k]) * maxFeeBps)
    {
      SoldOfSide(batch, sim.tokens[k]);
      var sold := if sim.tokens[k] == batch.a then Sold(batch.sellA) else Sold(batch.sellB);
      if sim.owed[k] <= sim.delta[k] {
        MulLe(0, sold + sim.owed[k], maxFeeBps);
        FitsQuotient(sim.delta[k] - sim.owed[k], (sold + sim.owed[k]) * maxFeeBps, 10_000);
      }
    }
  }

  ghost predicate TokensDistinct(sim: SimResult) {
    forall i, j :: 0 <= i < j < |sim.tokens| ==> sim.tokens[i] != sim.tokens[j]
  }

  /**
   * When the residual of a goes to the AMM, the absorbed token is even to the
   * unit, so acceptance is decided by the fed token alone: the pool's output
   * must cover what is owed and leave no more than the capped fee.
   */
  lemma FeeOnlyOnFedToken(batch: PairBatch, c: Clearing, sim: SimResult, maxFeeBps: nat, outB: nat)
    requires Sided(batch) && Positive(c) && NetDemandB(batch, c) && TokensDistinct(sim)
    requires Simulated(batch, c, sim, ResidualOf(batch, c).a, 0, 0, outB)
    ensures HeldA(batch, ResidualOf(batch, c).a, 0) == OwedA(batch, c)
    ensures Judge(batch, sim, maxFeeBps, 0).Accepted?
       <==> OwedB(batch, c) <= HeldB(batch, 0, outB) <= OwedB(batch, c) + FeeCap(batch, batch.b, OwedB(batch, c), maxFeeBps)
  {
    ResidualIsExact(batch, c);
    AcceptedIff(batch, sim, maxFeeBps, 0);
    var ia, ib := IndexOf(sim.tokens, batch.a).value, IndexOf(sim.tokens, batch.b).value;
    assert sim.tokens[ia] == batch.a && sim.tokens[ib] == batch.b;
    assert forall k :: 0 <= k < |sim.tokens| && sim.tokens[k] == batch.a ==> k == ia;
    assert forall k :: 0 <= k < |sim.tokens| && sim.tokens[k] == batch.b ==> k == ib;
  }

  lemma FeeOnlyOnFedTokenA(batch: PairBatch, c: Clearing, sim: SimResult, maxFeeBps: nat, outA: nat)
    requires Sided(batch) && Positive(c) && NetDemandA(batch, c) && TokensDistinct(sim)
    requires Simulated(batch, c, sim, 0, ResidualOf(batch, c).b, outA, 0)
    ensures HeldB(batch, ResidualOf(batch, c).b, 0) == OwedB(batch, c)
    ensures Judge(batch, sim, maxFeeBps, 0).Accepted?
       <==> OwedA(batch, c) <= HeldA(batch, 0, outA) <= OwedA(batch, c) + FeeCap(batch, batch.a, OwedA(batch, c), maxFeeBps)
  {
    ResidualIsExact(batch, c);
    AcceptedIff(batch, sim, maxFeeBps, 0);
    var ia, ib := IndexOf(sim.tokens, batch.a).value, IndexOf(sim.tokens, batch.b).value;
    assert sim.tokens[ia] == batch.a && sim.tokens[ib] == batch.b;
    assert forall k :: 0 <= k < |sim.tokens| && sim.tokens[k] == batch.a ==> k == ia;
    assert forall k :: 0 <= k < |sim.tokens| && sim.tokens[k] == batch.b ==> k == ib;
  }

  // ------------------------------------------------ limits and drops

  predicate MissesLimit(o: Order, batch: PairBatch, c: Clearing) {
    BuyAmount(o, batch, c) < o.minBuyAmount
  }

  function Failing(os: seq<Order>, batch: PairBatch, c: Clearing): seq<Order> {
    if os == [] then []
    else (if MissesLimit(os[0], batch, c) then [os[0]] else []) + Failing(os[1..], batch, c)
  }

  function LimitFailures(batch: PairBatch, c: Clearing): seq<Order> {
    Failing(AllOrders(batch), batch, c)
  }

  function Remove(os: seq<Order>, drop: seq<Order>): seq<Order> {
    if os == [] then []
    else (if os[0] in drop then [] else [os[0]]) + Remove(os[1..], drop)
  }

  function Without(batch: PairBatch, drop: seq<Order>): PairBatch {
    PairBatch(batch.a, batch.b, Remove(batch.sellA, drop), Remove(batch.sellB, drop))
  }

  lemma {:induction false} FailingAre(os: seq<Order>, batch: PairBatch, c: Clearing)
    ensures forall o :: o in Failing(os, batch, c) <==> o in os && MissesLimit(o, batch, c)
    ensures forall o :: multiset(Failing(os, batch, c))[o] == if o in os && MissesLimit(o, batch, c) then multiset(os)[o] else 0
  {
    if os != [] {
      FailingAre(os[1..], batch, c);
      assert os == [os[0]] + os[1..];
    }
  }

  lemma {:induction false} RemoveKeeps(os: seq<Order>, drop: seq<Order>)
    ensures forall o :: multiset(Remove(os, drop))[o] == if o in drop then 0 else multiset(os)[o]
    ensures forall o :: o in Remove(os, drop) <==> o in os && o !in drop
  {
    if os != [] {
      RemoveKeeps(os[1..], drop);
      assert os == [os[0]] + os[1..];
    }
  }

  lemma KeptAndFailed(batch: PairBatch, c: Clearing, o: Order)
    ensures var fails, kept := LimitFailures(batch, c), Without(batch, LimitFailures(batch, c));
            && multiset(AllOrders(kept))[o] + multiset(fails)[o] == multiset(AllOrders(batch))[o]
            && (o in AllOrders(kept) ==> o in AllOrders(batch) && !MissesLimit(o, batch, c))
            && (o in fails ==> MissesLimit(o, batch, c))
  {
    var fails := LimitFailures(batch, c);
    FailingAre(AllOrders(batch), batch, c);
    RemoveKeeps(batch.sellA, fails);
    RemoveKeeps(batch.sellB, fails);
    hide Failing, Remove, MissesLimit;
    assert o in AllOrders(batch) <==> o in batch.sellA || o in batch.sellB;
    assert multiset(AllOrders(batch))[o] == multiset(batch.sellA)[o] + multiset(batch.sellB)[o];
    assert o !in AllOrders(batch) ==> multiset(AllOrders(batch))[o] == 0;
  }

  lemma KeptIsSided(batch: PairBatch, fails: seq<Order>)
    ensures Sided(batch) ==> Sided(Without(batch, fails))
  {
    RemoveKeeps(batch.sellA, fails);
    RemoveKeeps(batch.sellB, fails);
  }

  lemma NobodyMisses(batch: PairBatch, kept: PairBatch, c: Clearing)
    requires kept.a == batch.a && forall o <- AllOrders(kept) :: !MissesLimit(o, batch, c)
    ensures LimitFailures(kept, c) == []
  {
    NoneFails(AllOrders(kept), kept, c);
  }

  /** Dropping the failures splits the batch in two: every kept order meets its limit, every dropped one misses it. */
  lemma DropsPartition(batch: PairBatch, c: Clearing)
    ensures var fails, kept := LimitFailures(batch, c), Without(batch, LimitFailures(batch, c));
            && multiset(AllOrders(kept)) + multiset(fails) == multiset(AllOrders(batch))
            && LimitFailures(kept, c) == []
            && (forall o <- fails :: MissesLimit(o, batch, c))
            && (Sided(batch) ==> Sided(kept))
  {
    hide Failing, Remove, MissesLimit, AllOrders;
    var fails, kept := LimitFailures(batch, c), Without(batch, LimitFailures(batch, c));
    forall o: Order
      ensures multiset(AllOrders(kept))[o] + multiset(fails)[o] == multiset(AllOrders(batch))[o]
      ensures o in AllOrders(kept) ==> !MissesLimit(o, batch, c)
      ensures o in fails ==> MissesLimit(o, batch, c)
    {
      KeptAndFailed(batch, c, o);
    }
    assert multiset(AllOrders(kept)) + multiset(fails) == multiset(AllOrders(batch));
    KeptIsSided(batch, fails);
    NobodyMisses(batch, kept, c);
  }

  lemma {:induction false} NoneFails(os: seq<Order>, batch: PairBatch, c: Clearing)
    requires forall o <- os :: !MissesLimit(o, batch, c)
    ensures Failing(os, batch, c) == []
  {
    if os != [] {
      assert os[0] in os;
      NoneFails(os[1..], batch, c);
    }
  }
}
