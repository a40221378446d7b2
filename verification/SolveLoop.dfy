// The price iteration for one pair: up to six rounds of drop, net, simulate
// and correct. The AMM is a parameter that may answer anything.
module SolveLoop {
  import opened Common
  import opened Solver
  import opened PairBatches
  import opened Allocation

  const ROUNDS := 6

  type ValidSim = s: SimResult | s.Valid() witness SimResult([], [], [])

  datatype Answer = Simulation(sim: ValidSim) | SimulateError

  /** What the simulation answers in a given round to a given question. */
  type Amm = (nat, PairBatch, Clearing, seq<Interaction>) -> Answer

  /** The best split found for a whole side, what it returns, and the best single route's return. */
  datatype Quote = Quote(alloc: Alloc, out: nat, singleOut: nat)

  datatype Env = Env(amm: Amm, ab: Option<Quote>, ba: Option<Quote>, feeBps: nat, maxFeeBps: nat)
  {
    predicate Valid() {
      feeBps <= 10_000 && Whole(Route(ab)) && Whole(Route(ba))
    }
  }

  function Route(q: Option<Quote>): Option<Alloc> {
    if q.Some? then Some(q.value.alloc) else None
  }

  function Out(q: Option<Quote>): nat {
    if q.Some? then q.value.out else 0
  }

  datatype SolveError =
    | NoRoute | NoLimitCanBeMet | ResidualHasNoRoute | SimulateFailed
    | Unacceptable(v: Verdict) | DidNotConverge(v: Verdict) | LimitsMoved

  /** An order that left the batch, and the round and price at which it did. */
  datatype Dropped = Dropped(order: Order, round: nat, price: Clearing)

  /** `simRound` and `simPrice` record when and at which price the simulation was taken. */
  datatype Loop = Loop(batch: PairBatch, c: Clearing, dropped: seq<Dropped>,
                       interactions: seq<Interaction>, sim: ValidSim, simRound: nat, simPrice: Clearing)

  /** Threw: an order would have been paid at a price that had rounded to zero. */
  datatype Outcome =
    | Solved(end: Loop, converged: bool)
    | Failed(error: SolveError, dropped: seq<Dropped>)
    | Threw

  datatype Step = Stop(outcome: Outcome) | Break(end: Loop) | Continue(next: Loop)

  /** The relative move in units of 1/100000. */
  function Rel(x: nat, y: nat): nat {
    if x == y then 0 else Abs(x - y) * 100_000 / Max(y, 1)
  }

  predicate Settled(next: Clearing, c: Clearing) {
    Rel(next.pA, c.pA) < 10 && Rel(next.pB, c.pB) < 10
  }

  /** No counterparty, no fee. */
  function FeeFor(batch: PairBatch, feeBps: nat): (fee: nat)
    ensures fee <= feeBps
  {
    if batch.sellA == [] || batch.sellB == [] then 0 else feeBps
  }

  function Record(fails: seq<Order>, round: nat, c: Clearing): (ds: seq<Dropped>)
    ensures |ds| == |fails|
  {
    seq(|fails|, i requires 0 <= i < |fails| => Dropped(fails[i], round, c))
  }

  function OrdersOf(ds: seq<Dropped>): seq<Order> {
    seq(|ds|, i requires 0 <= i < |ds| => ds[i].order)
  }

  /** Drop the orders whose limit the price misses. */
  function Drop(st: Loop, round: nat): Loop {
    var fails := LimitFailures(st.batch, st.c);
    st.(batch := Without(st.batch, fails), dropped := st.dropped + Record(fails, round, st.c))
  }

  /** Net, simulate and correct, once the failing orders are out. */
  function Ask(env: Env, st: Loop, round: nat): Step
    requires env.Valid()
  {
    var res := ResidualOf(st.batch, st.c);
    if (res.a > 0 && env.ab.None?) || (res.b > 0 && env.ba.None?) then Stop(Failed(ResidualHasNoRoute, st.dropped))
    else
      var xs := InteractionsFor(res, Route(env.ab), Route(env.ba));
      match env.amm(round, st.batch, st.c, xs)
      case SimulateError => Stop(Failed(SimulateFailed, st.dropped))
      case Simulation(s) =>
        var taken := st.(interactions := xs, sim := s, simRound := round, simPrice := st.c);
        var next := NextClearing(st.batch, st.c, s, FeeFor(st.batch, env.feeBps), res);
        var verdict := Judge(st.batch, s, env.maxFeeBps, 0);
        if verdict.Accepted? && Settled(next, st.c) then Break(taken)
        else if next == st.c && !verdict.Accepted? then Stop(Failed(Unacceptable(verdict), st.dropped))
        else Continue(taken.(c := next))
  }

  function RoundOf(env: Env, before: Loop, round: nat): Step
    requires env.Valid()
  {
    if !Payable(before.batch, before.c) then Stop(Threw)
    else
      var st := Drop(before, round);
      if AllOrders(st.batch) == [] && LimitFailures(before.batch, before.c) != [] then Stop(Failed(NoLimitCanBeMet, st.dropped))
      else Ask(env, st, round)
  }

  /** After the loop: the last simulation and every limit are checked once more. */
  function Finish(env: Env, st: Loop, round: nat, converged: bool): Outcome {
    var verdict := Judge(st.batch, st.sim, env.maxFeeBps, 0);
    var fails := LimitFailures(st.batch, st.c);
    if !verdict.Accepted? then Failed(DidNotConverge(verdict), st.dropped)
    else if !Payable(st.batch, st.c) then Threw
    else if fails != [] then Failed(LimitsMoved, st.dropped + Record(fails, round, st.c))
    else Solved(st, converged)
  }

  function Rounds(env: Env, st: Loop, round: nat): Outcome
    requires env.Valid() && round <= ROUNDS
    decreases ROUNDS - round
  {
    if round == ROUNDS then Finish(env, st, round, false)
    else
      match RoundOf(env, st, round)
      case Stop(outcome) => outcome
      case Break(end) => Finish(env, end, round, true)
      case Continue(next) => Rounds(env, next, round + 1)
  }

  function Start(batch: PairBatch, c: Clearing): Loop {
    Loop(batch, c, [], [], SimResult([], [], []), 0, c)
  }

  /** The specification of solve. */
  function SolveOf(env: Env, initial: PairBatch): Outcome
    requires env.Valid()
  {
    match DiscoveryClearing(initial, Out(env.ab), Out(env.ba))
    case None => Failed(NoRoute, [])
    case Some(c) => Rounds(env, Start(initial, c), 0)
  }

  /** The loop of the source, updating batch, price, simulation and drops in place. */
  method Solve(env: Env, initial: PairBatch) returns (r: Outcome)
    requires env.Valid()
    ensures r == SolveOf(env, initial)
  {
    hide ResidualOf, NextClearing, Judge, InteractionsFor, LimitFailures, Without, Nums, Settled, FeeFor, DiscoveryClearing, Payable, Record;
    var discovered := DiscoveryClearing(initial, Out(env.ab), Out(env.ba));
    if discovered.None? { return Failed(NoRoute, []); }
    var batch, c := initial, discovered.value;
    var dropped: seq<Dropped>, interactions: seq<Interaction>, sim: ValidSim := [], [], SimResult([], [], []);
    var simRound: nat, simPrice, converged := 0, c, false;
    var round := 0;
    while round < ROUNDS
      invariant round <= ROUNDS && !converged
      invariant SolveOf(env, initial)
             == Rounds(env, Loop(batch, c, dropped, interactions, sim, simRound, simPrice), round)
    {
      if !Payable(batch, c) { return Threw; }
      var fails := LimitFailures(batch, c);
      ghost var before := Loop(batch, c, dropped, interactions, sim, simRound, simPrice);
      NothingToDrop(batch, c, round, dropped);
      if |fails| > 0 {
        dropped := dropped + Record(fails, round, c);
        batch := Without(batch, fails);
        if AllOrders(batch) == [] { return Failed(NoLimitCanBeMet, dropped); }
      }
      assert Drop(before, round) == before.(batch := batch, dropped := dropped);
      var res := ResidualOf(batch, c);
      if (res.a > 0 && env.ab.None?) || (res.b > 0 && env.ba.None?) { return Failed(ResidualHasNoRoute, dropped); }
      interactions := InteractionsFor(res, Route(env.ab), Route(env.ba));
      var answer := env.amm(round, batch, c, interactions);
      if answer.SimulateError? { return Failed(SimulateFailed, dropped); }
      sim, simRound, simPrice := answer.sim, round, c;
      var next := NextClearing(batch, c, sim, FeeFor(batch, env.feeBps), res);
      var verdict := Acceptable(batch, sim, env.maxFeeBps);
      if verdict.Accepted? && Settled(next, c) {
        converged := true;
        break;
      }
      if next == c && !verdict.Accepted? { return Failed(Unacceptable(verdict), dropped); }
      c := next;
      round := round + 1;
    }
    var st := Loop(batch, c, dropped, interactions, sim, simRound, simPrice);
    var verdict := Acceptable(batch, sim, env.maxFeeBps);
    if !verdict.Accepted? { return Failed(DidNotConverge(verdict), dropped); }
    if !Payable(batch, c) { return Threw; }
    var fails := LimitFailures(batch, c);
    if |fails| > 0 { return Failed(LimitsMoved, dropped + Record(fails, round, c)); }
    return Solved(st, converged);
  }

  lemma NothingToDrop(batch: PairBatch, c: Clearing, round: nat, dropped: seq<Dropped>)
    ensures LimitFailures(batch, c) == [] ==> Without(batch, []) == batch && dropped + Record([], round, c) == dropped
  {
    RemoveNothing(batch.sellA);
    RemoveNothing(batch.sellB);
  }

  lemma {:induction false} RemoveNothing(os: seq<Order>)
    ensures Remove(os, []) == os
  {
    if os != [] {
      RemoveNothing(os[1..]);
    }
  }

  // ---------------------------------------------- what every run keeps

  /** The state in which a run enters a round, if it gets there; after the last one, the state it leaves the loop with. */
  function StateAt(env: Env, initial: PairBatch, round: nat): Option<Loop>
    requires env.Valid() && round <= ROUNDS
    decreases round
  {
    if round == 0 then
      match DiscoveryClearing(initial, Out(env.ab), Out(env.ba))
      case None => None
      case Some(c) => Some(Start(initial, c))
    else
      match StateAt(env, initial, round - 1)
      case None => None
      case Some(st) =>
        match RoundOf(env, st, round - 1)
        case Continue(next) => Some(next)
        case _ => None
  }

  /** The run held this price in that round. */
  predicate HeldAt(env: Env, initial: PairBatch, round: nat, c: Clearing)
    requires env.Valid()
  {
    round <= ROUNDS && StateAt(env, initial, round).Some? && StateAt(env, initial, round).value.c == c
  }

  /** Kept and dropped orders are the input, in other words: none lost, none invented. */
  ghost predicate Splits(initial: PairBatch, st: Loop) {
    multiset(AllOrders(st.batch)) + multiset(OrdersOf(st.dropped)) == multiset(AllOrders(initial))
  }

  /** A dropped order missed its limit at the price the run held in the round that dropped it. */
  ghost predicate Earned(env: Env, initial: PairBatch, dropped: seq<Dropped>)
    requires env.Valid()
  {
    forall d <- dropped ::
      HeldAt(env, initial, d.round, d.price) && Divisor(d.order, initial, d.price) > 0 && MissesLimit(d.order, initial, d.price)
  }

  ghost predicate Kept(env: Env, initial: PairBatch, st: Loop)
    requires env.Valid()
  {
    && Sided(st.batch) && st.batch.a == initial.a && st.batch.b == initial.b
    && Splits(initial, st) && Earned(env, initial, st.dropped)
  }

  /** The last simulation answered the present batch and interactions, which send exactly the residual at its price. */
  ghost predicate Coherent(env: Env, initial: PairBatch, st: Loop)
    requires env.Valid()
  {
    && st.simRound < ROUNDS && HeldAt(env, initial, st.simRound, st.simPrice)
    && env.amm(st.simRound, st.batch, st.simPrice, st.interactions) == Simulation(st.sim)
    && var res := ResidualOf(st.batch, st.simPrice);
    && st.interactions == InteractionsFor(res, Route(env.ab), Route(env.ba))
    && Sent(st.interactions) == res.a + res.b
  }

  /** After the last simulation the price either stood, or was moved by this much. */
  function NextPrice(env: Env, st: Loop): Clearing
    requires env.Valid()
  {
    NextClearing(st.batch, st.simPrice, st.sim, FeeFor(st.batch, env.feeBps), ResidualOf(st.batch, st.simPrice))
  }

  /** A converged price would move by less than a basis point; another one is the correction itself. */
  ghost predicate Arrived(env: Env, st: Loop, converged: bool)
    requires env.Valid()
  {
    if converged then Settled(NextPrice(env, st), st.c) else st.c == NextPrice(env, st)
  }

  lemma SameTerms(o: Order, x: PairBatch, y: PairBatch, c: Clearing)
    requires x.a == y.a
    ensures MissesLimit(o, x, c) <==> MissesLimit(o, y, c)
    ensures Divisor(o, x, c) == Divisor(o, y, c)
  {
  }

  lemma OrdersAppend(ds: seq<Dropped>, fails: seq<Order>, round: nat, c: Clearing)
    ensures multiset(OrdersOf(ds + Record(fails, round, c))) == multiset(OrdersOf(ds)) + multiset(fails)
  {
    assert OrdersOf(ds + Record(fails, round, c)) == OrdersOf(ds) + fails;
  }

  /** The failures at the price of a round, recorded, have earned it. */
  lemma FailuresEarned(env: Env, initial: PairBatch, st: Loop, round: nat)
    requires env.Valid() && st.batch.a == initial.a && HeldAt(env, initial, round, st.c) && Payable(st.batch, st.c)
    requires Earned(env, initial, st.dropped)
    ensures Earned(env, initial, st.dropped + Record(LimitFailures(st.batch, st.c), round, st.c))
  {
    var fails := LimitFailures(st.batch, st.c);
    FailingAre(AllOrders(st.batch), st.batch, st.c);
    hide HeldAt, Failing, MissesLimit, AllOrders, Divisor;
    forall d <- Record(fails, round, st.c)
      ensures HeldAt(env, initial, d.round, d.price) && Divisor(d.order, initial, d.price) > 0 && MissesLimit(d.order, initial, d.price)
    {
      assert d.order in fails;
      SameTerms(d.order, st.batch, initial, st.c);
    }
  }

  lemma StaysPayable(batch: PairBatch, fails: seq<Order>, c: Clearing)
    requires Payable(batch, c)
    ensures Payable(Without(batch, fails), c)
  {
    RemoveKeeps(batch.sellA, fails);
    RemoveKeeps(batch.sellB, fails);
    hide Remove, Divisor;
    forall o <- AllOrders(Without(batch, fails)) ensures o in AllOrders(batch) && Divisor(o, Without(batch, fails), c) == Divisor(o, batch, c) {
      SameTerms(o, batch, Without(batch, fails), c);
    }
  }

  lemma DropKeeps(env: Env, initial: PairBatch, st: Loop, round: nat)
    requires env.Valid() && Kept(env, initial, st) && HeldAt(env, initial, round, st.c) && Payable(st.batch, st.c)
    ensures Kept(env, initial, Drop(st, round)) && LimitFailures(Drop(st, round).batch, st.c) == []
    ensures Payable(Drop(st, round).batch, st.c)
  {
    hide LimitFailures, Earned, HeldAt, Remove, Record, OrdersOf, Payable, AllOrders, Sided, MissesLimit;
    var fails := LimitFailures(st.batch, st.c);
    DropsPartition(st.batch, st.c);
    FailuresEarned(env, initial, st, round);
    StaysPayable(st.batch, fails, st.c);
    OrdersAppend(st.dropped, fails, round, st.c);
  }

  /**
   * What a returned outcome promises. On success: kept and dropped orders
   * partition the input, every kept order meets its limit at the returned
   * price, the simulation is acceptable and was taken of exactly this batch
   * and these interactions. It was taken at the returned price exactly when
   * the loop converged; a run that used up its rounds has always moved on. A
   * throw means that some order was left to be paid at a price of zero.
   */
  ghost predicate Sound(env: Env, initial: PairBatch, r: Outcome)
    requires env.Valid()
  {
    match r
    case Threw => exists k: nat :: k <= ROUNDS && ZeroPriceAt(env, initial, k)
    case Failed(_, dropped) => multiset(OrdersOf(dropped)) <= multiset(AllOrders(initial)) && Earned(env, initial, dropped)
    case Solved(end, converged) =>
      && Kept(env, initial, end)
      && Payable(end.batch, end.c) && LimitFailures(end.batch, end.c) == []
      && Judge(end.batch, end.sim, env.maxFeeBps, 0).Accepted?
      && Coherent(env, initial, end)
      && (converged <==> end.c == end.simPrice)
      && Arrived(env, end, converged)
  }

  predicate ZeroPriceAt(env: Env, initial: PairBatch, round: nat)
    requires env.Valid() && round <= ROUNDS
  {
    match StateAt(env, initial, round)
    case None => false
    case Some(st) => !Payable(st.batch, st.c)
  }

  /** Asking the AMM changes no order; when the loop goes on, the price has moved off the simulated one. */
  lemma AskIsCoherent(env: Env, initial: PairBatch, st: Loop, round: nat)
    requires env.Valid() && round < ROUNDS && HeldAt(env, initial, round, st.c)
    ensures var step := Ask(env, st, round);
            && (step.Stop? ==> step.outcome.Failed? && step.outcome.dropped == st.dropped)
            && (step.Break? ==> Coherent(env, initial, step.end) && step.end.c == step.end.simPrice == st.c
                                && Arrived(env, step.end, true) && SameOrders(st, step.end))
            && (step.Continue? ==> Coherent(env, initial, step.next) && step.next.c != step.next.simPrice
                                   && Arrived(env, step.next, false) && SameOrders(st, step.next))
  {
    var res := ResidualOf(st.batch, st.c);
    if !((res.a > 0 && env.ab.None?) || (res.b > 0 && env.ba.None?)) {
      ResidualIsSent(st.batch, st.c, Route(env.ab), Route(env.ba));
    }
    hide ResidualOf, InteractionsFor, Sent, NextClearing, Judge, Sided, Whole, HeldAt;
  }

  predicate SameOrders(st: Loop, after: Loop) {
    after.batch == st.batch && after.dropped == st.dropped
  }

  lemma DroppedIsPart(initial: PairBatch, st: Loop)
    requires Splits(initial, st)
    ensures multiset(OrdersOf(st.dropped)) <= multiset(AllOrders(initial))
  {
  }

  lemma SameKept(env: Env, initial: PairBatch, st: Loop, after: Loop)
    requires env.Valid() && Kept(env, initial, st) && SameOrders(st, after)
    ensures Kept(env, initial, after)
  {
  }

  lemma DropsNoPrice(st: Loop, round: nat)
    ensures Drop(st, round).c == st.c
  {
  }

  lemma RoundKeeps(env: Env, initial: PairBatch, st: Loop, round: nat)
    requires env.Valid() && round < ROUNDS && StateAt(env, initial, round) == Some(st) && Kept(env, initial, st)
    ensures var step := RoundOf(env, st, round);
            && (step.Stop? ==> Sound(env, initial, step.outcome))
            && (step.Break? ==> Kept(env, initial, step.end) && Coherent(env, initial, step.end) && step.end.c == step.end.simPrice == st.c
                                && Arrived(env, step.end, true))
            && (step.Continue? ==> StateAt(env, initial, round + 1) == Some(step.next)
                                   && Kept(env, initial, step.next) && Coherent(env, initial, step.next)
                                   && step.next.c != step.next.simPrice && Arrived(env, step.next, false))
  {
    hide Drop, Ask, LimitFailures, Coherent, Arrived, Sided, Splits, Earned, AllOrders, Env.Valid, Payable, OrdersOf, NextPrice;
    if !Payable(st.batch, st.c) {
      assert ZeroPriceAt(env, initial, round);
    } else {
      assert HeldAt(env, initial, round, st.c);
      var now := Drop(st, round);
      DropKeeps(env, initial, st, round);
      DroppedIsPart(initial, now);
      assert now.c == st.c by { DropsNoPrice(st, round); }
      AskIsCoherent(env, initial, now, round);
      match Ask(env, now, round)
      case Stop(_) =>
      case Break(end) => SameKept(env, initial, now, end);
      case Continue(next) => SameKept(env, initial, now, next);
    }
  }

  lemma FinishIsSound(env: Env, initial: PairBatch, st: Loop, round: nat, converged: bool)
    requires env.Valid() && round <= ROUNDS && Kept(env, initial, st) && Coherent(env, initial, st)
    requires HeldAt(env, initial, round, st.c)
    requires !Payable(st.batch, st.c) ==> ZeroPriceAt(env, initial, round)
    requires converged <==> st.c == st.simPrice
    requires Arrived(env, st, converged)
    ensures Sound(env, initial, Finish(env, st, round, converged))
  {
    DroppedIsPart(initial, st);
    if Payable(st.batch, st.c) {
      DropKeeps(env, initial, st, round);
      DroppedIsPart(initial, Drop(st, round));
    }
    hide Judge, NextPrice, LimitFailures, Coherent, Arrived, Sided, Splits, Earned, AllOrders, Without, Env.Valid, Payable, ZeroPriceAt, OrdersOf, Record, HeldAt;
  }

  lemma {:induction false} RoundsKeep(env: Env, initial: PairBatch, st: Loop, round: nat)
    requires env.Valid() && round <= ROUNDS && StateAt(env, initial, round) == Some(st) && Kept(env, initial, st)
    requires round > 0 ==> Coherent(env, initial, st) && st.c != st.simPrice && Arrived(env, st, false)
    ensures Sound(env, initial, Rounds(env, st, round))
    decreases ROUNDS - round
  {
    hide RoundOf, Finish, Sound, Coherent, Arrived, Sided, Splits, Earned, Env.Valid, StateAt;
    if round == ROUNDS {
      FinishIsSound(env, initial, st, round, false);
    } else {
      RoundKeeps(env, initial, st, round);
      match RoundOf(env, st, round)
      case Stop(_) =>
      case Break(end) =>
        BrokeWhilePayable(env, st, round);
        FinishIsSound(env, initial, end, round, true);
      case Continue(next) => RoundsKeep(env, initial, next, round + 1);
    }
  }

  lemma BrokeWhilePayable(env: Env, st: Loop, round: nat)
    requires env.Valid() && RoundOf(env, st, round).Break?
    ensures Payable(RoundOf(env, st, round).end.batch, RoundOf(env, st, round).end.c)
  {
    hide LimitFailures, ResidualOf, NextClearing, Judge, InteractionsFor, Record, Payable, Without;
    StaysPayable(st.batch, LimitFailures(st.batch, st.c), st.c);
  }

  /** Every run of solve, whatever the AMM answers. */
  lemma SolveIsSound(env: Env, initial: PairBatch)
    requires env.Valid() && Sided(initial)
    ensures Sound(env, initial, SolveOf(env, initial))
  {
    var discovered := DiscoveryClearing(initial, Out(env.ab), Out(env.ba));
    if discovered.Some? {
      var st := Start(initial, discovered.value);
      assert StateAt(env, initial, 0) == Some(st);
      assert Splits(initial, st);
      hide Rounds, Sound, StateAt;
      RoundsKeep(env, initial, st, 0);
    }
  }

  // ------------------------------------------------- when solve throws

  /** The rounds from any state the run reaches are the rest of the run. */
  lemma {:induction false} ReachesRound(env: Env, initial: PairBatch, round: nat)
    requires env.Valid() && round <= ROUNDS && StateAt(env, initial, round).Some?
    ensures SolveOf(env, initial) == Rounds(env, StateAt(env, initial, round).value, round)
    decreases round
  {
    hide RoundOf, Finish, DiscoveryClearing;
    if round > 0 {
      ReachesRound(env, initial, round - 1);
    }
  }

  /** A price of zero has to be paid in that round; after the last one, only if the last simulation is accepted. */
  predicate ThrowsAt(env: Env, initial: PairBatch, round: nat)
    requires env.Valid() && round <= ROUNDS
  {
    && ZeroPriceAt(env, initial, round)
    && (round == ROUNDS ==>
          var st := StateAt(env, initial, round).value;
          Judge(st.batch, st.sim, env.maxFeeBps, 0).Accepted?)
  }

  lemma ThrowsFrom(env: Env, initial: PairBatch, round: nat)
    requires env.Valid() && round <= ROUNDS && ThrowsAt(env, initial, round)
    ensures SolveOf(env, initial) == Threw
  {
    ReachesRound(env, initial, round);
    hide StateAt, SolveOf, Judge, Payable, Drop, Ask, LimitFailures;
  }

  lemma OnlyPricesThrow(env: Env, st: Loop, round: nat)
    requires env.Valid()
    ensures RoundOf(env, st, round) == Stop(Threw) <==> !Payable(st.batch, st.c)
    ensures RoundOf(env, st, round).Break? ==> Finish(env, RoundOf(env, st, round).end, round, true) != Threw
  {
    if RoundOf(env, st, round).Break? { BrokeWhilePayable(env, st, round); }
    hide Payable, Drop, LimitFailures, ResidualOf, InteractionsFor, NextClearing, Judge;
  }

  lemma ThrowAtEnd(env: Env, initial: PairBatch, st: Loop)
    requires env.Valid() && StateAt(env, initial, ROUNDS) == Some(st) && Finish(env, st, ROUNDS, false) == Threw
    ensures ThrowsAt(env, initial, ROUNDS)
  {
    hide StateAt, Payable, Judge, LimitFailures;
  }

  lemma ThrowInRound(env: Env, initial: PairBatch, st: Loop, round: nat)
    requires env.Valid() && round < ROUNDS && StateAt(env, initial, round) == Some(st) && !Payable(st.batch, st.c)
    ensures ThrowsAt(env, initial, round)
  {
    hide StateAt, Payable;
  }

  lemma NextState(env: Env, initial: PairBatch, st: Loop, round: nat, next: Loop)
    requires env.Valid() && round < ROUNDS && StateAt(env, initial, round) == Some(st) && RoundOf(env, st, round) == Continue(next)
    ensures StateAt(env, initial, round + 1) == Some(next)
  {
    hide RoundOf;
  }

  lemma {:induction false} ThrowComesFrom(env: Env, initial: PairBatch, st: Loop, round: nat) returns (k: nat)
    requires env.Valid() && round <= ROUNDS && StateAt(env, initial, round) == Some(st) && Rounds(env, st, round) == Threw
    ensures k <= ROUNDS && ThrowsAt(env, initial, k)
    decreases ROUNDS - round
  {
    hide RoundOf, Finish, Payable, Judge, StateAt, ThrowsAt;
    k := round;
    if round == ROUNDS {
      ThrowAtEnd(env, initial, st);
    } else {
      OnlyPricesThrow(env, st, round);
      match RoundOf(env, st, round)
      case Stop(_) => ThrowInRound(env, initial, st, round);
      case Break(_) =>
      case Continue(next) =>
        NextState(env, initial, st, round, next);
        k := ThrowComesFrom(env, initial, next, round + 1);
    }
  }

  /**
   * solve throws exactly when the run enters a round in which an order would
   * be paid at a price that has rounded to zero, or is left with one after its
   * last round and an accepted simulation.
   */
  lemma ThrowsIff(env: Env, initial: PairBatch)
    requires env.Valid()
    ensures SolveOf(env, initial) == Threw <==> exists k: nat :: k <= ROUNDS && ThrowsAt(env, initial, k)
  {
    if k: nat :| k <= ROUNDS && ThrowsAt(env, initial, k) {
      ThrowsFrom(env, initial, k);
    } else if SolveOf(env, initial) == Threw {
      var k := ThrowComesFrom(env, initial, StateAt(env, initial, 0).value, 0);
    }
  }

  // ------------------------------------- rounds can run out on success

  // A lone seller of a, and a pool whose answer keeps improving by 2000: every
  // simulation is acceptable, and every price moves by more than a basis point.
  const DRIFTER := Order(0, 1, 2, 1_000_000, 0)
  const DRIFT_BATCH := PairBatch(1, 2, [DRIFTER], [])

  function DriftPrice(round: nat): Clearing {
    Clearing(1_000_000 + 2_000 * round, 1_000_000)
  }

  function DriftSim(round: nat): ValidSim {
    SimResult([1, 2], [0, 1_002_000 + 2_000 * round], [0, 1_000_000 + 2_000 * round])
  }

  function DriftEnv(): Env {
    Env((round: nat, _, _, _) => Simulation(DriftSim(round)), Some(Quote(Single(0), 1_000_000, 1_000_000)), None, 10, 30)
  }

  lemma DriftNets(round: nat)
    ensures var c := DriftPrice(round);
            && OwedB(DRIFT_BATCH, c) == c.pA && OwedA(DRIFT_BATCH, c) == 0
            && ResidualOf(DRIFT_BATCH, c) == Residual(1_000_000, 0)
            && LimitFailures(DRIFT_BATCH, c) == [] && Without(DRIFT_BATCH, []) == DRIFT_BATCH
  {
    var c := DriftPrice(round);
    DriftPays(c);
    hide Failing, Owed, BuyAmount;
    assert AllOrders(DRIFT_BATCH) == [DRIFTER];
    RemoveNothing(DRIFT_BATCH.sellA);
    RemoveNothing(DRIFT_BATCH.sellB);
  }

  lemma DriftPays(c: Clearing)
    requires Positive(c) && c.pB == 1_000_000
    ensures BuyAmount(DRIFTER, DRIFT_BATCH, c) == c.pA
    ensures Owed([DRIFTER], DRIFT_BATCH, c) == c.pA && Owed([], DRIFT_BATCH, c) == 0
    ensures Failing([DRIFTER], DRIFT_BATCH, c) == []
    ensures Sold([DRIFTER]) == 1_000_000 && Sold([]) == 0
  {
    var os := [DRIFTER];
    assert os[1..] == [];
    ExactDivision(c.pA, 1_000_000);
    assert BuyAmount(os[0], DRIFT_BATCH, c) == c.pA;
    assert Owed(os, DRIFT_BATCH, c) == c.pA + Owed(os[1..], DRIFT_BATCH, c);
    assert Failing(os, DRIFT_BATCH, c) == [] + Failing(os[1..], DRIFT_BATCH, c);
  }

  lemma DriftIndices(round: nat)
    ensures IndexOf(DriftSim(round).tokens, 1) == Some(0) && IndexOf(DriftSim(round).tokens, 2) == Some(1)
  {
    var ts := DriftSim(round).tokens;
    assert ts[0] == 1 && ts[1] == 2;
    assert 1 in ts && 2 in ts;
  }

  lemma DriftNext(round: nat)
    ensures NextClearing(DRIFT_BATCH, DriftPrice(round), DriftSim(round), 0, Residual(1_000_000, 0)) == DriftPrice(round + 1)
  {
    DriftIndices(round);
    hide IndexOf;
    var held, owed := 1_002_000 + 2_000 * round, 1_000_000 + 2_000 * round;
    ExactDivision(held, 10_000);
    ExactDivision(held, owed);
    assert Rescale(owed, held, owed, 0) == held;
  }

  lemma DriftAccepted(round: nat)
    ensures Judge(DRIFT_BATCH, DriftSim(round), 30, 0).Accepted?
  {
    var s := DriftSim(round);
    AcceptedIff(DRIFT_BATCH, s, 30, 0);
    hide SoldOf, Judge;
    MulLe(1_000_000, SoldOf(AllOrders(DRIFT_BATCH), 2) + s.owed[1], 30);
  }

  lemma DriftAsks(round: nat)
    requires round < ROUNDS
    ensures var c, s := DriftPrice(round), DriftSim(round);
            && NextClearing(DRIFT_BATCH, c, s, 0, Residual(1_000_000, 0)) == DriftPrice(round + 1)
            && Judge(DRIFT_BATCH, s, 30, 0).Accepted?
            && !Settled(DriftPrice(round + 1), c)
  {
    DriftNext(round);
    DriftAccepted(round);
    hide NextClearing, Judge;
    var c := DriftPrice(round);
    FitsQuotient(10, 200_000_000, c.pA);
  }

  lemma DriftStep(st: Loop, round: nat)
    requires round < ROUNDS && st.batch == DRIFT_BATCH && st.c == DriftPrice(round) && st.dropped == []
    requires DriftEnv().Valid()
    ensures var step := RoundOf(DriftEnv(), st, round);
            && step.Continue? && step.next.batch == DRIFT_BATCH && step.next.c == DriftPrice(round + 1)
            && step.next.dropped == [] && step.next.sim == DriftSim(round)
  {
    hide ResidualOf, NextClearing, Judge, Settled, LimitFailures, Without, Spread;
    DriftNets(round);
    DriftAsks(round);
  }

  lemma {:induction false} DriftRounds(st: Loop, round: nat)
    requires DriftEnv().Valid()
    requires round <= ROUNDS && st.batch == DRIFT_BATCH && st.c == DriftPrice(round) && st.dropped == []
    requires round > 0 ==> st.sim == DriftSim(round - 1)
    ensures var r := Rounds(DriftEnv(), st, round); r.Solved? && !r.converged && r.end.c == DriftPrice(ROUNDS)
    decreases ROUNDS - round
  {
    hide ResidualOf, NextClearing, Judge, Settled, LimitFailures, Without, Spread, RoundOf;
    if round == ROUNDS {
      DriftNets(round);
      DriftAsks(round - 1);
    } else {
      DriftStep(st, round);
      DriftRounds(RoundOf(DriftEnv(), st, round).next, round + 1);
    }
  }

  lemma {:induction false} DriftStates(round: nat)
    requires DriftEnv().Valid() && round <= ROUNDS
    requires DiscoveryClearing(DRIFT_BATCH, 1_000_000, 0) == Some(DriftPrice(0))
    ensures var st := StateAt(DriftEnv(), DRIFT_BATCH, round);
            st.Some? && st.value.batch == DRIFT_BATCH && st.value.c == DriftPrice(round) && st.value.dropped == []
    decreases round
  {
    hide RoundOf, DiscoveryClearing;
    if round > 0 {
      DriftStates(round - 1);
      DriftStep(StateAt(DriftEnv(), DRIFT_BATCH, round - 1).value, round - 1);
    }
  }

  /** So a successful solve may return a price that none of its six simulations was taken at: here it does. */
  lemma UnsimulatedPriceReturned()
    ensures DriftEnv().Valid() && Sided(DRIFT_BATCH)
    ensures var r := SolveOf(DriftEnv(), DRIFT_BATCH);
            r.Solved? && forall k :: 0 <= k < ROUNDS ==>
              StateAt(DriftEnv(), DRIFT_BATCH, k).Some? && StateAt(DriftEnv(), DRIFT_BATCH, k).value.c != r.end.c
  {
    assert Single(0).parts[1..] == [];
    DriftPays(DriftPrice(0));
    assert DRIFT_BATCH.sellA == [DRIFTER] && DRIFT_BATCH.sellB == [];
    hide Rounds, Sold, StateAt;
    assert DiscoveryClearing(DRIFT_BATCH, 1_000_000, 0) == Some(DriftPrice(0));
    DriftRounds(Start(DRIFT_BATCH, DriftPrice(0)), 0);
    forall k | 0 <= k < ROUNDS
      ensures StateAt(DriftEnv(), DRIFT_BATCH, k).Some? && StateAt(DriftEnv(), DRIFT_BATCH, k).value.c == DriftPrice(k)
    {
      DriftStates(k);
    }
  }

  // --------------------------------------------- a price can vanish

  // Two orders, and a pool that quotes 2 at discovery and returns nothing in
  // the simulation: what is held of b, less the fee, rounds to a target of 0.
  const LAST_A := Order(0, 1, 2, 1_000, 0)
  const LAST_B := Order(1, 2, 1, 1, 0)
  const LAST_BATCH := PairBatch(1, 2, [LAST_A], [LAST_B])

  function DryEnv(): Env {
    var route := Some(Quote(Single(0), 2, 2));
    Env((_, _, _, _) => Simulation(SimResult([1, 2], [500, 1], [500, 2])), route, route, 10, 30)
  }

  lemma DryNets()
    ensures var c := Clearing(2, 1_000);
            && Sold(LAST_BATCH.sellA) == 1_000 && Sold(LAST_BATCH.sellB) == 1
            && OwedA(LAST_BATCH, c) == 500 && OwedB(LAST_BATCH, c) == 2
            && ResidualOf(LAST_BATCH, c) == Residual(500, 0)
            && LimitFailures(LAST_BATCH, c) == [] && Without(LAST_BATCH, []) == LAST_BATCH
  {
    var c := Clearing(2, 1_000);
    assert BuyAmount(LAST_A, LAST_BATCH, c) == 2 && BuyAmount(LAST_B, LAST_BATCH, c) == 500;
    assert [LAST_A][1..] == [] && [LAST_B][1..] == [] && [LAST_A, LAST_B][1..] == [LAST_B];
    assert AllOrders(LAST_BATCH) == [LAST_A, LAST_B];
    hide BuyAmount;
    assert Owed([LAST_A], LAST_BATCH, c) == 2 + Owed([], LAST_BATCH, c);
    assert Owed([LAST_B], LAST_BATCH, c) == 500 + Owed([], LAST_BATCH, c);
    assert Sold([LAST_A]) == 1_000 + Sold([]) && Sold([LAST_B]) == 1 + Sold([]);
    assert Failing([LAST_B], LAST_BATCH, c) == [] + Failing([], LAST_BATCH, c);
    assert Failing([LAST_A, LAST_B], LAST_BATCH, c) == [] + Failing([LAST_B], LAST_BATCH, c);
    RemoveNothing(LAST_BATCH.sellA);
    RemoveNothing(LAST_BATCH.sellB);
  }

  lemma DryCorrects()
    ensures var c, sim := Clearing(2, 1_000), SimResult([1, 2], [500, 1], [500, 2]);
            && NextClearing(LAST_BATCH, c, sim, 10, Residual(500, 0)) == Clearing(0, 1_000)
            && !Judge(LAST_BATCH, sim, 30, 0).Accepted?
            && Simulated(LAST_BATCH, c, sim, 500, 0, 0, 0)
  {
    var sim := SimResult([1, 2], [500, 1], [500, 2]);
    DryNets();
    assert [1, 2][0] == 1 && IndexOf([1, 2], 1) == Some(0);
    assert [1, 2][1..] == [2] && IndexOf([2], 2) == Some(0) && IndexOf([1, 2], 2) == Some(1);
    AcceptedIff(LAST_BATCH, sim, 30, 0);
    assert sim.tokens[1] == LAST_BATCH.b && sim.delta[1] < sim.owed[1];
  }

  lemma DryFirstRound()
    ensures DryEnv().Valid()
    ensures var step := RoundOf(DryEnv(), Start(LAST_BATCH, Clearing(2, 1_000)), 0);
            step.Continue? && step.next.batch == LAST_BATCH && step.next.c == Clearing(0, 1_000)
  {
    assert Single(0).parts[1..] == [];
    DryNets();
    DryCorrects();
    hide ResidualOf, NextClearing, Judge, LimitFailures, Without, Spread, Sold, OwedA, OwedB, Simulated;
  }

  lemma DrySecondRound(st: Loop)
    requires DryEnv().Valid() && st.batch == LAST_BATCH && st.c == Clearing(0, 1_000)
    ensures RoundOf(DryEnv(), st, 1) == Stop(Threw)
  {
    assert LAST_B in AllOrders(LAST_BATCH) && Divisor(LAST_B, LAST_BATCH, st.c) == 0;
  }

  /** A price that rounds to zero makes the next round divide by it: solve throws, and none of its errors is reported. */
  lemma ZeroPriceThrows()
    ensures DryEnv().Valid() && Sided(LAST_BATCH) && SolveOf(DryEnv(), LAST_BATCH) == Threw
  {
    DryDiscovers();
    DryFirstRound();
    hide RoundOf, DiscoveryClearing;
    var st := Start(LAST_BATCH, Clearing(2, 1_000));
    var next := RoundOf(DryEnv(), st, 0).next;
    DrySecondRound(next);
    assert Rounds(DryEnv(), next, 1) == Threw;
    assert Rounds(DryEnv(), st, 0) == Threw;
  }

  lemma DryDiscovers()
    ensures DiscoveryClearing(LAST_BATCH, 2, 2) == Some(Clearing(2, 1_000))
  {
    DryNets();
  }
}
