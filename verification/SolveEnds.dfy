// How solve ends, and when it goes on: every outcome has its exact condition
// on the orders, the price they are held at and the AMM's answer.
module SolveEnds {
  import opened Common
  import opened Solver
  import opened PairBatches
  import opened Allocation
  import opened SolveLoop

  // ------------------------------------------------- a round, declared

  /** The orders that get what they ask for, in their order. */
  function Meeting(os: seq<Order>, batch: PairBatch, c: Clearing): seq<Order> {
    if os == [] then []
    else (if os[0].minBuyAmount <= BuyAmount(os[0], batch, c) then [os[0]] else []) + Meeting(os[1..], batch, c)
  }

  /** What is left of a batch when everybody who does not is out. */
  function Survivors(st: Loop): PairBatch {
    PairBatch(st.batch.a, st.batch.b, Meeting(st.batch.sellA, st.batch, st.c), Meeting(st.batch.sellB, st.batch, st.c))
  }

  /** There are orders, and no price of theirs is met. */
  ghost predicate NobodyMeets(st: Loop) {
    AllOrders(st.batch) != [] && forall o <- AllOrders(st.batch) :: BuyAmount(o, st.batch, st.c) < o.minBuyAmount
  }

  ghost predicate SomebodyMisses(st: Loop) {
    exists o <- AllOrders(st.batch) :: BuyAmount(o, st.batch, st.c) < o.minBuyAmount
  }

  /** The survivors are in net demand of a token that no route leads to. */
  predicate NoWay(env: Env, st: Loop) {
    var batch := Survivors(st);
    (NetDemandB(batch, st.c) && env.ab.None?) || (NetDemandA(batch, st.c) && env.ba.None?)
  }

  function Question(env: Env, st: Loop): seq<Interaction>
    requires env.Valid()
  {
    InteractionsFor(ResidualOf(Survivors(st), st.c), Route(env.ab), Route(env.ba))
  }

  function AnswerTo(env: Env, st: Loop, round: nat): Answer
    requires env.Valid()
  {
    env.amm(round, Survivors(st), st.c, Question(env, st))
  }

  /** The price after the simulation; without a counterparty there is no fee. */
  function Corrected(env: Env, st: Loop, sim: ValidSim): Clearing
    requires env.Valid()
  {
    var batch := Survivors(st);
    NextClearing(batch, st.c, sim, if batch.sellA == [] || batch.sellB == [] then 0 else env.feeBps, ResidualOf(batch, st.c))
  }

  /** Each token of the pair is covered, and keeps at most its share of what was sold and is owed. */
  ghost predicate Settleable(batch: PairBatch, sim: ValidSim, maxFeeBps: nat) {
    forall k :: 0 <= k < |sim.tokens| && (sim.tokens[k] == batch.a || sim.tokens[k] == batch.b) ==>
      var sold := if sim.tokens[k] == batch.a then Sold(batch.sellA) else Sold(batch.sellB);
      && sim.owed[k] <= sim.delta[k]
      && (sim.delta[k] - sim.owed[k]) * 10_000 <= (sold + sim.owed[k]) * maxFeeBps
  }

  /** Less than a basis point apart. */
  predicate Close(x: nat, y: nat) {
    Abs(x - y) * 10_000 < Max(y, 1)
  }

  predicate ClosePrices(next: Clearing, c: Clearing) {
    Close(next.pA, c.pA) && Close(next.pB, c.pB)
  }

  datatype Kind =
    | NoPrice | NoLimitMet | NoRouteLeft | NotSimulated | Refused | Agreed   // in one of the six rounds
    | NeverSettled | MovedAway | RanOut                                       // after the last of them
    | Thrown

  /** This is how a run ends that has come to this round in this state; 6 is the end of the rounds. */
  ghost predicate EndsAs(env: Env, st: Loop, round: nat, kind: Kind)
    requires env.Valid()
  {
    if round < 6 then
      if !Payable(st.batch, st.c) then kind == Thrown
      else if NobodyMeets(st) then kind == NoLimitMet
      else if NoWay(env, st) then kind == NoRouteLeft
      else
        match AnswerTo(env, st, round)
        case SimulateError => kind == NotSimulated
        case Simulation(sim) =>
          if Settleable(Survivors(st), sim, env.maxFeeBps) then ClosePrices(Corrected(env, st, sim), st.c) && kind == Agreed
          else Corrected(env, st, sim) == st.c && kind == Refused
    else
      if !Settleable(st.batch, st.sim, env.maxFeeBps) then kind == NeverSettled
      else if !Payable(st.batch, st.c) then kind == Thrown
      else if SomebodyMisses(st) then kind == MovedAway
      else kind == RanOut
  }

  /** Otherwise it goes on, with the survivors and the corrected price. */
  ghost predicate GoesOn(env: Env, st: Loop, round: nat, next: Loop)
    requires env.Valid()
  {
    && round < 6 && Payable(st.batch, st.c) && !NobodyMeets(st) && !NoWay(env, st)
    && AnswerTo(env, st, round).Simulation?
    && var sim := AnswerTo(env, st, round).sim;
    && var corrected := Corrected(env, st, sim);
    && (if Settleable(Survivors(st), sim, env.maxFeeBps) then !ClosePrices(corrected, st.c) else corrected != st.c)
    && next.batch == Survivors(st) && next.c == corrected && next.sim == sim
    && next.simRound == round && next.simPrice == st.c && next.interactions == Question(env, st)
  }

  function KindOf(r: Outcome): Kind {
    match r
    case Threw => Thrown
    case Solved(_, converged) => if converged then Agreed else RanOut
    case Failed(error, _) =>
      match error
      case NoRoute => NoPrice
      case NoLimitCanBeMet => NoLimitMet
      case ResidualHasNoRoute => NoRouteLeft
      case SimulateFailed => NotSimulated
      case Unacceptable(_) => Refused
      case DidNotConverge(_) => NeverSettled
      case LimitsMoved => MovedAway
  }

  // ------------------------------------------------- the pieces agree

  lemma {:induction false} RemovingIsMeeting(os: seq<Order>, batch: PairBatch, c: Clearing, fails: seq<Order>)
    requires forall o <- os :: o in fails <==> MissesLimit(o, batch, c)
    ensures Remove(os, fails) == Meeting(os, batch, c)
  {
    if os != [] {
      RemovingIsMeeting(os[1..], batch, c, fails);
    }
  }

  lemma DropIsSurvivors(st: Loop, round: nat)
    ensures Drop(st, round).batch == Survivors(st) && Drop(st, round).c == st.c
  {
    var fails := LimitFailures(st.batch, st.c);
    FailingAre(AllOrders(st.batch), st.batch, st.c);
    RemovingIsMeeting(st.batch.sellA, st.batch, st.c, fails);
    RemovingIsMeeting(st.batch.sellB, st.batch, st.c, fails);
  }

  lemma {:induction false} MeetingAre(os: seq<Order>, batch: PairBatch, c: Clearing)
    ensures forall o :: o in Meeting(os, batch, c) <==> o in os && o.minBuyAmount <= BuyAmount(o, batch, c)
  {
    hide BuyAmount;
    if os != [] {
      MeetingAre(os[1..], batch, c);
    }
  }

  lemma EmptiedIff(st: Loop)
    ensures NobodyMeets(st) <==> AllOrders(Survivors(st)) == [] && LimitFailures(st.batch, st.c) != []
    ensures SomebodyMisses(st) <==> LimitFailures(st.batch, st.c) != []
  {
    MeetingAre(st.batch.sellA, st.batch, st.c);
    MeetingAre(st.batch.sellB, st.batch, st.c);
    var all, left, fails := AllOrders(st.batch), AllOrders(Survivors(st)), LimitFailures(st.batch, st.c);
    FailingAre(all, st.batch, st.c);
    hide Failing, Meeting, BuyAmount;
    assert forall o :: o in left <==> o in all && o.minBuyAmount <= BuyAmount(o, st.batch, st.c);
    if left != [] { assert left[0] in all; }
    if fails != [] { assert fails[0] in all; }
    if all != [] { assert all[0] in all; }
  }

  lemma SurvivorsAreSided(st: Loop)
    ensures Sided(st.batch) ==> Sided(Survivors(st))
    ensures Payable(st.batch, st.c) ==> Payable(Survivors(st), st.c)
  {
    MeetingAre(st.batch.sellA, st.batch, st.c);
    MeetingAre(st.batch.sellB, st.batch, st.c);
    hide Meeting, BuyAmount;
    assert forall o :: Divisor(o, Survivors(st), st.c) == Divisor(o, st.batch, st.c);
    assert forall o <- AllOrders(Survivors(st)) :: o in AllOrders(st.batch);
  }

  /** What is sold at a price of zero earns nothing. */
  lemma {:induction false} OwedForNothing(os: seq<Order>, batch: PairBatch, c: Clearing)
    requires forall o <- os :: (if AsToken(o.sellToken) == batch.a then c.pA else c.pB) == 0
    ensures Owed(os, batch, c) == 0
  {
    if os != [] {
      OwedForNothing(os[1..], batch, c);
    }
  }

  lemma ResidualMeansDemand(batch: PairBatch, c: Clearing)
    requires Sided(batch) && Payable(batch, c)
    ensures var r := ResidualOf(batch, c); (0 < r.a <==> NetDemandB(batch, c)) && (0 < r.b <==> NetDemandA(batch, c))
  {
    if Positive(c) {
      ResidualIsExact(batch, c);
    } else {
      assert batch.sellA != [] ==> batch.sellA[0] in AllOrders(batch) && 0 < c.pB;
      assert batch.sellB != [] ==> batch.sellB[0] in AllOrders(batch) && 0 < c.pA;
      OwedForNothing(batch.sellA, batch, c);
      OwedForNothing(batch.sellB, batch, c);
    }
  }

  lemma SettledIsClose(next: Clearing, c: Clearing)
    ensures Settled(next, c) <==> ClosePrices(next, c)
  {
    RelIsClose(next.pA, c.pA);
    RelIsClose(next.pB, c.pB);
  }

  lemma RelIsClose(x: nat, y: nat)
    ensures Rel(x, y) < 10 <==> Close(x, y)
  {
    FitsQuotient(10, Abs(x - y) * 100_000, Max(y, 1));
  }

  // ------------------------------------------------- a round is what it is declared to be

  lemma StopIs(env: Env, st: Loop, round: nat)
    requires env.Valid() && round < ROUNDS && Sided(st.batch)
    ensures match RoundOf(env, st, round)
      case Stop(outcome) => EndsAs(env, st, round, KindOf(outcome)) && !outcome.Solved?
      case Break(end) => EndsAs(env, st, round, Agreed) && Payable(end.batch, end.c) && LimitFailures(end.batch, end.c) == []
                         && Judge(end.batch, end.sim, env.maxFeeBps, 0).Accepted?
      case Continue(next) => GoesOn(env, st, round, next)
  {
    hide Drop, Ask, Payable, NobodyMeets, NoWay, Sided, LimitFailures, Settleable, ClosePrices, Corrected, AllOrders, AnswerTo, Survivors, Question, Judge, Settled;
    if Payable(st.batch, st.c) {
      DropIsSurvivors(st, round);
      EmptiedIff(st);
      SurvivorsAreSided(st);
      DropLeavesMet(st, round);
      ResidualMeansDemand(Survivors(st), st.c);
      var answer := AnswerTo(env, st, round);
      if answer.Simulation? {
        SettleableMeans(Survivors(st), answer.sim, env.maxFeeBps);
        SettledIsClose(Corrected(env, st, answer.sim), st.c);
      }
      AskIs(env, Drop(st, round), st, round);
    }
  }

  lemma DropLeavesMet(st: Loop, round: nat)
    ensures LimitFailures(Drop(st, round).batch, st.c) == []
  {
    DropsPartition(st.batch, st.c);
    hide LimitFailures, Without;
  }

  lemma SettleableMeans(batch: PairBatch, sim: ValidSim, maxFeeBps: nat)
    requires Sided(batch)
    ensures Settleable(batch, sim, maxFeeBps) <==> Judge(batch, sim, maxFeeBps, 0).Accepted?
  {
    AcceptedMeans(batch, sim, maxFeeBps);
    hide Judge;
  }

  lemma AskIs(env: Env, now: Loop, st: Loop, round: nat)
    requires env.Valid() && now.batch == Survivors(st) && now.c == st.c
    requires var r := ResidualOf(Survivors(st), st.c);
             (0 < r.a <==> NetDemandB(Survivors(st), st.c)) && (0 < r.b <==> NetDemandA(Survivors(st), st.c))
    ensures var step, answer := Ask(env, now, round), AnswerTo(env, st, round);
            if NoWay(env, st) then step == Stop(Failed(ResidualHasNoRoute, now.dropped))
            else if answer.SimulateError? then step == Stop(Failed(SimulateFailed, now.dropped))
            else
              var next := Corrected(env, st, answer.sim);
              var verdict := Judge(now.batch, answer.sim, env.maxFeeBps, 0);
              if verdict.Accepted? && Settled(next, st.c) then
                step.Break? && step.end.batch == now.batch && step.end.c == st.c && step.end.sim == answer.sim
              else if next == st.c && !verdict.Accepted? then step == Stop(Failed(Unacceptable(verdict), now.dropped))
              else
                && step.Continue? && step.next.batch == now.batch && step.next.c == next && step.next.sim == answer.sim
                && step.next.simRound == round && step.next.simPrice == st.c && step.next.interactions == Question(env, st)
                && next != st.c
  {
    if AnswerTo(env, st, round).Simulation? { StandingIsSettled(st.c); }
    hide NextClearing, ResidualOf, InteractionsFor, Judge, NetDemandA, NetDemandB, Survivors, Settled;
  }

  lemma StandingIsSettled(c: Clearing)
    ensures Settled(c, c)
  {
  }

  lemma FinishIs(env: Env, st: Loop)
    requires env.Valid() && Sided(st.batch)
    ensures EndsAs(env, st, ROUNDS, KindOf(Finish(env, st, ROUNDS, false)))
  {
    SettleableMeans(st.batch, st.sim, env.maxFeeBps);
    EmptiedIff(st);
    hide Settleable, Payable, SomebodyMisses, LimitFailures, Judge, Sided;
  }

  /** A state ends in one way only, or goes on in one way only. */
  lemma OnlyOneWay(env: Env, st: Loop, round: nat, kind: Kind, other: Kind, next: Loop)
    requires env.Valid() && EndsAs(env, st, round, kind)
    ensures EndsAs(env, st, round, other) ==> kind == other
    ensures !GoesOn(env, st, round, next)
  {
    hide NobodyMeets, NoWay, Settleable, ClosePrices, Corrected, AnswerTo, Survivors, Payable, Question, SomebodyMisses;
  }

  // ------------------------------------------------- a run

  lemma {:induction false} StatesAreSided(env: Env, initial: PairBatch, round: nat)
    requires env.Valid() && Sided(initial) && round <= ROUNDS
    ensures StateAt(env, initial, round).Some? ==> Sided(StateAt(env, initial, round).value.batch)
    decreases round
  {
    hide RoundOf, DiscoveryClearing, Sided;
    if round > 0 && StateAt(env, initial, round).Some? {
      StatesAreSided(env, initial, round - 1);
      var st := StateAt(env, initial, round - 1).value;
      StopIs(env, st, round - 1);
      SurvivorsAreSided(st);
    }
  }

  /**
   * The states of a run: it starts with the whole batch at the discovered
   * price, and from each state it goes on exactly as declared.
   */
  lemma NextStateIff(env: Env, initial: PairBatch, round: nat)
    requires env.Valid() && Sided(initial) && round < 6
    ensures StateAt(env, initial, 0).Some? <==> DiscoveryClearing(initial, Out(env.ab), Out(env.ba)).Some?
    ensures StateAt(env, initial, 0).Some? ==>
              var st := StateAt(env, initial, 0).value;
              st.batch == initial && Some(st.c) == DiscoveryClearing(initial, Out(env.ab), Out(env.ba)) && st.dropped == []
    ensures StateAt(env, initial, round + 1).Some?
            <==> StateAt(env, initial, round).Some? && exists next :: GoesOn(env, StateAt(env, initial, round).value, round, next)
    ensures StateAt(env, initial, round + 1).Some? ==>
              GoesOn(env, StateAt(env, initial, round).value, round, StateAt(env, initial, round + 1).value)
  {
    StatesAreSided(env, initial, round);
    hide RoundOf, DiscoveryClearing, Sided, GoesOn, EndsAs;
    match StateAt(env, initial, round)
    case None =>
    case Some(st) =>
      StopIs(env, st, round);
      match RoundOf(env, st, round)
      case Stop(outcome) => NotOn(env, st, round, KindOf(outcome));
      case Break(_) => NotOn(env, st, round, Agreed);
      case Continue(_) =>
  }

  lemma NotOn(env: Env, st: Loop, round: nat, kind: Kind)
    requires env.Valid() && EndsAs(env, st, round, kind)
    ensures !exists next :: GoesOn(env, st, round, next)
  {
    forall next ensures !GoesOn(env, st, round, next) {
      OnlyOneWay(env, st, round, kind, kind, next);
    }
  }

  /** The round a run ends in. */
  ghost predicate EndRound(env: Env, initial: PairBatch, round: nat, kind: Kind)
    requires env.Valid()
  {
    round <= ROUNDS && StateAt(env, initial, round).Some? && EndsAs(env, StateAt(env, initial, round).value, round, kind)
  }

  lemma {:induction false} RunEnds(env: Env, initial: PairBatch, st: Loop, round: nat) returns (end: nat)
    requires env.Valid() && Sided(initial) && round <= ROUNDS && StateAt(env, initial, round) == Some(st)
    ensures end <= ROUNDS && EndRound(env, initial, end, KindOf(Rounds(env, st, round)))
    decreases ROUNDS - round
  {
    StatesAreSided(env, initial, round);
    hide RoundOf, Sided, StateAt, EndsAs, KindOf;
    end := round;
    if round == ROUNDS {
      FinishIs(env, st);
    } else {
      StopIs(env, st, round);
      match RoundOf(env, st, round)
      case Stop(_) =>
      case Break(broken) => BreakSolves(env, broken, round);
      case Continue(next) =>
        NextState(env, initial, st, round, next);
        end := RunEnds(env, initial, next, round + 1);
    }
  }

  lemma BreakSolves(env: Env, st: Loop, round: nat)
    requires Payable(st.batch, st.c) && LimitFailures(st.batch, st.c) == [] && Judge(st.batch, st.sim, env.maxFeeBps, 0).Accepted?
    ensures KindOf(Finish(env, st, round, true)) == Agreed
  {
    hide Payable, LimitFailures, Judge;
  }

  lemma {:induction false} NothingAfter(env: Env, initial: PairBatch, round: nat, later: nat)
    requires env.Valid() && round < later <= ROUNDS && StateAt(env, initial, later).Some?
    ensures StateAt(env, initial, round).Some? && RoundOf(env, StateAt(env, initial, round).value, round).Continue?
    decreases later
  {
    hide RoundOf, DiscoveryClearing;
    if round < later - 1 {
      NothingAfter(env, initial, round, later - 1);
    }
  }

  lemma EndsOnce(env: Env, initial: PairBatch, x: nat, y: nat, kind: Kind, other: Kind)
    requires env.Valid() && Sided(initial) && EndRound(env, initial, x, kind) && EndRound(env, initial, y, other)
    ensures x == y && kind == other
  {
    if x < y {
      EndsBefore(env, initial, x, y, kind);
    } else if y < x {
      EndsBefore(env, initial, y, x, other);
    } else {
      OnlyOneWay(env, StateAt(env, initial, x).value, x, kind, other, StateAt(env, initial, x).value);
    }
  }

  lemma EndsBefore(env: Env, initial: PairBatch, x: nat, y: nat, kind: Kind)
    requires env.Valid() && Sided(initial) && EndRound(env, initial, x, kind) && x < y <= ROUNDS
    ensures StateAt(env, initial, y).None?
  {
    if StateAt(env, initial, y).Some? {
      NothingAfter(env, initial, x, y);
      StatesAreSided(env, initial, x);
      hide RoundOf, EndsAs, GoesOn, Sided, StateAt;
      var st := StateAt(env, initial, x).value;
      StopIs(env, st, x);
      OnlyOneWay(env, st, x, kind, kind, RoundOf(env, st, x).next);
    }
  }

  /**
   * Every outcome of solve, exactly. Without a discovered price it fails for
   * want of a route. Otherwise it ends in the first round whose state does not
   * go on, and in the way that state declares: when there are orders and all
   * of them miss their limits; when the others are in net demand and have no
   * route; when the AMM does not simulate; when the simulation cannot be
   * settled and the price stands; when it can and the price moves by less
   * than a basis point, which is success; or when a price of zero would have
   * to be paid. After six rounds it fails when the last simulation cannot be
   * settled or somebody misses a limit, and otherwise succeeds.
   */
  lemma OutcomeIff(env: Env, initial: PairBatch, kind: Kind)
    requires env.Valid() && Sided(initial)
    ensures KindOf(SolveOf(env, initial)) == kind
            <==> if DiscoveryClearing(initial, Out(env.ab), Out(env.ba)).None? then kind == NoPrice
                 else exists round :: 0 <= round <= 6 && EndRound(env, initial, round, kind)
  {
    if DiscoveryClearing(initial, Out(env.ab), Out(env.ba)).Some? {
      var st := StateAt(env, initial, 0).value;
      var end := RunEnds(env, initial, st, 0);
      hide StateAt, Rounds, EndRound, KindOf, DiscoveryClearing, Sided;
      if round :| 0 <= round <= 6 && EndRound(env, initial, round, kind) {
        EndsOnce(env, initial, end, round, KindOf(SolveOf(env, initial)), kind);
      }
    }
  }
}
