# Verification of the liquidity, batching and gateway core

A Dafny model of the parts of this repository where money or data is lost if
the code is subtly wrong, with the properties those parts are for proved about
it. `dafny verify dfyconfig.toml` checks everything.

* **Concentrated liquidity** (`packages/core/src/liquidity.ts`). `TickMath` has
  the bit-by-bit tick price: strictly increasing over the whole range. `TickAccuracy`
  compares it with the real power 1.0001^tick, `TickFactors` each constant with
  its own to the nearest unit. `Liquidity` has the conversions between liquidity
  and amounts and what their opposite roundings cost, `LiquidityReal` what the
  amounts mean at the real price.
  `Ladder`, `LadderPlan` and `LadderSpend` have the ladder planner: never over
  budget, 61 of the 64 halvings always suffice, and an ample binding budget is
  really spent. `SplitLadder` has the second planner and its budget shares,
  `SplitShares` what each bin and rung of it gets.
* **Batch auctions** (`apps/batcher`). `Solver`, `PairBatches` and `Allocation`
  have clearing prices, residuals, dust bounds, limit drops and splits;
  `SolveLoop` the six-round price iteration and `SolveEnds` how exactly it
  ends; `OrderBook` the life cycle of
  orders as a state machine over the steps between awaits, `OrderRuns` what
  holds over its runs, `OrderCauses` the exact cause of every change of an
  order, `OrderScenarios` the runs in which a guarantee fails, `OrderService`
  the class that performs those steps, and
  `PairGroups` the link between the two halves: the batches of a window
  partition its orders.
* **Receipts** (`packages/core/src/receipt.ts`). `Merkle` has the accumulator
  over an abstract commutative hash.
* **Gateway** (`apps/gateway`). `InflightCap`, `MicroCache`, `HeadWatcher` and
  `GetLogs`, each as steps between awaits, for every interleaving and every
  answer of the upstream.
* **Watcher** (`apps/watcher`). `V4Walk` has the checkpointed backfill and
  `Watcher` that walk running beside the live loop, with crashes and restarts.

Amounts and prices are unbounded integers, as `bigint` is. RPC nodes, the AMM,
clocks and loaders are parameters or events that may answer in any way. Where
the source changes fields in place there is a class whose methods are proved
equal to a step function; the invariants are proved about the step functions.

Where the code does not do what its documentation or tests say, the model
follows the code and the exact condition is proved:

* `packages/core/test/liquidity.test.ts:47-49` expects the amounts of a
  liquidity to fund at least that liquidity again. `RoundTripExactWhen` gives
  the condition, `RoundTripCounterexample` an input that loses everything.
* `solve` (`apps/batcher/src/main.ts:324-334`) can succeed with a price it
  never simulated: `SolveIsSound`, `UnsimulatedPriceReturned`. When a price
  rounds to zero it throws instead of reporting an error: `ThrowsIff`,
  `ZeroPriceThrows`.
* The comment at `apps/batcher/src/solver.ts:110-113` says the price of a batch
  that nets by itself stands. It stands only when its dust pays the fee:
  `PriceStandsIff`, `NettedPriceMoves`.
* A pair whose transaction was sent and whose receipt has a gasUsed that is no
  number throws, and leaves its orders settling for good
  (`apps/batcher/src/main.ts:422-507`, `apps/batcher/src/chain.ts:168`):
  `ThrowOrphansIff`, `OrphanForever`, `OrphanRun`.
* Between the duplicate check of `intake` and its store lie awaits
  (`apps/batcher/src/main.ts:174-200`), so a second call can restart an order
  that is already filled: `StoreKeepsIff`, `FinalIsFinalIff`, `FilledTwice`. The
  settlement contract would refuse the used nonce; that refusal is the dry
  run's answer, which the model leaves open. With it the filled order ends
  rejected, and is counted as both: `FilledThenRejected`.
* `planLadder` computes a fractional bin count for a short range whose end was
  clamped off the grid, and cuts a bin beyond the range it returns
  (`packages/core/src/liquidity.ts:184-203`): `CutFits`, `RaggedPlan`. At the
  upper limit that bin makes it throw for a range wholly within the limits:
  `PlanIsSound`, `RaggedThrows`.
* The comment at `apps/watcher/src/main.ts:150-152` says a missed pool fails its
  block. A block the node answers with null counts as done without its pools
  (`apps/watcher/src/main.ts:117`), and the mark moves past it:
  `MarkHonestIff`, `UnservedBlockBreaksMark`.
* The comment at `apps/gateway/src/fastpath.ts:131-135` says a rejection is
  cached by nobody. A loader that throws before returning a promise binds its
  key for ever: `SynchronousThrowSticks`, `StuckForever`. Both loaders passed
  today (`apps/gateway/src/main.ts:214,422`) are async functions, which never
  do; the binding needs another caller.
* A successful answer that is not an array is dropped without an error
  (`apps/gateway/src/getlogs.ts:161-169`): `CompleteIff`, `SkippedWindowLosesLogs`.
* `HeadWatcher.stop` is undone by a tick that is under way, waiting for the head
  or for blocks, and then succeeds (`apps/gateway/src/subscribe.ts:238-282`):
  `StopForgetsIff`, `StopUndone`.
* The Merkle root binds which leaves were committed, not their order
  (`packages/core/src/receipt.ts:411-414`): `OrderIsNotBound`.

## Model

| member | source | states |
|---|---|---|
| TickMath.NextTickHigher | packages/core/src/liquidity.ts:25-52 | Consecutive ticks have strictly increasing prices, on both signs, across tick 0 where the reciprocal starts, and through the final rounding up to Q64.96 |
| TickMath.StrictlyIncreasing | packages/core/src/liquidity.ts:25-52 | For all ticks s < t in [MIN_TICK, MAX_TICK], price(s) < price(t): distinct ticks never share a price, so no bin has zero width |
| TickMath.PriceBounds | packages/core/src/liquidity.ts:25-52 | The two end ticks have exactly the published TickMath constants, and every price lies between them and is positive |
| TickMath.CarryKeepsMargin | packages/core/src/liquidity.ts:27-48 | k and k+1 keep a relative margin of 1/21000, less one unit a step, through all twenty conditional multiplications |
| TickMath.CarryMargin | packages/core/src/liquidity.ts:28-48 | The twenty comparisons at the carry: all lower bits set lies a full margin above the next bit alone |
| TickMath.TickToSqrtPriceX96 | packages/core/src/liquidity.ts:25-52 | The running-ratio procedure computes the specified price, and throws exactly for ticks out of range |
| TickFactors.NearestUnit | packages/core/src/liquidity.ts:28-48 | Each of the twenty constants is the whole number nearest to 2^128 * 1.0001^(-2^i/2): half a unit below it squared lies below the power, half a unit above it above |
| TickAccuracy.PriceIsAccurate | packages/core/src/liquidity.ts:24-52 | The documented meaning, sqrt(1.0001^tick) * 2^96, against the real power: the squared price is within a relative 1e-9 of 1.0001^tick for every tick, and within 1e-15 above tick 0 |
| TickAccuracy.RatioIsAccurate | packages/core/src/liquidity.ts:27-48 | The Q128.128 product of the selected factors, squared, is 1.0001^-abs up to a relative 2e-16, whatever bits are set |
| TickAccuracy.FactorAccurate | packages/core/src/liquidity.ts:28-48 | The constant for bit i is 1.0001^(-2^i/2), to 17 digits or better |
| Liquidity.NeverOverspends | packages/core/src/liquidity.ts:74-111 | liquidityForAmounts fails exactly on an empty range, and otherwise its liquidity never costs more than the two amounts, in any price region |
| Liquidity.NearlyMaximal | packages/core/src/liquidity.ts:74-111 | No affordable liquidity beats it below the price; elsewhere by less than amount0/width + 1 |
| Liquidity.Liquidity1IsMaximum | packages/core/src/liquidity.ts:89-92 | Token1 side: a liquidity is affordable if and only if it is at most the computed one |
| Liquidity.Liquidity0NearMaximum | packages/core/src/liquidity.ts:82-107 | Token0 side: affordable liquidity exceeds the computed one by less than amount0/(b-a) + 1 |
| Liquidity.RoundTripExactWhen | packages/core/src/liquidity.ts:74-111 | Amounts of l fund at least l again, for every l, if and only if the price is at or above the range or the product of the token0 bounds is a multiple of 2^96 |
| Liquidity.RoundTripCounterexample | packages/core/src/liquidity.ts:104-107 | The round trip promised by packages/core/test/liquidity.test.ts:47-49 can lose all liquidity: the one-tick range between the two lowest prices |
| LiquidityReal.AmountsAreReal | packages/core/src/liquidity.ts:73-92 | At any price a position of l asks for l*(1/root(p)-1/root(hi)) of token0 and l*(root(p)-root(lo)) of token1, p moved into the range, each rounded up once, where root is the Q64.96 price over 2^96 |
| LiquidityReal.RootIsPriceRoot | packages/core/src/liquidity.ts:24-97 | That root squared is the price that PriceIsAccurate compares with 1.0001^tick |
| Ladder.BindingScaleIsLargest | packages/core/src/liquidity.ts:207-215 | The scale asks for at most either budget and for exactly the binding one; no token binds if and only if nothing is needed |
| Ladder.TotalsWithin | packages/core/src/liquidity.ts:218-241 | Totals at any scale exceed the scaled need by at most one unit for each bin that holds the token |
| Ladder.SixtyOneHalvingsFit | packages/core/src/liquidity.ts:253-258 | Whatever the budgets, 61 halvings of an affordable scale fit both |
| Ladder.HalvedFits | packages/core/src/liquidity.ts:253-258 | The halving loop ends within both budgets and never runs more than 61 of its 64 passes |
| Ladder.PlanFits | packages/core/src/liquidity.ts:243-259 | After both repair loops the plan is within both budgets, for all budgets, prices, ranges and integer weights |
| Ladder.FirstThatFits | packages/core/src/liquidity.ts:243-259 | The planner settles on the first scale within both budgets: the binding one, then a millionth less up to eight times, then half each time, and it never goes on from one that fits |
| Ladder.AmpleNeedsOneShave | packages/core/src/liquidity.ts:243-258 | With 40 million units of each needed token the planner stops at the binding scale or one shave below it and never halves |
| LadderSpend.BindingBudgetIsSpent | packages/core/src/liquidity.ts:207-259 | With the same ample budgets the binding token is spent: its total is at least 0.999999*(1-k/need) of the budget less need/10^9, where k <= 40 bins hold it |
| LadderSpend.HalfAtLeastSpent | packages/core/src/liquidity.ts:207-259 | For budgets of any size, however often the planner shaves and halves: if anything is needed, the total of some needed token is at least half of (1-k/need)*(budget+1-k), less need/10^9 units, where k <= 40 bins hold it |
| LadderSpend.TotalsSpend | packages/core/src/liquidity.ts:218-241 | Lower bound on totals at any scale: the scaled need, less one scaled unit for each holding bin and a billionth of the need |
| LadderPlan.CutFits | packages/core/src/liquidity.ts:180-186 | The cut fits the range and ends where it ends, unless the range is no whole number of spacings and shorter than the bins wanted: then, and only then, one more bin reaches less than a spacing beyond |
| LadderPlan.CutTiles | packages/core/src/liquidity.ts:184-203 | The bins tile the cut without gap, overlap or empty bin, on the spacing grid when the ends are |
| LadderPlan.RangeIsOutward | packages/core/src/liquidity.ts:177-182 | The returned range is the given one, whichever way round, aligned outward to the spacing within the tick limits, and one spacing wide when it would be empty |
| LadderPlan.CutIsWell | packages/core/src/liquidity.ts:184-203 | How many bins: as many as wanted, at most 40, or as many as there are spacings, and at least one; all but the last are equally wide, and one spacing more in each would overrun the range; a ragged range is cut into single spacings |
| LadderPlan.PlanIsSound | packages/core/src/liquidity.ts:177-263 | planLadder throws if and only if the spacing is bad, the tick is out of range, an empty range is widened past the highest tick, or a ragged cut's extra bin passes it; otherwise totals are the sums of the rungs and fit the budgets, rungs carry their liquidity at exactly its cost, in order and disjoint, in the returned range unless the cut is ragged, and on the grid when the ends are |
| LadderPlan.PlanRungsAre | packages/core/src/liquidity.ts:193-241 | One scale for all rungs, and a rung for a bin if and only if its share of the liquidity is worth some amount there; each carries that liquidity at its cost, with minimums that allow the slippage, kept within 0 and 50 percent, and no more |
| LadderPlan.RungsAre | packages/core/src/liquidity.ts:218-241 | The same at any scale: bin by bin, the liquidity of a rung, its amounts, its weight and its minimums |
| LadderPlan.InProportion | packages/core/src/liquidity.ts:204-224 | Liquidity goes by weight: the ratio of any two rungs is that of their weights, to within one unit each |
| LadderPlan.SingleSidedMeans | packages/core/src/liquidity.ts:261-262 | A plan needs token1 alone if and only if its range ends at or below the tick, token0 alone if and only if it begins above it, and then no rung takes the other token, a bin beyond the range aside |
| LadderPlan.RaggedPlan | packages/core/src/liquidity.ts:180-192 | An accepted input at the lower limit whose seventh bin ends 128 ticks beyond the returned range |
| LadderPlan.RaggedThrows | packages/core/src/liquidity.ts:180-192 | An input at the upper limit, wholly within the tick limits, for which the planner throws because of the extra bin |
| LadderPlan.BuildRungs | packages/core/src/liquidity.ts:218-241 | The build loop computes the specified rungs and totals |
| LadderPlan.FitBudgets | packages/core/src/liquidity.ts:207-259 | The scale search and both repair loops end at the specified scale, within both budgets |
| LadderPlan.PlanLadder | packages/core/src/liquidity.ts:177-263 | The whole planner against its specification, with neither budget exceeded |
| SplitLadder.BinsTile | packages/core/src/liquidity.ts:303-316 | Bins tile the aligned range exactly; each is at least one spacing wide and widths differ by at most one spacing |
| SplitShares.BinsAre | packages/core/src/liquidity.ts:303-316 | The ends are the multiples of the spacing nearest to the given ticks; there are as many bins as wanted or as spacings, and at least one; each begins at the last grid point not beyond its proportional place |
| SplitLadder.SplitBinsTile | packages/core/src/liquidity.ts:303-316 | There are bins if and only if the range is not empty, and then they tile it: no cut bin is empty, so the skip at line 313 never happens |
| SplitLadder.SidesInOrder | packages/core/src/liquidity.ts:314-338 | Along the bins the sides read token1, at most one both, then token0 |
| SplitLadder.BudgetHandedOut | packages/core/src/liquidity.ts:353-363 | A budget is handed out to the unit, in non-negative shares, as soon as some rung holds the token |
| SplitLadder.KeptFallsShortByStraddlers | packages/core/src/liquidity.ts:364-369 | Both budgets are handed out exactly before the filter (or not at all when no rung holds the token); kept amounts fall short by exactly the dropped straddling rungs |
| SplitShares.RungsBeforeFilter | packages/core/src/liquidity.ts:332-363 | Each rung has the index, ends and weight of its bin, its side by the tick, nothing of a token it cannot hold, and of the other its part by weight rounded down, unless it is the last that can hold it |
| SplitShares.KeptAre | packages/core/src/liquidity.ts:366-369 | A rung is kept if and only if it holds something, and of both tokens if it straddles the price; kept rungs stay in order |
| SplitLadder.SplitLadderKeeps | packages/core/src/liquidity.ts:303-369 | splitLadder as a whole: outside the range the one token it can hold is kept to the unit; inside, both budgets are, less the one rung that holds the price when one of its shares is zero |
| SplitLadder.Share | packages/core/src/liquidity.ts:353-363 | The in-place share writes each holder its specified amount and nothing else |
| SplitLadder.AllocateRungs | packages/core/src/liquidity.ts:326-370 | allocateRungs against its specification |
| SplitLadder.ComputeSplitLadder | packages/core/src/liquidity.ts:293-318 | splitLadder against its specification |
| Solver.OwedBounds | apps/batcher/src/solver.ts:73-94 | What each side is owed is its sells at the price, rounded down by less than one unit an order |
| Solver.ResidualIsExact | apps/batcher/src/solver.ts:90-103 | The sides are never both in net demand; net demand gives exactly one strictly positive residual, and selling it leaves the absorbed token exactly even |
| Solver.NoResidualLeavesDust | apps/batcher/src/solver.ts:90-103 | A zero residual covers both tokens and leaves at most nA*pB + nB*pA on either side |
| Solver.RescaleHitsTarget | apps/batcher/src/solver.ts:114-141 | The dust bound of the price correction: above target - S/den - n and below the target by at most the factor (owed+n)/owed |
| Solver.CorrectionIs | apps/batcher/src/solver.ts:114-141 | For any honest simulation, which price is corrected: that of the token in net demand, else the one further from what is owed, the fallback of a batch that nets by itself included |
| Solver.NextClearingTowardsB | apps/batcher/src/solver.ts:114-137 | In every branch that corrects the price of a: the next price pays a-sellers the target up to dust, leaves pB alone, and is positive if and only if owed <= pA * target; with nothing owed or held it stands |
| Solver.NextClearingTowardsA | apps/batcher/src/solver.ts:138-141 | The same in every branch that corrects the price of b |
| Solver.PriceStandsIff | apps/batcher/src/solver.ts:114-141 | The price stands if and only if both tokens are even, or the gap of the token being corrected pays the fee and leaves less than one price unit |
| Solver.NettedPriceMoves | apps/batcher/src/solver.ts:127-137 | A batch that nets by itself, one unit of dust aside, whose price moves by the whole fee all the same |
| Solver.OneSidedDiscovery | apps/batcher/src/solver.ts:228-240 | A batch with sellers of a only, at the discovery price, is owed the pool's output less under one unit an order, and sends its whole side |
| Solver.OneSidedDiscoveryB | apps/batcher/src/solver.ts:228-240 | The same with sellers of b only |
| Solver.DiscoveryPaysOut | apps/batcher/src/solver.ts:234-240 | Any batch: sellers of a set the price if they sell something the pool pays for, and are owed its output less under one unit an order; otherwise sellers of b do; there is no price if and only if the pool pays neither |
| Solver.LoneOrderIsFixedPoint | apps/batcher/src/solver.ts:114-141 | A lone seller of a at the discovery price with zero fee is paid exactly the pool's output, and the price stands |
| Solver.LoneOrderIsFixedPointB | apps/batcher/src/solver.ts:114-141 | The same for a lone seller of b |
| PairBatches.GroupByPair | apps/batcher/src/solver.ts:48-63 | One batch for each pair, each holding exactly its pair's orders in arrival order, on the side they sell |
| PairBatches.PairIs | apps/batcher/src/solver.ts:23-58 | An order belongs to the pair of its two tokens whichever way it trades, ether counting as wrapped ether |
| PairBatches.SellersAppend | apps/batcher/src/solver.ts:48-62 | A side of a batch holds exactly the orders that trade that way, in arrival order |
| PairBatches.OrderInOneBatch | apps/batcher/src/solver.ts:48-63 | An order occurs in its own pair's batch as often as it arrived and in no other batch |
| PairBatches.BatchesAreSided | apps/batcher/src/solver.ts:53-60 | Every order of a batch sits on the side of the token it sells |
| PairBatches.AcceptedIff | apps/batcher/src/solver.ts:144-156 | Accepted if and only if every token of the pair is covered and keeps at most its capped fee |
| PairBatches.AcceptedMeans | apps/batcher/src/solver.ts:144-156 | The same in sold and owed amounts: what is kept of a token is at most maxFeeBps ten-thousandths of what was sold of it and is owed in it |
| PairBatches.Acceptable | apps/batcher/src/solver.ts:144-156 | The loop over tokens returns the first failure, or accepts |
| PairBatches.FeeOnlyOnFedToken | apps/batcher/src/solver.ts:117-156 | After the residual of a is sold, acceptance depends on token b alone: the pool's output covers what is owed and leaves no more than the cap |
| PairBatches.FeeOnlyOnFedTokenA | apps/batcher/src/solver.ts:117-156 | The same when the residual is of b |
| PairBatches.DropsPartition | apps/batcher/src/solver.ts:158-167 | Dropping limit failures splits the batch: kept orders all meet their limit, dropped ones all miss it, none is lost |
| PairGroups.PairsPartitionReady | apps/batcher/src/main.ts:504-507 | The pairs a window settles partition its ready orders, so no order is in two settlements |
| Allocation.SpreadIsExact | apps/batcher/src/solver.ts:197-207 | A spread sends strictly positive parts and exactly the amount when the shares fit the whole; in general the larger of the amount and the rounded shares of all routes but the last |
| Allocation.RouteIsSent | apps/batcher/src/solver.ts:197-207 | What each route is sent: its share of the amount rounded down, what the others leave if it is the last with a share, and nothing if it has none |
| Allocation.ResidualIsSent | apps/batcher/src/solver.ts:210-215 | With a route for the side that has one, exactly the residual is sent, down the routes of that side |
| Allocation.CompositionsExact | apps/batcher/src/solver.ts:221-226 | compositions(n, den) lists every n-part split of den, nothing else, and none twice |
| Allocation.CompositionsCount | apps/batcher/src/solver.ts:221-226 | There are C(den+n-1, n-1) of them |
| Allocation.CompositionSendsAll | apps/batcher/src/solver.ts:197-226 | Any listed split put on n routes sends exactly the amount |
| Allocation.ComputeSpread | apps/batcher/src/solver.ts:197-207 | The accumulating loop against the specification |
| Allocation.ComputeCompositions | apps/batcher/src/solver.ts:221-226 | The nested loops against the specification |
| SolveLoop.SolveIsSound | apps/batcher/src/main.ts:289-335 | For every AMM: kept and dropped orders partition the input, each drop missed its limit at the price the run held in the round that dropped it, kept limits hold at the returned price, the simulation is acceptable and of exactly the returned batch and interactions, and was taken at the returned price if and only if the loop converged; a throw means an order left to be paid at a price of zero |
| SolveEnds.OutcomeIff | apps/batcher/src/main.ts:289-335 | Every outcome of solve, success included, exactly: the first round that does not go on decides, by conditions on its orders, limits, price and simulation; no limit can be met if and only if orders were left and all of them miss theirs |
| SolveEnds.NextStateIff | apps/batcher/src/main.ts:295-328 | The states of a run: the whole batch at the discovered price, then, exactly when a round does not end the run, the survivors at the corrected price, with no fee for a one-sided batch |
| SolveEnds.SettledIsClose | apps/batcher/src/main.ts:323-325 | Converged means that neither price moves by a basis point of what it was, stated without division |
| SolveLoop.RoundKeeps | apps/batcher/src/main.ts:300-328 | What one round keeps, whether it stops, converges or goes on |
| SolveLoop.UnsimulatedPriceReturned | apps/batcher/src/main.ts:300-334 | A concrete AMM for which a successful solve returns a price that none of its six simulations was taken at |
| SolveLoop.ThrowsIff | apps/batcher/src/main.ts:289-335 | solve throws if and only if the run enters a round in which an order would be paid at a price that has rounded to zero, or is left with one after its sixth round and an accepted simulation |
| SolveLoop.ZeroPriceThrows | apps/batcher/src/main.ts:300-327 | A concrete honest simulation after which the price rounds to zero and the next round throws on dividing by it |
| SolveLoop.Solve | apps/batcher/src/main.ts:289-335 | The six-round loop against the specification |
| OrderBook.ApplyKeeps | apps/batcher/src/main.ts:358-513 | Every atomic step that is not a racing store keeps the invariant and moves statuses only along the life cycle |
| OrderRuns.EveryRun | apps/batcher/src/main.ts:358-513 | Over all runs, racing intakes included: attempts at most 6, nothing in flight between windows, an order in at most one job, in flight and not finished; without races also pending until its job is sent and settling from then on, and each counter counts each order once |
| OrderCauses.ChangesIff | apps/batcher/src/main.ts:358-513 | At every point of every run: an order becomes filled exactly at the successful receipt of its transaction, rejected exactly when a solve drops it or its failures reach three (six at a refused send), expired exactly when a window opens on it a second or less before its deadline; attempts count exactly those failures; it is forgotten exactly at the end of a window when over ten minutes old and neither pending nor settling |
| OrderCauses.NextEntryIs | apps/batcher/src/main.ts:358-513 | The whole entry an order has after any event, told from these causes; without races a fill is by the transaction it was settling in |
| OrderCauses.WindowTakesIff | apps/batcher/src/main.ts:475-507 | A window works on exactly the pending orders that are not late and those whose deposit it finds; each of them gets a job unless sends are paused, and only a refused send pauses them |
| OrderCauses.JobMovesIff | apps/batcher/src/main.ts:358-470 | An order gets on from solve to dry run to send to receipt exactly when that stage of its job succeeds for it, and otherwise leaves the job |
| OrderCauses.WindowClosesIff | apps/batcher/src/main.ts:504-512 | A window closes exactly when it ends with every pair through, and then nothing is in flight |
| OrderCauses.UnderWayIs | apps/batcher/src/main.ts:174-200 | An intake call is under way exactly from a check that finds its hash new to its failure or store |
| OrderRuns.FinalIsFinalIff | apps/batcher/src/main.ts:358-513 | In any run a filled, rejected or expired order stays exactly as it is until it is forgotten, if and only if no intake call that passed its duplicate check earlier stores it anew before that |
| OrderRuns.StoreKeepsIff | apps/batcher/src/main.ts:174-200 | What the store at the end of intake does: the invariant, and the counters, stay right if and only if the hash is still new; a final status is lost if and only if the order was finished; jobs are disturbed if and only if one holds the order and waits for its receipt, or the new entry awaits a deposit |
| OrderScenarios.FilledTwice | apps/batcher/src/main.ts:174-200 | A run from the empty state: two intake calls of one order pass the check, the first stores it, it is filled, the second makes it pending, and, if the dry run passes, it is filled and counted again |
| OrderScenarios.FilledThenRejected | apps/batcher/src/main.ts:174-200 | The same race when the dry run fails from then on: the filled order ends rejected after three windows and is counted as both |
| OrderRuns.ThrowOrphansIff | apps/batcher/src/main.ts:422-507 | A pair that throws, of itself or on a receipt whose gasUsed is not a number, strands its orders as settling if and only if it throws after the send |
| OrderScenarios.OrphanRun | apps/batcher/src/chain.ts:163-171 | A run from the empty state without races whose receipt has an unreadable gasUsed, which BigInt answers by throwing: its order is left settling in no job |
| OrderRuns.OrphanForever | apps/batcher/src/main.ts:480-512 | A stranded order stays settling and is never forgotten, through every further event but a racing store of its own hash |
| OrderService.Book.RetryEach | apps/batcher/src/main.ts:386-394 | The per-order failure loop equals the bulk step: attempts, rejections at the limit, release |
| OrderService.Book.CheckNew | apps/batcher/src/main.ts:174-176 | intake up to its first await: a known hash is answered with its status, a new one is under way |
| OrderService.Book.TakeIn | apps/batcher/src/main.ts:178-200 | The end of intake, for a hash that is still new or not |
| OrderService.Book.OpenWindow | apps/batcher/src/main.ts:475-491 | tick up to its first await |
| OrderService.Book.StartPairs | apps/batcher/src/main.ts:492-507 | Deposit checks, pause and launch of the pairs |
| OrderService.Book.SolveCameBack | apps/batcher/src/main.ts:358-379 | What settlePair does with a solver outcome |
| OrderService.Book.DryRunCameBack | apps/batcher/src/main.ts:384-397 | What it does with the dry run |
| OrderService.Book.SendCameBack | apps/batcher/src/main.ts:399-422 | What it does with the send, with the longer limit and the pause |
| OrderService.Book.ReceiptCameBack | apps/batcher/src/main.ts:426-470 | What it does with the receipt |
| OrderService.Book.CloseWindow | apps/batcher/src/main.ts:508-512 | The end of a window: in-flight emptied, finished orders forgotten |
| Merkle.RootBindsHistory | packages/core/src/receipt.ts:411-429 | Equal roots mean the same multiset of leaves, whatever the lengths, the empty list included |
| Merkle.RootSplits | packages/core/src/receipt.ts:411-429 | The root without its levels: a list splits after the largest power of two below its length, and its root hashes the roots of the two parts, the smaller first |
| Merkle.SameRootIff | packages/core/src/receipt.ts:411-429 | Two non-empty lists have the same root if and only if their trees are equal up to exchanging children |
| Merkle.OrderIsNotBound | packages/core/src/receipt.ts:411-429 | The order of leaves is not bound: exchanging the two subtrees of any node, at any depth, whose subtrees are complete leaves the root unchanged |
| Merkle.EveryProofVerifies | packages/core/src/receipt.ts:431-456 | A proof exists exactly for the valid indices, and every one verifies, also for leaves carried up odd levels |
| Merkle.AcceptedIff | packages/core/src/receipt.ts:452-456 | Some proof is accepted for a value if and only if it is the hash of a subtree |
| Merkle.ProvableIffCommitted | packages/core/src/receipt.ts:452-456 | A value that is not a pair hash is provable if and only if it is a committed leaf |
| Merkle.ComputeRoot | packages/core/src/receipt.ts:416-429 | The level loop against the recursive root |
| Merkle.ComputeProof | packages/core/src/receipt.ts:431-450 | The proof loop against its specification |
| Merkle.VerifyMerkleProof | packages/core/src/receipt.ts:452-456 | The fold of a proof against its specification |
| InflightCap.EveryInterleaving | apps/gateway/src/fastpath.ts:173-241 | After any interleaving: count = slots in use <= max, queue = waiting tickets oldest first and only while all slots are used, nothing left over once all slots are returned, no overtaking |
| InflightCap.TicketsChangeIff | apps/gateway/src/fastpath.ts:186-232 | At every point of every run: an acquire holds a slot exactly when fewer than max of its key are in use and otherwise waits; a waiter is handed one exactly when it is the oldest and a held slot is released; it times out exactly by its own timer while waiting |
| InflightCap.WaiterIsServed | apps/gateway/src/fastpath.ts:186-232 | A waiter whose timer does not fire has been handed a slot after as many releases of its key as there were waiters before it, plus one, whatever else happens |
| InflightCap.RunKeeps | apps/gateway/src/fastpath.ts:173-241 | The invariant over every run |
| InflightCap.ReleaseServesOldest | apps/gateway/src/fastpath.ts:216-232 | A release with waiters hands the slot to the oldest and leaves the count alone |
| InflightCap.DoubleReleaseIsHarmless | apps/gateway/src/fastpath.ts:217-220 | Releasing twice is releasing once |
| InflightCap.Cap.TakeOrQueue | apps/gateway/src/fastpath.ts:186-213 | acquire up to its await |
| InflightCap.Cap.GiveBack | apps/gateway/src/fastpath.ts:216-232 | The releaser |
| InflightCap.Cap.GiveUp | apps/gateway/src/fastpath.ts:201-209 | The timeout |
| MicroCache.EveryRun | apps/gateway/src/fastpath.ts:107-157 | After every run: at most maxEntries, a hit is the latest positive-TTL value of its key and unexpired, at most one running load a key |
| MicroCache.SetThenGet | apps/gateway/src/fastpath.ts:112-129 | A set value is read back until it expires |
| MicroCache.ContentsIff | apps/gateway/src/fastpath.ts:112-151 | What any event leaves stored: an entry goes only by being written again, by being the oldest when something is written to a full cache, or by being looked up expired; only a positive TTL is stored |
| MicroCache.OrderIff | apps/gateway/src/fastpath.ts:112-129 | Entries keep their order through every event: a key inserted anew comes last, one written again keeps its place |
| MicroCache.StaysReadable | apps/gateway/src/fastpath.ts:112-151 | Over any run a stored value is read back until it expires, is written again, or more other entries are written than there are free places and older entries |
| MicroCache.InsertedStays | apps/gateway/src/fastpath.ts:112-151 | So a value newly inserted outlives at least maxEntries - 1 writes of other keys |
| MicroCache.CallersJoin | apps/gateway/src/fastpath.ts:136-140 | A miss on a key with a running load joins it and starts nothing |
| MicroCache.AnswerIs | apps/gateway/src/fastpath.ts:136-152 | A call of through is answered by the live stored value and starts nothing, or joins the load under way, or starts one |
| MicroCache.OutcomeIsFinal | apps/gateway/src/fastpath.ts:141-151 | A load's outcome never changes, so all joiners see the same one |
| MicroCache.RejectionIsForgotten | apps/gateway/src/fastpath.ts:136-152 | A rejection is cached by nobody: the next miss on its key starts a load of its own, which runs through whatever else happens, and whose value is read back until it expires |
| MicroCache.SynchronousThrowSticks | apps/gateway/src/fastpath.ts:136-152 | A call on an idle key leaves it bound to a dead load if and only if the loader throws before returning a promise |
| MicroCache.StuckForever | apps/gateway/src/fastpath.ts:136-152 | Such a key stays bound to the dead load through every further event |
| MicroCache.Cache.Read | apps/gateway/src/fastpath.ts:112-120 | get |
| MicroCache.Cache.Write | apps/gateway/src/fastpath.ts:122-129 | set, with eviction of the oldest entry |
| MicroCache.Cache.Enter | apps/gateway/src/fastpath.ts:136-152 | through up to its first await |
| MicroCache.Cache.Leave | apps/gateway/src/fastpath.ts:141-149 | The settling of a load |
| V4Walk.PassLowersMeasure | apps/watcher/src/v4.ts:115-153 | Every pass keeps span and retries in bounds and lowers (blocks left, retries left, span), or gives up after 41 failures in a row |
| V4Walk.BackfillCovers | apps/watcher/src/v4.ts:98-164 | On every sequence of answers of any node: windows tile the range contiguously, the returned block is the last covered and the mark; against an exact node the index gained exactly that range's pools |
| V4Walk.ServedWalkReachesEnd | apps/watcher/src/v4.ts:115-163 | Against a node that serves small windows and only refuses wide ones, the walk reaches its end |
| V4Walk.WindowsStayWide | apps/watcher/src/v4.ts:115-137 | Against a node that serves m >= 100 blocks at once, every window covered is at least half as wide, or the last: refusals halve and no more |
| V4Walk.SpanDoubles | apps/watcher/src/v4.ts:115-160 | Every fifth window served in a row doubles the next, up to the widest, and the first forgets all trouble |
| V4Walk.PatienceIs | apps/watcher/src/v4.ts:138-146 | Forty troubles in a row change nothing but their count; at the next the walk returns the block before its window |
| V4Walk.BackfillV4Pools | apps/watcher/src/v4.ts:98-164 | The loop, with its termination, against the specification |
| Watcher.MarkIsAlwaysHonest | apps/watcher/src/main.ts:198-279 | Over every run with crashes and restarts, walk and live loop interleaved: if the stored mark is m, every pool initialised in deployBlock..m is stored, provided the node serves what it is asked for |
| Watcher.StepKeeps | apps/watcher/src/main.ts:198-297 | The invariant behind it, for live blocks, commits, walk answers, boots and crashes |
| Watcher.NoBlockPassedOver | apps/watcher/src/main.ts:204-281 | Over every run with crashes and restarts: every block from where the first saved process began up to the checkpoint was indexed, or given up by a start that found the checkpoint 500,000 blocks or more behind |
| Watcher.RestartLeavesNoGap | apps/watcher/src/main.ts:204-230 | A restart goes on live from the checkpoint unless there is none or it is 500,000 blocks or more behind, then from the backfill; and it resumes the walk just past the mark, up to the first live block |
| Watcher.CaughtCommitCarriesMark | apps/watcher/src/main.ts:231-279 | In any run, once the walk has met the live loop and a commit went through, the mark stays the block before the checkpoint, and no restart near the head walks again, as long as no crash comes between the two writes of a commit |
| Watcher.SyncedStepIff | apps/watcher/src/main.ts:204-234 | Which steps keep the mark at the block before the checkpoint: all but a start past the checkpoint and a crash between the two writes that moves it |
| Watcher.UnservedBlockBreaksMark | apps/watcher/src/main.ts:116-126 | The assumption is needed: one block indexed without its pools makes the mark lie |
| Watcher.MarkHonestIff | apps/watcher/src/main.ts:198-279 | Over every run, whatever the node serves: the mark lies if and only if some block at or below it was answered for, live or in a window of the walk, without all of its pools and they never came otherwise |
| Watcher.Indexer.IndexChunk | apps/watcher/src/main.ts:245-252 | A chunk advances if and only if every block of it was served, whatever the walk does between its blocks |
| Watcher.Indexer.AfterChunk | apps/watcher/src/main.ts:254-275 | After a chunk: a commit exactly once 25 blocks have passed since the last, and one more block at a time after twenty good chunks, up to eight |
| Watcher.Indexer.BackOff | apps/watcher/src/main.ts:287-289 | After a failed chunk: half as many blocks at a time, at least one |
| Watcher.Indexer.CatchUp | apps/watcher/src/main.ts:244-281 | One turn of the live loop beside the walk: succeeds if and only if every block up to the target was served, ends with checkpoint there, and the mark too once the walk has met it; otherwise keeps what it reached |
| Watcher.Indexer.WalkTurn | apps/watcher/src/v4.ts:115-149 | One answer of the background walk |
| GetLogs.AllOrNothing | apps/gateway/src/getlogs.ts:98-170 | Success returns every matching log of the range once, in block order, within max(1, maxCalls) requests; anything else is an error or the upstream's own first answer |
| GetLogs.CompleteIff | apps/gateway/src/getlogs.ts:161-169 | Without assuming array answers: a successful walk is complete if and only if the windows answered by non-arrays hold no log |
| GetLogs.SkippedWindowLosesLogs | apps/gateway/src/getlogs.ts:161-169 | A concrete non-array answer that loses a log in silence |
| GetLogs.EnoughCallsSucceed | apps/gateway/src/getlogs.ts:125-160 | Against an upstream that serves windows of w blocks, halving succeeds: in one call if the range is no wider, and otherwise within 2*blocks / ceil(w/2) calls, whatever wider windows it refuses |
| GetLogs.ErrorsAreEarned | apps/gateway/src/getlogs.ts:135-168 | Each error says what happened: the budget is spent, that one block alone was refused, there are more logs than allowed, or the upstream failed within the range |
| GetLogs.FirstAnswerDecides | apps/gateway/src/getlogs.ts:98-123 | The first answer is returned as it is unless it refuses the range; then a range that cannot be read or is empty is turned away, and any other is walked |
| GetLogs.Query.WalkRange | apps/gateway/src/getlogs.ts:125-170 | The recursive walk over shared budget and output against its specification |
| GetLogs.RunGetLogsWide | apps/gateway/src/getlogs.ts:98-123 | The whole query against its specification |
| HeadWatcher.EveryRun | apps/gateway/src/subscribe.ts:250-314 | Between stops: announced blocks strictly increase, a block is announced if and only if a tick advanced over it and the node had it, and the log ranges are those of the ticks in which logs were wanted, disjoint and in block order |
| HeadWatcher.LogsInTickOrder | apps/gateway/src/subscribe.ts:298-314 | Over every run, stops included, and however late the answers come: each log answer that came back well is handed on once, in tick order, and only after the links of all earlier ticks have run |
| HeadWatcher.NoBlockSkippedIff | apps/gateway/src/subscribe.ts:260-282 | Over a whole run between stops: every block from the first head to the last is announced if and only if no stepped-over block was null and no tick was more than maxCatchUp behind; each tick continues the last one exactly under that second condition |
| HeadWatcher.TickIs | apps/gateway/src/subscribe.ts:250-288 | A tick whose requests succeed announces exactly the head and the blocks stepped over, at most maxCatchUp back, that the node has, moves on to it, and asks for the logs of them all in one range if wanted; a head that is not new does nothing |
| HeadWatcher.AnswerIsHandedOn | apps/gateway/src/subscribe.ts:302-313 | A log answer is handed on by its own link once the link before it has run, if it came back well |
| HeadWatcher.FailureEndsTick | apps/gateway/src/subscribe.ts:250-287 | A request that fails ends its tick, and the next may begin |
| HeadWatcher.FailuresLoseNothing | apps/gateway/src/subscribe.ts:250-287 | However many ticks fail, at whichever await, they announce and ask for nothing, and the next tick that succeeds does what it would have done without them |
| HeadWatcher.StopForgetsIff | apps/gateway/src/subscribe.ts:238-282 | After a stop in any reachable state the position stays forgotten up to the end of the tick under way, and beyond it if and only if that tick fails or finds no positive head, whether it waits for the head or for blocks |
| HeadWatcher.StopUndone | apps/gateway/src/subscribe.ts:238-282 | A run in which a stop while the head is awaited is undone, and the next subscriber is sent blocks 106..109 that came while nobody listened |
| HeadWatcher.Follower.HeadCameBack | apps/gateway/src/subscribe.ts:254-282 | The tick after the head arrived |
| HeadWatcher.Follower.Announce | apps/gateway/src/subscribe.ts:274-282 | Announcing what was stepped over, in order, then the head |
| HeadWatcher.Follower.RunLink | apps/gateway/src/subscribe.ts:302-313 | One link of the promise chain of logs |

## Left out

- Ladder weights: `planLadder` computes them as floats and rounds them to
  integers in 0..10^9; the model takes any such integers, and for
  `splitLadder` any positive integers. `shapeWeights`, `priceToTick` and the
  other float code are not modelled.
- LadderPlan.PlanIsSound: `bins` is an integer, and the quotients of ticks that
  the source computes in floating point are exact.
- SplitLadder.ComputeSplitLadder: `bins` is an integer.
- LadderSpend.BindingBudgetIsSpent: for budgets of at least 40 million raw units;
  below that the halving loop may discard half of the plan, and
  `HalfAtLeastSpent` is what holds.
- The route search `bestRoute` enters as its result: an allocation that is a
  whole split. Drop reasons are left out.
- OrderBook.ApplyKeeps: the orders of a settlement are a set, so their order
  within a transaction is not modelled; signatures, the ledger file and
  netting statistics are left out; the length of a send pause is an event parameter.
- Merkle.RootBindsHistory: the hash is a parameter, assumed collision-free on
  unordered pairs, with leaves and the empty root outside its image. keccak and
  the encoding of receipts are left out.
- InflightCap: the timers; a timeout may happen at any moment.
- MicroCache: the JavaScript Map is a sequence of entries in insertion order.
  `hedged` and its budget are left out: a finite case analysis.
- Watcher.MarkIsAlwaysHonest: candles, trades, arbitrage and the summary are
  left out. The live loop may commit at any moment, which covers the source's
  moments. deployBlock is not negative. A walk that dies on an exception is not
  an event: it leaves the mark and the index as its last window did.
- Watcher.Indexer.CatchUp: the blocks of a chunk come back one after another;
  the step functions cover every order.
- V4Walk and the live loop of Watcher: how long they pause before a retry.
- GetLogs: non-numeric block tags other than the named ones.
- HeadWatcher.EveryRun: stated between stops, which reset the position; a
  listener that throws is left out.
- HTTP, WebSocket, RPC encoding, wallets, files and SQLite: outside the model,
  present only as answers.
- `Lane` in `apps/gateway/src/ordoswap2.ts`: its cap is not an invariant of the code.
- `apps/auction`, strategy, telemetry, approvals, detection, pricing, pages:
  small folds, float code or user interface.
