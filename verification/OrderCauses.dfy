// Why an order is where it is: each change of status, each attempt and each
// disappearance, exactly by the event that causes it. The limits and ages are
// written out here, and the causes are told order by order.
module OrderCauses {
  import opened Common
  import opened OrderBook
  import opened OrderRuns

  /** The order is in job j, which is at this point of its settlement. */
  predicate InJob(s: State, j: nat, id: Id, stage: Stage) {
    s.window.Running? && j < |s.window.jobs| && id in s.window.jobs[j].kept && s.window.jobs[j].stage == stage
  }

  predicate InMining(s: State, j: nat, id: Id) {
    s.window.Running? && j < |s.window.jobs| && id in s.window.jobs[j].kept && s.window.jobs[j].stage.Mining?
  }

  // ------------------------------------------------- the causes

  /** solve gives it up: its limit is missed. */
  predicate Dropped(s: State, e: Event, id: Id) {
    e.SolveReturns? && InJob(s, e.job, id, Solving) && id in e.dropped
  }

  /**
   * A failed attempt of its job, with the number of attempts it may have: a
   * solve without a result while it is pending, a dry run that fails, a send
   * that is refused, or a receipt that is missing or reports a revert.
   */
  function FailsWithLimit(s: State, e: Event, id: Id): Option<nat> {
    if e.SolveReturns? && InJob(s, e.job, id, Solving) && e.failed && id !in e.dropped
       && id in s.orders && s.orders[id].status == Pending then Some(3)
    else if e.DryRunReturns? && InJob(s, e.job, id, Drying) && !e.ok then Some(3)
    else if e.SendReturns? && InJob(s, e.job, id, Sending) && e.tx == None then Some(6)
    else if e.ReceiptReturns? && InMining(s, e.job, id) && (e.receipt == Unmined || e.receipt == Mined(false)) then Some(3)
    else None
  }

  /** The receipt of its transaction reports success. */
  predicate Settles(s: State, e: Event, id: Id) {
    e.ReceiptReturns? && InMining(s, e.job, id) && e.receipt == Mined(true)
  }

  /** Its transaction is sent. */
  predicate IsSent(s: State, e: Event, id: Id, tx: Tx) {
    e.SendReturns? && InJob(s, e.job, id, Sending) && e.tx == Some(tx)
  }

  /** A window opens while it waits, not more than a second before its deadline. */
  predicate IsLate(s: State, e: Event, id: Id) {
    && e.TickBegins? && s.window.Idle? && id in s.orders && s.orders[id].validTo <= e.at + 1
    && (s.orders[id].status == Pending || s.orders[id].status == AwaitingDeposit)
  }

  /** Its deposit is found, by a check of the entry it still has. */
  predicate IsPaid(s: State, e: Event, id: Id) {
    e.DepositsChecked? && s.window.Checking? && id in e.found && id in s.window.checks && id !in s.window.replaced
  }

  predicate IsStored(s: State, e: Event, id: Id) {
    e.IntakeStores? && e.id == id && id in s.checked
  }

  /** Every pair is through, and it is older than ten minutes and neither pending nor settling. */
  predicate IsForgotten(s: State, e: Event, id: Id) {
    && e.TickEnds? && s.window.Running? && (forall j :: 0 <= j < |s.window.jobs| ==> s.window.jobs[j].stage == Done)
    && id in s.orders && s.orders[id].receivedAt < e.at - 600_000
    && s.orders[id].status != Pending && !s.orders[id].status.Settling?
  }

  // ------------------------------------------------- and nothing else

  /** The entry an order has after an event, told from its causes. */
  function NextEntry(s: State, e: Event, id: Id): Entry
    requires id in s.orders
  {
    var x := s.orders[id];
    var limit := FailsWithLimit(s, e, id);
    if IsStored(s, e, id) then Entry(if e.deposited then AwaitingDeposit else Pending, 0, e.validTo, e.at)
    else if Settles(s, e, id) then x.(status := Filled)
    else if Dropped(s, e, id) then x.(status := Rejected)
    else if limit.Some? then
      x.(attempts := x.attempts + 1,
         status := if x.attempts + 1 >= limit.value then Rejected else if e.ReceiptReturns? then Pending else x.status)
    else if e.SendReturns? && e.tx.Some? && IsSent(s, e, id, e.tx.value) then x.(status := Settling(e.tx.value))
    else if IsLate(s, e, id) then x.(status := Expired)
    else if IsPaid(s, e, id) then x.(status := Pending)
    else x
  }

  lemma SetOne(orders: Orders, ids: set<Id>, status: Status, id: Id)
    requires id in orders
    ensures var after := SetStatus(orders, ids, status);
            after.Keys == orders.Keys && after[id] == if id in ids then orders[id].(status := status) else orders[id]
  {
  }

  lemma AttemptOne(orders: Orders, ids: set<Id>, limit: nat, revive: bool, id: Id)
    requires id in orders
    ensures var after, x := Attempted(orders, ids, limit, revive), orders[id];
            && after.Keys == orders.Keys
            && after[id] == if id !in ids then x
                            else x.(attempts := x.attempts + 1,
                                    status := if x.attempts + 1 >= limit then Rejected else if revive then Pending else x.status)
  {
  }

  lemma SolveEntry(s: State, e: Event, id: Id)
    requires Loose(s) && e.SolveReturns? && StageOf(s, e.job).Solving? && id in s.orders
    ensures var s' := Apply(s, e); s'.orders.Keys == s.orders.Keys && s'.orders[id] == NextEntry(s, e, id)
  {
    var job := s.window.jobs[e.job];
    var gone := e.dropped * job.kept;
    SetOne(s.orders, gone, Rejected, id);
    var rejected := Reject(s, gone);
    var again := (job.kept - gone) * InState(rejected.orders, Pending);
    AttemptOne(rejected.orders, again, 3, false, id);
    assert id in again <==> id in job.kept && id !in e.dropped && s.orders[id].status == Pending;
    hide SetStatus, Attempted, InState, Exhausted, Loose;
  }

  lemma DryRunEntry(s: State, e: Event, id: Id)
    requires e.DryRunReturns? && StageOf(s, e.job).Drying? && id in s.orders
    ensures var s' := Apply(s, e); s'.orders.Keys == s.orders.Keys && s'.orders[id] == NextEntry(s, e, id)
  {
    AttemptOne(s.orders, s.window.jobs[e.job].kept, 3, false, id);
    hide Attempted, Exhausted;
  }

  lemma SendEntry(s: State, e: Event, id: Id)
    requires e.SendReturns? && StageOf(s, e.job).Sending? && id in s.orders
    ensures var s' := Apply(s, e); s'.orders.Keys == s.orders.Keys && s'.orders[id] == NextEntry(s, e, id)
  {
    var kept := s.window.jobs[e.job].kept;
    AttemptOne(s.orders, kept, 6, false, id);
    if e.tx.Some? { SetOne(s.orders, kept, Settling(e.tx.value), id); }
    hide Attempted, Exhausted, SetStatus;
  }

  lemma ReceiptEntry(s: State, e: Event, id: Id)
    requires e.ReceiptReturns? && StageOf(s, e.job).Mining? && id in s.orders
    ensures var s' := Apply(s, e); s'.orders.Keys == s.orders.Keys && s'.orders[id] == NextEntry(s, e, id)
  {
    var kept := s.window.jobs[e.job].kept;
    AttemptOne(s.orders, kept, 3, true, id);
    SetOne(s.orders, kept, Filled, id);
    hide Attempted, Exhausted, SetStatus;
  }

  lemma JobEntry(s: State, e: Event, id: Id)
    requires Loose(s) && IsJobEvent(e) && id in s.orders
    ensures var s' := Apply(s, e); s'.orders.Keys == s.orders.Keys && s'.orders[id] == NextEntry(s, e, id)
  {
    if e.SolveReturns? && StageOf(s, e.job).Solving? {
      SolveEntry(s, e, id);
    } else if e.DryRunReturns? && StageOf(s, e.job).Drying? {
      DryRunEntry(s, e, id);
    } else if e.SendReturns? && StageOf(s, e.job).Sending? {
      SendEntry(s, e, id);
    } else if e.ReceiptReturns? && StageOf(s, e.job).Mining? {
      ReceiptEntry(s, e, id);
    } else {
      hide Solved, DryRun, Sent, Settled;
      assert Apply(s, e).orders == s.orders;
    }
    hide Loose, Solved, DryRun, Sent, Settled, Apply, NextEntry;
  }

  lemma BeginEntry(s: State, at: int, id: Id)
    requires id in s.orders
    ensures var s' := Apply(s, TickBegins(at)); id in s'.orders && s'.orders[id] == NextEntry(s, TickBegins(at), id)
  {
    hide SetStatus, InState;
    SetOne(s.orders, Late(s.orders, at), Expired, id);
  }

  lemma CheckedEntry(s: State, e: Event, id: Id)
    requires e.DepositsChecked? && id in s.orders
    ensures var s' := Apply(s, e); id in s'.orders && s'.orders[id] == NextEntry(s, e, id)
  {
    hide SetStatus, Solvers;
    if s.window.Checking? { SetOne(s.orders, e.found * s.window.checks - s.window.replaced, Pending, id); }
  }

  lemma EndEntry(s: State, e: Event, id: Id)
    requires e.TickEnds? && id in s.orders
    ensures var s' := Apply(s, e);
            && (id !in s'.orders <==> IsForgotten(s, e, id))
            && (id in s'.orders ==> s'.orders[id] == NextEntry(s, e, id))
  {
    hide InState;
  }

  lemma IntakeEntry(s: State, e: Event, id: Id)
    requires (e.IntakeChecks? || e.IntakeFails? || e.IntakeStores?) && id in s.orders
    ensures var s' := Apply(s, e); id in s'.orders && s'.orders[id] == NextEntry(s, e, id)
  {
  }

  lemma WindowEntry(s: State, e: Event, id: Id)
    requires !IsJobEvent(e) && id in s.orders && !IsForgotten(s, e, id)
    ensures var s' := Apply(s, e); id in s'.orders && s'.orders[id] == NextEntry(s, e, id)
  {
    match e
    case TickBegins(at) => BeginEntry(s, at, id);
    case DepositsChecked(_, _, _) => CheckedEntry(s, e, id);
    case TickEnds(_) => EndEntry(s, e, id);
    case _ => IntakeEntry(s, e, id);
    hide Apply, NextEntry, IsForgotten;
  }

  /** Only intake adds an order, and only the end of a window takes one away. */
  lemma KeysChange(s: State, e: Event, id: Id)
    requires Loose(s) && Allowed(s, e)
    ensures id !in s.orders ==> (id in Apply(s, e).orders <==> IsStored(s, e, id))
    ensures id in s.orders ==> (id !in Apply(s, e).orders <==> IsForgotten(s, e, id))
  {
    if IsJobEvent(e) {
      KeysStay(s, e);
    } else if id in s.orders {
      if e.TickEnds? { EndEntry(s, e, id); }
      if !IsForgotten(s, e, id) { WindowEntry(s, e, id); }
    } else {
      AppearsIff(s, e, id);
    }
    hide SetStatus, Attempted, InState, Partition, Solvers, Union, Late, Stale;
  }

  lemma AppearsIff(s: State, e: Event, id: Id)
    requires !IsJobEvent(e) && id !in s.orders
    ensures id in Apply(s, e).orders <==> IsStored(s, e, id)
  {
    hide InState, Late, Stale;
  }

  lemma KeysStay(s: State, e: Event)
    requires IsJobEvent(e)
    ensures Apply(s, e).orders.Keys == s.orders.Keys
  {
    hide InState, Exhausted;
  }

  lemma EntryIs(s: State, e: Event, id: Id)
    requires Loose(s) && Allowed(s, e) && id in s.orders && !IsForgotten(s, e, id)
    ensures id in Apply(s, e).orders && Apply(s, e).orders[id] == NextEntry(s, e, id)
  {
    if IsJobEvent(e) {
      JobEntry(s, e, id);
    } else {
      WindowEntry(s, e, id);
    }
    hide Loose, Apply, NextEntry, IsForgotten;
  }

  ghost predicate Reachable(events: seq<Event>, e: Event) {
    AllAllowed(EMPTY, events) && Allowed(Run(EMPTY, events), e)
  }

  /**
   * At every point of every run, racing intakes included. An order becomes
   * filled exactly at the successful receipt of its job's transaction;
   * rejected exactly when a solve drops it or its failed attempts reach three,
   * or six at a refused send; expired exactly when a window opens on it no
   * more than a second before its deadline. Its attempts are counted exactly
   * at those failures. It is forgotten exactly at the end of a window, ten
   * minutes old and neither pending nor settling; and it appears exactly when
   * an intake call stores it.
   */
  lemma ChangesIff(events: seq<Event>, e: Event, id: Id)
    requires Reachable(events, e)
    ensures var s, s' := Run(EMPTY, events), Apply(Run(EMPTY, events), e);
            && (id !in s.orders ==> (id in s'.orders <==> IsStored(s, e, id)))
            && (id in s.orders ==> (id !in s'.orders <==> IsForgotten(s, e, id)))
            && (id in s.orders && id in s'.orders ==>
                  var x, y, limit := s.orders[id], s'.orders[id], FailsWithLimit(s, e, id);
                  && (y.status == Filled && x.status != Filled <==> Settles(s, e, id))
                  && (y.status == Rejected && x.status != Rejected
                      <==> Dropped(s, e, id) || (limit.Some? && limit.value <= x.attempts + 1))
                  && (y.status == Expired && x.status != Expired <==> IsLate(s, e, id))
                  && (y.attempts == if IsStored(s, e, id) then 0 else x.attempts + if limit.Some? then 1 else 0))
  {
    var s := Run(EMPTY, events);
    LooseRun(EMPTY, events);
    KeysChange(s, e, id);
    if id in s.orders && !IsForgotten(s, e, id) {
      EntryIs(s, e, id);
      JobsHoldOpen(s, id);
    }
    hide Loose, Run, Apply, IsForgotten, AllAllowed, Allowed, Reachable;
  }

  /** The orders of jobs are neither filled nor rejected nor expired. */
  lemma JobsHoldOpen(s: State, id: Id)
    requires Loose(s) && id in s.orders
    ensures forall j :: s.window.Running? && 0 <= j < |s.window.jobs| && id in s.window.jobs[j].kept ==> !Terminal(s.orders[id].status)
    ensures s.window.Checking? && id in s.window.checks ==> !Terminal(s.orders[id].status)
  {
    if s.window.Running? {
      forall j | 0 <= j < |s.window.jobs| && id in s.window.jobs[j].kept ensures !Terminal(s.orders[id].status) {
        assert JobLoose(s.orders, s.inFlight, s.window.jobs[j]);
      }
    }
  }

  /**
   * The whole entry an order has after any event of any run; and without
   * races, the transaction it is filled by is the one it was settling in.
   */
  lemma NextEntryIs(events: seq<Event>, e: Event, id: Id)
    requires Reachable(events, e) && id in Run(EMPTY, events).orders
    ensures var s, s' := Run(EMPTY, events), Apply(Run(EMPTY, events), e);
            && (id in s'.orders ==> s'.orders[id] == NextEntry(s, e, id))
            && (NoRace(EMPTY, events) && Settles(s, e, id) ==>
                  s.orders[id].status == Settling(s.window.jobs[e.job].stage.tx))
  {
    var s := Run(EMPTY, events);
    LooseRun(EMPTY, events);
    KeysChange(s, e, id);
    if !IsForgotten(s, e, id) { EntryIs(s, e, id); }
    if NoRace(EMPTY, events) && Settles(s, e, id) {
      EveryRun(events);
      assert JobOk(s.orders, s.inFlight, s.window.jobs[e.job]);
    }
    hide Loose, Run, Apply, IsForgotten, AllAllowed, Allowed, Reachable, NoRace, NextEntry, CountersOk;
  }

  // ------------------------------------------------- windows and jobs

  /**
   * Which orders a window works on. It opens only when none is open, on the
   * pending orders that are not late, and checks those that await a deposit
   * and are not late. Those whose deposit is found join the former, and all
   * of them get a job, unless sends are paused; nobody else does.
   */
  lemma WindowTakesIff(events: seq<Event>, e: Event, id: Id)
    requires Reachable(events, e)
    ensures var s, s' := Run(EMPTY, events), Apply(Run(EMPTY, events), e);
            && (e.TickBegins? && s.window.Idle? ==>
                  && s'.window.Checking? && s'.window.replaced == {}
                  && (id in s'.window.ready
                      <==> id in s.orders && s.orders[id].status == Pending && e.at + 1 < s.orders[id].validTo)
                  && (id in s'.window.checks
                      <==> id in s.orders && s.orders[id].status == AwaitingDeposit && e.at + 1 < s.orders[id].validTo))
            && (e.DepositsChecked? && s.window.Checking? ==>
                  var all := s.window.ready + e.found * s.window.checks;
                  && (s'.window.Running? <==> all != {} && s.pausedUntil <= e.at)
                  && (!s'.window.Running? ==> s'.window.Idle?)
                  && (s'.window.Running? ==>
                        && s'.inFlight == all
                        && (id in all <==> exists j :: 0 <= j < |s'.window.jobs| && InJob(s', j, id, Solving))))
            && (s'.pausedUntil != s.pausedUntil ==> e.SendReturns? && e.tx == None && s'.pausedUntil == e.until)
            && (e.SendReturns? && e.tx == None && StageOf(s, e.job).Sending? ==> s'.pausedUntil == e.until)
  {
    var s := Run(EMPTY, events);
    LooseRun(EMPTY, events);
    match e
    case TickBegins(at) => if s.window.Idle? { OpensOn(s, at, id); }
    case DepositsChecked(found, groups, at) => if s.window.Checking? { LaunchesAll(s, found, groups, at, id); }
    case _ => PauseIff(s, e);
    hide Loose, Run, AllAllowed, Reachable, InState, SetStatus, Partition, Union, Solvers, Late, Attempted;
  }

  lemma OpensOn(s: State, at: int, id: Id)
    requires Loose(s) && s.window.Idle?
    ensures var s' := Apply(s, TickBegins(at));
            && s'.window.Checking? && s'.window.replaced == {} && s'.pausedUntil == s.pausedUntil
            && (id in s'.window.ready
                <==> id in s.orders && s.orders[id].status == Pending && at + 1 < s.orders[id].validTo)
            && (id in s'.window.checks
                <==> id in s.orders && s.orders[id].status == AwaitingDeposit && at + 1 < s.orders[id].validTo)
  {
    if id in s.orders { SetOne(s.orders, Late(s.orders, at), Expired, id); }
    assert SetStatus(s.orders, Late(s.orders, at), Expired).Keys == s.orders.Keys;
    hide SetStatus;
  }

  lemma {:induction false} InSomeGroup(groups: seq<set<Id>>, id: Id)
    ensures id in Union(groups) <==> exists j :: 0 <= j < |groups| && id in groups[j]
  {
    if groups != [] {
      InSomeGroup(groups[1..], id);
      if j :| 0 <= j < |groups| && id in groups[j] {
        if j > 0 { assert id in groups[1..][j - 1]; }
      }
      if id in Union(groups[1..]) {
        var j :| 0 <= j < |groups[1..]| && id in groups[1..][j];
        assert id in groups[j + 1];
      }
    }
  }

  lemma LaunchesAll(s: State, found: set<Id>, groups: seq<set<Id>>, at: int, id: Id)
    requires Loose(s) && s.window.Checking? && Partition(groups, s.window.ready + found * s.window.checks)
    ensures var s', all := Apply(s, DepositsChecked(found, groups, at)), s.window.ready + found * s.window.checks;
            && s'.pausedUntil == s.pausedUntil
            && (s'.window.Running? <==> all != {} && s.pausedUntil <= at)
            && (!s'.window.Running? ==> s'.window.Idle?)
            && (s'.window.Running? ==>
                  && s'.inFlight == all
                  && (id in all <==> exists j :: 0 <= j < |s'.window.jobs| && InJob(s', j, id, Solving)))
  {
    hide SetStatus;
    InSomeGroup(groups, id);
    var s' := Apply(s, DepositsChecked(found, groups, at));
    if s'.window.Running? {
      forall j | 0 <= j < |groups| ensures InJob(s', j, id, Solving) <==> id in groups[j] {
      }
    }
    hide Union;
  }

  lemma PauseIff(s: State, e: Event)
    requires !e.TickBegins? && !e.DepositsChecked?
    ensures var s' := Apply(s, e);
            && (s'.pausedUntil != s.pausedUntil ==> e.SendReturns? && e.tx == None && s'.pausedUntil == e.until)
            && (e.SendReturns? && e.tx == None && StageOf(s, e.job).Sending? ==> s'.pausedUntil == e.until)
  {
    hide SetStatus, Attempted, InState, Exhausted;
  }

  /** A window closes exactly when it ends with every job done, and then nothing is in flight any more. */
  lemma WindowClosesIff(events: seq<Event>, e: Event)
    requires Reachable(events, e) && Run(EMPTY, events).window.Running?
    ensures var s, s' := Run(EMPTY, events), Apply(Run(EMPTY, events), e);
            && (s'.window.Idle? <==> e.TickEnds? && forall j :: 0 <= j < |s.window.jobs| ==> s.window.jobs[j].stage == Done)
            && (!s'.window.Idle? ==> s'.window.Running? && s'.window.ready == s.window.ready && |s'.window.jobs| == |s.window.jobs|)
            && (s'.window.Idle? ==> s'.inFlight == {})
  {
    var s := Run(EMPTY, events);
    LooseRun(EMPTY, events);
    ClosesIff(s, e);
    hide Run, AllAllowed, Reachable, Apply;
    assert Loose(s);
  }

  lemma ClosesIff(s: State, e: Event)
    requires s.window.Running? && s.inFlight <= s.window.ready
    ensures var s' := Apply(s, e);
            && (s'.window.Idle? <==> e.TickEnds? && forall j :: 0 <= j < |s.window.jobs| ==> s.window.jobs[j].stage == Done)
            && (!s'.window.Idle? ==> s'.window.Running? && s'.window.ready == s.window.ready && |s'.window.jobs| == |s.window.jobs|)
            && (s'.window.Idle? ==> s'.inFlight == {})
  {
    hide InState, SetStatus, Stale, Solved, DryRun, Sent, Settled;
    if IsJobEvent(e) {
      JobStaysOpen(s, e);
      hide Apply;
    }
  }

  lemma JobStaysOpen(s: State, e: Event)
    requires s.window.Running? && IsJobEvent(e)
    ensures var s' := Apply(s, e); s'.window.Running? && s'.window.ready == s.window.ready && |s'.window.jobs| == |s.window.jobs|
  {
    hide InState, SetStatus, Attempted, Exhausted;
  }

  /** Which intake calls are under way: a check of a hash not in memory begins one, and a failure or the store ends one. */
  lemma UnderWayIs(s: State, e: Event, id: Id)
    ensures var begins := e == IntakeChecks(id) && id !in s.orders;
            var ends := (e == IntakeFails(id) || (e.IntakeStores? && e.id == id)) && id in s.checked;
            Apply(s, e).checked[id] == s.checked[id] + (if begins then 1 else 0) - if ends then 1 else 0
  {
    hide InState, SetStatus, Attempted, Exhausted, Late, Stale;
  }

  /**
   * How an order gets on in its job: a solve that keeps it takes it to the
   * dry run, a dry run that passes to the send, a send to the mining of that
   * transaction; whatever else happens to its job, it leaves it; and nothing
   * else moves it.
   */
  lemma JobMovesIff(events: seq<Event>, e: Event, j: nat, id: Id)
    requires Reachable(events, e) && Run(EMPTY, events).window.Running? && j < |Run(EMPTY, events).window.jobs|
    requires id in Run(EMPTY, events).window.jobs[j].kept
    ensures var s, s' := Run(EMPTY, events), Apply(Run(EMPTY, events), e);
            var here := IsJobEvent(e) && e.job == j;
            && (!here ==> InJob(s', j, id, s.window.jobs[j].stage))
            && (here && InJob(s, j, id, Solving) && e.SolveReturns? ==>
                  if !e.failed && id !in e.dropped then InJob(s', j, id, Drying) else !InJob(s', j, id, s'.window.jobs[j].stage))
            && (here && InJob(s, j, id, Drying) && e.DryRunReturns? ==>
                  if e.ok then InJob(s', j, id, Sending) else !InJob(s', j, id, s'.window.jobs[j].stage))
            && (here && InJob(s, j, id, Sending) && e.SendReturns? ==>
                  if e.tx.Some? then InJob(s', j, id, Mining(e.tx.value)) else !InJob(s', j, id, s'.window.jobs[j].stage))
            && (here && InMining(s, j, id) && e.ReceiptReturns? ==> !InJob(s', j, id, s'.window.jobs[j].stage))
            && (here && e.PairThrows? ==> !InJob(s', j, id, s'.window.jobs[j].stage))
  {
    var s := Run(EMPTY, events);
    LooseRun(EMPTY, events);
    JobIsLoose(s, j);
    hide Loose, Run, AllAllowed, Reachable, InState, SetStatus, Attempted, Exhausted, Late, Stale, Partition, Union, Solvers;
  }
}
