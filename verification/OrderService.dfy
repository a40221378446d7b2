// The batcher's mutable state, updated order by order as the source does, and
// proved equal to the bulk steps of OrderBook.
module OrderService {
  import opened Common
  import opened OrderBook
  import opened OrderRuns

  /** One more failed attempt of one order. */
  function Again(e: Entry, limit: nat, revive: bool): Entry {
    e.(attempts := e.attempts + 1,
       status := if e.attempts + 1 >= limit then Rejected else if revive then Pending else e.status)
  }

  /** Touching one more order of a set is touching the larger set. */
  lemma RetryOneMore(s: State, ids: set<Id>, id: Id, limit: nat, revive: bool)
    requires id !in ids && id in s.orders
    ensures var mid := Retry(s, ids, limit, revive);
            && mid.orders.Keys == s.orders.Keys && mid.orders[id] == s.orders[id]
            && var e := s.orders[id];
            Retry(s, ids + {id}, limit, revive)
              == mid.(orders := mid.orders[id := Again(e, limit, revive)],
                      stats := mid.stats.(rejected := mid.stats.rejected + if e.attempts + 1 >= limit then 1 else 0),
                      inFlight := mid.inFlight - {id})
  {
    var more, few := Exhausted(s.orders, ids + {id}, limit), Exhausted(s.orders, ids, limit);
    assert more == few + if s.orders[id].attempts + 1 >= limit then {id} else {};
    assert s.inFlight - (ids + {id}) == s.inFlight - ids - {id};
    RetryOneMoreOrder(s.orders, ids, id, limit, revive);
    hide Change, Exhausted, Again;
  }

  lemma RetryOneMoreOrder(orders: Orders, ids: set<Id>, id: Id, limit: nat, revive: bool)
    requires id !in ids && id in orders
    ensures var mid, e := Attempted(orders, ids, limit, revive), orders[id];
            && mid.Keys == orders.Keys && mid[id] == e
            && Attempted(orders, ids + {id}, limit, revive) == mid[id := Again(e, limit, revive)]
  {
  }

  lemma SetOneMore(orders: Orders, ids: set<Id>, id: Id, status: Status)
    requires id !in ids && id in orders
    ensures var mid := SetStatus(orders, ids, status);
            && mid.Keys == orders.Keys && mid[id] == orders[id]
            && SetStatus(orders, ids + {id}, status) == mid[id := orders[id].(status := status)]
  {
  }

  lemma RejectOneMore(s: State, ids: set<Id>, id: Id)
    requires id !in ids && id in s.orders
    ensures var mid := Reject(s, ids);
            && id in mid.orders && mid.orders[id] == s.orders[id]
            && Reject(s, ids + {id})
              == mid.(orders := mid.orders[id := s.orders[id].(status := Rejected)],
                      stats := mid.stats.(rejected := mid.stats.rejected + 1),
                      inFlight := mid.inFlight - {id})
  {
    SetOneMore(s.orders, ids, id, Rejected);
    assert s.inFlight - (ids + {id}) == s.inFlight - ids - {id};
  }

  lemma FillOneMore(s: State, ids: set<Id>, id: Id)
    requires id !in ids && id in s.orders
    ensures var mid := Fill(s, ids);
            && id in mid.orders && mid.orders[id] == s.orders[id]
            && Fill(s, ids + {id})
              == mid.(orders := mid.orders[id := s.orders[id].(status := Filled)],
                      stats := mid.stats.(filled := mid.stats.filled + 1),
                      inFlight := mid.inFlight - {id})
  {
    SetOneMore(s.orders, ids, id, Filled);
    assert s.inFlight - (ids + {id}) == s.inFlight - ids - {id};
  }

  lemma NothingYet(orders: Orders, status: Status)
    ensures SetStatus(orders, {}, status) == orders
  {
  }

  /** Before the first order, nothing has changed. */
  lemma NoneYet(s: State, limit: nat, revive: bool)
    ensures Reject(s, {}) == s && Fill(s, {}) == s && Retry(s, {}, limit, revive) == s
  {
    NothingYet(s.orders, Rejected);
    NothingYet(s.orders, Filled);
    assert Attempted(s.orders, {}, limit, revive) == s.orders;
    assert Exhausted(s.orders, {}, limit) == {} && s.inFlight - {} == s.inFlight;
    hide Attempted, SetStatus, Exhausted;
  }

  lemma LaunchAllowed(s: State, found: set<Id>, groups: seq<set<Id>>, now: int)
    requires Loose(s) && s.window.Checking? && Partition(groups, s.window.ready + found * s.window.checks)
    ensures s.window.checks <= s.orders.Keys
    ensures Loose(Launch(s, found, groups, now))
    ensures Launch(s, found, groups, now) == Apply(s, DepositsChecked(found, groups, now))
  {
    LaunchLoose(s, found, groups, now);
  }

  lemma ClosedIsIdle(s: State, now: int)
    requires Loose(s) && s.window.Running? && forall j :: 0 <= j < |s.window.jobs| ==> s.window.jobs[j].stage == Done
    ensures EndTick(s, now).inFlight == {} && EndTick(s, now).window.Idle?
    ensures Loose(EndTick(s, now)) && EndTick(s, now) == Apply(s, TickEnds(now))
    ensures var stale := Stale(s.orders, now);
            EndTick(s, now) == Closed(s, stale)
  {
    LooseKeeps(s, TickEnds(now));
  }

  lemma LooseJobIsOpen(s: State, j: nat)
    requires Loose(s) && HasJob(s, j)
    ensures AllOpen(s.orders, s.window.jobs[j].kept)
  {
    assert JobLoose(s.orders, s.inFlight, s.window.jobs[j]);
  }

  /** The window closed and `stale` forgotten. */
  function Closed(s: State, stale: set<Id>): State
    requires s.window.Running?
  {
    s.(inFlight := s.inFlight - s.window.ready, window := Idle, orders := s.orders - stale,
       forgotten := Stats(s.forgotten.received + |stale|,
                          s.forgotten.rejected + |InState(s.orders, Rejected) * stale|,
                          s.forgotten.filled + |InState(s.orders, Filled) * stale|,
                          s.forgotten.expired + |InState(s.orders, Expired) * stale|))
  }

  class Book {
    var orders: Orders
    var inFlight: set<Id>
    var stats: Stats
    var pausedUntil: int
    var window: Window
    var checked: multiset<Id>
    ghost var forgotten: Stats

    ghost function Now(): State
      reads this
    {
      State(orders, inFlight, stats, pausedUntil, window, checked, forgotten)
    }

    ghost predicate Valid()
      reads this
    {
      Loose(Now())
    }

    constructor ()
      ensures Valid() && Now() == EMPTY
    {
      orders, inFlight, stats := map[], {}, Stats(0, 0, 0, 0);
      pausedUntil, window, checked, forgotten := 0, Idle, multiset{}, Stats(0, 0, 0, 0);
    }

    // ------------------------------------------- loops over orders

    /** `p.attempts++`, rejected at the limit, out of flight either way; below the limit `revive` makes it pending. */
    method RetryOne(id: Id, limit: nat, revive: bool, ghost before: State, ghost done: set<Id>)
      requires Now() == Retry(before, done, limit, revive) && id !in done && id in before.orders
      modifies this
      ensures Now() == Retry(before, done + {id}, limit, revive)
    {
      RetryOneMore(before, done, id, limit, revive);
      hide Retry;
      var p := orders[id];
      var attempts := p.attempts + 1;
      if attempts >= limit {
        stats := stats.(rejected := stats.rejected + 1);
        orders := orders[id := p.(attempts := attempts, status := Rejected)];
      } else {
        orders := orders[id := p.(attempts := attempts, status := if revive then Pending else p.status)];
      }
      inFlight := inFlight - {id};
    }

    method RetryEach(ids: set<Id>, limit: nat, revive: bool)
      requires ids <= orders.Keys
      modifies this
      ensures Now() == Retry(old(Now()), ids, limit, revive)
    {
      ghost var before, done := Now(), {};
      NoneYet(before, limit, revive);
      hide Retry, Reject, Fill;
      var rest := ids;
      while rest != {}
        invariant rest !! done && rest + done == ids && Now() == Retry(before, done, limit, revive)
        decreases rest
      {
        var id :| id in rest;
        RetryOne(id, limit, revive, before, done);
        done := done + {id};
        rest := rest - {id};
      }
      assert done == ids;
    }

    /** One dropped order: `stats.rejected++`, its status, out of flight. */
    method RejectOne(id: Id, ghost before: State, ghost done: set<Id>)
      requires Now() == Reject(before, done) && id !in done && id in before.orders
      modifies this
      ensures Now() == Reject(before, done + {id})
    {
      RejectOneMore(before, done, id);
      stats := stats.(rejected := stats.rejected + 1);
      orders := orders[id := orders[id].(status := Rejected)];
      inFlight := inFlight - {id};
    }

    method RejectEach(ids: set<Id>)
      requires ids <= orders.Keys
      modifies this
      ensures Now() == Reject(old(Now()), ids)
    {
      ghost var before, done := Now(), {};
      NoneYet(before, MAX_ATTEMPTS, false);
      hide Retry, Reject, Fill;
      var rest := ids;
      while rest != {}
        invariant rest !! done && rest + done == ids && Now() == Reject(before, done)
        decreases rest
      {
        var id :| id in rest;
        RejectOne(id, before, done);
        done := done + {id};
        rest := rest - {id};
      }
      assert done == ids;
    }

    /** One settled order: `stats.filled++`, its status, out of flight. */
    method FillOne(id: Id, ghost before: State, ghost done: set<Id>)
      requires Now() == Fill(before, done) && id !in done && id in before.orders
      modifies this
      ensures Now() == Fill(before, done + {id})
    {
      FillOneMore(before, done, id);
      stats := stats.(filled := stats.filled + 1);
      orders := orders[id := orders[id].(status := Filled)];
      inFlight := inFlight - {id};
    }

    method FillEach(ids: set<Id>)
      requires ids <= orders.Keys
      modifies this
      ensures Now() == Fill(old(Now()), ids)
    {
      ghost var before, done := Now(), {};
      NoneYet(before, MAX_ATTEMPTS, false);
      hide Retry, Reject, Fill;
      var rest := ids;
      while rest != {}
        invariant rest !! done && rest + done == ids && Now() == Fill(before, done)
        decreases rest
      {
        var id :| id in rest;
        FillOne(id, before, done);
        done := done + {id};
        rest := rest - {id};
      }
      assert done == ids;
    }

    method SetEach(ids: set<Id>, status: Status)
      requires ids <= orders.Keys
      modifies this`orders
      ensures orders == SetStatus(old(orders), ids, status)
    {
      ghost var before := orders;
      var rest := ids;
      NothingYet(before, status);
      assert ids - rest == {};
      while rest != {}
        invariant rest <= ids && orders == SetStatus(before, ids - rest, status)
        decreases rest
      {
        var id :| id in rest;
        SetOneMore(before, ids - rest, id, status);
        orders := orders[id := orders[id].(status := status)];
        assert ids - (rest - {id}) == ids - rest + {id};
        rest := rest - {id};
      }
      assert ids - rest == ids;
    }

    // ------------------------------------------------ the atomic steps

    /** intake up to its first await. */
    method CheckNew(id: Id) returns (existing: Option<Status>)
      requires Valid()
      modifies this
      ensures Valid() && Now() == Apply(old(Now()), IntakeChecks(id))
      ensures existing == if id in orders then Some(orders[id].status) else None
    {
      if id in orders { return Some(orders[id].status); }
      checked := checked + multiset{id};
      return None;
    }

    /** The end of intake, by a call whose check found the hash new. */
    method TakeIn(id: Id, deposited: bool, validTo: int, now: int)
      requires Valid() && id in checked
      modifies this
      ensures Valid() && Now() == Apply(old(Now()), IntakeStores(id, deposited, validTo, now))
    {
      StoreLoose(Now(), id, deposited, validTo, now);
      ghost var after := Accept(Now(), id, deposited, validTo, now);
      assert after == Apply(Now(), IntakeStores(id, deposited, validTo, now));
      hide Loose, Apply;
      orders := orders[id := Entry(if deposited then AwaitingDeposit else Pending, 0, validTo, now)];
      stats := stats.(received := stats.received + 1);
      checked := checked - multiset{id};
      if window.Checking? && id in window.checks {
        window := window.(replaced := window.replaced + {id});
      }
      assert Now() == after;
    }

    /** tick up to its first await: expire, and collect what is ready. */
    method OpenWindow(now: int)
      requires Valid() && window.Idle?
      modifies this
      ensures Valid() && Now() == Apply(old(Now()), TickBegins(now))
    {
      BeginTickLoose(Now(), now);
      var late := Late(orders, now);
      stats := stats.(expired := stats.expired + |late|);
      SetEach(late, Expired);
      window := Checking(InState(orders, Pending) - inFlight, InState(orders, AwaitingDeposit) - inFlight, {});
    }

    /** After the deposit checks: put every ready order in flight and start its pair. */
    method StartPairs(found: set<Id>, groups: seq<set<Id>>, now: int)
      requires Valid() && window.Checking? && Partition(groups, window.ready + found * window.checks)
      modifies this
      ensures Valid() && Now() == Apply(old(Now()), DepositsChecked(found, groups, now))
    {
      hide Loose, SetStatus, Union, InState, Solvers, Partition, Late, LooseWindow;
      LaunchAllowed(Now(), found, groups, now);
      ghost var before, after := Now(), Launch(Now(), found, groups, now);
      var ready, paid := window.ready, found * window.checks;
      SetEach(paid - window.replaced, Pending);
      ready := ready + paid;
      if ready == {} || now < pausedUntil {
        window := Idle;
        assert Now() == after;
        return;
      }
      inFlight := inFlight + ready;
      window := Running(ready, Solvers(groups));
      assert Now() == after;
    }

    method SolveCameBack(j: nat, dropped: set<Id>, failed: bool)
      requires Valid() && StageOf(Now(), j).Solving?
      modifies this
      ensures Valid() && Now() == Apply(old(Now()), SolveReturns(j, dropped, failed))
    {
      LooseJobEvent(Now(), SolveReturns(j, dropped, failed), j);
      LooseJobIsOpen(Now(), j);
      var job := window.jobs[j];
      var gone := dropped * job.kept;
      RejectEach(gone);
      if failed {
        RetryEach((job.kept - gone) * InState(orders, Pending), MAX_ATTEMPTS, false);
        window := Running(window.ready, window.jobs[j := Job({}, Done)]);
      } else {
        window := Running(window.ready, window.jobs[j := Job(job.kept - gone, Drying)]);
      }
    }

    method DryRunCameBack(j: nat, ok: bool)
      requires Valid() && StageOf(Now(), j).Drying?
      modifies this
      ensures Valid() && Now() == Apply(old(Now()), DryRunReturns(j, ok))
    {
      LooseJobEvent(Now(), DryRunReturns(j, ok), j);
      LooseJobIsOpen(Now(), j);
      var job := window.jobs[j];
      if !ok {
        RetryEach(job.kept, MAX_ATTEMPTS, false);
        window := Running(window.ready, window.jobs[j := Job({}, Done)]);
      } else {
        window := Running(window.ready, window.jobs[j := Job(job.kept, Sending)]);
      }
    }

    method SendCameBack(j: nat, tx: Option<Tx>, until: int)
      requires Valid() && StageOf(Now(), j).Sending?
      modifies this
      ensures Valid() && Now() == Apply(old(Now()), SendReturns(j, tx, until))
    {
      LooseJobEvent(Now(), SendReturns(j, tx, until), j);
      LooseJobIsOpen(Now(), j);
      var job := window.jobs[j];
      match tx {
        case None =>
          pausedUntil := until;
          RetryEach(job.kept, 2 * MAX_ATTEMPTS, false);
          window := Running(window.ready, window.jobs[j := Job({}, Done)]);
        case Some(t) =>
          SetEach(job.kept, Settling(t));
          window := Running(window.ready, window.jobs[j := Job(job.kept, Mining(t))]);
      }
    }

    method ReceiptCameBack(j: nat, receipt: Receipt)
      requires Valid() && StageOf(Now(), j).Mining?
      modifies this
      ensures Valid() && Now() == Apply(old(Now()), ReceiptReturns(j, receipt))
    {
      LooseJobEvent(Now(), ReceiptReturns(j, receipt), j);
      LooseJobIsOpen(Now(), j);
      var job := window.jobs[j];
      match receipt {
        case Unreadable =>
        case Mined(true) => FillEach(job.kept);
        case _ => RetryEach(job.kept, MAX_ATTEMPTS, true);
      }
      window := Running(window.ready, window.jobs[j := Job({}, Done)]);
    }

    method PairThrew(j: nat)
      requires Valid() && !StageOf(Now(), j).Done?
      modifies this
      ensures Valid() && Now() == Apply(old(Now()), PairThrows(j))
    {
      LooseJobEvent(Now(), PairThrows(j), j);
      window := Running(window.ready, window.jobs[j := Job({}, Done)]);
    }

    method CloseWindow(now: int)
      requires Valid() && window.Running? && forall j :: 0 <= j < |window.jobs| ==> window.jobs[j].stage == Done
      modifies this
      ensures Valid() && Now() == Apply(old(Now()), TickEnds(now)) && window.Idle? && inFlight == {}
    {
      ghost var before := Now();
      ClosedIsIdle(before, now);
      var stale := Stale(orders, now);
      hide Loose, InState, Stale, EndTick, Closed;
      Forget(stale);
      assert Now() == EndTick(before, now);
    }

    /** The end of tick: nothing stays in flight, and finished orders leave memory. */
    method Forget(stale: set<Id>)
      requires window.Running?
      modifies this
      ensures Now() == Closed(old(Now()), stale)
    {
      forgotten := Stats(forgotten.received + |stale|,
                         forgotten.rejected + |InState(orders, Rejected) * stale|,
                         forgotten.filled + |InState(orders, Filled) * stale|,
                         forgotten.expired + |InState(orders, Expired) * stale|);
      inFlight := inFlight - window.ready;
      window := Idle;
      orders := orders - stale;
    }
  }
}
