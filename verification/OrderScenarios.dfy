// Runs from the empty state in which the life of an order goes wrong: one that
// is never settled, and two in which a filled order starts over.
module OrderScenarios {
  import opened Common
  import opened OrderBook
  import opened OrderRuns

  const LATER := 1_000_000

  /** Order 7, alone in memory. */
  function Holding(status: Status, attempts: nat): Orders {
    map[7 := Entry(status, attempts, LATER, 0)]
  }

  function Alone(status: Status): Orders {
    Holding(status, 0)
  }

  /** A window that takes order 7 up to its dry run, */
  function UpToDryRun(): seq<Event> {
    [TickBegins(0), DepositsChecked({}, [{7}], 0), SolveReturns(0, {}, false)]
  }

  /** on to its transaction, */
  function UpToSend(tx: Tx): seq<Event> {
    UpToDryRun() + ([DryRunReturns(0, true)] + [SendReturns(0, Some(tx), 0)])
  }

  /** or to a dry run that fails, and the window's end. */
  function Refusal(): seq<Event> {
    UpToDryRun() + ([DryRunReturns(0, false)] + [TickEnds(0)])
  }

  lemma {:induction false} RunAppend(s: State, xs: seq<Event>, ys: seq<Event>)
    ensures Run(s, xs + ys) == Run(Run(s, xs), ys)
    ensures AllAllowed(s, xs + ys) <==> AllAllowed(s, xs) && AllAllowed(Run(s, xs), ys)
    ensures NoRace(s, xs + ys) <==> NoRace(s, xs) && NoRace(Run(s, xs), ys)
    decreases |xs|
  {
    hide Apply, Allowed, Races;
    if xs == [] {
      assert xs + ys == ys;
    } else {
      assert (xs + ys)[1..] == xs[1..] + ys;
      RunAppend(Apply(s, xs[0]), xs[1..], ys);
    }
  }

  lemma RunOne(s: State, e: Event)
    ensures Run(s, [e]) == Apply(s, e) && (AllAllowed(s, [e]) <==> Allowed(s, e)) && (NoRace(s, [e]) <==> !Races(s, e))
  {
    hide Apply, Allowed, Races;
    assert NoRace(Apply(s, e), []) && AllAllowed(Apply(s, e), []);
    assert [e][1..] == [];
    assert Run(Apply(s, e), []) == Apply(s, e);
  }

  lemma DryAlone(s: State, k: nat)
    requires s.window.Idle? && s.inFlight == {} && s.pausedUntil <= 0 && s.orders == Holding(Pending, k)
    ensures AllAllowed(s, UpToDryRun())
    ensures Run(s, UpToDryRun()) == s.(inFlight := {7}, window := Running({7}, [Job({7}, Drying)]))
  {
    var all := UpToDryRun();
    var s1 := s.(window := Checking({7}, {}, {}));
    var s2 := s.(inFlight := {7}, window := Running({7}, [Job({7}, Solving)]));
    WindowOpens(s, k);
    PairStarts(s1);
    NothingDropped(s2);
    hide Apply, Allowed, Run, AllAllowed, NoRace, Races;
    assert all == [all[0]] + ([all[1]] + [all[2]]);
    NoCheckAllowed(s2, all[2]);
    RunOne(s, all[0]);
    RunOne(s1, all[1]);
    RunOne(s2, all[2]);
    RunAppend(s1, [all[1]], [all[2]]);
    RunAppend(s, [all[0]], [all[1]] + [all[2]]);
  }

  lemma SentAlone(s: State, tx: Tx)
    requires s.window.Idle? && s.inFlight == {} && s.pausedUntil <= 0 && s.orders == Alone(Pending)
    ensures AllAllowed(s, UpToSend(tx))
    ensures Run(s, UpToSend(tx)) == s.(orders := Alone(Settling(tx)), inFlight := {7}, window := Running({7}, [Job({7}, Mining(tx))]))
  {
    var dry, send := DryRunReturns(0, true), SendReturns(0, Some(tx), 0);
    DryAlone(s, 0);
    var s3 := Run(s, UpToDryRun());
    var s4 := s3.(window := Running({7}, [Job({7}, Sending)]));
    GoesToSend(s3, s4, s3.(orders := Alone(Settling(tx)), window := Running({7}, [Job({7}, Mining(tx))])), tx);
    hide Apply, Allowed, Run, AllAllowed, NoRace, Races, UpToDryRun;
    NoCheckAllowed(s3, dry);
    NoCheckAllowed(s4, send);
    RunOne(s3, dry);
    RunOne(s4, send);
    RunAppend(s3, [dry], [send]);
    RunAppend(s, UpToDryRun(), [dry] + [send]);
  }

  lemma GoesToSend(s3: State, s4: State, s5: State, tx: Tx)
    requires s3.window == Running({7}, [Job({7}, Drying)]) && s4 == s3.(window := Running({7}, [Job({7}, Sending)]))
    requires s3.orders == Alone(Pending)
    requires s5 == s3.(orders := Alone(Settling(tx)), window := Running({7}, [Job({7}, Mining(tx))]))
    ensures Apply(s3, DryRunReturns(0, true)) == s4 && Apply(s4, SendReturns(0, Some(tx), 0)) == s5
  {
    assert SetStatus(s4.orders, {7}, Settling(tx)) == Alone(Settling(tx));
    hide SetStatus;
    assert s3.window.jobs[0 := Job({7}, Sending)] == [Job({7}, Sending)];
    assert s4.window.jobs[0 := Job({7}, Mining(tx))] == [Job({7}, Mining(tx))];
  }

  lemma WindowOpens(s: State, k: nat)
    requires s.window.Idle? && s.inFlight == {} && s.orders == Holding(Pending, k)
    ensures Apply(s, TickBegins(0)) == s.(window := Checking({7}, {}, {})) && Allowed(s, TickBegins(0))
  {
    assert Late(s.orders, 0) == {};
    assert SetStatus(s.orders, {}, Expired) == s.orders;
    var pending, waiting := InState(s.orders, Pending), InState(s.orders, AwaitingDeposit);
    assert pending == {7} && waiting == {};
    assert pending - s.inFlight == {7} && waiting - s.inFlight == {};
    assert s.stats.(expired := s.stats.expired + 0) == s.stats;
    hide Late, SetStatus, InState;
    assert BeginTick(s, 0) == s.(orders := s.orders, stats := s.stats, window := Checking({7}, {}, {}));
  }

  lemma PairStarts(s: State)
    requires s.window == Checking({7}, {}, {}) && s.inFlight == {} && s.pausedUntil <= 0
    ensures Apply(s, DepositsChecked({}, [{7}], 0)) == s.(inFlight := {7}, window := Running({7}, [Job({7}, Solving)]))
    ensures Allowed(s, DepositsChecked({}, [{7}], 0))
  {
    var groups: seq<set<Id>> := [{7}];
    assert groups[1..] == [];
    assert Union(groups) == {7};
    var none: set<Id> := {};
    assert {7} + none * none == {7} && none * none - none == none;
    assert SetStatus(s.orders, {}, Pending) == s.orders;
    assert Solvers(groups) == [Job({7}, Solving)];
  }

  lemma NothingDropped(s: State)
    requires s.window == Running({7}, [Job({7}, Solving)])
    ensures Apply(s, SolveReturns(0, {}, false)) == s.(window := Running({7}, [Job({7}, Drying)]))
  {
    var none, kept: set<Id> := {}, {7};
    assert none * kept == none && kept - none == kept;
    assert SetStatus(s.orders, none, Rejected) == s.orders && s.inFlight - none == s.inFlight;
    assert s.stats.(rejected := s.stats.rejected + 0) == s.stats;
    hide SetStatus;
    assert Reject(s, none) == s;
    assert s.window.jobs[0 := Job(kept, Drying)] == [Job(kept, Drying)];
  }

  /** Two intake calls of order 7 pass the check before either stores it; the first one does. */
  function TwoCalls(): seq<Event> {
    [IntakeChecks(7), IntakeChecks(7), IntakeStores(7, false, LATER, 0)]
  }

  lemma TwoCallsRun()
    ensures AllAllowed(EMPTY, TwoCalls()) && NoRace(EMPTY, TwoCalls())
    ensures Run(EMPTY, TwoCalls())
         == EMPTY.(orders := Alone(Pending), checked := multiset{7}, stats := Stats(1, 0, 0, 0))
  {
    var all := TwoCalls();
    var s1, s2 := EMPTY.(checked := multiset{7}), EMPTY.(checked := multiset{7, 7});
    var s3 := EMPTY.(orders := Alone(Pending), checked := multiset{7}, stats := Stats(1, 0, 0, 0));
    assert multiset{7} + multiset{7} == multiset{7, 7} && multiset{7, 7} - multiset{7} == multiset{7};
    assert Apply(EMPTY, all[0]) == s1 && Apply(s1, all[1]) == s2 && Apply(s2, all[2]) == s3;
    assert !Races(s2, all[2]);
    hide Apply, Run, AllAllowed, NoRace;
    assert all == [all[0]] + ([all[1]] + [all[2]]);
    RunOne(EMPTY, all[0]);
    RunOne(s1, all[1]);
    RunOne(s2, all[2]);
    RunAppend(s1, [all[1]], [all[2]]);
    RunAppend(EMPTY, [all[0]], [all[1]] + [all[2]]);
  }

  /** A pair whose receipt cannot be read: order 7 settles for ever. */
  lemma OrphanRun()
    ensures var events := TwoCalls() + (UpToSend(1) + [ReceiptReturns(0, Unreadable)]);
            && AllAllowed(EMPTY, events) && NoRace(EMPTY, events)
            && Orphans(Run(EMPTY, events)) == {7}
  {
    var s1, last := Run(EMPTY, TwoCalls()), ReceiptReturns(0, Unreadable);
    TwoCallsRun();
    SendStoresNothing(s1, last);
    hide Apply, Allowed, NoRace, Orphans, Run, AllAllowed, UpToSend, TwoCalls;
    SentAlone(s1, 1);
    var s2 := Run(s1, UpToSend(1));
    OrphanedAlone(s2);
    NoCheckAllowed(s2, last);
    RunOne(s2, last);
    RunAppend(s1, UpToSend(1), [last]);
    RunAppend(EMPTY, TwoCalls(), UpToSend(1) + [last]);
  }

  lemma SendStoresNothing(s: State, last: Event)
    requires !last.IntakeStores?
    ensures NoRace(s, UpToSend(1) + [last])
  {
    NoStoreNoRace(s, UpToSend(1) + [last]);
  }

  lemma NoCheckAllowed(s: State, e: Event)
    requires !e.DepositsChecked?
    ensures Allowed(s, e)
  {
  }

  lemma OrphanedAlone(s: State)
    requires s.orders == Alone(Settling(1)) && s.window == Running({7}, [Job({7}, Mining(1))])
    ensures Orphans(Apply(s, ReceiptReturns(0, Unreadable))) == {7}
  {
    var s' := Apply(s, ReceiptReturns(0, Unreadable));
    assert s'.orders == s.orders && s'.window.jobs == [Job({}, Done)];
  }

  lemma {:induction false} NoStoreNoRace(s: State, events: seq<Event>)
    requires forall e <- events :: !e.IntakeStores?
    ensures NoRace(s, events)
    decreases |events|
  {
    if events != [] {
      assert events[0] in events;
      NoStoreNoRace(Apply(s, events[0]), events[1..]);
    }
  }

  /** Up to a settlement of order 7 by the first call's store, */
  function FilledOnce(): seq<Event> {
    TwoCalls() + (UpToSend(1) + [ReceiptReturns(0, Mined(true))])
  }

  /** and the second call's, which makes it pending. */
  function StoredOver(): seq<Event> {
    FilledOnce() + ([IntakeStores(7, false, LATER, 0)] + [TickEnds(0)])
  }

  lemma FilledOnceRun()
    ensures AllAllowed(EMPTY, FilledOnce())
    ensures Run(EMPTY, FilledOnce())
         == EMPTY.(orders := Alone(Filled), window := Running({7}, [Job({}, Done)]), checked := multiset{7}, stats := Stats(1, 0, 1, 0))
  {
    var filled := ReceiptReturns(0, Mined(true));
    var s1 := Run(EMPTY, TwoCalls());
    TwoCallsRun();
    SentAlone(s1, 1);
    var s2 := Run(s1, UpToSend(1));
    FillAlone(s2, 1);
    hide Apply, Allowed, Run, AllAllowed, NoRace, Races, UpToSend, TwoCalls;
    NoCheckAllowed(s2, filled);
    RunOne(s2, filled);
    RunAppend(s1, UpToSend(1), [filled]);
    RunAppend(EMPTY, TwoCalls(), UpToSend(1) + [filled]);
  }

  lemma StoredOverRun()
    ensures AllAllowed(EMPTY, StoredOver())
    ensures var s := Run(EMPTY, StoredOver());
            && s.orders == Alone(Pending) && s.inFlight == {} && s.window.Idle? && s.pausedUntil == 0
            && s.stats == Stats(2, 0, 1, 0)
  {
    var store, ends := IntakeStores(7, false, LATER, 0), TickEnds(0);
    FilledOnceRun();
    var s3 := Run(EMPTY, FilledOnce());
    StoredAgain(s3);
    hide Apply, Allowed, Run, AllAllowed, NoRace, Races, FilledOnce;
    NoCheckAllowed(s3, store);
    NoCheckAllowed(Apply(s3, store), ends);
    RunOne(s3, store);
    RunOne(Apply(s3, store), ends);
    RunAppend(s3, [store], [ends]);
    RunAppend(EMPTY, FilledOnce(), [store] + [ends]);
  }

  /** A racing intake: order 7 is filled, pending again, and, if the dry run passes, filled again, which the counter counts twice. */
  lemma FilledTwice()
    ensures var twice := StoredOver() + (UpToSend(2) + [ReceiptReturns(0, Mined(true))]);
            && AllAllowed(EMPTY, twice)
            && Run(EMPTY, FilledOnce()).orders == Alone(Filled)
            && Run(EMPTY, StoredOver()).orders == Alone(Pending)
            && Run(EMPTY, twice).orders == Alone(Filled) && Run(EMPTY, twice).stats == Stats(2, 0, 2, 0)
  {
    var filled := ReceiptReturns(0, Mined(true));
    FilledOnceRun();
    StoredOverRun();
    var s4 := Run(EMPTY, StoredOver());
    SentAlone(s4, 2);
    var s5 := Run(s4, UpToSend(2));
    FillAlone(s5, 2);
    hide Apply, Allowed, Run, AllAllowed, NoRace, Races, UpToSend, StoredOver, FilledOnce;
    NoCheckAllowed(s5, filled);
    RunOne(s5, filled);
    RunAppend(s4, UpToSend(2), [filled]);
    RunAppend(EMPTY, StoredOver(), UpToSend(2) + [filled]);
  }

  /** One window whose dry run fails, the settlement contract refusing the used nonce. */
  lemma RefusedOnce(s: State, k: nat)
    requires s.window.Idle? && s.inFlight == {} && s.pausedUntil <= 0 && s.orders == Holding(Pending, k) && k < 3
    ensures AllAllowed(s, Refusal())
    ensures var s' := Run(s, Refusal());
            && s'.orders == Holding(if k == 2 then Rejected else Pending, k + 1)
            && s'.inFlight == {} && s'.window.Idle? && s'.pausedUntil == s.pausedUntil
            && s'.stats == s.stats.(rejected := s.stats.rejected + if k == 2 then 1 else 0)
  {
    var fails, ends := DryRunReturns(0, false), TickEnds(0);
    DryAlone(s, k);
    var s3 := Run(s, UpToDryRun());
    RetriedAlone(s3, k);
    var s4 := Apply(s3, fails);
    WindowCloses(s4, k + 1);
    hide Apply, Allowed, Run, AllAllowed, NoRace, Races, UpToDryRun;
    NoCheckAllowed(s3, fails);
    NoCheckAllowed(s4, ends);
    RunOne(s3, fails);
    RunOne(s4, ends);
    RunAppend(s3, [fails], [ends]);
    RunAppend(s, UpToDryRun(), [fails] + [ends]);
  }

  lemma RetriedAlone(s: State, k: nat)
    requires s.orders == Holding(Pending, k) && s.inFlight == {7} && s.window == Running({7}, [Job({7}, Drying)]) && k < 3
    ensures Apply(s, DryRunReturns(0, false))
         == s.(orders := Holding(if k == 2 then Rejected else Pending, k + 1), inFlight := {}, window := Running({7}, [Job({}, Done)]),
               stats := s.stats.(rejected := s.stats.rejected + if k == 2 then 1 else 0))
  {
    var kept: set<Id> := {7};
    assert Attempted(s.orders, kept, MAX_ATTEMPTS, false) == Holding(if k == 2 then Rejected else Pending, k + 1);
    assert Exhausted(s.orders, kept, MAX_ATTEMPTS) == if k == 2 then kept else {};
    assert kept - kept == {} && |kept| == 1;
    assert s.window.jobs[0 := Job({}, Done)] == [Job({}, Done)];
  }

  lemma NothingStale(orders: Orders, k: nat)
    requires orders == Holding(Pending, k) || orders == Holding(Rejected, k)
    ensures Stale(orders, 0) == {}
  {
  }

  lemma WindowCloses(s: State, k: nat)
    requires s.inFlight == {} && s.window == Running({7}, [Job({}, Done)])
    requires s.orders == Holding(Pending, k) || s.orders == Holding(Rejected, k)
    ensures var s' := Apply(s, TickEnds(0));
            s'.orders == s.orders && s'.inFlight == {} && s'.window.Idle? && s'.pausedUntil == s.pausedUntil && s'.stats == s.stats
  {
    NothingStale(s.orders, k);
    hide Stale, InState, Holding;
    assert s.orders - {} == s.orders;
  }

  /** The same race when the dry run fails from then on: the filled order ends rejected, and is counted as both. */
  lemma FilledThenRejected()
    ensures var events := StoredOver() + (Refusal() + (Refusal() + Refusal()));
            && AllAllowed(EMPTY, events)
            && Run(EMPTY, FilledOnce()).orders == Alone(Filled)
            && Run(EMPTY, events).orders == Holding(Rejected, 3) && Run(EMPTY, events).stats == Stats(2, 1, 1, 0)
  {
    FilledOnceRun();
    StoredOverRun();
    hide Apply, Allowed, Run, AllAllowed, NoRace, Races, Refusal, StoredOver, FilledOnce;
    var s4 := Run(EMPTY, StoredOver());
    RefusedOnce(s4, 0);
    var s5 := Run(s4, Refusal());
    RefusedOnce(s5, 1);
    var s6 := Run(s5, Refusal());
    RefusedOnce(s6, 2);
    RunAppend(s5, Refusal(), Refusal());
    RunAppend(s4, Refusal(), Refusal() + Refusal());
    RunAppend(EMPTY, StoredOver(), Refusal() + (Refusal() + Refusal()));
  }

  lemma FillAlone(s: State, tx: Tx)
    requires s.orders == Alone(Settling(tx)) && s.inFlight == {7} && s.window == Running({7}, [Job({7}, Mining(tx))])
    ensures Apply(s, ReceiptReturns(0, Mined(true)))
         == s.(orders := Alone(Filled), inFlight := {}, window := Running({7}, [Job({}, Done)]),
               stats := s.stats.(filled := s.stats.filled + 1))
  {
    var kept: set<Id> := {7};
    assert SetStatus(s.orders, kept, Filled) == Alone(Filled);
    assert kept - kept == {} && |kept| == 1;
    assert s.window.jobs[0 := Job({}, Done)] == [Job({}, Done)];
  }

  lemma StoredAgain(s: State)
    requires s.orders == Alone(Filled) && s.inFlight == {} && s.window == Running({7}, [Job({}, Done)]) && s.checked == multiset{7}
    ensures var s' := Apply(Apply(s, IntakeStores(7, false, LATER, 0)), TickEnds(0));
            && s'.orders == Alone(Pending) && s'.inFlight == {} && s'.window.Idle? && s'.pausedUntil == s.pausedUntil
            && s'.stats == s.stats.(received := s.stats.received + 1)
  {
    var s1 := Apply(s, IntakeStores(7, false, LATER, 0));
    assert s1.orders == Alone(Pending);
    assert Stale(s1.orders, 0) == {};
    assert s1.orders - {} == s1.orders;
  }
}
