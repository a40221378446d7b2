// Every run of the order book: what holds whatever happens, what holds as long
// as intake calls of one hash do not overlap, and the runs in which it fails.
module OrderRuns {
  import opened Common
  import opened OrderBook

  // -------------------------------------------------------- every run

  function Run(s: State, events: seq<Event>): State
    decreases |events|
  {
    if events == [] then s else Run(Apply(s, events[0]), events[1..])
  }

  ghost predicate AllAllowed(s: State, events: seq<Event>)
    decreases |events|
  {
    events != [] ==> Allowed(s, events[0]) && AllAllowed(Apply(s, events[0]), events[1..])
  }

  /** No two intake calls of the same hash overlap. */
  ghost predicate NoRace(s: State, events: seq<Event>)
    decreases |events|
  {
    events != [] ==> !Races(s, events[0]) && NoRace(Apply(s, events[0]), events[1..])
  }

  lemma {:induction false} RunKeeps(s: State, events: seq<Event>)
    requires Inv(s) && AllAllowed(s, events) && NoRace(s, events)
    ensures Inv(Run(s, events))
    decreases |events|
  {
    hide Inv, Apply, Races;
    if events != [] {
      ApplyKeeps(s, events[0]);
      RunKeeps(Apply(s, events[0]), events[1..]);
    }
  }

  // ------------------------------------ what holds even when intakes race

  /** The orders of a job are remembered, in flight and not finished. */
  ghost predicate JobLoose(orders: Orders, inFlight: set<Id>, job: Job) {
    job.kept <= inFlight && AllOpen(orders, job.kept) && (job.stage.Done? ==> job.kept == {})
  }

  ghost predicate LooseWindow(s: State) {
    match s.window
    case Idle => s.inFlight == {}
    case Checking(ready, checks, _) => s.inFlight == {} && forall id <- ready + checks :: id in s.orders && Open(s.orders[id])
    case Running(ready, jobs) =>
      && s.inFlight <= ready
      && (forall j :: 0 <= j < |jobs| ==> JobLoose(s.orders, s.inFlight, jobs[j]))
      && (forall i, j :: 0 <= i < j < |jobs| ==> jobs[i].kept !! jobs[j].kept)
  }

  ghost predicate Loose(s: State) {
    EntriesOk(s.orders) && LooseWindow(s)
  }

  /** Final statuses are kept until the order is forgotten. */
  ghost predicate EndsKept(before: Orders, after: Orders) {
    forall id <- before :: Terminal(before[id].status) && id in after ==> after[id] == before[id]
  }

  /** A step of job j that deals with its own orders only. */
  lemma LooseJobStep(s: State, s': State, j: nat, job: Job)
    requires Loose(s) && HasJob(s, j) && s'.window == WithJob(s, j, job).window
    requires s'.orders.Keys == s.orders.Keys
    requires forall id <- s.orders :: id !in s.window.jobs[j].kept ==> s'.orders[id] == s.orders[id]
    requires forall id <- s.window.jobs[j].kept :: id in s'.orders && EntryOk(s'.orders[id])
    requires s.inFlight - s.window.jobs[j].kept <= s'.inFlight <= s.inFlight
    requires job.kept <= s.window.jobs[j].kept && JobLoose(s'.orders, s'.inFlight, job)
    ensures Loose(s') && EndsKept(s.orders, s'.orders)
  {
    var jobs := s.window.jobs;
    assert JobLoose(s.orders, s.inFlight, jobs[j]);
    forall i | 0 <= i < |jobs| && i != j ensures JobLoose(s'.orders, s'.inFlight, jobs[i]) {
      assert jobs[i].kept !! jobs[j].kept;
      assert JobLoose(s.orders, s.inFlight, jobs[i]);
    }
  }

  lemma RetryLoose(orders: Orders, ids: set<Id>, limit: nat, revive: bool)
    requires EntriesOk(orders) && AllOpen(orders, ids) && 1 <= limit <= 2 * MAX_ATTEMPTS
    ensures var orders' := Attempted(orders, ids, limit, revive);
            && orders'.Keys == orders.Keys && EntriesOk(orders')
            && (forall id <- orders :: id !in ids ==> orders'[id] == orders[id])
  {
  }

  lemma SetLoose(orders: Orders, ids: set<Id>, status: Status)
    requires EntriesOk(orders) && AllOpen(orders, ids)
    ensures var orders' := SetStatus(orders, ids, status);
            && orders'.Keys == orders.Keys && EntriesOk(orders')
            && (forall id <- orders :: orders'[id] == if id in ids then orders[id].(status := status) else orders[id])
  {
  }

  lemma LooseReject(s: State, j: nat, gone: set<Id>, stage: Stage)
    requires Loose(s) && HasJob(s, j) && gone <= s.window.jobs[j].kept && !stage.Done?
    ensures var s' := WithJob(Reject(s, gone), j, Job(s.window.jobs[j].kept - gone, stage));
            Loose(s') && EndsKept(s.orders, s'.orders) && s'.orders.Keys == s.orders.Keys
  {
    JobIsLoose(s, j);
    SetLoose(s.orders, gone, Rejected);
    hide SetStatus, Loose;
    var kept := s.window.jobs[j].kept;
    LooseJobStep(s, WithJob(Reject(s, gone), j, Job(kept - gone, stage)), j, Job(kept - gone, stage));
  }

  lemma LooseRetry(s: State, j: nat, ids: set<Id>)
    requires Loose(s) && HasJob(s, j) && ids <= s.window.jobs[j].kept
    ensures var s' := WithJob(Retry(s, ids, MAX_ATTEMPTS, false), j, Job({}, Done)); Loose(s') && EndsKept(s.orders, s'.orders)
  {
    JobIsLoose(s, j);
    RetryLoose(s.orders, ids, MAX_ATTEMPTS, false);
    hide Attempted, Exhausted, Loose;
    LooseJobStep(s, WithJob(Retry(s, ids, MAX_ATTEMPTS, false), j, Job({}, Done)), j, Job({}, Done));
  }

  lemma EndsKeptTwice(x: Orders, y: Orders, z: Orders)
    requires EndsKept(x, y) && EndsKept(y, z) && x.Keys == y.Keys
    ensures EndsKept(x, z)
  {
  }

  lemma LooseSolveFailed(s: State, j: nat, gone: set<Id>, again: set<Id>)
    requires Loose(s) && HasJob(s, j) && gone <= s.window.jobs[j].kept && again <= s.window.jobs[j].kept - gone
    ensures var s' := WithJob(Retry(Reject(s, gone), again, MAX_ATTEMPTS, false), j, Job({}, Done));
            Loose(s') && EndsKept(s.orders, s'.orders)
  {
    hide Loose, EndsKept, Attempted, Exhausted, SetStatus, InState;
    var kept := s.window.jobs[j].kept - gone;
    LooseReject(s, j, gone, Solving);
    var mid := WithJob(Reject(s, gone), j, Job(kept, Solving));
    LooseRetry(mid, j, again);
    var s' := WithJob(Retry(mid, again, MAX_ATTEMPTS, false), j, Job({}, Done));
    EndsKeptTwice(s.orders, mid.orders, s'.orders);
    JobTwice(Retry(Reject(s, gone), again, MAX_ATTEMPTS, false), j, Job(kept, Solving), Job({}, Done));
    assert Retry(mid, again, MAX_ATTEMPTS, false) == WithJob(Retry(Reject(s, gone), again, MAX_ATTEMPTS, false), j, Job(kept, Solving));
  }

  lemma LooseSolve(s: State, j: nat, dropped: set<Id>, failed: bool)
    requires Loose(s) && StageOf(s, j).Solving?
    ensures var s' := Apply(s, SolveReturns(j, dropped, failed)); Loose(s') && EndsKept(s.orders, s'.orders)
  {
    hide Loose, EndsKept, Reject, Retry, InState, WithJob;
    var job := s.window.jobs[j];
    var gone := dropped * job.kept;
    if failed {
      LooseSolveFailed(s, j, gone, (job.kept - gone) * InState(Reject(s, gone).orders, Pending));
    } else {
      LooseReject(s, j, gone, Drying);
    }
  }

  lemma LooseDryRun(s: State, j: nat, ok: bool)
    requires Loose(s) && StageOf(s, j).Drying?
    ensures var s' := Apply(s, DryRunReturns(j, ok)); Loose(s') && EndsKept(s.orders, s'.orders)
  {
    var job, s' := s.window.jobs[j], Apply(s, DryRunReturns(j, ok));
    JobIsLoose(s, j);
    RetryLoose(s.orders, job.kept, MAX_ATTEMPTS, false);
    hide Attempted, Exhausted, Loose;
    LooseJobStep(s, s', j, s'.window.jobs[j]);
  }

  lemma LooseSend(s: State, j: nat, tx: Option<Tx>, until: int)
    requires Loose(s) && StageOf(s, j).Sending?
    ensures var s' := Apply(s, SendReturns(j, tx, until)); Loose(s') && EndsKept(s.orders, s'.orders)
  {
    var job, s' := s.window.jobs[j], Apply(s, SendReturns(j, tx, until));
    JobIsLoose(s, j);
    RetryLoose(s.orders, job.kept, 2 * MAX_ATTEMPTS, false);
    if tx.Some? { SetLoose(s.orders, job.kept, Settling(tx.value)); }
    hide Attempted, Exhausted, SetStatus, Loose;
    LooseJobStep(s, s', j, s'.window.jobs[j]);
  }

  lemma LooseReceipt(s: State, j: nat, receipt: Receipt)
    requires Loose(s) && StageOf(s, j).Mining?
    ensures var s' := Apply(s, ReceiptReturns(j, receipt)); Loose(s') && EndsKept(s.orders, s'.orders)
  {
    var job, s' := s.window.jobs[j], Apply(s, ReceiptReturns(j, receipt));
    JobIsLoose(s, j);
    RetryLoose(s.orders, job.kept, MAX_ATTEMPTS, true);
    SetLoose(s.orders, job.kept, Filled);
    hide Attempted, Exhausted, SetStatus, Loose;
    LooseJobStep(s, s', j, s'.window.jobs[j]);
  }

  lemma LooseThrow(s: State, j: nat)
    requires Loose(s) && !StageOf(s, j).Done?
    ensures var s' := Apply(s, PairThrows(j)); Loose(s') && EndsKept(s.orders, s'.orders)
  {
    JobIsLoose(s, j);
    LooseJobStep(s, Apply(s, PairThrows(j)), j, Job({}, Done));
  }

  /** Every job event deals with the orders of its job. */
  lemma LooseJobEvent(s: State, e: Event, j: nat)
    requires Loose(s) && IsJobEvent(e) && e.job == j
    ensures Loose(Apply(s, e)) && EndsKept(s.orders, Apply(s, e).orders)
  {
    match e
    case SolveReturns(_, dropped, failed) => if StageOf(s, j).Solving? { LooseSolve(s, j, dropped, failed); }
    case DryRunReturns(_, ok) => if StageOf(s, j).Drying? { LooseDryRun(s, j, ok); }
    case SendReturns(_, tx, until) => if StageOf(s, j).Sending? { LooseSend(s, j, tx, until); }
    case ReceiptReturns(_, receipt) => if StageOf(s, j).Mining? { LooseReceipt(s, j, receipt); }
    case PairThrows(_) => if !StageOf(s, j).Done? { LooseThrow(s, j); }
    hide Loose, Solved, DryRun, Sent, Settled, WithJob;
  }

  lemma JobIsLoose(s: State, j: nat)
    requires Loose(s) && HasJob(s, j)
    ensures EntriesOk(s.orders) && JobLoose(s.orders, s.inFlight, s.window.jobs[j])
  {
  }

  lemma StoreLoose(s: State, id: Id, deposited: bool, validTo: int, now: int)
    requires Loose(s)
    ensures Loose(Accept(s, id, deposited, validTo, now))
  {
    var s' := Accept(s, id, deposited, validTo, now);
    match s.window
    case Running(_, jobs) =>
      forall i | 0 <= i < |jobs| ensures JobLoose(s'.orders, s'.inFlight, jobs[i]) {
        assert JobLoose(s.orders, s.inFlight, jobs[i]);
      }
    case _ =>
  }

  lemma LaunchLoose(s: State, found: set<Id>, groups: seq<set<Id>>, now: int)
    requires Loose(s) && Allowed(s, DepositsChecked(found, groups, now))
    ensures Loose(Launch(s, found, groups, now)) && EndsKept(s.orders, Launch(s, found, groups, now).orders)
  {
    match s.window
    case Checking(ready, checks, replaced) =>
      var all, s' := ready + found * checks, Launch(s, found, groups, now);
      SetLoose(s.orders, found * checks - replaced, Pending);
      hide SetStatus;
      if s'.window.Running? {
        forall i | 0 <= i < |groups| ensures JobLoose(s'.orders, s'.inFlight, s'.window.jobs[i]) {
          UnionHolds(groups, i);
        }
      }
    case _ =>
  }

  lemma BeginTickLoose(s: State, now: int)
    requires Loose(s)
    ensures Loose(BeginTick(s, now)) && EndsKept(s.orders, BeginTick(s, now).orders)
  {
    SetLoose(s.orders, Late(s.orders, now), Expired);
    hide SetStatus;
  }

  lemma LooseKeeps(s: State, e: Event)
    requires Loose(s) && Allowed(s, e)
    ensures Loose(Apply(s, e))
    ensures !Stores(s, e) ==> EndsKept(s.orders, Apply(s, e).orders)
    ensures Stores(s, e) ==> Apply(s, e).orders == s.orders[e.id := NewEntry(e.deposited, e.validTo, e.at)]
  {
    if IsJobEvent(e) {
      LooseJobEvent(s, e, e.job);
    } else {
      match e
      case IntakeStores(id, deposited, validTo, at) => StoreLoose(s, id, deposited, validTo, at);
      case TickBegins(at) => BeginTickLoose(s, at);
      case DepositsChecked(found, groups, at) => LaunchLoose(s, found, groups, at);
      case TickEnds(at) => EndTickLoose(s, at);
      case IntakeChecks(id) => OnlyCheckedLoose(s, Check(s, id).checked);
      case IntakeFails(id) => OnlyCheckedLoose(s, s.checked - multiset{id});
      case _ =>
    }
    hide Loose, Launch, BeginTick, EndTick, EndsKept, Solved, DryRun, Sent, Settled;
  }

  lemma EndTickLoose(s: State, now: int)
    requires Loose(s)
    ensures Loose(EndTick(s, now)) && EndsKept(s.orders, EndTick(s, now).orders)
  {
    hide Stale, InState;
  }

  lemma OnlyCheckedLoose(s: State, checked: multiset<Id>)
    requires Loose(s)
    ensures Loose(s.(checked := checked)) && EndsKept(s.orders, s.orders)
  {
  }

  lemma {:induction false} LooseRun(s: State, events: seq<Event>)
    requires Loose(s) && AllAllowed(s, events)
    ensures Loose(Run(s, events))
    decreases |events|
  {
    hide Loose, Apply;
    if events != [] {
      LooseKeeps(s, events[0]);
      LooseRun(Apply(s, events[0]), events[1..]);
    }
  }

  /**
   * After every run, whether or not intake calls race: attempts never exceed
   * six; nothing is in flight between windows; an order is in at most one
   * job, in flight and not finished. As long as no two intake calls of the
   * same hash overlap, an order is also pending until its job is sent and
   * settling in that transaction from then on, and every counter is the
   * number of orders, remembered or forgotten, that ended that way.
   */
  lemma EveryRun(events: seq<Event>)
    requires AllAllowed(EMPTY, events)
    ensures var s := Run(EMPTY, events);
            && (forall id <- s.orders :: s.orders[id].attempts <= 6)
            && (s.window.Idle? ==> s.inFlight == {})
            && (s.window.Running? ==>
                  && (forall i, j :: 0 <= i < j < |s.window.jobs| ==> s.window.jobs[i].kept !! s.window.jobs[j].kept)
                  && (forall j :: 0 <= j < |s.window.jobs| ==> JobLoose(s.orders, s.inFlight, s.window.jobs[j])))
            && (NoRace(EMPTY, events) ==> JobsOk(s) && CountersOk(s))
  {
    LooseRun(EMPTY, events);
    if NoRace(EMPTY, events) { RunKeeps(EMPTY, events); }
  }

  ghost predicate JobsOk(s: State) {
    s.window.Running? ==> forall j :: 0 <= j < |s.window.jobs| ==> JobOk(s.orders, s.inFlight, s.window.jobs[j])
  }

  // ------------------------------------------------- final statuses

  /** From here on the order stays exactly like this for as long as it is remembered. */
  ghost predicate StaysUntilForgotten(s: State, events: seq<Event>, id: Id, e: Entry)
    decreases |events|
  {
    id in s.orders ==> s.orders[id] == e && (events != [] ==> StaysUntilForgotten(Apply(s, events[0]), events[1..], id, e))
  }

  /** While it is remembered, an intake call stores it anew. */
  ghost predicate Restarted(s: State, events: seq<Event>, id: Id)
    decreases |events|
  {
    id in s.orders && events != []
    && ((Stores(s, events[0]) && events[0].id == id) || Restarted(Apply(s, events[0]), events[1..], id))
  }

  /** Filled, rejected and expired are left, in any run, exactly when an intake call that passed its check earlier stores the order anew. */
  lemma {:induction false} FinalIsFinalIff(s: State, events: seq<Event>, id: Id)
    requires Loose(s) && AllAllowed(s, events) && id in s.orders && Terminal(s.orders[id].status)
    ensures StaysUntilForgotten(s, events, id, s.orders[id]) <==> !Restarted(s, events, id)
    decreases |events|
  {
    if events != [] {
      var s' := Apply(s, events[0]);
      LooseKeeps(s, events[0]);
      hide Loose, Apply, EndsKept;
      if Stores(s, events[0]) && events[0].id == id {
        assert !Terminal(s'.orders[id].status);
      } else {
        if id in s'.orders {
          EndKept(s, events[0], id);
          FinalIsFinalIff(s', events[1..], id);
        }
      }
    }
  }

  lemma EndKept(s: State, e: Event, id: Id)
    requires Loose(s) && Allowed(s, e) && !(Stores(s, e) && e.id == id)
    requires id in s.orders && id in Apply(s, e).orders && Terminal(s.orders[id].status)
    ensures Apply(s, e).orders[id] == s.orders[id]
  {
    LooseKeeps(s, e);
    hide Apply;
  }

  // ------------------------------------------------- when intakes race

  /** Some job holds the order and expects another status of it than the one a new entry has. */
  predicate Disturbs(s: State, id: Id, deposited: bool) {
    s.window.Running? && exists j :: 0 <= j < |s.window.jobs| && id in s.window.jobs[j].kept && (deposited || s.window.jobs[j].stage.Mining?)
  }

  /**
   * What a store does to a state in order. The counters stay right, and the
   * whole invariant holds, exactly when no other call of intake has stored
   * the hash since the check; a final status is lost exactly when the order
   * was finished; the jobs are disturbed exactly when one of them holds the
   * order and waits for its receipt, or the new entry awaits a deposit.
   */
  lemma StoreKeepsIff(s: State, e: Event)
    requires Inv(s) && Stores(s, e)
    ensures Inv(Apply(s, e)) <==> !Races(s, e)
    ensures CountersOk(Apply(s, e)) <==> !Races(s, e)
    ensures EndsKept(s.orders, Apply(s, e).orders) <==> !(Races(s, e) && Terminal(s.orders[e.id].status))
    ensures JobsOk(Apply(s, e)) <==> !Disturbs(s, e.id, e.deposited)
  {
    var s' := Apply(s, e);
    StoreDisturbs(s, e);
    if e.id !in s.orders {
      AcceptKeeps(s, e.id, e.deposited, e.validTo, e.at);
    } else {
      assert s'.orders.Keys == s.orders.Keys;
      assert |s'.orders.Keys| == |s'.orders| && |s.orders.Keys| == |s.orders|;
      assert !Terminal(s'.orders[e.id].status);
    }
    hide WindowOk, JobsOk, Disturbs, InState;
  }

  lemma StoreDisturbs(s: State, e: Event)
    requires Inv(s) && Stores(s, e)
    ensures JobsOk(Apply(s, e)) <==> !Disturbs(s, e.id, e.deposited)
  {
    var s' := Apply(s, e);
    hide CountersOk, EntryOk;
    if s.window.Running? {
      var jobs := s.window.jobs;
      forall j | 0 <= j < |jobs|
        ensures JobOk(s'.orders, s'.inFlight, jobs[j]) <==> !(e.id in jobs[j].kept && (e.deposited || jobs[j].stage.Mining?))
      {
        assert JobOk(s.orders, s.inFlight, jobs[j]);
      }
    }
  }

  /** Orders settling in no job: nobody waits for their receipt. */
  function Orphans(s: State): set<Id> {
    set id | id in s.orders && s.orders[id].status.Settling? && !InSomeJob(s, id)
  }

  predicate InSomeJob(s: State, id: Id) {
    s.window.Running? && exists j :: 0 <= j < |s.window.jobs| && id in s.window.jobs[j].kept
  }

  ghost predicate Outside(s: State, id: Id) {
    id in s.orders && s.orders[id].status.Settling?
    && (s.window.Running? ==> forall j :: 0 <= j < |s.window.jobs| ==> id !in s.window.jobs[j].kept)
  }

  lemma OrphanIsOutside(s: State, id: Id)
    ensures id in Orphans(s) <==> Outside(s, id)
  {
  }

  /** Dealing with some orders of a job leaves an outsider outside and unchanged. */
  lemma OtherJobLeaves(s: State, s': State, j: nat, job: Job, id: Id)
    requires Outside(s, id) && HasJob(s, j) && job.kept <= s.window.jobs[j].kept
    requires id in s'.orders && s'.orders[id] == s.orders[id]
    requires s'.window == WithJob(s, j, job).window
    ensures Outside(s', id)
  {
  }

  lemma JobEventLeaves(s: State, e: Event, j: nat, id: Id)
    requires Outside(s, id)
    requires IsJobEvent(e) && e.job == j
    ensures Outside(Apply(s, e), id) && Apply(s, e).orders[id] == s.orders[id]
  {
    var s' := Apply(s, e);
    if s' != s {
      assert HasJob(s, j);
      assert id !in s.window.jobs[j].kept;
      hide Outside, InState, Exhausted;
      OtherJobLeaves(s, s', j, s'.window.jobs[j], id);
    }
  }

  lemma OrphanStays(s: State, e: Event, id: Id)
    requires Loose(s) && Allowed(s, e) && Outside(s, id) && !(Stores(s, e) && e.id == id)
    ensures Outside(Apply(s, e), id) && Apply(s, e).orders[id] == s.orders[id]
  {
    hide EntryOk;
    match e
    case IntakeChecks(_) =>
    case IntakeFails(_) =>
    case IntakeStores(_, _, _, _) =>
    case TickBegins(_) =>
    case TickEnds(_) =>
    case DepositsChecked(_, groups, _) =>
      if s.window.Checking? {
        forall i | 0 <= i < |groups| ensures id !in groups[i] {
          UnionHolds(groups, i);
        }
      }
    case SolveReturns(j, _, _) => JobEventLeaves(s, e, j, id);
    case DryRunReturns(j, _) => JobEventLeaves(s, e, j, id);
    case SendReturns(j, _, _) => JobEventLeaves(s, e, j, id);
    case ReceiptReturns(j, _) => JobEventLeaves(s, e, j, id);
    case PairThrows(j) => JobEventLeaves(s, e, j, id);
  }

  /** An orphan settles for ever: nothing but a racing intake call of its own changes or forgets it. */
  lemma {:induction false} OrphanForever(s: State, events: seq<Event>, id: Id)
    requires Loose(s) && AllAllowed(s, events) && id in Orphans(s) && !Restarted(s, events, id)
    ensures id in Orphans(Run(s, events)) && Run(s, events).orders[id] == s.orders[id]
    decreases |events|
  {
    hide Loose, Apply, Orphans, Outside;
    if events != [] {
      LooseKeeps(s, events[0]);
      OrphanIsOutside(s, id);
      assert id in s.orders by { OutsideIsStored(s, id); }
      OrphanStays(s, events[0], id);
      OrphanIsOutside(Apply(s, events[0]), id);
      OrphanForever(Apply(s, events[0]), events[1..], id);
    }
  }

  lemma OutsideIsStored(s: State, id: Id)
    requires Outside(s, id)
    ensures id in s.orders
  {
  }

  /**
   * A pair that throws leaves orphans exactly when it throws after its send:
   * the orders of that transaction. The source throws there on one answer of
   * the node, a receipt whose gasUsed is not a number.
   */
  lemma ThrowOrphansIff(s: State, j: nat, id: Id)
    requires Inv(s) && HasJob(s, j) && id in s.window.jobs[j].kept
    ensures id in Orphans(Apply(s, PairThrows(j))) <==> s.window.jobs[j].stage.Mining?
    ensures id in Orphans(Apply(s, ReceiptReturns(j, Unreadable))) <==> s.window.jobs[j].stage.Mining?
  {
    hide CountersOk;
    assert JobOk(s.orders, s.inFlight, s.window.jobs[j]);
    assert forall i :: 0 <= i < |s.window.jobs| && i != j ==> s.window.jobs[i].kept !! s.window.jobs[j].kept;
  }
}
