// The life of an order in the batcher: intake, windows, settlement attempts
// and counters, as atomic steps between awaits. What the solver, the dry run,
// the send and the receipt answer is up to the environment. Each step keeps
// the invariant, as long as no two intake calls of one hash overlap.
module OrderBook {
  import opened Common

  type Id = nat
  type Tx = nat

  const MAX_ATTEMPTS := 3
  const FORGET_AFTER := 600_000

  datatype Status = Pending | AwaitingDeposit | Settling(tx: Tx) | Filled | Rejected | Expired

  datatype Entry = Entry(status: Status, attempts: nat, validTo: int, receivedAt: int)

  type Orders = map<Id, Entry>

  datatype Stats = Stats(received: nat, rejected: nat, filled: nat, expired: nat)

  /** Where one pair's settlement stands; `kept` are the orders still in it. */
  datatype Stage = Solving | Drying | Sending | Mining(tx: Tx) | Done

  datatype Job = Job(kept: set<Id>, stage: Stage)

  /**
   * A window: nothing running; waiting for deposit checks; or its pairs
   * settling side by side. `replaced` are orders under check that were stored
   * anew meanwhile: the check goes on with the entry it started from.
   */
  datatype Window =
    | Idle
    | Checking(ready: set<Id>, checks: set<Id>, replaced: set<Id>)
    | Running(ready: set<Id>, jobs: seq<Job>)

  /** What a settlement's receipt says: nothing yet, success or a revert, or a gasUsed that is not a number. */
  datatype Receipt = Unmined | Mined(succeeded: bool) | Unreadable

  /**
   * `checked` are the intake calls under way that found their hash new.
   * `forgotten` is history: the orders dropped from memory, by how they ended.
   */
  datatype State = State(orders: Orders, inFlight: set<Id>, stats: Stats, pausedUntil: int, window: Window,
                         checked: multiset<Id>, forgotten: Stats)

  const EMPTY := State(map[], {}, Stats(0, 0, 0, 0), 0, Idle, multiset{}, Stats(0, 0, 0, 0))

  function Where(orders: Orders, p: Entry -> bool): set<Id> {
    set id | id in orders && p(orders[id])
  }

  function InState(orders: Orders, status: Status): set<Id> {
    set id | id in orders && orders[id].status == status
  }

  function Change(orders: Orders, ids: set<Id>, f: Entry -> Entry): Orders {
    map id | id in orders :: if id in ids then f(orders[id]) else orders[id]
  }

  function SetStatus(orders: Orders, ids: set<Id>, status: Status): Orders {
    Change(orders, ids, (e: Entry) => e.(status := status))
  }

  // ----------------------------------------------------------- intake

  /** intake up to its first await: a hash already stored is answered with its status. */
  function Check(s: State, id: Id): State {
    if id in s.orders then s else s.(checked := s.checked + multiset{id})
  }

  function NewEntry(deposited: bool, validTo: int, now: int): Entry {
    Entry(if deposited then AwaitingDeposit else Pending, 0, validTo, now)
  }

  /** The end of intake: whatever was stored under the hash is replaced. */
  function Accept(s: State, id: Id, deposited: bool, validTo: int, now: int): State {
    s.(orders := s.orders[id := NewEntry(deposited, validTo, now)],
       stats := s.stats.(received := s.stats.received + 1),
       checked := s.checked - multiset{id},
       window := match s.window
                 case Checking(ready, checks, replaced) => Checking(ready, checks, if id in checks then replaced + {id} else replaced)
                 case w => w)
  }

  // ---------------------------------------------------------- windows

  predicate Open(e: Entry) {
    e.status.Pending? || e.status.AwaitingDeposit?
  }

  function Late(orders: Orders, now: int): set<Id> {
    set id | id in orders && Open(orders[id]) && orders[id].validTo <= now + 1
  }

  /** Expire what is late; collect what is ready and what waits for its deposit. */
  function BeginTick(s: State, now: int): State {
    if !s.window.Idle? then s
    else
      var late := Late(s.orders, now);
      var orders := SetStatus(s.orders, late, Expired);
      s.(orders := orders, stats := s.stats.(expired := s.stats.expired + |late|),
         window := Checking(InState(orders, Pending) - s.inFlight, InState(orders, AwaitingDeposit) - s.inFlight, {}))
  }

  ghost predicate Disjoint(groups: seq<set<Id>>) {
    forall i, j :: 0 <= i < j < |groups| ==> groups[i] !! groups[j]
  }

  function Union(groups: seq<set<Id>>): set<Id> {
    if groups == [] then {} else groups[0] + Union(groups[1..])
  }

  /** The groups groupByPair makes of the ready orders. */
  ghost predicate Partition(groups: seq<set<Id>>, ready: set<Id>) {
    Disjoint(groups) && Union(groups) == ready
  }

  function Solvers(groups: seq<set<Id>>): seq<Job> {
    seq(|groups|, i requires 0 <= i < |groups| => Job(groups[i], Solving))
  }

  /** Deposits found become pending and ready; unless sends are paused, every ready order goes into its pair's job. */
  function Launch(s: State, found: set<Id>, groups: seq<set<Id>>, now: int): State {
    match s.window
    case Checking(ready, checks, replaced) =>
      var paid := found * checks;
      var orders, all := SetStatus(s.orders, paid - replaced, Pending), ready + paid;
      if all == {} || now < s.pausedUntil then s.(orders := orders, window := Idle)
      else s.(orders := orders, inFlight := s.inFlight + all, window := Running(all, Solvers(groups)))
    case _ => s
  }

  // ------------------------------------------------------- settlement

  function Exhausted(orders: Orders, ids: set<Id>, limit: nat): set<Id> {
    set id | id in ids && id in orders && orders[id].attempts + 1 >= limit
  }

  function Attempted(orders: Orders, ids: set<Id>, limit: nat, revive: bool): Orders {
    Change(orders, ids, (e: Entry) =>
      e.(attempts := e.attempts + 1,
         status := if e.attempts + 1 >= limit then Rejected else if revive then Pending else e.status))
  }

  /** A failed attempt: count it, reject what has reached the limit, release all; what was settling is pending again. */
  function Retry(s: State, ids: set<Id>, limit: nat, revive: bool): State {
    s.(orders := Attempted(s.orders, ids, limit, revive),
       stats := s.stats.(rejected := s.stats.rejected + |Exhausted(s.orders, ids, limit)|),
       inFlight := s.inFlight - ids)
  }

  function Reject(s: State, ids: set<Id>): State {
    s.(orders := SetStatus(s.orders, ids, Rejected),
       stats := s.stats.(rejected := s.stats.rejected + |ids|),
       inFlight := s.inFlight - ids)
  }

  function Fill(s: State, ids: set<Id>): State {
    s.(orders := SetStatus(s.orders, ids, Filled),
       stats := s.stats.(filled := s.stats.filled + |ids|),
       inFlight := s.inFlight - ids)
  }

  function WithJob(s: State, j: nat, job: Job): State
    requires s.window.Running? && j < |s.window.jobs|
  {
    s.(window := Running(s.window.ready, s.window.jobs[j := job]))
  }

  /** solve came back: reject what it dropped; on an error what is pending of the rest is retried, otherwise it goes to the dry run. */
  function Solved(s: State, j: nat, job: Job, dropped: set<Id>, failed: bool): State
    requires s.window.Running? && j < |s.window.jobs|
  {
    var gone := dropped * job.kept;
    var kept := job.kept - gone;
    var s' := Reject(s, gone);
    if failed then WithJob(Retry(s', kept * InState(s'.orders, Pending), MAX_ATTEMPTS, false), j, Job({}, Done))
    else WithJob(s', j, Job(kept, Drying))
  }

  function DryRun(s: State, j: nat, job: Job, ok: bool): State
    requires s.window.Running? && j < |s.window.jobs|
  {
    if ok then WithJob(s, j, Job(job.kept, Sending)) else WithJob(Retry(s, job.kept, MAX_ATTEMPTS, false), j, Job({}, Done))
  }

  /** A refused send pauses all sends and counts more patiently. */
  function Sent(s: State, j: nat, job: Job, tx: Option<Tx>, until: int): State
    requires s.window.Running? && j < |s.window.jobs|
  {
    match tx
    case Some(t) => WithJob(s.(orders := SetStatus(s.orders, job.kept, Settling(t))), j, Job(job.kept, Mining(t)))
    case None => WithJob(Retry(s.(pausedUntil := until), job.kept, 2 * MAX_ATTEMPTS, false), j, Job({}, Done))
  }

  /** A receipt that cannot be read makes the pair throw: its orders stay as they are. */
  function Settled(s: State, j: nat, job: Job, receipt: Receipt): State
    requires s.window.Running? && j < |s.window.jobs|
  {
    var after := match receipt
      case Unreadable => s
      case Mined(true) => Fill(s, job.kept)
      case _ => Retry(s, job.kept, MAX_ATTEMPTS, true);
    WithJob(after, j, Job({}, Done))
  }

  function Stale(orders: Orders, now: int): set<Id> {
    set id | id in orders && orders[id].receivedAt < now - FORGET_AFTER && !orders[id].status.Pending? && !orders[id].status.Settling?
  }

  /** All pairs are through: release what is left in flight and forget finished orders. */
  function EndTick(s: State, now: int): State {
    match s.window
    case Running(ready, jobs) =>
      if exists j :: 0 <= j < |jobs| && jobs[j].stage != Done then s
      else
        var stale := Stale(s.orders, now);
        s.(inFlight := s.inFlight - ready, window := Idle,
           orders := s.orders - stale,
           forgotten := Stats(s.forgotten.received + |stale|,
                              s.forgotten.rejected + |InState(s.orders, Rejected) * stale|,
                              s.forgotten.filled + |InState(s.orders, Filled) * stale|,
                              s.forgotten.expired + |InState(s.orders, Expired) * stale|))
    case _ => s
  }

  datatype Event =
    | IntakeChecks(id: Id)
    | IntakeFails(id: Id)
    | IntakeStores(id: Id, deposited: bool, validTo: int, at: int)
    | TickBegins(at: int)
    | DepositsChecked(found: set<Id>, groups: seq<set<Id>>, at: int)
    | SolveReturns(job: nat, dropped: set<Id>, failed: bool)
    | DryRunReturns(job: nat, ok: bool)
    | SendReturns(job: nat, tx: Option<Tx>, until: int)
    | ReceiptReturns(job: nat, receipt: Receipt)
    | PairThrows(job: nat)
    | TickEnds(at: int)

  predicate HasJob(s: State, j: nat) {
    s.window.Running? && j < |s.window.jobs|
  }

  function StageOf(s: State, j: nat): Stage {
    if HasJob(s, j) then s.window.jobs[j].stage else Done
  }

  function Apply(s: State, e: Event): State {
    match e
    case IntakeChecks(id) => Check(s, id)
    case IntakeFails(id) => s.(checked := s.checked - multiset{id})
    case IntakeStores(id, deposited, validTo, at) => if id in s.checked then Accept(s, id, deposited, validTo, at) else s
    case TickBegins(at) => BeginTick(s, at)
    case DepositsChecked(found, groups, at) => Launch(s, found, groups, at)
    case SolveReturns(j, dropped, failed) =>
      if StageOf(s, j).Solving? then Solved(s, j, s.window.jobs[j], dropped, failed) else s
    case DryRunReturns(j, ok) => if StageOf(s, j).Drying? then DryRun(s, j, s.window.jobs[j], ok) else s
    case SendReturns(j, tx, until) => if StageOf(s, j).Sending? then Sent(s, j, s.window.jobs[j], tx, until) else s
    case ReceiptReturns(j, receipt) => if StageOf(s, j).Mining? then Settled(s, j, s.window.jobs[j], receipt) else s
    case PairThrows(j) => if StageOf(s, j).Done? then s else WithJob(s, j, Job({}, Done))
    case TickEnds(at) => EndTick(s, at)
  }

  /** What groupByPair contributes: jobs partition the ready orders. */
  ghost predicate Allowed(s: State, e: Event) {
    e.DepositsChecked? && s.window.Checking? ==> Partition(e.groups, s.window.ready + e.found * s.window.checks)
  }

  /** A call of intake that stores its order. */
  predicate Stores(s: State, e: Event) {
    e.IntakeStores? && e.id in s.checked
  }

  /** It stores it over another one: since its check, a second call has stored the same hash. */
  predicate Races(s: State, e: Event) {
    Stores(s, e) && e.id in s.orders
  }

  // -------------------------------------------------------- invariant

  predicate Terminal(status: Status) {
    status.Filled? || status.Rejected? || status.Expired?
  }

  /** Attempts stay within the most patient limit; an order that may still be tried has some left. */
  predicate EntryOk(e: Entry) {
    e.attempts <= 2 * MAX_ATTEMPTS && (!Terminal(e.status) ==> e.attempts < 2 * MAX_ATTEMPTS)
  }

  /** The orders of a job are pending until it is sent, then settling in its transaction, and in flight throughout. */
  ghost predicate JobOk(orders: Orders, inFlight: set<Id>, job: Job) {
    && job.kept <= inFlight && job.kept <= orders.Keys
    && (job.stage.Done? ==> job.kept == {})
    && (forall id <- job.kept :: orders[id].status == if job.stage.Mining? then Settling(job.stage.tx) else Pending)
  }

  ghost predicate WindowOk(s: State) {
    match s.window
    case Idle => s.inFlight == {}
    case Checking(ready, checks, replaced) =>
      && s.inFlight == {} && replaced == {} && ready <= InState(s.orders, Pending) && checks <= InState(s.orders, AwaitingDeposit)
    case Running(ready, jobs) =>
      && s.inFlight <= ready
      && (forall j :: 0 <= j < |jobs| ==> JobOk(s.orders, s.inFlight, jobs[j]))
      && (forall i, j :: 0 <= i < j < |jobs| ==> jobs[i].kept !! jobs[j].kept)
  }

  /** Each counter counts each order once: those in memory with the status, plus those forgotten with it. */
  ghost predicate CountersOk(s: State) {
    && s.stats.received == |s.orders| + s.forgotten.received
    && s.stats.filled == |InState(s.orders, Filled)| + s.forgotten.filled
    && s.stats.rejected == |InState(s.orders, Rejected)| + s.forgotten.rejected
    && s.stats.expired == |InState(s.orders, Expired)| + s.forgotten.expired
  }

  ghost predicate Inv(s: State) {
    && (forall id <- s.orders :: EntryOk(s.orders[id]))
    && WindowOk(s) && CountersOk(s)
  }

  /** Final statuses are kept until the order is forgotten, and the others move along the life cycle only. */
  ghost predicate Lawful(before: Orders, after: Orders) {
    forall id <- before :: id in after ==> after[id] == before[id] || (!Terminal(before[id].status) && MayBecome(before[id].status, after[id].status))
  }

  predicate MayBecome(x: Status, y: Status) {
    match x
    case Pending => y.Pending? || y.Settling? || y.Rejected? || y.Expired?
    case AwaitingDeposit => y.Pending? || y.Expired?
    case Settling(_) => y.Filled? || y.Rejected? || y.Pending?
    case _ => false
  }

  // ----------------------------------------------- counters, step by step

  lemma ChangeKeepsKeys(orders: Orders, ids: set<Id>, f: Entry -> Entry)
    ensures Change(orders, ids, f).Keys == orders.Keys && |Change(orders, ids, f)| == |orders|
  {
    assert Change(orders, ids, f).Keys == orders.Keys;
    assert |Change(orders, ids, f).Keys| == |Change(orders, ids, f)| && |orders.Keys| == |orders|;
  }

  lemma Joined(x: set<Id>, y: set<Id>, z: set<Id>)
    requires z == x + y && x !! y
    ensures |z| == |x| + |y|
  {
  }

  /** Giving one status to some orders moves exactly those into its set, */
  lemma SetStatusGains(orders: Orders, ids: set<Id>, status: Status)
    requires ids <= orders.Keys && forall id <- ids :: orders[id].status != status
    ensures |InState(SetStatus(orders, ids, status), status)| == |InState(orders, status)| + |ids|
  {
    var after := InState(SetStatus(orders, ids, status), status);
    assert after == InState(orders, status) + ids;
    Joined(InState(orders, status), ids, after);
  }

  /** and leaves every set alone that they were not in. */
  lemma SetStatusLeaves(orders: Orders, ids: set<Id>, status: Status, other: Status)
    requires ids <= orders.Keys && other != status && forall id <- ids :: orders[id].status != other
    ensures InState(SetStatus(orders, ids, status), other) == InState(orders, other)
  {
  }

  ghost predicate AllOpen(orders: Orders, ids: set<Id>) {
    ids <= orders.Keys && forall id <- ids :: !Terminal(orders[id].status)
  }

  /** Rejecting, filling or expiring open orders, counted once each. */
  lemma EndingCounts(s: State, ids: set<Id>, status: Status)
    requires CountersOk(s) && AllOpen(s.orders, ids) && Terminal(status)
    ensures var n, orders := |ids|, SetStatus(s.orders, ids, status);
            CountersOk(s.(orders := orders,
                          stats := match status
                                   case Filled => s.stats.(filled := s.stats.filled + n)
                                   case Rejected => s.stats.(rejected := s.stats.rejected + n)
                                   case _ => s.stats.(expired := s.stats.expired + n)))
  {
    ChangeKeepsKeys(s.orders, ids, (e: Entry) => e.(status := status));
    SetStatusGains(s.orders, ids, status);
    if status != Filled { SetStatusLeaves(s.orders, ids, status, Filled); }
    if status != Rejected { SetStatusLeaves(s.orders, ids, status, Rejected); }
    if status != Expired { SetStatusLeaves(s.orders, ids, status, Expired); }
  }

  /** Moving open orders between open statuses changes no counter. */
  lemma MovingCounts(s: State, ids: set<Id>, status: Status)
    requires CountersOk(s) && AllOpen(s.orders, ids) && !Terminal(status)
    ensures CountersOk(s.(orders := SetStatus(s.orders, ids, status)))
  {
    ChangeKeepsKeys(s.orders, ids, (e: Entry) => e.(status := status));
    var orders := SetStatus(s.orders, ids, status);
    assert InState(orders, Filled) == InState(s.orders, Filled);
    assert InState(orders, Rejected) == InState(s.orders, Rejected);
    assert InState(orders, Expired) == InState(s.orders, Expired);
  }

  lemma RetryRejects(orders: Orders, ids: set<Id>, limit: nat, revive: bool)
    requires AllOpen(orders, ids)
    ensures var after, out := Attempted(orders, ids, limit, revive), Exhausted(orders, ids, limit);
            && InState(after, Filled) == InState(orders, Filled) && InState(after, Expired) == InState(orders, Expired)
            && InState(after, Rejected) == InState(orders, Rejected) + out && InState(orders, Rejected) !! out
  {
  }

  lemma RetryCounts(s: State, ids: set<Id>, limit: nat, revive: bool)
    requires CountersOk(s) && AllOpen(s.orders, ids)
    ensures CountersOk(Retry(s, ids, limit, revive))
  {
    var orders, out := Attempted(s.orders, ids, limit, revive), Exhausted(s.orders, ids, limit);
    assert orders.Keys == s.orders.Keys;
    assert |orders.Keys| == |orders| && |s.orders.Keys| == |s.orders|;
    RetryRejects(s.orders, ids, limit, revive);
    hide Exhausted, InState, Attempted;
    Joined(InState(s.orders, Rejected), out, InState(orders, Rejected));
  }

  lemma AcceptCounts(s: State, id: Id, deposited: bool, validTo: int, now: int)
    requires CountersOk(s) && id !in s.orders
    ensures CountersOk(Accept(s, id, deposited, validTo, now))
  {
    var s' := Accept(s, id, deposited, validTo, now);
    assert s'.orders.Keys == s.orders.Keys + {id};
    assert |s'.orders.Keys| == |s'.orders| && |s.orders.Keys| == |s.orders|;
    assert InState(s'.orders, Filled) == InState(s.orders, Filled);
    assert InState(s'.orders, Rejected) == InState(s.orders, Rejected);
    assert InState(s'.orders, Expired) == InState(s.orders, Expired);
  }

  lemma ForgetCounts(orders: Orders, stale: set<Id>, status: Status)
    requires stale <= orders.Keys
    ensures |InState(orders - stale, status)| + |InState(orders, status) * stale| == |InState(orders, status)|
    ensures |orders - stale| + |stale| == |orders|
  {
    var x, y := InState(orders - stale, status), InState(orders, status) * stale;
    assert x + y == InState(orders, status);
    Joined(x, y, InState(orders, status));
    assert (orders - stale).Keys + stale == orders.Keys;
    Joined((orders - stale).Keys, stale, orders.Keys);
    assert |(orders - stale).Keys| == |orders - stale| && |orders.Keys| == |orders|;
  }

  lemma EndTickCounts(s: State, now: int)
    requires CountersOk(s)
    ensures CountersOk(EndTick(s, now))
  {
    var stale := Stale(s.orders, now);
    ForgetCounts(s.orders, stale, Filled);
    ForgetCounts(s.orders, stale, Rejected);
    ForgetCounts(s.orders, stale, Expired);
  }

  // --------------------------------------------- every step keeps it

  ghost predicate EntriesOk(orders: Orders) {
    forall id <- orders :: EntryOk(orders[id])
  }

  /** A step of job j touches only its own orders: the other jobs are as they were. */
  lemma OthersUntouched(s: State, j: nat, orders: Orders, inFlight: set<Id>, job: Job)
    requires WindowOk(s) && s.window.Running? && j < |s.window.jobs|
    requires orders.Keys == s.orders.Keys && inFlight <= s.inFlight
    requires s.inFlight - s.window.jobs[j].kept <= inFlight
    requires forall id <- s.orders :: id !in s.window.jobs[j].kept ==> orders[id] == s.orders[id]
    requires job.kept <= s.window.jobs[j].kept && JobOk(orders, inFlight, job)
    ensures WindowOk(WithJob(s, j, job).(orders := orders, inFlight := inFlight))
  {
    var jobs := s.window.jobs;
    forall i | 0 <= i < |jobs| && i != j ensures JobOk(orders, inFlight, jobs[i]) {
      assert jobs[i].kept !! jobs[j].kept;
      assert JobOk(s.orders, s.inFlight, jobs[i]);
    }
  }

  lemma RetryEntries(s: State, ids: set<Id>, limit: nat, revive: bool)
    requires EntriesOk(s.orders) && AllOpen(s.orders, ids) && 1 <= limit <= 2 * MAX_ATTEMPTS
    requires forall id <- ids :: s.orders[id].status.Pending? || (revive && s.orders[id].status.Settling?)
    ensures EntriesOk(Retry(s, ids, limit, revive).orders)
    ensures Lawful(s.orders, Retry(s, ids, limit, revive).orders)
  {
  }

  lemma JobIsOpen(s: State, j: nat)
    requires WindowOk(s) && s.window.Running? && j < |s.window.jobs| && !s.window.jobs[j].stage.Done?
    ensures AllOpen(s.orders, s.window.jobs[j].kept)
    ensures forall id <- s.window.jobs[j].kept :: !s.orders[id].status.AwaitingDeposit?
  {
    assert JobOk(s.orders, s.inFlight, s.window.jobs[j]);
  }

  lemma RetryKeeps(s: State, j: nat, limit: nat)
    requires Inv(s) && s.window.Running? && j < |s.window.jobs| && !s.window.jobs[j].stage.Done?
    requires 1 <= limit <= 2 * MAX_ATTEMPTS
    ensures var s' := WithJob(Retry(s, s.window.jobs[j].kept, limit, s.window.jobs[j].stage.Mining?), j, Job({}, Done));
            Inv(s') && Lawful(s.orders, s'.orders)
  {
    var kept, revive := s.window.jobs[j].kept, s.window.jobs[j].stage.Mining?;
    JobIsOpen(s, j);
    assert JobOk(s.orders, s.inFlight, s.window.jobs[j]);
    RetryCounts(s, kept, limit, revive);
    RetryEntries(s, kept, limit, revive);
    var s' := Retry(s, kept, limit, revive);
    OthersUntouched(s, j, s'.orders, s'.inFlight, Job({}, Done));
  }

  lemma RejectKeeps(s: State, j: nat, gone: set<Id>)
    requires Inv(s) && s.window.Running? && j < |s.window.jobs| && s.window.jobs[j].stage.Solving?
    requires gone <= s.window.jobs[j].kept
    ensures var s' := WithJob(Reject(s, gone), j, Job(s.window.jobs[j].kept - gone, Solving)); Inv(s') && Lawful(s.orders, s'.orders)
  {
    var kept := s.window.jobs[j].kept;
    JobIsOpen(s, j);
    EndingCounts(s, gone, Rejected);
    var s' := Reject(s, gone);
    assert JobOk(s.orders, s.inFlight, s.window.jobs[j]);
    OthersUntouched(s, j, s'.orders, s'.inFlight, Job(kept - gone, Solving));
  }

  lemma LawfulTwice(x: Orders, y: Orders, z: Orders)
    requires Lawful(x, y) && Lawful(y, z) && x.Keys == y.Keys
    requires forall id <- z :: id in x && (x[id] == y[id] || y[id] == z[id])
    ensures Lawful(x, z)
  {
  }

  lemma JobTwice(s: State, j: nat, x: Job, y: Job)
    requires s.window.Running? && j < |s.window.jobs|
    ensures WithJob(WithJob(s, j, x), j, y) == WithJob(s, j, y)
  {
    assert s.window.jobs[j := x][j := y] == s.window.jobs[j := y];
  }

  lemma SolvedFailedKeeps(s: State, j: nat, gone: set<Id>)
    requires Inv(s) && s.window.Running? && j < |s.window.jobs| && s.window.jobs[j].stage.Solving?
    requires gone <= s.window.jobs[j].kept
    ensures var kept, rejected := s.window.jobs[j].kept - gone, Reject(s, gone);
            var s' := WithJob(Retry(rejected, kept * InState(rejected.orders, Pending), MAX_ATTEMPTS, false), j, Job({}, Done));
            Inv(s') && Lawful(s.orders, s'.orders)
  {
    var kept := s.window.jobs[j].kept - gone;
    RejectKeeps(s, j, gone);
    var mid := WithJob(Reject(s, gone), j, Job(kept, Solving));
    assert kept * InState(mid.orders, Pending) == kept by {
      assert JobOk(mid.orders, mid.inFlight, mid.window.jobs[j]);
    }
    RetryKeeps(mid, j, MAX_ATTEMPTS);
    JobTwice(Retry(Reject(s, gone), kept, MAX_ATTEMPTS, false), j, Job(kept, Solving), Job({}, Done));
    LawfulTwice(s.orders, mid.orders, Retry(mid, kept, MAX_ATTEMPTS, false).orders);
    hide Inv, Lawful;
    assert Retry(mid, kept, MAX_ATTEMPTS, false) == WithJob(Retry(Reject(s, gone), kept, MAX_ATTEMPTS, false), j, Job(kept, Solving));
  }

  /** A job that only changes stage, its orders staying pending. */
  lemma AdvanceKeeps(s: State, j: nat, stage: Stage)
    requires Inv(s) && s.window.Running? && j < |s.window.jobs| && !stage.Mining? && !stage.Done?
    requires var now := s.window.jobs[j].stage; !now.Mining? && !now.Done?
    ensures var s' := WithJob(s, j, Job(s.window.jobs[j].kept, stage)); Inv(s') && Lawful(s.orders, s'.orders)
  {
    assert JobOk(s.orders, s.inFlight, s.window.jobs[j]);
    OthersUntouched(s, j, s.orders, s.inFlight, Job(s.window.jobs[j].kept, stage));
  }

  lemma SolvedOnKeeps(s: State, j: nat, gone: set<Id>)
    requires Inv(s) && s.window.Running? && j < |s.window.jobs| && s.window.jobs[j].stage.Solving?
    requires gone <= s.window.jobs[j].kept
    ensures var s' := WithJob(Reject(s, gone), j, Job(s.window.jobs[j].kept - gone, Drying));
            Inv(s') && Lawful(s.orders, s'.orders)
  {
    var kept := s.window.jobs[j].kept - gone;
    RejectKeeps(s, j, gone);
    AdvanceKeeps(WithJob(Reject(s, gone), j, Job(kept, Solving)), j, Drying);
    JobTwice(Reject(s, gone), j, Job(kept, Solving), Job(kept, Drying));
  }

  lemma SentKeeps(s: State, j: nat, tx: Option<Tx>, until: int)
    requires Inv(s) && s.window.Running? && j < |s.window.jobs| && s.window.jobs[j].stage.Sending?
    ensures var s' := Sent(s, j, s.window.jobs[j], tx, until); Inv(s') && Lawful(s.orders, s'.orders)
  {
    match tx
    case None =>
      assert Inv(s.(pausedUntil := until));
      RetryKeeps(s.(pausedUntil := until), j, 2 * MAX_ATTEMPTS);
    case Some(t) =>
      var kept := s.window.jobs[j].kept;
      JobIsOpen(s, j);
      assert JobOk(s.orders, s.inFlight, s.window.jobs[j]);
      MovingCounts(s, kept, Settling(t));
      OthersUntouched(s, j, SetStatus(s.orders, kept, Settling(t)), s.inFlight, Job(kept, Mining(t)));
  }

  lemma FillKeeps(s: State, j: nat)
    requires Inv(s) && s.window.Running? && j < |s.window.jobs| && s.window.jobs[j].stage.Mining?
    ensures var s' := WithJob(Fill(s, s.window.jobs[j].kept), j, Job({}, Done)); Inv(s') && Lawful(s.orders, s'.orders)
  {
    var kept := s.window.jobs[j].kept;
    JobIsOpen(s, j);
    assert JobOk(s.orders, s.inFlight, s.window.jobs[j]);
    EndingCounts(s, kept, Filled);
    var s' := Fill(s, kept);
    OthersUntouched(s, j, s'.orders, s'.inFlight, Job({}, Done));
  }

  /** A pair that throws keeps its orders as they are; the window's end releases them. */
  lemma ThrowKeeps(s: State, j: nat)
    requires Inv(s) && s.window.Running? && j < |s.window.jobs|
    ensures Inv(WithJob(s, j, Job({}, Done)))
  {
    OthersUntouched(s, j, s.orders, s.inFlight, Job({}, Done));
  }

  lemma AcceptKeeps(s: State, id: Id, deposited: bool, validTo: int, now: int)
    requires Inv(s) && id !in s.orders
    ensures var s' := Accept(s, id, deposited, validTo, now); Inv(s') && Lawful(s.orders, s'.orders)
  {
    AcceptCounts(s, id, deposited, validTo, now);
    var s' := Accept(s, id, deposited, validTo, now);
    match s.window
    case Running(_, jobs) =>
      forall i | 0 <= i < |jobs| ensures JobOk(s'.orders, s'.inFlight, jobs[i]) {
        assert JobOk(s.orders, s.inFlight, jobs[i]);
      }
    case _ =>
  }

  lemma BeginTickKeeps(s: State, now: int)
    requires Inv(s)
    ensures Inv(BeginTick(s, now)) && Lawful(s.orders, BeginTick(s, now).orders)
  {
    if s.window.Idle? {
      var late := Late(s.orders, now);
      EndingCounts(s, late, Expired);
    }
  }

  lemma {:induction false} UnionHolds(groups: seq<set<Id>>, i: nat)
    requires i < |groups|
    ensures groups[i] <= Union(groups)
  {
    if i > 0 {
      UnionHolds(groups[1..], i - 1);
    }
  }

  /** Deposits found move from one open status to another, and make every ready order pending. */
  lemma PaidEntries(orders: Orders, ready: set<Id>, checks: set<Id>, paid: set<Id>)
    requires ready <= InState(orders, Pending) && checks <= InState(orders, AwaitingDeposit) && paid <= checks
    ensures var after := SetStatus(orders, paid, Pending);
            && Lawful(orders, after) && ready + paid <= InState(after, Pending)
            && ((forall id <- orders :: EntryOk(orders[id])) ==> forall id <- after :: EntryOk(after[id]))
  {
  }

  lemma LaunchedJobs(orders: Orders, all: set<Id>, groups: seq<set<Id>>)
    requires Partition(groups, all) && all <= InState(orders, Pending)
    ensures var jobs := Solvers(groups);
            && (forall j :: 0 <= j < |jobs| ==> JobOk(orders, all, jobs[j]))
            && (forall i, j :: 0 <= i < j < |jobs| ==> jobs[i].kept !! jobs[j].kept)
  {
    forall i | 0 <= i < |groups| ensures groups[i] <= all {
      UnionHolds(groups, i);
    }
  }

  lemma CountersSame(s: State, t: State)
    requires s.orders == t.orders && s.stats == t.stats && s.forgotten == t.forgotten
    ensures CountersOk(s) <==> CountersOk(t)
  {
  }

  lemma ChecksAreOpen(orders: Orders, checks: set<Id>, paid: set<Id>)
    requires paid <= checks <= InState(orders, AwaitingDeposit)
    ensures AllOpen(orders, paid)
  {
  }

  lemma LaunchKeeps(s: State, found: set<Id>, groups: seq<set<Id>>, now: int)
    requires Inv(s) && Allowed(s, DepositsChecked(found, groups, now))
    ensures var s' := Launch(s, found, groups, now); Inv(s') && Lawful(s.orders, s'.orders)
  {
    hide SetStatus, InState, JobOk, Partition, Solvers, Lawful, EntryOk, AllOpen, CountersOk;
    match s.window
    case Checking(ready, checks, _) =>
      var paid := found * checks;
      assert paid - s.window.replaced == paid;
      ChecksAreOpen(s.orders, checks, paid);
      MovingCounts(s, paid, Pending);
      PaidEntries(s.orders, ready, checks, paid);
      CountersSame(s.(orders := SetStatus(s.orders, paid, Pending)), Launch(s, found, groups, now));
      assert s.inFlight + (ready + paid) == ready + paid;
      LaunchedJobs(SetStatus(s.orders, paid, Pending), ready + paid, groups);
    case _ => Unmoved(s);
  }

  lemma EndTickKeeps(s: State, now: int)
    requires Inv(s)
    ensures Inv(EndTick(s, now)) && Lawful(s.orders, EndTick(s, now).orders)
  {
    EndTickCounts(s, now);
  }

  lemma ApplyKeeps(s: State, e: Event)
    requires Inv(s) && Allowed(s, e) && !Races(s, e)
    ensures Inv(Apply(s, e)) && Lawful(s.orders, Apply(s, e).orders)
  {
    match e
    case IntakeChecks(id) => OnlyChecked(s, Check(s, id).checked);
    case IntakeFails(id) => OnlyChecked(s, s.checked - multiset{id});
    case IntakeStores(id, deposited, validTo, at) =>
      if id in s.checked { AcceptKeeps(s, id, deposited, validTo, at); } else { Unmoved(s); }
    case TickBegins(at) => BeginTickKeeps(s, at);
    case DepositsChecked(found, groups, at) => LaunchKeeps(s, found, groups, at);
    case TickEnds(at) => EndTickKeeps(s, at);
    case SolveReturns(j, dropped, failed) => JobStepKeeps(s, e, j);
    case DryRunReturns(j, ok) => JobStepKeeps(s, e, j);
    case SendReturns(j, tx, until) => JobStepKeeps(s, e, j);
    case ReceiptReturns(j, receipt) => JobStepKeeps(s, e, j);
    case PairThrows(j) => JobStepKeeps(s, e, j);
    hide Inv, Lawful, Solved, DryRun, Sent, Settled, Accept, BeginTick, Launch, EndTick, Retry, Reject, Fill;
  }

  lemma OnlyChecked(s: State, checked: multiset<Id>)
    requires Inv(s)
    ensures Inv(s.(checked := checked)) && Lawful(s.orders, s.orders)
  {
  }

  predicate IsJobEvent(e: Event) {
    e.SolveReturns? || e.DryRunReturns? || e.SendReturns? || e.ReceiptReturns? || e.PairThrows?
  }

  lemma Unmoved(s: State)
    ensures Lawful(s.orders, s.orders)
  {
  }

  lemma JobStepKeeps(s: State, e: Event, j: nat)
    requires Inv(s) && IsJobEvent(e) && e.job == j
    ensures Inv(Apply(s, e)) && Lawful(s.orders, Apply(s, e).orders)
  {
    Unmoved(s);
    hide Inv, Lawful, Retry, Reject, Fill, Sent;
    var stage := StageOf(s, j);
    match e
    case SolveReturns(_, dropped, failed) =>
      if stage.Solving? {
        var gone := dropped * s.window.jobs[j].kept;
        if failed { SolvedFailedKeeps(s, j, gone); } else { SolvedOnKeeps(s, j, gone); }
      }
    case DryRunReturns(_, ok) =>
      if stage.Drying? {
        if ok { AdvanceKeeps(s, j, Sending); } else { RetryKeeps(s, j, MAX_ATTEMPTS); }
      }
    case SendReturns(_, tx, until) =>
      if stage.Sending? { SentKeeps(s, j, tx, until); }
    case ReceiptReturns(_, receipt) =>
      if stage.Mining? {
        match receipt
        case Unreadable => ThrowKeeps(s, j); UnmovedOrders(s, j);
        case Mined(true) => FillKeeps(s, j);
        case _ => RetryKeeps(s, j, MAX_ATTEMPTS);
      }
    case PairThrows(_) =>
      if !stage.Done? { ThrowKeeps(s, j); UnmovedOrders(s, j); }
  }

  lemma UnmovedOrders(s: State, j: nat)
    requires HasJob(s, j)
    ensures Lawful(s.orders, WithJob(s, j, Job({}, Done)).orders)
  {
  }
}
