// The slot-handoff semaphore: at most `max` requests of one client in flight,
// the rest queue and are handed a slot by the one that finishes.
module InflightCap {
  import opened Common

  type Key = string
  type Id = nat

  /** The life of one acquire: the promise is pending, resolved with a releaser, released, or resolved with null. */
  datatype Phase = Waiting | Held | Returned | TimedOut

  datatype Ticket = Ticket(key: Key, phase: Phase)

  /** `tickets` lists every acquire that found a cap to respect, in call order. */
  datatype State = State(counts: map<Key, nat>, waiters: map<Key, seq<Id>>, tickets: seq<Ticket>)

  function CountOf(s: State, key: Key): nat {
    if key in s.counts then s.counts[key] else 0
  }

  function QueueOf(s: State, key: Key): seq<Id> {
    if key in s.waiters then s.waiters[key] else []
  }

  function Mark(s: State, id: Id, phase: Phase): State
    requires id < |s.tickets|
  {
    s.(tickets := s.tickets[id := s.tickets[id].(phase := phase)])
  }

  /** waiters.set, with the empty list deleted. */
  function WithQueue(s: State, key: Key, q: seq<Id>): State {
    s.(waiters := if q == [] then s.waiters - {key} else s.waiters[key := q])
  }

  // -------------------------------------------------- the three steps

  function Acquire(s: State, max: int, key: Key): State {
    if max <= 0 then s
    else if CountOf(s, key) < max then
      s.(counts := s.counts[key := CountOf(s, key) + 1], tickets := s.tickets + [Ticket(key, Held)])
    else
      s.(waiters := s.waiters[key := QueueOf(s, key) + [|s.tickets|]], tickets := s.tickets + [Ticket(key, Waiting)])
  }

  /** Calling a releaser; only a held or already returned ticket has one. */
  function Release(s: State, id: Id): State
    requires id < |s.tickets|
  {
    if !s.tickets[id].phase.Held? then s
    else
      var key := s.tickets[id].key;
      var done, q := Mark(s, id, Returned), QueueOf(s, key);
      if q != [] && q[0] < |s.tickets| then Mark(WithQueue(done, key, q[1..]), q[0], Held)
      else
        var n := if key in s.counts then s.counts[key] else 1;
        done.(counts := if n <= 1 then s.counts - {key} else s.counts[key := n - 1])
  }

  function Splice(q: seq<Id>, id: Id): seq<Id> {
    if q == [] then [] else if q[0] == id then q[1..] else [q[0]] + Splice(q[1..], id)
  }

  /** The timer firing; waking a waiter clears its timer. */
  function Timeout(s: State, id: Id): State
    requires id < |s.tickets|
  {
    if !s.tickets[id].phase.Waiting? then s
    else
      var key := s.tickets[id].key;
      Mark(if key in s.waiters then WithQueue(s, key, Splice(s.waiters[key], id)) else s, id, TimedOut)
  }

  // ------------------------------------------------------- invariant

  function HeldCount(ts: seq<Ticket>, key: Key): nat {
    if ts == [] then 0
    else
      var last := ts[|ts| - 1];
      HeldCount(ts[..|ts| - 1], key) + if last == Ticket(key, Held) then 1 else 0
  }

  /** The tickets waiting for a key, oldest first. */
  function WaitingIds(ts: seq<Ticket>, key: Key): seq<Id> {
    if ts == [] then []
    else
      var last := ts[|ts| - 1];
      WaitingIds(ts[..|ts| - 1], key) + if last == Ticket(key, Waiting) then [|ts| - 1] else []
  }

  ghost predicate NoOvertaking(ts: seq<Ticket>) {
    forall i, j :: 0 <= i < j < |ts| && ts[i].key == ts[j].key && ts[i].phase.Waiting? ==>
      ts[j].phase.Waiting? || ts[j].phase.TimedOut?
  }

  ghost predicate KeyOk(s: State, max: int, key: Key) {
    && CountOf(s, key) == HeldCount(s.tickets, key) <= max
    && (key in s.counts ==> s.counts[key] > 0)
    && QueueOf(s, key) == WaitingIds(s.tickets, key)
    && (key in s.waiters ==> s.waiters[key] != [] && CountOf(s, key) == max)
  }

  /**
   * A key's count is its granted, unreleased slots and never exceeds max; its
   * queue is exactly its waiting tickets, oldest first, and only exists while
   * the count is max; nobody is served before an older waiter of the same key.
   */
  ghost predicate Inv(s: State, max: int) {
    if max <= 0 then s == State(map[], map[], [])
    else (forall key :: KeyOk(s, max, key)) && NoOvertaking(s.tickets)
  }

  // ---------------------------------------- how a mark moves the counts

  lemma {:induction false} HeldAfterMark(ts: seq<Ticket>, id: Id, t: Ticket, key: Key)
    requires id < |ts|
    ensures HeldCount(ts[id := t], key) - HeldCount(ts, key)
         == (if t == Ticket(key, Held) then 1 else 0) - (if ts[id] == Ticket(key, Held) then 1 else 0)
    decreases |ts|
  {
    var n := |ts| - 1;
    if id < n {
      HeldAfterMark(ts[..n], id, t, key);
      assert ts[id := t][..n] == ts[..n][id := t];
    } else {
      assert ts[id := t][..n] == ts[..n];
    }
  }

  lemma {:induction false} WaitingAre(ts: seq<Ticket>, key: Key)
    ensures forall id :: id in WaitingIds(ts, key) <==> 0 <= id < |ts| && ts[id] == Ticket(key, Waiting)
    ensures forall i, j :: 0 <= i < j < |WaitingIds(ts, key)| ==> WaitingIds(ts, key)[i] < WaitingIds(ts, key)[j]
  {
    if ts != [] {
      var before := WaitingIds(ts[..|ts| - 1], key);
      WaitingAre(ts[..|ts| - 1], key);
      assert forall i :: 0 <= i < |before| ==> before[i] in before;
    }
  }

  lemma {:induction false} SpliceSnoc(q: seq<Id>, x: Id, id: Id)
    requires id !in q
    ensures Splice(q, id) == q
    ensures Splice(q + [x], id) == q + if x == id then [] else [x]
  {
    if q == [] {
      assert (q + [x])[1..] == [];
    } else {
      SpliceSnoc(q[1..], x, id);
      assert (q + [x])[1..] == q[1..] + [x];
    }
  }

  lemma {:induction false} SpliceAppend(q: seq<Id>, x: Id, id: Id)
    requires x != id
    ensures Splice(q + [x], id) == Splice(q, id) + [x]
  {
    if q == [] {
      assert (q + [x])[1..] == [];
    } else {
      SpliceAppend(q[1..], x, id);
      assert (q + [x])[1..] == q[1..] + [x];
    }
  }

  /** A ticket that stops waiting leaves its place in the queue of its key, and no other queue changes. */
  lemma {:induction false} WaitingAfterMark(ts: seq<Ticket>, id: Id, t: Ticket, key: Key)
    requires id < |ts| && !t.phase.Waiting?
    ensures WaitingIds(ts[id := t], key) == Splice(WaitingIds(ts, key), id)
    decreases |ts|
  {
    var n := |ts| - 1;
    var rest, marked := ts[..n], ts[id := t];
    WaitingAre(rest, key);
    WaitingSnoc(ts, key);
    WaitingSnoc(marked, key);
    hide WaitingIds, Splice;
    assert WaitingIds(rest, key) + [] == WaitingIds(rest, key);
    if id < n {
      WaitingAfterMark(rest, id, t, key);
      assert marked[..n] == rest[id := t];
      SpliceAppend(WaitingIds(rest, key), n, id);
      assert Splice(WaitingIds(rest, key), id) + [] == Splice(WaitingIds(rest, key), id);
    } else {
      assert marked[..n] == rest;
      SpliceSnoc(WaitingIds(rest, key), n, id);
    }
  }

  lemma WaitingSnoc(ts: seq<Ticket>, key: Key)
    requires ts != []
    ensures var n := |ts| - 1;
            WaitingIds(ts, key) == WaitingIds(ts[..n], key) + if ts[n] == Ticket(key, Waiting) then [n] else []
  {
  }

  lemma NotQueued(q: seq<Id>, id: Id)
    requires id !in q
    ensures Splice(q, id) == q
  {
    SpliceSnoc(q, 0, id);
  }

  // --------------------------------------------- every step keeps it

  lemma OneMoreTicket(ts: seq<Ticket>, t: Ticket, k: Key)
    ensures HeldCount(ts + [t], k) == HeldCount(ts, k) + if t == Ticket(k, Held) then 1 else 0
    ensures WaitingIds(ts + [t], k) == if t == Ticket(k, Waiting) then WaitingIds(ts, k) + [|ts|] else WaitingIds(ts, k)
  {
    var all := ts + [t];
    assert all[..|all| - 1] == ts && all[|all| - 1] == t;
    assert WaitingIds(ts, k) + [] == WaitingIds(ts, k);
  }

  lemma AcquireKeepsKey(s: State, max: int, key: Key, k: Key)
    requires max > 0 && KeyOk(s, max, key) && KeyOk(s, max, k)
    ensures KeyOk(Acquire(s, max, key), max, k)
  {
    OneMoreTicket(s.tickets, Ticket(key, Held), k);
    OneMoreTicket(s.tickets, Ticket(key, Waiting), k);
    hide HeldCount, WaitingIds;
  }

  lemma AcquireKeeps(s: State, max: int, key: Key)
    requires Inv(s, max)
    ensures Inv(Acquire(s, max, key), max)
  {
    if max > 0 {
      var s' := Acquire(s, max, key);
      forall k ensures KeyOk(s', max, k) {
        AcquireKeepsKey(s, max, key, k);
      }
      assert KeyOk(s, max, key);
      WaitingAre(s.tickets, key);
      if CountOf(s, key) < max {
        assert QueueOf(s, key) == [];
        assert forall i :: 0 <= i < |s.tickets| && s.tickets[i].key == key ==>
          s.tickets[i].phase.Waiting? ==> i in WaitingIds(s.tickets, key);
      }
    }
  }

  lemma ReleaseKeepsKey(s: State, max: int, id: Id, k: Key)
    requires max > 0 && id < |s.tickets| && KeyOk(s, max, s.tickets[id].key) && KeyOk(s, max, k)
    ensures KeyOk(Release(s, id), max, k)
  {
    var key, t := s.tickets[id].key, s.tickets[id];
    if t.phase.Held? {
      var done := t.(phase := Returned);
      var ts := s.tickets[id := done];
      WaitingAre(s.tickets, key);
      WaitingAre(s.tickets, k);
      HeldAfterMark(s.tickets, id, done, k);
      HeldAfterMark(s.tickets, id, done, key);
      WaitingAfterMark(s.tickets, id, done, k);
      NotQueued(WaitingIds(s.tickets, k), id);
      var q := QueueOf(s, key);
      if q != [] {
        assert q[0] in q;
        var next := Ticket(key, Held);
        HeldAfterMark(ts, q[0], next, k);
        WaitingAfterMark(ts, q[0], next, k);
        if k != key {
          NotQueued(WaitingIds(ts, k), q[0]);
        }
      }
    }
  }

  /** A slot goes to the oldest waiter, who precedes every other one of the key. */
  lemma ReleaseKeeps(s: State, max: int, id: Id)
    requires Inv(s, max) && id < |s.tickets|
    ensures Inv(Release(s, id), max)
  {
    if max > 0 && s.tickets[id].phase.Held? {
      var key, s' := s.tickets[id].key, Release(s, id);
      forall k ensures KeyOk(s', max, k) {
        ReleaseKeepsKey(s, max, id, k);
      }
      assert KeyOk(s, max, key);
      WaitingAre(s.tickets, key);
      var q := QueueOf(s, key);
      if q != [] {
        assert forall j :: 0 <= j < |s.tickets| && s.tickets[j] == Ticket(key, Waiting) ==> j in q;
        assert forall j :: j in q ==> q[0] <= j;
      }
    }
  }

  lemma TimeoutKeepsKey(s: State, max: int, id: Id, k: Key)
    requires max > 0 && id < |s.tickets| && KeyOk(s, max, s.tickets[id].key) && KeyOk(s, max, k)
    ensures KeyOk(Timeout(s, id), max, k)
  {
    var t := s.tickets[id];
    if t.phase.Waiting? {
      var gone := t.(phase := TimedOut);
      WaitingAre(s.tickets, t.key);
      WaitingAre(s.tickets, k);
      HeldAfterMark(s.tickets, id, gone, k);
      WaitingAfterMark(s.tickets, id, gone, k);
      if k != t.key {
        NotQueued(WaitingIds(s.tickets, k), id);
      }
    }
  }

  lemma TimeoutKeeps(s: State, max: int, id: Id)
    requires Inv(s, max) && id < |s.tickets|
    ensures Inv(Timeout(s, id), max)
  {
    if max > 0 {
      forall k ensures KeyOk(Timeout(s, id), max, k) {
        TimeoutKeepsKey(s, max, id, k);
      }
    }
  }

  // ---------------------------------------------- every interleaving

  datatype Event = DoAcquire(key: Key) | DoRelease(id: Id) | DoTimeout(id: Id)

  function Apply(s: State, max: int, e: Event): State {
    match e
    case DoAcquire(key) => Acquire(s, max, key)
    case DoRelease(id) => if id < |s.tickets| then Release(s, id) else s
    case DoTimeout(id) => if id < |s.tickets| then Timeout(s, id) else s
  }

  function Run(s: State, max: int, events: seq<Event>): State
    decreases |events|
  {
    if events == [] then s else Run(Apply(s, max, events[0]), max, events[1..])
  }

  const EMPTY := State(map[], map[], [])

  lemma {:induction false} RunKeeps(s: State, max: int, events: seq<Event>)
    requires Inv(s, max)
    ensures Inv(Run(s, max, events), max)
    decreases |events|
  {
    if events != [] {
      var e := events[0];
      match e {
        case DoAcquire(key) => AcquireKeeps(s, max, key);
        case DoRelease(id) => if id < |s.tickets| { ReleaseKeeps(s, max, id); }
        case DoTimeout(id) => if id < |s.tickets| { TimeoutKeeps(s, max, id); }
      }
      RunKeeps(Apply(s, max, e), max, events[1..]);
    }
  }

  /**
   * After any interleaving of acquires, releases (also repeated ones) and
   * timeouts: the count of a key is its slots in use and at most max; waiters
   * exist only while every slot is in use; and once every granted slot has
   * been returned nothing is counted and nobody waits: no slot is lost.
   */
  lemma EveryInterleaving(max: int, events: seq<Event>, key: Key)
    requires max > 0
    ensures var s := Run(EMPTY, max, events);
            && CountOf(s, key) == HeldCount(s.tickets, key) <= max
            && QueueOf(s, key) == WaitingIds(s.tickets, key)
            && (QueueOf(s, key) != [] ==> HeldCount(s.tickets, key) == max)
            && (HeldCount(s.tickets, key) == 0 ==> key !in s.counts && key !in s.waiters)
            && NoOvertaking(s.tickets)
  {
    assert Inv(EMPTY, max) by {
      forall k ensures KeyOk(EMPTY, max, k) {
      }
    }
    RunKeeps(EMPTY, max, events);
    assert KeyOk(Run(EMPTY, max, events), max, key);
  }

  /** Releasing twice is releasing once. */
  lemma DoubleReleaseIsHarmless(s: State, max: int, id: Id)
    requires Inv(s, max) && max > 0 && id < |s.tickets|
    ensures Release(Release(s, id), id) == Release(s, id)
  {
    assert KeyOk(s, max, s.tickets[id].key);
    WaitingAre(s.tickets, s.tickets[id].key);
    var q := QueueOf(s, s.tickets[id].key);
    if q != [] {
      assert q[0] in q;
    }
  }

  /** With waiters, a release hands its slot to the oldest of them and leaves the count alone. */
  lemma ReleaseServesOldest(s: State, max: int, id: Id)
    requires Inv(s, max) && max > 0 && id < |s.tickets| && s.tickets[id].phase.Held?
    requires QueueOf(s, s.tickets[id].key) != []
    ensures var key, s' := s.tickets[id].key, Release(s, id);
            var oldest := QueueOf(s, key)[0];
            && oldest < |s.tickets|
            && s'.tickets == s.tickets[id := Ticket(key, Returned)][oldest := Ticket(key, Held)]
            && s'.counts == s.counts && QueueOf(s', key) == QueueOf(s, key)[1..]
            && (forall j :: 0 <= j < |s.tickets| && s.tickets[j] == Ticket(key, Waiting) ==> oldest <= j)
  {
    var key := s.tickets[id].key;
    assert KeyOk(s, max, key);
    WaitingAre(s.tickets, key);
    var q := QueueOf(s, key);
    assert q[0] in q;
    assert forall j :: j in q ==> q[0] <= j;
  }

  // ------------------------------------------- who waits, and how long

  lemma {:induction false} ReachedIsInv(max: int, events: seq<Event>)
    requires max > 0
    ensures Inv(Run(EMPTY, max, events), max)
  {
    assert Inv(EMPTY, max) by {
      forall k ensures KeyOk(EMPTY, max, k) {
      }
    }
    RunKeeps(EMPTY, max, events);
  }

  /** No older ticket of its key is waiting. */
  ghost predicate IsOldestWaiter(ts: seq<Ticket>, id: Id) {
    && id < |ts| && ts[id].phase.Waiting?
    && forall j :: 0 <= j < id ==> ts[j] != Ticket(ts[id].key, Waiting)
  }

  /** The release of a held slot, with somebody waiting for it or nobody. */
  lemma ReleasedTickets(s: State, max: int, id: Id)
    requires Inv(s, max) && max > 0 && id < |s.tickets| && s.tickets[id].phase.Held?
    ensures var key, after := s.tickets[id].key, Release(s, id).tickets;
            && |after| == |s.tickets|
            && forall j :: 0 <= j < |s.tickets| ==>
                 after[j] == Ticket(s.tickets[j].key,
                                    if j == id then Returned
                                    else if s.tickets[j].key == key && IsOldestWaiter(s.tickets, j) then Held
                                    else s.tickets[j].phase)
  {
    var key := s.tickets[id].key;
    assert KeyOk(s, max, key);
    WaitingAre(s.tickets, key);
    var q := QueueOf(s, key);
    if q != [] {
      ReleaseServesOldest(s, max, id);
      assert q[0] in q && s.tickets[q[0]] == Ticket(key, Waiting);
      forall j | 0 <= j < |s.tickets| ensures s.tickets[j].key == key && IsOldestWaiter(s.tickets, j) <==> j == q[0] {
        if s.tickets[j].key == key && IsOldestWaiter(s.tickets, j) { assert j in q; }
      }
    } else {
      forall j | 0 <= j < |s.tickets| ensures s.tickets[j] != Ticket(key, Waiting) {
        assert j in q <==> s.tickets[j] == Ticket(key, Waiting);
      }
    }
    hide WaitingIds, HeldCount;
  }

  /**
   * What each event does to the tickets, after any run. A new acquire holds a
   * slot exactly when fewer than max slots of its key are in use, and
   * otherwise waits. A ticket is handed a slot exactly when it is the oldest
   * waiter of its key and a held slot of that key is released; it times out
   * exactly by its own timer, while it waits; and it is returned exactly by
   * its own releaser, while it holds a slot.
   */
  lemma TicketsChangeIff(max: int, events: seq<Event>, e: Event)
    requires max > 0
    ensures var s := Run(EMPTY, max, events);
            var before, after := s.tickets, Apply(s, max, e).tickets;
            && |after| == |before| + (if e.DoAcquire? then 1 else 0)
            && (e.DoAcquire? ==>
                  after[|before|] == Ticket(e.key, if HeldCount(before, e.key) < max then Held else Waiting))
            && (forall id :: 0 <= id < |before| ==>
                  && after[id].key == before[id].key
                  && (after[id].phase != before[id].phase
                      <==> || (e == DoTimeout(id) && before[id].phase.Waiting?)
                           || (e == DoRelease(id) && before[id].phase.Held?)
                           || (IsOldestWaiter(before, id) && e.DoRelease? && e.id < |before| && before[e.id] == Ticket(before[id].key, Held)))
                  && (e == DoTimeout(id) && before[id].phase.Waiting? ==> after[id].phase == TimedOut)
                  && (e == DoRelease(id) && before[id].phase.Held? ==> after[id].phase == Returned)
                  && (e.DoRelease? && e.id != id && after[id].phase != before[id].phase ==> after[id].phase == Held))
  {
    ReachedIsInv(max, events);
    var s := Run(EMPTY, max, events);
    EventChanges(s, max, e);
  }

  lemma EventChanges(s: State, max: int, e: Event)
    requires Inv(s, max) && max > 0
    ensures var before, after := s.tickets, Apply(s, max, e).tickets;
            && |after| == |before| + (if e.DoAcquire? then 1 else 0)
            && (e.DoAcquire? ==>
                  after[|before|] == Ticket(e.key, if HeldCount(before, e.key) < max then Held else Waiting))
            && (forall id :: 0 <= id < |before| ==>
                  && after[id].key == before[id].key
                  && (after[id].phase != before[id].phase
                      <==> || (e == DoTimeout(id) && before[id].phase.Waiting?)
                           || (e == DoRelease(id) && before[id].phase.Held?)
                           || (IsOldestWaiter(before, id) && e.DoRelease? && e.id < |before| && before[e.id] == Ticket(before[id].key, Held)))
                  && (e == DoTimeout(id) && before[id].phase.Waiting? ==> after[id].phase == TimedOut)
                  && (e == DoRelease(id) && before[id].phase.Held? ==> after[id].phase == Returned)
                  && (e.DoRelease? && e.id != id && after[id].phase != before[id].phase ==> after[id].phase == Held))
  {
    match e
    case DoAcquire(key) => assert KeyOk(s, max, key);
    case DoTimeout(_) =>
    case DoRelease(id) =>
      if id < |s.tickets| && s.tickets[id].phase.Held? {
        ReleasedTickets(s, max, id);
      }
    hide Inv, HeldCount, IsOldestWaiter;
  }

  /** How many tickets wait for a key. */
  function Waiters(ts: seq<Ticket>, key: Key): nat {
    if ts == [] then 0 else Waiters(ts[..|ts| - 1], key) + if ts[|ts| - 1] == Ticket(key, Waiting) then 1 else 0
  }

  /** How many releases of held slots of a key a run has. */
  function Releases(s: State, max: int, events: seq<Event>, key: Key): nat
    decreases |events|
  {
    if events == [] then 0
    else
      var e := events[0];
      (if e.DoRelease? && e.id < |s.tickets| && s.tickets[e.id] == Ticket(key, Held) then 1 else 0)
        + Releases(Apply(s, max, e), max, events[1..], key)
  }

  /** If tickets only leave the waiting ones, and the oldest one does when `served`, there are fewer of them. */
  lemma {:induction false} FewerWait(ts: seq<Ticket>, us: seq<Ticket>, key: Key, served: bool)
    requires |us| == |ts| && forall j :: 0 <= j < |ts| ==> us[j] == Ticket(key, Waiting) ==> ts[j] == Ticket(key, Waiting)
    requires served ==> exists j :: 0 <= j < |ts| && ts[j] == Ticket(key, Waiting) && us[j] != Ticket(key, Waiting)
    ensures Waiters(us, key) + (if served then 1 else 0) <= Waiters(ts, key)
    decreases |ts|
  {
    if ts != [] {
      var n := |ts| - 1;
      var earlier := served && !(ts[n] == Ticket(key, Waiting) && us[n] != Ticket(key, Waiting));
      if earlier {
        var j :| 0 <= j < |ts| && ts[j] == Ticket(key, Waiting) && us[j] != Ticket(key, Waiting);
        assert ts[..n][j] == ts[j] && us[..n][j] == us[j];
      }
      FewerWait(ts[..n], us[..n], key, earlier);
    }
  }

  lemma {:induction false} OldestBefore(ts: seq<Ticket>, id: Id) returns (oldest: Id)
    requires id < |ts| && ts[id].phase.Waiting?
    ensures oldest <= id && ts[oldest].key == ts[id].key && IsOldestWaiter(ts, oldest)
    decreases id
  {
    oldest := id;
    if j :| 0 <= j < id && ts[j] == Ticket(ts[id].key, Waiting) {
      oldest := OldestBefore(ts, j);
    }
  }

  /** A slot once granted is held or returned from then on. */
  lemma {:induction false} GrantedStays(s: State, max: int, events: seq<Event>, id: Id)
    requires Inv(s, max) && max > 0 && id < |s.tickets| && (s.tickets[id].phase.Held? || s.tickets[id].phase.Returned?)
    ensures var s' := Run(s, max, events);
            id < |s'.tickets| && (s'.tickets[id].phase.Held? || s'.tickets[id].phase.Returned?)
    decreases |events|
  {
    if events != [] {
      EventChanges(s, max, events[0]);
      RunKeeps(s, max, [events[0]]);
      assert [events[0]][1..] == [] && Run(Apply(s, max, events[0]), max, []) == Apply(s, max, events[0]);
      hide Inv, Apply;
      GrantedStays(Apply(s, max, events[0]), max, events[1..], id);
    }
  }

  /** One event and a waiter it leaves waiting: each release of the key has taken one waiter from before it. */
  lemma OneCloser(s: State, max: int, e: Event, id: Id)
    requires Inv(s, max) && max > 0 && id < |s.tickets| && s.tickets[id].phase.Waiting? && e != DoTimeout(id)
    ensures var s' := Apply(s, max, e);
            var key := s.tickets[id].key;
            var counts := e.DoRelease? && e.id < |s.tickets| && s.tickets[e.id] == Ticket(key, Held);
            && id < |s'.tickets| && s'.tickets[id].key == key && (s'.tickets[id].phase.Waiting? || s'.tickets[id].phase.Held?)
            && (s'.tickets[id].phase.Waiting? ==>
                  Waiters(s'.tickets[..id], key) + (if counts then 1 else 0) <= Waiters(s.tickets[..id], key))
  {
    EventChanges(s, max, e);
    var s', key := Apply(s, max, e), s.tickets[id].key;
    hide Inv, Apply;
    if s'.tickets[id].phase.Waiting? {
      var counts := e.DoRelease? && e.id < |s.tickets| && s.tickets[e.id] == Ticket(key, Held);
      if counts {
        var oldest := OldestBefore(s.tickets, id);
        assert s.tickets[..id][oldest] == Ticket(key, Waiting) && s'.tickets[..id][oldest] != Ticket(key, Waiting);
      }
      FewerWait(s.tickets[..id], s'.tickets[..id], key, counts);
    }
  }

  /**
   * A waiter whose timer does not fire is served in its turn: after more
   * releases of its key than there were waiters before it, whatever else
   * happens in between, it has been handed a slot.
   */
  lemma {:induction false} WaiterIsServed(s: State, max: int, events: seq<Event>, id: Id)
    requires Inv(s, max) && max > 0 && id < |s.tickets| && s.tickets[id].phase.Waiting?
    requires forall e <- events :: e != DoTimeout(id)
    ensures var s', key := Run(s, max, events), s.tickets[id].key;
            && id < |s'.tickets|
            && (Waiters(s.tickets[..id], key) < Releases(s, max, events, key) ==>
                  s'.tickets[id].phase.Held? || s'.tickets[id].phase.Returned?)
    decreases |events|
  {
    if events != [] {
      var e, s' := events[0], Apply(s, max, events[0]);
      assert e in events;
      OneCloser(s, max, e, id);
      RunKeeps(s, max, [e]);
      assert [e][1..] == [] && Run(s', max, []) == s';
      hide Inv, Apply;
      assert forall later <- events[1..] :: later in events;
      if s'.tickets[id].phase.Waiting? {
        WaiterIsServed(s', max, events[1..], id);
      } else {
        GrantedStays(s', max, events[1..], id);
      }
    }
  }

  // ------------------------------------------------------- the class

  /** The gateway's class; its methods are the atomic steps between awaits. */
  class Cap {
    const max: int
    var counts: map<Key, nat>
    var waiters: map<Key, seq<Id>>
    var tickets: seq<Ticket>

    function Now(): State
      reads this
    {
      State(counts, waiters, tickets)
    }

    ghost predicate Valid()
      reads this
    {
      Inv(Now(), max)
    }

    constructor (max: int)
      ensures Valid() && this.max == max && Now() == EMPTY
    {
      this.max := max;
      counts, waiters, tickets := map[], map[], [];
      new;
      forall k ensures max > 0 ==> KeyOk(EMPTY, max, k) {
      }
    }

    /** Take a slot or queue for one; None when there is no cap. */
    method TakeOrQueue(key: Key) returns (ticket: Option<Id>)
      requires Valid()
      modifies this
      ensures Valid() && Now() == Acquire(old(Now()), max, key)
      ensures ticket == if max <= 0 then None else Some(old(|tickets|))
    {
      AcquireKeeps(Now(), max, key);
      if max <= 0 { return None; }
      ticket := Some(|tickets|);
      var count := if key in counts then counts[key] else 0;
      if count < max {
        counts := counts[key := count + 1];
        tickets := tickets + [Ticket(key, Held)];
      } else {
        var q := if key in waiters then waiters[key] else [];
        waiters := waiters[key := q + [|tickets|]];
        tickets := tickets + [Ticket(key, Waiting)];
      }
    }

    /** The releaser of a ticket: pass the slot on, or give it back. */
    method GiveBack(id: Id)
      requires Valid() && id < |tickets|
      modifies this
      ensures Valid() && Now() == Release(old(Now()), id)
    {
      ReleaseKeeps(Now(), max, id);
      if !tickets[id].phase.Held? { return; }
      var key := tickets[id].key;
      tickets := tickets[id := Ticket(key, Returned)];
      if key in waiters && waiters[key] != [] && waiters[key][0] < |tickets| {
        var next := waiters[key][0];
        waiters := if waiters[key][1..] == [] then waiters - {key} else waiters[key := waiters[key][1..]];
        tickets := tickets[next := tickets[next].(phase := Held)];
        return;
      }
      var n := if key in counts then counts[key] else 1;
      counts := if n <= 1 then counts - {key} else counts[key := n - 1];
    }

    /** The timer of a waiting ticket. */
    method GiveUp(id: Id)
      requires Valid() && id < |tickets|
      modifies this
      ensures Valid() && Now() == Timeout(old(Now()), id)
    {
      TimeoutKeeps(Now(), max, id);
      if !tickets[id].phase.Waiting? { return; }
      var key := tickets[id].key;
      if key in waiters {
        var rest := Splice(waiters[key], id);
        waiters := if rest == [] then waiters - {key} else waiters[key := rest];
      }
      tickets := tickets[id := tickets[id].(phase := TimedOut)];
    }
  }
}
