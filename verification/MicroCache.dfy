// The bounded TTL cache with in-flight coalescing. Entries keep a JavaScript
// Map's insertion order; loads are promises, listed in the order they started.
module MicroCache {
  import opened Common

  type Key = string

  /** A JavaScript value; a cached `undefined` reads as a miss. */
  datatype Value = Undefined | Defined(v: nat)

  datatype Entry = Entry(key: Key, value: Value, expiresAt: int)

  datatype Phase = Running | Resolved(value: Value) | Rejected

  datatype Load = Load(key: Key, phase: Phase)

  /** `last` is history: the latest value set with a positive TTL, per key. */
  datatype State = State(entries: seq<Entry>, inflight: map<Key, nat>, loads: seq<Load>, last: map<Key, (Value, int)>)

  const EMPTY := State([], map[], [], map[])

  // -------------------------------------------- the insertion-ordered map

  function Find(es: seq<Entry>, key: Key): (r: Option<nat>)
    ensures r.None? <==> forall e <- es :: e.key != key
    ensures r.Some? ==> r.value < |es| && es[r.value].key == key
  {
    if es == [] then None
    else if es[0].key == key then Some(0)
    else match Find(es[1..], key) case None => None case Some(i) => Some(i + 1)
  }

  function Delete(es: seq<Entry>, key: Key): seq<Entry> {
    match Find(es, key)
    case None => es
    case Some(i) => es[..i] + es[i + 1..]
  }

  /** Map.set: an existing key keeps its place. */
  function Put(es: seq<Entry>, e: Entry): seq<Entry> {
    match Find(es, e.key)
    case None => es + [e]
    case Some(i) => es[i := e]
  }

  // -------------------------------------------------------- the steps

  function GetValue(s: State, key: Key, now: int): Value {
    match Find(s.entries, key)
    case None => Undefined
    case Some(i) => if s.entries[i].expiresAt <= now then Undefined else s.entries[i].value
  }

  function Get(s: State, key: Key, now: int): State {
    match Find(s.entries, key)
    case None => s
    case Some(i) => if s.entries[i].expiresAt <= now then s.(entries := Delete(s.entries, key)) else s
  }

  function Set(s: State, max: nat, key: Key, value: Value, ttl: int, now: int): State {
    if ttl <= 0 then s
    else
      var room := if |s.entries| >= max && s.entries != [] then s.entries[1..] else s.entries;
      s.(entries := Put(room, Entry(key, value, now + ttl)), last := s.last[key := (value, now + ttl)])
  }

  datatype Reply = Hit(value: Value) | Awaits(load: nat)

  /** What a call of through gets: a cached value, or a load to wait for. */
  function ThroughReply(s: State, key: Key, now: int): Reply {
    var v := GetValue(s, key, now);
    if v != Undefined then Hit(v)
    else if key in s.inflight then Awaits(s.inflight[key])
    else Awaits(|s.loads|)
  }

  /**
   * A call of through. A loader that throws before it returns a promise runs
   * the `finally` first and is entered into `inflight` afterwards.
   */
  function Through(s: State, key: Key, now: int, throwsNow: bool): State {
    var s' := Get(s, key, now);
    if GetValue(s, key, now) != Undefined || key in s.inflight then s'
    else s'.(loads := s.loads + [Load(key, if throwsNow then Rejected else Running)],
             inflight := s.inflight[key := |s.loads|])
  }

  datatype Ending = Success(value: Value, ttl: int) | Failure

  /** A running load settles: cache the value, then leave `inflight`. */
  function Settle(s: State, max: nat, id: nat, ending: Ending, now: int): State
    requires id < |s.loads|
  {
    var key := s.loads[id].key;
    if !s.loads[id].phase.Running? then s
    else
      match ending
      case Success(value, ttl) =>
        var done := Set(s, max, key, value, ttl, now);
        done.(inflight := s.inflight - {key}, loads := s.loads[id := Load(key, Resolved(value))])
      case Failure => s.(inflight := s.inflight - {key}, loads := s.loads[id := Load(key, Rejected)])
  }

  // -------------------------------------------------------- invariant

  ghost predicate DistinctKeys(es: seq<Entry>) {
    forall i, j :: 0 <= i < j < |es| ==> es[i].key != es[j].key
  }

  /** Whatever is stored is the latest positive-TTL value of its key. */
  ghost predicate FromLast(es: seq<Entry>, last: map<Key, (Value, int)>) {
    forall e <- es :: e.key in last && last[e.key] == (e.value, e.expiresAt)
  }

  ghost predicate Inv(s: State, max: nat) {
    && DistinctKeys(s.entries) && FromLast(s.entries, s.last) && |s.entries| <= max
    && (forall key :: key in s.inflight ==> s.inflight[key] < |s.loads| && s.loads[s.inflight[key]].key == key)
    && (forall id :: 0 <= id < |s.loads| && s.loads[id].phase.Running? ==>
          s.loads[id].key in s.inflight && s.inflight[s.loads[id].key] == id)
  }

  lemma DeleteKeeps(es: seq<Entry>, key: Key, last: map<Key, (Value, int)>)
    requires DistinctKeys(es) && FromLast(es, last)
    ensures DistinctKeys(Delete(es, key)) && FromLast(Delete(es, key), last)
    ensures |Delete(es, key)| <= |es| && forall e <- Delete(es, key) :: e in es && e.key != key
  {
    var es' := Delete(es, key);
    match Find(es, key)
    case None =>
    case Some(i) =>
      assert forall j :: 0 <= j < |es'| ==> es'[j] == if j < i then es[j] else es[j + 1];
  }

  lemma PutKeeps(es: seq<Entry>, e: Entry, last: map<Key, (Value, int)>)
    requires DistinctKeys(es) && FromLast(es, last)
    ensures DistinctKeys(Put(es, e)) && |Put(es, e)| <= |es| + 1
    ensures FromLast(Put(es, e), last[e.key := (e.value, e.expiresAt)])
    ensures e in Put(es, e)
  {
    var es' := Put(es, e);
    match Find(es, e.key)
    case None =>
      assert es'[|es|] == e;
    case Some(i) =>
      assert es'[i] == e;
  }

  lemma GetKeeps(s: State, max: nat, key: Key, now: int)
    requires Inv(s, max)
    ensures Inv(Get(s, key, now), max)
  {
    DeleteKeeps(s.entries, key, s.last);
  }

  lemma SetKeeps(s: State, max: nat, key: Key, value: Value, ttl: int, now: int)
    requires Inv(s, max) && max >= 1
    ensures Inv(Set(s, max, key, value, ttl, now), max)
  {
    hide Put, Find;
    if ttl > 0 {
      var room := if |s.entries| >= max && s.entries != [] then s.entries[1..] else s.entries;
      assert DistinctKeys(room) && FromLast(room, s.last);
      hide DistinctKeys, FromLast;
      PutKeeps(room, Entry(key, value, now + ttl), s.last);
    }
  }

  lemma ThroughKeeps(s: State, max: nat, key: Key, now: int, throwsNow: bool)
    requires Inv(s, max)
    ensures Inv(Through(s, key, now, throwsNow), max)
  {
    GetKeeps(s, max, key, now);
  }

  lemma SettleKeeps(s: State, max: nat, id: nat, ending: Ending, now: int)
    requires Inv(s, max) && max >= 1 && id < |s.loads|
    ensures Inv(Settle(s, max, id, ending, now), max)
  {
    if ending.Success? {
      SetKeeps(s, max, s.loads[id].key, ending.value, ending.ttl, now);
    }
  }

  // ------------------------------------------------------- every run

  datatype Event =
    | DoGet(key: Key, now: int)
    | DoSet(key: Key, value: Value, ttl: int, now: int)
    | DoThrough(key: Key, now: int, throwsNow: bool)
    | DoSettle(id: nat, ending: Ending, now: int)

  function Apply(s: State, max: nat, e: Event): State {
    match e
    case DoGet(key, now) => Get(s, key, now)
    case DoSet(key, value, ttl, now) => Set(s, max, key, value, ttl, now)
    case DoThrough(key, now, throwsNow) => Through(s, key, now, throwsNow)
    case DoSettle(id, ending, now) => if id < |s.loads| then Settle(s, max, id, ending, now) else s
  }

  function Run(s: State, max: nat, events: seq<Event>): State
    decreases |events|
  {
    if events == [] then s else Run(Apply(s, max, events[0]), max, events[1..])
  }

  lemma ApplyKeeps(s: State, max: nat, e: Event)
    requires Inv(s, max) && max >= 1
    ensures Inv(Apply(s, max, e), max)
  {
    match e
    case DoGet(key, now) => GetKeeps(s, max, key, now);
    case DoSet(key, value, ttl, now) => SetKeeps(s, max, key, value, ttl, now);
    case DoThrough(key, now, throwsNow) => ThroughKeeps(s, max, key, now, throwsNow);
    case DoSettle(id, ending, now) => if id < |s.loads| { SettleKeeps(s, max, id, ending, now); }
  }

  lemma {:induction false} RunKeeps(s: State, max: nat, events: seq<Event>)
    requires Inv(s, max) && max >= 1
    ensures Inv(Run(s, max, events), max)
    decreases |events|
  {
    if events != [] {
      ApplyKeeps(s, max, events[0]);
      RunKeeps(Apply(s, max, events[0]), max, events[1..]);
    }
  }

  /**
   * After every run: the cache holds at most maxEntries; a read that hits
   * returns the latest value set for the key with a positive TTL, unexpired;
   * and a key has at most one running load, the one its callers wait for.
   */
  lemma EveryRun(max: nat, events: seq<Event>, key: Key, now: int)
    requires max >= 1
    ensures var s := Run(EMPTY, max, events);
            && |s.entries| <= max
            && (GetValue(s, key, now) != Undefined ==>
                  key in s.last && GetValue(s, key, now) == s.last[key].0 && now < s.last[key].1)
            && (forall i, j :: 0 <= i < j < |s.loads| && s.loads[i].phase.Running? && s.loads[j].phase.Running? ==>
                  s.loads[i].key != s.loads[j].key)
            && (forall id :: 0 <= id < |s.loads| && s.loads[id].phase.Running? ==>
                  s.loads[id].key in s.inflight && s.inflight[s.loads[id].key] == id)
  {
    RunKeeps(EMPTY, max, events);
  }

  /** Fresh values are found: a set value is read back until it expires. */
  lemma SetThenGet(s: State, max: nat, key: Key, value: Value, ttl: int, now: int, later: int)
    requires Inv(s, max) && max >= 1 && ttl > 0 && later < now + ttl
    ensures GetValue(Set(s, max, key, value, ttl, now), key, later) == value
  {
    SetKeeps(s, max, key, value, ttl, now);
    var room := if |s.entries| >= max && s.entries != [] then s.entries[1..] else s.entries;
    assert DistinctKeys(room) && FromLast(room, s.last);
    PutKeeps(room, Entry(key, value, now + ttl), s.last);
    hide Put, Inv, FromLast;
    FoundIs(Set(s, max, key, value, ttl, now).entries, Entry(key, value, now + ttl));
  }

  /** With distinct keys, a stored entry is the one found. */
  lemma FoundIs(es: seq<Entry>, e: Entry)
    requires e in es && DistinctKeys(es)
    ensures var i := Find(es, e.key); i.Some? && es[i.value] == e
  {
    var k :| 0 <= k < |es| && es[k] == e;
  }

  /** A load's outcome, once there, never changes: every joiner sees the same one. */
  lemma {:induction false} OutcomeIsFinal(s: State, max: nat, events: seq<Event>, id: nat)
    requires id < |s.loads| && !s.loads[id].phase.Running?
    ensures var s' := Run(s, max, events); id < |s'.loads| && s'.loads[id] == s.loads[id]
    decreases |events|
  {
    if events != [] {
      OutcomeIsFinal(Apply(s, max, events[0]), max, events[1..], id);
    }
  }

  /** While a load runs, every call of through on its key that misses the cache joins it. */
  lemma CallersJoin(s: State, max: nat, id: nat, now: int)
    requires Inv(s, max) && id < |s.loads| && s.loads[id].phase.Running?
    requires GetValue(s, s.loads[id].key, now) == Undefined
    ensures ThroughReply(s, s.loads[id].key, now) == Awaits(id)
    ensures Through(s, s.loads[id].key, now, false).loads == s.loads
  {
  }

  // ----------------------------------------------- when a load fails

  /** A load runs until it settles, whatever else happens. */
  lemma {:induction false} RunsUntilSettled(s: State, max: nat, events: seq<Event>, id: nat)
    requires id < |s.loads| && s.loads[id].phase.Running? && forall e <- events :: e.DoSettle? ==> e.id != id
    ensures var s' := Run(s, max, events); id < |s'.loads| && s'.loads[id] == s.loads[id]
    decreases |events|
  {
    if events != [] {
      assert events[0] in events;
      RunsUntilSettled(Apply(s, max, events[0]), max, events[1..], id);
    }
  }

  /**
   * A promise that rejects is cached by nobody and binds nothing: the next
   * miss on its key starts a load of its own, which runs through whatever
   * else happens, and whose value, once it settles, is read back until it expires.
   */
  lemma RejectionIsForgotten(s: State, max: nat, id: nat, now: int, again: int, events: seq<Event>,
                             value: Value, ttl: int, end: int, later: int)
    requires Inv(s, max) && max >= 1 && id < |s.loads| && s.loads[id].phase.Running? && ttl > 0 && later < end + ttl
    requires GetValue(Settle(s, max, id, Failure, now), s.loads[id].key, again) == Undefined
    requires forall e <- events :: e.DoSettle? ==> e.id != |s.loads|
    ensures var key, failed, next := s.loads[id].key, Settle(s, max, id, Failure, now), |s.loads|;
            var loading := Run(Through(failed, key, again, false), max, events);
            && ThroughReply(failed, key, again) == Awaits(next)
            && next < |loading.loads| && loading.loads[next] == Load(key, Running)
            && GetValue(Settle(loading, max, next, Success(value, ttl), end), key, later) == value
  {
    var key, failed, next := s.loads[id].key, Settle(s, max, id, Failure, now), |s.loads|;
    var started := Through(failed, key, again, false);
    SettleKeeps(s, max, id, Failure, now);
    ThroughKeeps(failed, max, key, again, false);
    RunsUntilSettled(started, max, events, next);
    RunKeeps(started, max, events);
    var loading := Run(started, max, events);
    SetThenGet(loading, max, key, value, ttl, end, later);
  }

  /** The key is bound to a load that has already failed. */
  predicate Stuck(s: State, key: Key, id: nat) {
    key in s.inflight && s.inflight[key] == id < |s.loads| && s.loads[id] == Load(key, Rejected)
  }

  /** One call of through on an idle key leaves the key stuck exactly when its loader throws synchronously. */
  lemma SynchronousThrowSticks(s: State, max: nat, key: Key, now: int, throwsNow: bool)
    requires Inv(s, max) && key !in s.inflight && GetValue(s, key, now) == Undefined
    ensures (exists id :: Stuck(Through(s, key, now, throwsNow), key, id)) <==> throwsNow
  {
    if throwsNow {
      assert Stuck(Through(s, key, now, throwsNow), key, |s.loads|);
    }
  }

  /** And a stuck key stays stuck through every further event: each miss on it is answered by the dead load. */
  lemma {:induction false} StuckForever(s: State, max: nat, key: Key, id: nat, events: seq<Event>, now: int)
    requires Inv(s, max) && max >= 1 && Stuck(s, key, id)
    ensures var s' := Run(s, max, events);
            && Stuck(s', key, id)
            && (GetValue(s', key, now) == Undefined ==> ThroughReply(s', key, now) == Awaits(id))
    decreases |events|
  {
    if events != [] {
      var e := events[0];
      ApplyKeeps(s, max, e);
      if e.DoSettle? && e.id < |s.loads| && s.loads[e.id].phase.Running? {
        assert s.loads[e.id].key != key;
      }
      StuckForever(Apply(s, max, e), max, key, id, events[1..], now);
    }
  }

  // ------------------------------------- what stays, and in what order

  /** The entry an event writes: a set or a load that succeeds, with a positive TTL. */
  function Writes(s: State, e: Event): Option<Entry> {
    match e
    case DoSet(key, value, ttl, now) => if ttl > 0 then Some(Entry(key, value, now + ttl)) else None
    case DoSettle(id, Success(value, ttl), now) =>
      if id < |s.loads| && s.loads[id].phase.Running? && ttl > 0 then Some(Entry(s.loads[id].key, value, now + ttl)) else None
    case _ => None
  }

  /** The event looks an entry up after it has expired. */
  predicate FindsExpired(e: Event, x: Entry) {
    (e.DoGet? || e.DoThrough?) && e.key == x.key && x.expiresAt <= e.now
  }

  /** The entry makes room: something is written while the cache is full, and it was inserted before all others. */
  predicate MakesRoom(s: State, max: nat, e: Event, x: Entry) {
    Writes(s, e).Some? && |s.entries| >= max && s.entries != [] && x == s.entries[0]
  }

  /** What an event leaves in the cache: an entry goes only by being overwritten, by making room, or by being found expired. */
  lemma ContentsIff(s: State, max: nat, e: Event, x: Entry)
    requires Inv(s, max) && max >= 1
    ensures x in Apply(s, max, e).entries
       <==> || Writes(s, e) == Some(x)
            || (&& x in s.entries && !FindsExpired(e, x) && !MakesRoom(s, max, e, x)
                && (Writes(s, e).Some? ==> Writes(s, e).value.key != x.key))
  {
    hide Find, Put, Delete;
    match Writes(s, e)
    case Some(w) =>
      var room := if |s.entries| >= max && s.entries != [] then s.entries[1..] else s.entries;
      assert Apply(s, max, e).entries == Put(room, w);
      PutIff(room, w, x);
    case None =>
      if e.DoGet? || e.DoThrough? {
        DeleteIff(s.entries, e.key, x);
        if Find(s.entries, e.key).Some? { FoundIs(s.entries, s.entries[Find(s.entries, e.key).value]); }
      }
  }

  lemma PutIff(es: seq<Entry>, w: Entry, x: Entry)
    requires DistinctKeys(es)
    ensures x in Put(es, w) <==> x == w || (x in es && x.key != w.key)
  {
    match Find(es, w.key)
    case None =>
    case Some(i) =>
      var es' := es[i := w];
      assert es'[i] == w;
      if x in es && x.key != w.key {
        var k :| 0 <= k < |es| && es[k] == x;
        assert es'[k] == x;
      }
  }

  lemma DeleteIff(es: seq<Entry>, key: Key, x: Entry)
    requires DistinctKeys(es)
    ensures x in Delete(es, key) <==> x in es && x.key != key
  {
    match Find(es, key)
    case None =>
    case Some(i) =>
      var es' := Delete(es, key);
      assert forall j :: 0 <= j < |es'| ==> es'[j] == if j < i then es[j] else es[j + 1];
      if x in es && x.key != key {
        var k :| 0 <= k < |es| && es[k] == x;
        assert es'[if k < i then k else k - 1] == x;
      }
  }

  /** The one place a key has among entries with distinct keys. */
  lemma PlaceIs(es: seq<Entry>, key: Key, i: nat)
    requires DistinctKeys(es) && i < |es| && es[i].key == key
    ensures Find(es, key) == Some(i)
  {
  }

  lemma PutPlaces(es: seq<Entry>, w: Entry, k: Key)
    requires DistinctKeys(es)
    ensures DistinctKeys(Put(es, w))
    ensures Find(Put(es, w), k) == if k == w.key && Find(es, k).None? then Some(|es|) else Find(es, k)
  {
    hide Find;
    var es' := Put(es, w);
    PutKeeps(es, w, map x <- es :: x.key := (x.value, x.expiresAt));
    hide FromLast;
    match Find(es, k)
    case Some(i) => PlaceIs(es', k, i);
    case None => if k == w.key { PlaceIs(es', k, |es|); }
  }

  lemma TailPlaces(es: seq<Entry>, k: Key)
    requires DistinctKeys(es) && es != []
    ensures DistinctKeys(es[1..])
    ensures Find(es, es[0].key) == Some(0) && Find(es[1..], es[0].key).None?
    ensures k != es[0].key ==> Find(es, k) == match Find(es[1..], k) case None => None case Some(i) => Some(i + 1)
  {
  }

  /** Where an entry is found once the entry at place i is gone. */
  function WithoutPlace(x: Option<nat>, i: nat): Option<int> {
    match x case None => None case Some(y) => Some(if y < i then y else y - 1)
  }

  lemma FindHead(es: seq<Entry>, k: Key)
    requires es != []
    ensures Find(es, k) == if es[0].key == k then Some(0) else match Find(es[1..], k) case None => None case Some(i) => Some(i + 1)
  {
  }

  lemma DeleteHead(es: seq<Entry>, key: Key)
    requires es != []
    ensures Delete(es, key) == if es[0].key == key then es[1..] else [es[0]] + Delete(es[1..], key)
  {
    FindHead(es, key);
    hide Find;
    if es[0].key != key && Find(es[1..], key).Some? {
      var i := Find(es[1..], key).value;
      assert es[..i + 1] + es[i + 2..] == [es[0]] + (es[1..][..i] + es[1..][i + 1..]);
    }
  }

  lemma {:induction false} DeletePlaces(es: seq<Entry>, key: Key, k: Key)
    requires Find(es, key).Some? && k != key
    ensures |Delete(es, key)| == |es| - 1
    ensures Find(Delete(es, key), k) == WithoutPlace(Find(es, k), Find(es, key).value)
  {
    hide Find, Delete;
    FindHead(es, key);
    FindHead(es, k);
    DeleteHead(es, key);
    if es[0].key != key {
      var rest := Delete(es[1..], key);
      DeletePlaces(es[1..], key, k);
      FindHead([es[0]] + rest, k);
      assert ([es[0]] + rest)[1..] == rest;
    }
  }

  /** The one key was inserted before the other. */
  predicate Before(es: seq<Entry>, first: Key, second: Key) {
    var i, j := Find(es, first), Find(es, second);
    i.Some? && j.Some? && i.value < j.value
  }

  /** A write inserts a key anew if the cache did not hold it, or held it as the entry that makes room. */
  predicate Inserts(s: State, max: nat, e: Event, key: Key) {
    && Writes(s, e).Some? && Writes(s, e).value.key == key
    && (Find(s.entries, key).None? || (|s.entries| >= max && s.entries[0].key == key))
  }

  /** Entries keep their order through every event; a key inserted anew comes after all others, one overwritten keeps its place. */
  lemma OrderIff(s: State, max: nat, e: Event, j: Key, k: Key)
    requires Inv(s, max) && max >= 1 && j != k
    requires var es := Apply(s, max, e).entries; Find(es, j).Some? && Find(es, k).Some?
    ensures Before(Apply(s, max, e).entries, j, k)
       <==> !Inserts(s, max, e, j) && (Inserts(s, max, e, k) || Before(s.entries, j, k))
  {
    hide Delete, Put, Find, DistinctKeys, FromLast;
    var es := Apply(s, max, e).entries;
    if Writes(s, e).Some? {
      WritePlace(s, max, e, j);
      WritePlace(s, max, e, k);
    } else if es != s.entries {
      assert es == Delete(s.entries, e.key) && Find(s.entries, e.key).Some?;
      LookupOrder(s.entries, e.key, j, k);
    }
  }

  lemma LookupOrder(es: seq<Entry>, key: Key, j: Key, k: Key)
    requires DistinctKeys(es) && Find(es, key).Some?
    requires Find(Delete(es, key), j).Some? && Find(Delete(es, key), k).Some?
    ensures Before(Delete(es, key), j, k) <==> Before(es, j, k)
  {
    hide Find, Delete, DistinctKeys;
    var es' := Delete(es, key);
    DeleteIff(es, key, es'[Find(es', j).value]);
    DeleteIff(es, key, es'[Find(es', k).value]);
    DeletePlaces(es, key, j);
    DeletePlaces(es, key, k);
  }

  /** Where a write leaves a key: at the end if it was inserted, else where it was, one place earlier if the oldest made room. */
  lemma WritePlace(s: State, max: nat, e: Event, k: Key)
    requires Inv(s, max) && max >= 1 && Writes(s, e).Some?
    ensures var full, es, es' := |s.entries| >= max, s.entries, Apply(s, max, e).entries;
            && |es'| <= |es| + 1 && (full ==> |es'| <= |es|)
            && Find(es', k) == if Inserts(s, max, e, k) then Some(|es'| - 1)
                               else if !full then Find(es, k)
                               else match Find(es, k) case None => None case Some(i) => if i == 0 then None else Some(i - 1)
  {
    hide Find, Put;
    var w := Writes(s, e).value;
    var full := |s.entries| >= max;
    var room := if full then s.entries[1..] else s.entries;
    assert Apply(s, max, e).entries == Put(room, w);
    PutPlace(s.entries, full, w, k);
  }

  lemma PutPlace(es: seq<Entry>, full: bool, w: Entry, k: Key)
    requires DistinctKeys(es) && (full ==> es != [])
    ensures var es' := Put(if full then es[1..] else es, w);
            && |es'| <= |es| + 1 && (full ==> |es'| <= |es|)
            && Find(es', k) == if k == w.key && (Find(es, k).None? || (full && es[0].key == k)) then Some(|es'| - 1)
                               else if !full then Find(es, k)
                               else match Find(es, k) case None => None case Some(i) => if i == 0 then None else Some(i - 1)
  {
    hide Find, DistinctKeys;
    var room := if full then es[1..] else es;
    if full { TailPlaces(es, k); TailPlaces(es, w.key); }
    PutPlaces(room, w, k);
    PutPlaces(room, w, w.key);
  }

  // ------------------------------------------------- how long it stays

  /** The entries written over a run. */
  function Written(s: State, max: nat, events: seq<Event>): seq<Entry>
    decreases |events|
  {
    if events == [] then []
    else (if Writes(s, events[0]).Some? then [Writes(s, events[0]).value] else []) + Written(Apply(s, max, events[0]), max, events[1..])
  }

  /** The writes an entry surely outlives: one for each free place, and one for each entry older than it. */
  function Outlives(s: State, max: nat, place: nat): int {
    max - |s.entries| + place
  }

  /** An event that neither writes an entry's key nor finds it expired takes at most one off the writes it outlives, and only by writing. */
  lemma OutlivesStep(s: State, max: nat, e: Event, i: nat)
    requires Inv(s, max) && max >= 1 && i < |s.entries| && !FindsExpired(e, s.entries[i])
    requires Writes(s, e).Some? ==> Writes(s, e).value.key != s.entries[i].key && Outlives(s, max, i) > 0
    ensures var es' := Apply(s, max, e).entries;
            exists i' :: 0 <= i' < |es'| && es'[i'] == s.entries[i]
              && Outlives(Apply(s, max, e), max, i') >= Outlives(s, max, i) - if Writes(s, e).Some? then 1 else 0
  {
    hide Delete, Put, Find;
    var x, s' := s.entries[i], Apply(s, max, e);
    ApplyKeeps(s, max, e);
    PlaceIs(s.entries, x.key, i);
    if Writes(s, e).Some? {
      WritePlace(s, max, e, x.key);
    } else if s'.entries != s.entries {
      assert s'.entries == Delete(s.entries, e.key);
      DeletePlaces(s.entries, e.key, x.key);
    }
    ContentsIff(s, max, e, x);
    var i' :| 0 <= i' < |s'.entries| && s'.entries[i'] == x;
    PlaceIs(s'.entries, x.key, i');
  }

  /** A stored value stays readable until it expires, its key is written again, or more entries are written than it outlives. */
  lemma {:induction false} StaysReadable(s: State, max: nat, events: seq<Event>, i: nat, later: int)
    requires Inv(s, max) && max >= 1 && i < |s.entries| && later < s.entries[i].expiresAt
    requires forall e <- events :: !FindsExpired(e, s.entries[i])
    requires forall w <- Written(s, max, events) :: w.key != s.entries[i].key
    requires |Written(s, max, events)| <= Outlives(s, max, i)
    ensures GetValue(Run(s, max, events), s.entries[i].key, later) == s.entries[i].value
    decreases |events|
  {
    if events == [] {
      PlaceIs(s.entries, s.entries[i].key, i);
    } else {
      var e, s' := events[0], Apply(s, max, events[0]);
      OutlivesStep(s, max, e, i);
      ApplyKeeps(s, max, e);
      var i' :| 0 <= i' < |s'.entries| && s'.entries[i'] == s.entries[i]
        && Outlives(s', max, i') >= Outlives(s, max, i) - if Writes(s, e).Some? then 1 else 0;
      StaysReadable(s', max, events[1..], i', later);
    }
  }

  /** A value newly inserted is read back until it expires, whatever happens, through at least maxEntries - 1 writes of other keys. */
  lemma InsertedStays(s: State, max: nat, key: Key, value: Value, ttl: int, now: int, events: seq<Event>, later: int)
    requires Inv(s, max) && max >= 1 && ttl > 0 && later < now + ttl && Inserts(s, max, DoSet(key, value, ttl, now), key)
    requires forall e <- events :: (e.DoGet? || e.DoThrough?) && e.key == key ==> e.now < now + ttl
    requires var written := Written(Set(s, max, key, value, ttl, now), max, events);
             |written| <= max - 1 && forall w <- written :: w.key != key
    ensures GetValue(Run(Set(s, max, key, value, ttl, now), max, events), key, later) == value
  {
    var e, s' := DoSet(key, value, ttl, now), Set(s, max, key, value, ttl, now);
    hide Delete, Put, Find;
    ApplyKeeps(s, max, e);
    WritePlace(s, max, e, key);
    ContentsIff(s, max, e, Entry(key, value, now + ttl));
    var i :| 0 <= i < |s'.entries| && s'.entries[i] == Entry(key, value, now + ttl);
    PlaceIs(s'.entries, key, i);
    StaysReadable(s', max, events, i, later);
  }

  /** What a call of through waits for, in terms of what is stored: a live value starts nothing, a load under way is joined. */
  lemma AnswerIs(s: State, max: nat, key: Key, now: int, throwsNow: bool)
    requires Inv(s, max)
    ensures var live := (x: Entry) => x in s.entries && x.key == key && now < x.expiresAt && x.value != Undefined;
            var s' := Through(s, key, now, throwsNow);
            && (forall x :: live(x) ==> ThroughReply(s, key, now) == Hit(x.value) && s'.loads == s.loads)
            && ((forall x <- s.entries :: !live(x)) ==>
                  if key in s.inflight then ThroughReply(s, key, now) == Awaits(s.inflight[key]) && s'.loads == s.loads
                  else && ThroughReply(s, key, now) == Awaits(|s.loads|)
                       && s'.loads == s.loads + [Load(key, if throwsNow then Rejected else Running)])
  {
    match Find(s.entries, key)
    case None =>
    case Some(i) =>
      forall x | x in s.entries && x.key == key ensures x == s.entries[i] { FoundIs(s.entries, x); }
  }

  // -------------------------------------------------------- the class

  class Cache {
    const max: nat
    var entries: seq<Entry>
    var inflight: map<Key, nat>
    var loads: seq<Load>
    ghost var last: map<Key, (Value, int)>

    ghost function Now(): State
      reads this
    {
      State(entries, inflight, loads, last)
    }

    ghost predicate Valid()
      reads this
    {
      max >= 1 && Inv(Now(), max)
    }

    constructor (max: nat)
      requires max >= 1
      ensures Valid() && this.max == max && Now() == EMPTY
    {
      this.max := max;
      entries, inflight, loads, last := [], map[], [], map[];
    }

    method Read(key: Key, now: int) returns (v: Value)
      requires Valid()
      modifies this
      ensures Valid() && Now() == Get(old(Now()), key, now) && v == GetValue(old(Now()), key, now)
    {
      GetKeeps(Now(), max, key, now);
      var i := Find(entries, key);
      if i.None? { return Undefined; }
      if entries[i.value].expiresAt <= now {
        entries := Delete(entries, key);
        return Undefined;
      }
      return entries[i.value].value;
    }

    method Write(key: Key, value: Value, ttl: int, now: int)
      requires Valid()
      modifies this
      ensures Valid() && Now() == Set(old(Now()), max, key, value, ttl, now)
    {
      SetKeeps(Now(), max, key, value, ttl, now);
      if ttl <= 0 { return; }
      if |entries| >= max {
        if |entries| > 0 { entries := entries[1..]; }
      }
      entries := Put(entries, Entry(key, value, now + ttl));
      last := last[key := (value, now + ttl)];
    }

    /** through, up to its first await. */
    method Enter(key: Key, now: int, throwsNow: bool) returns (r: Reply)
      requires Valid()
      modifies this
      ensures Valid() && Now() == Through(old(Now()), key, now, throwsNow)
      ensures r == ThroughReply(old(Now()), key, now)
    {
      ThroughKeeps(Now(), max, key, now, throwsNow);
      var hit := Read(key, now);
      if hit != Undefined { return Hit(hit); }
      if key in inflight { return Awaits(inflight[key]); }
      var id := |loads|;
      loads := loads + [Load(key, if throwsNow then Rejected else Running)];
      inflight := inflight[key := id];
      return Awaits(id);
    }

    /** The rest of through: a running load settles. */
    method Leave(id: nat, ending: Ending, now: int)
      requires Valid() && id < |loads| && loads[id].phase.Running?
      modifies this
      ensures Valid() && Now() == Settle(old(Now()), max, id, ending, now)
    {
      SettleKeeps(Now(), max, id, ending, now);
      var key := loads[id].key;
      match ending {
        case Success(value, ttl) =>
          Write(key, value, ttl, now);
          loads := loads[id := Load(key, Resolved(value))];
        case Failure =>
          loads := loads[id := Load(key, Rejected)];
      }
      inflight := inflight - {key};
    }
  }
}
