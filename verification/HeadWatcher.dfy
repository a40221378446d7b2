// Following the head: every new block announced once and in order, and the
// logs of what was advanced over requested in one range a tick and handed on
// through a chain of promises. Steps are the stretches between awaits.
module HeadWatcher {
  import opened Common

  datatype Span = Span(first: int, last: int)

  /** A finished tick: the blocks it advanced over, and whether it asked for their logs. */
  datatype Done = Done(span: Span, wanted: bool)

  /** What a tick waits for: nothing runs, the head, or the blocks stepped over on the way to head n. */
  datatype Phase = Quiet | AskingHead | AskingBlocks(first: int, n: int)

  /**
   * `announced` are the block numbers given to onHead; `asked` the log ranges
   * requested and `answered` how each came back; `settled` the links of the
   * promise chain that have run and `handed` the answers given to onLogs.
   * `ticks` and `missing` are history: the finished ticks, and the stepped-over
   * blocks the node answered with null.
   */
  datatype State = State(last: int, phase: Phase, announced: seq<int>, asked: seq<Span>,
                         answered: map<nat, bool>, settled: set<nat>, handed: seq<nat>,
                         ticks: seq<Done>, missing: set<int>)

  datatype Event =
    | Tick
    | HeadArrives(n: Option<int>, wantsLogs: bool)          // None: an error, or a reply without a number
    | BlocksArrive(found: Option<set<int>>, wantsLogs: bool) // None: one request failed; a missing block is null
    | LogsArrive(i: nat, ok: bool)
    | LinkRuns(i: nat)
    | Stop

  const EMPTY := State(0, Quiet, [], [], map[], {}, [], [], {})

  /** First tick: this block and no history; later ones go back at most maxCatchUp blocks. */
  function FirstBlock(last: int, n: int, maxCatchUp: int): int {
    if last == 0 then n else Max(last + 1, n - maxCatchUp + 1)
  }

  /** The blocks first..n-1 that were found, in order. */
  function Found(first: int, n: int, found: set<int>): seq<int>
    decreases n - first
  {
    if first >= n then [] else (if first in found then [first] else []) + Found(first + 1, n, found)
  }

  function Missing(first: int, n: int, found: set<int>): set<int> {
    set b | first <= b < n && b !in found
  }

  /** The end of a successful tick: announce what was stepped over and the head, ask for the logs, move on. */
  function Finish(s: State, first: int, n: int, found: set<int>, wantsLogs: bool): State {
    s.(announced := s.announced + Found(first, n, found) + [n],
       asked := s.asked + (if wantsLogs then [Span(first, n)] else []),
       last := n, phase := Quiet,
       ticks := s.ticks + [Done(Span(first, n), wantsLogs)],
       missing := s.missing + Missing(first, n, found))
  }

  /** A link of the chain runs after the link before it and once its own answer is there. */
  predicate MayRun(s: State, i: nat) {
    i < |s.asked| && i in s.answered && i !in s.settled && (i == 0 || i - 1 in s.settled)
  }

  function Apply(s: State, e: Event, maxCatchUp: int): State {
    match e
    case Tick => if s.phase.Quiet? then s.(phase := AskingHead) else s
    case HeadArrives(n, wantsLogs) =>
      if !s.phase.AskingHead? then s
      else if n.None? || n.value <= s.last then s.(phase := Quiet)
      else
        var first := FirstBlock(s.last, n.value, maxCatchUp);
        if first < n.value then s.(phase := AskingBlocks(first, n.value)) else Finish(s, first, n.value, {}, wantsLogs)
    case BlocksArrive(found, wantsLogs) =>
      (match s.phase
       case AskingBlocks(first, n) =>
         if found.None? then s.(phase := Quiet) else Finish(s, first, n, found.value, wantsLogs)
       case _ => s)
    case LogsArrive(i, ok) => if i < |s.asked| && i !in s.answered then s.(answered := s.answered[i := ok]) else s
    case LinkRuns(i) =>
      if MayRun(s, i) then s.(settled := s.settled + {i}, handed := s.handed + if s.answered[i] then [i] else []) else s
    case Stop => s.(last := 0)
  }

  function Run(s: State, events: seq<Event>, maxCatchUp: int): State
    decreases |events|
  {
    if events == [] then s else Run(Apply(s, events[0], maxCatchUp), events[1..], maxCatchUp)
  }

  // -------------------------------------------------------- the chain of logs

  ghost predicate Increasing(xs: seq<int>) {
    forall i, j :: 0 <= i < j < |xs| ==> xs[i] < xs[j]
  }

  /** Links have run without a gap, and the answers they handed on are in order and all there. */
  ghost predicate ChainOk(s: State) {
    && (forall i <- s.settled :: i < |s.asked| && i in s.answered && (i > 0 ==> i - 1 in s.settled))
    && Increasing(s.handed)
    && (forall i :: i in s.handed <==> i in s.settled && s.answered[i])
  }

  lemma {:induction false} NoLinkAhead(s: State, i: nat, m: nat)
    requires ChainOk(s) && m in s.settled && i <= m
    ensures i in s.settled
    decreases m
  {
    if i < m {
      NoLinkAhead(s, i, m - 1);
    }
  }

  /** Kept by every event, stops included. */
  lemma ChainKeeps(s: State, e: Event, maxCatchUp: int)
    requires ChainOk(s)
    ensures ChainOk(Apply(s, e, maxCatchUp))
  {
    hide Found, Missing;
    if e.LinkRuns? && MayRun(s, e.i) {
      forall m <- s.settled ensures m < e.i {
        if e.i <= m { NoLinkAhead(s, e.i, m); }
      }
      assert forall k :: 0 <= k < |s.handed| ==> s.handed[k] in s.handed;
    }
  }

  lemma {:induction false} ChainRuns(s: State, events: seq<Event>, maxCatchUp: int)
    requires ChainOk(s)
    ensures ChainOk(Run(s, events, maxCatchUp))
    decreases |events|
  {
    if events != [] {
      ChainKeeps(s, events[0], maxCatchUp);
      ChainRuns(Apply(s, events[0], maxCatchUp), events[1..], maxCatchUp);
    }
  }

  /**
   * Over every run, stops included, and however late the answers come: each
   * log answer that came back well is handed on once, in the order of the
   * ticks, and only after the links of all earlier ticks have run.
   */
  lemma LogsInTickOrder(events: seq<Event>, maxCatchUp: int)
    ensures var s := Run(EMPTY, events, maxCatchUp);
            && Increasing(s.handed)
            && (forall i :: i in s.handed <==> i in s.settled && i in s.answered && s.answered[i])
            && (forall i, j :: 0 <= i < j && j in s.settled ==> i in s.settled)
  {
    ChainRuns(EMPTY, events, maxCatchUp);
    var s := Run(EMPTY, events, maxCatchUp);
    forall i, j | 0 <= i < j && j in s.settled ensures i in s.settled {
      NoLinkAhead(s, i, j);
    }
  }

  // -------------------------------------------------------- between stops

  function Wanted(ticks: seq<Done>): seq<Span> {
    if ticks == [] then []
    else
      var t := ticks[|ticks| - 1];
      Wanted(ticks[..|ticks| - 1]) + if t.wanted then [t.span] else []
  }

  ghost predicate InTicks(ticks: seq<Done>, b: int) {
    exists i :: 0 <= i < |ticks| && ticks[i].span.first <= b <= ticks[i].span.last
  }

  /** Each tick starts where the last one ended, or maxCatchUp blocks back. */
  ghost predicate TicksOk(ticks: seq<Done>, maxCatchUp: int) {
    && (forall i :: 0 <= i < |ticks| ==> 0 < ticks[i].span.first <= ticks[i].span.last)
    && (forall i :: 0 < i < |ticks| ==> ticks[i - 1].span.last < ticks[i].span.last)
    && (forall i :: 0 < i < |ticks| ==> ticks[i].span.first == FirstBlock(ticks[i - 1].span.last, ticks[i].span.last, maxCatchUp))
    && (ticks != [] ==> ticks[0].span.first == ticks[0].span.last)
  }

  ghost predicate Inv(s: State, maxCatchUp: int) {
    && 0 <= s.last && s.last == (if s.ticks == [] then 0 else s.ticks[|s.ticks| - 1].span.last)
    && TicksOk(s.ticks, maxCatchUp) && s.asked == Wanted(s.ticks)
    && Increasing(s.announced)
    && (forall b :: b in s.announced <==> InTicks(s.ticks, b) && b !in s.missing)
    && (forall b <- s.missing :: InTicks(s.ticks, b))
    && (s.phase.AskingBlocks? ==> s.last < s.phase.first < s.phase.n && 0 < s.phase.first
                                  && s.phase.first == FirstBlock(s.last, s.phase.n, maxCatchUp))
  }

  lemma {:induction false} FoundIsOrdered(first: int, n: int, found: set<int>)
    ensures Increasing(Found(first, n, found))
    ensures forall x :: x in Found(first, n, found) <==> first <= x < n && x in found
    decreases n - first
  {
    if first < n {
      var rest := Found(first + 1, n, found);
      FoundIsOrdered(first + 1, n, found);
      assert forall i :: 0 <= i < |rest| ==> rest[i] in rest;
    }
  }

  /** Ticks rise, so a block is in at most the last of them or below it. */
  lemma {:induction false} TicksRise(ticks: seq<Done>, maxCatchUp: int, i: nat, j: nat)
    requires TicksOk(ticks, maxCatchUp) && i < j < |ticks|
    ensures ticks[i].span.last < ticks[j].span.first
    ensures ticks[i].span.last < ticks[j].span.last
    decreases j
  {
    if i < j - 1 {
      TicksRise(ticks, maxCatchUp, i, j - 1);
    }
  }

  lemma InTicksBound(ticks: seq<Done>, maxCatchUp: int, b: int)
    requires TicksOk(ticks, maxCatchUp) && InTicks(ticks, b)
    ensures ticks[0].span.last <= b <= ticks[|ticks| - 1].span.last
  {
    var i :| 0 <= i < |ticks| && ticks[i].span.first <= b <= ticks[i].span.last;
    if i > 0 { TicksRise(ticks, maxCatchUp, 0, i); }
    if i < |ticks| - 1 { TicksRise(ticks, maxCatchUp, i, |ticks| - 1); }
  }

  lemma OneMoreTick(ticks: seq<Done>, t: Done, b: int)
    ensures InTicks(ticks + [t], b) <==> InTicks(ticks, b) || t.span.first <= b <= t.span.last
  {
    var more := ticks + [t];
    assert more[|ticks|] == t;
    if i :| 0 <= i < |ticks| && ticks[i].span.first <= b <= ticks[i].span.last {
      assert more[i] == ticks[i];
    }
  }

  lemma FinishKeeps(s: State, first: int, n: int, found: set<int>, wantsLogs: bool, maxCatchUp: int)
    requires Inv(s, maxCatchUp) && s.last < first <= n && first == FirstBlock(s.last, n, maxCatchUp)
    ensures Inv(Finish(s, first, n, found, wantsLogs), maxCatchUp)
  {
    hide InTicks, TicksOk, Increasing, Found, Missing, Wanted, FirstBlock;
    FoundIsOrdered(first, n, found);
    var t, s' := Done(Span(first, n), wantsLogs), Finish(s, first, n, found, wantsLogs);
    TicksReach(s.ticks, t, s.last, maxCatchUp);
    TicksGrow(s.ticks, t, maxCatchUp);
    WantedGrows(s.ticks, t);
    FinishMisses(s, s', first, n, found);
    assert forall b <- s.announced :: b <= s.last;
    FinishAnnounces(s.announced, Found(first, n, found), n, s.last, first);
  }

  lemma TicksReach(ticks: seq<Done>, t: Done, last: int, maxCatchUp: int)
    requires TicksOk(ticks, maxCatchUp) && (ticks != [] ==> last == ticks[|ticks| - 1].span.last)
    ensures forall b :: InTicks(ticks, b) ==> b <= last
    ensures forall b :: InTicks(ticks + [t], b) <==> InTicks(ticks, b) || t.span.first <= b <= t.span.last
  {
    forall b ensures InTicks(ticks + [t], b) <==> InTicks(ticks, b) || t.span.first <= b <= t.span.last {
      OneMoreTick(ticks, t, b);
    }
    forall b | InTicks(ticks, b) ensures b <= last {
      InTicksBound(ticks, maxCatchUp, b);
    }
  }

  lemma WantedGrows(ticks: seq<Done>, t: Done)
    ensures Wanted(ticks + [t]) == Wanted(ticks) + if t.wanted then [t.span] else []
  {
    assert (ticks + [t])[..|ticks|] == ticks;
  }

  lemma FinishMisses(s: State, s': State, first: int, n: int, found: set<int>)
    requires first <= n && s'.announced == s.announced + Found(first, n, found) + [n]
    requires s'.missing == s.missing + Missing(first, n, found)
    requires forall x :: x in Found(first, n, found) <==> first <= x < n && x in found
    requires forall b :: InTicks(s'.ticks, b) <==> InTicks(s.ticks, b) || first <= b <= n
    requires forall b :: InTicks(s.ticks, b) ==> b < first
    requires forall b :: b in s.announced <==> InTicks(s.ticks, b) && b !in s.missing
    requires forall b <- s.missing :: InTicks(s.ticks, b)
    ensures forall b :: b in s'.announced <==> InTicks(s'.ticks, b) && b !in s'.missing
    ensures forall b <- s'.missing :: InTicks(s'.ticks, b)
  {
    hide InTicks, Found;
    forall b ensures b in s'.announced <==> b in s.announced || b in Found(first, n, found) || b == n {
    }
  }

  lemma TicksGrow(ticks: seq<Done>, t: Done, maxCatchUp: int)
    requires TicksOk(ticks, maxCatchUp) && 0 < t.span.first <= t.span.last
    requires var last := if ticks == [] then 0 else ticks[|ticks| - 1].span.last;
             last < t.span.last && t.span.first == FirstBlock(last, t.span.last, maxCatchUp)
    ensures TicksOk(ticks + [t], maxCatchUp)
  {
  }

  lemma FinishAnnounces(announced: seq<int>, more: seq<int>, n: int, last: int, first: int)
    requires Increasing(announced) && Increasing(more) && last < first
    requires (forall b <- announced :: b <= last) && (forall b <- more :: first <= b < n) && first <= n
    ensures Increasing(announced + more + [n])
  {
    assert forall i :: 0 <= i < |more| ==> more[i] in more;
    assert forall i :: 0 <= i < |announced| ==> announced[i] in announced;
  }

  lemma ApplyKeeps(s: State, e: Event, maxCatchUp: int)
    requires Inv(s, maxCatchUp) && !e.Stop? && 1 <= maxCatchUp
    ensures Inv(Apply(s, e, maxCatchUp), maxCatchUp)
  {
    hide InTicks, TicksOk, Increasing, Found, Missing, Wanted, MayRun;
    if e.HeadArrives? && s.phase.AskingHead? && e.n.Some? && e.n.value > s.last {
      var first := FirstBlock(s.last, e.n.value, maxCatchUp);
      if first == e.n.value {
        FinishKeeps(s, first, e.n.value, {}, e.wantsLogs, maxCatchUp);
      }
    } else if e.BlocksArrive? && s.phase.AskingBlocks? && e.found.Some? {
      FinishKeeps(s, s.phase.first, s.phase.n, e.found.value, e.wantsLogs, maxCatchUp);
    }
  }

  lemma {:induction false} RunKeeps(s: State, events: seq<Event>, maxCatchUp: int)
    requires Inv(s, maxCatchUp) && 1 <= maxCatchUp && forall e <- events :: !e.Stop?
    ensures Inv(Run(s, events, maxCatchUp), maxCatchUp)
    decreases |events|
  {
    hide Inv, Apply;
    if events != [] {
      assert events[0] in events;
      ApplyKeeps(s, events[0], maxCatchUp);
      RunKeeps(Apply(s, events[0], maxCatchUp), events[1..], maxCatchUp);
    }
  }

  lemma {:induction false} WantedRise(ticks: seq<Done>, maxCatchUp: int)
    requires TicksOk(ticks, maxCatchUp)
    ensures forall i, j :: 0 <= i < j < |Wanted(ticks)| ==> Wanted(ticks)[i].last < Wanted(ticks)[j].first
    ensures forall w <- Wanted(ticks) :: exists i :: 0 <= i < |ticks| && w == ticks[i].span
  {
    if ticks != [] {
      var n := |ticks| - 1;
      var rest := ticks[..n];
      WantedRise(rest, maxCatchUp);
      forall w <- Wanted(rest) ensures w.last < ticks[n].span.first && exists i :: 0 <= i < |ticks| && w == ticks[i].span {
        var i :| 0 <= i < |rest| && w == rest[i].span;
        TicksRise(ticks, maxCatchUp, i, n);
        assert ticks[i].span == w;
      }
      assert forall i :: 0 <= i < |Wanted(rest)| ==> Wanted(rest)[i] in Wanted(rest);
    }
  }

  /**
   * Between stops, whatever the node answers: announced blocks strictly
   * increase; a block is announced exactly when a tick advanced over it and
   * the node had it; and the log ranges are those of the ticks in which
   * somebody wanted logs, disjoint and in block order.
   */
  lemma EveryRun(events: seq<Event>, maxCatchUp: int)
    requires 1 <= maxCatchUp && forall e <- events :: !e.Stop?
    ensures var s := Run(EMPTY, events, maxCatchUp);
            && Increasing(s.announced)
            && (forall b :: b in s.announced <==> InTicks(s.ticks, b) && b !in s.missing)
            && s.asked == Wanted(s.ticks)
            && (forall i, j :: 0 <= i < j < |s.asked| ==> s.asked[i].last < s.asked[j].first)
  {
    RunKeeps(EMPTY, events, maxCatchUp);
    WantedRise(Run(EMPTY, events, maxCatchUp).ticks, maxCatchUp);
  }

  /** No tick came later than maxCatchUp blocks after the one before. */
  ghost predicate NoGap(ticks: seq<Done>, maxCatchUp: int) {
    forall i :: 0 < i < |ticks| ==> ticks[i].span.last - ticks[i - 1].span.last <= maxCatchUp
  }

  lemma {:induction false} NoGapCovers(ticks: seq<Done>, maxCatchUp: int, b: int, j: nat)
    requires TicksOk(ticks, maxCatchUp) && NoGap(ticks, maxCatchUp) && j < |ticks|
    requires ticks[0].span.last <= b <= ticks[j].span.last
    ensures InTicks(ticks, b)
    decreases j
  {
    if b < ticks[j].span.first {
      NoGapCovers(ticks, maxCatchUp, b, j - 1);
    }
  }

  /** The block after a tick is in no later tick when the next one starts beyond it. */
  lemma GapSkips(ticks: seq<Done>, maxCatchUp: int, i: nat)
    requires TicksOk(ticks, maxCatchUp) && 0 < i < |ticks|
    requires ticks[i].span.last - ticks[i - 1].span.last > maxCatchUp
    ensures !InTicks(ticks, ticks[i - 1].span.last + 1)
    ensures ticks[0].span.last <= ticks[i - 1].span.last + 1 <= ticks[|ticks| - 1].span.last
  {
    var b := ticks[i - 1].span.last + 1;
    if k :| 0 <= k < |ticks| && ticks[k].span.first <= b <= ticks[k].span.last {
      if k < i - 1 { TicksRise(ticks, maxCatchUp, k, i - 1); }
      if i < k { TicksRise(ticks, maxCatchUp, i, k); }
    }
    if 0 < i - 1 { TicksRise(ticks, maxCatchUp, 0, i - 1); }
    if i < |ticks| - 1 { TicksRise(ticks, maxCatchUp, i, |ticks| - 1); }
  }

  /**
   * Over a whole run between stops: every block from the first head on is
   * announced if and only if the node never answered a stepped-over block
   * with null and no tick was more than maxCatchUp blocks behind; and each
   * tick's range continues the one before under that same condition.
   */
  lemma NoBlockSkippedIff(events: seq<Event>, maxCatchUp: int)
    requires 1 <= maxCatchUp && (forall e <- events :: !e.Stop?) && Run(EMPTY, events, maxCatchUp).ticks != []
    ensures var s := Run(EMPTY, events, maxCatchUp);
            && ((forall b :: s.ticks[0].span.last <= b <= s.last ==> b in s.announced)
                <==> s.missing == {} && NoGap(s.ticks, maxCatchUp))
            && (forall i :: 0 < i < |s.ticks| ==>
                  (s.ticks[i].span.first == s.ticks[i - 1].span.last + 1
                   <==> s.ticks[i].span.last - s.ticks[i - 1].span.last <= maxCatchUp))
  {
    RunKeeps(EMPTY, events, maxCatchUp);
    var s := Run(EMPTY, events, maxCatchUp);
    CoversIff(s.ticks, maxCatchUp);
    forall b <- s.missing ensures s.ticks[0].span.last <= b <= s.last && b !in s.announced {
      InTicksBound(s.ticks, maxCatchUp, b);
    }
    ContinuesIff(s.ticks, maxCatchUp);
    hide Run, InTicks, TicksOk, NoGap, FirstBlock, Increasing;
  }

  lemma CoversIff(ticks: seq<Done>, maxCatchUp: int)
    requires TicksOk(ticks, maxCatchUp) && ticks != []
    ensures (forall b :: ticks[0].span.last <= b <= ticks[|ticks| - 1].span.last ==> InTicks(ticks, b)) <==> NoGap(ticks, maxCatchUp)
  {
    if !NoGap(ticks, maxCatchUp) {
      var i :| 0 < i < |ticks| && ticks[i].span.last - ticks[i - 1].span.last > maxCatchUp;
      GapSkips(ticks, maxCatchUp, i);
    } else {
      forall b | ticks[0].span.last <= b <= ticks[|ticks| - 1].span.last ensures InTicks(ticks, b) {
        NoGapCovers(ticks, maxCatchUp, b, |ticks| - 1);
      }
    }
  }

  lemma ContinuesIff(ticks: seq<Done>, maxCatchUp: int)
    requires TicksOk(ticks, maxCatchUp) && 1 <= maxCatchUp
    ensures forall i :: 0 < i < |ticks| ==>
              (ticks[i].span.first == ticks[i - 1].span.last + 1 <==> ticks[i].span.last - ticks[i - 1].span.last <= maxCatchUp)
  {
  }

  // -------------------------------------------------------- failing ticks

  predicate Succeeds(e: Event) {
    (e.HeadArrives? && e.n.Some?) || (e.BlocksArrive? && e.found.Some?)
  }

  /** The part of the state a tick works on. */
  predicate SamePlace(s: State, t: State) {
    s.last == t.last && s.announced == t.announced && s.asked == t.asked && s.ticks == t.ticks && s.missing == t.missing
  }

  lemma {:induction false} FailuresLeave(s: State, events: seq<Event>, maxCatchUp: int)
    requires forall e <- events :: !e.Stop? && !Succeeds(e)
    ensures SamePlace(s, Run(s, events, maxCatchUp))
    decreases |events|
  {
    if events != [] {
      assert events[0] in events;
      FailuresLeave(Apply(s, events[0], maxCatchUp), events[1..], maxCatchUp);
    }
  }

  /**
   * However many ticks fail, at whichever await, they announce and ask for
   * nothing, and the tick that succeeds after them does what it would have
   * done without them.
   */
  lemma FailuresLoseNothing(s: State, events: seq<Event>, n: int, found: set<int>, wantsLogs: bool, maxCatchUp: int)
    requires s.phase.Quiet? && Run(s, events, maxCatchUp).phase.Quiet?
    requires forall e <- events :: !e.Stop? && !Succeeds(e)
    ensures var s' := Run(s, events, maxCatchUp);
            && SamePlace(s, s')
            && SamePlace(WholeTick(s, n, found, wantsLogs, maxCatchUp), WholeTick(s', n, found, wantsLogs, maxCatchUp))
  {
    FailuresLeave(s, events, maxCatchUp);
    hide Found, Missing;
  }

  /** A tick whose requests all succeed. */
  function WholeTick(s: State, n: int, found: set<int>, wantsLogs: bool, maxCatchUp: int): State {
    var asking := Apply(s, Tick, maxCatchUp);
    Apply(Apply(asking, HeadArrives(Some(n), wantsLogs), maxCatchUp), BlocksArrive(Some(found), wantsLogs), maxCatchUp)
  }

  /** The block lies between the last head and this one, and no more than maxCatchUp blocks back. */
  predicate SteppedOver(b: int, last: int, n: int, maxCatchUp: int) {
    0 < last < b < n && n - b < maxCatchUp
  }

  /**
   * What a tick does whose requests all succeed: nothing if the head is not
   * new; otherwise it announces the head and every block stepped over that
   * the node has, moves on to it, and asks for the logs of them all at once
   * if somebody wants them.
   */
  lemma TickIs(s: State, n: int, found: set<int>, wantsLogs: bool, maxCatchUp: int)
    requires s.phase.Quiet? && 0 <= s.last && 1 <= maxCatchUp
    ensures var s' := WholeTick(s, n, found, wantsLogs, maxCatchUp);
            && s'.phase.Quiet? && s'.answered == s.answered && s'.settled == s.settled && s'.handed == s.handed
            && (n <= s.last ==> SamePlace(s, s'))
            && (s.last < n ==>
                  && s'.last == n && s.announced <= s'.announced && s'.announced[|s'.announced| - 1] == n
                  && (forall b :: b in s'.announced <==> b in s.announced || b == n || (b in found && SteppedOver(b, s.last, n, maxCatchUp)))
                  && (!wantsLogs ==> s'.asked == s.asked)
                  && (wantsLogs ==> exists w ::
                        && s'.asked == s.asked + [w] && w.last == n
                        && forall b :: w.first <= b < n <==> SteppedOver(b, s.last, n, maxCatchUp)))
  {
    if s.last < n {
      var first := FirstBlock(s.last, n, maxCatchUp);
      assert forall b :: first <= b < n <==> SteppedOver(b, s.last, n, maxCatchUp);
      FoundIsOrdered(first, n, found);
      var more := if first < n then Found(first, n, found) else [];
      if first >= n { FoundIsOrdered(first, n, {}); }
      hide Found, Missing, Increasing;
      var s' := WholeTick(s, n, found, wantsLogs, maxCatchUp);
      assert s'.announced == s.announced + more + [n];
      assert wantsLogs ==> s'.asked == s.asked + [Span(first, n)] && Span(first, n).last == n;
    }
  }

  /** A request that fails ends its tick with nothing announced, asked for or moved, and the next tick may begin. */
  lemma FailureEndsTick(s: State, wantsLogs: bool, maxCatchUp: int)
    ensures s.phase.AskingHead? ==> Apply(s, HeadArrives(None, wantsLogs), maxCatchUp) == s.(phase := Quiet)
    ensures s.phase.AskingBlocks? ==> Apply(s, BlocksArrive(None, wantsLogs), maxCatchUp) == s.(phase := Quiet)
  {
  }

  /** What happens to one log answer: once the link before it has run, its own hands it on if it came back well. */
  lemma AnswerIsHandedOn(s: State, i: nat, ok: bool, maxCatchUp: int)
    requires i < |s.asked| && i !in s.answered && i !in s.settled && (i == 0 || i - 1 in s.settled)
    ensures var s' := Apply(Apply(s, LogsArrive(i, ok), maxCatchUp), LinkRuns(i), maxCatchUp);
            s' == s.(answered := s.answered[i := ok], settled := s.settled + {i}, handed := s.handed + if ok then [i] else [])
  {
  }

  // -------------------------------------------------------- stopping

  /** The events run up to and including the one that ends the tick under way. */
  ghost predicate UpToTickEnd(s: State, events: seq<Event>, maxCatchUp: int)
    decreases |events|
  {
    && events != [] && !s.phase.Quiet? && !events[0].Stop?
    && var s' := Apply(s, events[0], maxCatchUp);
    if |events| == 1 then s'.phase.Quiet? else !s'.phase.Quiet? && UpToTickEnd(s', events[1..], maxCatchUp)
  }

  /** The last request of the tick failed, or the head it found has no positive number. */
  predicate EndsInVain(e: Event) {
    match e
    case HeadArrives(n, _) => n.None? || n.value <= 0
    case BlocksArrive(found, _) => found.None?
    case _ => true
  }

  lemma {:induction false} AfterStop(s: State, events: seq<Event>, maxCatchUp: int)
    requires s.last == 0 && (s.phase.AskingBlocks? ==> 0 < s.phase.n) && UpToTickEnd(s, events, maxCatchUp)
    ensures forall k :: 0 <= k < |events| ==> Run(s, events[..k], maxCatchUp).last == 0
    ensures var s', e := Run(s, events, maxCatchUp), events[|events| - 1];
            && (s'.last == 0 <==> EndsInVain(e))
            && (s'.announced == s.announced <==> EndsInVain(e))
    decreases |events|
  {
    hide Found, Missing, MayRun;
    var e, s' := events[0], Apply(s, events[0], maxCatchUp);
    assert s.phase.AskingBlocks? && e.BlocksArrive? && e.found.Some? ==> |s'.announced| > |s.announced|;
    if |events| == 1 {
      assert events[1..] == [] && Run(s, events, maxCatchUp) == s';
      assert events[..0] == [];
    } else {
      assert s'.announced == s.announced && s'.last == 0;
      AfterStop(s', events[1..], maxCatchUp);
      forall k | 0 <= k < |events| ensures Run(s, events[..k], maxCatchUp).last == 0 {
        if k > 0 {
          assert events[..k][0] == e && events[..k][1..] == events[1..][..k - 1];
        }
      }
    }
  }

  /** In every reachable state the blocks being asked for have positive numbers. */
  lemma {:induction false} AsksPositive(s: State, events: seq<Event>, maxCatchUp: int)
    requires 0 <= s.last && (s.phase.AskingBlocks? ==> 0 < s.phase.n)
    ensures var s' := Run(s, events, maxCatchUp); 0 <= s'.last && (s'.phase.AskingBlocks? ==> 0 < s'.phase.n)
    decreases |events|
  {
    hide Found, Missing, MayRun;
    if events != [] {
      AsksPositive(Apply(s, events[0], maxCatchUp), events[1..], maxCatchUp);
    }
  }

  /**
   * Stopping is meant to forget the position. With no tick under way it does.
   * With one, waiting for the head or for blocks, the position stays forgotten
   * until that tick ends, and afterwards if and only if it ends in vain.
   */
  lemma StopForgetsIff(before: seq<Event>, events: seq<Event>, maxCatchUp: int)
    ensures var stopped := Apply(Run(EMPTY, before, maxCatchUp), Stop, maxCatchUp);
            && stopped.last == 0
            && (UpToTickEnd(stopped, events, maxCatchUp) ==>
                  && (forall k :: 0 <= k < |events| ==> Run(stopped, events[..k], maxCatchUp).last == 0)
                  && (Run(stopped, events, maxCatchUp).last == 0 <==> EndsInVain(events[|events| - 1])))
  {
    AsksPositive(EMPTY, before, maxCatchUp);
    var stopped := Apply(Run(EMPTY, before, maxCatchUp), Stop, maxCatchUp);
    if UpToTickEnd(stopped, events, maxCatchUp) {
      AfterStop(stopped, events, maxCatchUp);
    }
  }

  const WHILE_AWAY: set<int> := {106, 107, 108, 109}

  /** Two events in a row. */
  lemma RunTwo(s: State, x: Event, y: Event, rest: seq<Event>)
    ensures Run(s, [x, y] + rest, 16) == Run(Apply(Apply(s, x, 16), y, 16), rest, 16)
  {
    hide Apply;
    assert ([x, y] + rest)[1..] == [y] + rest && ([y] + rest)[1..] == rest;
    assert Run(Apply(s, x, 16), [y] + rest, 16) == Run(Apply(Apply(s, x, 16), y, 16), rest, 16);
  }

  lemma FirstHead()
    ensures Apply(Apply(EMPTY, Tick, 16), HeadArrives(Some(100), false), 16) == Finish(EMPTY, 100, 100, {}, false)
  {
  }

  lemma StoppedHead(s: State)
    requires s.phase.Quiet? && s.announced == [100]
    ensures var s' := Apply(Apply(Apply(Apply(s, Tick, 16), Stop, 16), HeadArrives(Some(105), false), 16), Tick, 16);
            s'.phase.AskingHead? && s'.announced == [100, 105] && s'.last == 105
  {
  }

  lemma LateBlocks(s: State)
    requires s.phase.AskingHead? && s.announced == [100, 105] && s.last == 105
    ensures Apply(Apply(s, HeadArrives(Some(110), false), 16), BlocksArrive(Some(WHILE_AWAY), false), 16).announced
         == [100, 105, 106, 107, 108, 109, 110]
  {
    assert Found(106, 110, WHILE_AWAY) == [106] + ([107] + ([108] + ([109] + [])));
  }

  /** A stop while the head is awaited, undone: the next subscriber is sent 106..109, which happened before it came. */
  lemma StopUndone()
    ensures var events := [Tick, HeadArrives(Some(100), false), Tick, Stop, HeadArrives(Some(105), false),
                           Tick, HeadArrives(Some(110), false), BlocksArrive(Some(WHILE_AWAY), false)];
            Run(EMPTY, events, 16).announced == [100, 105, 106, 107, 108, 109, 110]
  {
    var e1, e4, e6, e7 := HeadArrives(Some(100), false), HeadArrives(Some(105), false), HeadArrives(Some(110), false), BlocksArrive(Some(WHILE_AWAY), false);
    FirstHead();
    assert Finish(EMPTY, 100, 100, {}, false).announced == [100];
    hide Apply, Finish;
    var s1 := Finish(EMPTY, 100, 100, {}, false);
    assert s1.phase.Quiet? by { FinishIsQuiet(EMPTY, 100); }
    StoppedHead(s1);
    var s2 := Apply(Apply(s1, Tick, 16), Stop, 16);
    var s3 := Apply(Apply(s2, e4, 16), Tick, 16);
    LateBlocks(s3);
    RunTwo(EMPTY, Tick, e1, [Tick, Stop] + ([e4, Tick] + ([e6, e7] + [])));
    RunTwo(s1, Tick, Stop, [e4, Tick] + ([e6, e7] + []));
    RunTwo(s2, e4, Tick, [e6, e7] + []);
    RunTwo(s3, e6, e7, []);
    assert [Tick, e1] + ([Tick, Stop] + ([e4, Tick] + ([e6, e7] + []))) == [Tick, e1, Tick, Stop, e4, Tick, e6, e7];
  }

  lemma FinishIsQuiet(s: State, n: int)
    ensures Finish(s, n, n, {}, false).phase.Quiet?
  {
  }

  // -------------------------------------------------------- the class

  class Follower {
    const maxCatchUp: int
    var last: int
    var phase: Phase
    var announced: seq<int>
    var asked: seq<Span>
    var answered: map<nat, bool>
    var settled: set<nat>
    var handed: seq<nat>
    ghost var ticks: seq<Done>
    ghost var missing: set<int>

    ghost function Now(): State
      reads this
    {
      State(last, phase, announced, asked, answered, settled, handed, ticks, missing)
    }

    constructor (maxCatchUp: int)
      ensures this.maxCatchUp == maxCatchUp && Now() == EMPTY
    {
      this.maxCatchUp := maxCatchUp;
      last, phase, announced, asked, answered, settled, handed := 0, Quiet, [], [], map[], {}, [];
      ticks, missing := [], {};
    }

    method StartTick()
      modifies this
      ensures Now() == Apply(old(Now()), Tick, maxCatchUp)
    {
      if !phase.Quiet? { return; }
      phase := AskingHead;
    }

    /** The head came back (or failed): go quiet, finish at once, or ask for the blocks between. */
    method HeadCameBack(n: Option<int>, wantsLogs: bool)
      requires phase.AskingHead?
      modifies this
      ensures Now() == Apply(old(Now()), HeadArrives(n, wantsLogs), maxCatchUp)
    {
      phase := Quiet;
      if n.None? || n.value <= last { return; }
      var first := if last == 0 then n.value else Max(last + 1, n.value - maxCatchUp + 1);
      if first < n.value {
        phase := AskingBlocks(first, n.value);
      } else {
        Announce(first, n.value, {}, wantsLogs);
      }
    }

    method BlocksCameBack(found: Option<set<int>>, wantsLogs: bool)
      requires phase.AskingBlocks?
      modifies this
      ensures Now() == Apply(old(Now()), BlocksArrive(found, wantsLogs), maxCatchUp)
    {
      var first, n := phase.first, phase.n;
      phase := Quiet;
      if found.Some? { Announce(first, n, found.value, wantsLogs); }
    }

    method Announce(first: int, n: int, found: set<int>, wantsLogs: bool)
      requires phase.Quiet?
      modifies this
      ensures Now() == Finish(old(Now()), first, n, found, wantsLogs)
    {
      var b := first;
      ghost var before := Now();
      while b < n
        invariant first <= b && (first <= n ==> b <= n)
        invariant announced + Found(b, n, found) == before.announced + Found(first, n, found)
        invariant Now() == before.(announced := announced)
        decreases n - b
      {
        if b in found { announced := announced + [b]; }
        b := b + 1;
      }
      announced := announced + [n];
      if wantsLogs { asked := asked + [Span(first, n)]; }
      last := n;
      ticks, missing := ticks + [Done(Span(first, n), wantsLogs)], missing + Missing(first, n, found);
    }

    /** eth_getLogs came back for the i-th range, well or not. */
    method LogsCameBack(i: nat, ok: bool)
      modifies this
      ensures Now() == Apply(old(Now()), LogsArrive(i, ok), maxCatchUp)
    {
      if i < |asked| && i !in answered { answered := answered[i := ok]; }
    }

    /** The i-th `then` of the chain: hand the logs on, or report the error. */
    method RunLink(i: nat)
      requires i < |asked| && i in answered && i !in settled && (i == 0 || i - 1 in settled)
      modifies this
      ensures Now() == Apply(old(Now()), LinkRuns(i), maxCatchUp)
    {
      if answered[i] { handed := handed + [i]; }
      settled := settled + {i};
    }

    method Halt()
      modifies this
      ensures Now() == Apply(old(Now()), Stop, maxCatchUp)
    {
      last := 0;
    }
  }
}
