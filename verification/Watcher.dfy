// The watcher as a machine of atomic steps: the live loop, the background V4
// walk running beside it, and crashes. What survives a crash is the index, the
// walk's mark and the live checkpoint.
module Watcher {
  import opened Common
  import opened V4Walk

  const TOO_FAR := 500_000

  /** A started process. `done` are the blocks of the current chunk already indexed; `returned` is the walk's result before its `then` runs. */
  datatype Proc = Proc(next: int, liveStart: int, done: set<int>, caught: bool, walk: Option<Walk>, returned: Option<int>)

  datatype State = State(index: Index, checkpoint: Option<int>, proc: Option<Proc>)

  datatype Event =
    | Boot(head: int, backfill: int)
    | IndexBlock(block: int, pools: set<Pool>)   // processBlock finished, storing what the node served
    | ChunkDone(size: nat)                        // every block of the chunk is in: next moves on
    | ChunkFailed                                 // one block threw: the whole chunk is retried
    | Commit(crashBetween: bool)                  // checkpoint file, then the mark
    | WalkAnswered(reply: Reply, crashBetween: bool)  // one window of the walk: the pools, then the mark
    | WalkReturned                                // the walk's `then`
    | Crash

  // ------------------------------------------------------------- steps

  function FirstLive(s: State, head: int, backfill: int): int {
    if s.checkpoint.Some? && head - s.checkpoint.value < TOO_FAR then s.checkpoint.value else head - backfill
  }

  function Booted(s: State, head: int, backfill: int, deployBlock: int, maxSpan: nat): Proc {
    var next := FirstLive(s, head, backfill);
    var caught := (if s.index.mark.Some? then s.index.mark.value else -1) >= next - 1;
    var start := StartBlock(s.index.mark, deployBlock);
    if caught then Proc(next, next, {}, true, None, None)
    else if start > next - 1 then Proc(next, next, {}, false, None, Some(next - 1))
    else Proc(next, next, {}, false, Some(StartWalk(s.index, deployBlock, maxSpan)), None)
  }

  function WalkRange(p: Proc, maxSpan: nat): Range {
    Range(p.liveStart - 1, maxSpan)
  }

  /** One answer of the walk. */
  function Answered(s: State, p: Proc, w: Walk, maxSpan: nat, reply: Reply, crashBetween: bool): State {
    match OnReply(w, WalkRange(p, maxSpan), reply)
    case GiveUp => s.(proc := Some(p.(walk := None, returned := Some(w.next - 1))))
    case Retry(w') => s.(proc := Some(p.(walk := Some(w'))))
    case Advance(w', covered) =>
      var pools := s.index.pools + if reply.Found? then reply.pools else {};
      if crashBetween then s.(index := s.index.(pools := pools), proc := None)
      else
        var p' := if w'.next > p.liveStart - 1 then p.(walk := None, returned := Some(p.liveStart - 1)) else p.(walk := Some(w'));
        s.(index := Index(pools, Some(covered)), proc := Some(p'))
  }

  function Committed(s: State, p: Proc, crashBetween: bool): State {
    var saved := s.(checkpoint := Some(p.next));
    if crashBetween then saved.(proc := None)
    else if p.caught then saved.(index := s.index.(mark := Some(p.next - 1)))
    else saved
  }

  function Apply(s: State, e: Event, deployBlock: int, maxSpan: nat): State {
    match (s.proc, e)
    case (None, Boot(head, backfill)) => s.(proc := Some(Booted(s, head, backfill, deployBlock, maxSpan)))
    case (Some(p), IndexBlock(block, pools)) =>
      s.(index := s.index.(pools := s.index.pools + pools), proc := Some(p.(done := p.done + {block})))
    case (Some(p), ChunkDone(size)) =>
      if forall b :: p.next <= b < p.next + size ==> b in p.done then s.(proc := Some(p.(next := p.next + size, done := {}))) else s
    case (Some(p), ChunkFailed) => s.(proc := Some(p.(done := {})))
    case (Some(p), Commit(crashBetween)) => Committed(s, p, crashBetween)
    case (Some(p), WalkAnswered(reply, crashBetween)) =>
      if p.walk.Some? then Answered(s, p, p.walk.value, maxSpan, reply, crashBetween) else s
    case (Some(p), WalkReturned) =>
      if p.returned.Some? then s.(proc := Some(p.(caught := p.returned.value >= p.liveStart - 1, returned := None))) else s
    case (Some(_), Crash) => s.(proc := None)
    case _ => s
  }

  // -------------------------------------------------------- the property

  /** Every pool initialised in first..last is in the index. */
  ghost predicate Indexed(chain: Chain, pools: set<Pool>, first: int, last: int) {
    forall b :: first <= b <= last ==> chain(b) <= pools
  }

  /** What the environment owes: an indexed block was served in full, a window was answered in full. */
  ghost predicate Served(chain: Chain, s: State, e: Event, maxSpan: nat) {
    && (e.IndexBlock? && s.proc.Some? ==> chain(e.block) <= e.pools)
    && (e.WalkAnswered? && e.reply.Found? && s.proc.Some? && s.proc.value.walk.Some? ==>
          var w := s.proc.value.walk.value;
          Indexed(chain, e.reply.pools, w.next, WindowEnd(w, WalkRange(s.proc.value, maxSpan))))
  }

  ghost predicate ProcOk(chain: Chain, pools: set<Pool>, p: Proc, deployBlock: int, maxSpan: nat) {
    && p.liveStart <= p.next
    && Indexed(chain, pools, p.liveStart, p.next - 1)
    && (forall b <- p.done :: chain(b) <= pools)
    && (p.caught ==> Indexed(chain, pools, deployBlock, p.liveStart - 1))
    && (p.walk.Some? ==> Valid(p.walk.value, WalkRange(p, maxSpan)) && p.walk.value.next <= p.liveStart - 1
                         && Indexed(chain, pools, deployBlock, p.walk.value.next - 1))
    && (p.returned.Some? ==> Indexed(chain, pools, deployBlock, p.returned.value))
  }

  /** The mark is honest: everything up to it is in the index. */
  ghost predicate MarkHonest(chain: Chain, s: State, deployBlock: int) {
    s.index.mark.Some? ==> Indexed(chain, s.index.pools, deployBlock, s.index.mark.value)
  }

  ghost predicate Inv(chain: Chain, s: State, deployBlock: int, maxSpan: nat) {
    && MarkHonest(chain, s, deployBlock)
    && (s.proc.Some? ==> ProcOk(chain, s.index.pools, s.proc.value, deployBlock, maxSpan))
  }

  lemma BootKeeps(chain: Chain, s: State, head: int, backfill: int, deployBlock: int, maxSpan: nat)
    requires Inv(chain, s, deployBlock, maxSpan) && s.proc.None? && maxSpan >= 1 && deployBlock >= 0
    ensures Inv(chain, Apply(s, Boot(head, backfill), deployBlock, maxSpan), deployBlock, maxSpan)
  {
  }

  lemma AnswerKeeps(chain: Chain, s: State, reply: Reply, crashBetween: bool, deployBlock: int, maxSpan: nat)
    requires Inv(chain, s, deployBlock, maxSpan) && maxSpan >= 1 && deployBlock >= 0
    requires Served(chain, s, WalkAnswered(reply, crashBetween), maxSpan)
    ensures Inv(chain, Apply(s, WalkAnswered(reply, crashBetween), deployBlock, maxSpan), deployBlock, maxSpan)
  {
    if s.proc.Some? && s.proc.value.walk.Some? {
      PassLowersMeasure(s.proc.value.walk.value, WalkRange(s.proc.value, maxSpan), reply);
    }
  }

  lemma StepKeeps(chain: Chain, s: State, e: Event, deployBlock: int, maxSpan: nat)
    requires Inv(chain, s, deployBlock, maxSpan) && maxSpan >= 1 && deployBlock >= 0 && Served(chain, s, e, maxSpan)
    ensures Inv(chain, Apply(s, e, deployBlock, maxSpan), deployBlock, maxSpan)
  {
    if e.Boot? && s.proc.None? {
      BootKeeps(chain, s, e.head, e.backfill, deployBlock, maxSpan);
    } else if e.WalkAnswered? {
      AnswerKeeps(chain, s, e.reply, e.crashBetween, deployBlock, maxSpan);
    }
  }

  function Run(s: State, events: seq<Event>, deployBlock: int, maxSpan: nat): State
    decreases |events|
  {
    if events == [] then s else Run(Apply(s, events[0], deployBlock, maxSpan), events[1..], deployBlock, maxSpan)
  }

  ghost predicate AllServed(chain: Chain, s: State, events: seq<Event>, deployBlock: int, maxSpan: nat)
    decreases |events|
  {
    events != [] ==>
      Served(chain, s, events[0], maxSpan) && AllServed(chain, Apply(s, events[0], deployBlock, maxSpan), events[1..], deployBlock, maxSpan)
  }

  lemma {:induction false} RunKeeps(chain: Chain, s: State, events: seq<Event>, deployBlock: int, maxSpan: nat)
    requires Inv(chain, s, deployBlock, maxSpan) && maxSpan >= 1 && deployBlock >= 0 && AllServed(chain, s, events, deployBlock, maxSpan)
    ensures Inv(chain, Run(s, events, deployBlock, maxSpan), deployBlock, maxSpan)
    decreases |events|
  {
    if events != [] {
      StepKeeps(chain, s, events[0], deployBlock, maxSpan);
      RunKeeps(chain, Apply(s, events[0], deployBlock, maxSpan), events[1..], deployBlock, maxSpan);
    }
  }

  const FRESH := State(Index({}, None), None, None)

  /**
   * Over every run from an empty store, with crashes and restarts anywhere: if
   * the stored mark is m, every pool initialised in deployBlock..m is stored.
   */
  lemma MarkIsAlwaysHonest(chain: Chain, events: seq<Event>, deployBlock: int, maxSpan: nat)
    requires maxSpan >= 1 && deployBlock >= 0 && AllServed(chain, FRESH, events, deployBlock, maxSpan)
    ensures MarkHonest(chain, Run(FRESH, events, deployBlock, maxSpan), deployBlock)
  {
    RunKeeps(chain, FRESH, events, deployBlock, maxSpan);
  }

  /** The mark is the block before the checkpoint, and a running process has no walk left to do. */
  predicate Synced(s: State) {
    && s.checkpoint.Some? && s.index.mark == Some(s.checkpoint.value - 1)
    && (s.proc.Some? ==> Met(s.proc.value))
  }

  predicate Met(p: Proc) {
    p.caught && p.walk.None? && p.returned.None?
  }

  /** What does not part the mark from the checkpoint: not a start far past it, not a crash between the two writes. */
  predicate Calm(s: State, e: Event) {
    match (s.proc, e)
    case (None, Boot(head, backfill)) =>
      && s.checkpoint.Some?
      && (head - s.checkpoint.value < 500_000 || head - backfill <= s.checkpoint.value)
    case (Some(p), Commit(crashBetween)) => !crashBetween || s.checkpoint == Some(p.next)
    case _ => true
  }

  lemma SyncedStepIff(s: State, e: Event, deployBlock: int, maxSpan: nat)
    requires Synced(s)
    ensures Synced(Apply(s, e, deployBlock, maxSpan)) <==> Calm(s, e)
  {
  }

  ghost predicate AllCalm(s: State, events: seq<Event>, deployBlock: int, maxSpan: nat)
    decreases |events|
  {
    events != [] ==> Calm(s, events[0]) && AllCalm(Apply(s, events[0], deployBlock, maxSpan), events[1..], deployBlock, maxSpan)
  }

  /** The walk and its result are gone once it has met the live loop, in every reachable process. */
  ghost predicate WalkIsOver(s: State) {
    s.proc.Some? && s.proc.value.caught ==> Met(s.proc.value)
  }

  lemma {:induction false} CaughtIsMet(s: State, events: seq<Event>, deployBlock: int, maxSpan: nat)
    requires WalkIsOver(s) && (s.proc.Some? && s.proc.value.walk.Some? ==> s.proc.value.returned.None?)
    ensures var s' := Run(s, events, deployBlock, maxSpan);
            WalkIsOver(s') && (s'.proc.Some? && s'.proc.value.walk.Some? ==> s'.proc.value.returned.None?)
    decreases |events|
  {
    if events != [] {
      CaughtIsMet(Apply(s, events[0], deployBlock, maxSpan), events[1..], deployBlock, maxSpan);
    }
  }

  lemma {:induction false} SyncedStays(s: State, events: seq<Event>, deployBlock: int, maxSpan: nat)
    requires Synced(s) && AllCalm(s, events, deployBlock, maxSpan)
    ensures Synced(Run(s, events, deployBlock, maxSpan))
    decreases |events|
  {
    if events != [] {
      SyncedStepIff(s, events[0], deployBlock, maxSpan);
      SyncedStays(Apply(s, events[0], deployBlock, maxSpan), events[1..], deployBlock, maxSpan);
    }
  }

  /**
   * Once the walk has met the live loop and a commit went through, in any run,
   * the mark stays the block before the checkpoint, through further blocks and
   * commits, crashes and restarts near the head, and no restart walks again;
   * unless a crash comes between the two writes of a commit.
   */
  lemma CaughtCommitCarriesMark(before: seq<Event>, after: seq<Event>, deployBlock: int, maxSpan: nat)
    requires var s := Run(FRESH, before, deployBlock, maxSpan);
             && s.proc.Some? && s.proc.value.caught
             && AllCalm(Apply(s, Commit(false), deployBlock, maxSpan), after, deployBlock, maxSpan)
    ensures var s := Apply(Run(FRESH, before, deployBlock, maxSpan), Commit(false), deployBlock, maxSpan);
            Synced(s) && Synced(Run(s, after, deployBlock, maxSpan))
  {
    CaughtIsMet(FRESH, before, deployBlock, maxSpan);
    var s := Apply(Run(FRESH, before, deployBlock, maxSpan), Commit(false), deployBlock, maxSpan);
    SyncedStays(s, after, deployBlock, maxSpan);
  }

  /**
   * A restart goes on live from the checkpoint, unless there is none or it is
   * 500,000 blocks or more behind the head, and then from the backfill; and
   * it resumes the walk just past the mark, up to the first live block.
   */
  lemma RestartLeavesNoGap(s: State, head: int, backfill: int, deployBlock: int, maxSpan: nat)
    requires s.proc.None?
    ensures var p := Booted(s, head, backfill, deployBlock, maxSpan);
            && (s.checkpoint.Some? && head - s.checkpoint.value < 500_000 ==> p.next == s.checkpoint.value)
            && (s.checkpoint.None? || 500_000 <= head - s.checkpoint.value ==> p.next == head - backfill)
            && p.next == p.liveStart && p.done == {}
            && (s.index.mark.Some? && s.index.mark.value >= -1 ==>
                  && (p.walk.Some? ==> p.walk.value.next == s.index.mark.value + 1 && WalkRange(p, maxSpan).last == p.liveStart - 1)
                  && (p.walk.None? ==> p.caught && p.liveStart <= s.index.mark.value + 1))
  {
  }

  // ------------------------------------------- no block is passed over

  /** This step indexes the block. */
  predicate Indexes(s: State, e: Event, b: int) {
    e.IndexBlock? && s.proc.Some? && e.block == b
  }

  /** This step gives the block up: a start that found the checkpoint too far behind the head. */
  predicate GivesUp(s: State, e: Event, b: int) {
    && e.Boot? && s.proc.None? && s.checkpoint.Some? && 500_000 <= e.head - s.checkpoint.value
    && s.checkpoint.value <= b < e.head - e.backfill
  }

  /** Some step of the run indexes the block or gives it up. */
  predicate Reached(s: State, events: seq<Event>, deployBlock: int, maxSpan: nat, b: int)
    decreases |events|
  {
    events != []
    && (Indexes(s, events[0], b) || GivesUp(s, events[0], b)
        || Reached(Apply(s, events[0], deployBlock, maxSpan), events[1..], deployBlock, maxSpan, b))
  }

  /** Where a start that finds no checkpoint begins. */
  function OriginAfter(s: State, e: Event, before: Option<int>): Option<int> {
    if e.Boot? && s.proc.None? && s.checkpoint.None? then Some(e.head - e.backfill) else before
  }

  /** Where the last such start of a run began. */
  function Origin(s: State, events: seq<Event>, deployBlock: int, maxSpan: nat, before: Option<int>): Option<int>
    decreases |events|
  {
    if events == [] then before
    else Origin(Apply(s, events[0], deployBlock, maxSpan), events[1..], deployBlock, maxSpan, OriginAfter(s, events[0], before))
  }

  /** A block from the origin up to the checkpoint, or up to the next live block, has been reached. */
  predicate Accounted(s: State, b: int, reached: bool, origin: Option<int>) {
    && (s.checkpoint.Some? ==> origin.Some? && (origin.value <= b < s.checkpoint.value ==> reached))
    && (s.proc.Some? ==>
          origin.Some? && (b in s.proc.value.done || origin.value <= b < s.proc.value.next ==> reached))
  }

  lemma StepAccounts(s: State, e: Event, deployBlock: int, maxSpan: nat, b: int, reached: bool, origin: Option<int>)
    requires Accounted(s, b, reached, origin)
    ensures Accounted(Apply(s, e, deployBlock, maxSpan), b, reached || Indexes(s, e, b) || GivesUp(s, e, b), OriginAfter(s, e, origin))
  {
    if e.Boot? && s.proc.None? { RestartLeavesNoGap(s, e.head, e.backfill, deployBlock, maxSpan); }
    hide Booted;
  }

  lemma {:induction false} RunAccounts(s: State, events: seq<Event>, deployBlock: int, maxSpan: nat, b: int, reached: bool, origin: Option<int>)
    requires Accounted(s, b, reached, origin)
    ensures Accounted(Run(s, events, deployBlock, maxSpan), b, reached || Reached(s, events, deployBlock, maxSpan, b),
                      Origin(s, events, deployBlock, maxSpan, origin))
    decreases |events|
  {
    hide Accounted, Apply, Indexes, GivesUp, OriginAfter;
    if events != [] {
      var e := events[0];
      StepAccounts(s, e, deployBlock, maxSpan, b, reached, origin);
      RunAccounts(Apply(s, e, deployBlock, maxSpan), events[1..], deployBlock, maxSpan, b,
                  reached || Indexes(s, e, b) || GivesUp(s, e, b), OriginAfter(s, e, origin));
    }
  }

  /**
   * Over every run with crashes and restarts: every block from where the
   * first saved process began up to the checkpoint was indexed, or given up
   * by a start that found the checkpoint 500,000 blocks or more behind the head.
   */
  lemma NoBlockPassedOver(events: seq<Event>, deployBlock: int, maxSpan: nat, b: int)
    ensures var s, origin := Run(FRESH, events, deployBlock, maxSpan), Origin(FRESH, events, deployBlock, maxSpan, None);
            && (s.checkpoint.Some? ==> origin.Some?)
            && (s.checkpoint.Some? && origin.value <= b < s.checkpoint.value ==> Reached(FRESH, events, deployBlock, maxSpan, b))
  {
    RunAccounts(FRESH, events, deployBlock, maxSpan, b, false, None);
  }

  /** The assumption is needed: a block indexed without its pools makes the mark lie. */
  lemma UnservedBlockBreaksMark()
    ensures var chain: Chain := b => if b == 10 then {7} else {};
            var events := [Boot(10, 0), WalkReturned, IndexBlock(10, {}), ChunkDone(1), Commit(false)];
            !MarkHonest(chain, Run(FRESH, events, 10, 100), 10)
  {
    var chain: Chain := b => if b == 10 then {7} else {};
    var e0, e1, e2, e3, e4 := Boot(10, 0), WalkReturned, IndexBlock(10, {}), ChunkDone(1), Commit(false);
    var events := [e0, e1, e2, e3, e4];
    var s1 := Apply(FRESH, e0, 10, 100);
    var s2 := Apply(s1, e1, 10, 100);
    var s3 := Apply(s2, e2, 10, 100);
    var s4 := Apply(s3, e3, 10, 100);
    var s5 := Apply(s4, e4, 10, 100);
    assert s1.proc == Some(Proc(10, 10, {}, false, None, Some(9)));
    assert s2.proc == Some(Proc(10, 10, {}, true, None, None));
    assert {} + {10} == {10};
    assert s3.proc == Some(Proc(10, 10, {10}, true, None, None));
    assert s4.proc == Some(Proc(11, 10, {}, true, None, None));
    assert s5.index == Index({}, Some(10));
    hide Apply;
    assert events[1..] == [e1, e2, e3, e4] && events[1..][1..] == [e2, e3, e4];
    assert [e2, e3, e4][1..] == [e3, e4] && [e3, e4][1..] == [e4] && [e4][1..] == [];
    assert Run(s5, [], 10, 100) == s5;
    assert Run(s4, [e4], 10, 100) == s5;
    assert Run(s3, [e3, e4], 10, 100) == s5;
    assert Run(s2, [e2, e3, e4], 10, 100) == s5;
    assert Run(s1, [e1, e2, e3, e4], 10, 100) == s5;
    assert Run(FRESH, events, 10, 100) == s5;
    assert 7 in chain(10);
  }

  /** This step answers for a block, live or in a window of the walk, without all of its pools. */
  ghost predicate Misses(chain: Chain, s: State, e: Event, maxSpan: nat, b: int) {
    || (e.IndexBlock? && s.proc.Some? && e.block == b && !(chain(b) <= e.pools))
    || (e.WalkAnswered? && e.reply.Found? && s.proc.Some? && s.proc.value.walk.Some?
        && (var w := s.proc.value.walk.value;
            w.next <= b <= WindowEnd(w, WalkRange(s.proc.value, maxSpan)) && !(chain(b) <= e.reply.pools)))
  }

  /** Some step of the run does. */
  ghost predicate Missed(chain: Chain, s: State, events: seq<Event>, deployBlock: int, maxSpan: nat, b: int)
    decreases |events|
  {
    events != []
    && (Misses(chain, s, events[0], maxSpan, b)
        || Missed(chain, Apply(s, events[0], deployBlock, maxSpan), events[1..], deployBlock, maxSpan, b))
  }

  /** Seen as a chain on which the missed blocks hold nothing, every run is served. */
  lemma {:induction false} ServedButMissed(chain: Chain, held: Chain, s: State, events: seq<Event>, deployBlock: int, maxSpan: nat)
    requires forall b :: held(b) == chain(b) || held(b) == {}
    requires forall b :: Missed(chain, s, events, deployBlock, maxSpan, b) ==> held(b) == {}
    ensures AllServed(held, s, events, deployBlock, maxSpan)
    decreases |events|
  {
    if events != [] {
      var e, s' := events[0], Apply(s, events[0], deployBlock, maxSpan);
      forall b | Missed(chain, s', events[1..], deployBlock, maxSpan, b) ensures held(b) == {} {
        assert Missed(chain, s, events, deployBlock, maxSpan, b);
      }
      forall b | Misses(chain, s, e, maxSpan, b) ensures held(b) == {} {
        assert Missed(chain, s, events, deployBlock, maxSpan, b);
      }
      ServedButMissed(chain, held, s', events[1..], deployBlock, maxSpan);
    }
  }

  /**
   * Over every run, whatever the node serves: the mark lies exactly when some
   * block at or below it was answered for without all of its pools and they
   * never came otherwise.
   */
  lemma MarkHonestIff(chain: Chain, events: seq<Event>, deployBlock: int, maxSpan: nat)
    requires maxSpan >= 1 && deployBlock >= 0
    ensures var s := Run(FRESH, events, deployBlock, maxSpan);
            MarkHonest(chain, s, deployBlock)
            <==> (s.index.mark.Some? ==>
                    forall b :: deployBlock <= b <= s.index.mark.value && Missed(chain, FRESH, events, deployBlock, maxSpan, b) ==>
                      chain(b) <= s.index.pools)
  {
    var held: Chain := b => if Missed(chain, FRESH, events, deployBlock, maxSpan, b) then {} else chain(b);
    ServedButMissed(chain, held, FRESH, events, deployBlock, maxSpan);
    MarkIsAlwaysHonest(held, events, deployBlock, maxSpan);
    hide Run, Missed, AllServed;
    var s := Run(FRESH, events, deployBlock, maxSpan);
    if s.index.mark.Some? {
      forall b | deployBlock <= b <= s.index.mark.value && !Missed(chain, FRESH, events, deployBlock, maxSpan, b)
        ensures chain(b) <= s.index.pools
      {
        assert held(b) == chain(b);
      }
    }
  }

  // -------------------------------------------------------- the class

  const CONCURRENCY := 8
  const MAX_BATCH := 400
  const SAVE_EVERY := 25
  const CHUNKS_BEFORE_RECOVERY := 20

  /** What the node serves for a block: its pools, or an error. */
  type BlockNode = int -> Option<set<Pool>>

  /**
   * What the background walk does while the live loop waits for a block: so
   * many steps, each window answered like this.
   */
  datatype Background = Background(turns: int -> nat, answer: (int, nat, int, int) -> Reply)

  ghost predicate Honest(chain: Chain, walk: Background) {
    forall b, i, first, last :: walk.answer(b, i, first, last).Found? ==> Indexed(chain, walk.answer(b, i, first, last).pools, first, last)
  }

  /** The process: the live loop's variables beside the store they drive. */
  class Indexer {
    ghost const chain: Chain
    const deployBlock: int
    const maxSpan: nat
    var index: Index
    var checkpoint: Option<int>
    var proc: Option<Proc>
    var lastSaved: int
    var concurrency: int
    var goodChunks: nat

    function Now(): State
      reads this
    {
      State(index, checkpoint, proc)
    }

    ghost predicate Valid()
      reads this
    {
      && maxSpan >= 1 && deployBlock >= 0
      && 1 <= concurrency <= CONCURRENCY
      && Inv(chain, Now(), deployBlock, maxSpan)
    }

    constructor (ghost chain: Chain, deployBlock: int, maxSpan: nat)
      requires maxSpan >= 1 && deployBlock >= 0
      ensures Valid() && Now() == FRESH
      ensures this.chain == chain && this.deployBlock == deployBlock && this.maxSpan == maxSpan
    {
      this.chain, this.deployBlock, this.maxSpan := chain, deployBlock, maxSpan;
      index, checkpoint, proc := Index({}, None), None, None;
      lastSaved, concurrency, goodChunks := 0, CONCURRENCY, 0;
    }

    method Start(head: int, backfill: int)
      requires Valid() && proc.None?
      modifies this
      ensures Valid() && Now() == Apply(old(Now()), Boot(head, backfill), deployBlock, maxSpan) && proc.Some?
    {
      BootKeeps(chain, Now(), head, backfill, deployBlock, maxSpan);
      proc := Some(Booted(Now(), head, backfill, deployBlock, maxSpan));
      lastSaved, concurrency, goodChunks := proc.value.next, CONCURRENCY, 0;
    }

    /** Saves the checkpoint, and the mark once the walk has met the live loop. */
    method SaveProgress()
      requires Valid() && proc.Some?
      modifies this
      ensures Valid() && Now() == Apply(old(Now()), Commit(false), deployBlock, maxSpan)
      ensures lastSaved == proc.value.next && concurrency == old(concurrency) && goodChunks == old(goodChunks) && proc == old(proc)
    {
      StepKeeps(chain, Now(), Commit(false), deployBlock, maxSpan);
      checkpoint := Some(proc.value.next);
      if proc.value.caught {
        index := index.(mark := Some(proc.value.next - 1));
      }
      lastSaved := proc.value.next;
    }

    /** processBlock's own end: what the node served goes into the index. */
    method StoreBlock(block: int, pools: set<Pool>)
      requires Valid() && proc.Some? && chain(block) <= pools
      modifies this`index, this`proc
      ensures Valid() && Now() == Apply(old(Now()), IndexBlock(block, pools), deployBlock, maxSpan)
      ensures proc == Some(old(proc.value).(done := old(proc.value.done) + {block}))
      ensures index == Index(old(index.pools) + pools, old(index.mark))
    {
      StepKeeps(chain, Now(), IndexBlock(block, pools), deployBlock, maxSpan);
      index := index.(pools := index.pools + pools);
      proc := Some(proc.value.(done := proc.value.done + {block}));
    }

    /** One answer of the background walk. */
    method WalkTurn(reply: Reply)
      requires Valid() && proc.Some? && proc.value.walk.Some?
      requires Served(chain, Now(), WalkAnswered(reply, false), maxSpan)
      modifies this`index, this`proc
      ensures Valid() && Now() == Apply(old(Now()), WalkAnswered(reply, false), deployBlock, maxSpan)
    {
      AnswerKeeps(chain, Now(), reply, false, deployBlock, maxSpan);
      var p, w := proc.value, proc.value.walk.value;
      match OnReply(w, WalkRange(p, maxSpan), reply) {
        case GiveUp => proc := Some(p.(walk := None, returned := Some(w.next - 1)));
        case Retry(w') => proc := Some(p.(walk := Some(w')));
        case Advance(w', covered) =>
          index := Index(index.pools + (if reply.Found? then reply.pools else {}), index.mark);
          index := index.(mark := Some(covered));
          proc := Some(if w'.next > p.liveStart - 1 then p.(walk := None, returned := Some(p.liveStart - 1)) else p.(walk := Some(w')));
      }
    }

    /** The walk's `then`: the live loop may carry the mark from here on. */
    method WalkDone()
      requires Valid() && proc.Some? && proc.value.returned.Some?
      modifies this`index, this`proc
      ensures Valid() && Now() == Apply(old(Now()), WalkReturned, deployBlock, maxSpan)
    {
      StepKeeps(chain, Now(), WalkReturned, deployBlock, maxSpan);
      var p := proc.value;
      proc := Some(p.(caught := p.returned.value >= p.liveStart - 1, returned := None));
    }

    /** The walk's steps while the live loop waits for a block: answers, and at the end its `then`. */
    method WalkAlong(walk: Background, block: int)
      requires Valid() && proc.Some? && Honest(chain, walk)
      modifies this`index, this`proc
      ensures Valid() && proc.Some? && old(index.pools) <= index.pools
      ensures proc.value.next == old(proc.value.next) && proc.value.liveStart == old(proc.value.liveStart)
      ensures proc.value.done == old(proc.value.done)
    {
      for i := 0 to walk.turns(block)
        invariant Valid() && proc.Some? && old(index.pools) <= index.pools
        invariant proc.value.next == old(proc.value.next) && proc.value.liveStart == old(proc.value.liveStart)
        invariant proc.value.done == old(proc.value.done)
      {
        if proc.value.walk.Some? {
          var w := proc.value.walk.value;
          WalkTurn(walk.answer(block, i, w.next, WindowEnd(w, WalkRange(proc.value, maxSpan))));
        } else if proc.value.returned.Some? {
          WalkDone();
        }
      }
    }

    /** One block of a chunk; false if the node has an error for it. */
    method FetchBlock(node: BlockNode, walk: Background, block: int) returns (ok: bool)
      requires Valid() && proc.Some? && Honest(chain, walk)
      requires node(block).Some? ==> chain(block) <= node(block).value
      modifies this`index, this`proc
      ensures Valid() && proc.Some? && old(index.pools) <= index.pools
      ensures proc.value.next == old(proc.value.next) && proc.value.liveStart == old(proc.value.liveStart)
      ensures ok <==> node(block).Some?
      ensures proc.value.done == old(proc.value.done) + if ok then {block} else {}
    {
      hide Inv;
      WalkAlong(walk, block);
      var answer := node(block);
      if answer.None? { return false; }
      StoreBlock(block, answer.value);
      return true;
    }

    /** The end of a chunk: move on when all of it is in, otherwise forget what was. */
    method EndChunk(ok: bool, size: nat)
      requires Valid() && proc.Some?
      requires ok ==> forall b :: proc.value.next <= b < proc.value.next + size ==> b in proc.value.done
      modifies this`proc
      ensures Valid() && proc.Some?
      ensures proc.value == old(proc.value).(next := old(proc.value.next) + (if ok then size else 0), done := {})
    {
      StepKeeps(chain, Now(), if ok then ChunkDone(size) else ChunkFailed, deployBlock, maxSpan);
      hide Inv;
      proc := Some(proc.value.(next := if ok then proc.value.next + size else proc.value.next, done := {}));
    }

    /** One chunk: every block is fetched and stored, or the chunk fails as a whole, and the walk goes on between. */
    method IndexChunk(node: BlockNode, walk: Background, size: nat) returns (ok: bool)
      requires Valid() && proc.Some? && Honest(chain, walk)
      requires forall b :: node(b).Some? ==> chain(b) <= node(b).value
      modifies this`index, this`proc
      ensures Valid() && proc.Some? && old(index.pools) <= index.pools
      ensures ok <==> forall b :: old(proc.value.next) <= b < old(proc.value.next) + size ==> node(b).Some?
      ensures proc.value.next == old(proc.value.next) + (if ok then size else 0)
      ensures proc.value.liveStart == old(proc.value.liveStart) && proc.value.done == {}
    {
      hide Inv;
      var first := proc.value.next;
      EndChunk(false, 0);
      ok := true;
      for i := 0 to size
        invariant Valid() && proc.Some? && old(index.pools) <= index.pools
        invariant proc.value.next == first && proc.value.liveStart == old(proc.value.liveStart)
        invariant ok ==> forall b :: first <= b < first + i ==> b in proc.value.done
        invariant ok <==> forall b :: first <= b < first + i ==> node(b).Some?
      {
        var served := FetchBlock(node, walk, first + i);
        ok := ok && served;
      }
      EndChunk(ok, size);
    }

    /** A commit once 25 blocks have passed since the last, and one more block at a time after twenty good chunks. */
    method AfterChunk()
      requires Valid() && proc.Some? && lastSaved <= proc.value.next
      modifies this
      ensures Valid() && proc == old(proc)
      ensures lastSaved <= proc.value.next < lastSaved + 25
      ensures old(lastSaved) + 25 <= proc.value.next ==> checkpoint == Some(proc.value.next)
      ensures proc.value.next < old(lastSaved) + 25 ==> checkpoint == old(checkpoint) && lastSaved == old(lastSaved)
      ensures var grows := 20 <= old(goodChunks) + 1 && old(concurrency) < 8;
              && concurrency == old(concurrency) + (if grows then 1 else 0)
              && goodChunks == if grows then 0 else old(goodChunks) + 1
    {
      hide Inv;
      if proc.value.next - lastSaved >= SAVE_EVERY {
        SaveProgress();
      }
      goodChunks := goodChunks + 1;
      if goodChunks >= CHUNKS_BEFORE_RECOVERY && concurrency < CONCURRENCY {
        concurrency := concurrency + 1;
        goodChunks := 0;
      }
    }

    /** A failed chunk: half as many blocks at a time, at least one. */
    method BackOff()
      requires Valid() && proc.Some?
      modifies this`concurrency, this`goodChunks
      ensures Valid() && goodChunks == 0
      ensures 1 <= concurrency && (2 * concurrency <= old(concurrency) <= 2 * concurrency + 1 || (concurrency == 1 == old(concurrency)))
    {
      hide Inv;
      concurrency := Max(1, concurrency / 2);
      goodChunks := 0;
    }

    /**
     * One turn of the live loop up to the node's head, beside the walk: chunk
     * after chunk, a commit at least every 25 blocks and at the end; a failed
     * chunk ends the turn without moving, and halves the concurrency.
     */
    method CatchUp(node: BlockNode, walk: Background, head: int) returns (ok: bool)
      requires Valid() && proc.Some? && lastSaved <= proc.value.next <= head && Honest(chain, walk)
      requires forall b :: node(b).Some? ==> chain(b) <= node(b).value
      modifies this
      ensures Valid() && proc.Some?
      ensures var next, target := old(proc.value.next), Min(head, old(proc.value.next) + 399);
              && (ok <==> forall b :: next <= b <= target ==> node(b).Some?)
              && (if ok then proc.value.next == target + 1 && checkpoint == Some(target + 1) && lastSaved == target + 1
                  else next <= proc.value.next <= target && concurrency <= 4)
              && Indexed(chain, index.pools, next, proc.value.next - 1)
              && (ok && proc.value.caught ==> index.mark == Some(target))
    {
      var target := Min(head, proc.value.next + MAX_BATCH - 1);
      ghost var start := proc.value;
      LiveIsIndexed();
      hide Inv;
      while proc.value.next <= target
        invariant Valid() && proc.Some? && lastSaved <= proc.value.next
        invariant start.next <= proc.value.next <= target + 1
        invariant proc.value.liveStart == start.liveStart
        invariant forall b :: start.next <= b < proc.value.next ==> node(b).Some?
        decreases target + 1 - proc.value.next
      {
        var size := Min(concurrency, target + 1 - proc.value.next);
        var done := IndexChunk(node, walk, size);
        if !done {
          BackOff();
          LiveIsIndexed();
          return false;
        }
        AfterChunk();
      }
      SaveProgress();
      LiveIsIndexed();
      return true;
    }

    lemma LiveIsIndexed()
      requires Valid() && proc.Some?
      ensures proc.value.liveStart <= proc.value.next
      ensures Indexed(chain, index.pools, proc.value.liveStart, proc.value.next - 1)
    {
    }
  }
}
