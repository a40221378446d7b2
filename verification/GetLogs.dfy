// eth_getLogs over any range: ask for the whole, and halve what the upstream
// refuses, within a budget of calls.
module GetLogs {
  import opened Common

  type Log = nat

  /** What the upstream says to one eth_getLogs; NotAnArray is a reply the source ignores. */
  datatype Answer = Logs(logs: seq<Log>) | NotAnArray | RangeRefused | OtherError

  /** The upstream's answer to the n-th request, for a block range; it may change its mind between requests. */
  type Upstream = (nat, int, int) -> Answer

  /** The matching logs of each block. */
  type Chain = int -> seq<Log>

  datatype Failure = TooManyCalls | SingleBlockTooBig(block: int) | TooManyLogs | UpstreamFailed | FromAfterTo

  datatype Window = Window(lo: int, hi: int)

  /** `skipped` records the windows whose answer was not an array. */
  datatype Progress = Progress(calls: nat, out: seq<Log>, skipped: seq<Window>, failure: Option<Failure>)

  function LogsIn(chain: Chain, lo: int, hi: int): seq<Log>
    decreases hi - lo
  {
    if lo > hi then [] else chain(lo) + LogsIn(chain, lo + 1, hi)
  }

  lemma {:induction false} LogsSplit(chain: Chain, lo: int, mid: int, hi: int)
    requires lo <= mid + 1 && mid <= hi
    ensures LogsIn(chain, lo, hi) == LogsIn(chain, lo, mid) + LogsIn(chain, mid + 1, hi)
    decreases mid - lo
  {
    if lo <= mid {
      LogsSplit(chain, lo + 1, mid, hi);
      assert chain(lo) + (LogsIn(chain, lo + 1, mid) + LogsIn(chain, mid + 1, hi))
          == (chain(lo) + LogsIn(chain, lo + 1, mid)) + LogsIn(chain, mid + 1, hi);
    } else {
      assert LogsIn(chain, lo, mid) == [];
    }
  }

  // ---------------------------------------------------------- the walk

  function Walk(up: Upstream, lo: int, hi: int, p: Progress, maxCalls: nat, maxLogs: nat): Progress
    requires lo <= hi && p.failure.None?
    decreases hi - lo
  {
    if p.calls >= maxCalls then p.(failure := Some(TooManyCalls))
    else
      var asked := p.(calls := p.calls + 1);
      match up(p.calls, lo, hi)
      case OtherError => asked.(failure := Some(UpstreamFailed))
      case NotAnArray => asked.(skipped := p.skipped + [Window(lo, hi)])
      case Logs(logs) =>
        if |p.out| + |logs| > maxLogs then asked.(failure := Some(TooManyLogs)) else asked.(out := p.out + logs)
      case RangeRefused =>
        if lo >= hi then asked.(failure := Some(SingleBlockTooBig(lo)))
        else
          var mid := lo + (hi - lo) / 2;
          var left := Walk(up, lo, mid, asked, maxCalls, maxLogs);
          if left.failure.Some? then left else Walk(up, mid + 1, hi, left, maxCalls, maxLogs)
  }

  /** One unfolding of the walk, by what the upstream answers. */
  lemma WalkStep(up: Upstream, lo: int, hi: int, p: Progress, maxCalls: nat, maxLogs: nat)
    requires lo <= hi && p.failure.None?
    ensures var r, asked, mid := Walk(up, lo, hi, p, maxCalls, maxLogs), p.(calls := p.calls + 1), lo + (hi - lo) / 2;
            if p.calls >= maxCalls then r == p.(failure := Some(TooManyCalls))
            else
              match up(p.calls, lo, hi)
              case OtherError => r == asked.(failure := Some(UpstreamFailed))
              case NotAnArray => r == asked.(skipped := p.skipped + [Window(lo, hi)])
              case Logs(logs) =>
                r == if |p.out| + |logs| > maxLogs then asked.(failure := Some(TooManyLogs)) else asked.(out := p.out + logs)
              case RangeRefused =>
                if lo >= hi then r == asked.(failure := Some(SingleBlockTooBig(lo)))
                else
                  var left := Walk(up, lo, mid, asked, maxCalls, maxLogs);
                  r == if left.failure.Some? then left else Walk(up, mid + 1, hi, left, maxCalls, maxLogs)
  {
  }

  /** Range answers are exact: an answered window holds that window's logs, in block order. */
  ghost predicate Exact(up: Upstream, chain: Chain) {
    forall n, lo, hi :: up(n, lo, hi).Logs? ==> up(n, lo, hi).logs == LogsIn(chain, lo, hi)
  }

  ghost predicate AlwaysArrays(up: Upstream) {
    forall n, lo, hi :: !up(n, lo, hi).NotAnArray?
  }

  function Weight(chain: Chain, ws: seq<Window>): nat {
    if ws == [] then 0 else Weight(chain, ws[..|ws| - 1]) + |LogsIn(chain, ws[|ws| - 1].lo, ws[|ws| - 1].hi)|
  }

  /** What one walk guarantees, from progress p to progress r. */
  ghost predicate Walked(chain: Chain, lo: int, hi: int, p: Progress, r: Progress, maxCalls: nat) {
    && p.calls <= r.calls && (p.calls <= maxCalls ==> r.calls <= maxCalls)
    && p.skipped <= r.skipped && p.out <= r.out
    && (r.failure.None? ==>
          && Weight(chain, p.skipped) <= Weight(chain, r.skipped)
          && |r.out| + Weight(chain, r.skipped) == |p.out| + Weight(chain, p.skipped) + |LogsIn(chain, lo, hi)|
          && (Weight(chain, r.skipped) == Weight(chain, p.skipped) ==> r.out == p.out + LogsIn(chain, lo, hi)))
  }

  lemma SkipOne(chain: Chain, p: Progress, lo: int, hi: int)
    ensures Weight(chain, p.skipped + [Window(lo, hi)]) == Weight(chain, p.skipped) + |LogsIn(chain, lo, hi)|
  {
    assert (p.skipped + [Window(lo, hi)])[..|p.skipped|] == p.skipped;
  }

  lemma WalkedTwice(chain: Chain, lo: int, mid: int, hi: int, p: Progress, q: Progress, r: Progress, maxCalls: nat)
    requires lo <= mid < hi && q.failure.None?
    requires Walked(chain, lo, mid, p, q, maxCalls) && Walked(chain, mid + 1, hi, q, r, maxCalls)
    ensures Walked(chain, lo, hi, p, r, maxCalls)
  {
    LogsSplit(chain, lo, mid, hi);
    hide Weight, LogsIn;
    assert p.out + (LogsIn(chain, lo, mid) + LogsIn(chain, mid + 1, hi))
        == (p.out + LogsIn(chain, lo, mid)) + LogsIn(chain, mid + 1, hi);
  }

  /** One request that is not split. */
  lemma LeafIsExact(up: Upstream, chain: Chain, lo: int, hi: int, p: Progress, maxCalls: nat, maxLogs: nat)
    requires Exact(up, chain) && lo <= hi && p.failure.None?
    requires p.calls >= maxCalls || !up(p.calls, lo, hi).RangeRefused? || lo == hi
    ensures var r := Walk(up, lo, hi, p, maxCalls, maxLogs);
            Walked(chain, lo, hi, p, r, maxCalls) && (AlwaysArrays(up) ==> r.skipped == p.skipped)
  {
    SkipOne(chain, p, lo, hi);
    hide LogsIn, Weight;
  }

  /** A failed half fails the whole; the other half is never asked. */
  lemma FailureStops(chain: Chain, lo: int, mid: int, hi: int, p: Progress, r: Progress, maxCalls: nat)
    requires r.failure.Some? && Walked(chain, lo, mid, p, r, maxCalls)
    ensures Walked(chain, lo, hi, p, r, maxCalls)
  {
  }

  lemma OneMoreCall(chain: Chain, lo: int, hi: int, p: Progress, r: Progress, maxCalls: nat)
    requires p.calls < maxCalls && Walked(chain, lo, hi, p.(calls := p.calls + 1), r, maxCalls)
    ensures Walked(chain, lo, hi, p, r, maxCalls)
  {
  }

  lemma {:induction false} WalkIsExact(up: Upstream, chain: Chain, lo: int, hi: int, p: Progress, maxCalls: nat, maxLogs: nat)
    requires Exact(up, chain) && lo <= hi && p.failure.None?
    ensures var r := Walk(up, lo, hi, p, maxCalls, maxLogs);
            Walked(chain, lo, hi, p, r, maxCalls) && (AlwaysArrays(up) ==> r.skipped == p.skipped)
    decreases hi - lo
  {
    hide Walked, AlwaysArrays;
    if p.calls < maxCalls && up(p.calls, lo, hi).RangeRefused? && lo < hi {
      var asked, mid := p.(calls := p.calls + 1), lo + (hi - lo) / 2;
      var left := Walk(up, lo, mid, asked, maxCalls, maxLogs);
      WalkIsExact(up, chain, lo, mid, asked, maxCalls, maxLogs);
      if left.failure.None? {
        WalkIsExact(up, chain, mid + 1, hi, left, maxCalls, maxLogs);
        WalkedTwice(chain, lo, mid, hi, asked, left, Walk(up, mid + 1, hi, left, maxCalls, maxLogs), maxCalls);
      } else {
        FailureStops(chain, lo, mid, hi, asked, left, maxCalls);
      }
      OneMoreCall(chain, lo, hi, p, Walk(up, lo, hi, p, maxCalls, maxLogs), maxCalls);
    } else {
      LeafIsExact(up, chain, lo, hi, p, maxCalls, maxLogs);
    }
  }

  // ------------------------------------------------------- getLogsWide

  datatype Tag = Head | Number(n: int)

  datatype Filter = ByHash | ByRange(fromBlock: Tag, toBlock: Tag)

  datatype Reply = Verbatim(answer: Answer) | Gathered(logs: seq<Log>)

  /** Block tags resolved to numbers; `head` is the upstream's head, None when unreadable. */
  function ResolveRange(fromBlock: Tag, toBlock: Tag, head: Option<int>): Option<Window> {
    if fromBlock.Number? && toBlock.Number? then Some(Window(fromBlock.n, toBlock.n))
    else if head.None? then None
    else Some(Window(if fromBlock.Head? then head.value else fromBlock.n, if toBlock.Head? then head.value else toBlock.n))
  }

  /** The query as the class below runs it; `first` answers the filter as given, `head` answers eth_blockNumber. */
  function GetLogsWide(up: Upstream, first: Answer, head: Option<int>, filter: Filter, maxCalls: nat, maxLogs: nat)
    : (Result<Reply, Failure>, Progress)
  {
    var start := Progress(1, [], [], None);
    match filter
    case ByHash =>
      (if first.RangeRefused? || first.OtherError? then Err(UpstreamFailed) else Ok(Verbatim(first)), Progress(1, [], [], None))
    case ByRange(fromBlock, toBlock) =>
      if first.OtherError? then (Err(UpstreamFailed), start)
      else if !first.RangeRefused? then (Ok(Verbatim(first)), start)
      else
        match ResolveRange(fromBlock, toBlock, head)
        case None => (Err(FromAfterTo), start)
        case Some(w) =>
          if w.hi < w.lo then (Err(FromAfterTo), start)
          else
            var r := Walk(up, w.lo, w.hi, start, maxCalls, maxLogs);
            match r.failure
            case Some(f) => (Err(f), r)
            case None => (Ok(Gathered(r.out)), r)
  }

  /**
   * All or nothing: a gathered reply is every matching log of the resolved
   * range once, in block order; it costs at most maxCalls requests (one is
   * always spent); anything short of that is an error.
   */
  lemma AllOrNothing(up: Upstream, chain: Chain, first: Answer, head: Option<int>, filter: Filter, maxCalls: nat, maxLogs: nat)
    requires Exact(up, chain) && AlwaysArrays(up)
    ensures var (reply, p) := GetLogsWide(up, first, head, filter, maxCalls, maxLogs);
            && 1 <= p.calls <= Max(maxCalls, 1)
            && (reply.Ok? && reply.value.Verbatim? ==> reply.value.answer == first && p.calls == 1)
            && (reply.Ok? && reply.value.Gathered? ==>
                  && filter.ByRange? && first.RangeRefused?
                  && var w := ResolveRange(filter.fromBlock, filter.toBlock, head);
                  && w.Some? && w.value.lo <= w.value.hi
                  && reply.value.logs == LogsIn(chain, w.value.lo, w.value.hi))
  {
    if filter.ByRange? && first.RangeRefused? {
      var w := ResolveRange(filter.fromBlock, filter.toBlock, head);
      if w.Some? && w.value.lo <= w.value.hi {
        WalkIsExact(up, chain, w.value.lo, w.value.hi, Progress(1, [], [], None), maxCalls, maxLogs);
      }
    }
  }

  /**
   * Without the assumption that every answer is an array: a successful walk is
   * complete exactly when the windows it skipped hold no matching log.
   */
  lemma CompleteIff(up: Upstream, chain: Chain, lo: int, hi: int, maxCalls: nat, maxLogs: nat)
    requires Exact(up, chain) && lo <= hi
    ensures var r := Walk(up, lo, hi, Progress(1, [], [], None), maxCalls, maxLogs);
            r.failure.None? ==> (r.out == LogsIn(chain, lo, hi) <==> Weight(chain, r.skipped) == 0)
  {
    WalkIsExact(up, chain, lo, hi, Progress(1, [], [], None), maxCalls, maxLogs);
  }

  /** A reply that is not an array is dropped in silence: here block 7 has a log and the answer is empty. */
  lemma SkippedWindowLosesLogs()
    ensures var chain: Chain, up: Upstream := b => if b == 7 then [99] else [], (_, _, _) => NotAnArray;
            && Exact(up, chain)
            && GetLogsWide(up, RangeRefused, None, ByRange(Number(7), Number(7)), 40, 150_000).0 == Ok(Gathered([]))
            && LogsIn(chain, 7, 7) == [99]
  {
    var chain: Chain := b => if b == 7 then [99] else [];
    assert LogsIn(chain, 7, 7) == chain(7) + LogsIn(chain, 8, 7);
  }

  /** An upstream that serves at least every window of w blocks, and otherwise only ever refuses ranges. */
  ghost predicate Serves(up: Upstream, w: nat) {
    forall n, f, l :: !up(n, f, l).OtherError? && (l - f < w ==> up(n, f, l).Logs?)
  }

  lemma ServedAnswer(up: Upstream, chain: Chain, n: nat, lo: int, hi: int, w: nat)
    requires Exact(up, chain) && AlwaysArrays(up) && Serves(up, w)
    ensures var answer := up(n, lo, hi);
            && !answer.OtherError? && !answer.NotAnArray? && (hi - lo < w ==> answer.Logs?)
            && (answer.Logs? ==> answer.logs == LogsIn(chain, lo, hi))
  {
    hide LogsIn;
  }

  /** So many calls walk so many blocks, in windows of at least h. */
  predicate Suffices(calls: int, h: nat, blocks: int) {
    (calls + 1) * h <= 2 * blocks
  }

  /** The walk may still spend what so many blocks need. */
  predicate Affords(budget: int, h: nat, blocks: int) {
    2 * blocks <= (budget + 1) * h
  }

  lemma OneCall(budget: int, h: nat, blocks: int)
    requires 0 < h <= blocks && Affords(budget, h, blocks)
    ensures 0 < budget && Suffices(1, h, blocks)
  {
    if budget <= 0 { MulLe(budget + 1, 1, h); }
  }

  lemma FirstHalf(budget: int, h: nat, n1: int, n2: int)
    requires 0 < h <= n2 && Affords(budget, h, n1 + n2)
    ensures Affords(budget - 1, h, n1)
  {
    Distribute(budget, 1, h);
  }

  lemma SecondHalf(budget: int, h: nat, n1: int, n2: int, c1: int)
    requires Affords(budget, h, n1 + n2) && Suffices(c1, h, n1)
    ensures Affords(budget - 1 - c1, h, n2)
  {
    DistributeMinus(budget + 1, c1 + 1, h);
  }

  lemma BothHalves(h: nat, n1: int, n2: int, c1: int, c2: int)
    requires Suffices(c1, h, n1) && Suffices(c2, h, n2)
    ensures Suffices(1 + c1 + c2, h, n1 + n2)
  {
    Distribute(c1 + 1, c2 + 1, h);
  }

  lemma {:induction false} HalvingSucceeds(up: Upstream, chain: Chain, lo: int, hi: int, p: Progress, maxCalls: nat, maxLogs: nat, w: nat)
    requires Exact(up, chain) && AlwaysArrays(up) && Serves(up, w) && 0 < w && p.failure.None?
    requires (w + 1) / 2 <= hi - lo + 1 && Affords(maxCalls - p.calls, (w + 1) / 2, hi - lo + 1)
    requires |p.out| + |LogsIn(chain, lo, hi)| <= maxLogs
    ensures var r := Walk(up, lo, hi, p, maxCalls, maxLogs);
            && r.failure.None? && |r.out| == |p.out| + |LogsIn(chain, lo, hi)|
            && Suffices(r.calls - p.calls, (w + 1) / 2, hi - lo + 1)
    decreases hi - lo
  {
    hide Walk, LogsIn, Serves, AlwaysArrays, Exact, Suffices, Affords;
    var h, budget := (w + 1) / 2, maxCalls - p.calls;
    WalkStep(up, lo, hi, p, maxCalls, maxLogs);
    ServedAnswer(up, chain, p.calls, lo, hi, w);
    OneCall(budget, h, hi - lo + 1);
    if up(p.calls, lo, hi).RangeRefused? {
      var asked, mid := p.(calls := p.calls + 1), lo + (hi - lo) / 2;
      var n1, n2 := mid - lo + 1, hi - mid;
      LogsSplit(chain, lo, mid, hi);
      FirstHalf(budget, h, n1, n2);
      HalvingSucceeds(up, chain, lo, mid, asked, maxCalls, maxLogs, w);
      var left := Walk(up, lo, mid, asked, maxCalls, maxLogs);
      SecondHalf(budget, h, n1, n2, left.calls - asked.calls);
      HalvingSucceeds(up, chain, mid + 1, hi, left, maxCalls, maxLogs, w);
      BothHalves(h, n1, n2, left.calls - asked.calls, Walk(up, mid + 1, hi, left, maxCalls, maxLogs).calls - left.calls);
    }
  }

  /**
   * Against an upstream that serves every window of w blocks, halving finds
   * its way: one call if the range is no wider, and otherwise no more than
   * 2 * blocks / ceil(w/2) - 1 calls, whatever wider windows it refuses.
   */
  lemma EnoughCallsSucceed(up: Upstream, chain: Chain, lo: int, hi: int, maxCalls: nat, maxLogs: nat, w: nat)
    requires Exact(up, chain) && AlwaysArrays(up) && Serves(up, w) && 0 < w && lo <= hi
    requires 2 <= maxCalls && (w < hi - lo + 1 ==> 2 * (hi - lo + 1) <= maxCalls * ((w + 1) / 2))
    requires |LogsIn(chain, lo, hi)| <= maxLogs
    ensures var r, blocks := Walk(up, lo, hi, Progress(1, [], [], None), maxCalls, maxLogs), hi - lo + 1;
            && r.failure.None? && r.out == LogsIn(chain, lo, hi)
            && (blocks <= w ==> r.calls == 2)
            && (w < blocks ==> r.calls * ((w + 1) / 2) <= 2 * blocks)
  {
    var p := Progress(1, [], [], None);
    WalkIsExact(up, chain, lo, hi, p, maxCalls, maxLogs);
    if hi - lo + 1 <= w {
      ServedAnswer(up, chain, 1, lo, hi, w);
    } else {
      HalvingSucceeds(up, chain, lo, hi, p, maxCalls, maxLogs, w);
    }
  }

  // ------------------------------------------------------ what errors mean

  /** What a failed walk saw. */
  ghost predicate Earned(up: Upstream, chain: Chain, lo: int, hi: int, p: Progress, r: Progress, maxCalls: nat, maxLogs: nat) {
    match r.failure
    case None => |p.out| <= maxLogs ==> |r.out| <= maxLogs
    case Some(TooManyCalls) => maxCalls <= r.calls
    case Some(SingleBlockTooBig(b)) => lo <= b <= hi && exists n :: p.calls <= n < r.calls && up(n, b, b).RangeRefused?
    case Some(TooManyLogs) => maxLogs < |p.out| + |LogsIn(chain, lo, hi)|
    case Some(UpstreamFailed) => exists n, f, l :: p.calls <= n < r.calls && lo <= f <= l <= hi && up(n, f, l).OtherError?
    case Some(FromAfterTo) => false
  }

  lemma EarnedInHalf(up: Upstream, chain: Chain, lo: int, hi: int, p: Progress, lo': int, hi': int, q: Progress, r: Progress, maxCalls: nat, maxLogs: nat)
    requires r.failure.Some? && Earned(up, chain, lo', hi', q, r, maxCalls, maxLogs)
    requires lo <= lo' && hi' <= hi && p.calls <= q.calls
    requires |q.out| + |LogsIn(chain, lo', hi')| <= |p.out| + |LogsIn(chain, lo, hi)|
    ensures Earned(up, chain, lo, hi, p, r, maxCalls, maxLogs)
  {
  }

  /** Each error of the walk is earned: the budget is spent, one block alone was refused, there are too many logs, or the upstream failed. */
  lemma {:induction false} ErrorsAreEarned(up: Upstream, chain: Chain, lo: int, hi: int, p: Progress, maxCalls: nat, maxLogs: nat)
    requires Exact(up, chain) && lo <= hi && p.failure.None?
    ensures Earned(up, chain, lo, hi, p, Walk(up, lo, hi, p, maxCalls, maxLogs), maxCalls, maxLogs)
    decreases hi - lo
  {
    hide Walk, LogsIn, AlwaysArrays;
    WalkStep(up, lo, hi, p, maxCalls, maxLogs);
    if p.calls < maxCalls && up(p.calls, lo, hi).RangeRefused? && lo < hi {
      var asked, mid := p.(calls := p.calls + 1), lo + (hi - lo) / 2;
      var left := Walk(up, lo, mid, asked, maxCalls, maxLogs);
      LogsSplit(chain, lo, mid, hi);
      hide Earned, Exact;
      ErrorsAreEarned(up, chain, lo, mid, asked, maxCalls, maxLogs);
      WalkIsExact(up, chain, lo, mid, asked, maxCalls, maxLogs);
      if left.failure.Some? {
        EarnedInHalf(up, chain, lo, hi, p, lo, mid, asked, left, maxCalls, maxLogs);
      } else {
        ErrorsAreEarned(up, chain, mid + 1, hi, left, maxCalls, maxLogs);
        EarnedByBoth(up, chain, lo, mid, hi, p, left, Walk(up, mid + 1, hi, left, maxCalls, maxLogs), maxCalls, maxLogs);
      }
    }
  }

  lemma EarnedByBoth(up: Upstream, chain: Chain, lo: int, mid: int, hi: int, p: Progress, left: Progress, r: Progress, maxCalls: nat, maxLogs: nat)
    requires lo <= mid < hi && left.failure.None? && Walked(chain, lo, mid, p.(calls := p.calls + 1), left, maxCalls)
    requires Earned(up, chain, lo, mid, p.(calls := p.calls + 1), left, maxCalls, maxLogs)
    requires Earned(up, chain, mid + 1, hi, left, r, maxCalls, maxLogs)
    ensures Earned(up, chain, lo, hi, p, r, maxCalls, maxLogs)
  {
    LogsSplit(chain, lo, mid, hi);
    hide LogsIn;
    if r.failure.Some? {
      EarnedInHalf(up, chain, lo, hi, p, mid + 1, hi, left, r, maxCalls, maxLogs);
    }
  }

  /** The block a tag stands for. */
  function EndOf(tag: Tag, head: Option<int>): Option<int> {
    match tag case Head => head case Number(n) => Some(n)
  }

  /** When the upstream is asked once only, and when the range is turned away. */
  lemma FirstAnswerDecides(up: Upstream, first: Answer, head: Option<int>, filter: Filter, maxCalls: nat, maxLogs: nat)
    ensures var reply := GetLogsWide(up, first, head, filter, maxCalls, maxLogs).0;
            && (first.Logs? || first.NotAnArray? ==> reply == Ok(Verbatim(first)))
            && (first.OtherError? || (first.RangeRefused? && filter.ByHash?) ==> reply == Err(UpstreamFailed))
            && (first.RangeRefused? && filter.ByRange? ==>
                  var lo, hi := EndOf(filter.fromBlock, head), EndOf(filter.toBlock, head);
                  if lo.None? || hi.None? || hi.value < lo.value then reply == Err(FromAfterTo)
                  else
                    var r := Walk(up, lo.value, hi.value, Progress(1, [], [], None), maxCalls, maxLogs);
                    reply == if r.failure.Some? then Err(r.failure.value) else Ok(Gathered(r.out)))
  {
  }

  // -------------------------------------------------------- the class

  /** The state one query shares down the recursion: its call budget and its output. */
  class Query {
    const maxCalls: nat
    const maxLogs: nat
    var calls: nat
    var out: seq<Log>
    ghost var skipped: seq<Window>

    constructor (maxCalls: nat, maxLogs: nat)
      ensures this.maxCalls == maxCalls && this.maxLogs == maxLogs && calls == 0 && out == [] && skipped == []
    {
      this.maxCalls, this.maxLogs := maxCalls, maxLogs;
      calls, out, skipped := 0, [], [];
    }

    /** What an answer that is no refusal of the range does to the output. */
    method Take(lo: int, hi: int, answer: Answer) returns (failure: Option<Failure>)
      requires !answer.RangeRefused?
      modifies this`out, this`skipped
      ensures Progress(calls, out, skipped, failure) == match answer
        case OtherError => Progress(calls, old(out), old(skipped), Some(UpstreamFailed))
        case NotAnArray => Progress(calls, old(out), old(skipped) + [Window(lo, hi)], None)
        case Logs(logs) =>
          if |old(out)| + |logs| > maxLogs then Progress(calls, old(out), old(skipped), Some(TooManyLogs))
          else Progress(calls, old(out) + logs, old(skipped), None)
    {
      if answer.OtherError? { return Some(UpstreamFailed); }
      if answer.Logs? {
        if |out| + |answer.logs| > maxLogs { return Some(TooManyLogs); }
        out := out + answer.logs;
      } else {
        skipped := skipped + [Window(lo, hi)];
      }
      return None;
    }

    method WalkRange(up: Upstream, lo: int, hi: int) returns (failure: Option<Failure>)
      requires lo <= hi
      modifies this
      ensures Progress(calls, out, skipped, failure)
           == Walk(up, lo, hi, Progress(old(calls), old(out), old(skipped), None), maxCalls, maxLogs)
      decreases hi - lo
    {
      hide Walk;
      ghost var before := Progress(calls, out, skipped, None);
      WalkStep(up, lo, hi, before, maxCalls, maxLogs);
      if calls >= maxCalls { return Some(TooManyCalls); }
      var answer := up(calls, lo, hi);
      calls := calls + 1;
      if !answer.RangeRefused? {
        failure := Take(lo, hi, answer);
      } else if lo >= hi {
        failure := Some(SingleBlockTooBig(lo));
      } else {
        var mid := lo + (hi - lo) / 2;
        failure := WalkRange(up, lo, mid);
        if failure.None? {
          failure := WalkRange(up, mid + 1, hi);
        }
      }
    }
  }

  method RunGetLogsWide(up: Upstream, first: Answer, head: Option<int>, filter: Filter, maxCalls: nat, maxLogs: nat)
    returns (reply: Result<Reply, Failure>)
    ensures reply == GetLogsWide(up, first, head, filter, maxCalls, maxLogs).0
  {
    if filter.ByHash? {
      return if first.RangeRefused? || first.OtherError? then Err(UpstreamFailed) else Ok(Verbatim(first));
    }
    var q := new Query(maxCalls, maxLogs);
    q.calls := q.calls + 1;
    match first {
      case OtherError => return Err(UpstreamFailed);
      case Logs(_) => return Ok(Verbatim(first));
      case NotAnArray => return Ok(Verbatim(first));
      case RangeRefused =>
        var range := ResolveRange(filter.fromBlock, filter.toBlock, head);
        if range.None? || range.value.hi < range.value.lo { return Err(FromAfterTo); }
        var failure := q.WalkRange(up, range.value.lo, range.value.hi);
        return if failure.Some? then Err(failure.value) else Ok(Gathered(q.out));
    }
  }
}
