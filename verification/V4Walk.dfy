// The historical walk over Initialize events: windows that shrink when the
// provider refuses them and grow back on success, with a checkpoint a window.
module V4Walk {
  import opened Common

  type Pool = nat

  /** The pools initialised in each block. */
  type Chain = int -> set<Pool>

  /** An eth_getLogs answer: the window's pools, a refusal of the window, or any other trouble. */
  datatype Reply = Found(pools: set<Pool>) | WindowRefused | Trouble

  /** The provider's answer to the n-th request of a walk. */
  type Node = (nat, int, int) -> Reply

  const MIN_SPAN := 100
  const MAX_STUCK := 40
  const GOOD_BEFORE_GROWTH := 5

  /** What survives a restart: the index and the mark of the walk. */
  datatype Index = Index(pools: set<Pool>, mark: Option<int>)

  datatype Walk = Walk(next: int, span: nat, stuck: nat, good: nat)

  datatype Range = Range(last: int, maxSpan: nat)

  datatype Step = Retry(w: Walk) | Advance(w: Walk, covered: int) | GiveUp

  predicate Valid(w: Walk, r: Range) {
    && 1 <= r.maxSpan
    && Min(MIN_SPAN, r.maxSpan) <= w.span <= r.maxSpan
    && w.stuck <= MAX_STUCK
  }

  function WindowEnd(w: Walk, r: Range): int {
    Min(w.next + w.span - 1, r.last)
  }

  function StartBlock(mark: Option<int>, deployBlock: int): int {
    if mark.Some? then mark.value + 1 else deployBlock
  }

  /** One pass of the loop. */
  function OnReply(w: Walk, r: Range, reply: Reply): Step {
    match reply
    case Found(_) =>
      var end := WindowEnd(w, r);
      var grow := w.good + 1 >= GOOD_BEFORE_GROWTH && w.span < r.maxSpan;
      Advance(Walk(end + 1, if grow then Min(r.maxSpan, w.span * 2) else w.span, 0, if grow then 0 else w.good + 1), end)
    case WindowRefused =>
      if w.span > MIN_SPAN then Retry(w.(span := Max(MIN_SPAN, w.span / 2), good := 0)) else OnTrouble(w)
    case Trouble => OnTrouble(w)
  }

  function OnTrouble(w: Walk): Step {
    if w.stuck + 1 > MAX_STUCK then GiveUp else Retry(w.(stuck := w.stuck + 1))
  }

  /**
   * Every pass keeps the walk valid and strictly lowers the measure (blocks
   * left, retries left, span) in lexicographic order, or gives up.
   */
  lemma PassLowersMeasure(w: Walk, r: Range, reply: Reply)
    requires Valid(w, r) && w.next <= r.last
    ensures var s := OnReply(w, r, reply);
            && (s.Advance? ==> Valid(s.w, r) && w.next <= s.covered <= r.last && s.w.next == s.covered + 1
                               && s.covered - w.next + 1 <= r.maxSpan)
            && (s.Retry? ==> Valid(s.w, r) && s.w.next == w.next
                             && (w.stuck < s.w.stuck || (s.w.stuck == w.stuck && s.w.span < w.span)))
            && (s.GiveUp? <==> w.stuck == MAX_STUCK && (reply.Trouble? || (reply.WindowRefused? && w.span <= MIN_SPAN)))
  {
  }

  datatype Window = Window(first: int, last: int)

  datatype Result = Result(reached: int, index: Index, windows: seq<Window>)

  /** The walk from a state on; `n` numbers its requests. */
  function WalkOn(node: Node, n: nat, w: Walk, r: Range, index: Index): Result
    requires Valid(w, r)
    decreases r.last + 1 - w.next, MAX_STUCK - w.stuck, w.span
  {
    if w.next > r.last then Result(r.last, index, [])
    else
      var end := WindowEnd(w, r);
      var reply := node(n, w.next, end);
      PassLowersMeasure(w, r, reply);
      match OnReply(w, r, reply)
      case GiveUp => Result(w.next - 1, index, [])
      case Retry(w') => WalkOn(node, n + 1, w', r, index)
      case Advance(w', covered) =>
        var rest := WalkOn(node, n + 1, w', r, Index(index.pools + reply.pools, Some(covered)));
        rest.(windows := [Window(w.next, covered)] + rest.windows)
  }

  function StartWalk(index: Index, deployBlock: int, maxSpan: nat): Walk {
    Walk(StartBlock(index.mark, deployBlock), maxSpan, 0, 0)
  }

  /** backfillV4Pools. */
  function Backfill(node: Node, index: Index, deployBlock: int, r: Range): Result
    requires 1 <= r.maxSpan
  {
    if StartBlock(index.mark, deployBlock) > r.last then Result(r.last, index, [])
    else WalkOn(node, 0, StartWalk(index, deployBlock, r.maxSpan), r, index)
  }

  /** The windows follow one another from `first` without gap or overlap, each at most maxSpan wide, and end at `end`. */
  predicate Tiles(windows: seq<Window>, first: int, end: int, maxSpan: nat) {
    if windows == [] then end == first - 1
    else
      && windows[0].first == first && first <= windows[0].last < first + maxSpan
      && Tiles(windows[1..], windows[0].last + 1, end, maxSpan)
  }

  function PoolsIn(chain: Chain, first: int, last: int): set<Pool>
    decreases last - first
  {
    if first > last then {} else chain(first) + PoolsIn(chain, first + 1, last)
  }

  lemma {:induction false} PoolsSplit(chain: Chain, first: int, mid: int, last: int)
    requires first <= mid + 1 && mid <= last
    ensures PoolsIn(chain, first, last) == PoolsIn(chain, first, mid) + PoolsIn(chain, mid + 1, last)
    decreases mid - first
  {
    if first <= mid {
      PoolsSplit(chain, first + 1, mid, last);
    } else {
      assert PoolsIn(chain, first, mid) == {};
    }
  }

  /** The node answers a window with exactly its pools. */
  ghost predicate Exact(node: Node, chain: Chain) {
    forall n, first, last :: node(n, first, last).Found? ==> node(n, first, last).pools == PoolsIn(chain, first, last)
  }

  /**
   * On every sequence of refusals, errors and successes, whatever the node
   * answers: the windows tile the blocks from the start to the returned one,
   * which is the mark left behind, and nothing already indexed is lost.
   */
  ghost predicate Tiled(first: int, r: Range, before: Index, res: Result) {
    && first - 1 <= res.reached <= r.last
    && Tiles(res.windows, first, res.reached, r.maxSpan)
    && before.pools <= res.index.pools
    && res.index.mark == (if first <= res.reached then Some(res.reached) else before.mark)
  }

  lemma TiledMore(first: int, covered: int, r: Range, before: Index, pools: set<Pool>, rest: Result)
    requires first <= covered < first + r.maxSpan && before.pools <= pools
    requires Tiled(covered + 1, r, Index(pools, Some(covered)), rest)
    ensures Tiled(first, r, before, rest.(windows := [Window(first, covered)] + rest.windows))
  {
    var ws := [Window(first, covered)] + rest.windows;
    assert ws[1..] == rest.windows;
  }

  lemma {:induction false} WalkTiles(node: Node, n: nat, w: Walk, r: Range, index: Index)
    requires Valid(w, r) && w.next <= r.last + 1
    ensures Tiled(w.next, r, index, WalkOn(node, n, w, r, index))
    decreases r.last + 1 - w.next, MAX_STUCK - w.stuck, w.span
  {
    if w.next <= r.last {
      var reply := node(n, w.next, WindowEnd(w, r));
      PassLowersMeasure(w, r, reply);
      match OnReply(w, r, reply)
      case GiveUp =>
      case Retry(w') => WalkTiles(node, n + 1, w', r, index);
      case Advance(w', covered) =>
        var index' := Index(index.pools + reply.pools, Some(covered));
        WalkTiles(node, n + 1, w', r, index');
        hide Tiled;
        TiledMore(w.next, covered, r, index, index'.pools, WalkOn(node, n + 1, w', r, index'));
    }
  }

  lemma WalkReaches(node: Node, n: nat, w: Walk, r: Range, index: Index)
    requires Valid(w, r) && w.next <= r.last + 1
    ensures w.next - 1 <= WalkOn(node, n, w, r, index).reached <= r.last
  {
    WalkTiles(node, n, w, r, index);
  }

  /** Against an exact node, the index gains exactly the pools of the blocks covered. */
  lemma {:induction false} WalkGains(node: Node, chain: Chain, n: nat, w: Walk, r: Range, index: Index)
    requires Valid(w, r) && Exact(node, chain) && w.next <= r.last + 1
    ensures var res := WalkOn(node, n, w, r, index);
            res.index.pools == index.pools + PoolsIn(chain, w.next, res.reached)
    decreases r.last + 1 - w.next, MAX_STUCK - w.stuck, w.span
  {
    hide Tiled;
    assert PoolsIn(chain, w.next, w.next - 1) == {};
    WalkStep(node, n, w, r, index);
    if w.next <= r.last {
      var reply := node(n, w.next, WindowEnd(w, r));
      PassLowersMeasure(w, r, reply);
      hide WalkOn, PoolsIn;
      match OnReply(w, r, reply)
      case GiveUp =>
      case Retry(w') => WalkGains(node, chain, n + 1, w', r, index);
      case Advance(w', covered) =>
        var index' := Index(index.pools + reply.pools, Some(covered));
        WalkGains(node, chain, n + 1, w', r, index');
        WalkReaches(node, n + 1, w', r, index');
        PoolsSplit(chain, w.next, covered, WalkOn(node, n + 1, w', r, index').reached);
    }
  }

  /** backfillV4Pools as a whole, from whatever mark it finds, against any node; and what it gains against an exact one. */
  lemma BackfillCovers(node: Node, chain: Chain, index: Index, deployBlock: int, r: Range)
    requires 1 <= r.maxSpan
    ensures var first, res := StartBlock(index.mark, deployBlock), Backfill(node, index, deployBlock, r);
            if first > r.last then res == Result(r.last, index, [])
            else
              && Tiled(first, r, index, res)
              && (Exact(node, chain) ==> res.index.pools == index.pools + PoolsIn(chain, first, res.reached))
  {
    if StartBlock(index.mark, deployBlock) <= r.last {
      var w := StartWalk(index, deployBlock, r.maxSpan);
      WalkTiles(node, 0, w, r, index);
      if Exact(node, chain) { WalkGains(node, chain, 0, w, r, index); }
    }
  }

  /** A node that never fails is walked to the end. */
  lemma ServedWalkReachesEnd(node: Node, n: nat, w: Walk, r: Range, index: Index)
    requires Valid(w, r) && forall i, first, last :: !node(i, first, last).Trouble? && (last - first < MIN_SPAN ==> node(i, first, last).Found?)
    ensures WalkOn(node, n, w, r, index).reached == r.last
  {
    hide WalkOn;
    WalkStep(node, n, w, r, index);
    if w.next <= r.last { WindowsStayWide(node, n, w, r, index, 100); }
  }

  // ------------------------------------------- how it slows and recovers

  /** The node is never in trouble and serves every window of up to m blocks; wider ones it may refuse. */
  ghost predicate ServesUpTo(node: Node, m: nat) {
    forall i, first, last :: !node(i, first, last).Trouble? && (last - first < m ==> node(i, first, last).Found?)
  }

  lemma ServedReply(node: Node, m: nat, i: nat, first: int, last: int)
    requires ServesUpTo(node, m)
    ensures var reply := node(i, first, last); !reply.Trouble? && (last - first < m ==> reply.Found?)
  {
  }

  /** The least width a window may have, unless it ends the walk. */
  predicate WideEnough(x: Window, width: int, r: Range) {
    width <= x.last - x.first + 1 || x.last == r.last
  }

  /** A refused window is only ever halved: against a node serving m blocks every window covered is at least half as wide. */
  lemma {:induction false} WindowsStayWide(node: Node, n: nat, w: Walk, r: Range, index: Index, m: nat)
    requires Valid(w, r) && 100 <= m && ServesUpTo(node, m) && w.next <= r.last + 1
    requires Min(r.maxSpan, (m + 1) / 2) <= w.span
    ensures var res := WalkOn(node, n, w, r, index);
            res.reached == r.last && forall x <- res.windows :: WideEnough(x, Min(r.maxSpan, (m + 1) / 2), r)
    decreases r.last + 1 - w.next, MAX_STUCK - w.stuck, w.span
  {
    WalkStep(node, n, w, r, index);
    if w.next <= r.last {
      var reply := node(n, w.next, WindowEnd(w, r));
      PassLowersMeasure(w, r, reply);
      ServedReply(node, m, n, w.next, WindowEnd(w, r));
      hide WalkOn, ServesUpTo;
      match OnReply(w, r, reply)
      case GiveUp =>
      case Retry(w') => WindowsStayWide(node, n + 1, w', r, index, m);
      case Advance(w', covered) =>
        WindowsStayWide(node, n + 1, w', r, Index(index.pools + reply.pools, Some(covered)), m);
    }
  }

  /** The walk's variables after k windows served one after another. */
  function AfterServed(w: Walk, r: Range, k: nat): Walk {
    if k == 0 then w
    else
      var s := OnReply(AfterServed(w, r, k - 1), r, Found({}));
      s.w
  }

  /** Every fifth window served doubles the next, up to the widest allowed; the first one forgets all trouble. */
  lemma {:induction false} SpanDoubles(w: Walk, r: Range, j: nat, i: nat)
    requires Valid(w, r) && w.good == 0 && i < 5
    ensures var w' := AfterServed(w, r, 5 * j + i);
            && w'.span == Min(r.maxSpan, w.span * Pow2(j))
            && (w'.span < r.maxSpan ==> w'.good == i)
            && (0 < j + i ==> w'.stuck == 0)
    decreases j, i
  {
    if i > 0 {
      SpanDoubles(w, r, j, i - 1);
    } else if j > 0 {
      SpanDoubles(w, r, j - 1, 4);
      DoubledWithin(w.span, r.maxSpan, Pow2(j - 1));
    }
  }

  lemma DoubledWithin(span: nat, max: nat, p: nat)
    ensures span * (2 * p) == 2 * (span * p)
  {
  }

  /** A walk outlives forty troubles in a row with nothing changed but their count, and stops before its window at the next. */
  lemma {:induction false} PatienceIs(node: Node, n: nat, w: Walk, r: Range, index: Index, k: nat)
    requires Valid(w, r) && w.next <= r.last
    requires forall i :: n <= i < n + k ==> node(i, w.next, WindowEnd(w, r)).Trouble?
    ensures w.stuck + k <= 40 ==> WalkOn(node, n, w, r, index) == WalkOn(node, n + k, w.(stuck := w.stuck + k), r, index)
    ensures 40 < w.stuck + k ==> WalkOn(node, n, w, r, index) == Result(w.next - 1, index, [])
    decreases k
  {
    hide WalkOn;
    WalkStep(node, n, w, r, index);
    if k > 0 && w.stuck < 40 {
      var w' := w.(stuck := w.stuck + 1);
      assert WindowEnd(w', r) == WindowEnd(w, r);
      PatienceIs(node, n + 1, w', r, index, k - 1);
    }
  }

  // -------------------------------------------------------- the method

  /** The part of the store the walk touches. */
  class Store {
    var pools: set<Pool>
    var mark: Option<int>

    function Now(): Index
      reads this
    {
      Index(pools, mark)
    }
  }

  /** One unfolding of the walk, by what the node answers. */
  lemma WalkStep(node: Node, n: nat, w: Walk, r: Range, index: Index)
    requires Valid(w, r)
    ensures w.next > r.last ==> WalkOn(node, n, w, r, index) == Result(r.last, index, [])
    ensures w.next <= r.last ==>
              var end := WindowEnd(w, r);
              var reply := node(n, w.next, end);
              var s := OnReply(w, r, reply);
              && (s.GiveUp? ==> WalkOn(node, n, w, r, index) == Result(w.next - 1, index, []))
              && (!s.GiveUp? ==> Valid(s.w, r))
              && (s.Retry? ==> WalkOn(node, n, w, r, index) == WalkOn(node, n + 1, s.w, r, index))
              && (s.Advance? ==>
                    && reply.Found?
                    && var rest := WalkOn(node, n + 1, s.w, r, Index(index.pools + reply.pools, Some(end)));
                    WalkOn(node, n, w, r, index) == Prefixed([Window(w.next, end)], rest))
  {
    if w.next <= r.last {
      PassLowersMeasure(w, r, node(n, w.next, WindowEnd(w, r)));
    }
  }

  function Prefixed(windows: seq<Window>, res: Result): Result {
    res.(windows := windows + res.windows)
  }

  lemma PrefixedTwice(x: seq<Window>, y: seq<Window>, res: Result)
    ensures Prefixed(x, Prefixed(y, res)) == Prefixed(x + y, res) && Prefixed([], res) == res
  {
    assert x + (y + res.windows) == (x + y) + res.windows;
  }

  /** What one pass leaves: whether the walk gave up, its variables, the index and the windows it added. */
  datatype Turn = Turn(gaveUp: bool, w: Walk, index: Index, more: seq<Window>)

  function TurnOf(w: Walk, r: Range, index: Index, reply: Reply): Turn {
    match OnReply(w, r, reply)
    case GiveUp => Turn(true, w, index, [])
    case Retry(w') => Turn(false, w', index, [])
    case Advance(w', covered) =>
      Turn(false, w', Index(index.pools + (if reply.Found? then reply.pools else {}), Some(covered)), [Window(w.next, covered)])
  }

  /** One pass of the loop, once the node has answered. */
  method Pass(store: Store, r: Range, next: int, span: nat, stuck: nat, good: nat, reply: Reply)
      returns (next': int, span': nat, stuck': nat, good': nat, gaveUp: bool, ghost more: seq<Window>)
    requires Valid(Walk(next, span, stuck, good), r) && next <= r.last
    modifies store
    ensures var t := TurnOf(Walk(next, span, stuck, good), r, old(store.Now()), reply);
            && gaveUp == t.gaveUp && more == t.more && store.Now() == t.index
            && next' == t.w.next && (!gaveUp ==> Walk(next', span', stuck', good') == t.w)
  {
    next', span', stuck', good', gaveUp, more := next, span, stuck, good, false, [];
    if reply.Found? {
      var end := Min(next + span - 1, r.last);
      stuck' := 0;
      store.pools := store.pools + reply.pools;
      store.mark := Some(end);
      more := [Window(next, end)];
      next' := end + 1;
      good' := good + 1;
      if good' >= GOOD_BEFORE_GROWTH && span < r.maxSpan {
        span' := Min(r.maxSpan, span * 2);
        good' := 0;
      }
    } else if reply.WindowRefused? && span > MIN_SPAN {
      span' := Max(MIN_SPAN, span / 2);
      good' := 0;
    } else {
      stuck' := stuck + 1;
      gaveUp := stuck' > MAX_STUCK;
    }
  }

  /** What is left of the walk after one pass, behind the windows already covered. */
  lemma PassGoesOn(node: Node, n: nat, w: Walk, r: Range, index: Index, windows: seq<Window>)
    requires Valid(w, r) && w.next <= r.last
    ensures var whole := Prefixed(windows, WalkOn(node, n, w, r, index));
            var t := TurnOf(w, r, index, node(n, w.next, Min(w.next + w.span - 1, r.last)));
            if t.gaveUp then whole == Result(t.w.next - 1, t.index, windows)
            else
              && Valid(t.w, r) && t.w.stuck <= MAX_STUCK && Lowers(w, t.w, r)
              && whole == Prefixed(windows + t.more, WalkOn(node, n + 1, t.w, r, t.index))
  {
    WalkStep(node, n, w, r, index);
    var reply := node(n, w.next, WindowEnd(w, r));
    PassLowersMeasure(w, r, reply);
    hide WalkOn, Prefixed;
    match OnReply(w, r, reply)
    case GiveUp => NoMoreWindows(windows, w.next - 1, index);
    case Retry(_) => assert windows + [] == windows;
    case Advance(w', covered) =>
      PrefixedTwice(windows, [Window(w.next, covered)], WalkOn(node, n + 1, w', r, Index(index.pools + reply.pools, Some(covered))));
  }

  /** The measure of the loop. */
  predicate Lowers(w: Walk, w': Walk, r: Range) {
    || w.next < w'.next <= r.last + 1
    || (w'.next == w.next && w.stuck < w'.stuck <= MAX_STUCK)
    || (w'.next == w.next && w'.stuck == w.stuck && w'.span < w.span)
  }

  /** The loop from where the walk stands. */
  method Loop(store: Store, node: Node, first: int, r: Range) returns (reached: int, ghost windows: seq<Window>)
    requires 1 <= r.maxSpan && first <= r.last
    modifies store
    ensures Result(reached, store.Now(), windows) == WalkOn(node, 0, Walk(first, r.maxSpan, 0, 0), r, old(store.Now()))
  {
    WalkBegins(node, first, r, store.Now());
    hide WalkOn, Prefixed, TurnOf, Valid;
    var next, span: nat, stuck: nat, good: nat, n: nat := first, r.maxSpan, 0, 0, 0;
    windows := [];
    ghost var whole := WalkOn(node, 0, Walk(next, span, stuck, good), r, store.Now());
    while next <= r.last
      invariant Valid(Walk(next, span, stuck, good), r) && stuck <= MAX_STUCK
      invariant whole == Prefixed(windows, WalkOn(node, n, Walk(next, span, stuck, good), r, store.Now()))
      decreases r.last + 1 - next, MAX_STUCK - stuck, span
    {
      ghost var w := Walk(next, span, stuck, good);
      PassGoesOn(node, n, w, r, store.Now(), windows);
      var reply := node(n, next, Min(next + span - 1, r.last));
      var gaveUp;
      ghost var more;
      next, span, stuck, good, gaveUp, more := Pass(store, r, next, span, stuck, good, reply);
      if gaveUp { return next - 1, windows; }
      n := n + 1;
      windows := windows + more;
    }
    WalkEnds(node, n, Walk(next, span, stuck, good), r, store.Now(), windows);
    return r.last, windows;
  }

  lemma WalkBegins(node: Node, first: int, r: Range, index: Index)
    requires 1 <= r.maxSpan
    ensures var w := Walk(first, r.maxSpan, 0, 0);
            Valid(w, r) && WalkOn(node, 0, w, r, index) == Prefixed([], WalkOn(node, 0, w, r, index))
  {
    hide WalkOn;
  }

  method BackfillV4Pools(store: Store, node: Node, deployBlock: int, r: Range) returns (reached: int, ghost windows: seq<Window>)
    requires 1 <= r.maxSpan
    modifies store
    ensures Result(reached, store.Now(), windows) == Backfill(node, old(store.Now()), deployBlock, r)
  {
    hide WalkOn;
    var next := if store.mark.Some? then store.mark.value + 1 else deployBlock;
    if next > r.last { return r.last, []; }
    reached, windows := Loop(store, node, next, r);
  }

  lemma WalkEnds(node: Node, n: nat, w: Walk, r: Range, index: Index, windows: seq<Window>)
    requires Valid(w, r) && w.next > r.last
    ensures Prefixed(windows, WalkOn(node, n, w, r, index)) == Result(r.last, index, windows)
  {
    WalkStep(node, n, w, r, index);
    NoMoreWindows(windows, r.last, index);
  }

  lemma NoMoreWindows(windows: seq<Window>, reached: int, index: Index)
    ensures Prefixed(windows, Result(reached, index, [])) == Result(reached, index, windows)
  {
    assert windows + [] == windows;
  }
}
