// How a residual is spread across routes, and the grid of splits that is tried.
module Allocation {
  import opened Common
  import opened Solver

  /** `route` stands for the legs of one route. */
  datatype Part = Part(route: nat, num: nat)

  datatype Alloc = Alloc(parts: seq<Part>, den: nat)

  datatype Interaction = Interaction(route: nat, amountIn: nat)

  function Single(route: nat): Alloc {
    Alloc([Part(route, 1)], 1)
  }

  function Live(parts: seq<Part>): (live: seq<Part>)
    ensures forall p <- live :: p.num > 0
  {
    if parts == [] then []
    else (if parts[0].num > 0 then [parts[0]] else []) + Live(parts[1..])
  }

  function Share(amount: nat, num: nat, den: nat): nat
    requires den > 0
  {
    MulDiv(amount, num, den)
  }

  /** Parts i.. of a spread: every share rounds down but the last, which takes what is left. */
  function SpreadFrom(parts: seq<Part>, i: nat, amount: nat, used: int, den: nat): seq<Interaction>
    requires den > 0 && i <= |parts|
    decreases |parts| - i
  {
    if i == |parts| then []
    else
      var amt := if i == |parts| - 1 then amount - used else Share(amount, parts[i].num, den);
      (if amt > 0 then [Interaction(parts[i].route, amt)] else [])
        + SpreadFrom(parts, i + 1, amount, used + amt, den)
  }

  function Spread(amount: nat, alloc: Alloc): seq<Interaction>
    requires alloc.den > 0
  {
    SpreadFrom(Live(alloc.parts), 0, amount, 0, alloc.den)
  }

  method ComputeSpread(amount: nat, alloc: Alloc) returns (xs: seq<Interaction>)
    requires alloc.den > 0
    ensures xs == Spread(amount, alloc)
  {
    var parts := Live(alloc.parts);
    xs := [];
    var used: int := 0;
    ghost var whole := Spread(amount, alloc);
    hide Share, Live, Spread, SpreadFrom;
    for i := 0 to |parts|
      invariant whole == xs + SpreadFrom(parts, i, amount, used, alloc.den)
    {
      var amt := if i == |parts| - 1 then amount - used else Share(amount, parts[i].num, alloc.den);
      SpreadStep(xs, parts, i, amount, used, alloc.den);
      used := used + amt;
      if amt > 0 { xs := xs + [Interaction(parts[i].route, amt)]; }
    }
    NothingSpread(parts, amount, used, alloc.den);
  }

  /** One unfolding of the spread behind what is already sent. */
  lemma SpreadStep(xs: seq<Interaction>, parts: seq<Part>, i: nat, amount: nat, used: int, den: nat)
    requires den > 0 && i < |parts|
    ensures var amt := if i == |parts| - 1 then amount - used else Share(amount, parts[i].num, den);
            xs + SpreadFrom(parts, i, amount, used, den)
              == (if amt > 0 then xs + [Interaction(parts[i].route, amt)] else xs) + SpreadFrom(parts, i + 1, amount, used + amt, den)
  {
    hide Share;
    var amt := if i == |parts| - 1 then amount - used else Share(amount, parts[i].num, den);
    Regrouped(xs, if amt > 0 then [Interaction(parts[i].route, amt)] else [], SpreadFrom(parts, i + 1, amount, used + amt, den));
  }

  lemma Regrouped<T>(xs: seq<T>, ys: seq<T>, zs: seq<T>)
    ensures xs + (ys + zs) == (xs + ys) + zs
    ensures ys == [] ==> xs + ys == xs
  {
  }

  lemma NothingSpread(parts: seq<Part>, amount: nat, used: int, den: nat)
    requires den > 0
    ensures SpreadFrom(parts, |parts|, amount, used, den) == []
  {
  }

  function Sent(xs: seq<Interaction>): nat {
    if xs == [] then 0 else xs[0].amountIn + Sent(xs[1..])
  }

  lemma {:induction false} SentAppend(xs: seq<Interaction>, ys: seq<Interaction>)
    ensures Sent(xs + ys) == Sent(xs) + Sent(ys)
  {
    if xs == [] {
      assert xs + ys == ys;
    } else {
      assert (xs + ys)[1..] == xs[1..] + ys;
      SentAppend(xs[1..], ys);
    }
  }

  /** The rounded-down shares of parts i.. without the last. */
  function Shares(parts: seq<Part>, i: nat, amount: nat, den: nat): nat
    requires den > 0 && i <= |parts|
    decreases |parts| - i
  {
    if i + 1 >= |parts| then 0 else Share(amount, parts[i].num, den) + Shares(parts, i + 1, amount, den)
  }

  function Nums(parts: seq<Part>, i: nat): nat
    requires i <= |parts|
    decreases |parts| - i
  {
    if i == |parts| then 0 else parts[i].num + Nums(parts, i + 1)
  }

  lemma {:induction false} SpreadSends(parts: seq<Part>, i: nat, amount: nat, used: nat, den: nat)
    requires den > 0 && i < |parts|
    ensures Sent(SpreadFrom(parts, i, amount, used, den)) + used == Max(amount, used + Shares(parts, i, amount, den))
    ensures forall x <- SpreadFrom(parts, i, amount, used, den) :: x.amountIn > 0
    decreases |parts| - i
  {
    hide Share;
    var amt := if i == |parts| - 1 then amount - used else Share(amount, parts[i].num, den);
    var now := if amt > 0 then [Interaction(parts[i].route, amt)] else [];
    if i == |parts| - 1 {
      assert SpreadFrom(parts, i, amount, used, den) == now + [];
    } else {
      SpreadSends(parts, i + 1, amount, used + amt, den);
      SentAppend(now, SpreadFrom(parts, i + 1, amount, used + amt, den));
    }
  }

  lemma {:induction false} SharesFit(parts: seq<Part>, i: nat, amount: nat, den: nat)
    requires den > 0 && i <= |parts|
    ensures Shares(parts, i, amount, den) * den <= amount * Nums(parts, i)
    decreases |parts| - i
  {
    if i + 1 < |parts| {
      hide Share;
      SharesFit(parts, i + 1, amount, den);
      ShareFits(amount, parts[i].num, den);
      FitTogether(Share(amount, parts[i].num, den), Shares(parts, i + 1, amount, den), amount, parts[i].num, Nums(parts, i + 1), den);
    }
  }

  lemma ShareFits(amount: nat, num: nat, den: nat)
    requires den > 0
    ensures Share(amount, num, den) * den <= amount * num
  {
    MulDivFloor(amount, num, den);
  }

  lemma FitTogether(x: nat, y: nat, amount: nat, p: nat, q: nat, den: nat)
    requires x * den <= amount * p && y * den <= amount * q
    ensures (x + y) * den <= amount * (p + q)
  {
    Distribute(x, y, den);
    Distribute(p, q, amount);
  }

  lemma {:induction false} LiveKeepsNums(parts: seq<Part>)
    ensures Nums(Live(parts), 0) == Nums(parts, 0)
  {
    if parts != [] {
      LiveKeepsNums(parts[1..]);
      NumsShift(parts, 0);
      if parts[0].num > 0 {
        NumsShift(Live(parts), 0);
        assert Live(parts)[1..] == Live(parts[1..]);
      } else {
        assert Live(parts) == Live(parts[1..]);
      }
    }
  }

  lemma {:induction false} NumsShift(parts: seq<Part>, i: nat)
    requires i < |parts|
    ensures Nums(parts, i + 1) == Nums(parts[1..], i)
    decreases |parts| - i
  {
    if i + 1 < |parts| {
      NumsShift(parts, i + 1);
    }
  }

  /**
   * A spread sends strictly positive parts, and exactly the amount as soon as
   * some route has a share and the shares add up to at most the whole. In
   * general it sends the larger of the amount and the rounded shares of all
   * routes but the last.
   */
  lemma SpreadIsExact(amount: nat, alloc: Alloc)
    requires alloc.den > 0 && 0 < Nums(alloc.parts, 0)
    ensures Sent(Spread(amount, alloc)) == Max(amount, Shares(Live(alloc.parts), 0, amount, alloc.den))
    ensures forall x <- Spread(amount, alloc) :: x.amountIn > 0
    ensures Nums(alloc.parts, 0) <= alloc.den ==> Sent(Spread(amount, alloc)) == amount
  {
    var live, den := Live(alloc.parts), alloc.den;
    LiveKeepsNums(alloc.parts);
    SpreadSends(live, 0, amount, 0, den);
    if Nums(alloc.parts, 0) <= den {
      SharesFit(live, 0, amount, den);
      MulLe(Nums(live, 0), den, amount);
      Cancel(Shares(live, 0, amount, den), amount, den);
    }
  }

  // ---------------------------------------------- what each route is sent

  function SentDown(xs: seq<Interaction>, route: nat): nat {
    if xs == [] then 0 else (if xs[0].route == route then xs[0].amountIn else 0) + SentDown(xs[1..], route)
  }

  predicate DistinctRoutes(parts: seq<Part>) {
    forall i, j :: 0 <= i < j < |parts| ==> parts[i].route != parts[j].route
  }

  ghost predicate LaterLive(parts: seq<Part>, i: nat) {
    exists j :: i < j < |parts| && parts[j].num > 0
  }

  lemma {:induction false} LiveRoutes(parts: seq<Part>)
    requires DistinctRoutes(parts)
    ensures forall p :: p in Live(parts) <==> p in parts && p.num > 0
    ensures DistinctRoutes(Live(parts))
  {
    if parts != [] {
      LiveRoutes(parts[1..]);
      assert forall p :: p in parts <==> p == parts[0] || p in parts[1..];
      assert forall p <- parts[1..] :: p.route != parts[0].route;
    }
  }

  /** A live part keeps its place among the live ones, and is the last of them if none follows it. */
  lemma {:induction false} LiveAt(parts: seq<Part>, i: nat)
    requires i < |parts| && parts[i].num > 0
    ensures exists k :: 0 <= k < |Live(parts)| && Live(parts)[k] == parts[i] && (k < |Live(parts)| - 1 <==> LaterLive(parts, i))
    decreases |parts|
  {
    var rest, live := Live(parts[1..]), Live(parts);
    if i > 0 {
      LiveAt(parts[1..], i - 1);
      var k :| 0 <= k < |rest| && rest[k] == parts[i] && (k < |rest| - 1 <==> LaterLive(parts[1..], i - 1));
      var k' := if parts[0].num > 0 then k + 1 else k;
      assert live[k'] == parts[i];
      if LaterLive(parts[1..], i - 1) {
        var j :| i - 1 < j < |parts[1..]| && parts[1..][j].num > 0;
        assert parts[j + 1].num > 0;
      }
      if LaterLive(parts, i) {
        var j :| i < j < |parts| && parts[j].num > 0;
        assert parts[1..][j - 1].num > 0;
      }
    } else {
      assert live[0] == parts[0];
      if LaterLive(parts, 0) {
        var j :| 0 < j < |parts| && parts[j].num > 0;
        LiveAt(parts[1..], j - 1);
      } else if rest != [] {
        assert false by { LiveFrom(parts[1..], rest[0]); }
      }
    }
  }

  lemma {:induction false} LiveFrom(parts: seq<Part>, p: Part)
    requires p in Live(parts)
    ensures exists i :: 0 <= i < |parts| && parts[i] == p && parts[i].num > 0
  {
    if p != parts[0] || parts[0].num == 0 {
      LiveFrom(parts[1..], p);
      var i :| 0 <= i < |parts[1..]| && parts[1..][i] == p && p.num > 0;
      assert parts[i + 1] == p;
    }
  }

  /** The first of the parts i.. and the others, in all and down one route. */
  lemma SpreadHead(parts: seq<Part>, i: nat, amount: nat, used: int, den: nat, route: nat)
    requires den > 0 && i < |parts|
    ensures var amt := if i == |parts| - 1 then amount - used else Share(amount, parts[i].num, den);
            var xs, rest := SpreadFrom(parts, i, amount, used, den), SpreadFrom(parts, i + 1, amount, used + amt, den);
            && Sent(xs) == Max(0, amt) + Sent(rest)
            && SentDown(xs, route) == (if parts[i].route == route then Max(0, amt) else 0) + SentDown(rest, route)
  {
    hide Share;
    var amt := if i == |parts| - 1 then amount - used else Share(amount, parts[i].num, den);
    var rest := SpreadFrom(parts, i + 1, amount, used + amt, den);
    if amt > 0 {
      var x := Interaction(parts[i].route, amt);
      assert ([x] + rest)[1..] == rest;
    } else {
      assert [] + rest == rest;
    }
  }

  /** A route none of the parts i.. takes is sent nothing by them. */
  lemma {:induction false} NothingDown(parts: seq<Part>, i: nat, amount: nat, used: int, den: nat, route: nat)
    requires den > 0 && i <= |parts| && forall k :: i <= k < |parts| ==> parts[k].route != route
    ensures SentDown(SpreadFrom(parts, i, amount, used, den), route) == 0
    decreases |parts| - i
  {
    hide Share;
    if i < |parts| {
      var amt := if i == |parts| - 1 then amount - used else Share(amount, parts[i].num, den);
      SpreadHead(parts, i, amount, used, den, route);
      NothingDown(parts, i + 1, amount, used + amt, den, route);
    }
  }

  /** Part k is sent its share, and the last one what the others leave. */
  lemma {:induction false} PartIsSent(parts: seq<Part>, i: nat, k: nat, amount: nat, used: nat, den: nat)
    requires den > 0 && i <= k < |parts| && DistinctRoutes(parts)
    ensures var xs := SpreadFrom(parts, i, amount, used, den);
            var sent := SentDown(xs, parts[k].route);
            if k < |parts| - 1 then sent == Share(amount, parts[k].num, den)
            else sent == Max(0, amount - used - (Sent(xs) - sent))
    decreases k - i
  {
    hide Share, SpreadFrom, SentDown, Sent;
    var amt := if i == |parts| - 1 then amount - used else Share(amount, parts[i].num, den);
    SpreadHead(parts, i, amount, used, den, parts[k].route);
    if i == k {
      NothingDown(parts, i + 1, amount, used + amt, den, parts[k].route);
      if i == |parts| - 1 { NothingSent(parts, amount, used + amt, den); }
    } else {
      PartIsSent(parts, i + 1, k, amount, used + amt, den);
    }
  }

  lemma NothingSent(parts: seq<Part>, amount: nat, used: int, den: nat)
    requires den > 0
    ensures Sent(SpreadFrom(parts, |parts|, amount, used, den)) == 0
  {
  }

  /**
   * What a spread sends down each route: its share of the amount rounded
   * down; down the last route with a share, what the others leave; and
   * nothing down a route without one.
   */
  lemma RouteIsSent(amount: nat, alloc: Alloc, i: nat)
    requires alloc.den > 0 && i < |alloc.parts| && DistinctRoutes(alloc.parts)
    ensures var p, xs, den := alloc.parts[i], Spread(amount, alloc), alloc.den;
            var sent := SentDown(xs, p.route);
            && (p.num == 0 ==> sent == 0)
            && (p.num > 0 && LaterLive(alloc.parts, i) ==> sent * den <= amount * p.num < sent * den + den)
            && (p.num > 0 && !LaterLive(alloc.parts, i) ==> sent == Max(0, amount - (Sent(xs) - sent)))
  {
    hide Live, LaterLive, Spread, Share, SpreadFrom, SentDown, Sent, DistinctRoutes;
    var parts, live := alloc.parts, Live(alloc.parts);
    LiveRoutes(parts);
    SpreadIs(amount, alloc);
    if parts[i].num > 0 {
      LiveAt(parts, i);
      var k :| 0 <= k < |live| && live[k] == parts[i] && (k < |live| - 1 <==> LaterLive(parts, i));
      PartIsSent(live, 0, k, amount, 0, alloc.den);
      ShareFloor(amount, parts[i].num, alloc.den);
    } else {
      DeadRoute(parts, i);
      NothingDown(live, 0, amount, 0, alloc.den, parts[i].route);
    }
  }

  /** No live part shares the route of a part without a share. */
  lemma DeadRoute(parts: seq<Part>, i: nat)
    requires DistinctRoutes(parts) && i < |parts| && parts[i].num == 0
    ensures forall k :: 0 <= k < |Live(parts)| ==> Live(parts)[k].route != parts[i].route
  {
    LiveRoutes(parts);
    hide Live;
    var live := Live(parts);
    forall k | 0 <= k < |live| ensures live[k].route != parts[i].route {
      assert live[k] in live && live[k] in parts && live[k].num > 0;
    }
  }

  lemma SpreadIs(amount: nat, alloc: Alloc)
    requires alloc.den > 0
    ensures Spread(amount, alloc) == SpreadFrom(Live(alloc.parts), 0, amount, 0, alloc.den)
  {
  }

  lemma ShareFloor(amount: nat, num: nat, den: nat)
    requires den > 0
    ensures Share(amount, num, den) * den <= amount * num < Share(amount, num, den) * den + den
  {
    MulDivFloor(amount, num, den);
  }

  /** Interactions that turn the residual into the token in demand. */
  function InteractionsFor(res: Residual, aToB: Option<Alloc>, bToA: Option<Alloc>): seq<Interaction>
    requires aToB.Some? ==> aToB.value.den > 0
    requires bToA.Some? ==> bToA.value.den > 0
  {
    (if res.a > 0 && aToB.Some? then Spread(res.a, aToB.value) else [])
      + (if res.b > 0 && bToA.Some? then Spread(res.b, bToA.value) else [])
  }

  /** A split of the whole, as compositions and single produce. */
  predicate Whole(alloc: Option<Alloc>) {
    alloc.Some? ==> 0 < alloc.value.den && Nums(alloc.value.parts, 0) == alloc.value.den
  }

  /** With a route for the side that has a residual, exactly the residual is sent. */
  lemma ResidualIsSent(batch: PairBatch, c: Clearing, aToB: Option<Alloc>, bToA: Option<Alloc>)
    requires Whole(aToB) && Whole(bToA)
    requires var r := ResidualOf(batch, c); (r.a > 0 ==> aToB.Some?) && (r.b > 0 ==> bToA.Some?)
    ensures var r := ResidualOf(batch, c);
            && Sent(InteractionsFor(r, aToB, bToA)) == r.a + r.b && (r.a == 0 || r.b == 0)
            && (r.a > 0 ==> InteractionsFor(r, aToB, bToA) == Spread(r.a, aToB.value))
            && (r.b > 0 ==> InteractionsFor(r, aToB, bToA) == Spread(r.b, bToA.value))
  {
    var r := ResidualOf(batch, c);
    if r.a > 0 {
      SpreadIsExact(r.a, aToB.value);
      assert InteractionsFor(r, aToB, bToA) == Spread(r.a, aToB.value);
    } else if r.b > 0 {
      SpreadIsExact(r.b, bToA.value);
      assert InteractionsFor(r, aToB, bToA) == Spread(r.b, bToA.value);
    }
  }

  // ----------------------------------------------------- compositions

  function Prepend(first: nat, rests: seq<seq<nat>>): (r: seq<seq<nat>>)
    ensures |r| == |rests|
  {
    seq(|rests|, i requires 0 <= i < |rests| => [first] + rests[i])
  }

  /** Every way to split den units across n routes, in lexicographic order. */
  function Compositions(n: nat, den: nat): seq<seq<nat>>
    requires n >= 1
    decreases n, 1, 0
  {
    if n == 1 then [[den]] else StartingFrom(n, den, 0)
  }

  /** Those whose first part is at least `first`. */
  function StartingFrom(n: nat, den: nat, first: nat): seq<seq<nat>>
    requires n >= 2 && first <= den + 1
    decreases n, 0, den + 1 - first
  {
    if first > den then []
    else Prepend(first, Compositions(n - 1, den - first)) + StartingFrom(n, den, first + 1)
  }

  method ComputeCompositions(n: nat, den: nat) returns (out: seq<seq<nat>>)
    requires n >= 1
    ensures out == Compositions(n, den)
    decreases n
  {
    hide StartingFrom, Compositions, Prepend;
    CompositionsStart(n, den);
    if n == 1 { return [[den]]; }
    out := [];
    ghost var whole := Compositions(n, den);
    var first := 0;
    while first <= den
      invariant first <= den + 1
      invariant whole == out + StartingFrom(n, den, first)
    {
      var rests := ComputeCompositions(n - 1, den - first);
      StartingStep(out, n, den, first);
      out := PrependEach(out, first, rests);
      first := first + 1;
    }
    NoneStart(n, den);
  }

  lemma CompositionsStart(n: nat, den: nat)
    requires n >= 1
    ensures Compositions(n, den) == if n == 1 then [[den]] else [] + StartingFrom(n, den, 0)
  {
  }

  /** The inner loop: `first` before each of the rests. */
  method PrependEach(before: seq<seq<nat>>, first: nat, rests: seq<seq<nat>>) returns (out: seq<seq<nat>>)
    ensures out == before + Prepend(first, rests)
  {
    out := before;
    ghost var now := Prepend(first, rests);
    for i := 0 to |rests|
      invariant out == before + now[..i]
    {
      assert now[..i + 1] == now[..i] + [[first] + rests[i]];
      out := out + [[first] + rests[i]];
    }
    assert now[..|rests|] == now;
  }

  /** One unfolding of the list behind what is already there. */
  lemma StartingStep(out: seq<seq<nat>>, n: nat, den: nat, first: nat)
    requires n >= 2 && first <= den
    ensures out + StartingFrom(n, den, first)
         == out + Prepend(first, Compositions(n - 1, den - first)) + StartingFrom(n, den, first + 1)
  {
    hide Compositions;
    Regrouped(out, Prepend(first, Compositions(n - 1, den - first)), StartingFrom(n, den, first + 1));
  }

  lemma NoneStart(n: nat, den: nat)
    requires n >= 2
    ensures StartingFrom(n, den, den + 1) == []
  {
  }

  ghost predicate SplitOf(x: seq<nat>, n: nat, den: nat) {
    |x| == n && Sum(x) == den
  }

  ghost predicate NoRepeats<T(!new)>(xs: seq<T>) {
    forall i, j :: 0 <= i < j < |xs| ==> xs[i] != xs[j]
  }

  lemma OnePart(x: seq<nat>, den: nat)
    ensures x == [den] <==> SplitOf(x, 1, den)
  {
    if |x| == 1 {
      assert x[1..] == [];
      assert Sum(x) == x[0];
    }
  }

  /** The list is sound, complete and free of repeats. */
  lemma {:induction false} CompositionsExact(n: nat, den: nat)
    requires n >= 1
    ensures forall x :: x in Compositions(n, den) <==> SplitOf(x, n, den)
    ensures NoRepeats(Compositions(n, den))
    decreases n, 1, 0
  {
    if n == 1 {
      forall x: seq<nat> ensures x == [den] <==> SplitOf(x, 1, den) {
        OnePart(x, den);
      }
    } else {
      StartingFromExact(n, den, 0);
    }
  }

  lemma {:induction false} StartingFromExact(n: nat, den: nat, first: nat)
    requires n >= 2 && first <= den + 1
    ensures forall x :: x in StartingFrom(n, den, first) <==> SplitOf(x, n, den) && x[0] >= first
    ensures NoRepeats(StartingFrom(n, den, first))
    decreases n, 0, den + 1 - first
  {
    if first > den {
      forall x: seq<nat> ensures !(SplitOf(x, n, den) && x[0] >= first) {
      }
    } else {
      var rests := Compositions(n - 1, den - first);
      var now, later := Prepend(first, rests), StartingFrom(n, den, first + 1);
      CompositionsExact(n - 1, den - first);
      StartingFromExact(n, den, first + 1);
      forall x: seq<nat> ensures x in now <==> SplitOf(x, n, den) && x[0] == first {
        PrependExact(x, n, den, first, rests);
      }
      PrependNoRepeats(first, rests);
      forall i, j | 0 <= i < |now| && 0 <= j < |later| ensures now[i] != later[j] {
        assert now[i] in now && later[j] in later;
      }
    }
  }

  lemma PrependExact(x: seq<nat>, n: nat, den: nat, first: nat, rests: seq<seq<nat>>)
    requires n >= 2 && first <= den
    requires forall y :: y in rests <==> SplitOf(y, n - 1, den - first)
    ensures x in Prepend(first, rests) <==> SplitOf(x, n, den) && x[0] == first
  {
    var all := Prepend(first, rests);
    if x in all {
      var i :| 0 <= i < |all| && all[i] == x;
      assert rests[i] in rests && x[1..] == rests[i];
    }
    if SplitOf(x, n, den) && x[0] == first {
      assert x[1..] in rests;
      var i :| 0 <= i < |rests| && rests[i] == x[1..];
      assert all[i] == [first] + x[1..] == x;
    }
  }

  lemma PrependNoRepeats(first: nat, rests: seq<seq<nat>>)
    requires NoRepeats(rests)
    ensures NoRepeats(Prepend(first, rests))
  {
    var all := Prepend(first, rests);
    forall i, j | 0 <= i < j < |all| ensures all[i] != all[j] {
      assert all[i][1..] == rests[i] && all[j][1..] == rests[j];
    }
  }

  function Choose(m: nat, k: nat): nat {
    if k == 0 then 1 else if m == 0 then 0 else Choose(m - 1, k - 1) + Choose(m - 1, k)
  }

  /** There are C(den + n - 1, n - 1) of them. */
  lemma {:induction false} CompositionsCount(n: nat, den: nat)
    requires n >= 1
    ensures |Compositions(n, den)| == Choose(den + n - 1, n - 1)
    decreases n, 1, 0
  {
    if n > 1 {
      StartingFromCount(n, den, 0);
    }
  }

  lemma {:induction false} StartingFromCount(n: nat, den: nat, first: nat)
    requires n >= 2 && first <= den + 1
    ensures |StartingFrom(n, den, first)| == Choose(den + 1 - first + n - 2, n - 1)
    decreases n, 0, den + 1 - first
  {
    if first > den {
      TooFew(n - 2, n - 1);
    } else {
      CompositionsCount(n - 1, den - first);
      StartingFromCount(n, den, first + 1);
    }
  }

  lemma {:induction false} TooFew(m: nat, k: nat)
    requires m < k
    ensures Choose(m, k) == 0
  {
    if m > 0 {
      TooFew(m - 1, k - 1);
      TooFew(m - 1, k);
    }
  }

  /** Any listed split, put on n routes, sends exactly the amount. */
  lemma {:induction false} CompositionSendsAll(routes: seq<nat>, den: nat, x: seq<nat>, amount: nat)
    requires |routes| >= 1 && den > 0 && x in Compositions(|routes|, den)
    ensures |x| == |routes|
    ensures var alloc := Alloc(seq(|x|, i requires 0 <= i < |x| => Part(routes[i], x[i])), den);
            Whole(Some(alloc)) && Sent(Spread(amount, alloc)) == amount
  {
    CompositionsExact(|routes|, den);
    assert SplitOf(x, |routes|, den);
    var parts := seq(|x|, i requires 0 <= i < |x| => Part(routes[i], x[i]));
    NumsAreSum(parts, x, 0);
    assert x[0..] == x;
    SpreadIsExact(amount, Alloc(parts, den));
  }

  lemma {:induction false} NumsAreSum(parts: seq<Part>, x: seq<nat>, i: nat)
    requires |parts| == |x| && i <= |x| && forall k :: 0 <= k < |x| ==> parts[k].num == x[k]
    ensures Nums(parts, i) == Sum(x[i..])
    decreases |x| - i
  {
    if i < |x| {
      NumsAreSum(parts, x, i + 1);
      assert x[i..][1..] == x[i + 1..];
    }
  }
}
