// Where the solver's batches meet the order book: the pairs a window settles
// partition its ready orders, so no order is in two settlements at once.
module PairGroups {
  import opened Solver
  import opened PairBatches
  import OrderBook

  function Ids(os: seq<Order>): set<nat> {
    set o <- os :: o.id
  }

  function Groups(batches: seq<PairBatch>): seq<set<nat>> {
    seq(|batches|, i requires 0 <= i < |batches| => Ids(AllOrders(batches[i])))
  }

  ghost predicate UniqueIds(os: seq<Order>) {
    forall o <- os, p <- os :: o.id == p.id ==> o == p
  }

  /** What groupByPair ensures. */
  ghost predicate Grouping(orders: seq<Order>, batches: seq<PairBatch>) {
    && (forall i, j :: 0 <= i < j < |batches| ==> Pair(batches[i].a, batches[i].b) != Pair(batches[j].a, batches[j].b))
    && (forall batch <- batches :: batch == BatchOf(orders, Pair(batch.a, batch.b)))
    && (forall batch <- batches :: exists o <- orders :: PairOf(o) == Pair(batch.a, batch.b))
    && (forall o <- orders :: BatchOf(orders, PairOf(o)) in batches)
  }

  lemma InBatchIff(orders: seq<Order>, p: Pair, o: Order)
    requires p.a < p.b
    ensures o in AllOrders(BatchOf(orders, p)) <==> o in orders && PairOf(o) == p
  {
    OrderInOneBatch(orders, p, o);
    assert o in AllOrders(BatchOf(orders, p)) <==> multiset(AllOrders(BatchOf(orders, p)))[o] > 0;
    assert o in orders <==> multiset(orders)[o] > 0;
  }

  lemma {:induction false} InUnion(groups: seq<set<nat>>, x: nat)
    ensures x in OrderBook.Union(groups) <==> exists i :: 0 <= i < |groups| && x in groups[i]
  {
    if groups != [] {
      InUnion(groups[1..], x);
      if x in OrderBook.Union(groups) && x !in groups[0] {
        var i :| 0 <= i < |groups[1..]| && x in groups[1..][i];
        assert x in groups[i + 1];
      }
      if i :| 0 <= i < |groups| && x in groups[i] {
        if i > 0 {
          assert x in groups[1..][i - 1];
        }
      }
    }
  }

  /** A batch of the grouping holds exactly the orders of its pair. */
  lemma BatchHolds(orders: seq<Order>, batches: seq<PairBatch>, i: nat, o: Order)
    requires Distinct(orders) && Grouping(orders, batches) && i < |batches|
    ensures o in AllOrders(batches[i]) <==> o in orders && PairOf(o) == Pair(batches[i].a, batches[i].b)
  {
    var batch := batches[i];
    assert batch in batches;
    var q :| q in orders && PairOf(q) == Pair(batch.a, batch.b);
    InBatchIff(orders, Pair(batch.a, batch.b), o);
  }

  lemma PairsPartitionReady(orders: seq<Order>, batches: seq<PairBatch>)
    requires Distinct(orders) && UniqueIds(orders) && Grouping(orders, batches)
    ensures OrderBook.Partition(Groups(batches), Ids(orders))
  {
    var groups := Groups(batches);
    forall i, j | 0 <= i < j < |groups| ensures groups[i] !! groups[j] {
      forall x | x in groups[i] && x in groups[j] ensures false {
        var o :| o in AllOrders(batches[i]) && o.id == x;
        var p :| p in AllOrders(batches[j]) && p.id == x;
        BatchHolds(orders, batches, i, o);
        BatchHolds(orders, batches, j, p);
      }
    }
    forall x: nat ensures x in OrderBook.Union(groups) <==> x in Ids(orders) {
      InUnion(groups, x);
      if i :| 0 <= i < |groups| && x in groups[i] {
        var o :| o in AllOrders(batches[i]) && o.id == x;
        BatchHolds(orders, batches, i, o);
      }
      if x in Ids(orders) {
        var o :| o in orders && o.id == x;
        var i :| 0 <= i < |batches| && batches[i] == BatchOf(orders, PairOf(o));
        BatchHolds(orders, batches, i, o);
        assert x in groups[i];
      }
    }
  }
}
