/**
 * The first half of `create_inventory_graph`: successful sales and all
 * producer orders are merged by a two-index loop into per-merchant lists of
 * stock changes.  As in the code, the loop runs only while BOTH lists have
 * events left; whatever remains of the other list is never emitted.
 */
module Inventory {
  import opened Events
  import opened Sequences

  /** A stock change: `(timestamp, +amount)` for an order, `(timestamp, -amount)` for a sale. */
  datatype Delta = Delta(time: Timestamp, change: int)

  /** An event the merge emits, remembering which list it came from. */
  datatype Emission = OrderEmitted(order: ProducerOrder) | SaleEmitted(sale: BuyOffer)
  {
    function MerchantId(): MerchantId
    {
      match this
      case OrderEmitted(o) => o.merchantId
      case SaleEmitted(s) => s.merchantId
    }

    function Time(): Timestamp
    {
      match this
      case OrderEmitted(o) => o.timestamp
      case SaleEmitted(s) => s.timestamp
    }

    /** The entry appended to the merchant's list (lines 80 and 84). */
    function AsDelta(): Delta
    {
      match this
      case OrderEmitted(o) => Delta(o.timestamp, o.amount)
      case SaleEmitted(s) => Delta(s.timestamp, -1 * s.amount)
    }
  }

  function EmissionTime(e: Emission): Timestamp { e.Time() }

  function DeltaTime(d: Delta): Timestamp { d.time }

  /** The list comprehension of line 62. */
  function SuccessfulSales(sales: seq<BuyOffer>): (r: seq<BuyOffer>)
    ensures forall e :: e in r <==> e in sales && e.httpCode == HTTP_OK
  {
    FilterMembers(sales, SaleSucceeded);
    Filter(sales, SaleSucceeded)
  }

  /**
   * The sequence of events the loop of lines 69-85 emits, as written: it
   * stops as soon as either list is exhausted, and on equal timestamps the
   * order goes first.
   */
  function Merged(sales: seq<BuyOffer>, orders: seq<ProducerOrder>): seq<Emission>
    decreases |sales| + |orders|
  {
    if sales == [] || orders == [] then []
    else if orders[0].timestamp <= sales[0].timestamp then [OrderEmitted(orders[0])] + Merged(sales, orders[1..])
    else [SaleEmitted(sales[0])] + Merged(sales[1..], orders)
  }

  /** The orders among the emitted events, in emission order. */
  function FromOrders(log: seq<Emission>): seq<ProducerOrder>
  {
    if log == [] then []
    else (if log[0].OrderEmitted? then [log[0].order] else []) + FromOrders(log[1..])
  }

  /** The sales among the emitted events, in emission order. */
  function FromSales(log: seq<Emission>): seq<BuyOffer>
  {
    if log == [] then []
    else (if log[0].SaleEmitted? then [log[0].sale] else []) + FromSales(log[1..])
  }

  /** The emitted events of one merchant. */
  function EmissionsOf(log: seq<Emission>, m: MerchantId): seq<Emission>
  {
    Filter(log, (e: Emission) => e.MerchantId() == m)
  }

  function OrdersOf(orders: seq<ProducerOrder>, m: MerchantId): seq<ProducerOrder>
  {
    Filter(orders, (o: ProducerOrder) => o.merchantId == m)
  }

  function SalesOf(sales: seq<BuyOffer>, m: MerchantId): seq<BuyOffer>
  {
    Filter(sales, (s: BuyOffer) => s.merchantId == m)
  }

  function Deltas(log: seq<Emission>): (r: seq<Delta>)
    ensures |r| == |log|
    ensures forall k :: 0 <= k < |log| ==> r[k] == log[k].AsDelta()
  {
    if log == [] then [] else Deltas(log[..|log| - 1]) + [log[|log| - 1].AsDelta()]
  }

  /** What `inventory_progressions[m]` holds after the events of `log`. */
  function Thread(log: seq<Emission>, m: MerchantId): seq<Delta>
  {
    Deltas(EmissionsOf(log, m))
  }

  function MerchantsIn(log: seq<Emission>): set<MerchantId>
  {
    set e | e in log :: e.MerchantId()
  }

  lemma ThreadSnoc(log: seq<Emission>, e: Emission, m: MerchantId)
    ensures Thread(log + [e], m) == Thread(log, m) + (if e.MerchantId() == m then [e.AsDelta()] else [])
  {
    assert (log + [e])[..|log|] == log;
  }

  /** A merchant without emitted events has an empty list. */
  lemma {:induction false} ThreadOfAbsent(log: seq<Emission>, m: MerchantId)
    requires m !in MerchantsIn(log)
    ensures EmissionsOf(log, m) == [] && Thread(log, m) == []
  {
    if log != [] {
      var prefix := log[..|log| - 1];
      assert log[|log| - 1] in log;
      assert MerchantsIn(prefix) <= MerchantsIn(log) by {
        forall x | x in prefix ensures x in log { }
      }
      ThreadOfAbsent(prefix, m);
    }
  }

  lemma MerchantsSnoc(log: seq<Emission>, e: Emission)
    ensures MerchantsIn(log + [e]) == MerchantsIn(log) + {e.MerchantId()}
  {
    forall x | x in log + [e] ensures x in log || x == e { }
  }

  /** Appending the delta of one more emitted event keeps every list equal to its thread. */
  lemma AppendKeepsThreads(log: seq<Emission>, e: Emission, p: map<MerchantId, seq<Delta>>, p': map<MerchantId, seq<Delta>>)
    requires p.Keys == MerchantsIn(log)
    requires forall m :: m in p ==> p[m] == Thread(log, m) && |p[m]| > 0
    requires p' == Append(p, e.MerchantId(), e.AsDelta())
    ensures p'.Keys == MerchantsIn(log + [e])
    ensures forall m :: m in p' ==> p'[m] == Thread(log + [e], m) && |p'[m]| > 0
  {
    MerchantsSnoc(log, e);
    forall m | m in p' ensures p'[m] == Thread(log + [e], m) {
      ThreadSnoc(log, e, m);
      if m == e.MerchantId() && m !in p {
        ThreadOfAbsent(log, m);
      }
    }
  }

  /** One iteration of the loop emits the head the merge takes next. */
  lemma MergedStep(sales: seq<BuyOffer>, orders: seq<ProducerOrder>, i: nat, j: nat, log: seq<Emission>)
    requires i < |sales| && j < |orders|
    ensures orders[j].timestamp <= sales[i].timestamp ==>
      log + Merged(sales[i..], orders[j..]) == (log + [OrderEmitted(orders[j])]) + Merged(sales[i..], orders[j + 1..])
    ensures orders[j].timestamp > sales[i].timestamp ==>
      log + Merged(sales[i..], orders[j..]) == (log + [SaleEmitted(sales[i])]) + Merged(sales[i + 1..], orders[j..])
  {
    assert orders[j..][1..] == orders[j + 1..];
    assert sales[i..][1..] == sales[i + 1..];
  }

  /**
   * The loop of lines 65-85.  The branches of lines 70-77 test the negation
   * of a conjunct of the loop guard and are dead.
   */
  method MergeProgressions(sales: seq<BuyOffer>, orders: seq<ProducerOrder>)
    returns (progressions: map<MerchantId, seq<Delta>>)
    ensures progressions.Keys == MerchantsIn(Merged(sales, orders))
    ensures forall m :: m in progressions ==> progressions[m] == Thread(Merged(sales, orders), m)
    ensures forall m :: m in progressions ==> |progressions[m]| > 0
  {
    var saleIndex := 0;
    var orderIndex := 0;
    progressions := map[];
    ghost var log: seq<Emission> := [];
    while saleIndex < |sales| && orderIndex < |orders|
      invariant 0 <= saleIndex <= |sales| && 0 <= orderIndex <= |orders|
      invariant Merged(sales, orders) == log + Merged(sales[saleIndex..], orders[orderIndex..])
      invariant progressions.Keys == MerchantsIn(log)
      invariant forall m :: m in progressions ==> progressions[m] == Thread(log, m) && |progressions[m]| > 0
      decreases |sales| - saleIndex + |orders| - orderIndex
    {
      if saleIndex >= |sales| {
        assert false;
      } else if orderIndex >= |orders| {
        assert false;
      } else if orders[orderIndex].timestamp <= sales[saleIndex].timestamp {
        var order := orders[orderIndex];
        var e := OrderEmitted(order);
        ghost var previous := progressions;
        progressions := Append(progressions, order.merchantId, Delta(order.timestamp, order.amount));
        AppendKeepsThreads(log, e, previous, progressions);
        MergedStep(sales, orders, saleIndex, orderIndex, log);
        log := log + [e];
        orderIndex := orderIndex + 1;
      } else {
        var sale := sales[saleIndex];
        var e := SaleEmitted(sale);
        ghost var previous := progressions;
        progressions := Append(progressions, sale.merchantId, Delta(sale.timestamp, -1 * sale.amount));
        AppendKeepsThreads(log, e, previous, progressions);
        MergedStep(sales, orders, saleIndex, orderIndex, log);
        log := log + [e];
        saleIndex := saleIndex + 1;
      }
    }
    assert Merged(sales[saleIndex..], orders[orderIndex..]) == [];
    assert log + [] == log;
  }

  lemma {:induction false} FromOrdersAppend(a: seq<Emission>, b: seq<Emission>)
    ensures FromOrders(a + b) == FromOrders(a) + FromOrders(b)
    ensures FromSales(a + b) == FromSales(a) + FromSales(b)
  {
    if a != [] {
      assert (a + b)[1..] == a[1..] + b;
      FromOrdersAppend(a[1..], b);
    } else {
      assert a + b == b;
    }
  }

  /** Every emitted event is an order or a sale. */
  lemma {:induction false} EmissionsSplit(log: seq<Emission>)
    ensures |log| == |FromOrders(log)| + |FromSales(log)|
  {
    if log != [] {
      EmissionsSplit(log[1..]);
    }
  }

  /**
   * Early exit: the merge emits a prefix of the orders and a prefix of the
   * sales, each in its original order, and it stops only when one of the two
   * lists is used up; the rest of the other list is dropped.
   */
  lemma {:induction false} MergeStopsAtFirstExhausted(sales: seq<BuyOffer>, orders: seq<ProducerOrder>)
    ensures FromOrders(Merged(sales, orders)) <= orders
    ensures FromSales(Merged(sales, orders)) <= sales
    ensures |FromSales(Merged(sales, orders))| == |sales| || |FromOrders(Merged(sales, orders))| == |orders|
    ensures |Merged(sales, orders)| == |FromSales(Merged(sales, orders))| + |FromOrders(Merged(sales, orders))|
    decreases |sales| + |orders|
  {
    EmissionsSplit(Merged(sales, orders));
    if sales != [] && orders != [] {
      if orders[0].timestamp <= sales[0].timestamp {
        MergeStopsAtFirstExhausted(sales, orders[1..]);
        assert [OrderEmitted(orders[0])] + Merged(sales, orders[1..]) == Merged(sales, orders);
        assert orders == [orders[0]] + orders[1..];
      } else {
        MergeStopsAtFirstExhausted(sales[1..], orders);
        assert [SaleEmitted(sales[0])] + Merged(sales[1..], orders) == Merged(sales, orders);
        assert sales == [sales[0]] + sales[1..];
      }
    }
  }

  /** Every emitted event is one of the inputs, with the list it came from. */
  lemma {:induction false} MergedDrawsFrom(sales: seq<BuyOffer>, orders: seq<ProducerOrder>)
    ensures forall e :: e in Merged(sales, orders) ==>
      (e.OrderEmitted? && e.order in orders) || (e.SaleEmitted? && e.sale in sales)
    decreases |sales| + |orders|
  {
    if sales != [] && orders != [] {
      if orders[0].timestamp <= sales[0].timestamp {
        MergedDrawsFrom(sales, orders[1..]);
      } else {
        MergedDrawsFrom(sales[1..], orders);
      }
    }
  }

  /** Sales with a non-success `http_code` never reach the inventory lists, while orders are not filtered. */
  lemma FailedSalesNeverMerged(sales: seq<BuyOffer>, orders: seq<ProducerOrder>)
    ensures forall e :: e in Merged(SuccessfulSales(sales), orders) && e.SaleEmitted? ==>
      e.sale in sales && e.sale.httpCode == HTTP_OK
    ensures FromOrders(Merged(SuccessfulSales(sales), orders)) <= orders
  {
    MergedDrawsFrom(SuccessfulSales(sales), orders);
    MergeStopsAtFirstExhausted(SuccessfulSales(sales), orders);
  }

  /** If no input is earlier than `bound`, no emitted event is. */
  lemma {:induction false} MergedNotBefore(sales: seq<BuyOffer>, orders: seq<ProducerOrder>, bound: Timestamp)
    requires forall i :: 0 <= i < |sales| ==> bound <= sales[i].timestamp
    requires forall j :: 0 <= j < |orders| ==> bound <= orders[j].timestamp
    ensures forall k :: 0 <= k < |Merged(sales, orders)| ==> bound <= Merged(sales, orders)[k].Time()
    decreases |sales| + |orders|
  {
    if sales != [] && orders != [] {
      if orders[0].timestamp <= sales[0].timestamp {
        MergedNotBefore(sales, orders[1..], bound);
      } else {
        MergedNotBefore(sales[1..], orders, bound);
      }
    }
  }

  /** With timestamp-sorted inputs the whole emitted sequence is timestamp-sorted. */
  lemma {:induction false} MergedSorted(sales: seq<BuyOffer>, orders: seq<ProducerOrder>)
    requires Sorted(sales, SaleTime) && Sorted(orders, OrderTime)
    ensures Sorted(Merged(sales, orders), EmissionTime)
    decreases |sales| + |orders|
  {
    if sales != [] && orders != [] {
      if orders[0].timestamp <= sales[0].timestamp {
        var head := orders[0];
        assert Sorted(orders[1..], OrderTime);
        assert forall i :: 0 <= i < |sales| ==> SaleTime(sales[0]) <= SaleTime(sales[i]);
        assert forall j :: 0 <= j < |orders[1..]| ==> OrderTime(head) <= OrderTime(orders[1..][j]);
        MergedSorted(sales, orders[1..]);
        MergedNotBefore(sales, orders[1..], head.timestamp);
        SortedCons(OrderEmitted(head), Merged(sales, orders[1..]), EmissionTime);
      } else {
        var head := sales[0];
        assert Sorted(sales[1..], SaleTime);
        assert forall i :: 0 <= i < |sales[1..]| ==> SaleTime(head) <= SaleTime(sales[1..][i]);
        assert forall j :: 0 <= j < |orders| ==> OrderTime(orders[0]) <= OrderTime(orders[j]);
        MergedSorted(sales[1..], orders);
        MergedNotBefore(sales[1..], orders, head.timestamp);
        SortedCons(SaleEmitted(head), Merged(sales[1..], orders), EmissionTime);
      }
    }
  }

  /**
   * Tie-break: with sorted inputs, a sale is emitted before an order only
   * when its timestamp is strictly smaller; on equal timestamps the order
   * comes first.
   */
  lemma {:induction false} OrderPrecedesSaleOnTies(sales: seq<BuyOffer>, orders: seq<ProducerOrder>)
    requires Sorted(sales, SaleTime) && Sorted(orders, OrderTime)
    ensures forall a, b ::
      (0 <= a < b < |Merged(sales, orders)| && Merged(sales, orders)[a].SaleEmitted? && Merged(sales, orders)[b].OrderEmitted?)
      ==> Merged(sales, orders)[a].Time() < Merged(sales, orders)[b].Time()
    decreases |sales| + |orders|
  {
    if sales != [] && orders != [] {
      var log := Merged(sales, orders);
      if orders[0].timestamp <= sales[0].timestamp {
        var rest := Merged(sales, orders[1..]);
        assert Sorted(orders[1..], OrderTime);
        OrderPrecedesSaleOnTies(sales, orders[1..]);
        assert log == [OrderEmitted(orders[0])] + rest;
        forall a, b | 0 <= a < b < |log| && log[a].SaleEmitted? && log[b].OrderEmitted?
          ensures log[a].Time() < log[b].Time()
        {
          assert log[a] == rest[a - 1] && log[b] == rest[b - 1];
        }
      } else {
        var rest := Merged(sales[1..], orders);
        assert Sorted(sales[1..], SaleTime);
        OrderPrecedesSaleOnTies(sales[1..], orders);
        MergedDrawsFrom(sales[1..], orders);
        assert log == [SaleEmitted(sales[0])] + rest;
        forall a, b | 0 <= a < b < |log| && log[a].SaleEmitted? && log[b].OrderEmitted?
          ensures log[a].Time() < log[b].Time()
        {
          assert log[b] == rest[b - 1];
          if a == 0 {
            assert rest[b - 1] in rest;
            var j :| 0 <= j < |orders| && orders[j] == log[b].order;
            assert OrderTime(orders[0]) <= OrderTime(orders[j]);
          } else {
            assert log[a] == rest[a - 1];
          }
        }
      }
    }
  }

  /** Restricting to one merchant commutes with separating orders from sales. */
  lemma {:induction false} ProjectionsCommute(log: seq<Emission>, m: MerchantId)
    ensures FromOrders(EmissionsOf(log, m)) == OrdersOf(FromOrders(log), m)
    ensures FromSales(EmissionsOf(log, m)) == SalesOf(FromSales(log), m)
  {
    if log != [] {
      var p := log[..|log| - 1];
      var x := log[|log| - 1];
      assert log == p + [x];
      ProjectionsCommute(p, m);
      var own := if x.MerchantId() == m then [x] else [];
      assert EmissionsOf(log, m) == EmissionsOf(p, m) + own;
      FromOrdersAppend(EmissionsOf(p, m), own);
      FromOrdersAppend(p, [x]);
      FilterAppend(FromOrders(p), FromOrders([x]), (o: ProducerOrder) => o.merchantId == m);
      FilterAppend(FromSales(p), FromSales([x]), (s: BuyOffer) => s.merchantId == m);
      assert FromOrders([x]) == (if x.OrderEmitted? then [x.order] else []);
      assert FromSales([x]) == (if x.SaleEmitted? then [x.sale] else []);
      assert FromOrders(own) == OrdersOf(FromOrders([x]), m);
      assert FromSales(own) == SalesOf(FromSales([x]), m);
    }
  }

  /**
   * Each merchant's list is an order-preserving interleave of that
   * merchant's events among the emitted prefix of the orders and the
   * emitted prefix of the sales.
   */
  lemma MerchantThreadInterleaves(sales: seq<BuyOffer>, orders: seq<ProducerOrder>, m: MerchantId)
    ensures FromOrders(Merged(sales, orders)) <= orders && FromSales(Merged(sales, orders)) <= sales
    ensures FromOrders(EmissionsOf(Merged(sales, orders), m))
         == OrdersOf(orders[..|FromOrders(Merged(sales, orders))|], m)
    ensures FromSales(EmissionsOf(Merged(sales, orders), m))
         == SalesOf(sales[..|FromSales(Merged(sales, orders))|], m)
    ensures |Thread(Merged(sales, orders), m)|
         == |FromOrders(EmissionsOf(Merged(sales, orders), m))| + |FromSales(EmissionsOf(Merged(sales, orders), m))|
  {
    var log := Merged(sales, orders);
    MergeStopsAtFirstExhausted(sales, orders);
    assert FromOrders(log) == orders[..|FromOrders(log)|];
    assert FromSales(log) == sales[..|FromSales(log)|];
    ProjectionsCommute(log, m);
    EmissionsSplit(EmissionsOf(log, m));
  }

  /** With sorted inputs each merchant's list is timestamp-nondecreasing. */
  lemma MerchantThreadSorted(sales: seq<BuyOffer>, orders: seq<ProducerOrder>, m: MerchantId)
    requires Sorted(sales, SaleTime) && Sorted(orders, OrderTime)
    ensures Sorted(Thread(Merged(sales, orders), m), DeltaTime)
  {
    var log := Merged(sales, orders);
    MergedSorted(sales, orders);
    FilterSorted(log, (e: Emission) => e.MerchantId() == m, EmissionTime);
    var own := EmissionsOf(log, m);
    assert Sorted(own, EmissionTime);
    var thread := Thread(log, m);
    forall a, b | 0 <= a < b < |thread| ensures DeltaTime(thread[a]) <= DeltaTime(thread[b]) {
      assert thread[a].time == EmissionTime(own[a]) && thread[b].time == EmissionTime(own[b]);
    }
  }

  /**
   * As written, a sale whose timestamp is not below that of the last order
   * is never emitted: the loop ends with the order and drops the sale.
   */
  lemma SaleAfterLastOrderIsDropped(sale: BuyOffer, order: ProducerOrder)
    requires order.timestamp <= sale.timestamp
    ensures Merged([sale], [order]) == [OrderEmitted(order)]
    ensures FromSales(Merged([sale], [order])) == []
    ensures MergedDrained([sale], [order]) == [OrderEmitted(order), SaleEmitted(sale)]
  {
    assert [order][1..] == [];
    assert MergedDrained([sale], []) == [SaleEmitted(sale)] + MergedDrained([], []);
  }

  /**
   * The evidently intended merge: the same two-index walk, but once one list
   * is used up the rest of the other is emitted in its original order (what
   * the unreachable branches of lines 70-77 were written to do).
   */
  function MergedDrained(sales: seq<BuyOffer>, orders: seq<ProducerOrder>): seq<Emission>
    decreases |sales| + |orders|
  {
    if sales == [] && orders == [] then []
    else if TakesOrder(sales, orders) then [OrderEmitted(orders[0])] + MergedDrained(sales, orders[1..])
    else [SaleEmitted(sales[0])] + MergedDrained(sales[1..], orders)
  }

  /** The corrected merge takes the next order when no sale is left or the order is no later than the next sale. */
  predicate TakesOrder(sales: seq<BuyOffer>, orders: seq<ProducerOrder>)
  {
    orders != [] && (sales == [] || orders[0].timestamp <= sales[0].timestamp)
  }

  /** The intended merge is a complete interleave: every order and every sale is emitted, each list in its order. */
  lemma {:induction false} DrainedMergeIsComplete(sales: seq<BuyOffer>, orders: seq<ProducerOrder>)
    ensures FromOrders(MergedDrained(sales, orders)) == orders
    ensures FromSales(MergedDrained(sales, orders)) == sales
    ensures |MergedDrained(sales, orders)| == |sales| + |orders|
    decreases |sales| + |orders|
  {
    EmissionsSplit(MergedDrained(sales, orders));
    if sales == [] && orders == [] {
    } else if TakesOrder(sales, orders) {
      DrainedMergeIsComplete(sales, orders[1..]);
      assert orders == [orders[0]] + orders[1..];
    } else {
      DrainedMergeIsComplete(sales[1..], orders);
      assert sales == [sales[0]] + sales[1..];
    }
  }

  /** `log` is what the corrected merge has emitted on reaching indices `i` and `j`. */
  ghost predicate DrainedSoFar(sales: seq<BuyOffer>, orders: seq<ProducerOrder>, i: nat, j: nat, log: seq<Emission>)
  {
    i <= |sales| && j <= |orders| && MergedDrained(sales, orders) == log + MergedDrained(sales[i..], orders[j..])
  }

  /** One iteration of the corrected loop emits the head the corrected merge takes next. */
  lemma DrainedStep(sales: seq<BuyOffer>, orders: seq<ProducerOrder>, i: nat, j: nat, log: seq<Emission>)
    requires DrainedSoFar(sales, orders, i, j, log)
    ensures j < |orders| && (i == |sales| || orders[j].timestamp <= sales[i].timestamp) ==>
      DrainedSoFar(sales, orders, i, j + 1, log + [OrderEmitted(orders[j])])
    ensures i < |sales| && (j == |orders| || orders[j].timestamp > sales[i].timestamp) ==>
      DrainedSoFar(sales, orders, i + 1, j, log + [SaleEmitted(sales[i])])
  {
    if j < |orders| {
      assert orders[j..][1..] == orders[j + 1..];
    }
    if i < |sales| {
      assert sales[i..][1..] == sales[i + 1..];
    }
  }

  /** Once both lists are used up, the corrected loop has emitted the whole corrected merge. */
  lemma DrainedAtEnd(sales: seq<BuyOffer>, orders: seq<ProducerOrder>, log: seq<Emission>)
    requires DrainedSoFar(sales, orders, |sales|, |orders|, log)
    ensures log == MergedDrained(sales, orders)
  {
    assert sales[|sales|..] == [] && orders[|orders|..] == [];
    assert log + [] == log;
  }

  /**
   * The loop of lines 65-85 with the guard the tail branches were written
   * for (`or` instead of `and`): once one list is used up, the branches of
   * lines 70-77 emit the rest of the other.
   */
  method MergeProgressionsDrained(sales: seq<BuyOffer>, orders: seq<ProducerOrder>)
    returns (progressions: map<MerchantId, seq<Delta>>)
    ensures progressions.Keys == MerchantsIn(MergedDrained(sales, orders))
    ensures forall m :: m in progressions ==> progressions[m] == Thread(MergedDrained(sales, orders), m)
    ensures forall m :: m in progressions ==> |progressions[m]| > 0
  {
    var saleIndex := 0;
    var orderIndex := 0;
    progressions := map[];
    ghost var log: seq<Emission> := [];
    while saleIndex < |sales| || orderIndex < |orders|
      invariant DrainedSoFar(sales, orders, saleIndex, orderIndex, log)
      invariant progressions.Keys == MerchantsIn(log)
      invariant forall m :: m in progressions ==> progressions[m] == Thread(log, m) && |progressions[m]| > 0
      decreases |sales| - saleIndex + |orders| - orderIndex
    {
      if orderIndex < |orders| && (saleIndex == |sales| || orders[orderIndex].timestamp <= sales[saleIndex].timestamp) {
        var order := orders[orderIndex];
        var e := OrderEmitted(order);
        ghost var previous := progressions;
        progressions := Append(progressions, order.merchantId, Delta(order.timestamp, order.amount));
        AppendKeepsThreads(log, e, previous, progressions);
        DrainedStep(sales, orders, saleIndex, orderIndex, log);
        log := log + [e];
        orderIndex := orderIndex + 1;
      } else {
        var sale := sales[saleIndex];
        var e := SaleEmitted(sale);
        ghost var previous := progressions;
        progressions := Append(progressions, sale.merchantId, Delta(sale.timestamp, -1 * sale.amount));
        AppendKeepsThreads(log, e, previous, progressions);
        DrainedStep(sales, orders, saleIndex, orderIndex, log);
        log := log + [e];
        saleIndex := saleIndex + 1;
      }
    }
    DrainedAtEnd(sales, orders, log);
  }
}
