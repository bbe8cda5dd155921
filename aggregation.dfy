/**
 * The financial summary of `analyze_kafka_dump`: three loops fold an event
 * list each into a default-zero dictionary keyed by merchant (revenue,
 * holding cost, order cost), and a comprehension derives the profit of every
 * merchant of the identifier mapping.
 */
module Aggregation {
  import opened Events
  import opened Sequences

  /** One summand: the merchant it is booked to and its value. */
  datatype Entry = Entry(merchantId: MerchantId, value: int)

  /** Revenue summands: `amount * price` of every purchase, whatever its `http_code`. */
  function RevenueEntries(sales: seq<BuyOffer>): seq<Entry>
  {
    seq(|sales|, i requires 0 <= i < |sales| => Entry(sales[i].merchantId, sales[i].amount * sales[i].price))
  }

  /** Holding-cost summands: the `cost` of every holding-cost event. */
  function HoldingEntries(charges: seq<HoldingCost>): seq<Entry>
  {
    seq(|charges|, i requires 0 <= i < |charges| => Entry(charges[i].merchantId, charges[i].cost))
  }

  /** Order-cost summands: the `billing_amount` of every producer order. */
  function OrderEntries(orders: seq<ProducerOrder>): seq<Entry>
  {
    seq(|orders|, i requires 0 <= i < |orders| => Entry(orders[i].merchantId, orders[i].billingAmount))
  }

  /** The merchants that receive at least one summand. */
  function Merchants(entries: seq<Entry>): set<MerchantId>
  {
    set e | e in entries :: e.merchantId
  }

  /** Read a `defaultdict(float)`: a missing key reads as zero. */
  function Get(d: map<MerchantId, int>, m: MerchantId): int
  {
    if m in d then d[m] else 0
  }

  /** The sum of the values booked to `m` (reference definition). */
  function Total(entries: seq<Entry>, m: MerchantId): int
  {
    if entries == [] then 0
    else
      var last := entries[|entries| - 1];
      Total(entries[..|entries| - 1], m) + (if last.merchantId == m then last.value else 0)
  }

  /**
   * One of the loops of lines 28-29, 33-34 and 38-39: `d[merchant] += value`
   * for every event, on a dictionary that starts empty.
   */
  method SumByMerchant(entries: seq<Entry>) returns (totals: map<MerchantId, int>)
    ensures totals.Keys == Merchants(entries)
    ensures forall m :: Get(totals, m) == Total(entries, m)
  {
    totals := map[];
    var i := 0;
    while i < |entries|
      invariant 0 <= i <= |entries|
      invariant totals.Keys == Merchants(entries[..i])
      invariant forall m :: Get(totals, m) == Total(entries[..i], m)
    {
      var e := entries[i];
      totals := totals[e.merchantId := Get(totals, e.merchantId) + e.value];
      assert entries[..i + 1][..i] == entries[..i];
      assert entries[..i + 1] == entries[..i] + [e];
      i := i + 1;
    }
    assert entries[..i] == entries;
  }

  /** A merchant without summands totals exactly zero. */
  lemma {:induction false} TotalOfAbsent(entries: seq<Entry>, m: MerchantId)
    requires m !in Merchants(entries)
    ensures Total(entries, m) == 0
  {
    if entries != [] {
      var prefix := entries[..|entries| - 1];
      assert Merchants(prefix) <= Merchants(entries) by {
        forall e | e in prefix ensures e in entries { }
      }
      TotalOfAbsent(prefix, m);
    }
  }

  /** Totals are additive over concatenated event lists. */
  lemma {:induction false} TotalAppend(a: seq<Entry>, b: seq<Entry>, m: MerchantId)
    ensures Total(a + b, m) == Total(a, m) + Total(b, m)
    decreases |b|
  {
    if b == [] {
      assert a + b == a;
    } else {
      assert (a + b)[..|a + b| - 1] == a + b[..|b| - 1];
      TotalAppend(a, b[..|b| - 1], m);
    }
  }

  lemma RevenueEntriesSnoc(sales: seq<BuyOffer>, e: BuyOffer)
    ensures RevenueEntries(sales + [e]) == RevenueEntries(sales) + [Entry(e.merchantId, e.amount * e.price)]
  {
  }

  /**
   * Revenue is booked for failed purchases too: the revenue of all sales is
   * the revenue of the successful ones plus that of the failed ones.
   */
  lemma {:induction false} RevenueIncludesFailedSales(sales: seq<BuyOffer>, m: MerchantId)
    ensures Total(RevenueEntries(sales), m)
         == Total(RevenueEntries(Filter(sales, SaleSucceeded)), m) + Total(RevenueEntries(Filter(sales, SaleFailed)), m)
  {
    if sales != [] {
      var prefix := sales[..|sales| - 1];
      var e := sales[|sales| - 1];
      var entry := [Entry(e.merchantId, e.amount * e.price)];
      assert sales == prefix + [e];
      RevenueIncludesFailedSales(prefix, m);
      RevenueEntriesSnoc(prefix, e);
      TotalAppend(RevenueEntries(prefix), entry, m);
      var ok := Filter(prefix, SaleSucceeded);
      var failed := Filter(prefix, SaleFailed);
      if SaleSucceeded(e) {
        assert Filter(sales, SaleSucceeded) == ok + [e];
        assert Filter(sales, SaleFailed) == failed;
        RevenueEntriesSnoc(ok, e);
        TotalAppend(RevenueEntries(ok), entry, m);
      } else {
        assert Filter(sales, SaleSucceeded) == ok;
        assert Filter(sales, SaleFailed) == failed + [e];
        RevenueEntriesSnoc(failed, e);
        TotalAppend(RevenueEntries(failed), entry, m);
      }
    }
  }

  /** The profit comprehension of lines 41-42, over the keys of the mapping. */
  function Profit(mapping: map<MerchantId, string>, revenue: map<MerchantId, int>,
                  holdingCost: map<MerchantId, int>, orderCost: map<MerchantId, int>): map<MerchantId, int>
  {
    map m | m in mapping :: Get(revenue, m) - Get(holdingCost, m) - Get(orderCost, m)
  }

  /**
   * The aggregation of `analyze_kafka_dump`: the three sums and the profit of
   * every merchant the mapping names.
   */
  method AnalyzeKafkaDump(mapping: map<MerchantId, string>, sales: seq<BuyOffer>,
                          charges: seq<HoldingCost>, orders: seq<ProducerOrder>)
    returns (revenue: map<MerchantId, int>, holdingCost: map<MerchantId, int>,
             orderCost: map<MerchantId, int>, profit: map<MerchantId, int>)
    ensures revenue.Keys == set e | e in sales :: e.merchantId
    ensures holdingCost.Keys == set e | e in charges :: e.merchantId
    ensures orderCost.Keys == set e | e in orders :: e.merchantId
    ensures forall m :: Get(revenue, m) == Total(RevenueEntries(sales), m)
    ensures forall m :: Get(holdingCost, m) == Total(HoldingEntries(charges), m)
    ensures forall m :: Get(orderCost, m) == Total(OrderEntries(orders), m)
    ensures profit.Keys == mapping.Keys
    ensures forall m :: m in profit ==>
      profit[m] == Total(RevenueEntries(sales), m) - Total(HoldingEntries(charges), m) - Total(OrderEntries(orders), m)
  {
    revenue := SumByMerchant(RevenueEntries(sales));
    holdingCost := SumByMerchant(HoldingEntries(charges));
    orderCost := SumByMerchant(OrderEntries(orders));
    profit := Profit(mapping, revenue, holdingCost, orderCost);
    MerchantsAlign(sales, RevenueEntries(sales), (e: BuyOffer) => e.merchantId);
    MerchantsAlign(charges, HoldingEntries(charges), (e: HoldingCost) => e.merchantId);
    MerchantsAlign(orders, OrderEntries(orders), (e: ProducerOrder) => e.merchantId);
  }

  /**
   * Two merchants: merchant 1 sells 2 units at 5, pays 1 holding cost and an
   * order bill of 3; merchant 2 sells 1 unit at 10 and has no costs.  Their
   * profits are 6 and 10.
   */
  lemma SummaryExample(t0: Timestamp, t1: Timestamp, t2: Timestamp)
    ensures var sales := [BuyOffer(1, t1, 2, 5, HTTP_OK), BuyOffer(2, t2, 1, 10, HTTP_OK)];
            var charges := [HoldingCost(1, 1)];
            var orders := [ProducerOrder(1, t0, 4, 3)];
            && Total(RevenueEntries(sales), 1) == 10 && Total(RevenueEntries(sales), 2) == 10
            && Total(HoldingEntries(charges), 2) == 0 && Total(OrderEntries(orders), 2) == 0
            && Total(RevenueEntries(sales), 1) - Total(HoldingEntries(charges), 1) - Total(OrderEntries(orders), 1) == 6
            && Total(RevenueEntries(sales), 2) - Total(HoldingEntries(charges), 2) - Total(OrderEntries(orders), 2) == 10
  {
    var sales := [BuyOffer(1, t1, 2, 5, HTTP_OK), BuyOffer(2, t2, 1, 10, HTTP_OK)];
    var revenue := RevenueEntries(sales);
    assert revenue == [Entry(1, 10), Entry(2, 10)];
    assert revenue[..1] == [Entry(1, 10)] && revenue[..1][..0] == [];
    assert Total(revenue[..1], 1) == 10 && Total(revenue[..1], 2) == 0;
    assert HoldingEntries([HoldingCost(1, 1)]) == [Entry(1, 1)];
    assert OrderEntries([ProducerOrder(1, t0, 4, 3)]) == [Entry(1, 3)];
  }

  /** Summands built position by position from the events are booked to the events' merchants. */
  lemma MerchantsAlign<T>(events: seq<T>, entries: seq<Entry>, merchantOf: T -> MerchantId)
    requires |entries| == |events|
    requires forall i :: 0 <= i < |events| ==> entries[i].merchantId == merchantOf(events[i])
    ensures Merchants(entries) == set e | e in events :: merchantOf(e)
  {
    forall x | x in Merchants(entries) ensures x in set e | e in events :: merchantOf(e) {
      var en :| en in entries && en.merchantId == x;
      var i :| 0 <= i < |entries| && entries[i] == en;
      assert events[i] in events;
    }
    forall x | x in set e | e in events :: merchantOf(e) ensures x in Merchants(entries) {
      var ev :| ev in events && merchantOf(ev) == x;
      var i :| 0 <= i < |events| && events[i] == ev;
      assert entries[i] in entries;
    }
  }
}
