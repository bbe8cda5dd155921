/**
 * The second half of `create_inventory_graph`: each merchant's list of stock
 * changes becomes a series of running stock levels (`itertools.accumulate`
 * over the change column of `zip(*progression)`).  Levels are not clamped;
 * only the plot's axis starts at zero.
 */
module StockLevels {
  import opened Events
  import opened Sequences
  import opened Inventory

  /** The stock on hand after the event at `time`. */
  datatype Level = Level(time: Timestamp, stock: int)

  function Sum(d: seq<int>): int
  {
    if d == [] then 0 else d[0] + Sum(d[1..])
  }

  /** `accumulate` started from `start`: each element plus everything before it. */
  function RunningTotals(start: int, d: seq<int>): (r: seq<int>)
    ensures |r| == |d|
    ensures forall k :: 0 <= k < |d| ==> r[k] == start + Sum(d[..k + 1])
    decreases d
  {
    if d == [] then []
    else
      var rest := RunningTotals(start + d[0], d[1..]);
      assert forall k :: 0 < k < |d| ==> d[..k + 1][1..] == d[1..][..k];
      [start + d[0]] + rest
  }

  /** `itertools.accumulate` with addition, as used at line 91. */
  function Accumulate(d: seq<int>): (r: seq<int>)
    ensures |r| == |d|
    ensures forall k :: 0 <= k < |d| ==> r[k] == Sum(d[..k + 1])
  {
    RunningTotals(0, d)
  }

  lemma {:induction false} SumSnoc(d: seq<int>, x: int)
    ensures Sum(d + [x]) == Sum(d) + x
  {
    if d != [] {
      assert (d + [x])[1..] == d[1..] + [x];
      SumSnoc(d[1..], x);
    }
  }

  /** Each level is the previous level plus the next change. */
  lemma AccumulateStep(d: seq<int>, k: nat)
    requires 0 < k < |d|
    ensures Accumulate(d)[k] == Accumulate(d)[k - 1] + d[k]
  {
    assert d[..k + 1] == d[..k] + [d[k]];
    SumSnoc(d[..k], d[k]);
  }

  /** The change column of a merchant's list. */
  function Changes(thread: seq<Delta>): seq<int>
  {
    seq(|thread|, k requires 0 <= k < |thread| => thread[k].change)
  }

  /** The plotted series of one merchant: its timestamps paired with the accumulated changes. */
  function LevelSeries(thread: seq<Delta>): (r: seq<Level>)
    ensures |r| == |thread|
    ensures forall k :: 0 <= k < |thread| ==> r[k].time == thread[k].time && r[k].stock == Sum(Changes(thread)[..k + 1])
  {
    var levels := Accumulate(Changes(thread));
    seq(|thread|, k requires 0 <= k < |thread| => Level(thread[k].time, levels[k]))
  }

  function LevelTime(l: Level): Timestamp { l.time }

  /** The series keeps the order of the list: a sorted list gives a sorted series. */
  lemma LevelSeriesKeepsOrder(thread: seq<Delta>)
    requires Sorted(thread, DeltaTime)
    ensures Sorted(LevelSeries(thread), LevelTime)
  {
    var r := LevelSeries(thread);
    forall a, b | 0 <= a < b < |r| ensures LevelTime(r[a]) <= LevelTime(r[b]) {
      assert DeltaTime(thread[a]) <= DeltaTime(thread[b]);
    }
  }

  /** A restock of 5 followed by a sale of 2 gives the levels 5 and 3; a sale on empty stock goes negative. */
  lemma LevelSeriesExamples(t0: Timestamp, t1: Timestamp)
    ensures LevelSeries([Delta(t0, 5), Delta(t1, -2)]) == [Level(t0, 5), Level(t1, 3)]
    ensures LevelSeries([Delta(t0, -1)]) == [Level(t0, -1)]
  {
    var two := [Delta(t0, 5), Delta(t1, -2)];
    assert Changes(two) == [5, -2];
    assert Changes(two)[..1] == [5] && Changes(two)[..2] == [5, -2];
    assert [5, -2][1..] == [-2];
    assert Sum([5]) == 5 && Sum([5, -2]) == 3;
    assert Changes([Delta(t0, -1)]) == [-1];
  }

  /**
   * `create_inventory_graph` without the plotting: filter the sales, merge
   * them with the orders, and accumulate each merchant's list.
   */
  method CreateInventoryGraph(sales: seq<BuyOffer>, orders: seq<ProducerOrder>)
    returns (levels: map<MerchantId, seq<Level>>)
    ensures levels.Keys == MerchantsIn(Merged(SuccessfulSales(sales), orders))
    ensures forall m :: m in levels ==>
      var thread := Thread(Merged(SuccessfulSales(sales), orders), m);
      && |levels[m]| == |thread| > 0
      && forall k :: 0 <= k < |thread| ==>
        levels[m][k].time == thread[k].time && levels[m][k].stock == Sum(Changes(thread)[..k + 1])
  {
    var successful := SuccessfulSales(sales);
    var progressions := MergeProgressions(successful, orders);
    levels := map m | m in progressions :: LevelSeries(progressions[m]);
  }
}
