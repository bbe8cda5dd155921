# Pricewars Kafka-dump analyzer, modelled in Dafny

This project models the data logic of `helper_scripts/analyze.py`. That
script reads a dump of a market simulation's event topics and produces
three things:

- a per-merchant financial summary: revenue, holding cost, order cost and
  profit;
- a stock-level series per merchant, built by merging producer orders
  with successful sales;
- price series, grouped per merchant in the reduced graph or per offer in
  the full graph, with one colour per merchant.

The model drops file reading, timestamp parsing and plotting. Events are
records with integer identifiers, integer timestamps and exact integer
money and quantities.

Modules:

- `Events`: the event records.
- `Sequences`: a generic order-preserving filter (the list comprehensions)
  and timestamp sortedness.
- `Aggregation`: the three default-zero sums and the profit comprehension
  of `analyze_kafka_dump`.
- `Inventory`: the `http_code` filter and the two-index merge loop of
  `create_inventory_graph`, as written.
- `StockLevels`: `itertools.accumulate` and the whole
  `create_inventory_graph` pipeline.
- `TimeSort`: the stable sort by timestamp. It is an insertion sort,
  proved to be a stable permutation that is sorted by timestamp.
- `PriceGraph`: the grouping loops of `create_price_graph_reduced` and
  `create_price_graph`, with the colour bookkeeping of the latter.

Each loop that updates dictionaries in place is a `method` with a `while`
loop. Its postcondition ties the resulting maps to a recursive reference
function of the inputs: `Total`, `Thread`, `PricePoints` of a filter,
`Owners` and `Discovered`. The lemmas then prove what the code promises
about those functions.

The merge follows the code. The loop guard at line 69 requires both lists
to have events left. Therefore the branches at lines 70–77, which would
drain a leftover tail, can never run, and the leftover events are dropped.
The intended merge drains the tail. It is modelled separately as
`Inventory.MergedDrained`; see "## Findings".

## Model

| member | source | states |
|---|---|---|
| Aggregation.RevenueEntries | helper_scripts/analyze.py:29 | definition with no contract of its own: the summand `amount * price` of each purchase; its meaning is stated by `MerchantsAlign` and `AnalyzeKafkaDump` |
| Aggregation.HoldingEntries | helper_scripts/analyze.py:34 | definition with no contract of its own: the summand `cost` of each holding-cost event; its meaning is stated by `MerchantsAlign` and `AnalyzeKafkaDump` |
| Aggregation.OrderEntries | helper_scripts/analyze.py:39 | definition with no contract of its own: the summand `billing_amount` of each producer order; its meaning is stated by `MerchantsAlign` and `AnalyzeKafkaDump` |
| Aggregation.Get | helper_scripts/analyze.py:41 | definition with no contract of its own: a read of a `defaultdict(float)`, zero for a missing key; its meaning is stated by `SumByMerchant` |
| Aggregation.Profit | helper_scripts/analyze.py:41-42 | definition with no contract of its own: the profit comprehension over the mapping's merchants; its meaning is stated by `AnalyzeKafkaDump` |
| Aggregation.SumByMerchant | helper_scripts/analyze.py:26-39 | folding `d[merchant] += value` over the events gives a map whose keys are exactly the merchants with events; every merchant, present or not, reads (default zero) as the sum of its values |
| Aggregation.TotalOfAbsent | helper_scripts/analyze.py:26-39 | a merchant with no events sums to zero |
| Aggregation.TotalAppend | helper_scripts/analyze.py:26-39 | per-merchant sums are additive over concatenated event lists |
| Aggregation.RevenueIncludesFailedSales | helper_scripts/analyze.py:28-29 | revenue counts every purchase whatever its `http_code`: the revenue of all sales equals that of the successful ones plus that of the failed ones |
| Aggregation.AnalyzeKafkaDump | helper_scripts/analyze.py:23-42 | revenue is the sum of amount·price over all purchases, holding cost the sum of cost, order cost the sum of billing amount, each keyed by exactly the merchants with events; profit has exactly the mapping's keys and equals revenue − holding cost − order cost, with absent merchants reading zero |
| Aggregation.SummaryExample | helper_scripts/analyze.py:26-42 | a two-merchant dump gives revenues 10 and 10 and profits 6 and 10, a merchant without costs reading zero |
| Aggregation.MerchantsAlign | helper_scripts/analyze.py:29-39 | the merchants receiving summands are exactly the merchants of the events |
| Sequences.FilterMembers | helper_scripts/analyze.py:62 | a list comprehension keeps exactly the elements satisfying its condition |
| Sequences.FilterAppend | helper_scripts/analyze.py:62 | filtering distributes over concatenation |
| Sequences.FilterCommutes | helper_scripts/analyze.py:143-150 | filtering by merchant, then by timestamp, equals filtering in the other order |
| Sequences.FilterRespectsPermutation | helper_scripts/analyze.py:145-150 | filtering two permutations of each other gives permutations of each other |
| Sequences.FilterSorted | helper_scripts/analyze.py:145-150 | the elements kept from a timestamp-sorted list stay sorted |
| Inventory.SuccessfulSales | helper_scripts/analyze.py:62 | a sale survives the filter if and only if its `http_code` is 200 |
| Sequences.Append | helper_scripts/analyze.py:80 | definition with no contract of its own: `d[key].append(x)` on a `defaultdict(list)` (also lines 84, 117 and 150), a missing key starting as the empty list; its meaning is stated by `Inventory.AppendKeepsThreads`, `PriceGraph.AppendKeepsSeries` and `PriceGraph.AppendKeepsOfferSeries` |
| Inventory.Merged | helper_scripts/analyze.py:69-85 | definition with no contract of its own: the emissions of the merge loop as written, stopping when either list is used up; its meaning is stated by `MergeProgressions`, `MergeStopsAtFirstExhausted` and `MerchantThreadInterleaves` |
| Inventory.Deltas | helper_scripts/analyze.py:78-85 | each emitted order becomes `(timestamp, amount)` and each emitted sale `(timestamp, -1 * amount)`, position by position |
| Inventory.ThreadSnoc | helper_scripts/analyze.py:80-84 | emitting one event extends only its own merchant's list, by its delta |
| Inventory.ThreadOfAbsent | helper_scripts/analyze.py:67 | a merchant with no emitted events has an empty list |
| Inventory.AppendKeepsThreads | helper_scripts/analyze.py:78-85 | one `append` to the `defaultdict(list)` keeps every merchant's list equal to its thread of emitted events, and nonempty |
| Inventory.MergedStep | helper_scripts/analyze.py:78-85 | an iteration emits the order when its timestamp is ≤ that of the sale and advances only the order index; otherwise it emits the sale and advances only the sale index |
| Inventory.MergeProgressions | helper_scripts/analyze.py:65-85 | the loop's progressions have as keys exactly the merchants of the emitted events; each list is the merchant's deltas in emission order and is nonempty; the branches of lines 70–77 are unreachable |
| Inventory.MergeStopsAtFirstExhausted | helper_scripts/analyze.py:69-77 | the merge emits a prefix of the orders and a prefix of the sales; it stops with one list used up; the number emitted is the sum of the two prefix lengths, so the rest of the other list is dropped |
| Inventory.EmissionsSplit | helper_scripts/analyze.py:69-85 | every emitted entry comes from exactly one of the two lists |
| Inventory.MergedDrawsFrom | helper_scripts/analyze.py:69-85 | every emitted event is one of the inputs, tagged with the list it came from |
| Inventory.FailedSalesNeverMerged | helper_scripts/analyze.py:61-62 | only sales with `http_code` 200 reach the merge, while orders enter unfiltered |
| Inventory.MergedNotBefore | helper_scripts/analyze.py:69-85 | the merge emits nothing earlier than a bound that every input respects |
| Inventory.MergedSorted | helper_scripts/analyze.py:69-85 | for timestamp-sorted inputs the emitted sequence is timestamp-sorted |
| Inventory.OrderPrecedesSaleOnTies | helper_scripts/analyze.py:78-85 | for sorted inputs a sale precedes an order only with a strictly smaller timestamp, so on equal timestamps the order comes first |
| Inventory.ProjectionsCommute | helper_scripts/analyze.py:69-85 | restricting to one merchant commutes with separating orders from sales |
| Inventory.MerchantThreadInterleaves | helper_scripts/analyze.py:69-85 | each merchant's list interleaves, in order, the merchant's orders among the emitted prefix of orders and its sales among the emitted prefix of sales, and nothing else |
| Inventory.MerchantThreadSorted | helper_scripts/analyze.py:69-85 | for sorted inputs each merchant's list is timestamp-nondecreasing |
| Inventory.SaleAfterLastOrderIsDropped | helper_scripts/analyze.py:69-77 | as written, given one order and one sale with the sale no earlier, only the order is emitted; the corrected merge emits both |
| Inventory.MergedDrained | helper_scripts/analyze.py:69-85 | definition with no contract of its own: the emissions of the merge loop with the guard `or`, so that the tail branches of lines 70–77 drain the leftover list; its meaning is stated by `DrainedMergeIsComplete` |
| Inventory.TakesOrder | helper_scripts/analyze.py:70-82 | definition with no contract of its own: the corrected loop emits the next order when no sale is left or the order is no later than the next sale; its meaning is stated by `DrainedMergeIsComplete` and `DrainedStep` |
| Inventory.DrainedMergeIsComplete | helper_scripts/analyze.py:69-85 | the corrected merge emits every order and every sale, each list in its original order |
| Inventory.DrainedStep | helper_scripts/analyze.py:69-85 | with the corrected guard an iteration emits the next order when the sales are used up or the order is no later, and otherwise the next sale, so the emitted prefix grows by exactly the head the corrected merge takes next |
| Inventory.DrainedAtEnd | helper_scripts/analyze.py:69 | when the corrected loop stops, with both lists used up, it has emitted the whole corrected merge |
| Inventory.MergeProgressionsDrained | helper_scripts/analyze.py:65-85 | the loop with the guard `or` instead of `and`, whose tail branches are live, builds per-merchant lists equal to the threads of the corrected merge |
| StockLevels.RunningTotals | helper_scripts/analyze.py:91 | the k-th running total is the start plus the sum of the first k+1 changes |
| StockLevels.Accumulate | helper_scripts/analyze.py:91 | `accumulate` keeps the length, and its k-th element is the sum of the first k+1 changes |
| StockLevels.SumSnoc | helper_scripts/analyze.py:91 | the sum of a list extended by one element grows by that element |
| StockLevels.AccumulateStep | helper_scripts/analyze.py:91 | each level is the previous level plus the next change |
| StockLevels.LevelSeries | helper_scripts/analyze.py:90-91 | `zip(*progression)` followed by `accumulate`: the plotted series keeps each entry's timestamp and position, and its stock is the unclamped prefix sum of the change column |
| StockLevels.LevelSeriesKeepsOrder | helper_scripts/analyze.py:90-92 | a timestamp-sorted list of changes gives a timestamp-sorted series |
| StockLevels.LevelSeriesExamples | helper_scripts/analyze.py:91-93 | a restock of 5 then a sale of 2 gives levels 5 and 3; a sale on empty stock gives −1, not 0 |
| StockLevels.CreateInventoryGraph | helper_scripts/analyze.py:60-91 | filter the sales, merge, accumulate: one series per merchant of the emitted events, as long as its nonempty list, with its timestamps and prefix-sum levels |
| TimeSort.Insert | helper_scripts/analyze.py:106 | insertion adds exactly the one element |
| TimeSort.InsertSorted | helper_scripts/analyze.py:106 | inserting into a sorted list keeps it sorted |
| TimeSort.InsertStable | helper_scripts/analyze.py:106 | inserting places the element after all others of its timestamp and moves no other element of any timestamp |
| TimeSort.SortByTime | helper_scripts/analyze.py:106 | definition with no contract of its own: `sort(key=timestamp)` (also line 145), by repeated insertion; its meaning is stated by `SortByTimeIsStableSort` |
| TimeSort.SortByTimeIsStableSort | helper_scripts/analyze.py:106 | the sort by timestamp returns a sorted permutation in which offers of equal timestamp keep their order |
| PriceGraph.SuccessfulOffers | helper_scripts/analyze.py:143 | an offer event survives if and only if its `http_code` is 200 |
| PriceGraph.PricePoints | helper_scripts/analyze.py:150 | each offer event contributes `(price, timestamp)`, position by position |
| PriceGraph.PreparedOffers | helper_scripts/analyze.py:141-145 | definition with no contract of its own: added then updated offer events, filtered to `http_code` 200 and sorted by timestamp (also lines 102–106); its meaning is stated by `SuccessfulOffers`, `SortByTimeIsStableSort` and `ReducedSeriesAreSortedMerchantOffers` |
| PriceGraph.CreatePriceGraphReduced | helper_scripts/analyze.py:141-150 | one series per merchant with a successful offer event; each series is the `(price, timestamp)` points of that merchant's filtered, sorted events |
| PriceGraph.GroupByMerchant | helper_scripts/analyze.py:147-150 | grouping keys exactly the merchants of the events; each series lists the merchant's events in order |
| PriceGraph.AppendExtendsOwnSeries | helper_scripts/analyze.py:149-150 | an `append` adds the event's point to its own merchant's series |
| PriceGraph.AppendKeepsSeries | helper_scripts/analyze.py:148-150 | one iteration keeps the keys and every merchant's series equal to its events' points |
| PriceGraph.NoOffersOfAbsent | helper_scripts/analyze.py:147 | a merchant without events has no series entries |
| PriceGraph.ReducedSeriesAreSortedMerchantOffers | helper_scripts/analyze.py:141-150 | each merchant's series holds exactly that merchant's successful events, as a permutation, sorted by timestamp, with equal timestamps in load order |
| PriceGraph.Owners | helper_scripts/analyze.py:118-123 | definition with no contract of its own: `merchant_by_offer` after the events, an offer's owner set by its first event; its meaning is stated by `OwnersKeys` and `OwnerIsFirstEvent` |
| PriceGraph.Discovered | helper_scripts/analyze.py:118-122 | definition with no contract of its own: the merchants in the order the loop gives them a colour; its meaning is stated by `DiscoveredDistinct`, `DiscoveredAreOwners` and `DiscoveryIsStable` |
| PriceGraph.CycleColour | helper_scripts/analyze.py:121 | definition with no contract of its own: `color_cycle[k % len(color_cycle)]`; its meaning is stated by `TrackOffers` and `TrackedOutcome` |
| PriceGraph.CreatePriceGraph | helper_scripts/analyze.py:102-123 | each offer's owner is the merchant of its first event; one series per offer, equal to its events' points; exactly the discovered merchants have a colour, the k-th getting `color_cycle[k % len(color_cycle)]`; every owner has a colour |
| PriceGraph.TrackOffers | helper_scripts/analyze.py:110-123 | the loop over the prepared offers establishes the owners, series and colours stated for `CreatePriceGraph` |
| PriceGraph.TrackedOutcome | helper_scripts/analyze.py:110-123 | the loop state after all events gives the owners, the per-offer series and the colours stated for `TrackOffers`, the k-th discovered merchant coloured `color_cycle[k % len(color_cycle)]` |
| PriceGraph.TrackStep | helper_scripts/analyze.py:116-123 | one iteration keeps the loop state: owners, series and colours agree with the events seen so far |
| PriceGraph.ColourStep | helper_scripts/analyze.py:118-123 | one iteration keeps colours in step with the discovery order |
| PriceGraph.NewMerchantColoured | helper_scripts/analyze.py:120-122 | a merchant seen first through a new offer gets `color_cycle[merchants_visited % len]` and the counter grows by one |
| PriceGraph.ColoursUnchanged | helper_scripts/analyze.py:118-120 | an event of a known offer, or of a merchant that already has a colour, changes no colour and not the counter |
| PriceGraph.OwnersSnoc | helper_scripts/analyze.py:118-123 | an event of an unseen offer records its merchant as owner and, if that merchant is new, discovers it; other events change neither |
| PriceGraph.OffersWithIdSnoc | helper_scripts/analyze.py:117 | one event extends only its own offer's series |
| PriceGraph.OwnersKeys | helper_scripts/analyze.py:118-123 | `merchant_by_offer` has exactly the offer ids of the events as keys |
| PriceGraph.NoOffersWithAbsentId | helper_scripts/analyze.py:114 | an offer id without an owner has no events |
| PriceGraph.AppendKeepsOfferSeries | helper_scripts/analyze.py:117 | one `append` keeps every offer's series equal to its events' points, keyed by the offers seen |
| PriceGraph.OwnerIsFirstEvent | helper_scripts/analyze.py:118-123 | the owner recorded for an offer is the merchant of the first event with that offer id |
| PriceGraph.DiscoveredDistinct | helper_scripts/analyze.py:120-122 | no merchant is discovered twice, so colour indices follow discovery order without repeats before the cycle wraps |
| PriceGraph.DiscoveredAreOwners | helper_scripts/analyze.py:118-123 | the coloured merchants are exactly the owners of offers |
| PriceGraph.DiscoveryIsStable | helper_scripts/analyze.py:118-123 | later events never change an offer's owner or a merchant's discovery position, so a colour never changes |

## Left out

- Reading the JSON files and the identifier mapping (lines 18–20, 27, 32, 37, 60–61, 102–103 and 141–142): I/O. The event lists and the mapping are parameters.
- Writing `results.csv` (lines 44–49): output only. Its rows list the mapping's merchants sorted by display name.
- `convert_timestamps` (lines 164–167): string parsing with `strptime`. Timestamps are integers with their natural order.
- Plotting (lines 87–98, 125–137 and 152–161): rendering. The colour cycle from `plt.rcParams` (line 109) is a nonempty parameter `colorCycle`.
- Floating-point sums: money and quantities are exact integers, so the sum and profit identities hold exactly.
- The `KeyError` raised for a merchant missing from the mapping when labels are formatted (lines 92, 130 and 155): it happens only in plotting. It is not caught, so for such a dump the one at line 92 ends `analyze_kafka_dump`, and line 53 never runs the reduced price graph.
- `argparse` and `main` (lines 170–178): command-line plumbing.
- Aggregation.AnalyzeKafkaDump: reading `revenue[m]` on a `defaultdict` inserts a zero entry for `m`, so after line 41 the three dictionaries in Python also hold every mapping key. The model reads through `Get` and does not grow the maps, so the stated key sets are those before the comprehension.
- PriceGraph.CreatePriceGraph: line 52 comments out the call in the source, so nothing calls this function. It is modelled although it is unused.
- TimeSort.SortByTimeIsStableSort: Python's `list.sort` is a library call. It is modelled by an insertion sort, proved stable and a permutation. The sort is not modelled as in-place, and its algorithm is not Python's.
- Inventory.MergeProgressions: the merge takes the time order of its inputs on trust, as the code does. Sortedness appears only as a precondition of the ordering lemmas.

## Findings

| source | as written | input that shows it | evidently intended | confidence | as-written member | corrected member |
|---|---|---|---|---|---|---|
| helper_scripts/analyze.py:69-77 | the loop runs only while both `sale_index < len(sales)` and `order_index < len(orders)`, so the tail branches at lines 70–77 are dead and the leftover events of the other list are never emitted | one order at time t and one successful sale at time t (or later): the order is emitted, then the loop stops and the sale never reaches the stock series | drain the remaining list in its original order once the other is exhausted (the guard should be `or`) | not executed | Inventory.SaleAfterLastOrderIsDropped | Inventory.DrainedMergeIsComplete |

`Inventory.MergedDrained` is the corrected definition, and
`Inventory.DrainedMergeIsComplete` proves that it emits every order and
every sale. `Inventory.MergeProgressionsDrained` is the corrected loop,
proved against that definition. `StockLevels.CreateInventoryGraph` still
uses the as-written merge, because the stock series it describes are the
ones the script actually draws.
