/**
 * The data side of `create_price_graph` and `create_price_graph_reduced`:
 * successful offer placements and updates, sorted by timestamp, are grouped
 * into price series per merchant (reduced graph) or per offer, and in the
 * per-offer graph every newly seen merchant is given the next colour of a
 * cyclic palette.
 */
module PriceGraph {
  import opened Events
  import opened Sequences
  import opened TimeSort

  /** One point of a price series, `(price, timestamp)` as at lines 117 and 150. */
  datatype PricePoint = PricePoint(price: int, time: Timestamp)

  type Color = string

  function PointTime(p: PricePoint): Timestamp { p.time }

  /** The list comprehensions of lines 104 and 143. */
  function SuccessfulOffers(offers: seq<OfferUpdate>): (r: seq<OfferUpdate>)
    ensures forall e :: e in r <==> e in offers && e.httpCode == HTTP_OK
  {
    FilterMembers(offers, OfferSucceeded);
    Filter(offers, OfferSucceeded)
  }

  /** Lines 102-106 and 141-145: `addOffer` then `updateOffer` events, filtered, then sorted. */
  function PreparedOffers(added: seq<OfferUpdate>, updated: seq<OfferUpdate>): seq<OfferUpdate>
  {
    SortByTime(SuccessfulOffers(added + updated))
  }

  function OffersOf(offers: seq<OfferUpdate>, m: MerchantId): seq<OfferUpdate>
  {
    Filter(offers, (e: OfferUpdate) => e.merchantId == m)
  }

  function OffersWithId(offers: seq<OfferUpdate>, id: OfferId): seq<OfferUpdate>
  {
    Filter(offers, (e: OfferUpdate) => e.offerId == id)
  }

  function PricePoints(offers: seq<OfferUpdate>): (r: seq<PricePoint>)
    ensures |r| == |offers|
    ensures forall k :: 0 <= k < |offers| ==> r[k] == PricePoint(offers[k].price, offers[k].timestamp)
  {
    if offers == [] then [] else PricePoints(offers[..|offers| - 1]) + [PricePoint(offers[|offers| - 1].price, offers[|offers| - 1].timestamp)]
  }

  /** Lines 141-150: the reduced graph's series, one per merchant. */
  method CreatePriceGraphReduced(added: seq<OfferUpdate>, updated: seq<OfferUpdate>)
    returns (pricesByMerchant: map<MerchantId, seq<PricePoint>>)
    ensures pricesByMerchant.Keys == set e | e in PreparedOffers(added, updated) :: e.merchantId
    ensures forall m :: m in pricesByMerchant ==>
      pricesByMerchant[m] == PricePoints(OffersOf(PreparedOffers(added, updated), m))
  {
    pricesByMerchant := GroupByMerchant(PreparedOffers(added, updated));
  }

  /** The loop of lines 147-150 over the prepared offers. */
  method GroupByMerchant(offers: seq<OfferUpdate>) returns (pricesByMerchant: map<MerchantId, seq<PricePoint>>)
    ensures pricesByMerchant.Keys == set e | e in offers :: e.merchantId
    ensures forall m :: m in pricesByMerchant ==> pricesByMerchant[m] == PricePoints(OffersOf(offers, m))
  {
    pricesByMerchant := map[];
    var i := 0;
    while i < |offers|
      invariant 0 <= i <= |offers|
      invariant pricesByMerchant.Keys == set e | e in offers[..i] :: e.merchantId
      invariant forall m :: m in pricesByMerchant ==> pricesByMerchant[m] == PricePoints(OffersOf(offers[..i], m))
    {
      var offer := offers[i];
      ghost var previous := pricesByMerchant;
      pricesByMerchant := Append(pricesByMerchant, offer.merchantId, PricePoint(offer.price, offer.timestamp));
      assert offers[..i + 1] == offers[..i] + [offer];
      AppendKeepsSeries(offers[..i], offer, previous, pricesByMerchant);
      i := i + 1;
    }
    assert offers[..i] == offers;
  }

  lemma OffersOfSnoc(prefix: seq<OfferUpdate>, offer: OfferUpdate, m: MerchantId)
    ensures OffersOf(prefix + [offer], m) == OffersOf(prefix, m) + (if offer.merchantId == m then [offer] else [])
  {
    assert (prefix + [offer])[..|prefix|] == prefix;
  }

  lemma PricePointsSnoc(offers: seq<OfferUpdate>, offer: OfferUpdate)
    ensures PricePoints(offers + [offer]) == PricePoints(offers) + [PricePoint(offer.price, offer.timestamp)]
  {
    assert (offers + [offer])[..|offers|] == offers;
  }

  lemma MerchantsSnoc(prefix: seq<OfferUpdate>, offer: OfferUpdate)
    ensures (set e | e in prefix + [offer] :: e.merchantId) == (set e | e in prefix :: e.merchantId) + {offer.merchantId}
  {
    forall x | x in prefix + [offer] ensures x in prefix || x == offer { }
  }

  /** The series of the offer's merchant gains the offer's point. */
  lemma AppendExtendsOwnSeries(prefix: seq<OfferUpdate>, offer: OfferUpdate, p: map<MerchantId, seq<PricePoint>>)
    requires p.Keys == set e | e in prefix :: e.merchantId
    requires forall m :: m in p ==> p[m] == PricePoints(OffersOf(prefix, m))
    ensures Append(p, offer.merchantId, PricePoint(offer.price, offer.timestamp))[offer.merchantId]
         == PricePoints(OffersOf(prefix + [offer], offer.merchantId))
  {
    var own := offer.merchantId;
    var before := if own in p then p[own] else [];
    assert before == PricePoints(OffersOf(prefix, own)) by {
      if own !in p {
        NoOffersOfAbsent(prefix, own);
      }
    }
    OffersOfSnoc(prefix, offer, own);
    PricePointsSnoc(OffersOf(prefix, own), offer);
  }

  /** Appending one more offer's point keeps every merchant's series equal to its offers' points. */
  lemma AppendKeepsSeries(prefix: seq<OfferUpdate>, offer: OfferUpdate, p: map<MerchantId, seq<PricePoint>>, p': map<MerchantId, seq<PricePoint>>)
    requires p.Keys == set e | e in prefix :: e.merchantId
    requires forall m :: m in p ==> p[m] == PricePoints(OffersOf(prefix, m))
    requires p' == Append(p, offer.merchantId, PricePoint(offer.price, offer.timestamp))
    ensures p'.Keys == set e | e in prefix + [offer] :: e.merchantId
    ensures forall m :: m in p' ==> p'[m] == PricePoints(OffersOf(prefix + [offer], m))
  {
    MerchantsSnoc(prefix, offer);
    AppendExtendsOwnSeries(prefix, offer, p);
    forall m | m in p' && m != offer.merchantId ensures p'[m] == PricePoints(OffersOf(prefix + [offer], m)) {
      OffersOfSnoc(prefix, offer, m);
    }
  }

  lemma {:induction false} NoOffersOfAbsent(offers: seq<OfferUpdate>, m: MerchantId)
    requires m !in set e | e in offers :: e.merchantId
    ensures OffersOf(offers, m) == []
  {
    if offers != [] {
      var prefix := offers[..|offers| - 1];
      assert offers[|offers| - 1] in offers;
      assert (set e | e in prefix :: e.merchantId) <= (set e | e in offers :: e.merchantId) by {
        forall x | x in prefix ensures x in offers { }
      }
      NoOffersOfAbsent(prefix, m);
    }
  }

  /**
   * Each merchant's series in the reduced graph holds exactly that
   * merchant's successful offers, sorted by timestamp, with offers of equal
   * timestamp in the order they were loaded.
   */
  lemma ReducedSeriesAreSortedMerchantOffers(added: seq<OfferUpdate>, updated: seq<OfferUpdate>, m: MerchantId)
    ensures Sorted(OffersOf(PreparedOffers(added, updated), m), OfferTime)
    ensures Sorted(PricePoints(OffersOf(PreparedOffers(added, updated), m)), PointTime)
    ensures multiset(OffersOf(PreparedOffers(added, updated), m)) == multiset(OffersOf(SuccessfulOffers(added + updated), m))
    ensures forall t :: AtTime(OffersOf(PreparedOffers(added, updated), m), t) == AtTime(OffersOf(SuccessfulOffers(added + updated), m), t)
  {
    var ok := SuccessfulOffers(added + updated);
    var sorted := PreparedOffers(added, updated);
    SortByTimeIsStableSort(ok);
    FilterSorted(sorted, (e: OfferUpdate) => e.merchantId == m, OfferTime);
    FilterRespectsPermutation(sorted, ok, (e: OfferUpdate) => e.merchantId == m);
    var mine := OffersOf(sorted, m);
    var points := PricePoints(mine);
    forall a, b | 0 <= a < b < |points| ensures PointTime(points[a]) <= PointTime(points[b]) {
      assert OfferTime(mine[a]) <= OfferTime(mine[b]);
    }
    forall t ensures AtTime(mine, t) == AtTime(OffersOf(ok, m), t) {
      var isMine := (e: OfferUpdate) => e.merchantId == m;
      var atT := (e: OfferUpdate) => e.timestamp == t;
      assert OffersOf(sorted, m) == Filter(sorted, isMine);
      assert OffersOf(ok, m) == Filter(ok, isMine);
      assert AtTime(sorted, t) == Filter(sorted, atT) && AtTime(ok, t) == Filter(ok, atT);
      assert AtTime(mine, t) == Filter(Filter(sorted, isMine), atT);
      FilterCommutes(sorted, isMine, atT);
      FilterCommutes(ok, isMine, atT);
      assert Filter(sorted, atT) == Filter(ok, atT);
    }
  }

  /** `merchant_by_offer`: the merchant of the first event of each offer. */
  function Owners(offers: seq<OfferUpdate>): map<OfferId, MerchantId>
  {
    if offers == [] then map[]
    else
      var owners := Owners(offers[..|offers| - 1]);
      var e := offers[|offers| - 1];
      if e.offerId in owners then owners else owners[e.offerId := e.merchantId]
  }

  /**
   * The merchants in the order they receive a colour: a merchant is
   * discovered by the first event of an offer not seen before, unless it
   * already has a colour.
   */
  function Discovered(offers: seq<OfferUpdate>): seq<MerchantId>
  {
    if offers == [] then []
    else
      var prefix := offers[..|offers| - 1];
      var e := offers[|offers| - 1];
      var seen := Discovered(prefix);
      if e.offerId in Owners(prefix) || e.merchantId in seen then seen else seen + [e.merchantId]
  }

  /**
   * Lines 102-123: every offer's price series, the owner of every offer,
   * and the colour of every merchant, the k-th merchant to be discovered
   * receiving `color_cycle[k % len(color_cycle)]`.
   */
  method CreatePriceGraph(added: seq<OfferUpdate>, updated: seq<OfferUpdate>, colorCycle: seq<Color>)
    returns (pricesByOffer: map<OfferId, seq<PricePoint>>, merchantColors: map<MerchantId, Color>,
             merchantByOffer: map<OfferId, MerchantId>)
    requires |colorCycle| > 0
    ensures merchantByOffer == Owners(PreparedOffers(added, updated))
    ensures pricesByOffer.Keys == merchantByOffer.Keys
    ensures forall id :: id in pricesByOffer ==> pricesByOffer[id] == PricePoints(OffersWithId(PreparedOffers(added, updated), id))
    ensures forall m :: m in merchantColors <==> m in Discovered(PreparedOffers(added, updated))
    ensures forall k :: 0 <= k < |Discovered(PreparedOffers(added, updated))| ==>
      Discovered(PreparedOffers(added, updated))[k] in merchantColors &&
      merchantColors[Discovered(PreparedOffers(added, updated))[k]] == colorCycle[k % |colorCycle|]
    ensures forall id :: id in merchantByOffer ==> merchantByOffer[id] in merchantColors
  {
    pricesByOffer, merchantColors, merchantByOffer := TrackOffers(PreparedOffers(added, updated), colorCycle);
  }

  /** The loop of lines 115-123 over the prepared offers. */
  method TrackOffers(offers: seq<OfferUpdate>, colorCycle: seq<Color>)
    returns (pricesByOffer: map<OfferId, seq<PricePoint>>, merchantColors: map<MerchantId, Color>,
             merchantByOffer: map<OfferId, MerchantId>)
    requires |colorCycle| > 0
    ensures merchantByOffer == Owners(offers)
    ensures pricesByOffer.Keys == merchantByOffer.Keys
    ensures forall id :: id in pricesByOffer ==> pricesByOffer[id] == PricePoints(OffersWithId(offers, id))
    ensures forall m :: m in merchantColors <==> m in Discovered(offers)
    ensures forall k :: 0 <= k < |Discovered(offers)| ==>
      Discovered(offers)[k] in merchantColors && merchantColors[Discovered(offers)[k]] == colorCycle[k % |colorCycle|]
    ensures forall id :: id in merchantByOffer ==> merchantByOffer[id] in merchantColors
  {
    assert offers[..0] == [];
    var merchantsVisited := 0;
    merchantColors := map[];
    merchantByOffer := map[];
    pricesByOffer := map[];
    var i := 0;
    while i < |offers|
      invariant 0 <= i <= |offers|
      invariant Tracked(offers[..i], pricesByOffer, merchantColors, merchantByOffer, merchantsVisited, colorCycle)
    {
      var offer := offers[i];
      var offerId := offer.offerId;
      ghost var prefix := offers[..i];
      ghost var prices, colors, owners, visited := pricesByOffer, merchantColors, merchantByOffer, merchantsVisited;
      pricesByOffer := Append(pricesByOffer, offerId, PricePoint(offer.price, offer.timestamp));
      if offerId !in merchantByOffer {
        var merchantId := offer.merchantId;
        if merchantId !in merchantColors {
          merchantColors := merchantColors[merchantId := CycleColour(colorCycle, merchantsVisited)];
          merchantsVisited := merchantsVisited + 1;
        }
        merchantByOffer := merchantByOffer[offerId := merchantId];
      }
      i := i + 1;
      assert offers[..i] == prefix + [offer];
      TrackStep(prefix, offer, offers[..i], colorCycle, prices, colors, owners, visited,
                pricesByOffer, merchantColors, merchantByOffer, merchantsVisited);
    }
    assert offers[..i] == offers;
    TrackedOutcome(offers, pricesByOffer, merchantColors, merchantByOffer, merchantsVisited, colorCycle);
  }

  /** What the loop state after all of `offers` says about the three dictionaries. */
  lemma TrackedOutcome(offers: seq<OfferUpdate>, prices: map<OfferId, seq<PricePoint>>, colors: map<MerchantId, Color>,
                       owners: map<OfferId, MerchantId>, visited: nat, colorCycle: seq<Color>)
    requires |colorCycle| > 0
    requires Tracked(offers, prices, colors, owners, visited, colorCycle)
    ensures owners == Owners(offers)
    ensures prices.Keys == owners.Keys
    ensures forall id :: id in prices ==> prices[id] == PricePoints(OffersWithId(offers, id))
    ensures forall m :: m in colors <==> m in Discovered(offers)
    ensures forall k :: 0 <= k < |Discovered(offers)| ==>
      Discovered(offers)[k] in colors && colors[Discovered(offers)[k]] == colorCycle[k % |colorCycle|]
    ensures forall id :: id in owners ==> owners[id] in colors
  {
    forall k | 0 <= k < |Discovered(offers)|
      ensures Discovered(offers)[k] in colors && colors[Discovered(offers)[k]] == colorCycle[k % |colorCycle|]
    {
      assert colors[Discovered(offers)[k]] == CycleColour(colorCycle, k);
    }
  }

  /** The colour `color_cycle[k % len(color_cycle)]` given to the k-th merchant discovered. */
  function CycleColour(colorCycle: seq<Color>, k: nat): Color
    requires |colorCycle| > 0
  {
    colorCycle[k % |colorCycle|]
  }

  /** The state of the loop of lines 115-123 after the events `offers`. */
  ghost predicate Tracked(offers: seq<OfferUpdate>, prices: map<OfferId, seq<PricePoint>>, colors: map<MerchantId, Color>,
                          owners: map<OfferId, MerchantId>, visited: nat, colorCycle: seq<Color>)
    requires |colorCycle| > 0
  {
    && owners == Owners(offers)
    && prices.Keys == owners.Keys
    && (forall id :: id in prices ==> prices[id] == PricePoints(OffersWithId(offers, id)))
    && ColoursFollowDiscovery(offers, colors, visited, colorCycle)
  }

  /** One iteration of lines 116-123 keeps the loop state. */
  lemma TrackStep(prefix: seq<OfferUpdate>, offer: OfferUpdate, next: seq<OfferUpdate>, colorCycle: seq<Color>,
                  prices: map<OfferId, seq<PricePoint>>, colors: map<MerchantId, Color>, owners: map<OfferId, MerchantId>, visited: nat,
                  prices': map<OfferId, seq<PricePoint>>, colors': map<MerchantId, Color>, owners': map<OfferId, MerchantId>, visited': nat)
    requires |colorCycle| > 0
    requires Tracked(prefix, prices, colors, owners, visited, colorCycle)
    requires next == prefix + [offer]
    requires prices' == Append(prices, offer.offerId, PricePoint(offer.price, offer.timestamp))
    requires owners' == if offer.offerId in owners then owners else owners[offer.offerId := offer.merchantId]
    requires offer.offerId !in owners && offer.merchantId !in colors ==>
      colors' == colors[offer.merchantId := CycleColour(colorCycle, visited)] && visited' == visited + 1
    requires !(offer.offerId !in owners && offer.merchantId !in colors) ==> colors' == colors && visited' == visited
    ensures Tracked(next, prices', colors', owners', visited', colorCycle)
  {
    OwnersSnoc(prefix, offer);
    AppendKeepsOfferSeries(prefix, offer, prices, prices');
    ColourStep(prefix, offer, colorCycle, colors, visited, colors', visited');
  }

  /** The colour bookkeeping after the events `offers`. */
  ghost predicate ColoursFollowDiscovery(offers: seq<OfferUpdate>, colors: map<MerchantId, Color>, visited: nat, colorCycle: seq<Color>)
    requires |colorCycle| > 0
  {
    && visited == |Discovered(offers)|
    && (forall m :: m in colors <==> m in Discovered(offers))
    && (forall k :: 0 <= k < |Discovered(offers)| ==>
         Discovered(offers)[k] in colors && colors[Discovered(offers)[k]] == CycleColour(colorCycle, k))
    && (forall id :: id in Owners(offers) ==> Owners(offers)[id] in colors)
  }

  /** One iteration of lines 118-123 keeps the colour bookkeeping. */
  lemma ColourStep(prefix: seq<OfferUpdate>, offer: OfferUpdate, colorCycle: seq<Color>,
                   colors: map<MerchantId, Color>, visited: nat, colors': map<MerchantId, Color>, visited': nat)
    requires |colorCycle| > 0
    requires ColoursFollowDiscovery(prefix, colors, visited, colorCycle)
    requires offer.offerId !in Owners(prefix) && offer.merchantId !in colors ==>
      colors' == colors[offer.merchantId := CycleColour(colorCycle, visited)] && visited' == visited + 1
    requires !(offer.offerId !in Owners(prefix) && offer.merchantId !in colors) ==> colors' == colors && visited' == visited
    ensures ColoursFollowDiscovery(prefix + [offer], colors', visited', colorCycle)
  {
    OwnersSnoc(prefix, offer);
    if offer.offerId !in Owners(prefix) && offer.merchantId !in colors {
      NewMerchantColoured(prefix, offer, colorCycle, colors, visited);
    } else {
      ColoursUnchanged(prefix, offer, colorCycle, colors, visited);
    }
  }

  /** A newly discovered merchant takes the next colour of the cycle. */
  lemma NewMerchantColoured(prefix: seq<OfferUpdate>, offer: OfferUpdate, colorCycle: seq<Color>,
                            colors: map<MerchantId, Color>, visited: nat)
    requires |colorCycle| > 0
    requires ColoursFollowDiscovery(prefix, colors, visited, colorCycle)
    requires offer.offerId !in Owners(prefix) && offer.merchantId !in colors
    ensures ColoursFollowDiscovery(prefix + [offer], colors[offer.merchantId := CycleColour(colorCycle, visited)], visited + 1, colorCycle)
  {
    var offers := prefix + [offer];
    var colors' := colors[offer.merchantId := CycleColour(colorCycle, visited)];
    OwnersSnoc(prefix, offer);
    var seen := Discovered(prefix);
    assert Discovered(offers) == seen + [offer.merchantId];
    forall k | 0 <= k < |Discovered(offers)|
      ensures Discovered(offers)[k] in colors' && colors'[Discovered(offers)[k]] == CycleColour(colorCycle, k)
    {
      if k < |seen| {
        assert Discovered(offers)[k] == seen[k];
        assert seen[k] in colors;
        assert seen[k] != offer.merchantId;
        assert colors'[seen[k]] == colors[seen[k]];
      } else {
        assert k == visited;
        assert Discovered(offers)[k] == offer.merchantId;
      }
    }
  }

  /** An event of a known offer, or of a merchant already coloured, changes no colour. */
  lemma ColoursUnchanged(prefix: seq<OfferUpdate>, offer: OfferUpdate, colorCycle: seq<Color>,
                         colors: map<MerchantId, Color>, visited: nat)
    requires |colorCycle| > 0
    requires ColoursFollowDiscovery(prefix, colors, visited, colorCycle)
    requires offer.offerId in Owners(prefix) || offer.merchantId in colors
    ensures ColoursFollowDiscovery(prefix + [offer], colors, visited, colorCycle)
  {
    OwnersSnoc(prefix, offer);
    assert Discovered(prefix + [offer]) == Discovered(prefix);
  }

  lemma OwnersSnoc(prefix: seq<OfferUpdate>, offer: OfferUpdate)
    ensures Owners(prefix + [offer])
         == if offer.offerId in Owners(prefix) then Owners(prefix) else Owners(prefix)[offer.offerId := offer.merchantId]
    ensures Discovered(prefix + [offer])
         == if offer.offerId in Owners(prefix) || offer.merchantId in Discovered(prefix) then Discovered(prefix)
            else Discovered(prefix) + [offer.merchantId]
  {
    assert (prefix + [offer])[..|prefix|] == prefix;
  }

  lemma OffersWithIdSnoc(prefix: seq<OfferUpdate>, offer: OfferUpdate, id: OfferId)
    ensures OffersWithId(prefix + [offer], id) == OffersWithId(prefix, id) + (if offer.offerId == id then [offer] else [])
  {
    assert (prefix + [offer])[..|prefix|] == prefix;
  }

  lemma {:induction false} OwnersKeys(offers: seq<OfferUpdate>)
    ensures Owners(offers).Keys == set e | e in offers :: e.offerId
  {
    if offers != [] {
      var prefix := offers[..|offers| - 1];
      assert offers == prefix + [offers[|offers| - 1]];
      OwnersKeys(prefix);
      assert (set e | e in offers :: e.offerId) == (set e | e in prefix :: e.offerId) + {offers[|offers| - 1].offerId} by {
        forall x | x in offers ensures x in prefix || x == offers[|offers| - 1] { }
      }
    }
  }

  lemma {:induction false} NoOffersWithAbsentId(offers: seq<OfferUpdate>, id: OfferId)
    requires id !in Owners(offers)
    ensures OffersWithId(offers, id) == []
  {
    if offers != [] {
      var prefix := offers[..|offers| - 1];
      NoOffersWithAbsentId(prefix, id);
    }
  }

  /** Appending one more offer's point keeps every offer's series equal to its events' points. */
  lemma AppendKeepsOfferSeries(prefix: seq<OfferUpdate>, offer: OfferUpdate, p: map<OfferId, seq<PricePoint>>, p': map<OfferId, seq<PricePoint>>)
    requires p.Keys == Owners(prefix).Keys
    requires forall id :: id in p ==> p[id] == PricePoints(OffersWithId(prefix, id))
    requires p' == Append(p, offer.offerId, PricePoint(offer.price, offer.timestamp))
    ensures p'.Keys == Owners(prefix + [offer]).Keys
    ensures forall id :: id in p' ==> p'[id] == PricePoints(OffersWithId(prefix + [offer], id))
  {
    assert (prefix + [offer])[..|prefix|] == prefix;
    var own := offer.offerId;
    var before := if own in p then p[own] else [];
    assert before == PricePoints(OffersWithId(prefix, own)) by {
      if own !in p {
        NoOffersWithAbsentId(prefix, own);
      }
    }
    OffersWithIdSnoc(prefix, offer, own);
    PricePointsSnoc(OffersWithId(prefix, own), offer);
    forall id | id in p' && id != own ensures p'[id] == PricePoints(OffersWithId(prefix + [offer], id)) {
      OffersWithIdSnoc(prefix, offer, id);
    }
  }

  /** The owner recorded for an offer is the merchant of that offer's first event. */
  lemma {:induction false} OwnerIsFirstEvent(offers: seq<OfferUpdate>, id: OfferId)
    requires id in Owners(offers)
    ensures exists k ::
      && 0 <= k < |offers| && offers[k].offerId == id && offers[k].merchantId == Owners(offers)[id]
      && (forall j :: 0 <= j < k ==> offers[j].offerId != id)
  {
    var prefix := offers[..|offers| - 1];
    var e := offers[|offers| - 1];
    if id in Owners(prefix) {
      OwnerIsFirstEvent(prefix, id);
      var k :| 0 <= k < |prefix| && prefix[k].offerId == id && prefix[k].merchantId == Owners(prefix)[id] &&
        forall j :: 0 <= j < k ==> prefix[j].offerId != id;
      assert offers[k] == prefix[k];
    } else {
      OwnersKeys(prefix);
      forall j | 0 <= j < |offers| - 1 ensures offers[j].offerId != id {
        assert offers[j] == prefix[j];
        assert prefix[j] in prefix;
      }
      assert offers[|offers| - 1].offerId == id;
    }
  }

  /** No merchant is discovered twice, so the k-th merchant's colour index is k modulo the palette size. */
  lemma {:induction false} DiscoveredDistinct(offers: seq<OfferUpdate>)
    ensures forall a, b :: 0 <= a < b < |Discovered(offers)| ==> Discovered(offers)[a] != Discovered(offers)[b]
  {
    if offers != [] {
      DiscoveredDistinct(offers[..|offers| - 1]);
    }
  }

  /** The coloured merchants are exactly the owners of offers. */
  lemma {:induction false} DiscoveredAreOwners(offers: seq<OfferUpdate>)
    ensures forall id :: id in Owners(offers) ==> Owners(offers)[id] in Discovered(offers)
    ensures forall m :: m in Discovered(offers) ==> exists id :: id in Owners(offers) && Owners(offers)[id] == m
  {
    if offers != [] {
      var prefix := offers[..|offers| - 1];
      var e := offers[|offers| - 1];
      DiscoveredAreOwners(prefix);
      var owners := Owners(prefix);
      forall m | m in Discovered(offers) ensures exists id :: id in Owners(offers) && Owners(offers)[id] == m {
        if m in Discovered(prefix) {
          var id :| id in owners && owners[id] == m;
          assert Owners(offers)[id] == m;
        } else {
          assert e.offerId !in owners && m == e.merchantId;
          assert Owners(offers)[e.offerId] == m;
        }
      }
    }
  }

  /** Later events never change an offer's owner or a discovered merchant's position, hence never its colour. */
  lemma {:induction false} DiscoveryIsStable(offers: seq<OfferUpdate>, later: seq<OfferUpdate>)
    ensures Discovered(offers) <= Discovered(offers + later)
    ensures forall id :: id in Owners(offers) ==> id in Owners(offers + later) && Owners(offers + later)[id] == Owners(offers)[id]
    decreases |later|
  {
    if later == [] {
      assert offers + later == offers;
    } else {
      var front := later[..|later| - 1];
      DiscoveryIsStable(offers, front);
      assert (offers + later)[..|offers + later| - 1] == offers + front;
    }
  }
}
