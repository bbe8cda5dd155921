/**
 * The event records of a market-simulation dump, one datatype per event
 * category (the Kafka topics `buyOffer`, `holding_cost`, `producer`,
 * `addOffer` and `updateOffer`).  Only the fields the analyzer reads are kept.
 * Timestamps are abstract integers with their natural order; money and
 * quantities are exact integers.
 */
module Events {

  type MerchantId = int
  type OfferId = int
  type Timestamp = int

  /** The `http_code` of an operation that took effect. */
  const HTTP_OK := 200

  /** A purchase (`buyOffer` topic). */
  datatype BuyOffer = BuyOffer(merchantId: MerchantId, timestamp: Timestamp, amount: int, price: int, httpCode: int)

  /** A holding-cost charge (`holding_cost` topic). */
  datatype HoldingCost = HoldingCost(merchantId: MerchantId, cost: int)

  /** A replenishment order placed with the producer (`producer` topic). */
  datatype ProducerOrder = ProducerOrder(merchantId: MerchantId, timestamp: Timestamp, amount: int, billingAmount: int)

  /** An offer placement or price update (`addOffer` / `updateOffer` topics). */
  datatype OfferUpdate = OfferUpdate(offerId: OfferId, merchantId: MerchantId, timestamp: Timestamp, price: int, httpCode: int)

  predicate SaleSucceeded(e: BuyOffer) { e.httpCode == HTTP_OK }

  predicate SaleFailed(e: BuyOffer) { !SaleSucceeded(e) }

  predicate OfferSucceeded(e: OfferUpdate) { e.httpCode == HTTP_OK }

  function SaleTime(e: BuyOffer): Timestamp { e.timestamp }

  function OrderTime(e: ProducerOrder): Timestamp { e.timestamp }

  function OfferTime(e: OfferUpdate): Timestamp { e.timestamp }
}
