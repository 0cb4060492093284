/** What passes between the services: market events, and the zone and side of a decision. */
module Events {
  import opened Text

  datatype Side = BUY | SELL | HOLD

  datatype Zone = EXECUTE | OBSERVE | IGNORE

  /** The fields of a market event that the actor, the writer and the ledger read. */
  datatype MarketEvent = MarketEvent(
    asset: string, pair: string, timestamp: real, price: real, referencePrice: Option<real>,
    stale: bool, health: string, freshness: Option<real>)
}
