/** Markets, book levels and order-book snapshots as the feeds deliver them. */
module Exchange {

  type Id = string

  /** Instants in nanoseconds; 0 stands for an unset time. */
  type Time = int

  const UNSET: Time := 0

  datatype Market = Market(base: string, quote: string)
  {
    function Text(): string {
      base + "/" + quote
    }
  }

  /** The text form is base/quote; comparing markets by value is comparing those texts, as no
      asset name holds a slash. */
  datatype Key = Key(exchange: Id, market: Market)

  datatype PriceLevel = PriceLevel(price: real, quantity: real)

  datatype FeedStatus = Unknown | Starting | Connecting | Live | Stale | Error

  datatype Transport = Unspecified | WebSocket | Polling | NoTransport

  datatype OrderBook = OrderBook(
    exchange: Id,
    market: Market,
    bids: seq<PriceLevel>,
    asks: seq<PriceLevel>,
    receivedAt: Time,
    sequence: int,
    transport: Transport,
    status: FeedStatus,
    message: string)
  {
    function BookKey(): Key {
      Key(exchange, market)
    }

    predicate HasBook() {
      |bids| > 0 && |asks| > 0
    }
  }

  ghost predicate Positive(levels: seq<PriceLevel>) {
    forall i | 0 <= i < |levels| :: levels[i].price > 0.0 && levels[i].quantity > 0.0
  }

  /** Cheapest offer first. */
  ghost predicate AskSide(levels: seq<PriceLevel>) {
    && Positive(levels)
    && forall i, j | 0 <= i < j < |levels| :: levels[i].price <= levels[j].price
  }

  /** Highest bid first. */
  ghost predicate BidSide(levels: seq<PriceLevel>) {
    && Positive(levels)
    && forall i, j | 0 <= i < j < |levels| :: levels[i].price >= levels[j].price
  }

  ghost predicate WellFormed(book: OrderBook) {
    AskSide(book.asks) && BidSide(book.bids)
  }
}
