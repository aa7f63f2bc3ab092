/** The values the other modules share: sides, orders and execution events, bytes and machine widths. */
module Core {

  type UserId = string
  type OrderId = string
  type Price = real
  type Quantity = real

  /** One more than the largest uint32_t and the largest size_t. */
  const W32: nat := 0x1_0000_0000
  const W64: nat := 0x1_0000_0000_0000_0000

  type Byte = b: nat | b < 256 witness 0

  datatype Option<+T> = None | Some(value: T)

  datatype Side =
    | Buy | Sell | BuyMinus | SellPlus
    | SellShort | SellShortExempt | Undisclosed | Cross | CrossShort
  {
    /** The sides whose remainder rests on the bid book. */
    predicate IsBid() { Buy? || BuyMinus? }

    /** The sides whose remainder rests on the ask book. */
    predicate IsAsk() { Sell? || SellPlus? }

    /** The sides the order book accepts at all. */
    predicate Supported() { IsBid() || IsAsk() }

    /** The sides no tick rule ever blocks. */
    predicate Plain() { Buy? || Sell? }
  }

  /** The order states the book itself assigns. */
  datatype OrderStatus = NewOrder | PartiallyFilled | Filled

  datatype Order = Order(
    userId: UserId,
    orderId: OrderId,
    originalQty: Quantity,
    remainQty: Quantity,
    avgPrice: Price,
    side: Side,
    status: OrderStatus)
  {
    function CumQty(): Quantity { originalQty - remainQty }

    /** Something is left to trade and no more than was asked for. */
    predicate Live() { 0.0 < remainQty <= originalQty }
  }

  /** What the book pushes to its event queue. */
  datatype Event = Event(execStatus: OrderStatus, lastPrice: Price, lastQty: Quantity, order: Order)

  /** An incoming order together with its limit price. */
  datatype OrderInfo = OrderInfo(execId: string, price: Price, order: Order)

  function Min(a: real, b: real): real { if a <= b then a else b }
}
