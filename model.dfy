/** The entities of the matching core: the mutable `Order` entity, its enums,
    the `Trade` record the engine builds, and the value forms (JSON encodings,
    message payloads) that travel between components.

    Decimal amounts (BigDecimal with scale 8) are exact `real`s; instants are
    epoch milliseconds. */
module Model {
  import opened Util

  datatype Side = BUY | SELL
  datatype OrderType = LIMIT | MARKET | TAKE_PROFIT | STOP_LOSS
  datatype OrderStatus = PENDING | PARTIALLY_FILLED | COMPLETED | CANCELLED

  function Opposite(s: Side): Side
  {
    if s == BUY then SELL else BUY
  }

  /** `Enum.name()` (and `toString()`) of each enum. */
  function SideName(s: Side): string
  {
    match s
    case BUY => "BUY"
    case SELL => "SELL"
  }

  function OrderTypeName(t: OrderType): string
  {
    match t
    case LIMIT => "LIMIT"
    case MARKET => "MARKET"
    case TAKE_PROFIT => "TAKE_PROFIT"
    case STOP_LOSS => "STOP_LOSS"
  }

  function StatusName(s: OrderStatus): string
  {
    match s
    case PENDING => "PENDING"
    case PARTIALLY_FILLED => "PARTIALLY_FILLED"
    case COMPLETED => "COMPLETED"
    case CANCELLED => "CANCELLED"
  }

  /** Every order type other than MARKET carries a limit price the engine checks. */
  predicate IsPriced(t: OrderType)
  {
    t != MARKET
  }

  /** The 15 scalar fields of an Order: exactly what its JSON encoding carries
      (`buyTrades` and `sellTrades` are ignored by the encoder), what a book
      member holds, and the 15 columns of an `orders` row. A null price is an
      absent field. */
  datatype OrderRecord = OrderRecord(
    id: string,
    userId: string,
    symbol: string,
    price: Option<real>,
    quantity: real,
    filledQuantity: real,
    unfilledQuantity: real,
    side: Side,
    orderType: OrderType,
    status: OrderStatus,
    stopPrice: Option<real>,
    takeProfitPrice: Option<real>,
    createdAt: int,
    updatedAt: int,
    modifiedAt: int)

  /** The mutable Order entity. The engine fills it in place through setters,
      and trades hold it by reference. */
  class Order {
    var id: string
    var userId: string
    var symbol: string
    var price: Option<real>
    var quantity: real
    var filledQuantity: real
    var unfilledQuantity: real
    var side: Side
    var orderType: OrderType
    var status: OrderStatus
    var stopPrice: Option<real>
    var takeProfitPrice: Option<real>
    var createdAt: int
    var updatedAt: int
    var modifiedAt: int
    // The trades that reference this order; never part of its encoding.
    var buyTrades: seq<Trade>
    var sellTrades: seq<Trade>

    /** The encoding of the order's current state. */
    function Snapshot(): OrderRecord
      reads this
    {
      OrderRecord(id, userId, symbol, price, quantity, filledQuantity, unfilledQuantity,
                  side, orderType, status, stopPrice, takeProfitPrice,
                  createdAt, updatedAt, modifiedAt)
    }

    /** The no-argument constructor with the entity's field initialisers; each
        of the three timestamp initialisers reads the clock on its own, giving
        `created`, `updated` and `modified`. The other fields stay null (empty
        here). */
    constructor (created: int, updated: int, modified: int)
      ensures filledQuantity == 0.0 && status == PENDING
      ensures createdAt == created && updatedAt == updated && modifiedAt == modified
      ensures price == None && stopPrice == None && takeProfitPrice == None
      ensures buyTrades == [] && sellTrades == []
    {
      filledQuantity := 0.0;
      status := PENDING;
      createdAt, updatedAt, modifiedAt := created, updated, modified;
      price, stopPrice, takeProfitPrice := None, None, None;
      buyTrades, sellTrades := [], [];
    }

    /** The all-arguments constructor: each argument goes to the same-named field. */
    constructor WithFields(id: string, userId: string, symbol: string, price: Option<real>,
                           quantity: real, filledQuantity: real, unfilledQuantity: real,
                           side: Side, orderType: OrderType, status: OrderStatus,
                           stopPrice: Option<real>, takeProfitPrice: Option<real>,
                           createdAt: int, updatedAt: int, modifiedAt: int)
      ensures Snapshot() == OrderRecord(id, userId, symbol, price, quantity, filledQuantity,
                                        unfilledQuantity, side, orderType, status, stopPrice,
                                        takeProfitPrice, createdAt, updatedAt, modifiedAt)
      ensures buyTrades == [] && sellTrades == []
    {
      this.id, this.userId, this.symbol, this.price := id, userId, symbol, price;
      this.quantity, this.filledQuantity, this.unfilledQuantity := quantity, filledQuantity, unfilledQuantity;
      this.side, this.orderType, this.status := side, orderType, status;
      this.stopPrice, this.takeProfitPrice := stopPrice, takeProfitPrice;
      this.createdAt, this.updatedAt, this.modifiedAt := createdAt, updatedAt, modifiedAt;
      buyTrades, sellTrades := [], [];
    }
  }

  /** The Trade record the engine builds once per match; its fields are never
      changed afterwards. It refers to its two orders by reference. */
  datatype Trade = Trade(
    id: nat,
    buyOrder: Order,
    sellOrder: Order,
    symbol: string,
    price: real,
    quantity: real,
    tradeTime: int,
    direction: string,
    takerOrderId: string)

  /** The encoding of a trade: the referenced orders appear as their encodings. */
  datatype TradeRecord = TradeRecord(
    id: nat,
    buyOrder: OrderRecord,
    sellOrder: OrderRecord,
    symbol: string,
    price: real,
    quantity: real,
    tradeTime: int,
    direction: string,
    takerOrderId: string)

  function TradeSnapshot(t: Trade): (r: TradeRecord)
    reads t.buyOrder, t.sellOrder
    ensures r.buyOrder == t.buyOrder.Snapshot() && r.sellOrder == t.sellOrder.Snapshot()
    ensures r.id == t.id && r.price == t.price && r.quantity == t.quantity && r.takerOrderId == t.takerOrderId
    ensures r.symbol == t.symbol && r.tradeTime == t.tradeTime && r.direction == t.direction
  {
    TradeRecord(t.id, t.buyOrder.Snapshot(), t.sellOrder.Snapshot(), t.symbol, t.price,
                t.quantity, t.tradeTime, t.direction, t.takerOrderId)
  }

  /** The trade's direction tag: the taker's side in lower case, at most four
      characters (the column is `length = 4`). */
  function DirectionOf(s: Side): (d: string)
    ensures |d| <= 4
    ensures d == "buy" || d == "sell"
    ensures (d == "buy") <==> s == BUY
  {
    if s == BUY then "buy" else "sell"
  }

  /** The persistence payload for one trade: both orders and the trade. */
  datatype TradeOrdersMessage = TradeOrdersMessage(
    buyOrder: OrderRecord,
    sellOrder: OrderRecord,
    trade: TradeRecord)
}
