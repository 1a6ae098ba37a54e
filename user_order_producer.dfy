/** The per-user order-update notifier: an order is copied field by field into
    a public DTO (enums as their names, instants shown at offset UTC+8) and
    sent to "user-order-updates", keyed by the order's owner. */
module UserOrderProducer {
  import opened Util
  import opened Model

  const TOPIC: string := "user-order-updates"
  /** The zone "UTC+8" as an offset in seconds. */
  const UTC_PLUS_8: int := 8 * 3600

  /** A ZonedDateTime: an instant (epoch ms) shown at a fixed offset. */
  datatype Zoned = Zoned(epochMillis: int, offsetSeconds: int)

  datatype OrderDTO = OrderDTO(
    id: string,
    userId: string,
    symbol: string,
    price: Option<real>,
    quantity: real,
    filledQuantity: real,
    unfilledQuantity: real,
    side: string,
    orderType: string,
    status: string,
    stopPrice: Option<real>,
    takeProfitPrice: Option<real>,
    createdAt: Zoned,
    updatedAt: Zoned,
    modifiedAt: Zoned)

  /** One record sent to the message bus: topic, partitioning key, value. */
  datatype Message = Message(topic: string, key: string, dto: OrderDTO)

  function AtUtcPlus8(instant: int): Zoned
  {
    Zoned(instant, UTC_PLUS_8)
  }

  /** convertToDTO. stopPrice and takeProfitPrice are never set, so they stay null. */
  function ConvertToDTO(o: OrderRecord): OrderDTO
  {
    OrderDTO(o.id, o.userId, o.symbol, o.price, o.quantity, o.filledQuantity, o.unfilledQuantity,
             SideName(o.side), OrderTypeName(o.orderType), StatusName(o.status), None, None,
             AtUtcPlus8(o.createdAt), AtUtcPlus8(o.updatedAt), AtUtcPlus8(o.modifiedAt))
  }

  /** sendOrderUpdate: one message on the user-order topic, keyed by the owner. */
  function SendOrderUpdate(o: OrderRecord): (m: Message)
    ensures m.topic == TOPIC && m.key == o.userId
  {
    Message(TOPIC, o.userId, ConvertToDTO(o))
  }

  function SideFromName(s: string): Option<Side>
  {
    if s == "BUY" then Some(BUY) else if s == "SELL" then Some(SELL) else None
  }

  function OrderTypeFromName(s: string): Option<OrderType>
  {
    if s == "LIMIT" then Some(LIMIT)
    else if s == "MARKET" then Some(MARKET)
    else if s == "TAKE_PROFIT" then Some(TAKE_PROFIT)
    else if s == "STOP_LOSS" then Some(STOP_LOSS)
    else None
  }

  function StatusFromName(s: string): Option<OrderStatus>
  {
    if s == "PENDING" then Some(PENDING)
    else if s == "PARTIALLY_FILLED" then Some(PARTIALLY_FILLED)
    else if s == "COMPLETED" then Some(COMPLETED)
    else if s == "CANCELLED" then Some(CANCELLED)
    else None
  }

  /** Reads an order back from its DTO: the inverse of ConvertToDTO on every
      field it carries. */
  function FromDTO(d: OrderDTO): Option<OrderRecord>
  {
    match (SideFromName(d.side), OrderTypeFromName(d.orderType), StatusFromName(d.status))
    case (Some(side), Some(orderType), Some(status)) =>
      Some(OrderRecord(d.id, d.userId, d.symbol, d.price, d.quantity, d.filledQuantity,
                       d.unfilledQuantity, side, orderType, status, d.stopPrice, d.takeProfitPrice,
                       d.createdAt.epochMillis, d.updatedAt.epochMillis, d.modifiedAt.epochMillis))
    case _ => None
  }

  /** The DTO carries every field of the order unchanged except the stop and
      take-profit prices, which it drops; enum names read back as the same enum,
      and each timestamp is the same instant at offset UTC+8. */
  lemma DTORoundTrip(o: OrderRecord)
    ensures FromDTO(ConvertToDTO(o)) == Some(o.(stopPrice := None, takeProfitPrice := None))
    ensures ConvertToDTO(o).stopPrice == None && ConvertToDTO(o).takeProfitPrice == None
    ensures ConvertToDTO(o).createdAt.offsetSeconds == 28800
    ensures ConvertToDTO(o).updatedAt.offsetSeconds == 28800
    ensures ConvertToDTO(o).modifiedAt.offsetSeconds == 28800
  {
    match o.side {
      case BUY => case SELL =>
    }
    match o.orderType {
      case LIMIT => case MARKET => case TAKE_PROFIT => case STOP_LOSS =>
    }
    match o.status {
      case PENDING => case PARTIALLY_FILLED => case COMPLETED => case CANCELLED =>
    }
  }

  /** Two orders with the same DTO agree on every field but the stop and
      take-profit prices. */
  lemma ConvertToDTOInjective(a: OrderRecord, b: OrderRecord)
    requires ConvertToDTO(a) == ConvertToDTO(b)
    ensures a.(stopPrice := None, takeProfitPrice := None) == b.(stopPrice := None, takeProfitPrice := None)
  {
    DTORoundTrip(a);
    DTORoundTrip(b);
  }
}
