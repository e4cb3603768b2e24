/** Commands, events, orders and trades of the matching domain. */
module Domain {
  import opened Wrappers
  import opened Numeric

  type OrderId = nat
  type TenantId = nat
  type DomainId = nat
  type MarketId = nat
  type Timestamp = int

  /**
   * Event and command identifiers. A derived identifier is kept as the pair it was derived from:
   * version 5 UUIDs are taken to be collision free.
   */
  datatype EventId = Minted(uuid: nat) | Derived(command: EventId, ordinal: nat)

  datatype TradeId = TradeOf(command: EventId, ordinal: nat)

  /** The order in which snapshots list identifiers. */
  predicate IdBefore(a: EventId, b: EventId) {
    match (a, b)
    case (Minted(m), Minted(n)) => m < n
    case (Minted(_), Derived(_, _)) => true
    case (Derived(_, _), Minted(_)) => false
    case (Derived(c, m), Derived(d, n)) => IdBefore(c, d) || (c == d && m < n)
  }

  datatype OrderSide = Buy | Sell {
    function Opposite(): OrderSide {
      match this
      case Buy => Sell
      case Sell => Buy
    }
  }

  datatype OrderStatus = Pending | Open | PartiallyFilled | Filled | Cancelled | Expired | Rejected

  datatype OrderIntent = OrderIntent(
    orderId: OrderId, tenantId: TenantId, domainId: DomainId, marketId: MarketId,
    side: OrderSide, price: Price, quantity: Quantity,
    submittedAt: Timestamp, expiresAt: Option<Timestamp>)
  {
    /** Whether this order, as a taker, may trade at `makerPrice`. */
    predicate Crosses(makerPrice: Price) {
      match side
      case Buy => makerPrice <= price
      case Sell => makerPrice >= price
    }

    predicate ExpiredAt(now: Timestamp) {
      expiresAt.Some? && now >= expiresAt.value
    }
  }

  datatype Trade = Trade(
    id: TradeId, tenantId: TenantId, domainId: DomainId, marketId: MarketId,
    makerOrderId: OrderId, takerOrderId: OrderId, buyOrderId: OrderId, sellOrderId: OrderId,
    price: Price, quantity: Quantity, occurredAt: Timestamp)

  datatype CommandKind =
    | PlaceLimitOrder(intent: OrderIntent)
    | CancelOrder(orderId: OrderId)
    | ExpireOrder(orderId: OrderId)

  datatype EngineCommand = EngineCommand(
    commandId: EventId, shardSequence: Sequence, occurredAt: Timestamp, kind: CommandKind)

  datatype MatchingEvent =
    | OrderAccepted(intent: OrderIntent, acceptedSequence: Sequence)
    | TradeExecuted(trade: Trade)
    | OrderCancelled(orderId: OrderId, releasedQuantity: Quantity)
    | OrderExpired(orderId: OrderId, releasedQuantity: Quantity)

  datatype EngineEvent = EngineEvent(
    eventId: EventId, causationId: EventId, commandSequence: Sequence,
    occurredAt: Timestamp, payload: MatchingEvent)

  datatype OrderView = OrderView(
    intent: OrderIntent, remaining: Quantity, status: OrderStatus, acceptedSequence: Sequence)
  {
    predicate IsOpen() {
      status == Open || status == PartiallyFilled
    }
  }

  datatype InvariantFailure =
    | CommandSequenceOverflow
    | EventAlreadyApplied(eventId: EventId)
    | TradeOrdinalOverflow
    | ScopeMismatch
    | SelfTrade
    | TradeScopeMismatch
    | SameSideTrade
    | MakerNotEarlier
    | SideIdsMismatch
    | PriceNotMakerLimit
    | PriceOutsideTakerLimit
    | ReleasedQuantityMismatch
    | MissingLevel(orderId: OrderId)
    | DuplicateSnapshotOrder(orderId: OrderId)

  datatype EngineError =
    | MarketMismatch(expected: MarketId, actual: MarketId)
    | CommandSequenceGap(expectedSequence: Sequence, actualSequence: Sequence)
    | OrderAlreadyExists(orderId: OrderId)
    | OrderNotFound(orderId: OrderId)
    | OrderNotOpen(orderId: OrderId, status: OrderStatus)
    | OrderNotExpired(orderId: OrderId)
    | OrderExpiredAtAdmission(orderId: OrderId)
    | NumericFailure(numeric: NumericError)
    | EventInvariant(failure: InvariantFailure)
}
