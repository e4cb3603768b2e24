/**
 * The order book as a value, and what one event does to it. The class in OrderBook.dfy updates
 * its fields step by step and is proved to follow these functions.
 */
module BookState {
  import opened Wrappers
  import opened Numeric
  import opened Domain
  import opened Histories

  type Levels = map<Price, seq<OrderId>>

  datatype Book = Book(
    market: MarketId, bids: Levels, asks: Levels, orders: map<OrderId, OrderView>,
    processed: set<EventId>, applied: set<EventId>, lastSequence: Sequence)
  {
    function Side(side: OrderSide): Levels {
      match side
      case Buy => bids
      case Sell => asks
    }

    function WithSide(side: OrderSide, levels: Levels): Book {
      match side
      case Buy => this.(bids := levels)
      case Sell => this.(asks := levels)
    }
  }

  function NewBook(market: MarketId): Book {
    Book(market, map[], map[], map[], {}, {}, 0)
  }

  // ----- price levels -----

  function Queue(levels: Levels, price: Price): seq<OrderId> {
    if price in levels then levels[price] else []
  }

  function PushLevel(levels: Levels, price: Price, id: OrderId): Levels {
    levels[price := Queue(levels, price) + [id]]
  }

  /** The queue with every occurrence of `id` dropped, order kept. */
  function Without(queue: seq<OrderId>, id: OrderId): seq<OrderId> {
    if queue == [] then []
    else (if queue[0] == id then [] else [queue[0]]) + Without(queue[1..], id)
  }

  function RemoveLevel(levels: Levels, price: Price, id: OrderId): Levels {
    var rest := Without(Queue(levels, price), id);
    if rest == [] then levels - {price} else levels[price := rest]
  }

  // ----- what is wrong with an event, if anything -----

  function OpenOrder(b: Book, id: OrderId): Result<OrderView, EngineError> {
    if id !in b.orders then Err(OrderNotFound(id))
    else if b.orders[id].IsOpen() then Ok(b.orders[id])
    else Err(OrderNotOpen(id, b.orders[id].status))
  }

  predicate SameScope(o: OrderView, intent: OrderIntent) {
    o.intent.tenantId == intent.tenantId && o.intent.domainId == intent.domainId
  }

  function ScopeError(b: Book, intent: OrderIntent): Option<EngineError> {
    if intent.marketId != b.market then Some(MarketMismatch(b.market, intent.marketId))
    else if exists id :: id in b.orders && !SameScope(b.orders[id], intent) then Some(EventInvariant(ScopeMismatch))
    else None
  }

  function AcceptError(b: Book, intent: OrderIntent): Option<EngineError> {
    var scope := ScopeError(b, intent);
    if scope.Some? then scope
    else if intent.orderId in b.orders then Some(OrderAlreadyExists(intent.orderId))
    else if intent.quantity == 0 then Some(NumericFailure(NonPositiveQuantity))
    else None
  }

  /** The checks between two open orders, in the order the engine makes them. */
  function PairError(maker: OrderView, taker: OrderView, t: Trade): Option<EngineError> {
    if maker.intent.tenantId != t.tenantId || taker.intent.tenantId != t.tenantId
       || maker.intent.domainId != t.domainId || taker.intent.domainId != t.domainId
       || maker.intent.marketId != t.marketId || taker.intent.marketId != t.marketId
    then Some(EventInvariant(TradeScopeMismatch))
    else if maker.intent.side == taker.intent.side then Some(EventInvariant(SameSideTrade))
    else if maker.acceptedSequence >= taker.acceptedSequence then Some(EventInvariant(MakerNotEarlier))
    else if maker.intent.side.Buy? && (t.buyOrderId != t.makerOrderId || t.sellOrderId != t.takerOrderId)
    then Some(EventInvariant(SideIdsMismatch))
    else if maker.intent.side.Sell? && (t.buyOrderId != t.takerOrderId || t.sellOrderId != t.makerOrderId)
    then Some(EventInvariant(SideIdsMismatch))
    else if t.price != maker.intent.price then Some(EventInvariant(PriceNotMakerLimit))
    else if !taker.intent.Crosses(t.price) then Some(EventInvariant(PriceOutsideTakerLimit))
    else if maker.remaining < t.quantity || taker.remaining < t.quantity then Some(NumericFailure(NegativeQuantity))
    else None
  }

  function TradeError(b: Book, t: Trade): Option<EngineError> {
    if t.marketId != b.market then Some(MarketMismatch(b.market, t.marketId))
    else if t.makerOrderId == t.takerOrderId then Some(EventInvariant(SelfTrade))
    else if t.quantity == 0 then Some(NumericFailure(NonPositiveQuantity))
    else
      match OpenOrder(b, t.makerOrderId)
      case Err(e) => Some(e)
      case Ok(maker) =>
        match OpenOrder(b, t.takerOrderId)
        case Err(e) => Some(e)
        case Ok(taker) => PairError(maker, taker, t)
  }

  function CloseError(b: Book, id: OrderId, released: Quantity): Option<EngineError> {
    match OpenOrder(b, id)
    case Err(e) => Some(e)
    case Ok(o) => if o.remaining != released then Some(EventInvariant(ReleasedQuantityMismatch)) else None
  }

  function EventError(b: Book, payload: MatchingEvent): Option<EngineError> {
    match payload
    case OrderAccepted(intent, _) => AcceptError(b, intent)
    case TradeExecuted(t) => TradeError(b, t)
    case OrderCancelled(id, released) => CloseError(b, id, released)
    case OrderExpired(id, released) => CloseError(b, id, released)
  }

  // ----- what a sound event does -----

  function Accept(b: Book, intent: OrderIntent, sequence: Sequence): Book {
    var side := intent.side;
    b.WithSide(side, PushLevel(b.Side(side), intent.price, intent.orderId)).(
      orders := b.orders[intent.orderId := OrderView(intent, intent.quantity, Open, sequence)])
  }

  /** Gives an order its new remaining quantity; an order with nothing left leaves its queue. */
  function Settle(b: Book, id: OrderId, remaining: Quantity, status: OrderStatus): Book
    requires id in b.orders
  {
    var o := b.orders[id];
    var side := o.intent.side;
    var listed := if remaining == 0 then b.WithSide(side, RemoveLevel(b.Side(side), o.intent.price, id)) else b;
    listed.(orders := b.orders[id := o.(remaining := remaining, status := status)])
  }

  function StatusAfter(o: OrderView, remaining: Quantity): OrderStatus {
    if remaining == 0 then Filled
    else if remaining == o.intent.quantity then Open
    else PartiallyFilled
  }

  function Reduce(b: Book, id: OrderId, quantity: Quantity): Book
    requires id in b.orders && quantity <= b.orders[id].remaining
  {
    var o := b.orders[id];
    Settle(b, id, o.remaining - quantity, StatusAfter(o, o.remaining - quantity))
  }

  function Execute(b: Book, t: Trade): Book
    requires TradeError(b, t).None?
  {
    Reduce(Reduce(b, t.makerOrderId, t.quantity), t.takerOrderId, t.quantity)
  }

  function Effect(b: Book, payload: MatchingEvent): Book
    requires EventError(b, payload).None?
  {
    match payload
    case OrderAccepted(intent, sequence) => Accept(b, intent, sequence)
    case TradeExecuted(t) => Execute(b, t)
    case OrderCancelled(id, _) => Settle(b, id, 0, Cancelled)
    case OrderExpired(id, _) => Settle(b, id, 0, Expired)
  }

  function Mark(b: Book, e: EngineEvent): Book {
    b.(applied := b.applied + {e.eventId},
       processed := b.processed + {e.causationId},
       lastSequence := if b.lastSequence >= e.commandSequence then b.lastSequence else e.commandSequence)
  }

  // ----- apply -----

  function ApplyOutcome(b: Book, e: EngineEvent): Result<bool, EngineError> {
    if e.eventId in b.applied then Ok(false)
    else match EventError(b, e.payload)
      case Some(error) => Err(error)
      case None => Ok(true)
  }

  predicate Applies(b: Book, e: EngineEvent) {
    ApplyOutcome(b, e) == Ok(true)
  }

  function Apply(b: Book, e: EngineEvent): Book {
    if Applies(b, e) then Mark(Effect(b, e.payload), e) else b
  }

  /** Replay: every event in turn, as far as each is accepted. */
  function Replay(b: Book, events: seq<EngineEvent>): Book {
    Run(Apply, b, events)
  }

  /** Every event is new and sound where it is delivered, and `p` holds at every book on the way. */
  ghost predicate Throughout(p: Book -> bool, b: Book, events: seq<EngineEvent>) {
    Histories.Throughout(Apply, Applies, p, b, events)
  }

  ghost predicate AllApply(b: Book, events: seq<EngineEvent>) {
    Throughout(_ => true, b, events)
  }
}
