/**
 * Exactly which events and commands a book accepts, and what each accepted one leaves, said from the
 * order table and the request alone.
 */
module EventRules {
  import opened Wrappers
  import opened Numeric
  import opened Domain
  import opened BookState
  import opened BookInvariants
  import opened Matching
  import opened PriceTime
  import opened EngineRuns
  import opened LiveRuns

  // ----- accepting an order -----

  /** A new order of the book's market and of the tenant and domain of its orders, for a positive quantity. */
  ghost predicate Placeable(b: Book, intent: OrderIntent) {
    && intent.marketId == b.market
    && (forall id :: id in b.orders ==>
          b.orders[id].intent.tenantId == intent.tenantId && b.orders[id].intent.domainId == intent.domainId)
    && intent.orderId !in b.orders
    && intent.quantity > 0
  }

  lemma PlaceableExactly(b: Book, intent: OrderIntent)
    ensures AcceptError(b, intent).None? <==> Placeable(b, intent)
    ensures intent.marketId != b.market ==> AcceptError(b, intent) == Some(MarketMismatch(b.market, intent.marketId))
    ensures AcceptError(b, intent) == Some(OrderAlreadyExists(intent.orderId)) ==> intent.orderId in b.orders
    ensures AcceptError(b, intent) == Some(NumericFailure(NonPositiveQuantity)) ==> intent.quantity == 0
  {
  }

  /** An order enters open, whole, at the end of its own level; nothing else changes. */
  lemma OrderAcceptedExactly(b: Book, e: EngineEvent, intent: OrderIntent, sequence: Sequence)
    requires e.eventId !in b.applied && e.payload == OrderAccepted(intent, sequence)
    ensures Applies(b, e) <==> Placeable(b, intent)
    ensures Applies(b, e) ==>
              && Apply(b, e).orders == b.orders[intent.orderId := OrderView(intent, intent.quantity, Open, sequence)]
              && forall side: OrderSide, price: Price ::
                   Queue(Apply(b, e).Side(side), price) ==
                   Queue(b.Side(side), price)
                   + if side == intent.side && price == intent.price then [intent.orderId] else []
  {
    PlaceableExactly(b, intent);
    if Applies(b, e) {
      var c := Accept(b, intent, sequence);
      forall side: OrderSide, price: Price
        ensures Queue(c.Side(side), price) ==
                Queue(b.Side(side), price)
                + if side == intent.side && price == intent.price then [intent.orderId] else []
      {
      }
    }
  }

  // ----- accepting a trade -----

  predicate Resting(b: Book, id: OrderId) {
    id in b.orders && b.orders[id].status in {Open, PartiallyFilled}
  }

  predicate OfTrade(o: OrderView, t: Trade) {
    && o.intent.tenantId == t.tenantId && o.intent.domainId == t.domainId && o.intent.marketId == t.marketId
    && t.quantity <= o.remaining
  }

  /**
   * A fair trade: an open buy and an open sell of the trade's scope with enough left, one of them the
   * maker, accepted earlier and setting the price, the other the taker, whose limit allows it.
   */
  predicate Fair(b: Book, t: Trade) {
    && t.marketId == b.market && t.quantity > 0
    && Resting(b, t.buyOrderId) && b.orders[t.buyOrderId].intent.side.Buy? && OfTrade(b.orders[t.buyOrderId], t)
    && Resting(b, t.sellOrderId) && b.orders[t.sellOrderId].intent.side.Sell? && OfTrade(b.orders[t.sellOrderId], t)
    && {t.makerOrderId, t.takerOrderId} == {t.buyOrderId, t.sellOrderId}
    && b.orders[t.sellOrderId].intent.price <= t.price <= b.orders[t.buyOrderId].intent.price
    && t.makerOrderId in b.orders && t.price == b.orders[t.makerOrderId].intent.price
    && t.takerOrderId in b.orders
    && b.orders[t.makerOrderId].acceptedSequence < b.orders[t.takerOrderId].acceptedSequence
  }

  lemma FairIsAccepted(b: Book, t: Trade)
    requires Fair(b, t)
    ensures TradeError(b, t).None?
  {
    assert t.buyOrderId != t.sellOrderId;
    assert t.buyOrderId in {t.makerOrderId, t.takerOrderId} && t.sellOrderId in {t.makerOrderId, t.takerOrderId};
  }

  lemma AcceptedIsFair(b: Book, t: Trade)
    requires TradeError(b, t).None?
    ensures Fair(b, t)
  {
  }

  /** What a trade leaves of an order. */
  function Traded(o: OrderView, quantity: Quantity): OrderView
    requires quantity <= o.remaining
  {
    o.(remaining := o.remaining - quantity, status := if o.remaining == quantity then Filled else PartiallyFilled)
  }

  lemma ReduceOrder(b: Book, id: OrderId, quantity: Quantity)
    requires id in b.orders && 0 < quantity <= b.orders[id].remaining <= b.orders[id].intent.quantity
    ensures Reduce(b, id, quantity).orders == b.orders[id := Traded(b.orders[id], quantity)]
  {
  }

  /** A trade is accepted exactly when it is fair; it takes its quantity from both orders and touches no other. */
  lemma TradeAcceptedExactly(b: Book, e: EngineEvent, t: Trade)
    requires IndexInv(b) && e.eventId !in b.applied && e.payload == TradeExecuted(t)
    ensures Applies(b, e) <==> Fair(b, t)
    ensures Applies(b, e) ==>
              Apply(b, e).orders ==
              b.orders[t.makerOrderId := Traded(b.orders[t.makerOrderId], t.quantity)]
                      [t.takerOrderId := Traded(b.orders[t.takerOrderId], t.quantity)]
  {
    if Fair(b, t) {
      FairIsAccepted(b, t);
    }
    if Applies(b, e) {
      AcceptedIsFair(b, t);
      assert OrderOk(b, t.makerOrderId) && OrderOk(b, t.takerOrderId);
      ReduceOrder(b, t.makerOrderId, t.quantity);
      ReduceOrder(Reduce(b, t.makerOrderId, t.quantity), t.takerOrderId, t.quantity);
    }
  }

  // ----- closing, and what every accepted event records -----

  /** A cancel or expiry event is accepted exactly for an open order, releasing all that is left of it. */
  lemma CloseAcceptedExactly(b: Book, e: EngineEvent, id: OrderId, released: Quantity)
    requires e.eventId !in b.applied
    requires e.payload == OrderCancelled(id, released) || e.payload == OrderExpired(id, released)
    ensures Applies(b, e) <==> Resting(b, id) && released == b.orders[id].remaining
    ensures Applies(b, e) ==>
              Apply(b, e).orders == b.orders[
                id := b.orders[id].(remaining := 0, status := if e.payload.OrderCancelled? then Cancelled else Expired)]
  {
  }

  ghost predicate SameMarks(b: Book, c: Book) {
    c.market == b.market && c.applied == b.applied && c.processed == b.processed && c.lastSequence == b.lastSequence
  }

  lemma SettleMarks(b: Book, id: OrderId, remaining: Quantity, status: OrderStatus)
    requires id in b.orders
    ensures SameMarks(b, Settle(b, id, remaining, status))
    ensures Settle(b, id, remaining, status).orders.Keys == b.orders.Keys
  {
  }

  lemma EffectMarks(b: Book, payload: MatchingEvent)
    requires EventError(b, payload).None?
    ensures SameMarks(b, Effect(b, payload))
  {
    match payload
    case OrderAccepted(_, _) =>
    case TradeExecuted(t) =>
      var o := b.orders[t.makerOrderId];
      SettleMarks(b, t.makerOrderId, o.remaining - t.quantity, StatusAfter(o, o.remaining - t.quantity));
      var c := Reduce(b, t.makerOrderId, t.quantity);
      var p := c.orders[t.takerOrderId];
      SettleMarks(c, t.takerOrderId, p.remaining - t.quantity, StatusAfter(p, p.remaining - t.quantity));
    case OrderCancelled(id, _) => SettleMarks(b, id, 0, Cancelled);
    case OrderExpired(id, _) => SettleMarks(b, id, 0, Expired);
  }

  /** An accepted event is remembered, its command counts as processed, and the sequence never falls. */
  lemma EventRecorded(b: Book, e: EngineEvent)
    ensures e.eventId in b.applied ==> ApplyOutcome(b, e) == Ok(false) && Apply(b, e) == b
    ensures ApplyOutcome(b, e).Err? ==> Apply(b, e) == b
    ensures Applies(b, e) ==>
              && Apply(b, e).market == b.market
              && Apply(b, e).applied == b.applied + {e.eventId}
              && Apply(b, e).processed == b.processed + {e.causationId}
              && Apply(b, e).lastSequence >= b.lastSequence && Apply(b, e).lastSequence >= e.commandSequence
              && Apply(b, e).lastSequence in {b.lastSequence, e.commandSequence}
  {
    if Applies(b, e) {
      EffectMarks(b, e.payload);
    }
  }

  // ----- commands -----

  /** When a placement is granted: a new order as above, not yet past its time, with few enough fills to number. */
  ghost predicate MayPlace(b: Book, command: EngineCommand, intent: OrderIntent) {
    && Placeable(b, intent)
    && (intent.expiresAt.Some? ==> command.occurredAt < intent.expiresAt.value)
    && |Greedy(b, Makers(b, intent), intent.quantity)| <= U32_MAX
  }

  /** When a command is granted at all. */
  ghost predicate Granted(b: Book, command: EngineCommand) {
    match command.kind
    case PlaceLimitOrder(intent) => MayPlace(b, command, intent)
    case CancelOrder(id) => MayClose(b, command, id)
    case ExpireOrder(id) => MayClose(b, command, id)
  }

  predicate OtherScope(a: OrderIntent, b: OrderIntent) {
    a.tenantId != b.tenantId || a.domainId != b.domainId
  }

  /** Why a placement is refused: the first of these that applies. */
  ghost function Refusal(b: Book, command: EngineCommand, intent: OrderIntent): EngineError {
    if intent.marketId != b.market then MarketMismatch(b.market, intent.marketId)
    else if exists id :: id in b.orders && OtherScope(b.orders[id].intent, intent) then EventInvariant(ScopeMismatch)
    else if intent.orderId in b.orders then OrderAlreadyExists(intent.orderId)
    else if intent.quantity == 0 then NumericFailure(NonPositiveQuantity)
    else if intent.expiresAt.Some? && intent.expiresAt.value <= command.occurredAt
    then OrderExpiredAtAdmission(intent.orderId)
    else EventInvariant(TradeOrdinalOverflow)
  }

  /** A command is decided exactly when it is granted; otherwise it is refused for the reason given. */
  lemma DecideExactly(b: Book, command: EngineCommand)
    ensures Decide(b, command).Ok? <==> Granted(b, command)
    ensures command.kind.PlaceLimitOrder? && !Granted(b, command) ==>
              Decide(b, command) == Err(Refusal(b, command, command.kind.intent))
    ensures !command.kind.PlaceLimitOrder? && !Granted(b, command) ==>
              var id := command.kind.orderId;
              && (id !in b.orders ==> Decide(b, command) == Err(OrderNotFound(id)))
              && (id in b.orders && !Resting(b, id) ==>
                    Decide(b, command) == Err(OrderNotOpen(id, b.orders[id].status)))
              && (Resting(b, id) ==> Decide(b, command) == Err(OrderNotExpired(id)))
  {
    if command.kind.PlaceLimitOrder? {
      PlaceableExactly(b, command.kind.intent);
    }
  }

  /** The events of a granted command are numbered from 0 and carry its identity, sequence and time. */
  lemma DecisionNumbered(b: Book, command: EngineCommand)
    requires Decide(b, command).Ok?
    ensures Decide(b, command).value != []
    ensures forall i :: 0 <= i < |Decide(b, command).value| ==> Numbered(command, i, Decide(b, command).value[i])
  {
    match command.kind
    case PlaceLimitOrder(intent) =>
      var fills := Fills(b, intent);
      TradeEventsAt(command, intent, fills, 1);
      var events := Decide(b, command).value;
      forall i | 0 <= i < |events| ensures Numbered(command, i, events[i]) {
        assert i > 0 ==> events[i] == TradeEvent(command, i, intent, fills[i - 1]);
      }
    case CancelOrder(_) =>
    case ExpireOrder(_) =>
  }

  lemma {:induction false} ReplayRecords(b: Book, command: EngineCommand, events: seq<EngineEvent>)
    requires AllApply(b, events) && events != []
    requires forall i :: 0 <= i < |events| ==> events[i].causationId == command.commandId
    requires forall i :: 0 <= i < |events| ==> events[i].commandSequence == command.shardSequence
    requires b.lastSequence <= command.shardSequence
    ensures Replay(b, events).lastSequence == command.shardSequence
    ensures Replay(b, events).processed == b.processed + {command.commandId}
    decreases |events|
  {
    EventRecorded(b, events[0]);
    var c := Apply(b, events[0]);
    if |events| == 1 {
      assert events[1..] == [];
      assert Replay(c, []) == c;
    } else {
      ReplayRecords(c, command, events[1..]);
    }
  }

  /**
   * What a live book answers to a command, whatever it is. A command seen before answers nothing and
   * changes nothing. Otherwise it must be the next of the shard and be granted; its events are then
   * numbered, the shard moves on by one and the command is remembered. Any other is refused.
   */
  lemma ProcessExactly(b: Book, command: EngineCommand)
    requires LogInv(b)
    ensures command.commandId in b.processed ==> ProcessOutcome(b, command) == Ok([]) && Process(b, command) == b
    ensures command.commandId !in b.processed ==>
              (ProcessOutcome(b, command).Ok? <==>
               && b.lastSequence < U64_MAX && command.shardSequence == b.lastSequence + 1 && Granted(b, command))
    ensures command.commandId !in b.processed
            && b.lastSequence < U64_MAX && command.shardSequence != b.lastSequence + 1 ==>
              ProcessOutcome(b, command) == Err(CommandSequenceGap(b.lastSequence + 1, command.shardSequence))
    ensures command.commandId !in b.processed && ProcessOutcome(b, command).Ok? ==>
              var events, after := ProcessOutcome(b, command).value, Process(b, command);
              && events != [] && (forall i :: 0 <= i < |events| ==> Numbered(command, i, events[i]))
              && after.lastSequence == b.lastSequence + 1
              && after.processed == b.processed + {command.commandId}
  {
    ProcessAllOrNothing(b, command);
    DecideExactly(b, command);
    if command.commandId in b.processed {
      assert Replay(b, []) == b;
    } else if ProcessOutcome(b, command).Ok? {
      var events := Decide(b, command).value;
      DecisionNumbered(b, command);
      SoundApplies(b, events);
      ReplayRecords(b, command, events);
    }
  }

  /** The shard sequence of a live book is the number of commands it has granted. */
  lemma {:induction false} SequenceCounts(market: MarketId, commands: seq<EngineCommand>)
    ensures LiveBook(market, commands).lastSequence == |LiveBook(market, commands).processed|
    decreases |commands|
  {
    if commands != [] {
      var before, command := commands[..|commands| - 1], commands[|commands| - 1];
      SequenceCounts(market, before);
      RunsAreSafe(market, before);
      ProcessExactly(LiveBook(market, before), command);
      ProcessAllOrNothing(LiveBook(market, before), command);
    }
  }
}
