/**
 * Deciding a command against a book. The crossing makers are walked level by level through the
 * queues; the theorem here is that this walk is price-time priority over the order table.
 */
module Matching {
  import opened Wrappers
  import opened Numeric
  import opened Sorting
  import opened Domain
  import opened BookState
  import opened BookInvariants

  // ----- walking the queues -----

  /** Whether a maker at `p` on side `side` is served before one at `q`. */
  predicate Better(side: OrderSide, p: Price, q: Price) {
    match side
    case Sell => p < q
    case Buy => p > q
  }

  ghost predicate IsBest(side: OrderSide, p: Price, prices: set<Price>) {
    p in prices && forall q :: q in prices ==> q == p || Better(side, p, q)
  }

  lemma {:induction false} FindBest(side: OrderSide, prices: set<Price>) returns (p: Price)
    requires prices != {}
    ensures IsBest(side, p, prices)
  {
    var x :| x in prices;
    var rest := prices - {x};
    assert forall q :: q in prices ==> q == x || q in rest;
    p := x;
    if rest != {} {
      var y := FindBest(side, rest);
      if Better(side, y, x) { p := y; }
    }
  }

  function Best(side: OrderSide, prices: set<Price>): (p: Price)
    requires prices != {}
    ensures IsBest(side, p, prices)
  {
    assert exists p :: IsBest(side, p, prices) by { var p := FindBest(side, prices); }
    var p :| p in prices && forall q :: q in prices ==> q == p || Better(side, p, q);
    p
  }

  /** The iteration order of one side of the book. */
  function BestFirst(side: OrderSide, prices: set<Price>): seq<Price> {
    if prices == {} then []
    else var p := Best(side, prices); [p] + BestFirst(side, prices - {p})
  }

  function Flatten(levels: Levels, prices: seq<Price>): seq<OrderId> {
    if prices == [] then [] else Queue(levels, prices[0]) + Flatten(levels, prices[1..])
  }

  function CrossingPrices(b: Book, taker: OrderIntent): set<Price> {
    set p | p in b.Side(taker.side.Opposite()) && taker.Crosses(p)
  }

  /** The makers a taker meets, in the order it meets them. */
  function Makers(b: Book, taker: OrderIntent): seq<OrderId> {
    var side := taker.side.Opposite();
    Flatten(b.Side(side), BestFirst(side, CrossingPrices(b, taker)))
  }

  // ----- filling -----

  datatype Fill = Fill(maker: OrderId, price: Price, quantity: Quantity)

  function Left(b: Book, id: OrderId): Quantity {
    if id in b.orders then b.orders[id].remaining else 0
  }

  function PriceOf(b: Book, id: OrderId): Price {
    if id in b.orders then b.orders[id].intent.price else 1
  }

  /** Take from each maker in turn until nothing more is wanted. */
  function Greedy(b: Book, makers: seq<OrderId>, want: Quantity): seq<Fill>
    decreases |makers|
  {
    if makers == [] || want == 0 then []
    else
      var q := Min(want, Left(b, makers[0]));
      [Fill(makers[0], PriceOf(b, makers[0]), q)] + Greedy(b, makers[1..], want - q)
  }

  // ----- events -----

  function EventOf(command: EngineCommand, ordinal: nat, payload: MatchingEvent): EngineEvent {
    EngineEvent(Derived(command.commandId, ordinal), command.commandId, command.shardSequence,
                command.occurredAt, payload)
  }

  function TradeEvent(command: EngineCommand, ordinal: nat, taker: OrderIntent, fill: Fill): EngineEvent {
    EventOf(command, ordinal, TradeExecuted(Trade(
      TradeOf(command.commandId, ordinal),
      taker.tenantId, taker.domainId, taker.marketId, fill.maker, taker.orderId,
      if taker.side.Buy? then taker.orderId else fill.maker,
      if taker.side.Buy? then fill.maker else taker.orderId,
      fill.price, fill.quantity, command.occurredAt)))
  }

  /** The trade events for a list of fills, numbered from `ordinal`. */
  function TradeEvents(command: EngineCommand, taker: OrderIntent, fills: seq<Fill>, ordinal: nat): seq<EngineEvent>
    decreases |fills|
  {
    if fills == [] then []
    else [TradeEvent(command, ordinal, taker, fills[0])] + TradeEvents(command, taker, fills[1..], ordinal + 1)
  }

  // ----- decisions -----

  function IntentError(b: Book, command: EngineCommand, intent: OrderIntent): Option<EngineError> {
    var e := AcceptError(b, intent);
    if e.Some? then e
    else if intent.ExpiredAt(command.occurredAt) then Some(OrderExpiredAtAdmission(intent.orderId))
    else None
  }

  function Fills(b: Book, intent: OrderIntent): seq<Fill> {
    Greedy(b, Makers(b, intent), intent.quantity)
  }

  lemma {:induction false} FlattenMember(levels: Levels, prices: seq<Price>, i: int) returns (k: nat)
    requires 0 <= i < |Flatten(levels, prices)|
    ensures k < |prices| && Flatten(levels, prices)[i] in Queue(levels, prices[k])
    decreases |prices|
  {
    var n := |Queue(levels, prices[0])|;
    if i < n {
      k := 0;
    } else {
      var j := FlattenMember(levels, prices[1..], i - n);
      k := j + 1;
    }
  }

  lemma {:induction false} BestFirstSorted(side: OrderSide, prices: set<Price>)
    ensures Sorted((p: Price, q: Price) => Better(side, p, q), BestFirst(side, prices))
    ensures forall p :: p in BestFirst(side, prices) <==> p in prices
  {
    if prices != {} {
      var p := Best(side, prices);
      BestFirstSorted(side, prices - {p});
      var rest := BestFirst(side, prices - {p});
      forall k | 0 <= k < |rest| ensures Better(side, p, rest[k]) {
        assert rest[k] in rest;
      }
    }
  }

  /** Every maker met is an open, crossing order of the other side. */
  lemma MakersRest(b: Book, taker: OrderIntent, i: int)
    requires IndexInv(b) && 0 <= i < |Makers(b, taker)|
    ensures var id := Makers(b, taker)[i];
            id in b.orders && Rests(b, id, taker.side.Opposite(), b.orders[id].intent.price)
            && taker.Crosses(b.orders[id].intent.price)
  {
    var side := taker.side.Opposite();
    var prices := BestFirst(side, CrossingPrices(b, taker));
    var k := FlattenMember(b.Side(side), prices, i);
    BestFirstSorted(side, CrossingPrices(b, taker));
    assert prices[k] in prices;
    assert LevelOk(b, side, prices[k]);
    var queue := b.Side(side)[prices[k]];
    var m :| 0 <= m < |queue| && queue[m] == Makers(b, taker)[i];
    assert Rests(b, queue[m], side, prices[k]);
  }

  function DecidePlace(b: Book, command: EngineCommand, intent: OrderIntent): Result<seq<EngineEvent>, EngineError> {
    var error := IntentError(b, command, intent);
    if error.Some? then Err(error.value)
    else if |Fills(b, intent)| > U32_MAX then Err(EventInvariant(TradeOrdinalOverflow))
    else Ok([EventOf(command, 0, OrderAccepted(intent, command.shardSequence))]
            + TradeEvents(command, intent, Fills(b, intent), 1))
  }

  function DecideCancel(b: Book, command: EngineCommand, id: OrderId): Result<seq<EngineEvent>, EngineError> {
    match OpenOrder(b, id)
    case Err(e) => Err(e)
    case Ok(o) => Ok([EventOf(command, 0, OrderCancelled(id, o.remaining))])
  }

  function DecideExpire(b: Book, command: EngineCommand, id: OrderId): Result<seq<EngineEvent>, EngineError> {
    match OpenOrder(b, id)
    case Err(e) => Err(e)
    case Ok(o) =>
      if !o.intent.ExpiredAt(command.occurredAt) then Err(OrderNotExpired(id))
      else Ok([EventOf(command, 0, OrderExpired(id, o.remaining))])
  }

  function Decide(b: Book, command: EngineCommand): Result<seq<EngineEvent>, EngineError> {
    match command.kind
    case PlaceLimitOrder(intent) => DecidePlace(b, command, intent)
    case CancelOrder(id) => DecideCancel(b, command, id)
    case ExpireOrder(id) => DecideExpire(b, command, id)
  }
}
