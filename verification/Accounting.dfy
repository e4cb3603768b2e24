/** Conservation of quantity over event logs, and the reservations that fund them. */
module Accounting {
  import opened Wrappers
  import opened Numeric
  import Histories
  import opened Domain
  import opened BookState
  import opened Matching
  import PriceTime
  import opened EngineRuns
  import opened LiveRuns

  // ----- conservation -----

  function TradedIn(payload: MatchingEvent, id: OrderId): nat {
    match payload
    case TradeExecuted(t) => if t.makerOrderId == id || t.takerOrderId == id then t.quantity else 0
    case _ => 0
  }

  function ReleasedIn(payload: MatchingEvent, id: OrderId): nat {
    match payload
    case OrderCancelled(x, released) => if x == id then released else 0
    case OrderExpired(x, released) => if x == id then released else 0
    case _ => 0
  }

  function Traded(log: seq<EngineEvent>, id: OrderId): nat {
    if log == [] then 0 else Traded(log[..|log| - 1], id) + TradedIn(log[|log| - 1].payload, id)
  }

  function Released(log: seq<EngineEvent>, id: OrderId): nat {
    if log == [] then 0 else Released(log[..|log| - 1], id) + ReleasedIn(log[|log| - 1].payload, id)
  }

  function SpentIn(payload: MatchingEvent, id: OrderId): nat {
    match payload
    case TradeExecuted(t) => if t.buyOrderId == id then t.price * t.quantity else 0
    case _ => 0
  }

  /** What one accepted event does to the order `id`, said without the book. */
  ghost predicate Conserves(before: map<OrderId, OrderView>, after: map<OrderId, OrderView>,
                            payload: MatchingEvent, id: OrderId) {
    if id in before then
      && id in after
      && after[id].intent == before[id].intent
      && after[id].remaining + TradedIn(payload, id) + ReleasedIn(payload, id) == before[id].remaining
      && (before[id].intent.side.Buy? ==> SpentIn(payload, id) <= before[id].intent.price * TradedIn(payload, id))
    else
      && TradedIn(payload, id) == 0 && ReleasedIn(payload, id) == 0 && SpentIn(payload, id) == 0
      && (id in after ==> payload.OrderAccepted? && after[id].intent == payload.intent
                          && after[id].remaining == payload.intent.quantity)
  }

  lemma MulMonotone(a: nat, b: nat, c: nat, d: nat)
    requires a <= c && b <= d
    ensures a * b <= c * d
  {
    assert a * b <= c * b <= c * d;
  }

  lemma BuyerLimit(b: Book, t: Trade)
    requires TradeError(b, t).None?
    ensures t.buyOrderId in b.orders && b.orders[t.buyOrderId].intent.side.Buy?
    ensures t.buyOrderId == t.makerOrderId || t.buyOrderId == t.takerOrderId
    ensures t.price <= b.orders[t.buyOrderId].intent.price && t.quantity <= b.orders[t.buyOrderId].remaining
  {
  }

  lemma StepConserves(b: Book, e: EngineEvent, id: OrderId)
    requires Applies(b, e)
    ensures Conserves(b.orders, Apply(b, e).orders, e.payload, id)
  {
    if e.payload.TradeExecuted? {
      var t := e.payload.trade;
      BuyerLimit(b, t);
      if t.buyOrderId == id {
        MulMonotone(t.price, t.quantity, b.orders[id].intent.price, t.quantity);
      }
    }
  }

  lemma LastApplies(b: Book, log: seq<EngineEvent>) returns (before: Book, e: EngineEvent)
    requires log != [] && AllApply(b, log)
    ensures before == Replay(b, log[..|log| - 1]) && e == log[|log| - 1]
    ensures AllApply(b, log[..|log| - 1])
    ensures Applies(before, e) && Replay(b, log) == Apply(before, e)
  {
    var n := |log| - 1;
    before, e := Replay(b, log[..n]), log[n];
    ReplayLast(b, log);
    assert log == log[..n] + [e];
    Histories.ThroughoutConcat(Apply, Applies, _ => true, b, log[..n], [e]);
  }

  lemma LastConserves(market: MarketId, log: seq<EngineEvent>, id: OrderId)
    returns (before: map<OrderId, OrderView>, after: map<OrderId, OrderView>)
    requires log != [] && AllApply(NewBook(market), log)
    ensures AllApply(NewBook(market), log[..|log| - 1])
    ensures before == Replay(NewBook(market), log[..|log| - 1]).orders
    ensures after == Replay(NewBook(market), log).orders
    ensures Conserves(before, after, log[|log| - 1].payload, id)
  {
    var b, e := LastApplies(NewBook(market), log);
    StepConserves(b, e, id);
    before, after := b.orders, Apply(b, e).orders;
  }

  /** Whatever log a fresh book accepted: each order's quantity is what remains, was traded or was released. */
  lemma {:induction false} Conservation(market: MarketId, log: seq<EngineEvent>, id: OrderId)
    requires AllApply(NewBook(market), log)
    ensures var orders := Replay(NewBook(market), log).orders;
            if id in orders then
              orders[id].intent.quantity == orders[id].remaining + Traded(log, id) + Released(log, id)
            else Traded(log, id) == 0 && Released(log, id) == 0
    decreases |log|
  {
    if log != [] {
      var before, after := LastConserves(market, log, id);
      Conservation(market, log[..|log| - 1], id);
    }
  }

  lemma TradeAt(market: MarketId, log: seq<EngineEvent>, k: nat) returns (b: Book)
    requires AllApply(NewBook(market), log) && k < |log| && log[k].payload.TradeExecuted?
    ensures b == Replay(NewBook(market), log[..k]) && AllApply(NewBook(market), log[..k])
    ensures TradeError(b, log[k].payload.trade).None?
  {
    var prefix := log[..k + 1];
    assert log == prefix + log[k + 1..];
    Histories.ThroughoutConcat(Apply, Applies, _ => true, NewBook(market), prefix, log[k + 1..]);
    assert prefix[..|prefix| - 1] == log[..k];
    var before, e := LastApplies(NewBook(market), prefix);
    b := before;
  }

  /** No trade of an accepted log takes more than either side has left. */
  lemma NoOverfill(market: MarketId, log: seq<EngineEvent>, k: nat)
    requires AllApply(NewBook(market), log) && k < |log| && log[k].payload.TradeExecuted?
    ensures var b, t := Replay(NewBook(market), log[..k]), log[k].payload.trade;
            && t.makerOrderId in b.orders && 0 < t.quantity <= b.orders[t.makerOrderId].remaining
            && t.takerOrderId in b.orders && t.quantity <= b.orders[t.takerOrderId].remaining
  {
    var b := TradeAt(market, log, k);
  }

  // ----- admission -----

  datatype ApplicationError = Validation(reason: ValidationReason)
  datatype ValidationReason = NotAnInteger | Numeric(error: NumericError) | ExpiryNotLater

  /** The order request, with its two numbers as their parse found them. */
  datatype PlaceOrderCommand = PlaceOrderCommand(
    orderId: OrderId, tenantId: TenantId, domainId: DomainId, marketId: MarketId, side: OrderSide,
    price: Option<Amount>, quantity: Option<Amount>, submittedAt: Timestamp, expiresAt: Option<Timestamp>)

  datatype SubmitOrder = SubmitOrder(intent: OrderIntent, reservationAmount: Quantity)

  function ReservationAmount(side: OrderSide, price: Price, quantity: Quantity): Result<Quantity, ApplicationError> {
    match side
    case Sell => Ok(quantity)
    case Buy =>
      match CheckedMul(price, quantity)
      case Err(e) => Err(Validation(Numeric(e)))
      case Ok(gross) =>
        match NewQuantity(gross)
        case Err(e) => Err(Validation(Numeric(e)))
        case Ok(reserved) => Ok(reserved)
  }

  function ParsePrice(value: Option<Amount>): Result<Price, ApplicationError> {
    match value
    case None => Err(Validation(NotAnInteger))
    case Some(raw) =>
      match NewPrice(raw)
      case Err(e) => Err(Validation(Numeric(e)))
      case Ok(price) => Ok(price)
  }

  function ParseQuantity(value: Option<Amount>): Result<Quantity, ApplicationError> {
    match value
    case None => Err(Validation(NotAnInteger))
    case Some(raw) =>
      match NewQuantity(raw)
      case Err(e) => Err(Validation(Numeric(e)))
      case Ok(quantity) => Ok(quantity)
  }

  function PlaceOrder(c: PlaceOrderCommand): Result<SubmitOrder, ApplicationError> {
    match ParsePrice(c.price)
    case Err(e) => Err(e)
    case Ok(price) =>
      match ParseQuantity(c.quantity)
      case Err(e) => Err(e)
      case Ok(quantity) =>
        match ReservationAmount(c.side, price, quantity)
        case Err(e) => Err(e)
        case Ok(reserved) =>
          if c.expiresAt.Some? && c.expiresAt.value <= c.submittedAt then Err(Validation(ExpiryNotLater))
          else Ok(SubmitOrder(OrderIntent(c.orderId, c.tenantId, c.domainId, c.marketId, c.side, price, quantity,
                                          c.submittedAt, c.expiresAt), reserved))
  }

  /** What an order may cost in the worst case, in the unit its side reserves. */
  function WorstCase(intent: OrderIntent): int {
    match intent.side
    case Buy => intent.price * intent.quantity
    case Sell => intent.quantity
  }

  /** The order's worst case fits the ledger. */
  predicate Funded(intent: OrderIntent) {
    WorstCase(intent) <= I128_MAX
  }

  /** The order asks for exactly what the request says. */
  predicate Submits(c: PlaceOrderCommand, intent: OrderIntent) {
    && intent.orderId == c.orderId && intent.tenantId == c.tenantId && intent.domainId == c.domainId
    && intent.marketId == c.marketId && intent.side == c.side
    && Some(intent.price) == c.price && Some(intent.quantity) == c.quantity
    && intent.submittedAt == c.submittedAt && intent.expiresAt == c.expiresAt
  }

  /**
   * Admission submits exactly the order requested and reserves exactly its worst case, and refuses a
   * request exactly when that, or the order itself, is unsound.
   */
  lemma AdmissionReserves(c: PlaceOrderCommand)
    ensures PlaceOrder(c).Ok? <==>
            && c.price.Some? && c.price.value > 0
            && c.quantity.Some? && c.quantity.value > 0
            && (c.side.Buy? ==> c.price.value * c.quantity.value <= I128_MAX)
            && (c.expiresAt.Some? ==> c.expiresAt.value > c.submittedAt)
    ensures PlaceOrder(c).Ok? ==>
              var submit := PlaceOrder(c).value;
              && Funded(submit.intent)
              && submit.reservationAmount == WorstCase(submit.intent) && submit.reservationAmount > 0
              && submit.reservationAmount ==
                 (if c.side.Buy? then c.price.value * c.quantity.value else c.quantity.value)
              && Submits(c, submit.intent)
  {
    if c.price.Some? && c.price.value > 0 && c.quantity.Some? && c.quantity.value > 0 {
      assert c.price.value * c.quantity.value > 0;
    }
  }

  // ----- spending -----

  function Spent(log: seq<EngineEvent>, id: OrderId): nat {
    if log == [] then 0 else Spent(log[..|log| - 1], id) + SpentIn(log[|log| - 1].payload, id)
  }

  lemma SpendMore(price: nat, spent: nat, traded: nat, more: nat, quantity: nat)
    requires spent <= price * traded && more <= price * quantity
    ensures spent + more <= price * (traded + quantity)
  {
  }

  /** A buyer never pays more than its limit for what it traded. */
  lemma {:induction false} SpendingBounded(market: MarketId, log: seq<EngineEvent>, id: OrderId)
    requires AllApply(NewBook(market), log)
    ensures var orders := Replay(NewBook(market), log).orders;
            if id in orders then
              orders[id].intent.side.Buy? ==> Spent(log, id) <= orders[id].intent.price * Traded(log, id)
            else Spent(log, id) == 0
    decreases |log|
  {
    if log != [] {
      var before, after := LastConserves(market, log, id);
      var rest, payload := log[..|log| - 1], log[|log| - 1].payload;
      SpendingBounded(market, rest, id);
      if id in before && before[id].intent.side.Buy? {
        SpendMore(before[id].intent.price, Spent(rest, id), Traded(rest, id),
                  SpentIn(payload, id), TradedIn(payload, id));
      }
    }
  }

  // ----- admitted orders -----

  /** Admission accepted this request and submitted this order. */
  predicate AdmittedBy(c: PlaceOrderCommand, intent: OrderIntent) {
    PlaceOrder(c).Ok? && PlaceOrder(c).value.intent == intent
  }

  ghost predicate Admitted(intent: OrderIntent) {
    exists c :: AdmittedBy(c, intent)
  }

  lemma AdmittedFunded(intent: OrderIntent)
    requires Admitted(intent)
    ensures Funded(intent) && 0 < intent.quantity
    ensures forall c :: AdmittedBy(c, intent) ==> PlaceOrder(c).value.reservationAmount == WorstCase(intent)
  {
    forall c | AdmittedBy(c, intent)
      ensures Funded(intent) && 0 < intent.quantity && PlaceOrder(c).value.reservationAmount == WorstCase(intent)
    {
      AdmissionReserves(c);
    }
  }

  /** Every order accepted into the log came through admission. */
  ghost predicate LogAdmitted(log: seq<EngineEvent>) {
    forall k :: 0 <= k < |log| && log[k].payload.OrderAccepted? ==> Admitted(log[k].payload.intent)
  }

  lemma {:induction false} BookAdmitted(market: MarketId, log: seq<EngineEvent>, id: OrderId)
    requires AllApply(NewBook(market), log) && LogAdmitted(log)
    ensures var orders := Replay(NewBook(market), log).orders;
            id in orders ==> Admitted(orders[id].intent)
    decreases |log|
  {
    if log != [] {
      var before, after := LastConserves(market, log, id);
      BookAdmitted(market, log[..|log| - 1], id);
    }
  }

  /** The account of one order against what its admission reserved. */
  ghost predicate Covered(o: OrderView, reserved: Quantity, spent: nat, traded: nat, released: nat) {
    && (o.intent.side.Buy? ==> spent + o.intent.price * (o.remaining + released) <= reserved)
    && (o.intent.side.Sell? ==> traded + o.remaining + released == reserved)
  }

  /** The account holds for the reservation of any request that admits the order. */
  ghost predicate Reserved(o: OrderView, spent: nat, traded: nat, released: nat) {
    && Admitted(o.intent)
    && forall c :: AdmittedBy(c, o.intent) ==>
         Covered(o, PlaceOrder(c).value.reservationAmount, spent, traded, released)
  }

  lemma CoveredByConservation(o: OrderView, spent: nat, traded: nat, released: nat)
    requires o.intent.quantity == o.remaining + traded + released
    requires o.intent.side.Buy? ==> spent <= o.intent.price * traded
    requires Admitted(o.intent)
    ensures Reserved(o, spent, traded, released)
  {
    var p := o.intent.price;
    assert p * o.intent.quantity == p * traded + p * (o.remaining + released);
    AdmittedFunded(o.intent);
  }

  /**
   * Reservations always suffice: at any point of an accepted log of admitted orders, what a buy has
   * spent plus its limit times what is left or released is within what admission reserved for it, and
   * a sell's fills, remainder and releases add up to what it reserved.
   */
  lemma ReservationsSuffice(market: MarketId, log: seq<EngineEvent>, id: OrderId)
    requires AllApply(NewBook(market), log) && LogAdmitted(log)
    requires id in Replay(NewBook(market), log).orders
    ensures Reserved(Replay(NewBook(market), log).orders[id], Spent(log, id), Traded(log, id), Released(log, id))
  {
    Conservation(market, log, id);
    SpendingBounded(market, log, id);
    BookAdmitted(market, log, id);
    CoveredByConservation(Replay(NewBook(market), log).orders[id], Spent(log, id), Traded(log, id), Released(log, id));
  }

  lemma ValueFits(price: Price, quantity: Quantity, intent: OrderIntent)
    requires intent.side.Buy? && Funded(intent)
    requires price <= intent.price && quantity <= intent.quantity
    ensures CheckedMul(price, quantity).Ok?
  {
    MulMonotone(price, quantity, intent.price, intent.quantity);
  }

  /** Every trade's value fits the ledger's `i128`. */
  lemma TradeValueFits(market: MarketId, log: seq<EngineEvent>, k: nat)
    requires AllApply(NewBook(market), log) && LogAdmitted(log)
    requires k < |log| && log[k].payload.TradeExecuted?
    ensures CheckedMul(log[k].payload.trade.price, log[k].payload.trade.quantity).Ok?
  {
    var t := log[k].payload.trade;
    var b := TradeAt(market, log, k);
    BuyerLimit(b, t);
    Conservation(market, log[..k], t.buyOrderId);
    BookAdmitted(market, log[..k], t.buyOrderId);
    AdmittedFunded(b.orders[t.buyOrderId].intent);
    ValueFits(t.price, t.quantity, b.orders[t.buyOrderId].intent);
  }

  // ----- live runs -----

  /** Every order the run places came through admission. */
  ghost predicate AllAdmitted(commands: seq<EngineCommand>) {
    forall k :: 0 <= k < |commands| && commands[k].kind.PlaceLimitOrder? ==> Admitted(commands[k].kind.intent)
  }

  lemma DecisionAdmitted(b: Book, command: EngineCommand)
    requires command.kind.PlaceLimitOrder? ==> Admitted(command.kind.intent)
    ensures Decision(b, command).Ok? ==> LogAdmitted(Decision(b, command).value)
  {
    if Decision(b, command).Ok? && command.commandId !in b.processed && command.kind.PlaceLimitOrder? {
      PriceTime.TradeEventsAt(command, command.kind.intent, Fills(b, command.kind.intent), 1);
    }
  }

  lemma {:induction false} LiveAdmitted(market: MarketId, commands: seq<EngineCommand>)
    requires AllAdmitted(commands)
    ensures LogAdmitted(LiveLog(market, commands))
    decreases |commands|
  {
    if commands != [] {
      var n := |commands| - 1;
      LiveAdmitted(market, commands[..n]);
      DecisionAdmitted(LiveBook(market, commands[..n]), commands[n]);
    }
  }

  /**
   * Over any run whose orders came through admission: each order is conserved, its account stays within
   * the amount its admission reserved, and the value of every trade fits the ledger.
   */
  lemma LiveReservationsSuffice(market: MarketId, commands: seq<EngineCommand>, id: OrderId)
    requires AllAdmitted(commands)
    ensures id in LiveBook(market, commands).orders ==>
              var log, o := LiveLog(market, commands), LiveBook(market, commands).orders[id];
              && o.intent.quantity == o.remaining + Traded(log, id) + Released(log, id)
              && Reserved(o, Spent(log, id), Traded(log, id), Released(log, id))
    ensures forall k :: 0 <= k < |LiveLog(market, commands)| && LiveLog(market, commands)[k].payload.TradeExecuted? ==>
              var t := LiveLog(market, commands)[k].payload.trade;
              CheckedMul(t.price, t.quantity) == Ok(t.price * t.quantity)
  {
    var log := LiveLog(market, commands);
    LogApplies(market, commands);
    LogReplays(market, commands);
    LiveAdmitted(market, commands);
    if id in LiveBook(market, commands).orders {
      Conservation(market, log, id);
      ReservationsSuffice(market, log, id);
    }
    forall k | 0 <= k < |log| && log[k].payload.TradeExecuted?
      ensures CheckedMul(log[k].payload.trade.price, log[k].payload.trade.quantity).Ok?
    {
      TradeValueFits(market, log, k);
    }
  }
}
