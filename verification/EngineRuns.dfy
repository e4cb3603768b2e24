/**
 * Processing commands. A decision is made against one book and then applied event by event; these
 * lemmas show that in every reachable state all of its events are accepted, so that processing is
 * all or nothing, and that the book is uncrossed again after each command.
 */
module EngineRuns {
  import opened Wrappers
  import opened Numeric
  import opened Sorting
  import opened Histories
  import opened Domain
  import opened BookState
  import opened BookInvariants
  import opened Matching
  import opened PriceTime

  // ----- process -----

  /** Applies events until one is refused, as the engine's loop does; the second part is that refusal. */
  function Drain(b: Book, events: seq<EngineEvent>): (Book, Option<EngineError>)
    decreases |events|
  {
    if events == [] then (b, None)
    else
      match ApplyOutcome(b, events[0])
      case Err(error) => (b, Some(error))
      case Ok(applied) =>
        if !applied then (b, Some(EventInvariant(EventAlreadyApplied(events[0].eventId))))
        else Drain(Apply(b, events[0]), events[1..])
  }

  function Decision(b: Book, command: EngineCommand): Result<seq<EngineEvent>, EngineError> {
    if command.commandId in b.processed then Ok([])
    else if b.lastSequence == U64_MAX then Err(EventInvariant(CommandSequenceOverflow))
    else if command.shardSequence != b.lastSequence + 1 then
      Err(CommandSequenceGap(b.lastSequence + 1, command.shardSequence))
    else Decide(b, command)
  }

  function ProcessOutcome(b: Book, command: EngineCommand): Result<seq<EngineEvent>, EngineError> {
    match Decision(b, command)
    case Err(error) => Err(error)
    case Ok(events) =>
      match Drain(b, events).1
      case Some(error) => Err(error)
      case None => Ok(events)
  }

  function Process(b: Book, command: EngineCommand): Book {
    match Decision(b, command)
    case Err(_) => b
    case Ok(events) => Drain(b, events).0
  }

  lemma {:induction false} DrainAll(b: Book, events: seq<EngineEvent>)
    requires AllApply(b, events)
    ensures Drain(b, events) == (Replay(b, events), None)
    decreases |events|
  {
    if events != [] {
      DrainAll(Apply(b, events[0]), events[1..]);
    }
  }

  // ----- the invariant of live books -----

  ghost predicate SequencesBounded(b: Book) {
    forall id :: id in b.orders ==> b.orders[id].acceptedSequence <= b.lastSequence
  }

  /** Only processed commands have events in the book. */
  ghost predicate Deduped(b: Book) {
    forall c, n :: Derived(c, n) in b.applied ==> c in b.processed
  }

  /** What holds of a live book between any two events. A function value, to be carried along event lists. */
  ghost const LogInv: Book -> bool := b =>
    IndexInv(b) && Fifo(b) && SequencesUnique(b) && SequencesBounded(b) && Deduped(b)

  lemma AcceptFifo(b: Book, intent: OrderIntent, sequence: Sequence)
    requires IndexInv(b) && Fifo(b) && AcceptError(b, intent).None?
    requires forall id :: id in b.orders ==> b.orders[id].acceptedSequence < sequence
    ensures Fifo(Accept(b, intent, sequence))
  {
    var c := Accept(b, intent, sequence);
    forall side: OrderSide, price: Price | price in c.Side(side) ensures InOrder(c, c.Side(side)[price]) {
      var before := Queue(b.Side(side), price);
      var queue := c.Side(side)[price];
      assert queue == before || queue == before + [intent.orderId];
      assert price in b.Side(side) ==> InOrder(b, before) && LevelOk(b, side, price);
      forall i, j | 0 <= i < j < |queue| ensures QueuedBefore(c, queue[i], queue[j]) {
        assert Rests(b, before[i], side, price);
        if j < |before| {
          assert Rests(b, before[j], side, price);
          assert QueuedBefore(b, before[i], before[j]);
        }
      }
    }
  }

  lemma SettleLevelFifo(b: Book, id: OrderId, remaining: Quantity, status: OrderStatus, side: OrderSide, price: Price)
    requires Fifo(b) && id in b.orders && price in Settle(b, id, remaining, status).Side(side)
    ensures Sorted((x, y) => QueuedBefore(b, x, y), Settle(b, id, remaining, status).Side(side)[price])
  {
    var o, queue := b.orders[id], Queue(b.Side(side), price);
    if price in b.Side(side) {
      assert InOrder(b, b.Side(side)[price]);
    }
    if remaining == 0 && side == o.intent.side && price == o.intent.price {
      WithoutSorted((x: OrderId, y: OrderId) => QueuedBefore(b, x, y), queue, id);
    }
  }

  lemma SettleFifo(b: Book, id: OrderId, remaining: Quantity, status: OrderStatus)
    requires Fifo(b) && id in b.orders
    ensures Fifo(Settle(b, id, remaining, status))
  {
    var c := Settle(b, id, remaining, status);
    assert forall x, y :: QueuedBefore(b, x, y) ==> QueuedBefore(c, x, y);
    forall side: OrderSide, price: Price | price in c.Side(side) ensures InOrder(c, c.Side(side)[price]) {
      SettleLevelFifo(b, id, remaining, status, side, price);
    }
  }

  lemma SettleLog(b: Book, id: OrderId, remaining: Quantity, status: OrderStatus) returns (c: Book)
    requires LogInv(b) && id in b.orders && b.orders[id].IsOpen()
    requires SettlesTo(b.orders[id], remaining, status)
    ensures c == Settle(b, id, remaining, status) && LogInv(c)
  {
    SettleKeeps(b, id, remaining, status);
    SettleFifo(b, id, remaining, status);
    c := Settle(b, id, remaining, status);
    assert forall i, j :: SameSequence(c, i, j) ==> SameSequence(b, i, j);
    assert SequencesUnique(c) && SequencesBounded(c) && Deduped(c);
  }

  lemma ReduceLog(b: Book, id: OrderId, quantity: Quantity) returns (c: Book)
    requires LogInv(b) && id in b.orders && b.orders[id].IsOpen() && quantity <= b.orders[id].remaining
    ensures c == Reduce(b, id, quantity) && LogInv(c)
  {
    var o := b.orders[id];
    var status := StatusAfter(o, o.remaining - quantity);
    ReduceSettles(o, o.remaining - quantity);
    c := SettleLog(b, id, o.remaining - quantity, status);
  }

  lemma MarkFifo(b: Book, e: EngineEvent)
    requires Fifo(b)
    ensures Fifo(Mark(b, e))
  {
    var c := Mark(b, e);
    assert forall x, y :: QueuedBefore(b, x, y) ==> QueuedBefore(c, x, y);
    forall side: OrderSide, price: Price | price in c.Side(side) ensures InOrder(c, c.Side(side)[price]) {
      assert InOrder(b, b.Side(side)[price]);
    }
  }

  lemma MarkLog(b: Book, e: EngineEvent, ordinal: nat)
    requires LogInv(b) && e.eventId == Derived(e.causationId, ordinal)
    ensures LogInv(Mark(b, e))
  {
    MarkKeeps(b, e);
    MarkFifo(b, e);
    var c := Mark(b, e);
    assert forall i, j :: SameSequence(c, i, j) ==> SameSequence(b, i, j);
    assert SequencesUnique(c) && SequencesBounded(c) && Deduped(c);
  }

  // ----- one incoming order, trade by trade -----

  /** A resting order still as the decision saw it, that the taker may trade with. */
  ghost predicate Meets(cur: Book, b: Book, command: EngineCommand, taker: OrderIntent, id: OrderId) {
    && id in cur.orders && id in b.orders
    && cur.orders[id] == b.orders[id]
    && id != taker.orderId
    && Contends(cur, taker, id)
    && cur.orders[id].acceptedSequence < command.shardSequence
  }

  /** The taker is in the book with `want` left, and the makers still to come are untouched. */
  ghost predicate Filling(cur: Book, b: Book, command: EngineCommand, taker: OrderIntent,
                          makers: seq<OrderId>, want: Quantity, ordinal: nat)
  {
    && LogInv(cur)
    && (forall n :: n >= ordinal ==> Derived(command.commandId, n) !in cur.applied)
    && taker.orderId in cur.orders
    && cur.orders[taker.orderId].intent == taker
    && cur.orders[taker.orderId].acceptedSequence == command.shardSequence
    && cur.orders[taker.orderId].remaining == want
    && Distinct(makers)
    && forall i :: 0 <= i < |makers| ==> Meets(cur, b, command, taker, makers[i])
  }

  /** Orders only lose quantity: none appears or vanishes, none reopens. */
  ghost predicate Shrinks(b: Book, c: Book) {
    && b.orders.Keys == c.orders.Keys
    && forall id :: id in b.orders ==>
         && c.orders[id].intent == b.orders[id].intent
         && (c.orders[id].IsOpen() ==> b.orders[id].IsOpen())
  }

  function NextTrade(b: Book, command: EngineCommand, taker: OrderIntent, id: OrderId, want: Quantity,
                     ordinal: nat): EngineEvent
    requires id in b.orders
  {
    TradeEvent(command, ordinal, taker, Fill(id, b.orders[id].intent.price, Min(want, b.orders[id].remaining)))
  }

  lemma TradeApplies(cur: Book, b: Book, command: EngineCommand, taker: OrderIntent,
                     makers: seq<OrderId>, want: Quantity, ordinal: nat)
    requires Filling(cur, b, command, taker, makers, want, ordinal)
    requires makers != [] && want > 0
    ensures makers[0] in b.orders && Applies(cur, NextTrade(b, command, taker, makers[0], want, ordinal))
  {
    assert Meets(cur, b, command, taker, makers[0]);
    assert OrderOk(cur, makers[0]) && OrderOk(cur, taker.orderId);
    assert SameScope(cur.orders[makers[0]], taker);
  }

  lemma TradeKeepsLog(cur: Book, b: Book, command: EngineCommand, taker: OrderIntent,
                      makers: seq<OrderId>, want: Quantity, ordinal: nat)
    requires Filling(cur, b, command, taker, makers, want, ordinal)
    requires makers != [] && want > 0 && makers[0] in b.orders
    requires Applies(cur, NextTrade(b, command, taker, makers[0], want, ordinal))
    ensures LogInv(Apply(cur, NextTrade(b, command, taker, makers[0], want, ordinal)))
  {
    var e := NextTrade(b, command, taker, makers[0], want, ordinal);
    var t := e.payload.trade;
    var half := ReduceLog(cur, t.makerOrderId, t.quantity);
    var whole := ReduceLog(half, t.takerOrderId, t.quantity);
    MarkLog(whole, e, ordinal);
  }

  /** The two orders of a trade lose its quantity; nothing else about the table changes. */
  ghost predicate Traded(before: map<OrderId, OrderView>, after: map<OrderId, OrderView>,
                         maker: OrderId, taker: OrderId, quantity: Quantity)
  {
    && after.Keys == before.Keys && maker in before && taker in before
    && (forall id :: id in before && id != maker && id != taker ==> after[id] == before[id])
    && after[maker].intent == before[maker].intent
    && after[taker].intent == before[taker].intent
    && after[maker].acceptedSequence == before[maker].acceptedSequence
    && after[taker].acceptedSequence == before[taker].acceptedSequence
    && after[maker].remaining == before[maker].remaining - quantity
    && after[taker].remaining == before[taker].remaining - quantity
    && before[maker].IsOpen() && before[taker].IsOpen()
  }

  lemma TradeTouches(b: Book, e: EngineEvent)
    requires e.payload.TradeExecuted? && Applies(b, e)
    ensures var t := e.payload.trade;
            Traded(b.orders, Apply(b, e).orders, t.makerOrderId, t.takerOrderId, t.quantity)
    ensures Apply(b, e).applied == b.applied + {e.eventId}
  {
  }

  lemma MakersStillMeet(cur: Book, next: Book, b: Book, command: EngineCommand, taker: OrderIntent,
                        makers: seq<OrderId>, quantity: Quantity)
    requires makers != [] && Distinct(makers)
    requires forall i :: 0 <= i < |makers| ==> Meets(cur, b, command, taker, makers[i])
    requires Traded(cur.orders, next.orders, makers[0], taker.orderId, quantity)
    ensures forall i :: 0 <= i < |makers[1..]| ==> Meets(next, b, command, taker, makers[1..][i])
  {
    var rest := makers[1..];
    forall i | 0 <= i < |rest| ensures Meets(next, b, command, taker, rest[i]) {
      assert Meets(cur, b, command, taker, makers[i + 1]);
      assert makers[0] != makers[i + 1];
    }
  }

  lemma TradeStep(cur: Book, b: Book, command: EngineCommand, taker: OrderIntent,
                  makers: seq<OrderId>, want: Quantity, ordinal: nat)
    returns (e: EngineEvent, q: Quantity, next: Book)
    requires Filling(cur, b, command, taker, makers, want, ordinal)
    requires makers != [] && want > 0
    ensures makers[0] in b.orders && makers[0] in cur.orders && cur.orders[makers[0]] == b.orders[makers[0]]
    ensures e == NextTrade(b, command, taker, makers[0], want, ordinal)
    ensures q == Min(want, b.orders[makers[0]].remaining)
    ensures next == Apply(cur, e) && Applies(cur, e)
    ensures Filling(next, b, command, taker, makers[1..], want - q, ordinal + 1)
    ensures Traded(cur.orders, next.orders, makers[0], taker.orderId, q)
  {
    TradeApplies(cur, b, command, taker, makers, want, ordinal);
    TradeKeepsLog(cur, b, command, taker, makers, want, ordinal);
    e := NextTrade(b, command, taker, makers[0], want, ordinal);
    q := Min(want, b.orders[makers[0]].remaining);
    next := Apply(cur, e);
    TradeTouches(cur, e);
    assert Meets(cur, b, command, taker, makers[0]);
    MakersStillMeet(cur, next, b, command, taker, makers, q);
    assert Distinct(makers[1..]);
  }

  /** Orders only shrank, and if the taker is still open then no maker is. */
  ghost predicate PlaysOut(b: Book, taker: OrderId, makers: seq<OrderId>, last: Book) {
    && Shrinks(b, last)
    && taker in last.orders
    && (last.orders[taker].IsOpen() ==>
          forall i :: 0 <= i < |makers| ==> makers[i] in last.orders && !last.orders[makers[i]].IsOpen())
  }

  lemma PlaysOutStep(b: Book, next: Book, taker: OrderId, makers: seq<OrderId>, quantity: Quantity, last: Book)
    requires IndexInv(next) && makers != []
    requires Traded(b.orders, next.orders, makers[0], taker, quantity)
    requires quantity == b.orders[makers[0]].remaining || quantity == b.orders[taker].remaining
    requires PlaysOut(next, taker, makers[1..], last)
    ensures PlaysOut(b, taker, makers, last)
  {
    assert OrderOk(next, makers[0]) && OrderOk(next, taker);
    forall i | 0 <= i < |makers| && last.orders[taker].IsOpen()
      ensures makers[i] in last.orders && !last.orders[makers[i]].IsOpen()
    {
      if i > 0 { assert makers[i] == makers[1..][i - 1]; }
    }
  }

  /** Every event is new and sound where it is applied, and every state on the way is a live one. */
  ghost predicate AllSound(b: Book, events: seq<EngineEvent>) {
    BookState.Throughout(LogInv, b, events)
  }

  // The trades of one order as a plan: the makers still to meet, what is still wanted, the next ordinal.
  datatype Work = Work(makers: seq<OrderId>, want: Quantity, ordinal: nat)

  predicate Done(w: Work) {
    w.makers == [] || w.want == 0
  }

  function NextFill(b: Book, w: Work): Fill {
    var id := if w.makers == [] then 0 else w.makers[0];
    Fill(id, PriceOf(b, id), Min(w.want, Left(b, id)))
  }

  function RestOf(b: Book, w: Work): Work {
    Work(if w.makers == [] then [] else w.makers[1..], w.want - NextFill(b, w).quantity, w.ordinal + 1)
  }

  function TradePlan(b: Book, command: EngineCommand, taker: OrderIntent): (plan: Plan<Work, EngineEvent>)
    ensures Shrinking(plan)
  {
    Plan(Done, (w: Work) => TradeEvent(command, w.ordinal, taker, NextFill(b, w)),
         (w: Work) => RestOf(b, w), (w: Work) => |w.makers|)
  }

  lemma {:induction false} PlanIsGreedy(b: Book, command: EngineCommand, taker: OrderIntent, w: Work)
    ensures Planned(TradePlan(b, command, taker), w)
         == TradeEvents(command, taker, Greedy(b, w.makers, w.want), w.ordinal)
    decreases |w.makers|
  {
    if !Done(w) {
      PlanIsGreedy(b, command, taker, RestOf(b, w));
      assert Greedy(b, w.makers, w.want)[1..] == Greedy(b, RestOf(b, w).makers, RestOf(b, w).want);
    }
  }

  ghost function Fits(b: Book, command: EngineCommand, taker: OrderIntent): (Book, Work) -> bool {
    (cur: Book, w: Work) => Filling(cur, b, command, taker, w.makers, w.want, w.ordinal)
  }

  ghost function Ends(taker: OrderIntent): (Book, Work, Book) -> bool {
    (cur: Book, w: Work, last: Book) => PlaysOut(cur, taker.orderId, w.makers, last)
  }

  lemma PlanStep(b: Book, command: EngineCommand, taker: OrderIntent, cur: Book, w: Work)
    returns (e: EngineEvent, next: Book)
    requires Fits(b, command, taker)(cur, w) && !Done(w)
    ensures e == TradePlan(b, command, taker).emit(w) && next == Apply(cur, e) && Applies(cur, e)
    ensures Fits(b, command, taker)(next, RestOf(b, w))
    ensures Traded(cur.orders, next.orders, w.makers[0], taker.orderId, NextFill(b, w).quantity)
    ensures var q := NextFill(b, w).quantity;
            q == cur.orders[w.makers[0]].remaining || q == cur.orders[taker.orderId].remaining
    ensures IndexInv(next)
  {
    var q;
    e, q, next := TradeStep(cur, b, command, taker, w.makers, w.want, w.ordinal);
  }

  lemma PlanFits(b: Book, command: EngineCommand, taker: OrderIntent)
    ensures Fitting(Apply, Applies, TradePlan(b, command, taker), Fits(b, command, taker))
  {
    var plan, fits := TradePlan(b, command, taker), Fits(b, command, taker);
    forall cur, w | fits(cur, w) && !plan.done(w)
      ensures Applies(cur, plan.emit(w)) && fits(Apply(cur, plan.emit(w)), plan.rest(w))
    {
      var e, next := PlanStep(b, command, taker, cur, w);
    }
  }

  lemma PlanEnds(b: Book, command: EngineCommand, taker: OrderIntent)
    ensures Ending(Apply, TradePlan(b, command, taker), Fits(b, command, taker), Ends(taker))
  {
    var plan, fits, ends := TradePlan(b, command, taker), Fits(b, command, taker), Ends(taker);
    forall cur, w | fits(cur, w) && plan.done(w) ensures ends(cur, w, cur) {
      assert OrderOk(cur, taker.orderId);
    }
    forall cur, w, last | fits(cur, w) && !plan.done(w) && ends(Apply(cur, plan.emit(w)), plan.rest(w), last)
      ensures ends(cur, w, last)
    {
      var e, next := PlanStep(b, command, taker, cur, w);
      PlaysOutStep(cur, next, taker.orderId, w.makers, NextFill(b, w).quantity, last);
    }
  }

  /** All the trades of one incoming order are accepted in turn; if the taker is still open at the end, no maker is. */
  lemma TradesPlay(cur: Book, b: Book, command: EngineCommand, taker: OrderIntent, w: Work)
    requires Fits(b, command, taker)(cur, w)
    ensures var events := TradeEvents(command, taker, Greedy(b, w.makers, w.want), w.ordinal);
            AllSound(cur, events) && Ends(taker)(cur, w, Replay(cur, events))
  {
    PlanFits(b, command, taker);
    PlanEnds(b, command, taker);
    PlanIsGreedy(b, command, taker, w);
    Histories.PlanRuns(Apply, Applies, LogInv, TradePlan(b, command, taker),
                       Fits(b, command, taker), Ends(taker), cur, w);
  }

  lemma SoundCons(b: Book, e: EngineEvent, tail: seq<EngineEvent>)
    requires LogInv(b) && Applies(b, e) && AllSound(Apply(b, e), tail)
    ensures AllSound(b, [e] + tail) && Replay(b, [e] + tail) == Replay(Apply(b, e), tail)
  {
    Histories.ThroughoutCons(Apply, Applies, LogInv, b, e, tail);
  }

  // ----- whole commands -----

  /** The command is the next one of the shard and none of its events is in the book. */
  ghost predicate Next(b: Book, command: EngineCommand) {
    command.commandId !in b.processed && command.shardSequence == b.lastSequence + 1
  }

  lemma AcceptSequences(b: Book, intent: OrderIntent, e: EngineEvent)
    requires LogInv(b) && AcceptError(b, intent).None? && e.commandSequence > b.lastSequence
    requires e.eventId == Derived(e.causationId, 0)
    ensures var c := Mark(Accept(b, intent, e.commandSequence), e);
            SequencesUnique(c) && SequencesBounded(c) && Deduped(c)
  {
    var c := Mark(Accept(b, intent, e.commandSequence), e);
    forall i, j | SameSequence(c, i, j) ensures i == j {
      assert i in b.orders && j in b.orders ==> SameSequence(b, i, j);
    }
  }

  lemma AcceptLog(b: Book, command: EngineCommand, intent: OrderIntent)
    requires LogInv(b) && Next(b, command) && AcceptError(b, intent).None?
    ensures var e := EventOf(command, 0, OrderAccepted(intent, command.shardSequence));
            && Applies(b, e)
            && Apply(b, e) == Mark(Accept(b, intent, command.shardSequence), e)
            && LogInv(Apply(b, e))
  {
    var e := EventOf(command, 0, OrderAccepted(intent, command.shardSequence));
    var a := Accept(b, intent, command.shardSequence);
    assert Applies(b, e);
    AcceptKeeps(b, intent, command.shardSequence);
    AcceptFifo(b, intent, command.shardSequence);
    MarkKeeps(a, e);
    MarkFifo(a, e);
    AcceptSequences(b, intent, e);
  }

  lemma MakersDistinct(b: Book, taker: OrderIntent)
    requires LogInv(b)
    ensures Distinct(Makers(b, taker))
  {
    MakersArePriorityList(b, taker);
    var ids := Makers(b, taker);
    assert IsPriorityList(b, taker, ids);
    forall i, j | 0 <= i < j < |ids| ensures ids[i] != ids[j] {
      assert Precedes(b, taker.side.Opposite(), ids[i], ids[j]);
    }
  }

  lemma AcceptFills(b: Book, command: EngineCommand, intent: OrderIntent)
    requires LogInv(b) && Next(b, command) && AcceptError(b, intent).None?
    ensures var e := EventOf(command, 0, OrderAccepted(intent, command.shardSequence));
            Filling(Apply(b, e), b, command, intent, Makers(b, intent), intent.quantity, 1)
  {
    var e := EventOf(command, 0, OrderAccepted(intent, command.shardSequence));
    AcceptLog(b, command, intent);
    MakersDistinct(b, intent);
    var makers, c := Makers(b, intent), Apply(b, e);
    forall i | 0 <= i < |makers| ensures Meets(c, b, command, intent, makers[i]) {
      MakersContend(b, intent, makers[i]);
    }
    assert forall n :: n >= 1 ==> Derived(command.commandId, n) !in c.applied;
  }

  lemma PlaceSound(b: Book, command: EngineCommand, intent: OrderIntent)
    requires LogInv(b) && Next(b, command) && DecidePlace(b, command, intent).Ok?
    ensures var events := DecidePlace(b, command, intent).value;
            && AllSound(b, events)
            && intent.orderId !in b.orders
            && PlaysOut(Accept(b, intent, command.shardSequence), intent.orderId, Makers(b, intent), Replay(b, events))
  {
    var e := EventOf(command, 0, OrderAccepted(intent, command.shardSequence));
    AcceptLog(b, command, intent);
    AcceptFills(b, command, intent);
    TradesPlay(Apply(b, e), b, command, intent, Work(Makers(b, intent), intent.quantity, 1));
    SoundCons(b, e, TradeEvents(command, intent, Fills(b, intent), 1));
    assert Apply(b, e).orders == Accept(b, intent, command.shardSequence).orders;
  }

  lemma CloseEffect(b: Book, e: EngineEvent, id: OrderId, status: OrderStatus)
    requires e.eventId !in b.applied && id in b.orders && b.orders[id].IsOpen()
    requires || (status == Cancelled && e.payload == OrderCancelled(id, b.orders[id].remaining))
             || (status == Expired && e.payload == OrderExpired(id, b.orders[id].remaining))
    ensures Applies(b, e) && Apply(b, e) == Mark(Settle(b, id, 0, status), e)
  {
  }

  lemma CloseApplies(b: Book, e: EngineEvent, id: OrderId, status: OrderStatus) returns (next: Book)
    requires LogInv(b) && e.causationId !in b.processed && e.eventId == Derived(e.causationId, 0)
    requires id in b.orders && b.orders[id].IsOpen()
    requires || (status == Cancelled && e.payload == OrderCancelled(id, b.orders[id].remaining))
             || (status == Expired && e.payload == OrderExpired(id, b.orders[id].remaining))
    ensures next == Apply(b, e) && Applies(b, e) && LogInv(next) && Shrinks(b, next)
  {
    CloseEffect(b, e, id, status);
    var closed := SettleLog(b, id, 0, status);
    MarkLog(closed, e, 0);
    next := Mark(closed, e);
  }

  lemma OneEvent(b: Book, e: EngineEvent)
    requires LogInv(b) && Applies(b, e) && LogInv(Apply(b, e))
    ensures AllSound(b, [e]) && Replay(b, [e]) == Apply(b, e)
  {
    assert [e] + [] == [e];
    SoundCons(b, e, []);
  }

  lemma CloseSound(b: Book, command: EngineCommand, id: OrderId)
    returns (e: EngineEvent)
    requires LogInv(b) && Next(b, command)
    requires command.kind == CancelOrder(id) || command.kind == ExpireOrder(id)
    requires Decide(b, command).Ok?
    ensures Decide(b, command).value == [e]
    ensures AllSound(b, [e]) && Shrinks(b, Replay(b, [e])) && Replay(b, [e]) == Apply(b, e)
  {
    e := Decide(b, command).value[0];
    var next := CloseApplies(b, e, id, if command.kind.CancelOrder? then Cancelled else Expired);
    OneEvent(b, e);
  }

  /** When a cancel or expiry is granted: the order is open and, to expire, has a time that has come. */
  predicate MayClose(b: Book, command: EngineCommand, id: OrderId) {
    && id in b.orders && b.orders[id].status in {Open, PartiallyFilled}
    && (command.kind.ExpireOrder? ==>
          && b.orders[id].intent.expiresAt.Some?
          && b.orders[id].intent.expiresAt.value <= command.occurredAt)
  }

  lemma {:induction false} WithoutAbsent(queue: seq<OrderId>, id: OrderId)
    requires id !in queue
    ensures Without(queue, id) == queue
  {
    if queue != [] {
      WithoutAbsent(queue[1..], id);
      assert queue == [queue[0]] + queue[1..];
    }
  }

  lemma SettledQueue(b: Book, id: OrderId, status: OrderStatus, side: OrderSide, price: Price)
    requires IndexInv(b) && id in b.orders && b.orders[id].IsOpen()
    ensures Queue(Settle(b, id, 0, status).Side(side), price) == Without(Queue(b.Side(side), price), id)
    ensures id !in Without(Queue(b.Side(side), price), id)
  {
    var o, queue := b.orders[id], Queue(b.Side(side), price);
    WithoutElements(queue, id);
    if side != o.intent.side || price != o.intent.price {
      assert price in b.Side(side) ==> LevelOk(b, side, price);
      assert forall i :: 0 <= i < |queue| ==> Rests(b, queue[i], side, price);
      WithoutAbsent(queue, id);
    }
  }

  lemma CloseLeaves(b: Book, e: EngineEvent, id: OrderId, status: OrderStatus)
    requires IndexInv(b) && e.eventId !in b.applied && id in b.orders && b.orders[id].IsOpen()
    requires || (status == Cancelled && e.payload == OrderCancelled(id, b.orders[id].remaining))
             || (status == Expired && e.payload == OrderExpired(id, b.orders[id].remaining))
    ensures Apply(b, e).orders == b.orders[id := b.orders[id].(remaining := 0, status := status)]
    ensures forall side: OrderSide, price: Price ::
              && Queue(Apply(b, e).Side(side), price) == Without(Queue(b.Side(side), price), id)
              && id !in Queue(Apply(b, e).Side(side), price)
  {
    CloseEffect(b, e, id, status);
    forall side: OrderSide, price: Price
      ensures Queue(Settle(b, id, 0, status).Side(side), price) == Without(Queue(b.Side(side), price), id)
      ensures id !in Without(Queue(b.Side(side), price), id)
    {
      SettledQueue(b, id, status, side, price);
    }
  }

  /**
   * A cancel or expiry is granted exactly for an open order, for an expiry past its time, and then
   * releases all that is left: the order is closed and in no queue, no other order changes, and the
   * queues keep their order.
   */
  lemma CloseReleases(b: Book, command: EngineCommand, id: OrderId)
    requires LogInv(b) && Next(b, command)
    requires command.kind == CancelOrder(id) || command.kind == ExpireOrder(id)
    ensures Decide(b, command).Ok? <==> MayClose(b, command, id)
    ensures Decide(b, command) == Err(OrderNotFound(id)) <==> id !in b.orders
    ensures MayClose(b, command, id) ==>
              var after := Replay(b, Decide(b, command).value);
              var status := if command.kind.CancelOrder? then Cancelled else Expired;
              && after.orders == b.orders[id := b.orders[id].(remaining := 0, status := status)]
              && forall side: OrderSide, price: Price ::
                   && Queue(after.Side(side), price) == Without(Queue(b.Side(side), price), id)
                   && id !in Queue(after.Side(side), price)
  {
    if MayClose(b, command, id) {
      var e := CloseSound(b, command, id);
      CloseLeaves(b, e, id, if command.kind.CancelOrder? then Cancelled else Expired);
    }
  }

  // ----- uncrossed -----

  /** Every resting bid is strictly below every resting ask. */
  ghost predicate Uncrossed(b: Book) {
    forall x, y ::
      && x in b.orders && b.orders[x].IsOpen() && b.orders[x].intent.side.Buy?
      && y in b.orders && b.orders[y].IsOpen() && b.orders[y].intent.side.Sell?
      ==> b.orders[x].intent.price < b.orders[y].intent.price
  }

  lemma ShrinksUncrossed(b: Book, c: Book)
    requires Uncrossed(b) && Shrinks(b, c)
    ensures Uncrossed(c)
  {
  }

  lemma PlaceUncrossed(b: Book, command: EngineCommand, intent: OrderIntent, last: Book)
    requires IndexInv(b) && Uncrossed(b) && intent.orderId !in b.orders
    requires PlaysOut(Accept(b, intent, command.shardSequence), intent.orderId, Makers(b, intent), last)
    ensures Uncrossed(last)
  {
    var a := Accept(b, intent, command.shardSequence);
    var makers := Makers(b, intent);
    forall id | id in last.orders && last.orders[id].IsOpen()
      ensures || id == intent.orderId
              || (id in b.orders && b.orders[id].IsOpen() && b.orders[id].intent == last.orders[id].intent)
    {
      assert a.orders[id].IsOpen();
    }
    assert last.orders[intent.orderId].intent == intent by { assert intent.orderId in a.orders; }
    forall id |
      last.orders[intent.orderId].IsOpen() && id in b.orders && b.orders[id].IsOpen() && Contends(b, intent, id)
      ensures id in last.orders && !last.orders[id].IsOpen()
    {
      MakersContend(b, intent, id);
      var i :| 0 <= i < |makers| && makers[i] == id;
    }
  }
}
