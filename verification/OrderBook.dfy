/**
 * The order book object. Its fields are the source's containers and its methods update them step by
 * step; each is proved to follow the functions on book values.
 */
module OrderBooks {
  import opened Wrappers
  import opened Numeric
  import opened Sorting
  import opened Domain
  import BookState
  import opened BookInvariants
  import opened Matching
  import opened PriceTime
  import EngineRuns
  import Snapshots

  type Book = BookState.Book
  type Levels = BookState.Levels

  // ----- greedy filling, level by level -----

  lemma {:induction false} GreedyWithin(b: Book, makers: seq<OrderId>, want: Quantity)
    ensures FilledTotal(Greedy(b, makers, want)) <= want
    decreases |makers|
  {
    if makers != [] && want != 0 {
      var q := Min(want, Left(b, makers[0]));
      GreedyWithin(b, makers[1..], want - q);
      assert Greedy(b, makers, want)[1..] == Greedy(b, makers[1..], want - q);
    }
  }

  lemma {:induction false} FilledConcat(fills: seq<Fill>, more: seq<Fill>)
    ensures FilledTotal(fills + more) == FilledTotal(fills) + FilledTotal(more)
  {
    if fills == [] {
      assert fills + more == more;
    } else {
      assert (fills + more)[1..] == fills[1..] + more;
      FilledConcat(fills[1..], more);
    }
  }

  /** Filling from one list of makers and then from another is filling from both. */
  lemma {:induction false} GreedyConcat(b: Book, makers: seq<OrderId>, more: seq<OrderId>, want: Quantity)
    returns (left: Quantity)
    ensures left == want - FilledTotal(Greedy(b, makers, want))
    ensures Greedy(b, makers + more, want) == Greedy(b, makers, want) + Greedy(b, more, left)
    decreases |makers|
  {
    GreedyWithin(b, makers, want);
    if makers == [] || want == 0 {
      left := want;
      assert makers == [] ==> makers + more == more;
    } else {
      var q := Min(want, Left(b, makers[0]));
      assert (makers + more)[1..] == makers[1..] + more;
      left := GreedyConcat(b, makers[1..], more, want - q);
      assert Greedy(b, makers, want)[1..] == Greedy(b, makers[1..], want - q);
    }
  }

  lemma {:induction false} FlattenSnoc(levels: Levels, prices: seq<Price>, price: Price)
    ensures Flatten(levels, prices + [price]) == Flatten(levels, prices) + BookState.Queue(levels, price)
    decreases |prices|
  {
    if prices == [] {
      assert [price][1..] == [];
    } else {
      assert (prices + [price])[1..] == prices[1..] + [price];
      FlattenSnoc(levels, prices[1..], price);
    }
  }

  lemma {:induction false} TradeEventsConcat(command: EngineCommand, taker: OrderIntent, fills: seq<Fill>,
                                             more: seq<Fill>, ordinal: nat)
    ensures TradeEvents(command, taker, fills + more, ordinal)
         == TradeEvents(command, taker, fills, ordinal) + TradeEvents(command, taker, more, ordinal + |fills|)
    decreases |fills|
  {
    if fills == [] {
      assert fills + more == more;
    } else {
      assert (fills + more)[1..] == fills[1..] + more;
      TradeEventsConcat(command, taker, fills[1..], more, ordinal + 1);
    }
  }

  lemma SortedTail(side: OrderSide, limit: OrderIntent, prices: seq<Price>, i: nat, k: nat)
    requires limit.side == side.Opposite() && i <= k < |prices|
    requires Sorted((p: Price, q: Price) => Better(side, p, q), prices)
    requires !limit.Crosses(prices[i])
    ensures !limit.Crosses(prices[k])
  {
    if i < k {
      assert Better(side, prices[i], prices[k]);
    }
  }

  lemma CrossingMembers(side: OrderSide, limit: OrderIntent, prices: seq<Price>, i: nat, p: Price)
    requires limit.side == side.Opposite() && i <= |prices|
    requires Sorted((p: Price, q: Price) => Better(side, p, q), prices)
    requires forall k :: 0 <= k < i ==> limit.Crosses(prices[k])
    requires i < |prices| ==> !limit.Crosses(prices[i])
    ensures p in prices[..i] <==> p in prices && limit.Crosses(p)
  {
    if p in prices {
      var k :| 0 <= k < |prices| && prices[k] == p;
      if i <= k { SortedTail(side, limit, prices, i, k); }
    }
  }

  lemma CrossingPrefix(b: Book, taker: OrderIntent, prices: seq<Price>, i: nat)
    requires prices == BestFirst(taker.side.Opposite(), b.Side(taker.side.Opposite()).Keys)
    requires i <= |prices|
    requires forall k :: 0 <= k < i ==> taker.Crosses(prices[k])
    requires i < |prices| ==> !taker.Crosses(prices[i])
    ensures prices[..i] == BestFirst(taker.side.Opposite(), CrossingPrices(b, taker))
  {
    var side := taker.side.Opposite();
    var lt := (p: Price, q: Price) => Better(side, p, q);
    var crossing := BestFirst(side, CrossingPrices(b, taker));
    BestFirstSorted(side, b.Side(side).Keys);
    BestFirstSorted(side, CrossingPrices(b, taker));
    forall p: Price ensures p in prices[..i] <==> p in crossing {
      CrossingMembers(side, taker, prices, i, p);
      assert p in crossing <==> p in prices && taker.Crosses(p);
    }
    SortedUnique(lt, prices[..i], crossing);
  }

  /** What the matching loops carry: the events so far, the taker's remainder and the last ordinal. */
  datatype Progress = Progress(events: seq<EngineEvent>, takerRemaining: Quantity, tradeOrdinal: nat)

  /** The loops have met exactly `makers`. */
  ghost predicate Matched(b: Book, command: EngineCommand, intent: OrderIntent, makers: seq<OrderId>, p: Progress) {
    var fills := Greedy(b, makers, intent.quantity);
    && p.tradeOrdinal == |fills| <= U32_MAX
    && FilledTotal(fills) <= intent.quantity
    && p.takerRemaining == intent.quantity - FilledTotal(fills)
    && p.events == [EventOf(command, 0, OrderAccepted(intent, command.shardSequence))]
                   + TradeEvents(command, intent, fills, 1)
  }

  lemma MatchOne(b: Book, command: EngineCommand, intent: OrderIntent, makers: seq<OrderId>, id: OrderId, p: Progress)
    requires Matched(b, command, intent, makers, p) && p.takerRemaining > 0
    ensures |Greedy(b, makers + [id], intent.quantity)| == p.tradeOrdinal + 1
    ensures var q := Min(p.takerRemaining, Left(b, id));
            p.tradeOrdinal < U32_MAX ==>
              Matched(b, command, intent, makers + [id], Progress(
                p.events + [TradeEvent(command, p.tradeOrdinal + 1, intent, Fill(id, PriceOf(b, id), q))],
                p.takerRemaining - q, p.tradeOrdinal + 1))
  {
    var fills := Greedy(b, makers, intent.quantity);
    var left := GreedyConcat(b, makers, [id], intent.quantity);
    GreedyWithin(b, makers, intent.quantity);
    var q := Min(p.takerRemaining, Left(b, id));
    var fill := Fill(id, PriceOf(b, id), q);
    assert [id][1..] == [];
    assert Greedy(b, [id], p.takerRemaining) == [fill];
    assert [fill][1..] == [];
    assert FilledTotal([fill]) == q;
    FilledConcat(fills, [fill]);
    TradeEventsConcat(command, intent, fills, [fill], 1);
    assert TradeEvents(command, intent, [fill], 1 + |fills|) == [TradeEvent(command, 1 + |fills|, intent, fill)];
  }

  /** Once the taker is filled, or its makers are exhausted, the decision is complete. */
  lemma MatchedAll(b: Book, command: EngineCommand, intent: OrderIntent, makers: seq<OrderId>, p: Progress)
    requires Matched(b, command, intent, makers, p) && IntentError(b, command, intent).None?
    requires makers <= Makers(b, intent)
    requires makers == Makers(b, intent) || p.takerRemaining == 0
    ensures DecidePlace(b, command, intent) == Ok(p.events)
  {
    var more := Makers(b, intent)[|makers|..];
    assert Makers(b, intent) == makers + more;
    var left := GreedyConcat(b, makers, more, intent.quantity);
    assert Greedy(b, more, p.takerRemaining) == [];
    assert Fills(b, intent) == Greedy(b, makers, intent.quantity);
  }

  lemma OrdinalsRunOut(b: Book, command: EngineCommand, intent: OrderIntent, makers: seq<OrderId>)
    requires IntentError(b, command, intent).None?
    requires makers <= Makers(b, intent) && |Greedy(b, makers, intent.quantity)| > U32_MAX
    ensures DecidePlace(b, command, intent) == Err(EventInvariant(TradeOrdinalOverflow))
  {
    var more := Makers(b, intent)[|makers|..];
    assert Makers(b, intent) == makers + more;
    var left := GreedyConcat(b, makers, more, intent.quantity);
  }

  /** The makers of the first `i` crossing levels. */
  ghost function MakersBefore(b: Book, taker: OrderIntent, prices: seq<Price>, i: nat): seq<OrderId>
    requires i <= |prices|
  {
    Flatten(b.Side(taker.side.Opposite()), prices[..i])
  }

  /** The loops have worked through the first `i` crossing levels and the taker wants more. */
  ghost predicate Walked(b: Book, command: EngineCommand, intent: OrderIntent, prices: seq<Price>, i: nat,
                         p: Progress) {
    && i <= |prices|
    && Matched(b, command, intent, MakersBefore(b, intent, prices, i), p)
    && p.takerRemaining > 0
  }

  lemma WalkedAll(b: Book, command: EngineCommand, intent: OrderIntent, prices: seq<Price>, p: Progress)
    requires prices == BestFirst(intent.side.Opposite(), CrossingPrices(b, intent))
    requires Walked(b, command, intent, prices, |prices|, p) && IntentError(b, command, intent).None?
    ensures DecidePlace(b, command, intent) == Ok(p.events)
  {
    assert prices[..|prices|] == prices;
    MatchedAll(b, command, intent, Makers(b, intent), p);
  }

  lemma {:induction false} FlattenSplit(levels: Levels, prices: seq<Price>, i: nat)
    requires i <= |prices|
    ensures Flatten(levels, prices) == Flatten(levels, prices[..i]) + Flatten(levels, prices[i..])
    decreases |prices|
  {
    if i > 0 {
      FlattenSplit(levels, prices[1..], i - 1);
      assert prices[..i][1..] == prices[1..][..i - 1] && prices[i..] == prices[1..][i - 1..];
    }
  }

  lemma FlattenStep(levels: Levels, prices: seq<Price>, i: nat)
    requires i < |prices|
    ensures Flatten(levels, prices[..i + 1]) == Flatten(levels, prices[..i]) + BookState.Queue(levels, prices[i])
    ensures Flatten(levels, prices[..i + 1]) <= Flatten(levels, prices)
  {
    FlattenSplit(levels, prices, i + 1);
    FlattenSnoc(levels, prices[..i], prices[i]);
    assert prices[..i + 1] == prices[..i] + [prices[i]];
  }

  lemma CrossingIsLevel(b: Book, taker: OrderIntent, price: Price)
    requires price in BestFirst(taker.side.Opposite(), CrossingPrices(b, taker))
    ensures price in b.Side(taker.side.Opposite())
  {
    BestFirstSorted(taker.side.Opposite(), CrossingPrices(b, taker));
  }

  /** One crossing level within the walk: its orders rest there, and it extends the makers met so far. */
  lemma CrossingLevel(b: Book, taker: OrderIntent, prices: seq<Price>, i: nat)
    requires IndexInv(b) && prices == BestFirst(taker.side.Opposite(), CrossingPrices(b, taker)) && i < |prices|
    ensures var side := taker.side.Opposite();
            && prices[i] in b.Side(side)
            && (forall k :: 0 <= k < |b.Side(side)[prices[i]]| ==>
                Rests(b, b.Side(side)[prices[i]][k], side, prices[i]))
            && MakersBefore(b, taker, prices, i + 1) == MakersBefore(b, taker, prices, i) + b.Side(side)[prices[i]]
            && MakersBefore(b, taker, prices, i + 1) <= Makers(b, taker)
  {
    var side := taker.side.Opposite();
    CrossingIsLevel(b, taker, prices[i]);
    assert LevelOk(b, side, prices[i]);
    FlattenStep(b.Side(side), prices, i);
  }

  /** The crossing levels are the leading ones of the whole side. */
  lemma CrossingCount(b: Book, taker: OrderIntent, prices: seq<Price>) returns (crossing: seq<Price>)
    requires prices == BestFirst(taker.side.Opposite(), b.Side(taker.side.Opposite()).Keys)
    ensures crossing <= prices && crossing == BestFirst(taker.side.Opposite(), CrossingPrices(b, taker))
    ensures forall k :: 0 <= k < |crossing| ==> taker.Crosses(prices[k])
    ensures |crossing| < |prices| ==> !taker.Crosses(prices[|crossing|])
  {
    var n := 0;
    while n < |prices| && taker.Crosses(prices[n])
      invariant n <= |prices| && forall k :: 0 <= k < n ==> taker.Crosses(prices[k])
    {
      n := n + 1;
    }
    CrossingPrefix(b, taker, prices, n);
    crossing := prices[..n];
  }

  // ----- levels -----

  datatype PriceLevel = PriceLevel(price: Price, quantity: Quantity, orderIds: seq<OrderId>)

  ghost predicate LevelFits(b: Book, side: OrderSide, price: Price) {
    Liquidity(b, BookState.Queue(b.Side(side), price)) <= I128_MAX
  }

  ghost function LevelAt(b: Book, side: OrderSide, price: Price): PriceLevel
    requires LevelFits(b, side, price)
  {
    var queue := BookState.Queue(b.Side(side), price);
    PriceLevel(price, Liquidity(b, queue), queue)
  }

  // ----- reading hash tables -----

  /** Lists a set in an arbitrary order. */
  method Enumerate<T(==, !new)>(s: set<T>) returns (xs: seq<T>)
    ensures Distinct(xs) && forall x :: x in xs <==> x in s
  {
    xs := [];
    var rest := s;
    while rest != {}
      invariant rest <= s && Distinct(xs) && forall x :: x in xs <==> x in s && x !in rest
      decreases |rest|
    {
      var x :| x in rest;
      xs, rest := xs + [x], rest - {x};
    }
  }

  lemma ListsOrders(b: Book, views: seq<OrderView>)
    requires OrdersOk(b) && Distinct(views) && forall v :: v in views <==> v in b.orders.Values
    ensures Sorted(KeyBefore, Sort(KeyBefore, views))
    ensures forall v :: v in Sort(KeyBefore, views) <==> v in b.orders.Values
  {
    Snapshots.Orders();
    forall x, y | x in views && y in views && x != y ensures KeyBefore(x, y) || KeyBefore(y, x) {
      var i :| i in b.orders && b.orders[i] == x;
      var j :| j in b.orders && b.orders[j] == y;
      assert OrderOk(b, i) && OrderOk(b, j);
    }
    SortSorts(KeyBefore, views);
    SortElements(KeyBefore, views);
  }

  lemma ListsIds(ids: seq<EventId>)
    requires Distinct(ids)
    ensures Sorted(IdBefore, Sort(IdBefore, ids))
    ensures forall x :: x in Sort(IdBefore, ids) <==> x in ids
  {
    Snapshots.Orders();
    forall x, y | x in ids && y in ids && x != y ensures IdBefore(x, y) || IdBefore(y, x) {
      Snapshots.IdBeforeTotal(x, y);
    }
    SortSorts(IdBefore, ids);
    SortElements(IdBefore, ids);
  }

  lemma RestoreExtends(base: Book, orders: seq<OrderView>, i: nat)
    requires i < |orders| && Snapshots.RestoreOrders(base, orders[..i]).Ok?
    ensures Snapshots.RestoreOrders(base, orders[..i + 1])
         == Snapshots.RestoreOne(Snapshots.RestoreOrders(base, orders[..i]).value, orders[i])
  {
    assert orders[..i + 1][..i] == orders[..i];
  }

  /** A snapshot whose restore fails at one order fails as a whole. */
  lemma {:induction false} RestoreFails(base: Book, orders: seq<OrderView>, i: nat)
    requires i < |orders| && Snapshots.RestoreOrders(base, orders[..i]).Ok?
    requires Snapshots.RestoreOne(Snapshots.RestoreOrders(base, orders[..i]).value, orders[i]).Err?
    ensures Snapshots.RestoreOrders(base, orders)
         == Err(Snapshots.RestoreOne(Snapshots.RestoreOrders(base, orders[..i]).value, orders[i]).error)
    decreases |orders|
  {
    var n := |orders| - 1;
    if i < n {
      assert orders[..n][..i] == orders[..i] && orders[..n][i] == orders[i];
      RestoreFails(base, orders[..n], i);
    }
  }

  // ----- the object -----

  class OrderBook {
    const market: MarketId
    var bids: Levels
    var asks: Levels
    var orders: map<OrderId, OrderView>
    var processedCommands: set<EventId>
    var appliedEvents: set<EventId>
    var lastCommandSequence: Sequence

    ghost function View(): Book
      reads this
    {
      BookState.Book(market, bids, asks, orders, processedCommands, appliedEvents, lastCommandSequence)
    }

    ghost predicate Valid()
      reads this
    {
      IndexInv(View())
    }

    constructor (market: MarketId)
      ensures View() == BookState.NewBook(market) && Valid()
    {
      this.market := market;
      bids, asks, orders := map[], map[], map[];
      processedCommands, appliedEvents := {}, {};
      lastCommandSequence := 0;
      new;
      assert InScope(View(), 0, 0);
    }

    // ----- process and apply -----

    /** Decides a command, then applies its events one by one, stopping at the first refusal. */
    method Process(command: EngineCommand) returns (r: Result<seq<EngineEvent>, EngineError>)
      requires Valid()
      modifies this
      ensures Valid()
      ensures r == EngineRuns.ProcessOutcome(old(View()), command)
      ensures View() == EngineRuns.Process(old(View()), command)
    {
      if command.commandId in processedCommands {
        return Ok([]);
      }
      if lastCommandSequence == U64_MAX {
        return Err(EventInvariant(CommandSequenceOverflow));
      }
      var expected := lastCommandSequence + 1;
      if command.shardSequence != expected {
        return Err(CommandSequenceGap(expected, command.shardSequence));
      }
      var decided;
      match command.kind {
        case PlaceLimitOrder(intent) => decided := DecidePlaceLimitOrder(command, intent);
        case CancelOrder(id) => decided := DecideCancelOrder(command, id);
        case ExpireOrder(id) => decided := DecideExpireOrder(command, id);
      }
      if decided.Err? {
        return decided;
      }
      var events := decided.value;
      for i := 0 to |events|
        invariant Valid()
        invariant EngineRuns.Drain(old(View()), events) == EngineRuns.Drain(View(), events[i..])
      {
        var applied := Apply(events[i]);
        if applied.Err? {
          return Err(applied.error);
        }
        if !applied.value {
          return Err(EventInvariant(EventAlreadyApplied(events[i].eventId)));
        }
        assert events[i..][1..] == events[i + 1..];
      }
      r := Ok(events);
    }

    /** Applies one event, live or replayed. A refused event leaves the book as it was. */
    method Apply(event: EngineEvent) returns (r: Result<bool, EngineError>)
      requires Valid()
      modifies this
      ensures Valid()
      ensures r == BookState.ApplyOutcome(old(View()), event)
      ensures View() == BookState.Apply(old(View()), event)
    {
      ApplyKeeps(View(), event);
      if event.eventId in appliedEvents {
        return Ok(false);
      }
      var error;
      match event.payload {
        case OrderAccepted(intent, sequence) => error := ApplyOrderAccepted(intent, sequence);
        case TradeExecuted(trade) => error := ApplyTrade(trade);
        case OrderCancelled(id, released) => error := ApplyClosedOrder(id, released, Cancelled);
        case OrderExpired(id, released) => error := ApplyClosedOrder(id, released, Expired);
      }
      if error.Some? {
        return Err(error.value);
      }
      appliedEvents := appliedEvents + {event.eventId};
      processedCommands := processedCommands + {event.causationId};
      if lastCommandSequence < event.commandSequence {
        lastCommandSequence := event.commandSequence;
      }
      r := Ok(true);
    }

    method ApplyOrderAccepted(intent: OrderIntent, acceptedSequence: Sequence) returns (error: Option<EngineError>)
      requires Valid()
      modifies this
      ensures error == BookState.AcceptError(old(View()), intent)
      ensures View() == if error.Some? then old(View()) else BookState.Accept(old(View()), intent, acceptedSequence)
    {
      error := ValidateOrderScope(intent);
      if error.Some? {
        return;
      }
      if intent.orderId in orders {
        return Some(OrderAlreadyExists(intent.orderId));
      }
      if intent.quantity == 0 {
        return Some(NumericFailure(NonPositiveQuantity));
      }
      var order := OrderView(intent, intent.quantity, Open, acceptedSequence);
      orders := orders[intent.orderId := order];
      PushToLevel(order);
    }

    method ApplyTrade(trade: Trade) returns (error: Option<EngineError>)
      requires Valid()
      modifies this
      ensures error == BookState.TradeError(old(View()), trade)
      ensures error.Some? ==> View() == old(View())
      ensures error.None? ==> View() == BookState.Execute(old(View()), trade)
    {
      if trade.marketId != market {
        return Some(MarketMismatch(market, trade.marketId));
      }
      if trade.makerOrderId == trade.takerOrderId {
        return Some(EventInvariant(SelfTrade));
      }
      if trade.quantity == 0 {
        return Some(NumericFailure(NonPositiveQuantity));
      }
      var found := OpenOrder(trade.makerOrderId);
      if found.Err? {
        return Some(found.error);
      }
      var maker := found.value;
      found := OpenOrder(trade.takerOrderId);
      if found.Err? {
        return Some(found.error);
      }
      error := CheckPair(maker, found.value, trade);
      if error.Some? {
        return;
      }
      error := DecreaseOrder(trade.makerOrderId, trade.quantity);
      ReduceKeeps(old(View()), trade.makerOrderId, trade.quantity);
      error := DecreaseOrder(trade.takerOrderId, trade.quantity);
    }

    method CheckPair(maker: OrderView, taker: OrderView, trade: Trade) returns (error: Option<EngineError>)
      ensures error == BookState.PairError(maker, taker, trade)
    {
      if maker.intent.tenantId != trade.tenantId || taker.intent.tenantId != trade.tenantId
         || maker.intent.domainId != trade.domainId || taker.intent.domainId != trade.domainId
         || maker.intent.marketId != trade.marketId || taker.intent.marketId != trade.marketId {
        return Some(EventInvariant(TradeScopeMismatch));
      }
      if maker.intent.side == taker.intent.side {
        return Some(EventInvariant(SameSideTrade));
      }
      if maker.acceptedSequence >= taker.acceptedSequence {
        return Some(EventInvariant(MakerNotEarlier));
      }
      var buyOrderId, sellOrderId := trade.takerOrderId, trade.makerOrderId;
      if maker.intent.side.Buy? {
        buyOrderId, sellOrderId := trade.makerOrderId, trade.takerOrderId;
      }
      if trade.buyOrderId != buyOrderId || trade.sellOrderId != sellOrderId {
        return Some(EventInvariant(SideIdsMismatch));
      }
      if trade.price != maker.intent.price {
        return Some(EventInvariant(PriceNotMakerLimit));
      }
      if !taker.intent.Crosses(trade.price) {
        return Some(EventInvariant(PriceOutsideTakerLimit));
      }
      if CheckedSub(maker.remaining, trade.quantity).Err? || CheckedSub(taker.remaining, trade.quantity).Err? {
        return Some(NumericFailure(NegativeQuantity));
      }
      error := None;
    }

    method ApplyClosedOrder(id: OrderId, released: Quantity, status: OrderStatus) returns (error: Option<EngineError>)
      requires Valid()
      modifies this
      ensures error == BookState.CloseError(old(View()), id, released)
      ensures error.Some? ==> View() == old(View())
      ensures error.None? ==> id in old(orders) && View() == BookState.Settle(old(View()), id, 0, status)
    {
      var found := OpenOrder(id);
      if found.Err? {
        return Some(found.error);
      }
      if found.value.remaining != released {
        return Some(EventInvariant(ReleasedQuantityMismatch));
      }
      error := RemoveFromLevel(id);
      orders := orders[id := orders[id].(remaining := 0, status := status)];
    }

    method DecreaseOrder(id: OrderId, quantity: Quantity) returns (error: Option<EngineError>)
      requires Valid()
      modifies this
      ensures BookState.OpenOrder(old(View()), id).Err? ==>
                error == Some(BookState.OpenOrder(old(View()), id).error) && View() == old(View())
      ensures BookState.OpenOrder(old(View()), id).Ok? && quantity > old(View()).orders[id].remaining ==>
                error == Some(NumericFailure(NegativeQuantity)) && View() == old(View())
      ensures BookState.OpenOrder(old(View()), id).Ok? && quantity <= old(View()).orders[id].remaining ==>
                error == None && View() == BookState.Reduce(old(View()), id, quantity)
    {
      var found := OpenOrder(id);
      if found.Err? {
        return Some(found.error);
      }
      var left := CheckedSub(found.value.remaining, quantity);
      if left.Err? {
        return Some(NumericFailure(left.error));
      }
      error := None;
      if left.value == 0 {
        error := RemoveFromLevel(id);
      }
      var order := orders[id];
      var status := if left.value == 0 then Filled
                    else if left.value == order.intent.quantity then Open
                    else PartiallyFilled;
      orders := orders[id := order.(remaining := left.value, status := status)];
    }

    method OpenOrder(id: OrderId) returns (r: Result<OrderView, EngineError>)
      ensures r == BookState.OpenOrder(View(), id)
    {
      if id !in orders {
        return Err(OrderNotFound(id));
      }
      var order := orders[id];
      r := if order.IsOpen() then Ok(order) else Err(OrderNotOpen(id, order.status));
    }

    method PushToLevel(order: OrderView)
      modifies this
      ensures var side := order.intent.side;
              View() == old(View()).WithSide(side,
                BookState.PushLevel(old(View()).Side(side), order.intent.price, order.intent.orderId))
    {
      match order.intent.side {
        case Buy =>
          var queue := if order.intent.price in bids then bids[order.intent.price] else [];
          bids := bids[order.intent.price := queue + [order.intent.orderId]];
        case Sell =>
          var queue := if order.intent.price in asks then asks[order.intent.price] else [];
          asks := asks[order.intent.price := queue + [order.intent.orderId]];
      }
    }

    /** Drops an open order from its level, and the level with it when nothing is left there. */
    method RemoveFromLevel(id: OrderId) returns (error: Option<EngineError>)
      requires Valid() && id in orders && orders[id].IsOpen()
      modifies this
      ensures error == None
      ensures var o := old(View()).orders[id];
              View() == old(View()).WithSide(o.intent.side,
                BookState.RemoveLevel(old(View()).Side(o.intent.side), o.intent.price, id))
    {
      assert Listed(View(), id);
      var order := orders[id];
      var price := order.intent.price;
      match order.intent.side {
        case Buy =>
          if price !in bids {
            return Some(EventInvariant(MissingLevel(id)));
          }
          var queue := Retain(bids[price], id);
          bids := bids[price := queue];
          if queue == [] {
            bids := bids - {price};
          }
        case Sell =>
          if price !in asks {
            return Some(EventInvariant(MissingLevel(id)));
          }
          var queue := Retain(asks[price], id);
          asks := asks[price := queue];
          if queue == [] {
            asks := asks - {price};
          }
      }
      error := None;
    }

    static method Retain(queue: seq<OrderId>, id: OrderId) returns (kept: seq<OrderId>)
      ensures kept == BookState.Without(queue, id)
    {
      kept := [];
      for i := 0 to |queue|
        invariant BookState.Without(queue, id) == kept + BookState.Without(queue[i..], id)
      {
        assert queue[i..][1..] == queue[i + 1..];
        assert BookState.Without(queue[i..], id) ==
               (if queue[i] == id then [] else [queue[i]]) + BookState.Without(queue[i + 1..], id);
        if queue[i] != id {
          kept := kept + [queue[i]];
        }
      }
    }

    // ----- decisions -----

    /** Checks an order against the tenant and domain of any one resting order, whichever the table yields. */
    method ValidateOrderScope(intent: OrderIntent) returns (error: Option<EngineError>)
      requires OneScope(View())
      ensures error == BookState.ScopeError(View(), intent)
    {
      if intent.marketId != market {
        return Some(MarketMismatch(market, intent.marketId));
      }
      if orders != map[] {
        var id :| id in orders;
        ghost var tenant, domain :| InScope(View(), tenant, domain);
        if orders[id].intent.tenantId != intent.tenantId || orders[id].intent.domainId != intent.domainId {
          return Some(EventInvariant(ScopeMismatch));
        }
      }
      error := None;
    }

    method ValidateIntent(command: EngineCommand, intent: OrderIntent) returns (error: Option<EngineError>)
      requires Valid()
      ensures error == IntentError(View(), command, intent)
    {
      error := ValidateOrderScope(intent);
      if error.Some? {
        return;
      }
      if intent.orderId in orders {
        return Some(OrderAlreadyExists(intent.orderId));
      }
      if intent.quantity == 0 {
        return Some(NumericFailure(NonPositiveQuantity));
      }
      if intent.ExpiredAt(command.occurredAt) {
        return Some(OrderExpiredAtAdmission(intent.orderId));
      }
    }

    method DecidePlaceLimitOrder(command: EngineCommand, intent: OrderIntent)
        returns (r: Result<seq<EngineEvent>, EngineError>)
      requires Valid()
      ensures r == DecidePlace(View(), command, intent)
    {
      var error := ValidateIntent(command, intent);
      if error.Some? {
        return Err(error.value);
      }
      match intent.side {
        case Buy => r := MatchAsks(command, intent);
        case Sell => r := MatchBids(command, intent);
      }
    }

    /** Walks the asks from the lowest price up to the buyer's limit. */
    method MatchAsks(command: EngineCommand, intent: OrderIntent) returns (r: Result<seq<EngineEvent>, EngineError>)
      requires Valid() && intent.side.Buy? && IntentError(View(), command, intent).None?
      ensures r == DecidePlace(View(), command, intent)
    {
      ghost var b := View();
      var crossing := set p | p in asks && p <= intent.price;
      assert crossing == CrossingPrices(b, intent);
      var prices: seq<Price> := BestFirst(Sell, crossing);
      var progress := Progress([EventOf(command, 0, OrderAccepted(intent, command.shardSequence))], intent.quantity, 0);
      for i := 0 to |prices|
        invariant Walked(b, command, intent, prices, i, progress)
      {
        CrossingLevel(b, intent, prices, i);
        var level := MatchLevel(command, intent, asks[prices[i]], prices[i], progress,
                                MakersBefore(b, intent, prices, i), MakersBefore(b, intent, prices, i + 1));
        if level.Err? {
          return Err(level.error);
        }
        progress := level.value;
        if progress.takerRemaining == 0 {
          return Ok(progress.events);
        }
      }
      WalkedAll(b, command, intent, prices, progress);
      r := Ok(progress.events);
    }

    /** Walks the bids from the highest price down until one no longer reaches the seller's limit. */
    method MatchBids(command: EngineCommand, intent: OrderIntent) returns (r: Result<seq<EngineEvent>, EngineError>)
      requires Valid() && intent.side.Sell? && IntentError(View(), command, intent).None?
      ensures r == DecidePlace(View(), command, intent)
    {
      ghost var b := View();
      var prices: seq<Price> := BestFirst(Buy, bids.Keys);
      ghost var crossing := CrossingCount(b, intent, prices);
      var progress := Progress([EventOf(command, 0, OrderAccepted(intent, command.shardSequence))], intent.quantity, 0);
      var i := 0;
      while i < |prices|
        invariant i <= |crossing|
        invariant Walked(b, command, intent, crossing, i, progress)
      {
        var makerPrice := prices[i];
        if makerPrice < intent.price {
          break;
        }
        CrossingLevel(b, intent, crossing, i);
        var level := MatchLevel(command, intent, bids[makerPrice], makerPrice, progress,
                                MakersBefore(b, intent, crossing, i), MakersBefore(b, intent, crossing, i + 1));
        if level.Err? {
          return Err(level.error);
        }
        progress := level.value;
        if progress.takerRemaining == 0 {
          return Ok(progress.events);
        }
        i := i + 1;
      }
      assert i == |crossing|;
      WalkedAll(b, command, intent, crossing, progress);
      r := Ok(progress.events);
    }

    /** Trades against one level's queue, oldest order first, until the taker is filled. */
    method MatchLevel(command: EngineCommand, intent: OrderIntent, queue: seq<OrderId>, price: Price, start: Progress,
                      ghost before: seq<OrderId>, ghost through: seq<OrderId>)
      returns (r: Result<Progress, EngineError>)
      requires Valid() && IntentError(View(), command, intent).None?
      requires forall k :: 0 <= k < |queue| ==> Rests(View(), queue[k], intent.side.Opposite(), price)
      requires through == before + queue && through <= Makers(View(), intent)
      requires Matched(View(), command, intent, before, start) && start.takerRemaining > 0
      ensures r.Ok? && r.value.takerRemaining > 0 ==> Matched(View(), command, intent, through, r.value)
      ensures r.Ok? && r.value.takerRemaining == 0 ==> DecidePlace(View(), command, intent) == Ok(r.value.events)
      ensures r.Err? ==> DecidePlace(View(), command, intent) == Err(r.error)
    {
      ghost var b := View();
      var events, takerRemaining, tradeOrdinal := start.events, start.takerRemaining, start.tradeOrdinal;
      assert before + queue[..0] == before;
      for k := 0 to |queue|
        invariant takerRemaining > 0
        invariant Matched(b, command, intent, before + queue[..k], Progress(events, takerRemaining, tradeOrdinal))
      {
        assert Rests(b, queue[k], intent.side.Opposite(), price);
        assert OrderOk(b, queue[k]);
        var found := OpenOrder(queue[k]);
        assert found.Ok?;  // a queued order is open
        var maker := found.value;
        ghost var met := before + queue[..k] + [queue[k]];
        assert met == before + queue[..k + 1];
        MatchOne(b, command, intent, before + queue[..k], queue[k], Progress(events, takerRemaining, tradeOrdinal));
        if tradeOrdinal == U32_MAX {
          OrdinalsRunOut(b, command, intent, met);
          return Err(EventInvariant(TradeOrdinalOverflow));
        }
        tradeOrdinal := tradeOrdinal + 1;
        var quantity := Min(takerRemaining, maker.remaining);
        events := events + [TradeEvent(command, tradeOrdinal, intent, Fill(maker.intent.orderId, price, quantity))];
        takerRemaining := CheckedSub(takerRemaining, quantity).value;
        if takerRemaining == 0 {
          MatchedAll(b, command, intent, met, Progress(events, takerRemaining, tradeOrdinal));
          return Ok(Progress(events, takerRemaining, tradeOrdinal));
        }
      }
      assert queue[..|queue|] == queue;
      r := Ok(Progress(events, takerRemaining, tradeOrdinal));
    }

    method DecideCancelOrder(command: EngineCommand, id: OrderId) returns (r: Result<seq<EngineEvent>, EngineError>)
      ensures r == DecideCancel(View(), command, id)
    {
      var found := OpenOrder(id);
      if found.Err? {
        return Err(found.error);
      }
      r := Ok([EventOf(command, 0, OrderCancelled(id, found.value.remaining))]);
    }

    method DecideExpireOrder(command: EngineCommand, id: OrderId) returns (r: Result<seq<EngineEvent>, EngineError>)
      ensures r == DecideExpire(View(), command, id)
    {
      var found := OpenOrder(id);
      if found.Err? {
        return Err(found.error);
      }
      if !found.value.intent.ExpiredAt(command.occurredAt) {
        return Err(OrderNotExpired(id));
      }
      r := Ok([EventOf(command, 0, OrderExpired(id, found.value.remaining))]);
    }

    // ----- snapshots -----

    /** Reads the hash tables in whatever order they yield, and sorts. */
    method SnapshotState() returns (s: Snapshots.Snapshot)
      requires Valid()
      ensures Snapshots.IsSnapshot(View(), s)
    {
      var views := Enumerate(orders.Values);
      var commands := Enumerate(processedCommands);
      var events := Enumerate(appliedEvents);
      ListsOrders(View(), views);
      ListsIds(commands);
      ListsIds(events);
      s := Snapshots.Snapshot(market, lastCommandSequence, Sort(KeyBefore, views),
                              Sort(IdBefore, commands), Sort(IdBefore, events));
      assert forall x :: x in orders.Values <==> x in (iset id | id in orders :: orders[id]);
    }

    /** Rebuilds a book, queues included, from a snapshot. */
    static method FromSnapshot(s: Snapshots.Snapshot) returns (r: Result<OrderBook, EngineError>)
      ensures Snapshots.Restore(s).Err? ==> r == Err(Snapshots.Restore(s).error)
      ensures Snapshots.Restore(s).Ok? ==> r.Ok? && fresh(r.value) && r.value.View() == Snapshots.Restore(s).value
    {
      var book := new OrderBook(s.market);
      book.lastCommandSequence := s.lastSequence;
      book.processedCommands := set c | c in s.processed;
      book.appliedEvents := set e | e in s.applied;
      ghost var base := Snapshots.Base(s);
      assert InScope(book.View(), 0, 0);
      for i := 0 to |s.orders|
        invariant fresh(book) && OneScope(book.View())
        invariant Snapshots.RestoreOrders(base, s.orders[..i]) == Ok(book.View())
      {
        var error := book.RestoreOrder(s.orders[i]);
        if error.Some? {
          RestoreFails(base, s.orders, i);
          return Err(error.value);
        }
        RestoreExtends(base, s.orders, i);
      }
      assert s.orders[..|s.orders|] == s.orders;
      r := Ok(book);
    }

    method RestoreOrder(order: OrderView) returns (error: Option<EngineError>)
      requires OneScope(View())
      modifies this
      ensures Snapshots.RestoreOne(old(View()), order).Err? ==>
              error == Some(Snapshots.RestoreOne(old(View()), order).error)
      ensures Snapshots.RestoreOne(old(View()), order).Ok? ==>
                error == None && View() == Snapshots.RestoreOne(old(View()), order).value && OneScope(View())
    {
      error := ValidateOrderScope(order.intent);
      if error.Some? {
        return;
      }
      if order.intent.orderId in orders {
        return Some(EventInvariant(DuplicateSnapshotOrder(order.intent.orderId)));
      }
      orders := orders[order.intent.orderId := order];
      if order.IsOpen() {
        PushToLevel(order);
      }
      assert InScope(View(), order.intent.tenantId, order.intent.domainId);
    }

    // ----- aggregation -----

    /** One level with the sum of its open quantities; fails exactly when that sum does not fit. */
    method AggregateLevel(side: OrderSide, price: Price, queue: seq<OrderId>)
        returns (r: Result<PriceLevel, EngineError>)
      requires Valid() && price in View().Side(side) && queue == View().Side(side)[price]
      ensures r == if LevelFits(View(), side, price) then Ok(LevelAt(View(), side, price))
                   else Err(NumericFailure(Overflow))
    {
      var quantity: Quantity := 0;
      assert LevelOk(View(), side, price);
      for i := 0 to |queue|
        invariant Liquidity(View(), queue) == quantity + Liquidity(View(), queue[i..])
      {
        assert Rests(View(), queue[i], side, price);
        var found := OpenOrder(queue[i]);
        assert found.Ok?;  // a queued order is open
        assert queue[i..][1..] == queue[i + 1..];
        var sum := CheckedAdd(quantity, found.value.remaining);
        if sum.Err? {
          return Err(NumericFailure(sum.error));
        }
        quantity := sum.value;
      }
      r := Ok(PriceLevel(price, quantity, queue));
    }
  }
}
