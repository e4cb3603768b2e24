/** Price-time priority: what the walk through the queues does, said from the order table alone. */
module PriceTime {
  import opened Numeric
  import opened Sorting
  import opened Domain
  import opened BookState
  import opened BookInvariants
  import opened Matching

  // ----- the priority list, independent of the queues -----

  /** An open order the taker may trade with: for a buyer an ask up to its limit, for a seller a bid from its limit. */
  ghost predicate Contends(b: Book, taker: OrderIntent, id: OrderId) {
    && id in b.orders
    && b.orders[id].IsOpen()
    && b.orders[id].intent.side != taker.side
    && (taker.side.Buy? ==> b.orders[id].intent.price <= taker.price)
    && (taker.side.Sell? ==> b.orders[id].intent.price >= taker.price)
  }

  /** The cheaper ask or the dearer bid first, then earlier acceptance. */
  predicate Precedes(b: Book, side: OrderSide, x: OrderId, y: OrderId) {
    && x in b.orders && y in b.orders
    && var p, q := b.orders[x].intent.price, b.orders[y].intent.price;
       || (if side.Sell? then p < q else p > q)
       || (p == q && b.orders[x].acceptedSequence < b.orders[y].acceptedSequence)
  }

  ghost predicate IsPriorityList(b: Book, taker: OrderIntent, ids: seq<OrderId>) {
    && (forall id :: id in ids <==> Contends(b, taker, id))
    && Sorted((x, y) => Precedes(b, taker.side.Opposite(), x, y), ids)
  }

  // ----- the walk is that list -----

  lemma {:induction false} FlattenElements(levels: Levels, prices: seq<Price>)
    ensures forall id :: id in Flatten(levels, prices) <==>
            exists k :: 0 <= k < |prices| && id in Queue(levels, prices[k])
    decreases |prices|
  {
    if prices != [] {
      var rest := prices[1..];
      FlattenElements(levels, rest);
      forall id
        ensures id in Flatten(levels, prices) <==> exists k :: 0 <= k < |prices| && id in Queue(levels, prices[k])
      {
        if id in Flatten(levels, rest) {
          var k :| 0 <= k < |rest| && id in Queue(levels, rest[k]);
          assert prices[k + 1] == rest[k];
        }
        if k :| 0 <= k < |prices| && id in Queue(levels, prices[k]) {
          assert k == 0 || prices[k] == rest[k - 1];
        }
      }
    }
  }

  lemma QueueSorted(b: Book, side: OrderSide, price: Price)
    requires IndexInv(b) && Fifo(b) && SequencesUnique(b) && price in b.Side(side)
    ensures Sorted((x, y) => Precedes(b, side, x, y), b.Side(side)[price])
  {
    var queue := b.Side(side)[price];
    assert LevelOk(b, side, price);
    forall i, j | 0 <= i < j < |queue| ensures Precedes(b, side, queue[i], queue[j]) {
      assert InOrder(b, queue);
      assert QueuedBefore(b, queue[i], queue[j]);
      assert queue[i] != queue[j] && !SameSequence(b, queue[i], queue[j]);
      assert Rests(b, queue[i], side, price) && Rests(b, queue[j], side, price);
    }
  }

  lemma {:induction false} FlattenSorted(b: Book, side: OrderSide, prices: seq<Price>)
    requires IndexInv(b) && Fifo(b) && SequencesUnique(b)
    requires Sorted((p: Price, q: Price) => Better(side, p, q), prices)
    requires forall p :: p in prices ==> p in b.Side(side)
    ensures Sorted((x, y) => Precedes(b, side, x, y), Flatten(b.Side(side), prices))
    decreases |prices|
  {
    if prices != [] {
      var rest := prices[1..];
      var head, tail := Queue(b.Side(side), prices[0]), Flatten(b.Side(side), rest);
      QueueSorted(b, side, prices[0]);
      FlattenSorted(b, side, rest);
      forall i, j | 0 <= i < |head| && 0 <= j < |tail| ensures Precedes(b, side, head[i], tail[j]) {
        var k := FlattenMember(b.Side(side), rest, j);
        var queue := b.Side(side)[rest[k]];
        assert LevelOk(b, side, prices[0]) && LevelOk(b, side, rest[k]);
        var m :| 0 <= m < |queue| && queue[m] == tail[j];
        assert Rests(b, head[i], side, prices[0]) && Rests(b, queue[m], side, rest[k]);
        assert Better(side, prices[0], prices[k + 1]);
      }
    }
  }

  lemma MakersContend(b: Book, taker: OrderIntent, id: OrderId)
    requires IndexInv(b)
    ensures id in Makers(b, taker) <==> Contends(b, taker, id)
  {
    var side := taker.side.Opposite();
    var crossing := CrossingPrices(b, taker);
    var prices := BestFirst(side, crossing);
    BestFirstSorted(side, crossing);
    FlattenElements(b.Side(side), prices);
    if id in Makers(b, taker) {
      var i :| 0 <= i < |Makers(b, taker)| && Makers(b, taker)[i] == id;
      MakersRest(b, taker, i);
    }
    if Contends(b, taker, id) {
      assert Listed(b, id);
      var p := b.orders[id].intent.price;
      assert p in crossing;
      var k :| 0 <= k < |prices| && prices[k] == p;
      assert id in Queue(b.Side(side), prices[k]);
    }
  }

  /** The engine serves makers by best price, then acceptance order; no other list does so. */
  lemma MakersArePriorityList(b: Book, taker: OrderIntent)
    requires IndexInv(b) && Fifo(b) && SequencesUnique(b)
    ensures forall ids :: IsPriorityList(b, taker, ids) <==> ids == Makers(b, taker)
  {
    var side := taker.side.Opposite();
    forall id ensures id in Makers(b, taker) <==> Contends(b, taker, id) {
      MakersContend(b, taker, id);
    }
    BestFirstSorted(side, CrossingPrices(b, taker));
    FlattenSorted(b, side, BestFirst(side, CrossingPrices(b, taker)));
    assert IsPriorityList(b, taker, Makers(b, taker));
    forall ids | IsPriorityList(b, taker, ids) ensures ids == Makers(b, taker) {
      SortedUnique((x, y) => Precedes(b, side, x, y), ids, Makers(b, taker));
    }
  }

  // ----- greedy filling -----

  function Liquidity(b: Book, makers: seq<OrderId>): nat {
    if makers == [] then 0 else Left(b, makers[0]) + Liquidity(b, makers[1..])
  }

  function FilledTotal(fills: seq<Fill>): nat {
    if fills == [] then 0 else fills[0].quantity + FilledTotal(fills[1..])
  }

  /** Every maker but the last is emptied, and the total is all that is wanted or all there is. */
  lemma {:induction false} GreedyFills(b: Book, makers: seq<OrderId>, want: Quantity)
    requires forall i :: 0 <= i < |makers| ==> Left(b, makers[i]) > 0
    ensures var fills := Greedy(b, makers, want);
            && |fills| <= |makers|
            && (forall i :: 0 <= i < |fills| ==>
                fills[i].maker == makers[i] && fills[i].price == PriceOf(b, makers[i])
                && 0 < fills[i].quantity <= Left(b, makers[i]))
            && (forall i :: 0 <= i < |fills| - 1 ==> fills[i].quantity == Left(b, makers[i]))
            && FilledTotal(fills) == (if want <= Liquidity(b, makers) then want else Liquidity(b, makers))
            && (FilledTotal(fills) < want ==> |fills| == |makers|)
    decreases |makers|
  {
    if makers != [] && want != 0 {
      var q := Min(want, Left(b, makers[0]));
      var rest := makers[1..];
      GreedyFills(b, rest, want - q);
      var fills := Greedy(b, makers, want);
      assert fills[1..] == Greedy(b, rest, want - q);
      forall i | 0 <= i < |fills|
        ensures fills[i].maker == makers[i] && fills[i].price == PriceOf(b, makers[i])
                && 0 < fills[i].quantity <= Left(b, makers[i])
        ensures i < |fills| - 1 ==> fills[i].quantity == Left(b, makers[i])
      {
        assert i > 0 ==> fills[i] == fills[1..][i - 1] && makers[i] == rest[i - 1];
      }
    }
  }

  /** The event is number `n` of the command. */
  predicate Numbered(command: EngineCommand, n: nat, e: EngineEvent) {
    && e.eventId == Derived(command.commandId, n) && e.causationId == command.commandId
    && e.commandSequence == command.shardSequence && e.occurredAt == command.occurredAt
  }

  /** The event trades `quantity` of the resting order `id` against the incoming order, at the maker's limit. */
  ghost predicate TradesWith(b: Book, command: EngineCommand, intent: OrderIntent, n: nat, id: OrderId,
                             quantity: Quantity, e: EngineEvent)
  {
    && Numbered(command, n, e)
    && e.payload.TradeExecuted?
    && id in b.orders
    && var t := e.payload.trade;
       && t.id == TradeOf(command.commandId, n) && t.occurredAt == command.occurredAt
       && t.tenantId == intent.tenantId && t.domainId == intent.domainId && t.marketId == intent.marketId
       && t.makerOrderId == id && t.takerOrderId == intent.orderId
       && (intent.side.Buy? ==> t.buyOrderId == intent.orderId && t.sellOrderId == id)
       && (intent.side.Sell? ==> t.buyOrderId == id && t.sellOrderId == intent.orderId)
       && t.price == b.orders[id].intent.price
       && t.quantity == quantity
  }

  ghost predicate Emptied(b: Book, id: OrderId, quantity: Quantity) {
    id in b.orders && quantity == b.orders[id].remaining
  }

  lemma ContendersHaveQuantity(b: Book, taker: OrderIntent, ids: seq<OrderId>)
    requires IndexInv(b) && IsPriorityList(b, taker, ids)
    ensures forall i :: 0 <= i < |ids| ==>
            ids[i] in b.orders && b.orders[ids[i]].intent.orderId == ids[i] && Left(b, ids[i]) > 0
  {
    forall i | 0 <= i < |ids|
      ensures ids[i] in b.orders && b.orders[ids[i]].intent.orderId == ids[i] && Left(b, ids[i]) > 0
    {
      assert ids[i] in ids;
      assert OrderOk(b, ids[i]);
    }
  }

  lemma {:induction false} TradeEventsAt(command: EngineCommand, taker: OrderIntent, fills: seq<Fill>, ordinal: nat)
    ensures var events := TradeEvents(command, taker, fills, ordinal);
            && |events| == |fills|
            && forall i :: 0 <= i < |fills| ==> events[i] == TradeEvent(command, ordinal + i, taker, fills[i])
    decreases |fills|
  {
    if fills != [] {
      TradeEventsAt(command, taker, fills[1..], ordinal + 1);
    }
  }

  lemma FillTrades(b: Book, command: EngineCommand, intent: OrderIntent, n: nat, fill: Fill)
    requires fill.maker in b.orders && fill.price == b.orders[fill.maker].intent.price
    ensures TradesWith(b, command, intent, n, fill.maker, fill.quantity, TradeEvent(command, n, intent, fill))
  {
  }

  /** The events of a placement that is granted, one by one. */
  lemma PlaceEvents(b: Book, command: EngineCommand, intent: OrderIntent, fills: seq<Fill>)
    requires DecidePlace(b, command, intent).Ok? && fills == Fills(b, intent)
    requires forall i :: 0 <= i < |fills| ==>
               fills[i].maker in b.orders && fills[i].price == b.orders[fills[i].maker].intent.price
    ensures
      var events := DecidePlace(b, command, intent).value;
      && |events| == 1 + |fills|
      && Numbered(command, 0, events[0]) && events[0].payload == OrderAccepted(intent, command.shardSequence)
      && forall i :: 0 <= i < |fills| ==>
           TradesWith(b, command, intent, i + 1, fills[i].maker, fills[i].quantity, events[i + 1])
  {
    TradeEventsAt(command, intent, fills, 1);
    var events := DecidePlace(b, command, intent).value;
    forall i | 0 <= i < |fills|
      ensures TradesWith(b, command, intent, i + 1, fills[i].maker, fills[i].quantity, events[i + 1])
    {
      assert events[i + 1] == TradeEvent(command, i + 1, intent, fills[i]);
      FillTrades(b, command, intent, i + 1, fills[i]);
    }
  }

  /**
   * Price-time priority: a sound incoming order trades with exactly the contending orders in
   * priority order, each at its own limit price, every maker but the last emptied, for a total of
   * the smaller of its quantity and the crossing liquidity.
   */
  lemma PriceTimePriority(b: Book, command: EngineCommand, intent: OrderIntent, ids: seq<OrderId>)
    requires IndexInv(b) && Fifo(b) && SequencesUnique(b)
    requires IsPriorityList(b, intent, ids)
    requires DecidePlace(b, command, intent).Ok?
    ensures var events := DecidePlace(b, command, intent).value;
            var fills := Greedy(b, ids, intent.quantity);
            && |events| == 1 + |fills| && |fills| <= |ids|
            && Numbered(command, 0, events[0]) && events[0].payload == OrderAccepted(intent, command.shardSequence)
            && (forall i :: 0 <= i < |fills| ==>
                  TradesWith(b, command, intent, i + 1, ids[i], fills[i].quantity, events[i + 1]))
            && (forall i :: 0 <= i < |fills| - 1 ==> Emptied(b, ids[i], fills[i].quantity))
            && FilledTotal(fills) ==
               (if intent.quantity <= Liquidity(b, ids) then intent.quantity else Liquidity(b, ids))
  {
    MakersArePriorityList(b, intent);
    assert ids == Makers(b, intent);
    ContendersHaveQuantity(b, intent, ids);
    GreedyFills(b, ids, intent.quantity);
    PlaceEvents(b, command, intent, Greedy(b, ids, intent.quantity));
  }
}
