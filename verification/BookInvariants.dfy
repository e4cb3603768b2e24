/**
 * The index invariant: the two queue maps say exactly what the order table says. Every event the
 * book accepts keeps it, whoever produced the event.
 */
module BookInvariants {
  import opened Numeric
  import opened Sorting
  import opened Domain
  import opened BookState

  // ----- the invariant -----

  ghost predicate Rests(b: Book, id: OrderId, side: OrderSide, price: Price) {
    && id in b.orders
    && b.orders[id].IsOpen()
    && b.orders[id].intent.side == side
    && b.orders[id].intent.price == price
  }

  ghost predicate LevelOk(b: Book, side: OrderSide, price: Price)
    requires price in b.Side(side)
  {
    var queue := b.Side(side)[price];
    && queue != []
    && Distinct(queue)
    && forall i :: 0 <= i < |queue| ==> Rests(b, queue[i], side, price)
  }

  ghost predicate OrderOk(b: Book, id: OrderId)
    requires id in b.orders
  {
    var o := b.orders[id];
    && o.intent.orderId == id
    && o.intent.marketId == b.market
    && 0 < o.intent.quantity
    && o.remaining <= o.intent.quantity
    && (o.status == Open <==> o.remaining == o.intent.quantity)
    && (o.status == PartiallyFilled <==> 0 < o.remaining < o.intent.quantity)
    && (o.remaining == 0 ==> o.status in {Filled, Cancelled, Expired})
  }

  /** The order is in the queue of its own side and price. */
  ghost predicate Listed(b: Book, id: OrderId) {
    id in b.orders && id in Queue(b.Side(b.orders[id].intent.side), b.orders[id].intent.price)
  }

  ghost predicate InScope(b: Book, tenant: TenantId, domain: DomainId) {
    forall id :: id in b.orders ==> b.orders[id].intent.tenantId == tenant && b.orders[id].intent.domainId == domain
  }

  /** All orders of a book belong to one tenant and domain. */
  ghost predicate OneScope(b: Book) {
    exists tenant, domain :: InScope(b, tenant, domain)
  }

  ghost predicate LevelsOk(b: Book) {
    forall side: OrderSide, price: Price :: price in b.Side(side) ==> LevelOk(b, side, price)
  }

  ghost predicate OrdersOk(b: Book) {
    forall id :: id in b.orders ==> OrderOk(b, id)
  }

  ghost predicate OpenListed(b: Book) {
    forall id {:trigger Listed(b, id)} :: id in b.orders && b.orders[id].IsOpen() ==> Listed(b, id)
  }

  ghost predicate IndexInv(b: Book) {
    LevelsOk(b) && OrdersOk(b) && OpenListed(b) && OneScope(b)
  }

  // ----- queues -----

  lemma {:induction false} WithoutElements(queue: seq<OrderId>, id: OrderId)
    ensures forall x :: x in Without(queue, id) <==> x in queue && x != id
  {
    if queue != [] {
      WithoutElements(queue[1..], id);
      assert queue == [queue[0]] + queue[1..];
    }
  }

  lemma {:induction false} WithoutSorted(lt: (OrderId, OrderId) -> bool, queue: seq<OrderId>, id: OrderId)
    requires Sorted(lt, queue)
    ensures Sorted(lt, Without(queue, id))
  {
    if queue != [] {
      var rest := queue[1..];
      WithoutSorted(lt, rest, id);
      WithoutElements(rest, id);
      var kept := Without(rest, id);
      forall k | 0 <= k < |kept| ensures lt(queue[0], kept[k]) {
        assert kept[k] in kept;
      }
    }
  }

  lemma WithoutDistinct(queue: seq<OrderId>, id: OrderId)
    requires Distinct(queue)
    ensures Distinct(Without(queue, id))
  {
    var ne := (x: OrderId, y: OrderId) => x != y;
    assert Sorted(ne, queue);
    WithoutSorted(ne, queue, id);
    var kept := Without(queue, id);
    forall i, j | 0 <= i < j < |kept| ensures kept[i] != kept[j] {
      assert ne(kept[i], kept[j]);
    }
  }

  // ----- preservation -----

  lemma AcceptLevel(b: Book, intent: OrderIntent, sequence: Sequence, side: OrderSide, price: Price)
    requires IndexInv(b) && AcceptError(b, intent).None?
    requires price in Accept(b, intent, sequence).Side(side)
    ensures LevelOk(Accept(b, intent, sequence), side, price)
  {
    var c := Accept(b, intent, sequence);
    var before := Queue(b.Side(side), price);
    var queue := c.Side(side)[price];
    assert price in b.Side(side) ==> LevelOk(b, side, price);
    forall i | 0 <= i < |before| ensures before[i] != intent.orderId && Rests(c, before[i], side, price) {
      assert Rests(b, before[i], side, price);
    }
    if side == intent.side && price == intent.price {
      assert queue == before + [intent.orderId];
    } else {
      assert queue == before;
    }
  }

  lemma AcceptLevels(b: Book, intent: OrderIntent, sequence: Sequence)
    requires IndexInv(b) && AcceptError(b, intent).None?
    ensures LevelsOk(Accept(b, intent, sequence))
  {
    var c := Accept(b, intent, sequence);
    forall side: OrderSide, price: Price | price in c.Side(side) ensures LevelOk(c, side, price) {
      AcceptLevel(b, intent, sequence, side, price);
    }
  }

  lemma AcceptKeeps(b: Book, intent: OrderIntent, sequence: Sequence)
    requires IndexInv(b) && AcceptError(b, intent).None?
    ensures IndexInv(Accept(b, intent, sequence))
  {
    AcceptLevels(b, intent, sequence);
    var c := Accept(b, intent, sequence);
    forall id | id in c.orders ensures OrderOk(c, id) {
      if id != intent.orderId {
        assert OrderOk(b, id);
      }
    }
    forall id | id in c.orders && c.orders[id].IsOpen() ensures Listed(c, id) {
      if id != intent.orderId {
        assert Listed(b, id);
      }
    }
    assert InScope(c, intent.tenantId, intent.domainId) by {
      assert forall id :: id in b.orders ==> SameScope(b.orders[id], intent);
    }
  }

  /** What a settlement may do to an open order: leave less of it, under the matching status. */
  ghost predicate SettlesTo(o: OrderView, remaining: Quantity, status: OrderStatus) {
    && remaining <= o.remaining
    && (remaining > 0 ==> status == (if remaining == o.intent.quantity then Open else PartiallyFilled))
    && (remaining == 0 ==> status in {Filled, Cancelled, Expired})
  }

  lemma SettleQueue(b: Book, id: OrderId, remaining: Quantity, status: OrderStatus,
                    side: OrderSide, price: Price)
    requires IndexInv(b) && id in b.orders && b.orders[id].IsOpen()
    requires SettlesTo(b.orders[id], remaining, status)
    ensures var c := Settle(b, id, remaining, status);
            && (forall x :: x in Queue(c.Side(side), price)
                  <==> x in Queue(b.Side(side), price) && (x == id ==> remaining > 0))
            && (price in c.Side(side) ==> price in b.Side(side) && c.Side(side)[price] != [])
            && Distinct(Queue(c.Side(side), price))
  {
    var o := b.orders[id];
    var c := Settle(b, id, remaining, status);
    var queue := Queue(b.Side(side), price);
    assert price in b.Side(side) ==> LevelOk(b, side, price);
    if id in queue {
      var k :| 0 <= k < |queue| && queue[k] == id;
      assert Rests(b, queue[k], side, price);
    }
    if remaining == 0 && side == o.intent.side && price == o.intent.price {
      WithoutElements(queue, id);
      WithoutDistinct(queue, id);
    }
  }

  lemma SettleLevels(b: Book, id: OrderId, remaining: Quantity, status: OrderStatus)
    requires IndexInv(b) && id in b.orders && b.orders[id].IsOpen()
    requires SettlesTo(b.orders[id], remaining, status)
    ensures LevelsOk(Settle(b, id, remaining, status))
  {
    var c := Settle(b, id, remaining, status);
    forall side: OrderSide, price: Price | price in c.Side(side) ensures LevelOk(c, side, price) {
      SettleQueue(b, id, remaining, status, side, price);
      var queue := c.Side(side)[price];
      var before := b.Side(side)[price];
      assert LevelOk(b, side, price);
      forall i | 0 <= i < |queue| ensures Rests(c, queue[i], side, price) {
        assert queue[i] in Queue(c.Side(side), price);
        var k :| 0 <= k < |before| && before[k] == queue[i];
        assert Rests(b, before[k], side, price);
      }
    }
  }

  lemma SettleKeeps(b: Book, id: OrderId, remaining: Quantity, status: OrderStatus)
    requires IndexInv(b) && id in b.orders && b.orders[id].IsOpen()
    requires SettlesTo(b.orders[id], remaining, status)
    ensures IndexInv(Settle(b, id, remaining, status))
  {
    SettleLevels(b, id, remaining, status);
    var c := Settle(b, id, remaining, status);
    forall x | x in c.orders ensures OrderOk(c, x) {
      assert OrderOk(b, x);
    }
    forall x | x in c.orders && c.orders[x].IsOpen() ensures Listed(c, x) {
      assert Listed(b, x);
      SettleQueue(b, id, remaining, status, c.orders[x].intent.side, c.orders[x].intent.price);
    }
    var tenant, domain :| InScope(b, tenant, domain);
    assert InScope(c, tenant, domain);
  }

  lemma ReduceSettles(o: OrderView, remaining: Quantity)
    requires remaining <= o.remaining
    ensures SettlesTo(o, remaining, StatusAfter(o, remaining))
  {
  }

  lemma ReduceKeeps(b: Book, id: OrderId, quantity: Quantity)
    requires IndexInv(b) && id in b.orders && b.orders[id].IsOpen() && quantity <= b.orders[id].remaining
    ensures IndexInv(Reduce(b, id, quantity))
  {
    var o := b.orders[id];
    ReduceSettles(o, o.remaining - quantity);
    SettleKeeps(b, id, o.remaining - quantity, StatusAfter(o, o.remaining - quantity));
  }

  lemma ExecuteKeeps(b: Book, t: Trade)
    requires IndexInv(b) && TradeError(b, t).None?
    ensures IndexInv(Execute(b, t))
  {
    ReduceKeeps(b, t.makerOrderId, t.quantity);
    ReduceKeeps(Reduce(b, t.makerOrderId, t.quantity), t.takerOrderId, t.quantity);
  }

  lemma EffectKeeps(b: Book, payload: MatchingEvent)
    requires IndexInv(b) && EventError(b, payload).None?
    ensures IndexInv(Effect(b, payload))
  {
    match payload
    case OrderAccepted(intent, sequence) => AcceptKeeps(b, intent, sequence);
    case TradeExecuted(t) => ExecuteKeeps(b, t);
    case OrderCancelled(id, _) => SettleKeeps(b, id, 0, Cancelled);
    case OrderExpired(id, _) => SettleKeeps(b, id, 0, Expired);
  }

  lemma MarkKeeps(b: Book, e: EngineEvent)
    requires IndexInv(b)
    ensures IndexInv(Mark(b, e))
  {
    var c := Mark(b, e);
    forall side: OrderSide, price: Price | price in c.Side(side) ensures LevelOk(c, side, price) {
      assert LevelOk(b, side, price);
      var queue := c.Side(side)[price];
      assert forall i :: 0 <= i < |queue| ==> Rests(b, queue[i], side, price);
    }
    forall id | id in c.orders ensures OrderOk(c, id) {
      assert OrderOk(b, id);
    }
    forall id | id in c.orders && c.orders[id].IsOpen() ensures Listed(c, id) {
      assert Listed(b, id);
    }
    var tenant, domain :| InScope(b, tenant, domain);
    assert InScope(c, tenant, domain);
  }

  /** Any event whatever, applied to a sound book, leaves a sound book. */
  lemma ApplyKeeps(b: Book, e: EngineEvent)
    requires IndexInv(b)
    ensures IndexInv(Apply(b, e))
  {
    if Applies(b, e) {
      EffectKeeps(b, e.payload);
      MarkKeeps(Effect(b, e.payload), e);
    }
  }

  // ----- what the invariant says -----

  lemma {:induction false} CountDistinct(queue: seq<OrderId>, id: OrderId)
    requires Distinct(queue)
    ensures multiset(queue)[id] == if id in queue then 1 else 0
  {
    if queue != [] {
      CountDistinct(queue[1..], id);
      assert queue == [queue[0]] + queue[1..];
      assert queue[0] !in queue[1..];
    }
  }

  /** An order has quantity left exactly when it is open, and exactly then it is queued once, in its own level. */
  lemma ListedExactlyOnce(b: Book, id: OrderId, side: OrderSide, price: Price)
    requires IndexInv(b) && id in b.orders
    ensures b.orders[id].IsOpen() <==> b.orders[id].remaining > 0
    ensures var o := b.orders[id];
            multiset(Queue(b.Side(side), price))[id] ==
              if o.remaining > 0 && o.intent.side == side && o.intent.price == price then 1 else 0
    ensures price in b.Side(side) ==> b.Side(side)[price] != []
  {
    assert OrderOk(b, id) && (b.orders[id].IsOpen() ==> Listed(b, id));
    var queue := Queue(b.Side(side), price);
    assert price in b.Side(side) ==> LevelOk(b, side, price);
    CountDistinct(queue, id);
    if id in queue {
      var k :| 0 <= k < |queue| && queue[k] == id;
      assert Rests(b, queue[k], side, price);
    }
  }

  /** Whether an event would change the order `id`. */
  predicate Touches(payload: MatchingEvent, id: OrderId) {
    match payload
    case OrderAccepted(intent, _) => intent.orderId == id
    case TradeExecuted(t) => t.makerOrderId == id || t.takerOrderId == id
    case OrderCancelled(x, _) => x == id
    case OrderExpired(x, _) => x == id
  }

  /** Event `k` is accepted where a stream delivers it. */
  predicate AcceptedAt(b: Book, events: seq<EngineEvent>, k: nat) {
    k < |events| && Applies(Replay(b, events[..k]), events[k])
  }

  lemma ClosedRefuses(b: Book, e: EngineEvent, id: OrderId)
    requires id in b.orders && !b.orders[id].IsOpen() && Applies(b, e)
    ensures !Touches(e.payload, id)
  {
  }

  /**
   * A closed order is final: no event stream changes it, and of any stream only events that do not name it
   * are accepted.
   */
  lemma {:induction false} ClosedIsFinal(b: Book, events: seq<EngineEvent>, id: OrderId)
    requires id in b.orders && !b.orders[id].IsOpen()
    ensures id in Replay(b, events).orders && Replay(b, events).orders[id] == b.orders[id]
    ensures forall k: nat :: AcceptedAt(b, events, k) ==> !Touches(events[k].payload, id)
    decreases |events|
  {
    if events != [] {
      ClosedIsFinal(Apply(b, events[0]), events[1..], id);
      forall k: nat | AcceptedAt(b, events, k) ensures !Touches(events[k].payload, id) {
        if k == 0 {
          assert events[..0] == [];
          ClosedRefuses(b, events[0], id);
        } else {
          assert events[..k][1..] == events[1..][..k - 1];
          assert AcceptedAt(Apply(b, events[0]), events[1..], k - 1);
        }
      }
    }
  }

  // ----- time priority -----

  /** The order in which snapshots list orders: acceptance sequence, then identifier. */
  predicate KeyBefore(x: OrderView, y: OrderView) {
    || x.acceptedSequence < y.acceptedSequence
    || (x.acceptedSequence == y.acceptedSequence && x.intent.orderId < y.intent.orderId)
  }

  predicate QueuedBefore(b: Book, x: OrderId, y: OrderId) {
    x in b.orders && y in b.orders && KeyBefore(b.orders[x], b.orders[y])
  }

  ghost predicate InOrder(b: Book, queue: seq<OrderId>) {
    Sorted((x, y) => QueuedBefore(b, x, y), queue)
  }

  /** Every queue is first in, first out by acceptance. */
  ghost predicate Fifo(b: Book) {
    forall side: OrderSide, price: Price :: price in b.Side(side) ==> InOrder(b, b.Side(side)[price])
  }

  ghost predicate SameSequence(b: Book, i: OrderId, j: OrderId) {
    i in b.orders && j in b.orders && b.orders[i].acceptedSequence == b.orders[j].acceptedSequence
  }

  /** No two orders share an acceptance sequence. */
  ghost predicate SequencesUnique(b: Book) {
    forall i, j :: SameSequence(b, i, j) ==> i == j
  }
}
