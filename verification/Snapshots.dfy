/**
 * Snapshots keep the order table and drop the queues; restoring pushes the open orders back in
 * snapshot order. On a sound book this is the identity exactly when every queue is FIFO.
 */
module Snapshots {
  import opened Wrappers
  import opened Numeric
  import opened Sorting
  import Histories
  import opened Domain
  import opened BookState
  import opened BookInvariants
  import opened LiveRuns

  datatype Snapshot = Snapshot(
    market: MarketId, lastSequence: Sequence, orders: seq<OrderView>,
    processed: seq<EventId>, applied: seq<EventId>)

  // ----- what a snapshot is, whatever order the hash tables were read in -----

  ghost predicate Lists<T(!new)>(lt: (T, T) -> bool, xs: seq<T>, s: iset<T>) {
    Sorted(lt, xs) && forall x :: x in xs <==> x in s
  }

  ghost predicate IsSnapshot(b: Book, s: Snapshot) {
    && s.market == b.market
    && s.lastSequence == b.lastSequence
    && Lists(KeyBefore, s.orders, iset id | id in b.orders :: b.orders[id])
    && Lists(IdBefore, s.processed, iset c | c in b.processed)
    && Lists(IdBefore, s.applied, iset e | e in b.applied)
  }

  lemma {:induction false} IdBeforeTransitive(x: EventId, y: EventId, z: EventId)
    requires IdBefore(x, y) && IdBefore(y, z)
    ensures IdBefore(x, z)
  {
    if x.Derived? && y.Derived? && z.Derived? {
      if IdBefore(x.command, y.command) && IdBefore(y.command, z.command) {
        IdBeforeTransitive(x.command, y.command, z.command);
      }
    }
  }

  lemma {:induction false} IdBeforeIrreflexive(x: EventId)
    ensures !IdBefore(x, x)
  {
    if x.Derived? { IdBeforeIrreflexive(x.command); }
  }

  lemma {:induction false} IdBeforeTotal(x: EventId, y: EventId)
    requires x != y
    ensures IdBefore(x, y) || IdBefore(y, x)
  {
    if x.Derived? && y.Derived? && x.command != y.command {
      IdBeforeTotal(x.command, y.command);
    }
  }

  lemma Orders()
    ensures StrictOrder(KeyBefore) && StrictOrder(IdBefore)
  {
    forall x ensures !IdBefore(x, x) { IdBeforeIrreflexive(x); }
    forall x, y, z | IdBefore(x, y) && IdBefore(y, z) ensures IdBefore(x, z) { IdBeforeTransitive(x, y, z); }
  }

  /** The snapshot of a book does not depend on how its hash tables iterate. */
  lemma SnapshotUnique(b: Book, s: Snapshot, t: Snapshot)
    requires IsSnapshot(b, s) && IsSnapshot(b, t)
    ensures s == t
  {
    Orders();
    SortedUnique(KeyBefore, s.orders, t.orders);
    SortedUnique(IdBefore, s.processed, t.processed);
    SortedUnique(IdBefore, s.applied, t.applied);
  }

  // ----- restoring -----

  function RestoreOne(b: Book, o: OrderView): Result<Book, EngineError> {
    var scope := ScopeError(b, o.intent);
    if scope.Some? then Err(scope.value)
    else if o.intent.orderId in b.orders then Err(EventInvariant(DuplicateSnapshotOrder(o.intent.orderId)))
    else
      var side := o.intent.side;
      var listed :=
        if o.IsOpen() then b.WithSide(side, PushLevel(b.Side(side), o.intent.price, o.intent.orderId)) else b;
      Ok(listed.(orders := b.orders[o.intent.orderId := o]))
  }

  function RestoreOrders(b: Book, orders: seq<OrderView>): Result<Book, EngineError> {
    if orders == [] then Ok(b)
    else
      match RestoreOrders(b, orders[..|orders| - 1])
      case Err(e) => Err(e)
      case Ok(c) => RestoreOne(c, orders[|orders| - 1])
  }

  function Base(s: Snapshot): Book {
    NewBook(s.market).(
      lastSequence := s.lastSequence,
      processed := (set c | c in s.processed),
      applied := (set e | e in s.applied))
  }

  function Restore(s: Snapshot): Result<Book, EngineError> {
    RestoreOrders(Base(s), s.orders)
  }

  /** The queue a list of orders gives one level. */
  function Listing(orders: seq<OrderView>, side: OrderSide, price: Price): seq<OrderId> {
    if orders == [] then []
    else
      var o := orders[|orders| - 1];
      Listing(orders[..|orders| - 1], side, price)
      + if o.IsOpen() && o.intent.side == side && o.intent.price == price then [o.intent.orderId] else []
  }

  predicate IsId(o: OrderView, id: OrderId) {
    o.intent.orderId == id
  }

  /** The table holds exactly these orders. */
  ghost predicate HoldsOrders(b: Book, orders: seq<OrderView>) {
    && (forall id :: id in b.orders ==> exists i :: 0 <= i < |orders| && IsId(orders[i], id))
    && (forall i :: 0 <= i < |orders| ==>
        orders[i].intent.orderId in b.orders && b.orders[orders[i].intent.orderId] == orders[i])
  }

  ghost predicate HoldsLevel(b: Book, orders: seq<OrderView>, side: OrderSide, price: Price) {
    && Queue(b.Side(side), price) == Listing(orders, side, price)
    && (price in b.Side(side) ==> b.Side(side)[price] != [])
  }

  /** Every level is queued as the orders are listed. */
  ghost predicate HoldsQueues(b: Book, orders: seq<OrderView>) {
    forall side: OrderSide, price: Price :: HoldsLevel(b, orders, side, price)
  }

  /** An order of this market and scope, with none of these identifiers. */
  ghost predicate Fits(market: MarketId, tenant: TenantId, domain: DomainId, orders: seq<OrderView>, o: OrderView) {
    && o.intent.marketId == market && o.intent.tenantId == tenant && o.intent.domainId == domain
    && forall i :: 0 <= i < |orders| ==> !IsId(orders[i], o.intent.orderId)
  }

  /** The orders of one book: different identifiers, one market, one tenant and domain. */
  ghost predicate Restorable(market: MarketId, tenant: TenantId, domain: DomainId, orders: seq<OrderView>) {
    forall i :: 0 <= i < |orders| ==> Fits(market, tenant, domain, orders[..i], orders[i])
  }

  lemma RestoreOneOk(b: Book, tenant: TenantId, domain: DomainId, orders: seq<OrderView>, o: OrderView)
    requires HoldsOrders(b, orders) && InScope(b, tenant, domain)
    requires Fits(b.market, tenant, domain, orders, o)
    ensures RestoreOne(b, o).Ok?
    ensures var c := RestoreOne(b, o).value;
            InScope(c, tenant, domain) && c.orders == b.orders[o.intent.orderId := o]
            && o.intent.orderId !in b.orders
  {
  }

  lemma RestoreOneOrders(b: Book, orders: seq<OrderView>, o: OrderView, c: Book)
    requires HoldsOrders(b, orders) && c.orders == b.orders[o.intent.orderId := o] && o.intent.orderId !in b.orders
    ensures HoldsOrders(c, orders + [o])
  {
    var all := orders + [o];
    assert all[|orders|] == o && forall i :: 0 <= i < |orders| ==> all[i] == orders[i];
    forall id | id in c.orders ensures exists i :: 0 <= i < |all| && IsId(all[i], id) {
      if id == o.intent.orderId {
        assert IsId(all[|orders|], id);
      } else {
        var i :| 0 <= i < |orders| && IsId(orders[i], id);
        assert IsId(all[i], id);
      }
    }
  }

  lemma RestoreOneQueues(b: Book, orders: seq<OrderView>, o: OrderView)
    requires HoldsQueues(b, orders) && RestoreOne(b, o).Ok?
    ensures HoldsQueues(RestoreOne(b, o).value, orders + [o])
  {
    var c, all := RestoreOne(b, o).value, orders + [o];
    assert all[..|all| - 1] == orders && all[|all| - 1] == o;
    forall side: OrderSide, price: Price ensures HoldsLevel(c, all, side, price) {
      assert HoldsLevel(b, orders, side, price);
    }
  }

  ghost predicate Restored(base: Book, c: Book, orders: seq<OrderView>, tenant: TenantId, domain: DomainId) {
    && c == base.(orders := c.orders, bids := c.bids, asks := c.asks)
    && HoldsOrders(c, orders) && HoldsQueues(c, orders) && InScope(c, tenant, domain)
  }

  lemma RestoreStep(base: Book, b: Book, orders: seq<OrderView>, o: OrderView, tenant: TenantId, domain: DomainId)
    returns (c: Book)
    requires Restored(base, b, orders, tenant, domain) && Fits(base.market, tenant, domain, orders, o)
    ensures RestoreOne(b, o) == Ok(c) && Restored(base, c, orders + [o], tenant, domain)
  {
    RestoreOneOk(b, tenant, domain, orders, o);
    c := RestoreOne(b, o).value;
    RestoreOneOrders(b, orders, o, c);
    RestoreOneQueues(b, orders, o);
  }

  lemma RestorablePrefix(market: MarketId, tenant: TenantId, domain: DomainId, orders: seq<OrderView>, n: nat)
    requires n <= |orders| && Restorable(market, tenant, domain, orders)
    ensures Restorable(market, tenant, domain, orders[..n])
  {
    forall i | 0 <= i < n ensures Fits(market, tenant, domain, orders[..n][..i], orders[..n][i]) {
      assert orders[..n][..i] == orders[..i];
    }
  }

  /** The last order restores into the book that the others gave. */
  lemma RestoreLast(base: Book, b: Book, orders: seq<OrderView>, tenant: TenantId, domain: DomainId) returns (c: Book)
    requires orders != [] && Restored(base, b, orders[..|orders| - 1], tenant, domain)
    requires Fits(base.market, tenant, domain, orders[..|orders| - 1], orders[|orders| - 1])
    ensures RestoreOne(b, orders[|orders| - 1]) == Ok(c) && Restored(base, c, orders, tenant, domain)
  {
    var n := |orders| - 1;
    c := RestoreStep(base, b, orders[..n], orders[n], tenant, domain);
    assert orders[..n] + [orders[n]] == orders;
  }

  lemma {:induction false} RestoreAll(base: Book, orders: seq<OrderView>, tenant: TenantId, domain: DomainId)
    returns (c: Book)
    requires base.orders == map[] && base.bids == map[] && base.asks == map[]
    requires Restorable(base.market, tenant, domain, orders)
    ensures RestoreOrders(base, orders) == Ok(c)
    ensures Restored(base, c, orders, tenant, domain)
    decreases |orders|
  {
    if orders == [] {
      c := base;
    } else {
      var n := |orders| - 1;
      RestorablePrefix(base.market, tenant, domain, orders, n);
      var b := RestoreAll(base, orders[..n], tenant, domain);
      c := RestoreLast(base, b, orders, tenant, domain);
    }
  }

  lemma ScopeOfFirst(c: Book, orders: seq<OrderView>, o: OrderView, tenant: TenantId, domain: DomainId)
    requires HoldsOrders(c, orders) && InScope(c, tenant, domain) && RestoreOne(c, o).Ok?
    ensures Fits(c.market, o.intent.tenantId, o.intent.domainId, orders, o)
    ensures orders != [] ==> o.intent.tenantId == tenant && o.intent.domainId == domain
  {
    forall i | 0 <= i < |orders| ensures !IsId(orders[i], o.intent.orderId) && SameScope(orders[i], o.intent) {
      assert orders[i].intent.orderId in c.orders;
    }
    if orders != [] {
      assert orders[0].intent.orderId in c.orders;
    }
  }

  lemma RestorableSnoc(market: MarketId, tenant: TenantId, domain: DomainId, orders: seq<OrderView>)
    requires orders != []
    requires Restorable(market, tenant, domain, orders[..|orders| - 1])
    requires Fits(market, tenant, domain, orders[..|orders| - 1], orders[|orders| - 1])
    ensures Restorable(market, tenant, domain, orders)
  {
    var n := |orders| - 1;
    forall i | 0 <= i < |orders| ensures Fits(market, tenant, domain, orders[..i], orders[i]) {
      if i < n {
        assert orders[..n][..i] == orders[..i] && orders[..n][i] == orders[i];
      }
    }
  }

  /** Orders that restore belong to one market, tenant and domain, under different identifiers. */
  lemma {:induction false} RestoredOrdersFit(base: Book, orders: seq<OrderView>)
    returns (tenant: TenantId, domain: DomainId)
    requires base.orders == map[] && base.bids == map[] && base.asks == map[]
    requires RestoreOrders(base, orders).Ok?
    ensures Restorable(base.market, tenant, domain, orders)
    decreases |orders|
  {
    tenant, domain := 0, 0;
    if orders != [] {
      var n := |orders| - 1;
      tenant, domain := RestoredOrdersFit(base, orders[..n]);
      var c := RestoreAll(base, orders[..n], tenant, domain);
      ScopeOfFirst(c, orders[..n], orders[n], tenant, domain);
      tenant, domain := orders[n].intent.tenantId, orders[n].intent.domainId;
      RestorableSnoc(base.market, tenant, domain, orders);
    }
  }

  /**
   * A snapshot restores exactly when its orders have different identifiers and one market, tenant and
   * domain. The book then has exactly these orders, each level queues its open ones as they are listed,
   * and the sequence and both memories are the snapshot's.
   */
  lemma RestoreExactly(s: Snapshot)
    ensures Restore(s).Ok? <==> exists tenant, domain :: Restorable(s.market, tenant, domain, s.orders)
    ensures Restore(s).Ok? ==>
              var c := Restore(s).value;
              && c.market == s.market && c.lastSequence == s.lastSequence
              && c.processed == (set x | x in s.processed) && c.applied == (set x | x in s.applied)
              && HoldsOrders(c, s.orders) && HoldsQueues(c, s.orders)
  {
    if Restore(s).Ok? {
      var tenant, domain := RestoredOrdersFit(Base(s), s.orders);
      var c := RestoreAll(Base(s), s.orders, tenant, domain);
    }
    if tenant, domain :| Restorable(s.market, tenant, domain, s.orders) {
      var c := RestoreAll(Base(s), s.orders, tenant, domain);
    }
  }

  // ----- identity -----

  lemma {:induction false} ListingElements(orders: seq<OrderView>, side: OrderSide, price: Price, id: OrderId)
    ensures id in Listing(orders, side, price) <==>
            exists i :: 0 <= i < |orders| && IsId(orders[i], id) && orders[i].IsOpen()
                        && orders[i].intent.side == side && orders[i].intent.price == price
  {
    if orders != [] {
      var n := |orders| - 1;
      ListingElements(orders[..n], side, price, id);
      if i :| 0 <= i < |orders| && IsId(orders[i], id) && orders[i].IsOpen()
              && orders[i].intent.side == side && orders[i].intent.price == price {
        assert i < n ==> orders[..n][i] == orders[i];
      }
    }
  }

  lemma {:induction false} ListingSorted(b: Book, orders: seq<OrderView>, side: OrderSide, price: Price)
    requires Sorted(KeyBefore, orders)
    requires forall i :: 0 <= i < |orders| ==>
             orders[i].intent.orderId in b.orders && b.orders[orders[i].intent.orderId] == orders[i]
    ensures Sorted((x, y) => QueuedBefore(b, x, y), Listing(orders, side, price))
  {
    if orders != [] {
      var n := |orders| - 1;
      var init := orders[..n];
      ListingSorted(b, init, side, price);
      var listed := Listing(init, side, price);
      forall k | 0 <= k < |listed| ensures QueuedBefore(b, listed[k], orders[n].intent.orderId) {
        ListingElements(init, side, price, listed[k]);
        var i :| 0 <= i < |init| && IsId(init[i], listed[k]);
        assert KeyBefore(orders[i], orders[n]);
      }
    }
  }

  lemma SnapshotRestorable(b: Book, s: Snapshot, tenant: TenantId, domain: DomainId)
    requires IndexInv(b) && IsSnapshot(b, s) && InScope(b, tenant, domain)
    ensures Restorable(b.market, tenant, domain, s.orders)
    ensures HoldsOrders(b, s.orders)
  {
    var all := iset id | id in b.orders :: b.orders[id];
    forall i | 0 <= i < |s.orders|
      ensures var o := s.orders[i];
              o.intent.orderId in b.orders && b.orders[o.intent.orderId] == o && o.intent.marketId == b.market
    {
      assert s.orders[i] in all;
      var id :| id in b.orders && b.orders[id] == s.orders[i];
      assert OrderOk(b, id);
    }
    forall id | id in b.orders ensures exists i :: 0 <= i < |s.orders| && IsId(s.orders[i], id) {
      assert OrderOk(b, id);
      assert b.orders[id] in all;
      var i :| 0 <= i < |s.orders| && s.orders[i] == b.orders[id];
      assert IsId(s.orders[i], id);
    }
    forall i | 0 <= i < |s.orders| ensures Fits(b.market, tenant, domain, s.orders[..i], s.orders[i]) {
      forall j | 0 <= j < i ensures !IsId(s.orders[..i][j], s.orders[i].intent.orderId) {
        assert KeyBefore(s.orders[j], s.orders[i]);
      }
    }
  }

  lemma ListingMatches(b: Book, orders: seq<OrderView>, side: OrderSide, price: Price)
    requires IndexInv(b) && HoldsOrders(b, orders)
    ensures SameElements(Queue(b.Side(side), price), Listing(orders, side, price))
  {
    var queue := Queue(b.Side(side), price);
    forall id ensures id in queue <==> id in Listing(orders, side, price) {
      ListingElements(orders, side, price, id);
      if id in queue {
        assert LevelOk(b, side, price);
        var k :| 0 <= k < |queue| && queue[k] == id;
        assert Rests(b, queue[k], side, price);
        var i :| 0 <= i < |orders| && IsId(orders[i], id);
      }
      if i :| 0 <= i < |orders| && IsId(orders[i], id) && orders[i].IsOpen()
              && orders[i].intent.side == side && orders[i].intent.price == price {
        assert Listed(b, id);
      }
    }
  }

  lemma QueuedBeforeStrict(b: Book)
    ensures StrictOrder((x, y) => QueuedBefore(b, x, y))
  {
  }

  /** A level of a sound book is FIFO exactly when it reads as the snapshot lists it. */
  lemma FifoLevel(b: Book, s: Snapshot, side: OrderSide, price: Price)
    requires IndexInv(b) && IsSnapshot(b, s) && HoldsOrders(b, s.orders)
    ensures InOrder(b, Queue(b.Side(side), price)) <==> Queue(b.Side(side), price) == Listing(s.orders, side, price)
  {
    ListingMatches(b, s.orders, side, price);
    ListingSorted(b, s.orders, side, price);
    QueuedBeforeStrict(b);
    if InOrder(b, Queue(b.Side(side), price)) {
      SortedUnique((x, y) => QueuedBefore(b, x, y), Queue(b.Side(side), price), Listing(s.orders, side, price));
    }
  }

  /** A sound book is FIFO exactly when all its queues read as the snapshot lists them. */
  lemma FifoHolds(b: Book, s: Snapshot)
    requires IndexInv(b) && IsSnapshot(b, s) && HoldsOrders(b, s.orders)
    ensures HoldsQueues(b, s.orders) <==> Fifo(b)
  {
    if Fifo(b) {
      forall side: OrderSide, price: Price ensures HoldsLevel(b, s.orders, side, price) {
        FifoLevel(b, s, side, price);
        assert price in b.Side(side) ==> LevelOk(b, side, price) && InOrder(b, b.Side(side)[price]);
      }
    }
    if HoldsQueues(b, s.orders) {
      forall side: OrderSide, price: Price | price in b.Side(side) ensures InOrder(b, b.Side(side)[price]) {
        assert HoldsLevel(b, s.orders, side, price);
        FifoLevel(b, s, side, price);
      }
    }
  }

  lemma SameSide(b: Book, c: Book, orders: seq<OrderView>, side: OrderSide)
    requires HoldsQueues(b, orders) && HoldsQueues(c, orders)
    ensures b.Side(side) == c.Side(side)
  {
    var l, m := b.Side(side), c.Side(side);
    forall price: Price ensures Queue(l, price) == Queue(m, price) && (price in l <==> price in m) {
      assert HoldsLevel(b, orders, side, price) && HoldsLevel(c, orders, side, price);
    }
    forall price: Price | price in l ensures l[price] == m[price] {
      assert Queue(l, price) == Queue(m, price);
    }
    assert l.Keys == m.Keys;
  }

  lemma SameTable(b: Book, c: Book, orders: seq<OrderView>)
    requires HoldsOrders(b, orders) && HoldsOrders(c, orders)
    ensures b.orders == c.orders
  {
    forall id | id in b.orders ensures id in c.orders && c.orders[id] == b.orders[id] {
      var i :| 0 <= i < |orders| && IsId(orders[i], id);
    }
    forall id | id in c.orders ensures id in b.orders {
      var i :| 0 <= i < |orders| && IsId(orders[i], id);
    }
  }

  lemma SameBook(b: Book, c: Book, s: Snapshot)
    requires IsSnapshot(b, s) && c == Base(s).(orders := c.orders, bids := c.bids, asks := c.asks)
    requires HoldsOrders(b, s.orders) && HoldsOrders(c, s.orders)
    requires HoldsQueues(b, s.orders) && HoldsQueues(c, s.orders)
    ensures b == c
  {
    SameTable(b, c, s.orders);
    SameSide(b, c, s.orders, Buy);
    SameSide(b, c, s.orders, Sell);
    assert Base(s).processed == b.processed && Base(s).applied == b.applied;
  }

  /**
   * Snapshot then restore succeeds on every sound book, and gives back the same book, queues
   * included, exactly when every queue is FIFO by acceptance.
   */
  lemma RestoreIsIdentity(b: Book, s: Snapshot)
    requires IndexInv(b) && IsSnapshot(b, s)
    ensures Restore(s).Ok?
    ensures Restore(s).value == b <==> Fifo(b)
  {
    var tenant, domain :| InScope(b, tenant, domain);
    SnapshotRestorable(b, s, tenant, domain);
    var c := RestoreAll(Base(s), s.orders, tenant, domain);
    FifoHolds(b, s);
    if HoldsQueues(b, s.orders) {
      SameBook(b, c, s);
    }
  }

  // ----- a sound book that does not restore to itself -----

  function Bid(id: OrderId): OrderIntent {
    OrderIntent(id, 0, 0, 0, Buy, 5, 1, 0, None)
  }

  function BidAccepted(id: OrderId, sequence: Sequence): EngineEvent {
    EngineEvent(Minted(id), Minted(id + 10), sequence, 0, OrderAccepted(Bid(id), sequence))
  }

  /** Two bids at one price, the second with the smaller acceptance sequence. */
  const SWAPPED: seq<EngineEvent> := [BidAccepted(1, 5), BidAccepted(2, 3)]

  const SWAPPED_SNAPSHOT: Snapshot :=
    Snapshot(0, 5, [OrderView(Bid(2), 1, Open, 3), OrderView(Bid(1), 1, Open, 5)],
             [Minted(11), Minted(12)], [Minted(1), Minted(2)])

  lemma FirstBid() returns (one: Book)
    ensures Applies(NewBook(0), SWAPPED[0]) && one == Apply(NewBook(0), SWAPPED[0]) && IndexInv(one)
    ensures one == Book(0, map[5 := [1]], map[], map[1 := OrderView(Bid(1), 1, Open, 5)], {Minted(11)}, {Minted(1)}, 5)
  {
    assert InScope(NewBook(0), 0, 0);
    one := Apply(NewBook(0), SWAPPED[0]);
    ApplyKeeps(NewBook(0), SWAPPED[0]);
    assert Queue(NewBook(0).bids, 5) + [1] == [1];
    assert one.bids == map[5 := [1]];
  }

  lemma SecondBid(one: Book) returns (b: Book)
    requires one == Book(0, map[5 := [1]], map[], map[1 := OrderView(Bid(1), 1, Open, 5)], {Minted(11)}, {Minted(1)}, 5)
    ensures Applies(one, SWAPPED[1]) && b == Apply(one, SWAPPED[1])
    ensures b.market == 0 && b.lastSequence == 5 && b.bids == map[5 := [1, 2]]
    ensures b.orders == map[1 := OrderView(Bid(1), 1, Open, 5), 2 := OrderView(Bid(2), 1, Open, 3)]
    ensures b.processed == {Minted(11), Minted(12)} && b.applied == {Minted(1), Minted(2)}
  {
    b := Apply(one, SWAPPED[1]);
    assert Queue(one.bids, 5) + [2] == [1, 2];
    assert b.bids == map[5 := [1, 2]];
  }

  lemma TwoEvents(b: Book, e: EngineEvent, f: EngineEvent)
    requires Applies(b, e) && Applies(Apply(b, e), f)
    ensures AllApply(b, [e, f]) && Replay(b, [e, f]) == Apply(Apply(b, e), f)
  {
    var c := Apply(b, e);
    assert [f] + [] == [f] && [e] + [f] == [e, f];
    Histories.ThroughoutCons(Apply, Applies, _ => true, c, f, []);
    Histories.ThroughoutCons(Apply, Applies, _ => true, b, e, [f]);
  }

  lemma SwappedIsSnapshot(b: Book)
    requires b.market == 0 && b.lastSequence == 5
    requires b.orders == map[1 := OrderView(Bid(1), 1, Open, 5), 2 := OrderView(Bid(2), 1, Open, 3)]
    requires b.processed == {Minted(11), Minted(12)} && b.applied == {Minted(1), Minted(2)}
    ensures IsSnapshot(b, SWAPPED_SNAPSHOT)
  {
    var listed := iset id | id in b.orders :: b.orders[id];
    assert b.orders[1] in listed && b.orders[2] in listed;
    assert SWAPPED_SNAPSHOT.orders == [b.orders[2], b.orders[1]];
  }

  lemma SwappedNotFifo(b: Book)
    requires b.bids == map[5 := [1, 2]]
    requires b.orders == map[1 := OrderView(Bid(1), 1, Open, 5), 2 := OrderView(Bid(2), 1, Open, 3)]
    ensures !Fifo(b)
  {
    var queue := b.Side(Buy)[5];
    assert !QueuedBefore(b, queue[0], queue[1]);
    assert !InOrder(b, queue);
  }

  lemma SwappedRestored()
    ensures Restore(SWAPPED_SNAPSHOT).Ok? && Queue(Restore(SWAPPED_SNAPSHOT).value.bids, 5) == [2, 1]
  {
    var s := SWAPPED_SNAPSHOT;
    assert s.orders[..1][..0] == [] && s.orders[..1] == [s.orders[0]];
    var one := RestoreOne(Base(s), s.orders[0]);
    assert RestoreOrders(Base(s), s.orders[..1]) == one;
    assert Queue(one.value.bids, 5) == [2];
    assert Restore(s) == RestoreOne(one.value, s.orders[1]);
  }

  /** An event stream that a fresh book accepts, whose sound book comes back from its snapshot with a queue reversed. */
  lemma RestoreReorders()
    ensures AllApply(NewBook(0), SWAPPED)
    ensures
      var b := Replay(NewBook(0), SWAPPED);
      && IndexInv(b) && !Fifo(b) && IsSnapshot(b, SWAPPED_SNAPSHOT) && Queue(b.bids, 5) == [1, 2]
      && Restore(SWAPPED_SNAPSHOT).Ok? && Restore(SWAPPED_SNAPSHOT).value != b
      && Queue(Restore(SWAPPED_SNAPSHOT).value.bids, 5) == [2, 1]
  {
    var one := FirstBid();
    var b := SecondBid(one);
    ApplyKeeps(one, SWAPPED[1]);
    TwoEvents(NewBook(0), SWAPPED[0], SWAPPED[1]);
    SwappedIsSnapshot(b);
    SwappedNotFifo(b);
    SwappedRestored();
  }

  // ----- recovery -----

  lemma CutRestores(market: MarketId, commands: seq<EngineCommand>, k: nat, s: Snapshot)
    requires k <= |LiveLog(market, commands)|
    requires IsSnapshot(Replay(NewBook(market), LiveLog(market, commands)[..k]), s)
    ensures Restore(s) == Ok(Replay(NewBook(market), LiveLog(market, commands)[..k]))
  {
    CutsAreSound(market, commands, k);
    RestoreIsIdentity(Replay(NewBook(market), LiveLog(market, commands)[..k]), s);
  }

  function Max(a: nat, b: nat): nat {
    if a <= b then b else a
  }

  /** An event among the first `n` of an accepted log is marked after them. */
  lemma PrefixApplied(empty: Book, log: seq<EngineEvent>, n: nat, i: nat)
    requires AllApply(empty, log) && i < n <= |log|
    ensures log[i].eventId in Replay(empty, log[..n]).applied
  {
    assert log == log[..n] + log[n..];
    Histories.ThroughoutConcat(Apply, Applies, _ => true, empty, log[..n], log[n..]);
    AppliedGrows(empty, log[..n]);
    assert log[..n][i] in log[..n];
  }

  lemma StaleApply(b: Book, e: EngineEvent)
    requires e.eventId in b.applied
    ensures Apply(b, e) == b
  {
  }

  lemma PrefixLast(empty: Book, log: seq<EngineEvent>, m: nat)
    requires 0 < m <= |log|
    ensures Replay(empty, log[..m]) == Apply(Replay(empty, log[..m - 1]), log[m - 1])
  {
    assert log[..m][..|log[..m]| - 1] == log[..m - 1];
    ReplayLast(empty, log[..m]);
  }

  /** One more event of the log, old or new, for a book that has had the first `k` and all before this one. */
  lemma TailStep(empty: Book, log: seq<EngineEvent>, k: nat, m: nat)
    requires AllApply(empty, log) && k <= |log| && 0 < m <= |log|
    ensures
      var before, after := Replay(empty, log[..Max(m - 1, k)]), Replay(empty, log[..Max(m, k)]);
      Apply(before, log[m - 1]) == after && log[m - 1].eventId in after.applied
  {
    PrefixApplied(empty, log, Max(m, k), m - 1);
    if m <= k {
      StaleApply(Replay(empty, log[..k]), log[m - 1]);
    } else {
      PrefixLast(empty, log, m);
    }
  }

  /** Replaying the log up to `m`, from an earlier point, into the book as it was after `k` events. */
  lemma {:induction false} TailSeen(empty: Book, log: seq<EngineEvent>, k: nat, j: nat, m: nat)
    requires AllApply(empty, log) && j <= k <= |log| && j <= m <= |log|
    ensures AllSeen(Replay(empty, log[..k]), log[j..m])
    ensures Replay(Replay(empty, log[..k]), log[j..m]) == Replay(empty, log[..Max(m, k)])
  {
    if j < m {
      var tail := log[j..m];
      TailSeen(empty, log, k, j, m - 1);
      assert tail[..|tail| - 1] == log[j..m - 1] && tail[|tail| - 1] == log[m - 1];
      ReplayLast(Replay(empty, log[..k]), tail);
      TailStep(empty, log, k, m);
    }
  }

  /**
   * Recovery: restore a snapshot taken anywhere in a live run's log, even inside a command, then
   * replay a tail that starts anywhere up to that point, with any delivered event delivered again any
   * number of times later. The result is the live book.
   */
  lemma RecoveryEqualsLive(market: MarketId, commands: seq<EngineCommand>, k: nat, j: nat, s: Snapshot,
                           delivered: seq<EngineEvent>)
    requires j <= k <= |LiveLog(market, commands)|
    requires IsSnapshot(Replay(NewBook(market), LiveLog(market, commands)[..k]), s)
    requires Delivery(LiveLog(market, commands)[j..], delivered)
    ensures Restore(s).Ok?
    ensures Replay(Restore(s).value, delivered) == LiveBook(market, commands)
    ensures Replay(Restore(s).value, LiveLog(market, commands)[j..]) == LiveBook(market, commands)
  {
    var log := LiveLog(market, commands);
    CutRestores(market, commands, k, s);
    LogApplies(market, commands);
    TailSeen(NewBook(market), log, k, j, |log|);
    assert log[j..|log|] == log[j..] && log[..|log|] == log;
    DeliverySeen(Replay(NewBook(market), log[..k]), log[j..], delivered);
    LogReplays(market, commands);
  }
}
