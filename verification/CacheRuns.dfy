/** The cache over every interleaving of delta and repair projections. */
module CacheRuns {
  import opened Wrappers
  import opened Numeric
  import opened Sorting
  import Histories
  import opened Decimal
  import opened CacheProjector

  datatype Operation = Operation(book: CachedBook, repair: bool)

  ghost function Step(k: Keys, op: Operation): Keys {
    Project(k, op.book, op.repair)
  }

  ghost function After(ops: seq<Operation>): Keys {
    Histories.Run(Step, EMPTY, ops)
  }

  lemma AfterSnoc(ops: seq<Operation>, op: Operation)
    ensures After(ops + [op]) == Project(After(ops), op.book, op.repair)
  {
    Histories.RunSnoc(Step, EMPTY, ops, op);
  }

  // ----- the simple thing the cache mirrors -----

  /** One optional book: install the next one, or on repair any one that is not behind or already there. */
  predicate Installs(held: Option<CachedBook>, book: CachedBook, repair: bool) {
    match held
    case None => repair || book.sequence == 1
    case Some(h) =>
      if repair then book.sequence > h.sequence || (book.sequence == h.sequence && book.stateHash != h.stateHash)
      else book.sequence == h.sequence + 1
  }

  /** The book held after the operations, by that rule alone. */
  ghost function Held(ops: seq<Operation>): Option<CachedBook> {
    if ops == [] then None
    else
      var before, op := Held(ops[..|ops| - 1]), ops[|ops| - 1];
      if BookOk(op.book) && Installs(before, op.book, op.repair) then Some(op.book) else before
  }

  ghost predicate ForMarket(marketId: string, ops: seq<Operation>) {
    forall i :: 0 <= i < |ops| ==> ops[i].book.marketId == marketId
  }

  /** The six keys describe exactly the held book, or nothing. */
  ghost predicate Describes(k: Keys, marketId: string, held: Option<CachedBook>) {
    match held
    case None => k == EMPTY
    case Some(book) => BookOk(book) && book.marketId == marketId && k == Install(book)
  }

  lemma StepDescribes(k: Keys, marketId: string, held: Option<CachedBook>, op: Operation)
    requires Describes(k, marketId, held) && op.book.marketId == marketId
    ensures Code(k, op.book, op.repair) == 1 <==> BookOk(op.book) && Installs(held, op.book, op.repair)
    ensures Describes(Project(k, op.book, op.repair), marketId,
              if BookOk(op.book) && Installs(held, op.book, op.repair) then Some(op.book) else held)
  {
    if held.Some? {
      TextValue(held.value.sequence);
    }
  }

  lemma ReadDescribed(k: Keys, marketId: string, held: Option<CachedBook>)
    requires Describes(k, marketId, held)
    ensures Read(k, marketId) == Ok(held)
  {
    if held.Some? {
      var text := ToText(held.value.sequence);
      TextValue(held.value.sequence);
      assert IsDigit(text[0]);
    }
  }

  /**
   * From an empty cache, after any interleaving of projections, the six keys describe one book, it is
   * the one the simple rule holds, and the reader returns it.
   */
  lemma {:induction false} CacheMirrors(marketId: string, ops: seq<Operation>)
    requires ForMarket(marketId, ops)
    ensures Describes(After(ops), marketId, Held(ops))
    ensures Read(After(ops), marketId) == Ok(Held(ops))
  {
    if ops != [] {
      var n := |ops| - 1;
      var before, op := ops[..n], ops[n];
      assert ForMarket(marketId, before);
      CacheMirrors(marketId, before);
      assert ops == before + [op];
      AfterSnoc(before, op);
      StepDescribes(After(before), marketId, Held(before), op);
    }
    ReadDescribed(After(ops), marketId, Held(ops));
  }

  function SequenceOf(held: Option<CachedBook>): nat {
    match held
    case None => 0
    case Some(book) => book.sequence
  }

  /** One more operation under the simple rule. */
  lemma HeldStep(ops: seq<Operation>, op: Operation)
    ensures var before, after := Held(ops), Held(ops + [op]);
            && SequenceOf(before) <= SequenceOf(after)
            && (after != before && !op.repair ==> SequenceOf(after) == SequenceOf(before) + 1)
            && (after != before ==> after == Some(op.book) && BookOk(op.book))
  {
    assert (ops + [op])[..|ops|] == ops;
  }

  /** The stored marker is the number of the held book's sequence. */
  lemma MarkerIsHeld(marketId: string, ops: seq<Operation>)
    requires ForMarket(marketId, ops)
    ensures Marker(After(ops)) == Some(SequenceOf(Held(ops)))
  {
    CacheMirrors(marketId, ops);
    if Held(ops).Some? {
      TextValue(Held(ops).value.sequence);
    }
  }

  /**
   * One more operation, by the stored keys: the marker never falls, a delta that is applied raises it by
   * exactly one, and an operation that is not applied changes no key.
   */
  lemma StepMonotone(marketId: string, ops: seq<Operation>, op: Operation)
    requires ForMarket(marketId, ops + [op])
    ensures Marker(After(ops)).Some? && Marker(After(ops + [op])).Some?
    ensures Marker(After(ops)).value <= Marker(After(ops + [op])).value
    ensures Code(After(ops), op.book, op.repair) != 1 ==> After(ops + [op]) == After(ops)
    ensures Code(After(ops), op.book, op.repair) == 1 ==> Marker(After(ops + [op])) == Some(op.book.sequence)
    ensures !op.repair && Code(After(ops), op.book, false) == 1 ==>
              Marker(After(ops + [op])).value == Marker(After(ops)).value + 1
  {
    assert (ops + [op])[..|ops|] == ops && forall i :: 0 <= i < |ops| ==> (ops + [op])[i] == ops[i];
    MarkerIsHeld(marketId, ops);
    MarkerIsHeld(marketId, ops + [op]);
    HeldStep(ops, op);
    AfterSnoc(ops, op);
    CacheMirrors(marketId, ops);
    assert (ops + [op])[|ops|] == op;
    StepDescribes(After(ops), marketId, Held(ops), op);
  }

  /** The stored sequence never decreases along a run. */
  lemma {:induction false} SequenceMonotone(marketId: string, ops: seq<Operation>, i: nat, j: nat)
    requires ForMarket(marketId, ops) && i <= j <= |ops|
    ensures Marker(After(ops[..i])).Some? && Marker(After(ops[..j])).Some?
    ensures Marker(After(ops[..i])).value <= Marker(After(ops[..j])).value
  {
    MarkerIsHeld(marketId, ops[..i]);
    if i < j {
      SequenceMonotone(marketId, ops, i, j - 1);
      assert ops[..j] == ops[..j - 1] + [ops[j - 1]];
      StepMonotone(marketId, ops[..j - 1], ops[j - 1]);
    }
  }

  // ----- reading the price indexes -----

  ghost predicate Narrow(side: seq<CachedLevel>) {
    forall i :: 0 <= i < |side| ==> |side[i].price| <= WIDTH
  }

  /** The index members of a side, in book order. */
  ghost function Members(side: seq<CachedLevel>): seq<string>
    requires Narrow(side)
  {
    seq(|side|, i requires 0 <= i < |side| => Pad(side[i].price))
  }

  lemma {:induction false} IndexHolds(side: seq<CachedLevel>)
    requires Narrow(side) && Distinct(Members(side))
    ensures forall m :: m in IndexPrices(side) <==> m in Members(side)
    ensures forall i :: 0 <= i < |side| ==> Members(side)[i] in IndexQuantities(side)
                                            && IndexQuantities(side)[Members(side)[i]] == side[i].quantity
  {
    if side != [] {
      var n := |side| - 1;
      var init, members := side[..n], Members(side);
      assert members == Members(init) + [Pad(side[n].price)];
      assert Distinct(Members(init)) by {
        assert forall i :: 0 <= i < n ==> Members(init)[i] == members[i];
      }
      IndexHolds(init);
      forall i | 0 <= i < n ensures members[i] != members[n] && members[i] == Members(init)[i] {
      }
    }
  }

  predicate MemberBefore(descending: bool, s: string, t: string) {
    if descending then LexLess(t, s) else LexLess(s, t)
  }

  lemma {:induction false} LexTransitive(s: string, t: string, u: string)
    requires LexLess(s, t) && LexLess(t, u)
    ensures LexLess(s, u)
  {
    if s != "" && t != "" && u != "" && s[0] == t[0] == u[0] {
      LexTransitive(s[1..], t[1..], u[1..]);
    }
  }

  lemma {:induction false} LexIrreflexive(s: string)
    ensures !LexLess(s, s)
  {
    if s != "" { LexIrreflexive(s[1..]); }
  }

  lemma MemberOrder(descending: bool)
    ensures StrictOrder((s, t) => MemberBefore(descending, s, t))
  {
    var lt := (s, t) => MemberBefore(descending, s, t);
    forall s ensures !lt(s, s) { LexIrreflexive(s); }
    forall s, t, u | lt(s, t) && lt(t, u) ensures lt(s, u) {
      if descending { LexTransitive(u, t, s); } else { LexTransitive(s, t, u); }
    }
  }

  lemma MembersSorted(side: seq<CachedLevel>, descending: bool)
    requires SideOk(side, descending)
    ensures Narrow(side) && Distinct(Members(side))
    ensures Sorted((s, t) => MemberBefore(descending, s, t), Members(side))
  {
    var members := Members(side);
    forall i, j | 0 <= i < j < |members|
      ensures members[i] != members[j] && MemberBefore(descending, members[i], members[j])
    {
      PadOrders(side[i].price, side[j].price);
      PadOrders(side[j].price, side[i].price);
    }
  }

  /**
   * Walking the price index in byte order, backwards for bids, meets exactly the book's levels in
   * book order, and the quantity hash has each level's quantity.
   */
  lemma IndexReadsBack(side: seq<CachedLevel>, descending: bool, members: seq<string>)
    requires SideOk(side, descending)
    requires Sorted((s, t) => MemberBefore(descending, s, t), members)
    requires forall m :: m in members <==> m in IndexPrices(side)
    ensures |members| == |side|
    ensures forall i :: 0 <= i < |side| ==>
              && members[i] == Pad(side[i].price)
              && members[i] in IndexQuantities(side) && IndexQuantities(side)[members[i]] == side[i].quantity
  {
    MembersSorted(side, descending);
    IndexHolds(side);
    MemberOrder(descending);
    SortedUnique((s, t) => MemberBefore(descending, s, t), members, Members(side));
  }

  // ----- what the keys and the answers say of the held book -----

  /** The price index has exactly the padded prices of the side, and the quantity hash exactly their quantities. */
  ghost predicate Indexes(prices: set<string>, quantities: map<string, string>, side: seq<CachedLevel>) {
    && Narrow(side)
    && quantities.Keys == prices
    && (forall m :: m in prices <==> m in Members(side))
    && (forall i :: 0 <= i < |side| ==>
          Members(side)[i] in quantities && quantities[Members(side)[i]] == side[i].quantity)
  }

  lemma {:induction false} QuantityKeys(side: seq<CachedLevel>)
    requires Narrow(side)
    ensures IndexQuantities(side).Keys == IndexPrices(side)
  {
    if side != [] {
      QuantityKeys(side[..|side| - 1]);
    }
  }

  lemma SideIndexed(side: seq<CachedLevel>, descending: bool)
    requires SideOk(side, descending)
    ensures Narrow(side) && Indexes(IndexPrices(side), IndexQuantities(side), side)
  {
    MembersSorted(side, descending);
    IndexHolds(side);
    QuantityKeys(side);
  }

  /**
   * After any operations that leave a book held, each of the six keys says its part of that book: the
   * marker its sequence, the text the book, the bid keys its bids and the ask keys its asks.
   */
  lemma KeysSayBook(marketId: string, ops: seq<Operation>)
    requires ForMarket(marketId, ops)
    ensures Held(ops).None? ==> After(ops) == EMPTY
    ensures Held(ops).Some? ==>
              var k, book := After(ops), Held(ops).value;
              && k.sequence == Some(ToText(book.sequence))
              && k.json.Some? && k.json.value.reader == Some(book)
              && Indexes(k.bidPrices, k.bidQuantities, book.bids)
              && Indexes(k.askPrices, k.askQuantities, book.asks)
  {
    CacheMirrors(marketId, ops);
    if Held(ops).Some? {
      SideIndexed(Held(ops).value.bids, true);
      SideIndexed(Held(ops).value.asks, false);
    }
  }

  /** Walking the stored price indexes, bids downwards and asks upwards, gives the held book's levels in order. */
  lemma StoredIndexReadsBack(marketId: string, ops: seq<Operation>, descending: bool, members: seq<string>)
    requires ForMarket(marketId, ops) && Held(ops).Some?
    requires Sorted((s, t) => MemberBefore(descending, s, t), members)
    requires forall m :: m in members <==> m in if descending then After(ops).bidPrices else After(ops).askPrices
    ensures
      var side := if descending then Held(ops).value.bids else Held(ops).value.asks;
      var quantities := if descending then After(ops).bidQuantities else After(ops).askQuantities;
      && |members| == |side|
      && forall i :: 0 <= i < |side| ==>
           |side[i].price| <= WIDTH && members[i] == Pad(side[i].price)
           && members[i] in quantities && quantities[members[i]] == side[i].quantity
  {
    CacheMirrors(marketId, ops);
    IndexReadsBack(if descending then Held(ops).value.bids else Held(ops).value.asks, descending, members);
  }

  /**
   * What a delta with a sound book answers, by the held book: 0, a duplicate, when it is behind or is
   * the same state; -4, a conflict, at the same sequence with another state; -1, a gap, when it is not
   * the next; 1 when it is.
   */
  lemma DeltaAnswers(marketId: string, ops: seq<Operation>, book: CachedBook)
    requires ForMarket(marketId, ops) && book.marketId == marketId && BookOk(book)
    ensures
      var held, code := Held(ops), Code(After(ops), book, false);
      && (held.None? ==> code == if book.sequence == 1 then 1 else -1)
      && (held.Some? && book.sequence < held.value.sequence ==> code == 0)
      && (held.Some? && book.sequence == held.value.sequence ==>
            code == if book.stateHash == held.value.stateHash then 0 else -4)
      && (held.Some? && book.sequence == held.value.sequence + 1 ==> code == 1)
      && (held.Some? && book.sequence > held.value.sequence + 1 ==> code == -1)
  {
    CacheMirrors(marketId, ops);
    if Held(ops).Some? {
      TextValue(Held(ops).value.sequence);
    }
  }

  /** What a repair answers, by the held book: 0, current, when it is behind or is the same state, else 1. */
  lemma RepairAnswers(marketId: string, ops: seq<Operation>, book: CachedBook)
    requires ForMarket(marketId, ops) && book.marketId == marketId && BookOk(book)
    ensures Code(After(ops), book, true) == 0 <==>
            && Held(ops).Some?
            && (|| book.sequence < Held(ops).value.sequence
                || (book.sequence == Held(ops).value.sequence && book.stateHash == Held(ops).value.stateHash))
    ensures Code(After(ops), book, true) in {0, 1}
  {
    CacheMirrors(marketId, ops);
    if Held(ops).Some? {
      TextValue(Held(ops).value.sequence);
    }
  }

  /** A book that is not sound is refused whatever the keys hold, and changes none of them. */
  lemma UnsoundRefused(k: Keys, book: CachedBook, repair: bool)
    requires !BookOk(book)
    ensures Code(k, book, repair) < 0 && Project(k, book, repair) == k
  {
  }

  /**
   * What the reader returns, whatever the keys hold: nothing when both are missing; a book exactly when
   * the marker is the number of its sequence, the text decodes to it, and it is sound and of the market.
   */
  lemma ReadExactly(k: Keys, marketId: string)
    ensures Read(k, marketId) == Ok(None) <==> k.sequence.None? && k.json.None?
    ensures forall book: CachedBook :: Read(k, marketId) == Ok(Some(book)) <==>
              && k.sequence.Some? && ParseU64(k.sequence.value) == Some(book.sequence)
              && k.json.Some? && k.json.value.reader == Some(book)
              && book.marketId == marketId && HashOk(book.stateHash)
              && SideOk(book.bids, true) && SideOk(book.asks, false)
    ensures k.sequence.Some? != k.json.Some? ==> Read(k, marketId) == Err(IncompleteProjection)
    ensures Complete(k) && ParseU64(k.sequence.value).None? ==> Read(k, marketId) == Err(InvalidProjectionSequence)
    ensures Complete(k) && ParseU64(k.sequence.value).Some? && Read(k, marketId).Err? ==>
              Read(k, marketId) == Err(if k.json.value.reader.None? then JsonError else InvalidProjectionData)
  {
  }

  // ----- keys someone else has damaged -----

  /** The number the script compares with: a marker that is no number counts as 0 for a repair. */
  function Current(k: Keys): nat {
    if Marker(k).Some? then Marker(k).value else 0
  }

  /**
   * The states in which a repair answers that the cache is current: a marker newer than the book, or
   * one at the book's sequence over text that the script takes for that same state.
   */
  ghost predicate Fenced(k: Keys, book: CachedBook) {
    && Complete(k)
    && (book.sequence < Current(k) || (book.sequence == Current(k) && SameState(k, book, Current(k))))
  }

  lemma DigitsParse(text: string)
    requires IsNumber(text) && Value(text) <= U64_MAX
    ensures ParseU64(text) == Some(Value(text))
  {
    assert IsDigit(text[0]);
  }

  /**
   * Whatever state the keys are in, a repair with a sound book leaves a readable cache, except exactly
   * when it is fenced off and the pair was unreadable already. A repair that is not fenced off leaves
   * its own book.
   */
  lemma RepairHeals(k: Keys, book: CachedBook)
    requires BookOk(book)
    ensures Read(Project(k, book, true), book.marketId).Ok? <==>
            !(Fenced(k, book) && Read(k, book.marketId).Err?)
    ensures Fenced(k, book) ==> Code(k, book, true) == 0 && Project(k, book, true) == k
    ensures !Fenced(k, book) ==>
              Code(k, book, true) == 1 && Read(Project(k, book, true), book.marketId) == Ok(Some(book))
  {
    if !Fenced(k, book) {
      ReadDescribed(Install(book), book.marketId, Some(book));
    }
  }

  /**
   * Over text that a writer of this cache serialized, with a marker that is a number and not newer, a
   * repair always leaves a readable book of its sequence and state.
   */
  lemma RepairHealsOwnText(k: Keys, book: CachedBook, stored: CachedBook)
    requires BookOk(book) && Complete(k) && k.json == Some(Encoded(stored))
    requires IsNumber(k.sequence.value) && Value(k.sequence.value) <= book.sequence
    ensures
      var after := Read(Project(k, book, true), book.marketId);
      && after.Ok? && after.value.Some?
      && after.value.value.sequence == book.sequence && after.value.value.stateHash == book.stateHash
  {
    RepairHeals(k, book);
    if Fenced(k, book) {
      TextValue(stored.sequence);
      DigitsParse(k.sequence.value);
    }
  }

  /** Text that the script takes for the book and the reader cannot decode, such as one with the sequence `5.0`. */
  function HalfReadable(book: CachedBook): JsonText {
    Encoded(book).(reader := None)
  }

  /**
   * Such states, each answered as current or duplicate and yet not readable: a newer marker over text
   * that nobody can decode, a marker that is no number, and an equal marker over text that only the
   * script accepts.
   */
  lemma FencedGarbage(book: CachedBook)
    requires BookOk(book)
    ensures
      var k := EMPTY.(sequence := Some("7"), json := Some(JsonText(None, None, None)));
      book.sequence < 7 ==> Code(k, book, true) == 0 && Read(k, book.marketId) == Err(JsonError)
    ensures
      var k := EMPTY.(sequence := Some("?"), json := Some(Encoded(book)));
      book.sequence == 0 ==> Code(k, book, true) == 0 && Read(k, book.marketId) == Err(InvalidProjectionSequence)
    ensures
      var k := EMPTY.(sequence := Some(ToText(book.sequence)), json := Some(HalfReadable(book)));
      Code(k, book, true) == 0 && Code(k, book, false) == 0 && Read(k, book.marketId) == Err(JsonError)
  {
    assert Value("7") == 7 by { assert "7"[..0] == ""; }
    DigitsParse("7");
    TextValue(book.sequence);
    DigitsParse(ToText(book.sequence));
  }
}
