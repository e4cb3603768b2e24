/**
 * The sequence-guarded cache projector: six keys per market, rewritten by one atomic script that
 * compares and increments sequence numbers as decimal text, and a reader that checks again.
 */
module CacheProjector {
  import opened Wrappers
  import opened Numeric
  import opened Decimal

  datatype CachedLevel = CachedLevel(price: string, quantity: string)

  datatype CachedBook = CachedBook(
    marketId: string, sequence: Sequence, bids: seq<CachedLevel>, asks: seq<CachedLevel>, stateHash: string)

  /** The members of a book that the script looks at after decoding, sides as `ipairs` lists them. */
  datatype Shape = Shape(marketId: string, bids: seq<CachedLevel>, asks: seq<CachedLevel>, stateHash: string)

  /**
   * Stored JSON text, as what each side makes of it. The script decodes it with a lenient decoder and
   * takes the digits its pattern finds after `"sequence"`; the reader decodes it into a typed book. The
   * three need not agree on text that someone else wrote.
   */
  datatype JsonText = JsonText(script: Option<Shape>, digits: Option<string>, reader: Option<CachedBook>)

  function ShapeOf(book: CachedBook): Shape {
    Shape(book.marketId, book.bids, book.asks, book.stateHash)
  }

  /** The text a book is serialized to: script and reader find the same book in it. */
  function Encoded(book: CachedBook): JsonText {
    JsonText(Some(ShapeOf(book)), Some(ToText(book.sequence)), Some(book))
  }

  /** The six keys of one market. The price indexes are zero-score sorted sets. */
  datatype Keys = Keys(
    sequence: Option<string>, json: Option<JsonText>,
    bidPrices: set<string>, bidQuantities: map<string, string>,
    askPrices: set<string>, askQuantities: map<string, string>)

  const EMPTY: Keys := Keys(None, None, {}, map[], {}, map[])

  // ----- the two validators -----

  /** `valid_exact` of the script. */
  predicate LuaExact(value: string) {
    && value != "" && |value| <= 38
    && AllDigits(value) && value != "0"
    && (|value| > 1 ==> value[0] != '0')
  }

  /** `i128` parsing of digits. */
  function ParseI128(value: string): Option<int> {
    if IsNumber(value) && Value(value) <= I128_MAX then Some(Value(value)) else None
  }

  /** `valid_exact_value` of the reader. */
  function RustExact(value: string): Option<int> {
    if value == "" || |value| > 38 || (|value| > 1 && value[0] == '0') || !AllDigits(value) then None
    else
      match ParseI128(value)
      case Some(n) => if n > 0 then Some(n) else None
      case None => None
  }

  lemma Pow38()
    ensures Shift(1, 38) == 100000000000000000000000000000000000000
  {
    assert Shift(1, 10) == 10000000000;
    assert Shift(1, 20) == 100000000000000000000;
    assert Shift(1, 30) == 1000000000000000000000000000000;
  }

  lemma ZeroValue()
    ensures Value("0") == 0 && Normal("0")
  {
    assert "0"[..0] == "";
  }

  lemma ExactBounds(value: string)
    requires LuaExact(value)
    ensures value == ToText(Value(value)) && 0 < Value(value) < 100000000000000000000000000000000000000
  {
    Pow38();
    ZeroValue();
    ValueText(value);
    NormalUnique(value, "0");
    ValueBound(value);
    ShiftLonger(|value|, 38);
  }

  lemma NumeralIsExact(value: string)
    requires Normal(value) && 0 < Value(value) < 100000000000000000000000000000000000000
    ensures LuaExact(value)
  {
    Pow38();
    ZeroValue();
    NormalUnique(value, "0");
    if |value| > 38 {
      NormalAtLeast(value);
      ShiftLonger(38, |value| - 1);
    }
  }

  /** An exact value is the plain numeral of a positive number below 10 to the 38. */
  lemma ExactIsNumeral(value: string)
    ensures LuaExact(value) <==>
            IsNumber(value) && value == ToText(Value(value)) &&
            0 < Value(value) < 100000000000000000000000000000000000000
  {
    if LuaExact(value) {
      ExactBounds(value);
    }
    if IsNumber(value) && value == ToText(Value(value)) && 0 < Value(value) < 100000000000000000000000000000000000000 {
      NumeralIsExact(value);
    }
  }

  /** The validators accept the same values: 38 digits always fit an `i128`. */
  lemma ExactAgree(value: string)
    ensures LuaExact(value) <==> RustExact(value).Some?
    ensures LuaExact(value) ==> Normal(value) && RustExact(value) == Some(Value(value))
  {
    if value != "" && |value| <= 38 && AllDigits(value) {
      ValueBound(value);
      ShiftLonger(|value|, 38);
      Pow38();
      if |value| > 1 ==> value[0] != '0' {
        assert Value("0") == 0 by { assert "0"[..0] == ""; }
        NormalUnique(value, "0");
      }
    }
  }

  /** Strictly descending or ascending prices, every value exact. */
  ghost predicate SideOk(side: seq<CachedLevel>, descending: bool) {
    && (forall i :: 0 <= i < |side| ==> LuaExact(side[i].price) && LuaExact(side[i].quantity))
    && (forall i, j :: 0 <= i < j < |side| ==>
          if descending then Value(side[j].price) < Value(side[i].price)
          else Value(side[i].price) < Value(side[j].price))
  }

  predicate HexDigit(c: char) {
    IsDigit(c) || 'a' <= c <= 'f'
  }

  predicate HashOk(hash: string) {
    |hash| == 64 && forall i :: 0 <= i < |hash| ==> HexDigit(hash[i])
  }

  /** `valid_book`. */
  ghost predicate ShapeOk(s: Shape) {
    s.marketId != "" && HashOk(s.stateHash) && SideOk(s.bids, true) && SideOk(s.asks, false)
  }

  ghost predicate BookOk(book: CachedBook) {
    ShapeOk(ShapeOf(book))
  }

  /** A side is sound one level further exactly when the next level is exact and steps the right way. */
  lemma SideSnoc(side: seq<CachedLevel>, i: nat, descending: bool)
    requires i < |side| && SideOk(side[..i], descending)
    requires LuaExact(side[i].price) && LuaExact(side[i].quantity)
    requires i > 0 ==> if descending then Value(side[i].price) < Value(side[i - 1].price)
                       else Value(side[i - 1].price) < Value(side[i].price)
    ensures SideOk(side[..i + 1], descending)
  {
    var s := side[..i + 1];
    assert forall k :: 0 <= k < i ==> s[k] == side[..i][k];
    forall j, k | 0 <= j < k < |s|
      ensures if descending then Value(s[k].price) < Value(s[j].price) else Value(s[j].price) < Value(s[k].price)
    {
      if k == i && j < i - 1 {
        assert side[..i][j] == s[j] && side[..i][i - 1] == s[i - 1];
      }
    }
  }

  /** `valid_side`: compares each price with the one before it, as text. */
  method LuaValidSide(side: seq<CachedLevel>, descending: bool) returns (ok: bool)
    ensures ok <==> SideOk(side, descending)
  {
    var previous: Option<string> := None;
    for i := 0 to |side|
      invariant SideOk(side[..i], descending)
      invariant previous == if i == 0 then None else Some(side[i - 1].price)
    {
      var level := side[i];
      if !LuaExact(level.price) || !LuaExact(level.quantity) {
        return false;
      }
      if previous.Some? {
        CompareIsNumeric(level.price, previous.value);
        var comparison := CompareDecimal(level.price, previous.value);
        if descending && comparison >= 0 {
          return false;
        }
        if !descending && comparison <= 0 {
          return false;
        }
      }
      SideSnoc(side, i, descending);
      previous := Some(level.price);
    }
    assert side[..|side|] == side;
    ok := true;
  }

  /** `valid_book_side`: compares each price with the one before it, as numbers. */
  method RustValidSide(side: seq<CachedLevel>, descending: bool) returns (ok: bool)
    ensures ok <==> SideOk(side, descending)
  {
    var previous: Option<int> := None;
    for i := 0 to |side|
      invariant SideOk(side[..i], descending)
      invariant previous == if i == 0 then None else Some(Value(side[i - 1].price))
    {
      ExactAgree(side[i].price);
      ExactAgree(side[i].quantity);
      var price := RustExact(side[i].price);
      if price.None? {
        return false;
      }
      if RustExact(side[i].quantity).None?
         || (previous.Some? && (if descending then price.value >= previous.value else price.value <= previous.value)) {
        return false;
      }
      SideSnoc(side, i, descending);
      previous := price;
    }
    assert side[..|side|] == side;
    ok := true;
  }

  // ----- indexes -----

  /** The zero-padded members of one side's price index. */
  function IndexPrices(side: seq<CachedLevel>): set<string>
    requires forall i :: 0 <= i < |side| ==> |side[i].price| <= WIDTH
  {
    if side == [] then {} else IndexPrices(side[..|side| - 1]) + {Pad(side[|side| - 1].price)}
  }

  function IndexQuantities(side: seq<CachedLevel>): map<string, string>
    requires forall i :: 0 <= i < |side| ==> |side[i].price| <= WIDTH
  {
    if side == [] then map[]
    else IndexQuantities(side[..|side| - 1])[Pad(side[|side| - 1].price) := side[|side| - 1].quantity]
  }

  /** The six keys right after a book was installed. */
  ghost function Install(book: CachedBook): Keys
    requires BookOk(book)
  {
    Keys(Some(ToText(book.sequence)), Some(Encoded(book)),
         IndexPrices(book.bids), IndexQuantities(book.bids),
         IndexPrices(book.asks), IndexQuantities(book.asks))
  }

  // ----- what the script decides, in numbers -----

  /** The marker's number: 0 when missing, nothing when corrupt. */
  function Marker(k: Keys): Option<nat> {
    match k.sequence
    case None => Some(0)
    case Some(text) => if IsNumber(text) then Some(Value(text)) else None
  }

  predicate Complete(k: Keys) {
    k.sequence.Some? && k.json.Some?
  }

  /** The script takes the stored text for a sound book, at the marker's sequence, of the same state as `book`. */
  ghost predicate SameState(k: Keys, book: CachedBook, current: nat) {
    && k.json.Some? && k.json.value.script.Some? && k.json.value.digits.Some?
    && var stored, digits := k.json.value.script.value, k.json.value.digits.value;
    && ShapeOk(stored) && IsNumber(digits) && Value(digits) == current
    && stored.marketId == book.marketId && stored.stateHash == book.stateHash
  }

  ghost function Code(k: Keys, book: CachedBook, repair: bool): int {
    if Marker(k).None? && !repair then -3
    else
      var current := if Marker(k).None? then 0 else Marker(k).value;
      if !BookOk(book) then -2
      else if Complete(k) && book.sequence < current then 0
      else if Complete(k) && book.sequence == current && SameState(k, book, current) then 0
      else if Complete(k) && book.sequence == current && !repair then -4
      else if !repair && book.sequence != current + 1 then -1
      else 1
  }

  ghost function Project(k: Keys, book: CachedBook, repair: bool): Keys {
    if Code(k, book, repair) == 1 then Install(book) else k
  }

  // ----- what the reader answers -----

  datatype CacheError =
    | IncompleteProjection | InvalidProjectionSequence | InvalidProjectionData | JsonError
    | UnexpectedProjectionCode(code: int)

  /** `u64` parsing: an optional plus sign and digits in range. */
  function ParseU64(text: string): Option<nat> {
    var digits := if text != "" && text[0] == '+' then text[1..] else text;
    if IsNumber(digits) && Value(digits) <= U64_MAX then Some(Value(digits)) else None
  }

  ghost function Read(k: Keys, marketId: string): Result<Option<CachedBook>, CacheError> {
    if k.sequence.None? && k.json.None? then Ok(None)
    else if !Complete(k) then Err(IncompleteProjection)
    else if ParseU64(k.sequence.value).None? then Err(InvalidProjectionSequence)
    else if k.json.value.reader.None? then Err(JsonError)
    else
      var book := k.json.value.reader.value;
      if book.marketId != marketId || book.sequence != ParseU64(k.sequence.value).value
         || !HashOk(book.stateHash) || !SideOk(book.bids, true) || !SideOk(book.asks, false)
      then Err(InvalidProjectionData)
      else Ok(Some(book))
  }

  datatype ProjectionOutcome = Applied | Duplicate | Gap | Conflict
  datatype RepairOutcome = Repaired | Current

  // ----- the six keys as an object -----

  lemma TextsCompare(m: nat, n: nat)
    ensures CompareDecimal(ToText(m), ToText(n)) == if m < n then -1 else if m > n then 1 else 0
    ensures ToText(m) == ToText(n) <==> m == n
  {
    TextValue(m);
    TextValue(n);
    CompareIsNumeric(ToText(m), ToText(n));
  }

  method Successor(text: string, ghost n: nat) returns (next: string)
    requires text == ToText(n)
    ensures next == ToText(n + 1)
  {
    TextValue(n);
    next := IncrementDecimal(text);
  }

  method LuaValidBook(book: Shape) returns (ok: bool)
    ensures ok <==> ShapeOk(book)
  {
    if book.marketId == "" || !HashOk(book.stateHash) {
      return false;
    }
    ok := LuaValidSide(book.bids, true);
    if ok {
      ok := LuaValidSide(book.asks, false);
    }
  }

  /** The ZADD and HSET loop of one side. */
  method IndexSide(side: seq<CachedLevel>) returns (prices: set<string>, quantities: map<string, string>)
    requires forall i :: 0 <= i < |side| ==> |side[i].price| <= WIDTH
    ensures prices == IndexPrices(side) && quantities == IndexQuantities(side)
  {
    prices, quantities := {}, map[];
    for i := 0 to |side|
      invariant prices == IndexPrices(side[..i]) && quantities == IndexQuantities(side[..i])
    {
      assert side[..i + 1][..i] == side[..i];
      var member := Pad(side[i].price);
      prices := prices + {member};
      quantities := quantities[member := side[i].quantity];
    }
    assert side[..|side|] == side;
  }

  class MarketCache {
    const marketId: string
    var sequence: Option<string>
    var json: Option<JsonText>
    var bidPrices: set<string>
    var bidQuantities: map<string, string>
    var askPrices: set<string>
    var askQuantities: map<string, string>

    ghost function View(): Keys
      reads this
    {
      Keys(sequence, json, bidPrices, bidQuantities, askPrices, askQuantities)
    }

    constructor (marketId: string)
      ensures View() == EMPTY && this.marketId == marketId
    {
      this.marketId := marketId;
      sequence, json := None, None;
      bidPrices, bidQuantities, askPrices, askQuantities := {}, map[], {}, map[];
    }

    /** The script. It either rewrites all six keys or none. */
    method ProjectBook(book: CachedBook, repair: bool) returns (code: int)
      modifies this
      ensures code == Code(old(View()), book, repair)
      ensures View() == Project(old(View()), book, repair)
    {
      code := Decide(book, repair);
      if code != 1 {
        return;
      }
      bidPrices, bidQuantities, askPrices, askQuantities := {}, map[], {}, map[];
      bidPrices, bidQuantities := IndexSide(book.bids);
      askPrices, askQuantities := IndexSide(book.asks);
      sequence := Some(ToText(book.sequence));
      json := Some(Encoded(book));
    }

    /** The part of the script that only reads. */
    method Decide(book: CachedBook, repair: bool) returns (code: int)
      ensures code == Code(View(), book, repair)
    {
      var current := ReadMarker();
      var incoming := ToText(book.sequence);
      if current.None? {
        if !repair {
          return -3;
        }
        current := Some("0");
      }
      ghost var number := if Marker(View()).None? then 0 else Marker(View()).value;
      assert current.value == ToText(number);
      var valid := LuaValidBook(ShapeOf(book));
      if !valid {
        return -2;
      }
      var complete := sequence.Some? && json.Some?;
      TextsCompare(book.sequence, number);
      var comparison := CompareDecimal(incoming, current.value);
      if complete && comparison < 0 {
        return 0;
      }
      if complete && comparison == 0 {
        var same := SameStored(book, current.value, number);
        if same {
          return 0;
        }
        if !repair {
          return -4;
        }
      }
      if !repair {
        var next := Successor(current.value, number);
        TextsCompare(book.sequence, number + 1);
        if incoming != next {
          return -1;
        }
      }
      code := 1;
    }

    method ReadMarker() returns (current: Option<string>)
      ensures current == match Marker(View()) case None => None case Some(n) => Some(ToText(n))
    {
      var text := if sequence.Some? then sequence.value else "0";
      assert Value("0") == 0 by { assert "0"[..0] == ""; }
      NormalizeIsText(text);
      current := Normalize(text);
    }

    method SameStored(book: CachedBook, current: string, ghost number: nat) returns (same: bool)
      requires current == ToText(number)
      ensures same <==> SameState(View(), book, number)
    {
      if json.None? || json.value.script.None? || json.value.digits.None? {
        return false;
      }
      var stored, digits := json.value.script.value, json.value.digits.value;
      NormalizeIsText(digits);
      if IsNumber(digits) {
        TextsCompare(Value(digits), number);
      }
      var valid := LuaValidBook(stored);
      same := valid && Normalize(digits) == Some(current)
              && stored.marketId == book.marketId && stored.stateHash == book.stateHash;
    }

    /** Delta projection. */
    method ApplyBook(book: CachedBook) returns (r: Result<ProjectionOutcome, CacheError>)
      modifies this
      ensures View() == Project(old(View()), book, false)
      ensures r == match Code(old(View()), book, false)
                   case 1 => Ok(Applied)
                   case 0 => Ok(Duplicate)
                   case -1 => Ok(Gap)
                   case -4 => Ok(Conflict)
                   case -2 => Err(InvalidProjectionData)
                   case _ => Err(InvalidProjectionSequence)
    {
      var code := ProjectBook(book, false);
      match code {
        case 1 => r := Ok(Applied);
        case 0 => r := Ok(Duplicate);
        case -1 => r := Ok(Gap);
        case -4 => r := Ok(Conflict);
        case -2 => r := Err(InvalidProjectionData);
        case _ => r := Err(InvalidProjectionSequence);
      }
    }

    /** Full projection from the durable source. */
    method RepairBook(book: CachedBook) returns (r: Result<RepairOutcome, CacheError>)
      modifies this
      ensures View() == Project(old(View()), book, true)
      ensures r == if !BookOk(book) then Err(InvalidProjectionData)
                   else if Code(old(View()), book, true) == 1 then Ok(Repaired) else Ok(Current)
    {
      var code := ProjectBook(book, true);
      match code {
        case 1 => r := Ok(Repaired);
        case 0 => r := Ok(Current);
        case _ => r := Err(InvalidProjectionData);
      }
    }

    /** Reads and validates the canonical pair. */
    method Book() returns (r: Result<Option<CachedBook>, CacheError>)
      ensures r == Read(View(), marketId)
    {
      if sequence.None? && json.None? {
        return Ok(None);
      }
      if sequence.None? || json.None? {
        return Err(IncompleteProjection);
      }
      var number := ParseU64(sequence.value);
      if number.None? {
        return Err(InvalidProjectionSequence);
      }
      if json.value.reader.None? {
        return Err(JsonError);
      }
      var book := json.value.reader.value;
      var validBids := RustValidSide(book.bids, true);
      var validAsks := RustValidSide(book.asks, false);
      if book.marketId != marketId || book.sequence != number.value || !HashOk(book.stateHash)
         || !validBids || !validAsks {
        return Err(InvalidProjectionData);
      }
      r := Ok(Some(book));
    }
  }
}
