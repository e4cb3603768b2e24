/**
 * Canonical JSON text: object members sorted by key, no white space. It is the preimage of digests
 * and signatures, so it has to tell different values apart.
 */
module CanonicalJson {
  import opened Wrappers
  import opened Sorting

  /** A UTF-16 code unit; JavaScript strings are sequences of these. */
  type Unit = x: int | 0 <= x < 0x10000
  type Text = seq<Unit>

  /** A number is kept as the text `JSON.stringify` gives it; 0 and -0 share one. */
  datatype Num = Finite(text: Text) | NonFinite

  datatype Field = Field(key: Text, value: Json)

  /** A value as the printers meet it. `Unsupported` stands for undefined, functions, symbols and big integers. */
  datatype Json =
    | Null
    | Bool(b: bool)
    | Number(n: Num)
    | Str(s: Text)
    | Array(items: seq<Json>)
    | Object(fields: seq<Field>)
    | Unsupported

  const QUOTE: Unit := 0x22
  const COMMA: Unit := 0x2C
  const COLON: Unit := 0x3A
  const BACKSLASH: Unit := 0x5C
  const OPEN_ARRAY: Unit := 0x5B
  const CLOSE_ARRAY: Unit := 0x5D
  const OPEN_OBJECT: Unit := 0x7B
  const CLOSE_OBJECT: Unit := 0x7D
  const LETTER_U: Unit := 0x75
  const NULL_TEXT: Text := [0x6E, 0x75, 0x6C, 0x6C]
  const TRUE_TEXT: Text := [0x74, 0x72, 0x75, 0x65]
  const FALSE_TEXT: Text := [0x66, 0x61, 0x6C, 0x73, 0x65]

  // ----- strings -----

  predicate HighSurrogate(u: Unit) { 0xD800 <= u < 0xDC00 }

  predicate LowSurrogate(u: Unit) { 0xDC00 <= u < 0xE000 }

  function HexUnit(d: int): Unit
    requires 0 <= d < 16
  {
    if d < 10 then 0x30 + d else 0x57 + d
  }

  /** The letter of a two-character escape, if the unit has one. */
  function ShortEscape(u: Unit): Option<Unit> {
    if u == QUOTE then Some(QUOTE)
    else if u == BACKSLASH then Some(BACKSLASH)
    else if u == 8 then Some(0x62)
    else if u == 9 then Some(0x74)
    else if u == 10 then Some(0x6E)
    else if u == 12 then Some(0x66)
    else if u == 13 then Some(0x72)
    else None
  }

  function EscapeUnit(u: Unit): Text {
    if ShortEscape(u).Some? then [BACKSLASH, ShortEscape(u).value]
    else if u < 0x20 || HighSurrogate(u) || LowSurrogate(u) then
      [BACKSLASH, LETTER_U, HexUnit(u / 4096), HexUnit(u / 256 % 16), HexUnit(u / 16 % 16), HexUnit(u % 16)]
    else [u]
  }

  /** Surrogate pairs stay as they are; a lone surrogate is escaped. */
  function Escape(s: Text): Text {
    if s == [] then []
    else if |s| > 1 && HighSurrogate(s[0]) && LowSurrogate(s[1]) then [s[0], s[1]] + Escape(s[2..])
    else EscapeUnit(s[0]) + Escape(s[1..])
  }

  /** `JSON.stringify` of a string. */
  function Quote(s: Text): Text {
    [QUOTE] + Escape(s) + [QUOTE]
  }

  // Reading a quoted string back, after its opening quote.

  function HexValue(u: Unit): Option<int> {
    if 0x30 <= u <= 0x39 then Some(u - 0x30)
    else if 0x61 <= u <= 0x66 then Some(u - 0x57)
    else None
  }

  function ShortUnescape(u: Unit): Option<Unit> {
    if u == QUOTE then Some(QUOTE)
    else if u == BACKSLASH then Some(BACKSLASH)
    else if u == 0x62 then Some(8)
    else if u == 0x74 then Some(9)
    else if u == 0x6E then Some(10)
    else if u == 0x66 then Some(12)
    else if u == 0x72 then Some(13)
    else None
  }

  function FourHex(t: Text): Option<Unit>
    requires |t| >= 4
  {
    var a, b, c, d := HexValue(t[0]), HexValue(t[1]), HexValue(t[2]), HexValue(t[3]);
    if a.Some? && b.Some? && c.Some? && d.Some?
    then Some(a.value * 4096 + b.value * 256 + c.value * 16 + d.value)
    else None
  }

  /** The first unit of a string body and what follows it. */
  function ReadUnit(t: Text): Option<(Unit, Text)>
    requires t != []
  {
    if t[0] != BACKSLASH then Some((t[0], t[1..]))
    else if |t| < 2 then None
    else if ShortUnescape(t[1]).Some? then Some((ShortUnescape(t[1]).value, t[2..]))
    else if t[1] == LETTER_U && |t| >= 6 && FourHex(t[2..]).Some? then Some((FourHex(t[2..]).value, t[6..]))
    else None
  }

  function Unquote(t: Text): Option<(Text, Text)>
    decreases |t|
  {
    if t == [] then None
    else if t[0] == QUOTE then Some(([], t[1..]))
    else
      match ReadUnit(t)
      case None => None
      case Some((u, rest)) =>
        if |rest| >= |t| then None
        else
          match Unquote(rest)
          case None => None
          case Some((s, after)) => Some(([u] + s, after))
  }

  lemma HexDigits(u: Unit)
    ensures u == u / 4096 * 4096 + u / 256 % 16 * 256 + u / 16 % 16 * 16 + u % 16
  {
    assert u / 16 == u / 256 * 16 + u / 16 % 16;
    assert u / 256 == u / 4096 * 16 + u / 256 % 16;
  }

  lemma HexRoundTrip(u: Unit, t: Text)
    requires |t| >= 4 && t[..4] == [HexUnit(u / 4096), HexUnit(u / 256 % 16), HexUnit(u / 16 % 16), HexUnit(u % 16)]
    ensures FourHex(t) == Some(u)
  {
    assert t[0] == t[..4][0] && t[1] == t[..4][1] && t[2] == t[..4][2] && t[3] == t[..4][3];
    HexDigits(u);
  }

  lemma EscapeUnitReads(u: Unit, t: Text)
    ensures EscapeUnit(u) + t != [] && (EscapeUnit(u) + t)[0] != QUOTE
    ensures ReadUnit(EscapeUnit(u) + t) == Some((u, t))
  {
    var x := EscapeUnit(u) + t;
    if ShortEscape(u).Some? {
      assert x[2..] == t;
    } else if u < 0x20 || HighSurrogate(u) || LowSurrogate(u) {
      assert x[2..][..4] == [HexUnit(u / 4096), HexUnit(u / 256 % 16), HexUnit(u / 16 % 16), HexUnit(u % 16)];
      HexRoundTrip(u, x[2..]);
      assert x[6..] == t;
    } else {
      assert x[1..] == t;
    }
  }

  /** A string body, its closing quote and what follows. */
  function Closed(s: Text, after: Text): Text {
    Escape(s) + ([QUOTE] + after)
  }

  lemma ClosedUnfolds(s: Text, after: Text)
    requires s != []
    ensures Closed(s, after) ==
            if |s| > 1 && HighSurrogate(s[0]) && LowSurrogate(s[1]) then [s[0]] + ([s[1]] + Closed(s[2..], after))
            else EscapeUnit(s[0]) + Closed(s[1..], after)
  {
  }

  lemma UnquotePlain(u: Unit, rest: Text, s: Text, after: Text)
    requires u != QUOTE && u != BACKSLASH && Unquote(rest) == Some((s, after))
    ensures Unquote([u] + rest) == Some(([u] + s, after))
  {
    assert ([u] + rest)[1..] == rest;
  }

  lemma UnquoteEscaped(u: Unit, rest: Text, s: Text, after: Text)
    requires Unquote(rest) == Some((s, after))
    ensures Unquote(EscapeUnit(u) + rest) == Some(([u] + s, after))
  {
    EscapeUnitReads(u, rest);
  }

  /** A quoted string reads back as itself, and its end is found. */
  lemma {:induction false} UnquoteEscape(s: Text, after: Text)
    ensures Unquote(Closed(s, after)) == Some((s, after))
    decreases |s|
  {
    if s == [] {
      assert Closed(s, after) == [QUOTE] + after;
      assert ([QUOTE] + after)[1..] == after;
    } else {
      ClosedUnfolds(s, after);
      if |s| > 1 && HighSurrogate(s[0]) && LowSurrogate(s[1]) {
        UnquoteEscape(s[2..], after);
        UnquotePlain(s[1], Closed(s[2..], after), s[2..], after);
        UnquotePlain(s[0], [s[1]] + Closed(s[2..], after), [s[1]] + s[2..], after);
        assert s == [s[0]] + ([s[1]] + s[2..]);
      } else {
        UnquoteEscape(s[1..], after);
        UnquoteEscaped(s[0], Closed(s[1..], after), s[1..], after);
        assert s == [s[0]] + s[1..];
      }
    }
  }

  lemma QuoteBody(s: Text, r: Text)
    ensures (Quote(s) + r)[1..] == Closed(s, r)
  {
  }

  /** Quoting is a prefix code. */
  lemma QuoteSplits(s: Text, t: Text, r: Text, q: Text)
    requires Quote(s) + r == Quote(t) + q
    ensures s == t && r == q
  {
    QuoteBody(s, r);
    QuoteBody(t, q);
    UnquoteEscape(s, r);
    UnquoteEscape(t, q);
  }

  // ----- key order -----

  /** JavaScript's `<` on strings: by code unit. */
  predicate TextLess(s: Text, t: Text) {
    if t == [] then false
    else if s == [] then true
    else s[0] < t[0] || (s[0] == t[0] && TextLess(s[1..], t[1..]))
  }

  predicate KeyLess(f: Field, g: Field) {
    TextLess(f.key, g.key)
  }

  lemma {:induction false} TextLessTransitive(s: Text, t: Text, u: Text)
    requires TextLess(s, t) && TextLess(t, u)
    ensures TextLess(s, u)
  {
    if s != [] && t != [] && u != [] && s[0] == t[0] == u[0] {
      TextLessTransitive(s[1..], t[1..], u[1..]);
    }
  }

  lemma {:induction false} TextLessIrreflexive(s: Text)
    ensures !TextLess(s, s)
  {
    if s != [] { TextLessIrreflexive(s[1..]); }
  }

  lemma {:induction false} TextLessTotal(s: Text, t: Text)
    requires s != t
    ensures TextLess(s, t) || TextLess(t, s)
  {
    if s != [] && t != [] && s[0] == t[0] {
      assert s == [s[0]] + s[1..] && t == [t[0]] + t[1..];
      TextLessTotal(s[1..], t[1..]);
    }
  }

  lemma KeyOrder()
    ensures StrictOrder(KeyLess)
  {
    forall f ensures !KeyLess(f, f) { TextLessIrreflexive(f.key); }
    forall f, g, h | KeyLess(f, g) && KeyLess(g, h) ensures KeyLess(f, h) { TextLessTransitive(f.key, g.key, h.key); }
  }

  // ----- printing -----

  /** Numbers print as digits, signs, a point and an exponent mark, starting with a digit or a minus. */
  predicate NumberUnit(u: Unit) {
    0x30 <= u <= 0x39 || u == 0x2D || u == 0x2B || u == 0x2E || u == 0x65
  }

  predicate NumberText(t: Text) {
    t != [] && (0x30 <= t[0] <= 0x39 || t[0] == 0x2D) && forall i :: 0 <= i < |t| ==> NumberUnit(t[i])
  }

  /** Object keys differ, number texts are numbers. */
  ghost predicate WellFormed(v: Json) {
    match v
    case Number(Finite(t)) => NumberText(t)
    case Array(items) => forall i :: 0 <= i < |items| ==> WellFormed(items[i])
    case Object(fields) =>
      && (forall i, j :: 0 <= i < j < |fields| ==> fields[i].key != fields[j].key)
      && (forall i :: 0 <= i < |fields| ==> WellFormed(fields[i].value))
    case _ => true
  }

  /** What the printers take: `strict` is the catalog printer, which refuses non-finite numbers. */
  predicate Supported(v: Json, strict: bool) {
    match v
    case Number(n) => n.Finite? || !strict
    case Array(items) => forall i :: 0 <= i < |items| ==> Supported(items[i], strict)
    case Object(fields) => forall i :: 0 <= i < |fields| ==> Supported(fields[i].value, strict)
    case Unsupported => false
    case _ => true
  }

  function SortedFields(fields: seq<Field>): (sorted: seq<Field>)
    ensures forall f :: f in sorted <==> f in fields
  {
    SortElements(KeyLess, fields);
    Sort(KeyLess, fields)
  }

  function Print(v: Json): Text
    decreases v
  {
    match v
    case Null => NULL_TEXT
    case Bool(b) => if b then TRUE_TEXT else FALSE_TEXT
    case Number(n) => if n.Finite? then n.text else NULL_TEXT
    case Str(s) => Quote(s)
    case Array(items) => [OPEN_ARRAY] + PrintItems(v, items) + [CLOSE_ARRAY]
    case Object(fields) => [OPEN_OBJECT] + PrintMembers(v, SortedFields(fields)) + [CLOSE_OBJECT]
    case Unsupported => []
  }

  function PrintItems(context: Json, items: seq<Json>): Text
    requires forall i :: 0 <= i < |items| ==> items[i] < context
    decreases context, |items|
  {
    if items == [] then []
    else
      assert items[0] in items;
      if |items| == 1 then Print(items[0])
      else Print(items[0]) + [COMMA] + PrintItems(context, items[1..])
  }

  function PrintMember(context: Json, f: Field): Text
    requires f.value < context
    decreases context, 0
  {
    Quote(f.key) + [COLON] + Print(f.value)
  }

  function PrintMembers(context: Json, fields: seq<Field>): Text
    requires forall f :: f in fields ==> f.value < context
    decreases context, |fields| + 1
  {
    if fields == [] then []
    else if |fields| == 1 then PrintMember(context, fields[0])
    else PrintMember(context, fields[0]) + [COMMA] + PrintMembers(context, fields[1..])
  }

  /** `canonicalJson`, and with `strict` `stableJson`; nothing where they throw. */
  function CanonicalJson(v: Json, strict: bool): Option<Text> {
    if Supported(v, strict) then Some(Print(v)) else None
  }

  // ----- equality up to key order -----

  ghost predicate Same(v: Json, w: Json)
    decreases v
  {
    || (v == w && (v.Null? || v.Bool? || v.Number? || v.Str?))
    || (v.Array? && w.Array? && |v.items| == |w.items|
        && forall i :: 0 <= i < |v.items| ==> Same(v.items[i], w.items[i]))
    || (v.Object? && w.Object?
        && (forall i {:trigger Matched(v, w, i)} :: 0 <= i < |v.fields| ==> Matched(v, w, i))
        && (forall j {:trigger MatchedBack(v, w, j)} :: 0 <= j < |w.fields| ==> MatchedBack(v, w, j)))
  }

  ghost predicate Matched(v: Json, w: Json, i: nat)
    requires v.Object? && w.Object? && i < |v.fields|
    decreases v, 1
  {
    exists j :: 0 <= j < |w.fields| && SameField(v, v.fields[i], w.fields[j])
  }

  ghost predicate MatchedBack(v: Json, w: Json, j: nat)
    requires v.Object? && w.Object? && j < |w.fields|
    decreases v, 1
  {
    exists i :: 0 <= i < |v.fields| && SameField(v, v.fields[i], w.fields[j])
  }

  ghost predicate SameField(context: Json, f: Field, g: Field)
    requires f.value < context
    decreases context, 0
  {
    f.key == g.key && Same(f.value, g.value)
  }

  // ----- equal texts come from equal values -----

  predicate Delimited(r: Text) {
    r == [] || r[0] == COMMA || r[0] == CLOSE_ARRAY || r[0] == CLOSE_OBJECT
  }

  lemma NumberNotLonger(a: Text, b: Text, r: Text, q: Text)
    requires NumberText(b) && Delimited(r) && a + r == b + q
    ensures |b| <= |a|
  {
    var x := a + r;
    assert forall i :: 0 <= i < |b| ==> x[i] == b[i];
    assert |a| < |x| ==> x[|a|] == r[0];
  }

  lemma NumberSplits(a: Text, b: Text, r: Text, q: Text)
    requires NumberText(a) && NumberText(b) && Delimited(r) && Delimited(q) && a + r == b + q
    ensures a == b && r == q
  {
    NumberNotLonger(a, b, r, q);
    NumberNotLonger(b, a, q, r);
    assert a == (a + r)[..|a|] && b == (b + q)[..|b|];
    assert r == (a + r)[|a|..] && q == (b + q)[|b|..];
  }

  /** The first unit of a value's text tells what kind of value it is. */
  function KindOf(u: Unit): nat {
    if u == NULL_TEXT[0] then 0
    else if u == TRUE_TEXT[0] then 1
    else if u == FALSE_TEXT[0] then 2
    else if u == QUOTE then 3
    else if u == OPEN_ARRAY then 4
    else if u == OPEN_OBJECT then 5
    else if 0x30 <= u <= 0x39 || u == 0x2D then 6
    else 7
  }

  function Kind(v: Json): nat {
    match v
    case Null => 0
    case Bool(b) => if b then 1 else 2
    case Number(_) => 6
    case Str(_) => 3
    case Array(_) => 4
    case Object(_) => 5
    case Unsupported => 8
  }

  lemma FirstUnit(v: Json)
    requires WellFormed(v) && Supported(v, true)
    ensures Print(v) != [] && KindOf(Print(v)[0]) == Kind(v) && !Delimited(Print(v))
  {
  }

  /** A value that JSON can write as it is. */
  ghost predicate Printable(v: Json) {
    WellFormed(v) && Supported(v, true)
  }

  lemma SameKind(v: Json, w: Json, r: Text, q: Text)
    requires Printable(v) && Printable(w)
    requires Print(v) + r == Print(w) + q
    ensures Kind(v) == Kind(w)
  {
    FirstUnit(v);
    FirstUnit(w);
    assert (Print(v) + r)[0] == Print(v)[0] && (Print(w) + q)[0] == Print(w)[0];
  }

  // A list of items, its closing bracket and what follows.

  function ItemsText(context: Json, items: seq<Json>, r: Text): Text
    requires forall i :: 0 <= i < |items| ==> items[i] < context
  {
    PrintItems(context, items) + ([CLOSE_ARRAY] + r)
  }

  function ItemsRest(context: Json, rest: seq<Json>, r: Text): (t: Text)
    requires forall i :: 0 <= i < |rest| ==> rest[i] < context
    ensures t != [] && Delimited(t)
  {
    if rest == [] then [CLOSE_ARRAY] + r else [COMMA] + ItemsText(context, rest, r)
  }

  lemma ItemsUnfold(context: Json, items: seq<Json>, r: Text)
    requires items != [] && forall i :: 0 <= i < |items| ==> items[i] < context
    ensures ItemsText(context, items, r) == Print(items[0]) + ItemsRest(context, items[1..], r)
  {
  }

  function MembersText(context: Json, fields: seq<Field>, r: Text): Text
    requires forall f :: f in fields ==> f.value < context
  {
    PrintMembers(context, fields) + ([CLOSE_OBJECT] + r)
  }

  function MembersRest(context: Json, rest: seq<Field>, r: Text): (t: Text)
    requires forall f :: f in rest ==> f.value < context
    ensures t != [] && Delimited(t)
  {
    if rest == [] then [CLOSE_OBJECT] + r else [COMMA] + MembersText(context, rest, r)
  }

  lemma MembersUnfold(context: Json, fields: seq<Field>, r: Text)
    requires fields != [] && forall f :: f in fields ==> f.value < context
    ensures fields[0].value < context
    ensures MembersText(context, fields, r) == PrintMember(context, fields[0]) + MembersRest(context, fields[1..], r)
  {
    assert fields[0] in fields;
  }

  lemma MemberRegroups(context: Json, f: Field, rest: Text)
    requires f.value < context
    ensures PrintMember(context, f) + rest == Quote(f.key) + ([COLON] + (Print(f.value) + rest))
  {
  }

  ghost predicate AllPrintable(items: seq<Json>) {
    forall x :: x in items ==> Printable(x)
  }

  ghost predicate FieldsPrintable(fields: seq<Field>) {
    forall f :: f in fields ==> Printable(f.value)
  }

  ghost predicate SameItems(items: seq<Json>, others: seq<Json>) {
    |items| == |others| && forall i :: 0 <= i < |items| ==> Same(items[i], others[i])
  }

  ghost predicate SameMembers(fields: seq<Field>, others: seq<Field>) {
    && |fields| == |others|
    && forall i :: 0 <= i < |fields| ==> fields[i].key == others[i].key && Same(fields[i].value, others[i].value)
  }

  lemma SameMembersObject(v: Json, w: Json)
    requires v.Object? && w.Object? && SameMembers(SortedFields(v.fields), SortedFields(w.fields))
    ensures Same(v, w)
  {
    var f, g := SortedFields(v.fields), SortedFields(w.fields);
    forall i | 0 <= i < |v.fields| ensures Matched(v, w, i) {
      assert v.fields[i] in f;
      var k :| 0 <= k < |f| && f[k] == v.fields[i];
      assert g[k] in w.fields;
      var j :| 0 <= j < |w.fields| && w.fields[j] == g[k];
      assert SameField(v, v.fields[i], w.fields[j]);
    }
    forall j | 0 <= j < |w.fields| ensures MatchedBack(v, w, j) {
      assert w.fields[j] in g;
      var k :| 0 <= k < |g| && g[k] == w.fields[j];
      assert f[k] in v.fields;
      var i :| 0 <= i < |v.fields| && v.fields[i] == f[k];
      assert SameField(v, v.fields[i], w.fields[j]);
    }
  }

  lemma ArrayBody(v: Json, r: Text)
    requires v.Array?
    ensures (Print(v) + r)[1..] == ItemsText(v, v.items, r)
  {
  }

  lemma ObjectBody(v: Json, r: Text)
    requires v.Object?
    ensures (Print(v) + r)[1..] == MembersText(v, SortedFields(v.fields), r)
  {
  }

  lemma LiteralSplits(t: Text, r: Text, q: Text)
    requires t + r == t + q
    ensures r == q
  {
    assert (t + r)[|t|..] == r && (t + q)[|t|..] == q;
  }

  /** The text of a value followed by a delimiter determines the value, up to key order, and where it ends. */
  lemma {:induction false} TextsDecode(v: Json, w: Json, r: Text, q: Text)
    requires Printable(v) && Printable(w) && Delimited(r) && Delimited(q)
    requires Print(v) + r == Print(w) + q
    ensures Same(v, w) && r == q
    decreases v
  {
    SameKind(v, w, r, q);
    match v
    case Null => LiteralSplits(NULL_TEXT, r, q);
    case Bool(b) => LiteralSplits(if b then TRUE_TEXT else FALSE_TEXT, r, q);
    case Number(n) => NumberSplits(n.text, w.n.text, r, q);
    case Str(s) => QuoteSplits(s, w.s, r, q);
    case Array(items) =>
      ArrayBody(v, r);
      ArrayBody(w, q);
      ItemsDecode(v, items, w, w.items, r, q);
    case Object(fields) =>
      ObjectBody(v, r);
      ObjectBody(w, q);
      MembersDecode(v, SortedFields(fields), w, SortedFields(w.fields), r, q);
      SameMembersObject(v, w);
  }

  /** Two lists with one text are empty together. */
  lemma ItemsEmpty(v: Json, items: seq<Json>, w: Json, others: seq<Json>, r: Text, q: Text)
    requires forall i :: 0 <= i < |items| ==> items[i] < v
    requires forall i :: 0 <= i < |others| ==> others[i] < w
    requires AllPrintable(others) && items == []
    requires ItemsText(v, items, r) == ItemsText(w, others, q)
    ensures others == [] && r == q
  {
    assert ItemsText(v, items, r)[0] == CLOSE_ARRAY;
    if others != [] {
      ItemsUnfold(w, others, q);
      assert others[0] in others;
      FirstUnit(others[0]);
      assert false;
    }
    assert ItemsText(v, items, r) == [CLOSE_ARRAY] + r && ItemsText(w, others, q) == [CLOSE_ARRAY] + q;
    LiteralSplits([CLOSE_ARRAY], r, q);
  }

  lemma ItemsRestSplits(v: Json, rest: seq<Json>, w: Json, others: seq<Json>, r: Text, q: Text)
    requires forall i :: 0 <= i < |rest| ==> rest[i] < v
    requires forall i :: 0 <= i < |others| ==> others[i] < w
    requires ItemsRest(v, rest, r) == ItemsRest(w, others, q)
    ensures rest == [] <==> others == []
    ensures ItemsText(v, rest, r) == ItemsText(w, others, q)
  {
    assert ItemsRest(v, rest, r)[0] == ItemsRest(w, others, q)[0];
    if rest == [] {
      LiteralSplits([CLOSE_ARRAY], r, q);
    } else {
      LiteralSplits([COMMA], ItemsText(v, rest, r), ItemsText(w, others, q));
    }
  }

  lemma SameItemsCons(items: seq<Json>, others: seq<Json>)
    requires items != [] && others != [] && Same(items[0], others[0]) && SameItems(items[1..], others[1..])
    ensures SameItems(items, others)
  {
    forall i | 0 <= i < |items| ensures Same(items[i], others[i]) {
      if i > 0 { assert items[i] == items[1..][i - 1] && others[i] == others[1..][i - 1]; }
    }
  }

  lemma {:induction false} ItemsDecode(v: Json, items: seq<Json>, w: Json, others: seq<Json>, r: Text, q: Text)
    requires forall i :: 0 <= i < |items| ==> items[i] < v
    requires forall i :: 0 <= i < |others| ==> others[i] < w
    requires AllPrintable(items) && AllPrintable(others)
    requires ItemsText(v, items, r) == ItemsText(w, others, q)
    ensures SameItems(items, others) && r == q
    decreases v, |items|
  {
    if items == [] {
      ItemsEmpty(v, items, w, others, r, q);
    } else if others == [] {
      ItemsEmpty(w, others, v, items, q, r);
    } else {
      var xs, ys := items[1..], others[1..];
      assert items[0] in items && others[0] in others;
      assert forall x :: x in xs ==> x in items;
      assert forall x :: x in ys ==> x in others;
      ItemsUnfold(v, items, r);
      ItemsUnfold(w, others, q);
      TextsDecode(items[0], others[0], ItemsRest(v, xs, r), ItemsRest(w, ys, q));
      ItemsRestSplits(v, xs, w, ys, r, q);
      ItemsDecode(v, xs, w, ys, r, q);
      SameItemsCons(items, others);
    }
  }

  lemma MembersEmpty(v: Json, fields: seq<Field>, w: Json, others: seq<Field>, r: Text, q: Text)
    requires forall f :: f in fields ==> f.value < v
    requires forall f :: f in others ==> f.value < w
    requires fields == [] && MembersText(v, fields, r) == MembersText(w, others, q)
    ensures others == [] && r == q
  {
    assert MembersText(v, fields, r)[0] == CLOSE_OBJECT;
    if others != [] {
      MembersUnfold(w, others, q);
      assert false;
    }
    assert MembersText(v, fields, r) == [CLOSE_OBJECT] + r && MembersText(w, others, q) == [CLOSE_OBJECT] + q;
    LiteralSplits([CLOSE_OBJECT], r, q);
  }

  lemma MembersRestSplits(v: Json, rest: seq<Field>, w: Json, others: seq<Field>, r: Text, q: Text)
    requires forall f :: f in rest ==> f.value < v
    requires forall f :: f in others ==> f.value < w
    requires MembersRest(v, rest, r) == MembersRest(w, others, q)
    ensures MembersText(v, rest, r) == MembersText(w, others, q)
  {
    assert MembersRest(v, rest, r)[0] == MembersRest(w, others, q)[0];
    if rest == [] {
      LiteralSplits([CLOSE_OBJECT], r, q);
    } else {
      LiteralSplits([COMMA], MembersText(v, rest, r), MembersText(w, others, q));
    }
  }

  lemma MemberSplits(k: Text, l: Text, a: Text, b: Text)
    requires Quote(k) + ([COLON] + a) == Quote(l) + ([COLON] + b)
    ensures k == l && a == b
  {
    QuoteSplits(k, l, [COLON] + a, [COLON] + b);
    LiteralSplits([COLON], a, b);
  }

  lemma SameMembersCons(fields: seq<Field>, others: seq<Field>)
    requires fields != [] && others != [] && fields[0].key == others[0].key && Same(fields[0].value, others[0].value)
    requires SameMembers(fields[1..], others[1..])
    ensures SameMembers(fields, others)
  {
    forall i | 0 <= i < |fields| ensures fields[i].key == others[i].key && Same(fields[i].value, others[i].value) {
      if i > 0 { assert fields[i] == fields[1..][i - 1] && others[i] == others[1..][i - 1]; }
    }
  }

  lemma {:induction false} MembersDecode(v: Json, fields: seq<Field>, w: Json, others: seq<Field>, r: Text, q: Text)
    requires forall f :: f in fields ==> f.value < v
    requires forall f :: f in others ==> f.value < w
    requires FieldsPrintable(fields) && FieldsPrintable(others)
    requires MembersText(v, fields, r) == MembersText(w, others, q)
    ensures SameMembers(fields, others) && r == q
    decreases v, |fields|
  {
    if fields == [] {
      MembersEmpty(v, fields, w, others, r, q);
    } else if others == [] {
      MembersEmpty(w, others, v, fields, q, r);
    } else {
      var f, g, fs, gs := fields[0], others[0], fields[1..], others[1..];
      assert f in fields && g in others;
      MembersUnfold(v, fields, r);
      MembersUnfold(w, others, q);
      MemberRegroups(v, f, MembersRest(v, fs, r));
      MemberRegroups(w, g, MembersRest(w, gs, q));
      MemberSplits(f.key, g.key, Print(f.value) + MembersRest(v, fs, r), Print(g.value) + MembersRest(w, gs, q));
      TextsDecode(f.value, g.value, MembersRest(v, fs, r), MembersRest(w, gs, q));
      MembersRestSplits(v, fs, w, gs, r, q);
      MembersDecode(v, fs, w, gs, r, q);
      SameMembersCons(fields, others);
    }
  }

  // ----- equal values have equal texts -----

  lemma SortedKeys(fields: seq<Field>)
    requires forall i, j :: 0 <= i < j < |fields| ==> fields[i].key != fields[j].key
    ensures Sorted(KeyLess, SortedFields(fields))
  {
    KeyOrder();
    forall f, g | f in fields && g in fields && f != g ensures KeyLess(f, g) || KeyLess(g, f) {
      var i :| 0 <= i < |fields| && fields[i] == f;
      var j :| 0 <= j < |fields| && fields[j] == g;
      TextLessTotal(f.key, g.key);
    }
    SortSorts(KeyLess, fields);
  }

  ghost function Keys(fields: seq<Field>): seq<Text> {
    seq(|fields|, i requires 0 <= i < |fields| => fields[i].key)
  }

  lemma TextOrder()
    ensures StrictOrder(TextLess)
  {
    forall s ensures !TextLess(s, s) { TextLessIrreflexive(s); }
    forall s, t, u | TextLess(s, t) && TextLess(t, u) ensures TextLess(s, u) { TextLessTransitive(s, t, u); }
  }

  lemma SortedKeySequence(fields: seq<Field>)
    requires forall i, j :: 0 <= i < j < |fields| ==> fields[i].key != fields[j].key
    ensures Sorted(TextLess, Keys(SortedFields(fields)))
  {
    var f := SortedFields(fields);
    SortedKeys(fields);
    forall i, j | 0 <= i < j < |f| ensures TextLess(Keys(f)[i], Keys(f)[j]) {
      assert KeyLess(f[i], f[j]);
    }
  }

  lemma KeyIn(fields: seq<Field>, i: nat)
    requires i < |fields|
    ensures fields[i].key in Keys(SortedFields(fields))
  {
    var f := SortedFields(fields);
    assert fields[i] in f;
    var a :| 0 <= a < |f| && f[a] == fields[i];
    assert Keys(f)[a] == fields[i].key;
  }

  lemma KeyFrom(fields: seq<Field>, k: Text) returns (i: nat)
    requires k in Keys(SortedFields(fields))
    ensures i < |fields| && fields[i].key == k
  {
    var f := SortedFields(fields);
    var a :| 0 <= a < |Keys(f)| && Keys(f)[a] == k;
    assert f[a] in fields;
    i :| 0 <= i < |fields| && fields[i] == f[a];
  }

  /** Two objects that are the same sort to members with the same keys. */
  lemma SameSortedKeys(v: Json, w: Json)
    requires v.Object? && w.Object? && WellFormed(v) && WellFormed(w) && Same(v, w)
    ensures Keys(SortedFields(v.fields)) == Keys(SortedFields(w.fields))
  {
    var f, g := Keys(SortedFields(v.fields)), Keys(SortedFields(w.fields));
    SortedKeySequence(v.fields);
    SortedKeySequence(w.fields);
    forall k ensures k in f <==> k in g {
      if k in f {
        var i := KeyFrom(v.fields, k);
        assert Matched(v, w, i);
        var j :| 0 <= j < |w.fields| && SameField(v, v.fields[i], w.fields[j]);
        KeyIn(w.fields, j);
      }
      if k in g {
        var j := KeyFrom(w.fields, k);
        assert MatchedBack(v, w, j);
        var i :| 0 <= i < |v.fields| && SameField(v, v.fields[i], w.fields[j]);
        KeyIn(v.fields, i);
      }
    }
    TextOrder();
    SortedUnique(TextLess, f, g);
  }

  lemma SameSortsAlike(v: Json, w: Json)
    requires v.Object? && w.Object? && WellFormed(v) && WellFormed(w) && Same(v, w)
    ensures SameMembers(SortedFields(v.fields), SortedFields(w.fields))
  {
    var f, g := SortedFields(v.fields), SortedFields(w.fields);
    SameSortedKeys(v, w);
    assert |f| == |Keys(f)| == |Keys(g)| == |g|;
    forall a | 0 <= a < |f| ensures f[a].key == g[a].key && Same(f[a].value, g[a].value) {
      assert Keys(f)[a] == Keys(g)[a];
      assert f[a] in v.fields && g[a] in w.fields;
      var i :| 0 <= i < |v.fields| && v.fields[i] == f[a];
      assert Matched(v, w, i);
      var j :| 0 <= j < |w.fields| && SameField(v, v.fields[i], w.fields[j]);
      var k :| 0 <= k < |w.fields| && w.fields[k] == g[a];
      assert j == k;
    }
  }

  lemma {:induction false} SamePrints(v: Json, w: Json)
    requires Printable(v) && Printable(w) && Same(v, w)
    ensures Print(v) == Print(w)
    decreases v
  {
    if v.Array? {
      ItemsPrint(v, v.items, w, w.items);
    } else if v.Object? {
      SameSortsAlike(v, w);
      MembersPrint(v, SortedFields(v.fields), w, SortedFields(w.fields));
    }
  }

  lemma {:induction false} ItemsPrint(v: Json, items: seq<Json>, w: Json, others: seq<Json>)
    requires forall i :: 0 <= i < |items| ==> items[i] < v
    requires forall i :: 0 <= i < |others| ==> others[i] < w
    requires AllPrintable(items) && AllPrintable(others) && SameItems(items, others)
    ensures PrintItems(v, items) == PrintItems(w, others)
    decreases v, |items|
  {
    if items != [] {
      var xs, ys := items[1..], others[1..];
      assert items[0] in items && others[0] in others;
      assert forall x :: x in xs ==> x in items;
      assert forall x :: x in ys ==> x in others;
      SamePrints(items[0], others[0]);
      ItemsPrint(v, xs, w, ys);
    }
  }

  lemma {:induction false} MembersPrint(v: Json, fields: seq<Field>, w: Json, others: seq<Field>)
    requires forall f :: f in fields ==> f.value < v
    requires forall f :: f in others ==> f.value < w
    requires FieldsPrintable(fields) && FieldsPrintable(others) && SameMembers(fields, others)
    ensures PrintMembers(v, fields) == PrintMembers(w, others)
    decreases v, |fields|
  {
    if fields != [] {
      assert fields[0] in fields && others[0] in others;
      SamePrints(fields[0].value, others[0].value);
      MembersPrint(v, fields[1..], w, others[1..]);
    }
  }

  // ----- non-finite numbers -----

  /** The value with every non-finite number replaced by null. */
  function Nulled(v: Json): Json {
    match v
    case Number(NonFinite) => Null
    case Array(items) => Array(seq(|items|, i requires 0 <= i < |items| => Nulled(items[i])))
    case Object(fields) =>
      Object(seq(|fields|, i requires 0 <= i < |fields| => Field(fields[i].key, Nulled(fields[i].value))))
    case _ => v
  }

  function NulledItems(items: seq<Json>): seq<Json> {
    seq(|items|, i requires 0 <= i < |items| => Nulled(items[i]))
  }

  function NulledField(f: Field): Field {
    Field(f.key, Nulled(f.value))
  }

  function NulledFields(fields: seq<Field>): seq<Field> {
    seq(|fields|, i requires 0 <= i < |fields| => NulledField(fields[i]))
  }

  lemma NulledParts(v: Json)
    ensures v.Array? ==> Nulled(v) == Array(NulledItems(v.items))
    ensures v.Object? ==> Nulled(v) == Object(NulledFields(v.fields))
  {
    if v.Array? {
      assert Nulled(v).items == NulledItems(v.items);
    } else if v.Object? {
      assert Nulled(v).fields == NulledFields(v.fields);
    }
  }

  lemma {:induction false} NulledPrintable(v: Json)
    requires WellFormed(v) && Supported(v, false)
    ensures Printable(Nulled(v))
  {
    match v
    case Array(items) =>
      forall i | 0 <= i < |items| ensures Printable(Nulled(items[i])) { NulledPrintable(items[i]); }
    case Object(fields) =>
      forall i | 0 <= i < |fields| ensures Printable(Nulled(fields[i].value)) { NulledPrintable(fields[i].value); }
    case _ =>
  }

  /** Nothing changes in a value that JSON can write. */
  lemma {:induction false} NulledFinite(v: Json)
    requires Supported(v, true)
    ensures Nulled(v) == v && Supported(v, false)
  {
    match v
    case Array(items) =>
      forall i | 0 <= i < |items| ensures Nulled(items[i]) == items[i] && Supported(items[i], false) {
        NulledFinite(items[i]);
      }
      assert Nulled(v).items == items;
    case Object(fields) =>
      forall i | 0 <= i < |fields|
        ensures Nulled(fields[i].value) == fields[i].value && Supported(fields[i].value, false)
      {
        NulledFinite(fields[i].value);
      }
      assert Nulled(v).fields == fields;
    case _ =>
  }

  lemma {:induction false} InsertNulled(f: Field, fields: seq<Field>)
    ensures Insert(KeyLess, NulledField(f), NulledFields(fields)) == NulledFields(Insert(KeyLess, f, fields))
  {
    if fields != [] && !KeyLess(f, fields[0]) {
      InsertNulled(f, fields[1..]);
      assert NulledFields(fields)[1..] == NulledFields(fields[1..]);
    }
  }

  /** Members are sorted by key alone. */
  lemma {:induction false} SortNulled(fields: seq<Field>)
    ensures Sort(KeyLess, NulledFields(fields)) == NulledFields(Sort(KeyLess, fields))
  {
    if fields != [] {
      SortNulled(fields[1..]);
      assert NulledFields(fields)[1..] == NulledFields(fields[1..]);
      InsertNulled(fields[0], Sort(KeyLess, fields[1..]));
    }
  }

  /** A non-finite number prints as null. */
  lemma {:induction false} NulledPrints(v: Json)
    ensures Print(Nulled(v)) == Print(v)
    decreases v
  {
    NulledParts(v);
    if v.Array? {
      NulledItemsPrint(v, v.items, Nulled(v), NulledItems(v.items));
    } else if v.Object? {
      SortNulled(v.fields);
      NulledMembersPrint(v, SortedFields(v.fields), Nulled(v), SortedFields(NulledFields(v.fields)));
    }
  }

  lemma {:induction false} NulledItemsPrint(v: Json, items: seq<Json>, w: Json, others: seq<Json>)
    requires forall i :: 0 <= i < |items| ==> items[i] < v
    requires forall i :: 0 <= i < |others| ==> others[i] < w
    requires others == NulledItems(items)
    ensures PrintItems(w, others) == PrintItems(v, items)
    decreases v, |items|
  {
    if items != [] {
      NulledPrints(items[0]);
      assert others[1..] == NulledItems(items[1..]);
      NulledItemsPrint(v, items[1..], w, others[1..]);
    }
  }

  lemma {:induction false} NulledMembersPrint(v: Json, fields: seq<Field>, w: Json, others: seq<Field>)
    requires forall f :: f in fields ==> f.value < v
    requires forall f :: f in others ==> f.value < w
    requires others == NulledFields(fields)
    ensures PrintMembers(w, others) == PrintMembers(v, fields)
    decreases v, |fields|
  {
    if fields != [] {
      assert fields[0] in fields;
      NulledPrints(fields[0].value);
      assert others[1..] == NulledFields(fields[1..]);
      NulledMembersPrint(v, fields[1..], w, others[1..]);
    }
  }

  // ----- the printers are faithful -----

  /** Values that JSON can write have the same text exactly when they are equal up to key order. */
  lemma PrintFaithful(v: Json, w: Json)
    requires Printable(v) && Printable(w)
    ensures Print(v) == Print(w) <==> Same(v, w)
  {
    if Print(v) == Print(w) {
      assert Print(v) + [] == Print(w) + [];
      TextsDecode(v, w, [], []);
    }
    if Same(v, w) {
      SamePrints(v, w);
    }
  }

  /**
   * Two values that a printer takes get the same text exactly when they are equal up to key order, with
   * non-finite numbers, which only the lenient printer takes, replaced by null.
   */
  lemma CanonicalJsonFaithful(v: Json, w: Json, strict: bool)
    requires WellFormed(v) && WellFormed(w)
    requires CanonicalJson(v, strict).Some? && CanonicalJson(w, strict).Some?
    ensures CanonicalJson(v, strict) == CanonicalJson(w, strict) <==> Same(Nulled(v), Nulled(w))
    ensures Supported(v, true) && Supported(w, true) ==>
              (CanonicalJson(v, strict) == CanonicalJson(w, strict) <==> Same(v, w))
  {
    if Supported(v, true) {
      NulledFinite(v);
    }
    if Supported(w, true) {
      NulledFinite(w);
    }
    NulledPrintable(v);
    NulledPrintable(w);
    NulledPrints(v);
    NulledPrints(w);
    PrintFaithful(Nulled(v), Nulled(w));
  }

  /** The one loss: the lenient printer writes a non-finite number as null. The strict one refuses it. */
  lemma NonFinitePrintsNull()
    ensures CanonicalJson(Number(NonFinite), false) == CanonicalJson(Null, false)
    ensures CanonicalJson(Number(NonFinite), true).None?
    ensures !Same(Number(NonFinite), Null)
  {
  }
}
