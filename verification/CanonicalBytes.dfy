/**
 * Digests and signatures are taken over the UTF-8 bytes of canonical text. The encoder writes a lone
 * surrogate as the replacement character, so bytes tell texts apart only where there is none; the
 * printers escape them all.
 */
module CanonicalBytes {
  import opened Wrappers
  import opened Printer = CanonicalJson
  import opened ProjectionDigest

  type Octet = x: int | 0 <= x < 256

  // ----- the encoder -----

  const REPLACEMENT: int := 0xFFFD

  /** The bytes of one code point. */
  function EncodePoint(c: int): (r: seq<Octet>)
    requires 0 <= c < 0x110000
    ensures r != []
  {
    if c < 0x80 then [c]
    else if c < 0x800 then [0xC0 + c / 64, 0x80 + c % 64]
    else if c < 0x10000 then [0xE0 + c / 64 / 64, 0x80 + c / 64 % 64, 0x80 + c % 64]
    else [0xF0 + c / 64 / 64 / 64, 0x80 + c / 64 / 64 % 64, 0x80 + c / 64 % 64, 0x80 + c % 64]
  }

  /** The code point of the bytes of one. */
  function DecodePoint(b: seq<int>): int
    requires 1 <= |b| <= 4
  {
    if |b| == 1 then b[0]
    else if |b| == 2 then 64 * (b[0] - 0xC0) + (b[1] - 0x80)
    else if |b| == 3 then 64 * (64 * (b[0] - 0xE0) + (b[1] - 0x80)) + (b[2] - 0x80)
    else 64 * (64 * (64 * (b[0] - 0xF0) + (b[1] - 0x80)) + (b[2] - 0x80)) + (b[3] - 0x80)
  }

  lemma PointRoundTrip(c: int)
    requires 0 <= c < 0x110000
    ensures |EncodePoint(c)| <= 4 && DecodePoint(EncodePoint(c)) == c
  {
    var x := c / 64;
    var y := x / 64;
    assert c == 64 * x + c % 64;
    assert x == 64 * y + x % 64;
    assert y == 64 * (y / 64) + y % 64;
  }

  predicate Surrogate(u: Unit) {
    HighSurrogate(u) || LowSurrogate(u)
  }

  predicate StartsWithPair(t: Text) {
    |t| > 1 && HighSurrogate(t[0]) && LowSurrogate(t[1])
  }

  /** The units that make the first code point. */
  function Width(t: Text): nat
    requires t != []
  {
    if StartsWithPair(t) then 2 else 1
  }

  /** The first code point, as the encoder reads it. */
  function FirstPoint(t: Text): (c: int)
    requires t != []
    ensures 0 <= c < 0x110000
  {
    if StartsWithPair(t) then 0x10000 + (t[0] - 0xD800) * 1024 + (t[1] - 0xDC00)
    else if Surrogate(t[0]) then REPLACEMENT
    else t[0]
  }

  function Utf8(t: Text): seq<Octet> {
    if t == [] then [] else EncodePoint(FirstPoint(t)) + Utf8(t[Width(t)..])
  }

  /** Every surrogate is part of a pair. */
  predicate Paired(t: Text) {
    t == [] || ((StartsWithPair(t) || !Surrogate(t[0])) && Paired(t[Width(t)..]))
  }

  // ----- bytes determine paired text -----

  lemma SplitAlike(a: seq<Octet>, b: seq<Octet>, r: seq<Octet>, q: seq<Octet>)
    requires |a| == |b| && a + r == b + q
    ensures a == b && r == q
  {
    assert a == (a + r)[..|a|] && b == (b + q)[..|b|];
    assert r == (a + r)[|a|..] && q == (b + q)[|b|..];
  }

  /** The first byte tells how many there are. */
  lemma SameLength(c: int, d: int)
    requires 0 <= c < 0x110000 && 0 <= d < 0x110000 && EncodePoint(c)[0] == EncodePoint(d)[0]
    ensures |EncodePoint(c)| == |EncodePoint(d)|
  {
  }

  /** The encoding of a code point is a prefix code. */
  lemma PointSplits(c: int, d: int, r: seq<Octet>, q: seq<Octet>)
    requires 0 <= c < 0x110000 && 0 <= d < 0x110000 && EncodePoint(c) + r == EncodePoint(d) + q
    ensures c == d && r == q
  {
    assert (EncodePoint(c) + r)[0] == EncodePoint(c)[0] && (EncodePoint(d) + q)[0] == EncodePoint(d)[0];
    SameLength(c, d);
    SplitAlike(EncodePoint(c), EncodePoint(d), r, q);
    PointRoundTrip(c);
    PointRoundTrip(d);
  }

  /** A code point comes from one choice of units. */
  lemma SameUnits(t: Text, u: Text)
    requires t != [] && u != [] && Paired(t) && Paired(u) && FirstPoint(t) == FirstPoint(u)
    ensures Width(t) == Width(u) && t[..Width(t)] == u[..Width(u)]
  {
    if StartsWithPair(t) && StartsWithPair(u) {
      assert t[0] - 0xD800 == u[0] - 0xD800;
      assert t[..2] == [t[0], t[1]] && u[..2] == [u[0], u[1]];
    }
  }

  /** Texts without lone surrogates have the same bytes exactly when they are the same. */
  lemma {:induction false} Utf8Injective(t: Text, u: Text)
    requires Paired(t) && Paired(u)
    ensures Utf8(t) == Utf8(u) <==> t == u
    decreases |t|
  {
    if t != [] && u != [] && Utf8(t) == Utf8(u) {
      PointSplits(FirstPoint(t), FirstPoint(u), Utf8(t[Width(t)..]), Utf8(u[Width(u)..]));
      SameUnits(t, u);
      Utf8Injective(t[Width(t)..], u[Width(u)..]);
      assert t == t[..Width(t)] + t[Width(t)..] && u == u[..Width(u)] + u[Width(u)..];
    }
  }

  /** One text of each length: an accented letter, the euro sign and an emoji. */
  lemma Utf8Examples()
    ensures Utf8([0x41]) == [0x41] && Utf8([0xE9]) == [0xC3, 0xA9] && Utf8([0x20AC]) == [0xE2, 0x82, 0xAC]
    ensures Utf8([0xD83D, 0xDE00]) == [0xF0, 0x9F, 0x98, 0x80]
  {
    assert [0x41][1..] == [] && [0xE9][1..] == [] && [0x20AC][1..] == [] && [0xD83D, 0xDE00][2..] == [];
  }

  /** A lone surrogate and the replacement character have the same bytes. */
  lemma LoneSurrogatesCollide()
    ensures Utf8([0xD800]) == Utf8([REPLACEMENT]) && !Paired([0xD800])
  {
    assert [0xD800][1..] == [] && [REPLACEMENT][1..] == [];
  }

  // ----- the printers leave no lone surrogate -----

  lemma {:induction false} PairedConcat(t: Text, u: Text)
    requires Paired(t) && Paired(u)
    ensures Paired(t + u)
    decreases |t|
  {
    if t == [] {
      assert t + u == u;
    } else {
      PairedConcat(t[Width(t)..], u);
      assert Width(t + u) == Width(t);
      assert (t + u)[Width(t)..] == t[Width(t)..] + u;
    }
  }

  lemma {:induction false} PlainPaired(t: Text)
    requires forall i :: 0 <= i < |t| ==> !Surrogate(t[i])
    ensures Paired(t)
  {
    if t != [] {
      PlainPaired(t[1..]);
    }
  }

  lemma EscapeUnitPaired(u: Unit)
    ensures Paired(EscapeUnit(u))
  {
    PlainPaired(EscapeUnit(u));
  }

  lemma PairPaired(h: Unit, l: Unit)
    requires HighSurrogate(h) && LowSurrogate(l)
    ensures Paired([h, l])
  {
    assert [h, l][2..] == [];
  }

  lemma {:induction false} EscapePaired(s: Text)
    ensures Paired(Escape(s))
    decreases |s|
  {
    if StartsWithPair(s) {
      PairPaired(s[0], s[1]);
      EscapePaired(s[2..]);
      PairedConcat([s[0], s[1]], Escape(s[2..]));
    } else if s != [] {
      EscapeUnitPaired(s[0]);
      EscapePaired(s[1..]);
      PairedConcat(EscapeUnit(s[0]), Escape(s[1..]));
    }
  }

  /** Text between two units that are no surrogates. */
  lemma PairedBetween(open: Unit, t: Text, close: Unit)
    requires !Surrogate(open) && !Surrogate(close) && Paired(t)
    ensures Paired([open] + t + [close])
  {
    PlainPaired([open]);
    PlainPaired([close]);
    PairedConcat([open], t);
    PairedConcat([open] + t, [close]);
  }

  lemma PairedJoin(t: Text, mark: Unit, u: Text)
    requires !Surrogate(mark) && Paired(t) && Paired(u)
    ensures Paired(t + [mark] + u)
  {
    PlainPaired([mark]);
    PairedConcat(t, [mark]);
    PairedConcat(t + [mark], u);
  }

  /** No printed text has a lone surrogate, whatever the strings and keys hold. */
  lemma {:induction false} PrintPaired(v: Json)
    requires WellFormed(v)
    ensures Paired(Print(v))
    decreases v
  {
    match v
    case Str(s) =>
      EscapePaired(s);
      PairedBetween(QUOTE, Escape(s), QUOTE);
    case Array(items) =>
      ItemsPaired(v, items);
      PairedBetween(OPEN_ARRAY, PrintItems(v, items), CLOSE_ARRAY);
    case Object(fields) =>
      MembersPaired(v, SortedFields(fields));
      PairedBetween(OPEN_OBJECT, PrintMembers(v, SortedFields(fields)), CLOSE_OBJECT);
    case _ => PlainPaired(Print(v));
  }

  lemma {:induction false} ItemsPaired(v: Json, items: seq<Json>)
    requires forall i :: 0 <= i < |items| ==> items[i] < v && WellFormed(items[i])
    ensures Paired(PrintItems(v, items))
    decreases v, |items|
  {
    if items != [] {
      PrintPaired(items[0]);
      ItemsPaired(v, items[1..]);
      PairedJoin(Print(items[0]), COMMA, PrintItems(v, items[1..]));
    }
  }

  lemma {:induction false} MembersPaired(v: Json, fields: seq<Field>)
    requires forall f :: f in fields ==> f.value < v && WellFormed(f.value)
    ensures Paired(PrintMembers(v, fields))
    decreases v, |fields|
  {
    if fields != [] {
      var f := fields[0];
      assert f in fields;
      EscapePaired(f.key);
      PairedBetween(QUOTE, Escape(f.key), QUOTE);
      PrintPaired(f.value);
      PairedJoin(Quote(f.key), COLON, Print(f.value));
      MembersPaired(v, fields[1..]);
      PairedJoin(PrintMember(v, f), COMMA, PrintMembers(v, fields[1..]));
    }
  }

  // ----- the bytes are faithful -----

  /** The bytes a digest or signature is taken over; nothing where the printer throws. */
  function CanonicalBytes(v: Json, strict: bool): Option<seq<Octet>> {
    var text := Printer.CanonicalJson(v, strict);
    if text.None? then None else Some(Utf8(text.value))
  }

  lemma PrintedPaired(v: Json, strict: bool) returns (text: Option<Text>)
    requires WellFormed(v)
    ensures text == Printer.CanonicalJson(v, strict) && (text.Some? ==> Paired(text.value))
  {
    PrintPaired(v);
    text := Printer.CanonicalJson(v, strict);
  }

  /** Two values have the same bytes exactly when they have the same text. */
  lemma SameBytesSameText(v: Json, w: Json, strict: bool)
    requires WellFormed(v) && WellFormed(w)
    ensures CanonicalBytes(v, strict) == CanonicalBytes(w, strict) <==>
            Printer.CanonicalJson(v, strict) == Printer.CanonicalJson(w, strict)
  {
    var t := PrintedPaired(v, strict);
    var u := PrintedPaired(w, strict);
    if t.Some? && u.Some? {
      Utf8Injective(t.value, u.value);
    }
  }

  /** As for texts: the same bytes exactly when equal up to key order, with non-finite numbers replaced by null. */
  lemma CanonicalBytesFaithful(v: Json, w: Json, strict: bool)
    requires WellFormed(v) && WellFormed(w)
    requires CanonicalBytes(v, strict).Some? && CanonicalBytes(w, strict).Some?
    ensures CanonicalBytes(v, strict) == CanonicalBytes(w, strict) <==> Same(Nulled(v), Nulled(w))
    ensures Supported(v, true) && Supported(w, true) ==>
              (CanonicalBytes(v, strict) == CanonicalBytes(w, strict) <==> Same(v, w))
  {
    SameBytesSameText(v, w, strict);
    CanonicalJsonFaithful(v, w, strict);
  }

  /** Two projections are hashed from the same bytes if and only if they agree on everything but key order. */
  lemma PreimageBytesFaithful(p: Projection, q: Projection)
    requires OfferOk(p.offer) && OfferOk(q.offer) && Preimage(p).Some? && Preimage(q).Some?
    ensures Utf8(Preimage(p).value) == Utf8(Preimage(q).value) <==>
            && p.offer.canonicalVersion == q.offer.canonicalVersion && SameOffer(p.offer, q.offer)
            && p.tenantId == q.tenantId && p.domainId == q.domainId && p.platformPath == q.platformPath
  {
    PreimageWellFormed(p);
    PreimageWellFormed(q);
    SameBytesSameText(PreimageJson(p), PreimageJson(q), true);
    PreimageFaithful(p, q);
  }
}
