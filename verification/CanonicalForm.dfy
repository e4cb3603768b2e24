/**
 * The exact shape of canonical text, as section 3.2 of RFC 8785 has it for these values: literals,
 * commas and colons without white space, strings in their shortest spelling, and members in ascending
 * order of their keys' code units.
 */
module CanonicalForm {
  import opened Wrappers
  import opened Sorting
  import opened Printer = CanonicalJson
  import opened ProjectionDigest

  // ----- key order -----

  /** `s` comes first: the two agree up to `k`, where `s` ends or has the smaller unit. */
  predicate DiffersAt(s: Text, t: Text, k: nat) {
    k <= |s| && k < |t| && s[..k] == t[..k] && (k == |s| || s[k] < t[k])
  }

  lemma {:induction false} DifferenceOrders(s: Text, t: Text, k: nat)
    requires DiffersAt(s, t, k)
    ensures TextLess(s, t)
    decreases k
  {
    if k > 0 {
      assert s[0] == s[..k][0] == t[..k][0] == t[0];
      assert s[1..][..k - 1] == s[..k][1..] && t[1..][..k - 1] == t[..k][1..];
      DifferenceOrders(s[1..], t[1..], k - 1);
    }
  }

  lemma {:induction false} OrderDiffers(s: Text, t: Text) returns (k: nat)
    requires TextLess(s, t)
    ensures DiffersAt(s, t, k)
  {
    if s != [] && t != [] && s[0] == t[0] {
      var j := OrderDiffers(s[1..], t[1..]);
      k := j + 1;
      assert s[..k] == [s[0]] + s[1..][..j] && t[..k] == [t[0]] + t[1..][..j];
    } else {
      k := 0;
    }
  }

  /** Members are printed with strictly ascending keys, by the first code unit in which two keys differ. */
  lemma KeysAscend(v: Json, i: nat, j: nat)
    requires v.Object? && WellFormed(v) && i < j < |SortedFields(v.fields)|
    ensures exists k :: DiffersAt(SortedFields(v.fields)[i].key, SortedFields(v.fields)[j].key, k)
  {
    SortedKeys(v.fields);
    assert KeyLess(SortedFields(v.fields)[i], SortedFields(v.fields)[j]);
    var k := OrderDiffers(SortedFields(v.fields)[i].key, SortedFields(v.fields)[j].key);
  }

  // ----- lists -----

  /** Texts with a separator between each two. */
  function Joined(separator: Text, texts: seq<Text>): Text {
    if texts == [] then []
    else if |texts| == 1 then texts[0]
    else Joined(separator, texts[..|texts| - 1]) + separator + texts[|texts| - 1]
  }

  lemma Regroup(a: Text, b: Text, c: Text, d: Text, e: Text)
    ensures a + b + (c + d + e) == a + b + c + d + e
  {
  }

  lemma {:induction false} JoinedCons(separator: Text, texts: seq<Text>)
    requires |texts| > 1
    ensures Joined(separator, texts) == texts[0] + separator + Joined(separator, texts[1..])
  {
    var n := |texts| - 1;
    if n > 1 {
      JoinedCons(separator, texts[..n]);
      assert texts[..n][1..] == texts[1..][..n - 1];
      Regroup(texts[0], separator, Joined(separator, texts[1..][..n - 1]), separator, texts[n]);
    } else {
      assert texts[..1] == [texts[0]] && texts[1..] == [texts[1]];
    }
  }

  function ItemTexts(items: seq<Json>): seq<Text> {
    seq(|items|, i requires 0 <= i < |items| => Print(items[i]))
  }

  function MemberTexts(fields: seq<Field>): seq<Text> {
    seq(|fields|, i requires 0 <= i < |fields| => Quote(fields[i].key) + Ascii(":") + Print(fields[i].value))
  }

  lemma {:induction false} ItemsJoined(v: Json, items: seq<Json>)
    requires forall i :: 0 <= i < |items| ==> items[i] < v
    ensures PrintItems(v, items) == Joined(Ascii(","), ItemTexts(items))
    decreases |items|
  {
    assert Ascii(",") == [COMMA];
    if |items| > 1 {
      ItemsJoined(v, items[1..]);
      JoinedCons(Ascii(","), ItemTexts(items));
      assert ItemTexts(items)[1..] == ItemTexts(items[1..]);
    }
  }

  lemma MemberText(v: Json, fields: seq<Field>)
    requires fields != [] && forall f :: f in fields ==> f.value < v
    ensures fields[0] in fields && PrintMember(v, fields[0]) == MemberTexts(fields)[0]
    ensures MemberTexts(fields)[1..] == MemberTexts(fields[1..])
  {
    assert Ascii(":") == [COLON];
  }

  lemma {:induction false} MembersJoined(v: Json, fields: seq<Field>)
    requires forall f :: f in fields ==> f.value < v
    ensures PrintMembers(v, fields) == Joined(Ascii(","), MemberTexts(fields))
    decreases |fields|
  {
    if fields != [] {
      MemberText(v, fields);
      if |fields| > 1 {
        assert Ascii(",") == [COMMA];
        MembersJoined(v, fields[1..]);
        JoinedCons(Ascii(","), MemberTexts(fields));
      }
    }
  }

  /** What each kind of value prints as. */
  lemma PrintsAs(v: Json)
    requires WellFormed(v) && Supported(v, true)
    ensures v.Null? ==> Print(v) == Ascii("null")
    ensures v.Bool? ==> Print(v) == if v.b then Ascii("true") else Ascii("false")
    ensures v.Number? ==> Print(v) == v.n.text
    ensures v.Str? ==> Print(v) == Quote(v.s)
    ensures v.Array? ==> Print(v) == Ascii("[") + Joined(Ascii(","), ItemTexts(v.items)) + Ascii("]")
    ensures v.Object? ==>
              Print(v) == Ascii("{") + Joined(Ascii(","), MemberTexts(SortedFields(v.fields))) + Ascii("}")
    ensures v.Object? ==> multiset(SortedFields(v.fields)) == multiset(v.fields)
  {
    assert Ascii("null") == NULL_TEXT && Ascii("true") == TRUE_TEXT && Ascii("false") == FALSE_TEXT;
    match v
    case Array(items) =>
      assert Ascii("[") == [OPEN_ARRAY] && Ascii("]") == [CLOSE_ARRAY];
      ItemsJoined(v, items);
    case Object(fields) =>
      assert Ascii("{") == [OPEN_OBJECT] && Ascii("}") == [CLOSE_OBJECT];
      MembersJoined(v, SortedFields(fields));
      SortElements(KeyLess, fields);
    case _ =>
  }

  // ----- strings -----

  /** The seven units with a two-character escape. */
  lemma ShortSpelling(u: Unit)
    ensures u == 0x22 ==> EscapeUnit(u) == Ascii("\\\"")
    ensures u == 0x5C ==> EscapeUnit(u) == Ascii("\\\\")
    ensures u == 0x08 ==> EscapeUnit(u) == Ascii("\\b")
    ensures u == 0x09 ==> EscapeUnit(u) == Ascii("\\t")
    ensures u == 0x0A ==> EscapeUnit(u) == Ascii("\\n")
    ensures u == 0x0C ==> EscapeUnit(u) == Ascii("\\f")
    ensures u == 0x0D ==> EscapeUnit(u) == Ascii("\\r")
  {
  }

  /** Other control units and lone surrogates are four lower-case hex digits; every other unit stands for itself. */
  lemma LongSpelling(u: Unit)
    requires u !in {0x22, 0x5C, 0x08, 0x09, 0x0A, 0x0C, 0x0D}
    ensures u < 0x20 || 0xD800 <= u < 0xE000 ==>
              && |EscapeUnit(u)| == 6 && EscapeUnit(u)[..2] == Ascii("\\u")
              && FourHex(EscapeUnit(u)[2..]) == Some(u)
              && forall i :: 2 <= i < 6 ==> 0x30 <= EscapeUnit(u)[i] <= 0x39 || 0x61 <= EscapeUnit(u)[i] <= 0x66
    ensures !(u < 0x20 || 0xD800 <= u < 0xE000) ==> EscapeUnit(u) == [u]
  {
    if u < 0x20 || 0xD800 <= u < 0xE000 {
      HexRoundTrip(u, EscapeUnit(u)[2..]);
    }
  }

  predicate SplitsPair(s: Text, t: Text) {
    s != [] && t != [] && HighSurrogate(s[|s| - 1]) && LowSurrogate(t[0])
  }

  lemma SpelledAlone(u: Unit, l: Unit)
    ensures Escape([u]) == EscapeUnit(u)
    ensures HighSurrogate(u) && LowSurrogate(l) ==> Escape([u, l]) == [u, l]
  {
    assert [u][1..] == [];
    assert EscapeUnit(u) + [] == EscapeUnit(u);
    assert [u, l][2..] == [];
  }

  lemma Assoc(a: Text, b: Text, c: Text)
    ensures a + (b + c) == a + b + c
  {
  }

  /** Strings are spelled unit by unit, except that a surrogate pair stays as it is. */
  lemma {:induction false} SpelledInParts(s: Text, t: Text)
    requires !SplitsPair(s, t)
    ensures Escape(s + t) == Escape(s) + Escape(t)
    decreases |s|
  {
    var x := s + t;
    if s == [] {
      assert x == t;
    } else if |s| > 1 && HighSurrogate(s[0]) && LowSurrogate(s[1]) {
      SpelledInParts(s[2..], t);
      assert x[2..] == s[2..] + t && x[0] == s[0] && x[1] == s[1];
      Assoc([s[0], s[1]], Escape(s[2..]), Escape(t));
    } else {
      SpelledInParts(s[1..], t);
      assert x[1..] == s[1..] + t && x[0] == s[0];
      assert |x| > 1 ==> x[1] == if |s| > 1 then s[1] else t[0];
      Assoc(EscapeUnit(s[0]), Escape(s[1..]), Escape(t));
    }
  }

  lemma QuotedAs(s: Text)
    ensures Quote(s) == Ascii("\"") + Escape(s) + Ascii("\"")
  {
    assert Ascii("\"") == [QUOTE];
  }

  // ----- what the printers refuse -----

  /** Somewhere in the value is something JSON has no form for; `strict` counts non-finite numbers among them. */
  predicate Refused(v: Json, strict: bool) {
    match v
    case Unsupported => true
    case Number(n) => strict && n.NonFinite?
    case Array(items) => exists i :: 0 <= i < |items| && Refused(items[i], strict)
    case Object(fields) => exists i :: 0 <= i < |fields| && Refused(fields[i].value, strict)
    case _ => false
  }

  /** A printer throws exactly when the value holds something it refuses, at any depth. */
  lemma {:induction false} TakesExactly(v: Json, strict: bool)
    ensures Printer.CanonicalJson(v, strict).Some? <==> !Refused(v, strict)
  {
    match v
    case Array(items) =>
      forall i | 0 <= i < |items| ensures Supported(items[i], strict) <==> !Refused(items[i], strict) {
        TakesExactly(items[i], strict);
      }
    case Object(fields) =>
      forall i | 0 <= i < |fields| ensures Supported(fields[i].value, strict) <==> !Refused(fields[i].value, strict) {
        TakesExactly(fields[i].value, strict);
      }
    case _ =>
  }

  lemma RefusedIn(fields: seq<Field>, i: nat, strict: bool)
    requires i < |fields| && Refused(fields[i].value, strict)
    ensures Refused(Object(fields), strict)
  {
  }

  lemma AttachmentsTaken(fields: seq<Field>)
    ensures !Refused(Array(CatalogAttachments(fields)), true)
  {
    var attachments := Lookup(fields, ATTACHMENTS);
    if attachments.Some? && attachments.value.Array? {
      RefsAreTexts(attachments.value.items);
    }
  }

  lemma OfferRefused(o: Offer)
    ensures Refused(OfferJson(o), true) <==> Refused(Object(o.attributes), true) || Refused(Object(o.terms), true)
  {
    var f, _ := OfferFields(o, o);
    SameAttachmentTexts(o.attributes);
    if Refused(Object(o.attributes), true) {
      RefusedIn(f, 3, true);
    }
    if Refused(Object(o.terms), true) {
      RefusedIn(f, 4, true);
    }
    if Refused(OfferJson(o), true) {
      var i :| 0 <= i < |f| && Refused(f[i].value, true);
      assert i in {0, 1, 2, 3, 4, 5, 6};
      AttachmentsTaken(o.attributes);
    }
  }

  lemma ScopeTaken(p: Projection)
    ensures !Refused(ScopeJson(p), true)
  {
  }

  /** A projection is hashed exactly when its version is a positive safe integer, its attributes and terms are JSON. */
  lemma PreimageTaken(p: Projection)
    ensures Preimage(p).Some? <==>
            && 1 <= p.offer.canonicalVersion <= 9007199254740991
            && !Refused(Object(p.offer.attributes), true) && !Refused(Object(p.offer.terms), true)
  {
    if 1 <= p.offer.canonicalVersion {
      var f, _ := PreimageFields(p, p);
      OfferRefused(p.offer);
      TakesExactly(PreimageJson(p), true);
      if Refused(OfferJson(p.offer), true) {
        RefusedIn(f, 2, true);
      }
      if Refused(Object(f), true) {
        var i :| 0 <= i < |f| && Refused(f[i].value, true);
        assert i in {0, 1, 2};
        ScopeTaken(p);
      }
    }
  }
}
