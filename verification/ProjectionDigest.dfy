/**
 * The preimage of the digest that binds a catalog projection to the canonical offer: two projections
 * have one preimage exactly when they say the same thing.
 */
module ProjectionDigest {
  import opened Wrappers
  import opened Printer = CanonicalJson
  import Decimal

  function Ascii(s: string): (t: Text)
    requires forall i :: 0 <= i < |s| ==> s[i] as int < 128
    ensures |t| == |s| && forall i :: 0 <= i < |s| ==> t[i] == s[i] as int
  {
    seq(|s|, i requires 0 <= i < |s| => s[i] as int)
  }

  const MAX_SAFE_INTEGER: int := 9007199254740991

  datatype Offer = Offer(
    offerId: Text, externalKey: Text, displayName: Text, attributes: seq<Field>, terms: seq<Field>,
    status: Text, canonicalVersion: int)

  datatype Projection = Projection(tenantId: Text, domainId: Text, platformPath: Text, offer: Offer)

  // ----- looking up a member -----

  function Lookup(fields: seq<Field>, key: Text): Option<Json> {
    if fields == [] then None
    else if fields[0].key == key then Some(fields[0].value)
    else Lookup(fields[1..], key)
  }

  ghost predicate DistinctKeys(fields: seq<Field>) {
    forall i, j :: 0 <= i < j < |fields| ==> fields[i].key != fields[j].key
  }

  lemma {:induction false} LookupFinds(fields: seq<Field>, key: Text)
    ensures Lookup(fields, key).Some? ==>
            exists i :: 0 <= i < |fields| && fields[i] == Field(key, Lookup(fields, key).value)
    ensures Lookup(fields, key).None? ==> forall i :: 0 <= i < |fields| ==> fields[i].key != key
  {
    if fields != [] && fields[0].key != key {
      LookupFinds(fields[1..], key);
      if Lookup(fields, key).Some? {
        var i :| 0 <= i < |fields[1..]| && fields[1..][i] == Field(key, Lookup(fields, key).value);
        assert fields[i + 1] == Field(key, Lookup(fields, key).value);
      } else {
        forall i | 0 <= i < |fields| ensures fields[i].key != key {
          assert i > 0 ==> fields[1..][i - 1] == fields[i];
        }
      }
    } else if fields != [] {
      assert fields[0] == Field(key, fields[0].value);
    }
  }

  /** Members of objects that are equal up to key order are looked up alike. */
  lemma SameLookup(fields: seq<Field>, others: seq<Field>, key: Text)
    requires DistinctKeys(fields) && DistinctKeys(others) && Same(Object(fields), Object(others))
    ensures Lookup(fields, key).Some? <==> Lookup(others, key).Some?
    ensures Lookup(fields, key).Some? ==> Same(Lookup(fields, key).value, Lookup(others, key).value)
  {
    var v, w := Object(fields), Object(others);
    LookupFinds(fields, key);
    LookupFinds(others, key);
    if Lookup(others, key).Some? {
      var k :| 0 <= k < |others| && others[k] == Field(key, Lookup(others, key).value);
      assert MatchedBack(v, w, k);
      var i :| 0 <= i < |fields| && SameField(v, fields[i], others[k]);
      assert fields[i].key == key;
    }
    if Lookup(fields, key).Some? {
      var i :| 0 <= i < |fields| && fields[i] == Field(key, Lookup(fields, key).value);
      assert Matched(v, w, i);
      var j :| 0 <= j < |others| && SameField(v, fields[i], others[j]);
      assert others[j].key == key;
      var k :| 0 <= k < |others| && others[k] == Field(key, Lookup(others, key).value);
      assert j == k;
    }
  }

  // ----- attachments -----

  const ATTACHMENTS: Text := Ascii("attachments")
  const ATTACHMENT_REF: Text := Ascii("attachment_ref")

  function AttachmentRef(v: Json): Option<Text> {
    if !v.Object? then None else
      var ref := Lookup(v.fields, ATTACHMENT_REF);
      if ref.Some? && ref.value.Str? then Some(ref.value.s) else None
  }

  function AttachmentRefs(items: seq<Json>): seq<Json> {
    if items == [] then [] else
      var ref := AttachmentRef(items[0]);
      (if ref.Some? then [Str(ref.value)] else []) + AttachmentRefs(items[1..])
  }

  function CatalogAttachments(attributes: seq<Field>): seq<Json> {
    var attachments := Lookup(attributes, ATTACHMENTS);
    if attachments.Some? && attachments.value.Array? then AttachmentRefs(attachments.value.items) else []
  }

  lemma SameRef(v: Json, w: Json)
    requires WellFormed(v) && WellFormed(w) && Same(v, w)
    ensures AttachmentRef(v) == AttachmentRef(w)
  {
    if v.Object? {
      SameLookup(v.fields, w.fields, ATTACHMENT_REF);
    }
  }

  lemma {:induction false} SameRefs(items: seq<Json>, others: seq<Json>)
    requires |items| == |others|
    requires forall i :: 0 <= i < |items| ==> WellFormed(items[i]) && WellFormed(others[i]) && Same(items[i], others[i])
    ensures AttachmentRefs(items) == AttachmentRefs(others)
  {
    if items != [] {
      SameRef(items[0], others[0]);
      SameRefs(items[1..], others[1..]);
    }
  }

  lemma LookupWellFormed(fields: seq<Field>, key: Text)
    requires WellFormed(Object(fields)) && Lookup(fields, key).Some?
    ensures WellFormed(Lookup(fields, key).value)
  {
    LookupFinds(fields, key);
  }

  /** The attachments are a function of the attributes up to key order. */
  lemma SameAttachments(fields: seq<Field>, others: seq<Field>)
    requires WellFormed(Object(fields)) && WellFormed(Object(others)) && Same(Object(fields), Object(others))
    ensures CatalogAttachments(fields) == CatalogAttachments(others)
  {
    SameLookup(fields, others, ATTACHMENTS);
    if Lookup(fields, ATTACHMENTS).Some? {
      LookupWellFormed(fields, ATTACHMENTS);
      LookupWellFormed(others, ATTACHMENTS);
      var v, w := Lookup(fields, ATTACHMENTS).value, Lookup(others, ATTACHMENTS).value;
      if v.Array? {
        SameRefs(v.items, w.items);
      }
    }
  }

  // ----- the preimage -----

  function ScopeJson(p: Projection): Json {
    Object([
      Field(Ascii("tenant_id"), Str(p.tenantId)),
      Field(Ascii("domain_id"), Str(p.domainId)),
      Field(Ascii("platform_path"), Str(p.platformPath))])
  }

  function OfferJson(o: Offer): Json {
    Object([
      Field(Ascii("offer_id"), Str(o.offerId)),
      Field(Ascii("external_key"), Str(o.externalKey)),
      Field(Ascii("display_name"), Str(o.displayName)),
      Field(Ascii("attributes"), Object(o.attributes)),
      Field(Ascii("terms"), Object(o.terms)),
      Field(Ascii("status"), Str(o.status)),
      Field(ATTACHMENTS, Array(CatalogAttachments(o.attributes)))])
  }

  function VersionText(n: nat): Text {
    Ascii(Decimal.ToText(n))
  }

  function PreimageJson(p: Projection): Json
    requires 1 <= p.offer.canonicalVersion
  {
    Object([
      Field(Ascii("canonical_version"), Number(Finite(VersionText(p.offer.canonicalVersion)))),
      Field(Ascii("scope"), ScopeJson(p)),
      Field(Ascii("offer"), OfferJson(p.offer))])
  }

  /** The text that is hashed; nothing when the version or a value is refused. */
  function Preimage(p: Projection): Option<Text> {
    if 1 <= p.offer.canonicalVersion <= MAX_SAFE_INTEGER then Printer.CanonicalJson(PreimageJson(p), true) else None
  }

  /** Objects with the same distinct keys in the same places are the same when their values are. */
  lemma SameRecord(fields: seq<Field>, others: seq<Field>)
    requires |fields| == |others| && DistinctKeys(fields)
    requires forall i :: 0 <= i < |fields| ==> fields[i].key == others[i].key
    ensures Same(Object(fields), Object(others)) <==>
            forall i :: 0 <= i < |fields| ==> Same(fields[i].value, others[i].value)
  {
    var v, w := Object(fields), Object(others);
    if Same(v, w) {
      forall i | 0 <= i < |fields| ensures Same(fields[i].value, others[i].value) {
        assert Matched(v, w, i);
        var j :| 0 <= j < |others| && SameField(v, fields[i], others[j]);
        assert fields[j].key == fields[i].key;
      }
    }
    if forall i :: 0 <= i < |fields| ==> Same(fields[i].value, others[i].value) {
      forall i | 0 <= i < |fields| ensures Matched(v, w, i) && MatchedBack(v, w, i) {
        assert SameField(v, fields[i], others[i]);
      }
    }
  }

  lemma RefsAreTexts(items: seq<Json>)
    ensures forall i :: 0 <= i < |AttachmentRefs(items)| ==> AttachmentRefs(items)[i].Str?
  {
  }

  lemma SameAttachmentTexts(fields: seq<Field>)
    ensures WellFormed(Array(CatalogAttachments(fields)))
    ensures Same(Array(CatalogAttachments(fields)), Array(CatalogAttachments(fields)))
  {
    var attachments := Lookup(fields, ATTACHMENTS);
    if attachments.Some? && attachments.value.Array? {
      RefsAreTexts(attachments.value.items);
    }
  }

  lemma VersionTextInjective(m: nat, n: nat)
    ensures VersionText(m) == VersionText(n) <==> m == n
    ensures NumberText(VersionText(m))
  {
    var s, t := Decimal.ToText(m), Decimal.ToText(n);
    if VersionText(m) == VersionText(n) {
      assert |s| == |t|;
      forall i | 0 <= i < |s| ensures s[i] == t[i] {
        assert VersionText(m)[i] == s[i] as int && VersionText(n)[i] == t[i] as int;
      }
      assert s == t;
      Decimal.TextValue(m);
      Decimal.TextValue(n);
    }
  }

  ghost predicate SameOffer(a: Offer, b: Offer) {
    && a.offerId == b.offerId && a.externalKey == b.externalKey && a.displayName == b.displayName
    && a.status == b.status
    && Same(Object(a.attributes), Object(b.attributes)) && Same(Object(a.terms), Object(b.terms))
  }

  ghost predicate OfferOk(o: Offer) {
    WellFormed(Object(o.attributes)) && WellFormed(Object(o.terms))
  }

  /** The members of an offer's JSON. */
  lemma OfferFields(o: Offer, w: Offer) returns (f: seq<Field>, g: seq<Field>)
    ensures OfferJson(o) == Object(f) && OfferJson(w) == Object(g) && |f| == |g| == 7
    ensures DistinctKeys(f) && forall i :: 0 <= i < 7 ==> f[i].key == g[i].key
    ensures f[0].value == Str(o.offerId) && f[1].value == Str(o.externalKey) && f[2].value == Str(o.displayName)
    ensures f[3].value == Object(o.attributes) && f[4].value == Object(o.terms) && f[5].value == Str(o.status)
    ensures f[6].value == Array(CatalogAttachments(o.attributes))
    ensures g[0].value == Str(w.offerId) && g[1].value == Str(w.externalKey) && g[2].value == Str(w.displayName)
    ensures g[3].value == Object(w.attributes) && g[4].value == Object(w.terms) && g[5].value == Str(w.status)
    ensures g[6].value == Array(CatalogAttachments(w.attributes))
  {
    f, g := OfferJson(o).fields, OfferJson(w).fields;
    assert f[1].key[0] != f[2].key[0];
  }

  ghost predicate SameValues(f: seq<Field>, g: seq<Field>)
    requires |f| == |g|
  {
    forall i :: 0 <= i < |f| ==> Same(f[i].value, g[i].value)
  }

  lemma SameSeven(f: seq<Field>, g: seq<Field>)
    requires |f| == |g| == 7
    ensures SameValues(f, g) <==>
            && Same(f[0].value, g[0].value) && Same(f[1].value, g[1].value) && Same(f[2].value, g[2].value)
            && Same(f[3].value, g[3].value) && Same(f[4].value, g[4].value) && Same(f[5].value, g[5].value)
            && Same(f[6].value, g[6].value)
  {
  }

  lemma SameThree(f: seq<Field>, g: seq<Field>)
    requires |f| == |g| == 3
    ensures SameValues(f, g) <==>
            Same(f[0].value, g[0].value) && Same(f[1].value, g[1].value) && Same(f[2].value, g[2].value)
  {
  }

  lemma SameNumber(s: Text, t: Text)
    ensures Same(Number(Finite(s)), Number(Finite(t))) <==> s == t
  {
  }

  lemma SameStr(s: Text, t: Text)
    ensures Same(Str(s), Str(t)) <==> s == t
  {
  }

  lemma SameOfferJson(a: Offer, b: Offer)
    requires OfferOk(a) && OfferOk(b)
    ensures Same(OfferJson(a), OfferJson(b)) <==> SameOffer(a, b)
  {
    var f, g := OfferFields(a, b);
    SameRecord(f, g);
    SameSeven(f, g);
    SameStr(a.offerId, b.offerId);
    SameStr(a.externalKey, b.externalKey);
    SameStr(a.displayName, b.displayName);
    SameStr(a.status, b.status);
    if SameOffer(a, b) {
      SameAttachments(a.attributes, b.attributes);
      SameAttachmentTexts(a.attributes);
    }
  }

  lemma SameScopeJson(p: Projection, q: Projection)
    ensures WellFormed(ScopeJson(p))
    ensures Same(ScopeJson(p), ScopeJson(q)) <==>
            p.tenantId == q.tenantId && p.domainId == q.domainId && p.platformPath == q.platformPath
  {
    var v, w := ScopeJson(p), ScopeJson(q);
    assert v.fields[0].key[0] != v.fields[1].key[0];
    SameRecord(v.fields, w.fields);
    if Same(v, w) {
      assert Same(v.fields[0].value, w.fields[0].value) && Same(v.fields[1].value, w.fields[1].value)
          && Same(v.fields[2].value, w.fields[2].value);
    }
  }

  lemma OfferJsonWellFormed(o: Offer)
    requires OfferOk(o)
    ensures WellFormed(OfferJson(o))
  {
    SameAttachmentTexts(o.attributes);
    var v := OfferJson(o);
    assert v.fields[1].key[0] != v.fields[2].key[0];
  }

  lemma PreimageWellFormed(p: Projection)
    requires 1 <= p.offer.canonicalVersion && OfferOk(p.offer)
    ensures WellFormed(PreimageJson(p))
  {
    VersionTextInjective(p.offer.canonicalVersion, p.offer.canonicalVersion);
    SameScopeJson(p, p);
    OfferJsonWellFormed(p.offer);
    var v := PreimageJson(p);
    assert v.fields[1].key[0] != v.fields[2].key[0];
  }

  lemma PreimageFields(p: Projection, q: Projection) returns (f: seq<Field>, g: seq<Field>)
    requires 1 <= p.offer.canonicalVersion && 1 <= q.offer.canonicalVersion
    ensures PreimageJson(p) == Object(f) && PreimageJson(q) == Object(g) && |f| == |g| == 3
    ensures DistinctKeys(f) && forall i :: 0 <= i < 3 ==> f[i].key == g[i].key
    ensures f[0].value == Number(Finite(VersionText(p.offer.canonicalVersion))) && f[1].value == ScopeJson(p)
            && f[2].value == OfferJson(p.offer)
    ensures g[0].value == Number(Finite(VersionText(q.offer.canonicalVersion))) && g[1].value == ScopeJson(q)
            && g[2].value == OfferJson(q.offer)
  {
    f, g := PreimageJson(p).fields, PreimageJson(q).fields;
    assert f[1].key[0] != f[2].key[0];
  }

  lemma SamePreimageJson(p: Projection, q: Projection)
    requires 1 <= p.offer.canonicalVersion && 1 <= q.offer.canonicalVersion && OfferOk(p.offer) && OfferOk(q.offer)
    ensures Same(PreimageJson(p), PreimageJson(q)) <==>
            && p.offer.canonicalVersion == q.offer.canonicalVersion && SameOffer(p.offer, q.offer)
            && p.tenantId == q.tenantId && p.domainId == q.domainId && p.platformPath == q.platformPath
  {
    var f, g := PreimageFields(p, q);
    SameRecord(f, g);
    VersionTextInjective(p.offer.canonicalVersion, q.offer.canonicalVersion);
    SameScopeJson(p, q);
    SameOfferJson(p.offer, q.offer);
    SameThree(f, g);
    SameNumber(VersionText(p.offer.canonicalVersion), VersionText(q.offer.canonicalVersion));
  }

  /** Two projections are hashed from one text if and only if they agree on everything but key order. */
  lemma PreimageFaithful(p: Projection, q: Projection)
    requires OfferOk(p.offer) && OfferOk(q.offer) && Preimage(p).Some? && Preimage(q).Some?
    ensures Preimage(p) == Preimage(q) <==>
            && p.offer.canonicalVersion == q.offer.canonicalVersion && SameOffer(p.offer, q.offer)
            && p.tenantId == q.tenantId && p.domainId == q.domainId && p.platformPath == q.platformPath
  {
    PreimageWellFormed(p);
    PreimageWellFormed(q);
    CanonicalJsonFaithful(PreimageJson(p), PreimageJson(q), true);
    SamePreimageJson(p, q);
  }

  // ----- what the preimage says -----

  lemma {:induction false} LookupAt(fields: seq<Field>, i: nat)
    requires DistinctKeys(fields) && i < |fields|
    ensures Lookup(fields, fields[i].key) == Some(fields[i].value)
  {
    if i > 0 {
      assert fields[0].key != fields[i].key;
      assert fields[1..][i - 1] == fields[i];
      LookupAt(fields[1..], i - 1);
    }
  }

  /** The scope's members by name. */
  lemma ScopeSays(p: Projection)
    ensures
      var scope := ScopeJson(p).fields;
      && |scope| == 3 && DistinctKeys(scope)
      && Lookup(scope, Ascii("tenant_id")) == Some(Str(p.tenantId))
      && Lookup(scope, Ascii("domain_id")) == Some(Str(p.domainId))
      && Lookup(scope, Ascii("platform_path")) == Some(Str(p.platformPath))
  {
    var scope := ScopeJson(p).fields;
    assert scope[0].key[0] != scope[1].key[0];
    LookupAt(scope, 0);
    LookupAt(scope, 1);
    LookupAt(scope, 2);
  }

  /** The offer's members by name. */
  lemma OfferSays(o: Offer)
    ensures
      var offer := OfferJson(o).fields;
      && |offer| == 7 && DistinctKeys(offer)
      && Lookup(offer, Ascii("offer_id")) == Some(Str(o.offerId))
      && Lookup(offer, Ascii("external_key")) == Some(Str(o.externalKey))
      && Lookup(offer, Ascii("display_name")) == Some(Str(o.displayName))
      && Lookup(offer, Ascii("attributes")) == Some(Object(o.attributes))
      && Lookup(offer, Ascii("terms")) == Some(Object(o.terms))
      && Lookup(offer, Ascii("status")) == Some(Str(o.status))
      && Lookup(offer, Ascii("attachments")) == Some(Array(CatalogAttachments(o.attributes)))
  {
    var offer, _ := OfferFields(o, o);
    LookupAt(offer, 0);
    LookupAt(offer, 1);
    LookupAt(offer, 2);
    LookupAt(offer, 3);
    LookupAt(offer, 4);
    LookupAt(offer, 5);
    LookupAt(offer, 6);
  }

  /** The preimage's members by name: the version as a decimal number, the scope and the offer. */
  lemma PreimageSays(p: Projection)
    requires 1 <= p.offer.canonicalVersion
    ensures
      var preimage := PreimageJson(p).fields;
      && |preimage| == 3 && DistinctKeys(preimage)
      && Lookup(preimage, Ascii("canonical_version")) ==
         Some(Number(Finite(Ascii(Decimal.ToText(p.offer.canonicalVersion)))))
      && Lookup(preimage, Ascii("scope")) == Some(ScopeJson(p))
      && Lookup(preimage, Ascii("offer")) == Some(OfferJson(p.offer))
  {
    var preimage, _ := PreimageFields(p, p);
    LookupAt(preimage, 0);
    LookupAt(preimage, 1);
    LookupAt(preimage, 2);
  }

  /** The attachments are the string references of the objects listed under `attachments`, in order. */
  lemma {:induction false} AttachmentsInOrder(items: seq<Json>, more: seq<Json>, v: Json)
    ensures AttachmentRefs(items + more) == AttachmentRefs(items) + AttachmentRefs(more)
    ensures AttachmentRefs([]) == []
    ensures AttachmentRefs([v]) ==
            if v.Object? && Lookup(v.fields, Ascii("attachment_ref")).Some?
               && Lookup(v.fields, Ascii("attachment_ref")).value.Str?
            then [Lookup(v.fields, Ascii("attachment_ref")).value] else []
    decreases |items|
  {
    assert [v][1..] == [];
    if items == [] {
      assert items + more == more;
    } else {
      AttachmentsInOrder(items[1..], more, v);
      assert (items + more)[1..] == items[1..] + more;
    }
  }

  lemma AttachmentsFrom(attributes: seq<Field>, items: seq<Json>)
    requires Lookup(attributes, Ascii("attachments")) == Some(Array(items))
    ensures CatalogAttachments(attributes) == AttachmentRefs(items)
  {
  }
}
