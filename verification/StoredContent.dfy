/**
 What registration accepted, reading accepts again: the stored canonical bytes are read, printed
 inside a new request, read again and put through every content check.
 */
module StoredContent {
  import opened Common
  import opened Unicode
  import opened CanonicalJson
  import opened JsonReader
  import opened JsonRoundTrip
  import opened JsonIdentity
  import opened JsonDictionaries
  import opened ArtifactContents

  // ----- the envelope fits the request limit

  lemma {:induction false} EncodeAppend(s: Text, t: Text)
    ensures EncodeUtf8(s + t) == EncodeUtf8(s) + EncodeUtf8(t)
    decreases |s|
  {
    if s == [] {
      assert s + t == t;
    } else {
      EncodeAppend(s[1..], t);
      assert (s + t)[1..] == s[1..] + t;
    }
  }

  lemma {:induction false} EncodedLength(t: Text)
    ensures |EncodeUtf8(t)| <= 4 * |t|
    decreases |t|
  {
    if t != [] {
      EncodedLength(t[1..]);
    }
  }

  lemma {:induction false} EscapedLength(t: Text)
    ensures |Escape(t)| <= 6 * |t|
    decreases |t|
  {
    if t != [] {
      EscapedLength(t[1..]);
    }
  }

  lemma QuotedLength(t: Text)
    ensures |EncodeUtf8(Quote(t))| <= 8 + 24 * |t|
  {
    EscapedLength(t);
    EncodedLength(Quote(t));
  }

  lemma FieldLength(parent: Json, f: Field)
    requires f.value < parent && Clean(f.value)
    ensures |EncodeUtf8(FieldText(parent, f))| <= 12 + 24 * |f.key| + |EncodeUtf8(CanonicalText(f.value))|
  {
    QuotedLength(f.key);
    EncodeAppend(Quote(f.key), [58]);
    EncodeAppend(Quote(f.key) + [58], CanonicalText(f.value));
    EncodedLength([58]);
  }

  function Envelope(content: Json, digest: Text): Json {
    Object([Field(ARTIFACT_CONTENT, content), Field(CONTENT_DIGEST, String(digest))])
  }

  lemma SortPair(a: Field, b: Field)
    ensures SortFields([a, b]) == [a, b] || SortFields([a, b]) == [b, a]
  {
    assert [a, b][1..] == [b] && [b][1..] == [];
    assert SortFields([b]) == InsertField(b, SortFields([])) == [b];
    assert SortFields([a, b]) == InsertField(a, [b]);
    if KeyLess(b, a) {
      assert InsertField(a, [b]) == [b] + InsertField(a, []);
    }
  }

  lemma PairText(parent: Json, a: Field, b: Field)
    requires a.value < parent && b.value < parent && Clean(a.value) && Clean(b.value)
    ensures FieldsText(parent, [a, b]) == FieldText(parent, a) + [44] + FieldText(parent, b)
  {
    assert [a, b][1..] == [b];
  }

  lemma EnvelopeText(content: Json, digest: Text)
    requires Clean(content) && NoSurrogates(digest)
    ensures Clean(Envelope(content, digest))
    ensures var e := Envelope(content, digest);
            var a, b := FieldText(e, e.fields[0]), FieldText(e, e.fields[1]);
            CanonicalText(e) == [123] + (a + [44] + b) + [125] || CanonicalText(e) == [123] + (b + [44] + a) + [125]
  {
    KeysDiffer();
    var e := Envelope(content, digest);
    var a, b := e.fields[0], e.fields[1];
    assert e.fields == [a, b];
    SortPair(a, b);
    PairText(e, a, b);
    PairText(e, b, a);
  }

  lemma ThreePartLength(a: Text, b: Text)
    ensures |EncodeUtf8([123] + (a + [44] + b) + [125])| <= 12 + |EncodeUtf8(a)| + |EncodeUtf8(b)|
  {
    EncodeAppend(a, [44]);
    EncodeAppend(a + [44], b);
    EncodeAppend([123], a + [44] + b);
    EncodeAppend([123] + (a + [44] + b), [125]);
    EncodedLength([44]);
    EncodedLength([123]);
    EncodedLength([125]);
  }

  /** The request printed around accepted content stays within the request limit. */
  lemma EnvelopeFits(content: Json, digest: Text, bytes: seq<Byte>)
    requires Clean(content) && IsDigest(digest) && CanonicalBytes(content) == Ok(bytes)
    requires |bytes| <= MAX_CONTENT_BYTES
    ensures CanonicalBytes(Envelope(content, digest)).Ok?
    ensures |CanonicalBytes(Envelope(content, digest)).value| <= MAX_REQUEST_BYTES
  {
    HexIsClean(digest);
    var e := Envelope(content, digest);
    EnvelopeText(content, digest);
    ErrorFreeIsClean(content, []);
    ErrorFreeIsClean(e, []);
    FieldLength(e, e.fields[0]);
    FieldLength(e, e.fields[1]);
    QuotedLength(digest);
    ThreePartLength(FieldText(e, e.fields[0]), FieldText(e, e.fields[1]));
    ThreePartLength(FieldText(e, e.fields[1]), FieldText(e, e.fields[0]));
    assert |ARTIFACT_CONTENT| == 16 && |CONTENT_DIGEST| == 14;
  }

  // ----- checks do not see insertion order

  lemma SupersedesOfNormal(custody: Option<Json>)
    requires custody.Some? ==> Clean(custody.value) && Shaped(custody.value)
    ensures ContentSupersedes(NormalizeOption(custody)) == ContentSupersedes(custody)
  {
    if custody.Some? && custody.value.Object? {
      var fields := custody.value.fields;
      ObjectIsDictionary(custody.value);
      NormalObjectFields(custody.value);
      KeysOfNormal(fields);
      LookupNormal(fields, SUPERSEDES);
      var named := Lookup(fields, SUPERSEDES);
      if named.Some? && named.value.Object? {
        DictionaryMember(fields, SUPERSEDES);
        NamedOfNormal(named.value);
      }
    }
  }

  lemma NamedOfNormal(named: Json)
    requires named.Object? && Clean(named) && Shaped(named)
    ensures Normalize(named).Object? && Keys(Normalize(named).fields) == Keys(named.fields)
    ensures StringOf(Lookup(Normalize(named).fields, URI)) == StringOf(Lookup(named.fields, URI))
    ensures StringOf(Lookup(Normalize(named).fields, DIGEST)) == StringOf(Lookup(named.fields, DIGEST))
  {
    ObjectIsDictionary(named);
    NormalObjectFields(named);
    KeysOfNormal(named.fields);
    LookupNormal(named.fields, URI);
    LookupNormal(named.fields, DIGEST);
  }

  /** The sorted form of accepted content is accepted, with the same findings. */
  lemma AcceptsNormalForm(rules: Rules, content: Json, digest: Text, requireCurrent: bool)
    requires Shaped(content) && CheckContent(rules, content, digest, requireCurrent).Ok?
    ensures CheckContent(rules, Normalize(content), digest, false) ==
            Ok(CheckContent(rules, content, digest, requireCurrent).value.(content := Normalize(content)))
  {
    var p := CheckContent(rules, content, digest, requireCurrent).value;
    AcceptedIsPlaced(rules, content, digest, requireCurrent);
    NormalizeKeepsShape(content);
    NormalizeTwice(content);
    ErrorFreeIsClean(content, []);
    ErrorFreeIsClean(Normalize(content), []);
    OneFormIsSame(content, Normalize(content));
    BytesIdentifyValues(content, Normalize(content));
    var fields := content.fields;
    NormalObjectFields(content);
    NormalLookups(fields, IdentityField(p.artifactType).value);
    PlacedInNormalForm(fields, p.supersedes);
    if p.supersedes.Some? {
      HexIsClean(p.supersedes.value.uri);
      HexIsClean(p.supersedes.value.digest);
    }
    ObjectIsDictionary(Normalize(content));
    ProjectionFixes(Normalize(content).fields, p.supersedes);
    DictionaryMember(fields, INTEGRITY);
    NormalizeTwice(Lookup(fields, INTEGRITY).value);
  }

  lemma NormalLookups(fields: seq<Field>, identity: Text)
    requires Dictionary(fields)
    ensures var n := SortFields(NormalizeFields(fields));
            && StringOf(Lookup(n, ARTIFACT_TYPE)) == StringOf(Lookup(fields, ARTIFACT_TYPE))
            && StringOf(Lookup(n, DELIVERY_ID)) == StringOf(Lookup(fields, DELIVERY_ID))
            && StringOf(Lookup(n, identity)) == StringOf(Lookup(fields, identity))
            && Lookup(n, INTEGRITY) == NormalizeOption(Lookup(fields, INTEGRITY))
            && ContentSupersedes(Lookup(n, CUSTODY)) == ContentSupersedes(Lookup(fields, CUSTODY))
  {
    LookupNormal(fields, ARTIFACT_TYPE);
    LookupNormal(fields, DELIVERY_ID);
    LookupNormal(fields, identity);
    LookupNormal(fields, INTEGRITY);
    LookupNormal(fields, CUSTODY);
    if Lookup(fields, CUSTODY).Some? {
      DictionaryMember(fields, CUSTODY);
    }
    SupersedesOfNormal(Lookup(fields, CUSTODY));
  }

  // ----- main results

  /** A request that was accepted holds shaped content that passed the content checks. */
  lemma AcceptedRequest(rules: Rules, raw: seq<Byte>, requireCurrent: bool)
    requires PrepareRegistration(rules, raw, requireCurrent).Ok?
    ensures var p := PrepareRegistration(rules, raw, requireCurrent).value;
            Shaped(p.content) && CheckContent(rules, p.content, p.digest, requireCurrent) == Ok(p)
  {
    var request := StrictJsonLoads(raw).value;
    ErrorFreeIsClean(request, []);
    ObjectIsDictionary(request);
    DictionaryMember(request.fields, ARTIFACT_CONTENT);
  }

  lemma EnvelopeDictionary(content: Json, digest: Text)
    requires Clean(content) && Shaped(content) && NoSurrogates(digest)
    ensures var fields := Envelope(content, digest).fields;
            && Dictionary(fields) && Keys(fields) == {ARTIFACT_CONTENT, CONTENT_DIGEST}
            && Lookup(fields, ARTIFACT_CONTENT) == Some(content)
            && Lookup(fields, CONTENT_DIGEST) == Some(String(digest))
  {
    KeysDiffer();
    var fields := Envelope(content, digest).fields;
    assert fields[0] in fields && fields[1] in fields;
    assert forall f :: f in fields <==> f == fields[0] || f == fields[1];
    MemberLookup(fields, fields[0]);
    MemberLookup(fields, fields[1]);
  }

  lemma EnvelopeReads(rules: Rules, content: Json, digest: Text)
    requires Clean(content) && Shaped(content) && Normalize(content) == content && IsDigest(digest)
    requires CanonicalBytes(content).Ok? && |CanonicalBytes(content).value| <= MAX_CONTENT_BYTES
    ensures PrepareStored(rules, content, digest) == CheckContent(rules, content, digest, false)
  {
    HexIsClean(digest);
    var e := Envelope(content, digest);
    EnvelopeFits(content, digest, CanonicalBytes(content).value);
    EnvelopeDictionary(content, digest);
    ObjectIsDictionary(e);
    ErrorFreeIsClean(e, []);
    ReadAfterPrint(e);
    NormalObjectFields(e);
    KeysOfNormal(e.fields);
    LookupNormal(e.fields, ARTIFACT_CONTENT);
    LookupNormal(e.fields, CONTENT_DIGEST);
  }

  /**
   The bytes stored for an accepted request are read as canonical content, and that content passes
   the stored-content check with the type, identifiers and superseded reference found at registration.
   */
  lemma StoredContentReads(rules: Rules, raw: seq<Byte>, requireCurrent: bool)
    requires PrepareRegistration(rules, raw, requireCurrent).Ok?
    ensures var p := PrepareRegistration(rules, raw, requireCurrent).value;
            && StrictJsonLoads(p.bytes) == Ok(Normalize(p.content)) && Normalize(p.content).Object?
            && CanonicalBytes(Normalize(p.content)) == Ok(p.bytes)
            && PrepareStored(rules, Normalize(p.content), p.digest) == Ok(p.(content := Normalize(p.content)))
  {
    var p := PrepareRegistration(rules, raw, requireCurrent).value;
    AcceptedRequest(rules, raw, requireCurrent);
    ErrorFreeIsClean(p.content, []);
    ReadAfterPrint(p.content);
    NormalObjectFields(p.content);
    AcceptsNormalForm(rules, p.content, p.digest, requireCurrent);
    NormalizeKeepsShape(p.content);
    NormalizeTwice(p.content);
    EnvelopeReads(rules, Normalize(p.content), p.digest);
  }
}
