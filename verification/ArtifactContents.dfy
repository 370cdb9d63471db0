/**
 What the registry checks about artifact content, the content-digest projection, and the durable
 artifact rebuilt from stored content.

 The hash and the identifier patterns are parameters; nothing is assumed of the hash but the shape
 of its text.
 */
module ArtifactContents {
  import opened Common
  import opened Unicode
  import opened CanonicalJson
  import opened JsonReader
  import opened JsonRoundTrip
  import opened JsonIdentity
  import opened JsonDictionaries

  datatype Error = Contract | Conflict | NotFound | Unavailable | Integrity

  /** What the deployment supplies: hash, identifier patterns, and the schema posture of new packets. */
  datatype Rules = Rules(hash: seq<Byte> -> Text, idMatches: (Text, Text) -> bool, deliveryMatches: Text -> bool,
                         current: Json -> bool)

  const MAX_CONTENT_BYTES := 1_048_576
  const MAX_REQUEST_BYTES := MAX_CONTENT_BYTES + 8_192

  const ARTIFACT_CONTENT := Ascii("artifact_content")
  const CONTENT_DIGEST := Ascii("content_digest")
  const ARTIFACT_TYPE := Ascii("artifact_type")
  const DELIVERY_ID := Ascii("delivery_id")
  const INTEGRITY := Ascii("integrity")
  const CUSTODY := Ascii("custody")
  const SUPERSEDES := Ascii("supersedes")
  const URI := Ascii("uri")
  const DIGEST := Ascii("digest")
  const ARCHITECTURE_PACKET := Ascii("delivery_art_architecture_packet")
  const INTEGRITY_FIELDS :=
    [Field(Ascii("canonicalization"), String(Ascii("RFC8785"))), Field(Ascii("algorithm"), String(Ascii("sha256")))]
  const SHA256 := Ascii("sha256:")
  const REGISTRY := Ascii("wgcf://artifacts/delivery-art/sha256/")

  predicate IsHex(t: Text) {
    forall c :: c in t ==> 48 <= c <= 57 || 97 <= c <= 102
  }

  predicate IsDigest(t: Text) {
    |t| == 71 && SHA256 <= t && IsHex(t[7..])
  }

  predicate IsRegistryUri(t: Text) {
    |t| == |REGISTRY| + 64 && REGISTRY <= t && IsHex(t[|REGISTRY|..])
  }

  function RegistryUri(digest: Text): Text
    requires |digest| >= 7
  {
    REGISTRY + digest[7..]
  }

  ghost predicate ValidRules(rules: Rules) {
    forall bytes :: IsDigest(rules.hash(bytes))
  }

  /** The field that identifies an artifact, for the approved types. */
  function IdentityField(artifactType: Text): Option<Text> {
    if artifactType == ARCHITECTURE_PACKET || artifactType == Ascii("delivery_art_work_start_record")
    then Some(Ascii("artifact_id"))
    else if artifactType == Ascii("art_review_packet") then Some(Ascii("packet_id"))
    else None
  }

  datatype ArtifactRef = ArtifactRef(uri: Text, digest: Text)

  datatype Prepared = Prepared(content: Json, artifactId: Text, artifactType: Text, bytes: seq<Byte>, digest: Text,
                               deliveryId: Text, supersedes: Option<ArtifactRef>)

  // ----- the projection

  function ObjectFields(v: Option<Json>): Option<seq<Field>> {
    if v.Some? && v.value.Object? then Some(v.value.fields) else None
  }

  function StringOf(v: Option<Json>): Option<Text> {
    if v.Some? && v.value.String? then Some(v.value.text) else None
  }

  /** What of the custody block belongs to the content. */
  function KeptCustody(custody: Option<Json>): Option<Json> {
    var fields := ObjectFields(custody);
    if fields.None? then None else
      var supersedes := Lookup(fields.value, SUPERSEDES);
      if ObjectFields(supersedes).Some? then Some(Object([Field(SUPERSEDES, supersedes.value)])) else None
  }

  /** The content-digest projection: generated custody fields and the digest itself are taken out. */
  function Projection(payload: seq<Field>): seq<Field> {
    var custody := KeptCustody(Lookup(payload, CUSTODY));
    var projection := Drop(payload, CUSTODY);
    var placed := if custody.Some? then Put(projection, CUSTODY, custody.value) else projection;
    var integrity := ObjectFields(Lookup(placed, INTEGRITY));
    if integrity.Some? then Put(placed, INTEGRITY, Object(Drop(integrity.value, CONTENT_DIGEST))) else placed
  }

  predicate Equal(v: Json, w: Json) {
    Normalize(v) == Normalize(w)
  }

  // ----- checking content

  /** The superseded artifact named by the content, or the refusal of its custody block. */
  function ContentSupersedes(custody: Option<Json>): Result<Option<ArtifactRef>, Error> {
    if custody.None? || custody.value.Null? then Ok(None) else
      var fields := ObjectFields(custody);
      if fields.None? || Keys(fields.value) != {SUPERSEDES} then Err(Contract) else
        var named := ObjectFields(Lookup(fields.value, SUPERSEDES));
        if named.None? || Keys(named.value) != {URI, DIGEST} then Err(Contract) else
          var uri, digest := StringOf(Lookup(named.value, URI)), StringOf(Lookup(named.value, DIGEST));
          if uri.None? || !IsRegistryUri(uri.value) || digest.None? || !IsDigest(digest.value) then Err(Contract)
          else Ok(Some(ArtifactRef(uri.value, digest.value)))
  }

  function CheckContent(rules: Rules, content: Json, digest: Text, requireCurrent: bool): Result<Prepared, Error> {
    if !content.Object? || !IsDigest(digest) then Err(Contract) else
      match CanonicalBytes(content)
      case Err(_) => Err(Contract)
      case Ok(bytes) =>
        var fields := content.fields;
        var artifactType := StringOf(Lookup(fields, ARTIFACT_TYPE));
        if |bytes| > MAX_CONTENT_BYTES || rules.hash(bytes) != digest then Err(Contract)
        else if artifactType.None? || IdentityField(artifactType.value).None? then Err(Contract)
        else if requireCurrent && artifactType.value == ARCHITECTURE_PACKET && !rules.current(content)
             then Err(Contract)
        else
          var artifactId := StringOf(Lookup(fields, IdentityField(artifactType.value).value));
          var deliveryId := StringOf(Lookup(fields, DELIVERY_ID));
          if artifactId.None? || !rules.idMatches(artifactType.value, artifactId.value) then Err(Contract)
          else if deliveryId.None? || !rules.deliveryMatches(deliveryId.value) then Err(Contract)
          else if NormalizeOption(Lookup(fields, INTEGRITY)) != Some(Normalize(Object(INTEGRITY_FIELDS)))
               then Err(Contract)
          else
            match ContentSupersedes(Lookup(fields, CUSTODY))
            case Err(e) => Err(e)
            case Ok(supersedes) =>
              if !Equal(Object(Projection(fields)), content) then Err(Contract)
              else Ok(Prepared(content, artifactId.value, artifactType.value, bytes, digest, deliveryId.value,
                               supersedes))
  }

  function PrepareRegistration(rules: Rules, raw: seq<Byte>, requireCurrent: bool): Result<Prepared, Error> {
    if |raw| > MAX_REQUEST_BYTES then Err(Contract) else
      match StrictJsonLoads(raw)
      case Err(_) => Err(Contract)
      case Ok(request) =>
        if !request.Object? || Keys(request.fields) != {ARTIFACT_CONTENT, CONTENT_DIGEST} then Err(Contract) else
          var content, digest :=
            Lookup(request.fields, ARTIFACT_CONTENT), StringOf(Lookup(request.fields, CONTENT_DIGEST));
          if content.None? || digest.None? then Err(Contract)
          else CheckContent(rules, content.value, digest.value, requireCurrent)
  }

  /** Stored content is checked again by printing a request around it; an old schema is not refused here. */
  function PrepareStored(rules: Rules, content: Json, digest: Text): Result<Prepared, Error> {
    match CanonicalBytes(Object([Field(ARTIFACT_CONTENT, content), Field(CONTENT_DIGEST, String(digest))]))
    case Err(_) => Err(Contract)
    case Ok(envelope) => PrepareRegistration(rules, envelope, false)
  }

  // ----- the durable artifact

  datatype Custody = Custody(uri: Text, receipt: ArtifactRef, persistedAt: Text, supersedes: Option<ArtifactRef>)

  function RefObject(ref: ArtifactRef): Json {
    Object([Field(URI, String(ref.uri)), Field(DIGEST, String(ref.digest))])
  }

  function CustodyObject(c: Custody): Json {
    Object([Field(Ascii("state"), String(Ascii("durable"))),
            Field(Ascii("backend"), String(Ascii("wgcf-artifact-registry"))),
            Field(URI, String(c.uri)),
            Field(Ascii("receipt_ref"), RefObject(c.receipt)),
            Field(Ascii("persisted_at"), String(c.persistedAt)),
            Field(SUPERSEDES, if c.supersedes.Some? then RefObject(c.supersedes.value) else Null)])
  }

  function Rebuild(content: seq<Field>, digest: Text, custody: Custody): seq<Field> {
    var integrity := ObjectFields(Lookup(content, INTEGRITY));
    var bound := if integrity.Some?
                 then Put(content, INTEGRITY, Object(Put(integrity.value, CONTENT_DIGEST, String(digest))))
                 else content;
    Put(bound, CUSTODY, CustodyObject(custody))
  }

  // ----- what accepted content looks like

  /** Integrity without a digest, and a custody block that is absent or just names the superseded artifact. */
  predicate WellPlaced(fields: seq<Field>, supersedes: Option<ArtifactRef>) {
    && ObjectFields(Lookup(fields, INTEGRITY)).Some?
    && Lookup(ObjectFields(Lookup(fields, INTEGRITY)).value, CONTENT_DIGEST).None?
    && NormalizeOption(Lookup(fields, CUSTODY)) ==
       if supersedes.None? then None else Some(Normalize(Object([Field(SUPERSEDES, RefObject(supersedes.value))])))
  }

  lemma KeysDiffer()
    ensures CUSTODY != INTEGRITY
    ensures URI != DIGEST && SUPERSEDES != URI
    ensures Lookup(INTEGRITY_FIELDS, CONTENT_DIGEST).None? && Dictionary(INTEGRITY_FIELDS)
    ensures ARTIFACT_CONTENT != CONTENT_DIGEST
    ensures forall k :: k in {ARTIFACT_CONTENT, CONTENT_DIGEST, CUSTODY, INTEGRITY, SUPERSEDES, URI, DIGEST} ==>
              NoSurrogates(k)
  {
    assert |CUSTODY| == 7 && |INTEGRITY| == 9;
    assert |URI| == 3 && |DIGEST| == 6 && |SUPERSEDES| == 10;
    assert |ARTIFACT_CONTENT| == 16 && |CONTENT_DIGEST| == 14;
    assert |Ascii("canonicalization")| == 16 && |Ascii("algorithm")| == 9;
  }

  lemma DictionaryMember(fields: seq<Field>, key: Text)
    requires Dictionary(fields) && Lookup(fields, key).Some?
    ensures Clean(Lookup(fields, key).value) && Shaped(Lookup(fields, key).value)
  {
    LookupMember(fields, key);
  }

  /** An integrity block equal to the prescribed one holds no digest. */
  lemma IntegrityHasNoDigest(v: Json)
    requires Clean(v) && Shaped(v) && Normalize(v) == Normalize(Object(INTEGRITY_FIELDS))
    ensures v.Object? && Lookup(v.fields, CONTENT_DIGEST).None?
  {
    KeysDiffer();
    ObjectIsDictionary(v);
    LookupNormal(v.fields, CONTENT_DIGEST);
    LookupNormal(INTEGRITY_FIELDS, CONTENT_DIGEST);
    assert Normalize(v).fields == SortFields(NormalizeFields(v.fields));
    assert Normalize(Object(INTEGRITY_FIELDS)).fields == SortFields(NormalizeFields(INTEGRITY_FIELDS));
  }

  lemma RefIsDictionary(ref: ArtifactRef)
    requires NoSurrogates(ref.uri) && NoSurrogates(ref.digest)
    ensures Dictionary(RefObject(ref).fields)
    ensures Lookup(RefObject(ref).fields, URI) == Some(String(ref.uri))
            && Lookup(RefObject(ref).fields, DIGEST) == Some(String(ref.digest))
    ensures Keys(RefObject(ref).fields) == {URI, DIGEST}
  {
    KeysDiffer();
    var fields := RefObject(ref).fields;
    assert fields[0].key == URI && fields[1].key == DIGEST;
    assert fields[1..][0] == fields[1];
    assert forall f :: f in fields <==> f == fields[0] || f == fields[1];
    assert fields[0] in fields && fields[1] in fields;
  }

  lemma HexIsClean(t: Text)
    requires IsDigest(t) || IsRegistryUri(t)
    ensures NoSurrogates(t)
  {
    var prefix := if IsDigest(t) then SHA256 else REGISTRY;
    assert t == prefix + t[|prefix|..];
  }

  /** A dictionary with just the two reference keys is the reference it names. */
  lemma NamedRef(named: seq<Field>, ref: ArtifactRef)
    requires Dictionary(named) && Keys(named) == {URI, DIGEST}
    requires Lookup(named, URI) == Some(String(ref.uri)) && Lookup(named, DIGEST) == Some(String(ref.digest))
    requires NoSurrogates(ref.uri) && NoSurrogates(ref.digest)
    ensures Normalize(Object(named)) == Normalize(RefObject(ref))
  {
    RefIsDictionary(ref);
    forall key
      ensures NormalizeOption(Lookup(named, key)) == NormalizeOption(Lookup(RefObject(ref).fields, key))
    {
      LookupMember(named, key);
      LookupMember(RefObject(ref).fields, key);
    }
    SameByLookups(named, RefObject(ref).fields);
  }

  lemma SingleField(fields: seq<Field>, key: Text)
    requires UniqueKeys(fields) && Keys(fields) == {key}
    ensures |fields| == 1 && fields[0].key == key && Lookup(fields, key) == Some(fields[0].value)
  {
    KeyCount(fields);
    assert fields[0] in fields && fields[0].key in Keys(fields);
  }

  /** The custody block of accepted content is absent or names exactly the superseded artifact. */
  lemma CustodyPlaced(custody: Json, supersedes: Option<ArtifactRef>)
    requires Clean(custody) && Shaped(custody) && !custody.Null? && ContentSupersedes(Some(custody)) == Ok(supersedes)
    ensures supersedes.Some? && IsRegistryUri(supersedes.value.uri) && IsDigest(supersedes.value.digest)
    ensures Normalize(custody) == Normalize(Object([Field(SUPERSEDES, RefObject(supersedes.value))]))
  {
    SingleField(custody.fields, SUPERSEDES);
    var named := custody.fields[0].value;
    ObjectIsDictionary(named);
    HexIsClean(supersedes.value.uri);
    HexIsClean(supersedes.value.digest);
    NamedRef(named.fields, supersedes.value);
    NormalizeSingle(custody, SUPERSEDES, named);
    NormalizeSingle(Object([Field(SUPERSEDES, RefObject(supersedes.value))]), SUPERSEDES, RefObject(supersedes.value));
  }

  lemma NormalizeSingle(v: Json, key: Text, value: Json)
    requires v == Object([Field(key, value)])
    ensures Normalize(v) == Object([Field(key, Normalize(value))])
  {
    var n := NormalizeFields(v.fields);
    assert n == [Field(key, Normalize(value))];
    assert n[1..] == [] && SortFields(n[1..]) == [];
    assert SortFields(n) == n;
    assert Normalize(v) == Object(SortFields(n));
  }

  /** Equal dictionaries have the same keys. */
  lemma EqualKeys(a: seq<Field>, b: seq<Field>, key: Text)
    requires Dictionary(a) && Dictionary(b) && Normalize(Object(a)) == Normalize(Object(b))
    ensures NormalizeOption(Lookup(a, key)) == NormalizeOption(Lookup(b, key))
  {
    LookupNormal(a, key);
    LookupNormal(b, key);
  }

  lemma ProjectionDictionary(payload: seq<Field>)
    requires Dictionary(payload)
    ensures Dictionary(Projection(payload))
  {
    KeysDiffer();
    var custody := KeptCustody(Lookup(payload, CUSTODY));
    DropDictionary(payload, CUSTODY);
    var projection := Drop(payload, CUSTODY);
    var placed := if custody.Some? then Put(projection, CUSTODY, custody.value) else projection;
    if custody.Some? {
      DictionaryMember(payload, CUSTODY);
      var fields := Lookup(payload, CUSTODY).value.fields;
      ObjectIsDictionary(Lookup(payload, CUSTODY).value);
      DictionaryMember(fields, SUPERSEDES);
      PutDictionary(projection, CUSTODY, custody.value);
    }
    var integrity := ObjectFields(Lookup(placed, INTEGRITY));
    if integrity.Some? {
      DictionaryMember(placed, INTEGRITY);
      ObjectIsDictionary(Lookup(placed, INTEGRITY).value);
      DropDictionary(integrity.value, CONTENT_DIGEST);
      ObjectIsDictionary(Object(Drop(integrity.value, CONTENT_DIGEST)));
      PutDictionary(placed, INTEGRITY, Object(Drop(integrity.value, CONTENT_DIGEST)));
    }
  }

  /** What the projection holds under every key. */
  lemma LookupProjection(payload: seq<Field>, key: Text)
    requires Dictionary(payload)
    ensures Lookup(Projection(payload), key) ==
            if key == CUSTODY then KeptCustody(Lookup(payload, CUSTODY))
            else if key == INTEGRITY && ObjectFields(Lookup(payload, INTEGRITY)).Some? then
              Some(Object(Drop(ObjectFields(Lookup(payload, INTEGRITY)).value, CONTENT_DIGEST)))
            else Lookup(payload, key)
  {
    KeysDiffer();
    var custody := KeptCustody(Lookup(payload, CUSTODY));
    var projection := Drop(payload, CUSTODY);
    LookupDrop(payload, CUSTODY, key);
    LookupDrop(payload, CUSTODY, INTEGRITY);
    var placed := if custody.Some? then Put(projection, CUSTODY, custody.value) else projection;
    if custody.Some? {
      LookupPut(projection, CUSTODY, custody.value, key);
      LookupPut(projection, CUSTODY, custody.value, INTEGRITY);
    }
    var integrity := ObjectFields(Lookup(placed, INTEGRITY));
    if integrity.Some? {
      LookupPut(placed, INTEGRITY, Object(Drop(integrity.value, CONTENT_DIGEST)), key);
    }
  }

  /** Everything an acceptance implies about where digest and custody stand. */
  lemma AcceptedIsPlaced(rules: Rules, content: Json, digest: Text, requireCurrent: bool)
    requires CheckContent(rules, content, digest, requireCurrent).Ok? && Shaped(content)
    ensures Clean(content) && Dictionary(content.fields)
    ensures WellPlaced(content.fields, CheckContent(rules, content, digest, requireCurrent).value.supersedes)
    ensures var s := CheckContent(rules, content, digest, requireCurrent).value.supersedes;
            s.Some? ==> IsRegistryUri(s.value.uri) && IsDigest(s.value.digest)
  {
    var fields := content.fields;
    var supersedes := CheckContent(rules, content, digest, requireCurrent).value.supersedes;
    ErrorFreeIsClean(content, []);
    ObjectIsDictionary(content);
    DictionaryMember(fields, INTEGRITY);
    IntegrityHasNoDigest(Lookup(fields, INTEGRITY).value);
    var custody := Lookup(fields, CUSTODY);
    if custody.Some? {
      DictionaryMember(fields, CUSTODY);
      ProjectionDictionary(fields);
      EqualKeys(Projection(fields), fields, CUSTODY);
      LookupProjection(fields, CUSTODY);
      assert !custody.value.Null?;
      CustodyPlaced(custody.value, supersedes);
    }
  }

  lemma NormalObjectFields(v: Json)
    requires v.Object?
    ensures Normalize(v).Object? && Normalize(v).fields == SortFields(NormalizeFields(v.fields))
  {
    assert Normalize(v) == Object(SortFields(NormalizeFields(v.fields)));
  }

  lemma PlacedInNormalForm(fields: seq<Field>, supersedes: Option<ArtifactRef>)
    requires Dictionary(fields) && WellPlaced(fields, supersedes)
    ensures WellPlaced(SortFields(NormalizeFields(fields)), supersedes)
  {
    LookupNormal(fields, INTEGRITY);
    LookupNormal(fields, CUSTODY);
    DictionaryMember(fields, INTEGRITY);
    var integrity := Lookup(fields, INTEGRITY).value;
    ObjectIsDictionary(integrity);
    LookupNormal(integrity.fields, CONTENT_DIGEST);
    NormalObjectFields(integrity);
    var custody := Lookup(fields, CUSTODY);
    if custody.Some? {
      DictionaryMember(fields, CUSTODY);
      NormalizeTwice(custody.value);
    }
  }

  /** A custody block that is absent or just names the superseded artifact is kept as it is. */
  lemma KeptAsPlaced(custody: Option<Json>, supersedes: Option<ArtifactRef>)
    requires custody.Some? ==> Clean(custody.value) && Shaped(custody.value)
    requires supersedes.Some? ==> NoSurrogates(supersedes.value.uri) && NoSurrogates(supersedes.value.digest)
    requires NormalizeOption(custody) ==
             if supersedes.None? then None
             else Some(Normalize(Object([Field(SUPERSEDES, RefObject(supersedes.value))])))
    ensures NormalizeOption(KeptCustody(custody)) == NormalizeOption(custody)
  {
    if custody.Some? {
      var placed := Object([Field(SUPERSEDES, RefObject(supersedes.value))]);
      NormalizeSingle(placed, SUPERSEDES, RefObject(supersedes.value));
      NormalObjectFields(custody.value);
      var fields := custody.value.fields;
      assert |fields| == 1 by {
        SortFieldsMembers(NormalizeFields(fields));
      }
      assert NormalizeFields(fields) == [Field(fields[0].key, Normalize(fields[0].value))];
      assert custody.value == Object([Field(fields[0].key, fields[0].value)]);
      NormalizeSingle(custody.value, fields[0].key, fields[0].value);
      assert fields[0].key == SUPERSEDES && Normalize(fields[0].value) == Normalize(RefObject(supersedes.value));
      assert fields[0].value.Object?;
    }
  }

  /** Projecting well-placed content changes nothing. */
  lemma ProjectionFixes(fields: seq<Field>, supersedes: Option<ArtifactRef>)
    requires Dictionary(fields) && WellPlaced(fields, supersedes)
    requires supersedes.Some? ==> NoSurrogates(supersedes.value.uri) && NoSurrogates(supersedes.value.digest)
    ensures Equal(Object(Projection(fields)), Object(fields))
  {
    var integrity := Lookup(fields, INTEGRITY).value.fields;
    if Lookup(fields, CUSTODY).Some? {
      DictionaryMember(fields, CUSTODY);
    }
    KeptAsPlaced(Lookup(fields, CUSTODY), supersedes);
    DropMissing(integrity, CONTENT_DIGEST);
    ProjectionDictionary(fields);
    forall key
      ensures NormalizeOption(Lookup(Projection(fields), key)) == NormalizeOption(Lookup(fields, key))
    {
      LookupProjection(fields, key);
    }
    SameByLookups(Projection(fields), fields);
  }

  lemma {:induction false} DropMissing(fields: seq<Field>, key: Text)
    requires Lookup(fields, key).None?
    ensures Drop(fields, key) == fields
    decreases |fields|
  {
    if fields != [] {
      DropMissing(fields[1..], key);
      assert fields == [fields[0]] + fields[1..];
    }
  }

  /** The generated fields of a custody block, all of them clean text. */
  predicate CleanCustody(c: Custody) {
    && NoSurrogates(c.uri) && NoSurrogates(c.receipt.uri) && NoSurrogates(c.receipt.digest)
    && NoSurrogates(c.persistedAt)
    && (c.supersedes.Some? ==> NoSurrogates(c.supersedes.value.uri) && NoSurrogates(c.supersedes.value.digest))
  }

  lemma CustodyKeys(c: Custody)
    ensures UniqueKeys(CustodyObject(c).fields)
    ensures Lookup(CustodyObject(c).fields, SUPERSEDES) ==
            Some(if c.supersedes.Some? then RefObject(c.supersedes.value) else Null)
  {
    var fields := CustodyObject(c).fields;
    assert |fields[0].key| == 5 && |fields[1].key| == 7 && |fields[2].key| == 3;
    assert |fields[3].key| == 11 && |fields[4].key| == 12 && |fields[5].key| == 10;
    MemberLookup(fields, fields[5]);
  }

  lemma RefIsClean(ref: ArtifactRef)
    requires NoSurrogates(ref.uri) && NoSurrogates(ref.digest)
    ensures Clean(RefObject(ref)) && Shaped(RefObject(ref))
  {
    RefIsDictionary(ref);
    ObjectIsDictionary(RefObject(ref));
  }

  lemma CustodyIsClean(c: Custody)
    requires CleanCustody(c)
    ensures Clean(CustodyObject(c)) && Shaped(CustodyObject(c))
  {
    CustodyKeys(c);
    RefIsClean(c.receipt);
    var fields := CustodyObject(c).fields;
    if c.supersedes.Some? {
      RefIsClean(c.supersedes.value);
    }
    assert fields == [fields[0], fields[1], fields[2], fields[3], fields[4], fields[5]];
    forall i | 0 <= i < |fields|
      ensures NoSurrogates(fields[i].key) && Clean(fields[i].value) && Shaped(fields[i].value)
    {
    }
  }

  lemma RebuildDictionary(content: seq<Field>, digest: Text, custody: Custody)
    requires Dictionary(content) && IsDigest(digest) && CleanCustody(custody)
    ensures Dictionary(Rebuild(content, digest, custody))
  {
    KeysDiffer();
    HexIsClean(digest);
    CustodyIsClean(custody);
    var integrity := ObjectFields(Lookup(content, INTEGRITY));
    if integrity.Some? {
      DictionaryMember(content, INTEGRITY);
      ObjectIsDictionary(Lookup(content, INTEGRITY).value);
      PutDictionary(integrity.value, CONTENT_DIGEST, String(digest));
      var bound := Object(Put(integrity.value, CONTENT_DIGEST, String(digest)));
      ObjectIsDictionary(bound);
      PutDictionary(content, INTEGRITY, bound);
      PutDictionary(Put(content, INTEGRITY, bound), CUSTODY, CustodyObject(custody));
    } else {
      PutDictionary(content, CUSTODY, CustodyObject(custody));
    }
  }

  lemma LookupRebuilt(content: seq<Field>, digest: Text, custody: Custody, key: Text)
    requires ObjectFields(Lookup(content, INTEGRITY)).Some?
    ensures Lookup(Rebuild(content, digest, custody), key) ==
            if key == CUSTODY then Some(CustodyObject(custody))
            else if key == INTEGRITY
                 then Some(Object(Put(Lookup(content, INTEGRITY).value.fields, CONTENT_DIGEST, String(digest))))
            else Lookup(content, key)
  {
    KeysDiffer();
    var bound := Object(Put(Lookup(content, INTEGRITY).value.fields, CONTENT_DIGEST, String(digest)));
    LookupPut(content, INTEGRITY, bound, key);
    LookupPut(Put(content, INTEGRITY, bound), CUSTODY, CustodyObject(custody), key);
  }

  /** The projection of the rebuilt durable artifact is exactly the content it was rebuilt from. */
  lemma ProjectionOfRebuilt(content: seq<Field>, digest: Text, custody: Custody)
    requires Dictionary(content) && WellPlaced(content, custody.supersedes) && IsDigest(digest) && CleanCustody(custody)
    ensures Equal(Object(Projection(Rebuild(content, digest, custody))), Object(content))
    ensures CanonicalBytes(Object(Projection(Rebuild(content, digest, custody)))) == CanonicalBytes(Object(content))
  {
    var rebuilt := Rebuild(content, digest, custody);
    RebuildDictionary(content, digest, custody);
    ProjectionDictionary(rebuilt);
    LookupRebuilt(content, digest, custody, CUSTODY);
    CustodyKeys(custody);
    DropAfterPut(Lookup(content, INTEGRITY).value.fields, CONTENT_DIGEST, String(digest));
    forall key
      ensures NormalizeOption(Lookup(Projection(rebuilt), key)) == NormalizeOption(Lookup(content, key))
    {
      LookupRebuilt(content, digest, custody, key);
      LookupRebuilt(content, digest, custody, INTEGRITY);
      LookupProjection(rebuilt, key);
    }
    SameByLookups(Projection(rebuilt), content);
    PrintsAlike(Projection(rebuilt), content);
  }

  lemma PrintsAlike(a: seq<Field>, b: seq<Field>)
    requires Dictionary(a) && Dictionary(b) && Normalize(Object(a)) == Normalize(Object(b))
    ensures CanonicalBytes(Object(a)) == CanonicalBytes(Object(b))
  {
    ObjectIsDictionary(Object(a));
    ObjectIsDictionary(Object(b));
    ErrorFreeIsClean(Object(a), []);
    ErrorFreeIsClean(Object(b), []);
    OneFormIsSame(Object(a), Object(b));
    BytesIdentifyValues(Object(a), Object(b));
  }
}
