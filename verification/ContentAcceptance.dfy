/** Exactly which requests the registry accepts, said of the members of the request and its content. */
module ContentAcceptance {
  import opened Common
  import opened Unicode
  import opened CanonicalJson
  import opened JsonReader
  import opened JsonRoundTrip
  import opened JsonIdentity
  import opened JsonDictionaries
  import opened ArtifactContents
  import opened StoredContent

  /** The approved types, and under which name each identifies its artifacts. */
  predicate Identifies(artifactType: Text, name: Text) {
    || (artifactType == Ascii("delivery_art_architecture_packet") && name == Ascii("artifact_id"))
    || (artifactType == Ascii("delivery_art_work_start_record") && name == Ascii("artifact_id"))
    || (artifactType == Ascii("art_review_packet") && name == Ascii("packet_id"))
  }

  /** The custody block of the content: absent, or nothing but a reference to what is superseded. */
  predicate CustodyIs(custody: Option<Json>, supersedes: Option<ArtifactRef>) {
    match supersedes
    case None => custody.None?
    case Some(ref) =>
      && custody.Some? && Normalize(custody.value) == Normalize(Object([Field(SUPERSEDES, RefObject(ref))]))
      && IsRegistryUri(ref.uri) && IsDigest(ref.digest)
  }

  /**
   Canonical content within the size limit, of the stated digest, of an approved type with identifiers of
   their patterns, whose integrity block is the prescribed one and whose custody block names at most a
   superseded artifact. A new architecture packet must also be of the current schema.
   */
  ghost predicate Approved(rules: Rules, p: Prepared, requireCurrent: bool) {
    && p.content.Object?
    && var fields := p.content.fields;
    && CanonicalBytes(p.content) == Ok(p.bytes) && |p.bytes| <= MAX_CONTENT_BYTES
    && p.digest == rules.hash(p.bytes) && IsDigest(p.digest)
    && Lookup(fields, Ascii("artifact_type")) == Some(String(p.artifactType))
    && (exists name :: Identifies(p.artifactType, name) && Lookup(fields, name) == Some(String(p.artifactId)))
    && rules.idMatches(p.artifactType, p.artifactId)
    && Lookup(fields, Ascii("delivery_id")) == Some(String(p.deliveryId)) && rules.deliveryMatches(p.deliveryId)
    && (requireCurrent && p.artifactType == Ascii("delivery_art_architecture_packet") ==> rules.current(p.content))
    && NormalizeOption(Lookup(fields, INTEGRITY)) == Some(Normalize(Object(INTEGRITY_FIELDS)))
    && CustodyIs(Lookup(fields, CUSTODY), p.supersedes)
  }

  lemma IdentifiesExactly(artifactType: Text, name: Text)
    ensures IdentityField(artifactType) == Some(name) <==> Identifies(artifactType, name)
  {
    assert |Ascii("art_review_packet")| == 17 && |Ascii("delivery_art_work_start_record")| == 30;
    assert |Ascii("delivery_art_architecture_packet")| == 32;
  }

  lemma PlacedIsClean(ref: ArtifactRef)
    requires NoSurrogates(ref.uri) && NoSurrogates(ref.digest)
    ensures Clean(Object([Field(SUPERSEDES, RefObject(ref))])) && Shaped(Object([Field(SUPERSEDES, RefObject(ref))]))
  {
    KeysDiffer();
    RefIsDictionary(ref);
    var inner := RefObject(ref);
    assert Clean(inner) && Shaped(inner);
  }

  lemma PlacedIsRead(ref: ArtifactRef)
    requires IsRegistryUri(ref.uri) && IsDigest(ref.digest)
    ensures ContentSupersedes(Some(Object([Field(SUPERSEDES, RefObject(ref))]))) == Ok(Some(ref))
  {
    HexIsClean(ref.uri);
    HexIsClean(ref.digest);
    RefIsDictionary(ref);
    var fields := [Field(SUPERSEDES, RefObject(ref))];
    assert fields[0] in fields && Keys(fields) == {SUPERSEDES};
  }

  /** A block that just names a reference is read as that reference. */
  lemma NamedIsRead(custody: Json, ref: ArtifactRef)
    requires Clean(custody) && Shaped(custody) && IsRegistryUri(ref.uri) && IsDigest(ref.digest)
    requires Normalize(custody) == Normalize(Object([Field(SUPERSEDES, RefObject(ref))]))
    ensures ContentSupersedes(Some(custody)) == Ok(Some(ref))
  {
    HexIsClean(ref.uri);
    HexIsClean(ref.digest);
    var placed := Object([Field(SUPERSEDES, RefObject(ref))]);
    PlacedIsClean(ref);
    PlacedIsRead(ref);
    SupersedesOfNormal(Some(custody));
    SupersedesOfNormal(Some(placed));
  }

  lemma CustodyIsChecked(fields: seq<Field>, supersedes: Option<ArtifactRef>)
    requires Dictionary(fields) && CustodyIs(Lookup(fields, CUSTODY), supersedes)
    requires NormalizeOption(Lookup(fields, INTEGRITY)) == Some(Normalize(Object(INTEGRITY_FIELDS)))
    ensures ContentSupersedes(Lookup(fields, CUSTODY)) == Ok(supersedes)
    ensures Equal(Object(Projection(fields)), Object(fields))
  {
    DictionaryMember(fields, INTEGRITY);
    IntegrityHasNoDigest(Lookup(fields, INTEGRITY).value);
    if supersedes.Some? {
      DictionaryMember(fields, CUSTODY);
      NamedIsRead(Lookup(fields, CUSTODY).value, supersedes.value);
      HexIsClean(supersedes.value.uri);
      HexIsClean(supersedes.value.digest);
    }
    ProjectionFixes(fields, supersedes);
  }

  lemma IdentityIs(p: Prepared, fields: seq<Field>)
    requires exists name :: Identifies(p.artifactType, name) && Lookup(fields, name) == Some(String(p.artifactId))
    ensures IdentityField(p.artifactType).Some?
    ensures StringOf(Lookup(fields, IdentityField(p.artifactType).value)) == Some(p.artifactId)
  {
    var name :| Identifies(p.artifactType, name) && Lookup(fields, name) == Some(String(p.artifactId));
    IdentifiesExactly(p.artifactType, name);
  }

  /** What the check itself looks at. */
  predicate PassesCheck(rules: Rules, p: Prepared, requireCurrent: bool)
    requires p.content.Object?
  {
    var fields := p.content.fields;
    && StringOf(Lookup(fields, ARTIFACT_TYPE)) == Some(p.artifactType)
    && IdentityField(p.artifactType).Some?
    && StringOf(Lookup(fields, IdentityField(p.artifactType).value)) == Some(p.artifactId)
    && StringOf(Lookup(fields, DELIVERY_ID)) == Some(p.deliveryId)
    && (requireCurrent && p.artifactType == ARCHITECTURE_PACKET ==> rules.current(p.content))
    && ContentSupersedes(Lookup(fields, CUSTODY)) == Ok(p.supersedes)
    && Equal(Object(Projection(fields)), p.content)
  }

  lemma ApprovedPasses(rules: Rules, p: Prepared, requireCurrent: bool)
    requires Shaped(p.content) && Approved(rules, p, requireCurrent)
    ensures PassesCheck(rules, p, requireCurrent)
  {
    ErrorFreeIsClean(p.content, []);
    ObjectIsDictionary(p.content);
    IdentityIs(p, p.content.fields);
    CustodyIsChecked(p.content.fields, p.supersedes);
  }

  lemma ApprovedIsChecked(rules: Rules, p: Prepared, requireCurrent: bool)
    requires Shaped(p.content) && Approved(rules, p, requireCurrent)
    ensures CheckContent(rules, p.content, p.digest, requireCurrent) == Ok(p)
  {
    ApprovedPasses(rules, p, requireCurrent);
  }

  lemma CheckedIsApproved(rules: Rules, content: Json, digest: Text, requireCurrent: bool)
    requires Shaped(content) && CheckContent(rules, content, digest, requireCurrent).Ok?
    ensures var p := CheckContent(rules, content, digest, requireCurrent).value;
            p.content == content && p.digest == digest && Approved(rules, p, requireCurrent)
  {
    var p := CheckContent(rules, content, digest, requireCurrent).value;
    AcceptedIsPlaced(rules, content, digest, requireCurrent);
    var name := IdentityField(p.artifactType).value;
    IdentifiesExactly(p.artifactType, name);
    assert Identifies(p.artifactType, name) && Lookup(content.fields, name) == Some(String(p.artifactId));
  }

  /** Content passes its check exactly when it is approved, and with just these findings. */
  lemma ChecksExactly(rules: Rules, content: Json, digest: Text, requireCurrent: bool, p: Prepared)
    requires Shaped(content)
    ensures CheckContent(rules, content, digest, requireCurrent) == Ok(p) <==>
            p.content == content && p.digest == digest && Approved(rules, p, requireCurrent)
    ensures CheckContent(rules, content, digest, requireCurrent).Err? ==>
              CheckContent(rules, content, digest, requireCurrent) == Err(Contract)
  {
    if CheckContent(rules, content, digest, requireCurrent) == Ok(p) {
      CheckedIsApproved(rules, content, digest, requireCurrent);
    }
    if p.content == content && p.digest == digest && Approved(rules, p, requireCurrent) {
      ApprovedIsChecked(rules, p, requireCurrent);
    }
  }

  /** The request is a JSON object of just the content and its digest, within the size limit. */
  ghost predicate Asks(raw: seq<Byte>, p: Prepared) {
    && |raw| <= MAX_REQUEST_BYTES
    && exists request :: StrictJsonLoads(raw) == Ok(Object(request))
                         && Keys(request) == {Ascii("artifact_content"), Ascii("content_digest")}
                         && Lookup(request, Ascii("artifact_content")) == Some(p.content)
                         && Lookup(request, Ascii("content_digest")) == Some(String(p.digest))
  }

  lemma RequestedIsShaped(raw: seq<Byte>, request: seq<Field>, key: Text)
    requires StrictJsonLoads(raw) == Ok(Object(request)) && Lookup(request, key).Some?
    ensures Shaped(Lookup(request, key).value)
  {
    ErrorFreeIsClean(Object(request), []);
    ObjectIsDictionary(Object(request));
    DictionaryMember(request, key);
  }

  /**
   A request is accepted with these findings exactly when it asks for approved content under its own digest;
   any other request is refused as a contract error.
   */
  lemma RequestsExactly(rules: Rules, raw: seq<Byte>, requireCurrent: bool, p: Prepared)
    ensures PrepareRegistration(rules, raw, requireCurrent) == Ok(p) <==>
            Asks(raw, p) && Approved(rules, p, requireCurrent)
    ensures PrepareRegistration(rules, raw, requireCurrent).Err? ==>
              PrepareRegistration(rules, raw, requireCurrent) == Err(Contract)
  {
    if StrictJsonLoads(raw).Ok? && StrictJsonLoads(raw).value.Object? {
      var request := StrictJsonLoads(raw).value.fields;
      var content, digest := Lookup(request, ARTIFACT_CONTENT), Lookup(request, CONTENT_DIGEST);
      assert StrictJsonLoads(raw) == Ok(Object(request));
      if content.Some? && digest.Some? && digest.value.String? {
        RequestedIsShaped(raw, request, ARTIFACT_CONTENT);
        ChecksExactly(rules, content.value, digest.value.text, requireCurrent, p);
      }
    }
  }
}
