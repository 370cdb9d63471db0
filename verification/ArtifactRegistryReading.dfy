/**
 What reading a registered artifact accepts, whatever the tables and the object store hold: every claim of
 the entry, its line, its receipt and its content, each checked against the others.
 */
module ArtifactRegistryReading {
  import opened Common
  import opened Unicode
  import opened CanonicalJson
  import opened JsonReader
  import opened JsonDictionaries
  import opened ArtifactContents
  import opened ArtifactRegistry

  /** A first generation has no predecessor; a later one follows the entry it names, stored before it. */
  predicate StandsInLine(db: Db, e: Entry) {
    match e.supersedes
    case None => e.generation == 1
    case Some(ref) =>
      && e.generation != 1 && ref.digest in db.entries
      && var prior := db.entries[ref.digest];
      && prior.uri == ref.uri && prior.subject == e.subject && prior.generation == e.generation - 1
      && prior.persistedAt < e.persistedAt && prior.digest in db.receipts
  }

  function PriorReceipt(db: Db, e: Entry): Option<ArtifactRef>
    requires StandsInLine(db, e)
  {
    match e.supersedes
    case None => None
    case Some(ref) =>
      var row := db.receipts[db.entries[ref.digest].digest];
      Some(ArtifactRef(row.uri, row.digest))
  }

  /** The receipt's own digest and names, and what it attests of entry, service, storage, times and line. */
  predicate Attested(v: Service, db: Db, e: Entry, row: ReceiptRow)
    requires StandsInLine(db, e)
  {
    var body := row.receipt.body;
    && |e.digest| >= 7 && |row.digest| >= 7
    && row.digest == row.receipt.digest == v.receiptHash(body)
    && row.id == body.receiptId == Ascii("artifact-custody-receipt:") + v.receiptToken(e.digest)
    && row.uri == row.receipt.uri
    && row.uri == Ascii("wgcf://receipts/artifact-custody/") + v.receiptToken(e.digest) + Ascii("-") + row.digest[7..]
                  + Ascii(".json")
    && body.subject == e.subject && body.contentDigest == e.digest && body.registryUri == e.uri
    && e.uri == RegistryUri(e.digest)
    && body.identity == v.identity
    && e.objectKey == Ascii("delivery-art/sha256/") + e.digest[7..] + Ascii(".json")
    && body.storageRef == e.storageRef == v.storageRef(v.identity, e.objectKey, e.version, e.digest)
    && row.persistedAt == row.receipt.persistedAt && body.storedAt < row.persistedAt < e.persistedAt
    && body.supersedes == PriorReceipt(db, e)
  }

  /** The bound object version is the canonical text of approved content with the entry's digest and subject. */
  ghost predicate Held(v: Service, objects: Objects, e: Entry, content: seq<Field>, p: Prepared) {
    var at := ObjectVersion(e.objectKey, e.version);
    && at in objects.versions && v.rules.hash(objects.versions[at]) == e.digest
    && StrictJsonLoads(objects.versions[at]) == Ok(Object(content))
    && CanonicalBytes(Object(content)) == Ok(objects.versions[at])
    && PrepareStored(v.rules, Object(content), e.digest) == Ok(p)
    && p.deliveryId == e.subject.deliveryId && p.artifactType == e.subject.artifactType
    && p.artifactId == e.subject.artifactId
  }

  /** What is read: the content with its custody, which must still project to the registered digest. */
  ghost predicate Restored(v: Service, e: Entry, row: ReceiptRow, content: seq<Field>, p: Prepared, r: Registered) {
    var custody :=
      Custody(e.uri, ArtifactRef(row.receipt.uri, row.receipt.digest), v.timeText(e.persistedAt), p.supersedes);
    var projected := CanonicalBytes(Object(Projection(r.artifact)));
    && r == Registered(Rebuild(content, e.digest, custody), row.receipt, e.generation)
    && projected.Ok? && v.rules.hash(projected.value) == e.digest
  }

  ghost predicate Reads(v: Service, db: Db, objects: Objects, digest: Text, r: Registered) {
    && digest in db.entries && digest in db.receipts && StandsInLine(db, db.entries[digest])
    && Attested(v, db, db.entries[digest], db.receipts[digest])
    && exists content, p :: Held(v, objects, db.entries[digest], content, p)
                            && Restored(v, db.entries[digest], db.receipts[digest], content, p, r)
  }

  lemma LineExactly(db: Db, e: Entry)
    ensures Lineage(db, e) == if StandsInLine(db, e) then Ok(PriorReceipt(db, e)) else Err(Integrity)
  {
  }

  lemma AttestedExactly(v: Service, db: Db, e: Entry, row: ReceiptRow)
    requires StandsInLine(db, e)
    ensures Attested(v, db, e, row) <==>
            |e.digest| >= 7 && |row.digest| >= 7 && ReceiptHolds(v, e, row, PriorReceipt(db, e))
  {
  }

  lemma HeldExactly(v: Service, objects: Objects, e: Entry, content: seq<Field>, p: Prepared)
    ensures Held(v, objects, e, content, p) ==> StoredContentOf(v, objects, e) == Ok(p.(content := Object(content)))
  {
  }

  lemma HeldByStored(v: Service, objects: Objects, e: Entry) returns (content: seq<Field>, p: Prepared)
    requires StoredContentOf(v, objects, e).Ok?
    ensures Held(v, objects, e, content, p)
    ensures StoredContentOf(v, objects, e) == Ok(p.(content := Object(content)))
  {
    var value := StrictJsonLoads(objects.versions[ObjectVersion(e.objectKey, e.version)]).value;
    content, p := value.fields, PrepareStored(v.rules, value, e.digest).value;
  }

  lemma RestoredExactly(v: Service, e: Entry, row: ReceiptRow, content: seq<Field>, p: Prepared, r: Registered)
    ensures Durable(v, e, row.receipt, content, p.supersedes) == Ok(r) <==> Restored(v, e, row, content, p, r)
  {
  }

  lemma ReadIs(v: Service, db: Db, objects: Objects, digest: Text)
    requires digest in db.entries && digest in db.receipts && StandsInLine(db, db.entries[digest])
    requires Attested(v, db, db.entries[digest], db.receipts[digest])
    requires StoredContentOf(v, objects, db.entries[digest]).Ok?
             && StoredContentOf(v, objects, db.entries[digest]).value.content.Object?
    ensures var stored := StoredContentOf(v, objects, db.entries[digest]).value;
            Materialize(v, db, objects, digest) ==
            Durable(v, db.entries[digest], db.receipts[digest].receipt, stored.content.fields, stored.supersedes)
  {
    LineExactly(db, db.entries[digest]);
    AttestedExactly(v, db, db.entries[digest], db.receipts[digest]);
  }

  lemma ReadIsSound(v: Service, db: Db, objects: Objects, digest: Text)
    requires Materialize(v, db, objects, digest).Ok?
    ensures Reads(v, db, objects, digest, Materialize(v, db, objects, digest).value)
  {
    var e, row := db.entries[digest], db.receipts[digest];
    LineExactly(db, e);
    AttestedExactly(v, db, e, row);
    var content, p := HeldByStored(v, objects, e);
    ReadIs(v, db, objects, digest);
    RestoredExactly(v, e, row, content, p, Materialize(v, db, objects, digest).value);
  }

  lemma ReadIsComplete(v: Service, db: Db, objects: Objects, digest: Text, r: Registered)
    requires Reads(v, db, objects, digest, r)
    ensures Materialize(v, db, objects, digest) == Ok(r)
  {
    var e, row := db.entries[digest], db.receipts[digest];
    var content, p :| Held(v, objects, e, content, p) && Restored(v, e, row, content, p, r);
    HeldExactly(v, objects, e, content, p);
    ReadIs(v, db, objects, digest);
    RestoredExactly(v, e, row, content, p, r);
  }

  lemma RefusalIs(v: Service, db: Db, objects: Objects, digest: Text)
    ensures Materialize(v, db, objects, digest).Err? ==>
              Materialize(v, db, objects, digest).error ==
              if digest !in db.entries then NotFound else if digest !in db.receipts then Unavailable else Integrity
  {
    if digest in db.entries {
      LineExactly(db, db.entries[digest]);
    }
  }

  /**
   Whatever the tables and the store hold, a digest reads as `r` exactly when entry, line, receipt and content
   agree on it. An unknown digest is not found, one without a receipt unavailable, and any other
   disagreement is an integrity error.
   */
  lemma ReadsExactly(v: Service, db: Db, objects: Objects, digest: Text, r: Registered)
    ensures Materialize(v, db, objects, digest) == Ok(r) <==> Reads(v, db, objects, digest, r)
    ensures Materialize(v, db, objects, digest).Err? ==>
              Materialize(v, db, objects, digest).error ==
              if digest !in db.entries then NotFound else if digest !in db.receipts then Unavailable else Integrity
  {
    RefusalIs(v, db, objects, digest);
    if Materialize(v, db, objects, digest).Ok? {
      ReadIsSound(v, db, objects, digest);
    }
    if Reads(v, db, objects, digest, r) {
      ReadIsComplete(v, db, objects, digest, r);
    }
  }

  /** A stored entry answers a request again only for the same delivery, type, identifier and predecessor. */
  lemma ReusesExactly(v: Service, db: Db, objects: Objects, p: Prepared, r: Registered)
    requires p.digest in db.entries
    ensures var e := db.entries[p.digest];
            var same := e.subject.deliveryId == p.deliveryId && e.subject.artifactType == p.artifactType
                        && e.subject.artifactId == p.artifactId && e.supersedes == p.supersedes;
            && (Reuse(v, db, objects, p) == Ok(r) <==> same && Reads(v, db, objects, p.digest, r))
            && (!same ==> Reuse(v, db, objects, p) == Err(Conflict))
  {
    ReadsExactly(v, db, objects, p.digest, r);
  }
}
