/**
 What every interleaving of registrations keeps.

 `world` is any set of byte strings that holds the canonical bytes of the requests of a run; the
 hash need only be free of collisions on it.
 */
module ArtifactRegistryRuns {
  import opened Common
  import opened Unicode
  import opened CanonicalJson
  import opened JsonReader
  import opened JsonRoundTrip
  import opened JsonIdentity
  import opened JsonDictionaries
  import opened ArtifactContents
  import opened StoredContent
  import opened ArtifactRegistry

  ghost predicate CollisionFree(v: Service, world: set<seq<Byte>>) {
    forall a, b :: a in world && b in world && v.rules.hash(a) == v.rules.hash(b) ==> a == b
  }

  /** The canonical bytes of every acceptable request of the run lie in `world`. */
  ghost predicate Within(v: Service, world: set<seq<Byte>>, events: seq<Event>) {
    forall i :: 0 <= i < |events| && events[i].Arrive? && Request(v, events[i].raw).Ok? ==>
      Request(v, events[i].raw).value.bytes in world
  }

  // ----- growth

  ghost predicate Extends<K, V>(m: map<K, V>, n: map<K, V>) {
    forall k :: k in m ==> k in n && n[k] == m[k]
  }

  /** Rows and object versions are only ever added. */
  ghost predicate Grows(s: System, t: System) {
    Extends(s.db.entries, t.db.entries) && Extends(s.db.receipts, t.db.receipts)
    && Extends(s.objects.versions, t.objects.versions)
  }

  predicate Quiet(s: System, t: System) {
    s.db == t.db && s.objects == t.objects
  }

  lemma PutObjectGrows(s: System, pid: Pid, p: Prepared, head: Option<Entry>, version: Text)
    requires pid in s.calls && |p.digest| >= 7
    ensures Grows(s, PutObjectStep(s, pid, p, head, version))
  {
  }

  lemma CommitInsertGrows(v: Service, s: System, pid: Pid, p: Prepared, phase: Phase)
    requires pid in s.calls && phase.Inserting? && |p.digest| >= 7 && ValidService(v)
    ensures Grows(s, CommitInsertStep(v, s, pid, p, phase))
  {
  }

  lemma OtherStepsAreQuiet(v: Service, s: System, e: Event, p: Prepared)
    requires ValidService(v) && e.pid in s.calls && |p.digest| >= 7 && !e.PutObject? && !e.CommitInsert?
    ensures Quiet(s, NextState(v, s, e, p))
  {
  }

  lemma NextStateGrows(v: Service, s: System, e: Event, p: Prepared)
    requires ValidService(v) && e.pid in s.calls && |p.digest| >= 7
    ensures Grows(s, NextState(v, s, e, p))
  {
    var phase := s.calls[e.pid].phase;
    if e.PutObject? {
      if phase.ObjectAbsent? { PutObjectGrows(s, e.pid, p, phase.head, e.version); }
    } else if e.CommitInsert? {
      if phase.Inserting? { CommitInsertGrows(v, s, e.pid, p, phase); }
    } else {
      OtherStepsAreQuiet(v, s, e, p);
    }
  }

  lemma StepGrows(v: Service, s: System, e: Event)
    requires ValidService(v)
    ensures Grows(s, Take(v, s, e))
  {
    if !e.Arrive? && At(v, s, e.pid) {
      DigestOfRequest(v, s.calls[e.pid].raw);
      NextStateGrows(v, s, e, Request(v, s.calls[e.pid].raw).value);
    }
  }

  // ----- the invariant

  function PriorRef(db: Db, e: Entry): Option<ArtifactRef> {
    if e.supersedes.Some? && e.supersedes.value.digest in db.receipts
    then Some(RefOfRow(db.receipts[e.supersedes.value.digest])) else None
  }

  /** The superseded entry is the previous generation of the subject, older than everything of this one. */
  predicate LineOk(db: Db, e: Entry, storedAt: int) {
    && (e.generation == 1 <==> e.supersedes.None?)
    && (e.supersedes.Some? ==>
          var ref := e.supersedes.value;
          && ref.digest in db.entries && ref.digest in db.receipts && db.entries[ref.digest].uri == ref.uri
          && db.entries[ref.digest].digest == ref.digest
          && db.entries[ref.digest].subject == e.subject && db.entries[ref.digest].generation + 1 == e.generation
          && db.entries[ref.digest].persistedAt < storedAt)
  }

  predicate EntryOk(v: Service, db: Db, d: Text)
    requires d in db.entries
  {
    var e := db.entries[d];
    && IsDigest(d) && e.digest == d && e.generation >= 1 && d in db.receipts
    && IsDigest(db.receipts[d].digest)
    && LineOk(db, e, db.receipts[d].receipt.body.storedAt)
    && ReceiptHolds(v, e, db.receipts[d], PriorRef(db, e))
  }

  ghost predicate DbOk(v: Service, db: Db) {
    && (forall d :: d in db.entries ==> EntryOk(v, db, d))
    && (forall d :: d in db.receipts ==> d in db.entries)
    && UniqueGenerations(db.entries)
  }

  predicate ObjectOk(v: Service, world: set<seq<Byte>>, key: Text, bytes: seq<Byte>) {
    bytes in world && IsDigest(v.rules.hash(bytes)) && key == ObjectKey(v.rules.hash(bytes))
  }

  ghost predicate ObjectsOk(v: Service, world: set<seq<Byte>>, objects: Objects)
    requires ValidService(v)
  {
    && (forall at :: at in objects.versions ==> ObjectOk(v, world, at.key, objects.versions[at]))
    && (forall key :: key in objects.current ==> ObjectVersion(key, objects.current[key]) in objects.versions)
  }

  /** The accepted request an entry was made from, and its bytes in the store. */
  predicate Origin(v: Service, world: set<seq<Byte>>, objects: Objects, e: Entry, raw: seq<Byte>) {
    && Request(v, raw).Ok?
    && var p := Request(v, raw).value;
       && p.digest == e.digest && SubjectOf(p) == e.subject && p.supersedes == e.supersedes && p.bytes in world
       && Get(objects.versions, ObjectVersion(e.objectKey, e.version)) == Some(p.bytes)
  }

  ghost predicate Originated(v: Service, world: set<seq<Byte>>, s: System, d: Text)
    requires d in s.db.entries
  {
    exists raw :: Origin(v, world, s.objects, s.db.entries[d], raw)
  }

  predicate HeadFits(db: Db, p: Prepared, head: Option<Entry>) {
    && SupersessionHolds(p, head)
    && (head.Some? ==> Get(db.entries, head.value.digest) == Some(head.value))
  }

  predicate ObjectHeld(objects: Objects, p: Prepared, version: Text)
    requires |p.digest| >= 7
  {
    Get(objects.versions, ObjectVersion(ObjectKey(p.digest), version)) == Some(p.bytes)
  }

  predicate TimesFit(db: Db, p: Prepared, times: Timeline) {
    && times.receipt == times.storage + 1 && times.artifact == times.storage + 2
    && (p.supersedes.Some? ==>
          p.supersedes.value.digest in db.entries && db.entries[p.supersedes.value.digest].persistedAt < times.storage)
  }

  predicate LineFits(db: Db, p: Prepared, generation: int, prior: Option<ReceiptRow>) {
    if p.supersedes.None? then generation == 1 && prior.None? else
      var ref := p.supersedes.value;
      && ref.digest in db.entries && db.entries[ref.digest].digest == ref.digest
      && db.entries[ref.digest].uri == ref.uri
      && db.entries[ref.digest].subject == SubjectOf(p)
      && generation == db.entries[ref.digest].generation + 1 && generation > 1
      && ref.digest in db.receipts && prior == Some(db.receipts[ref.digest])
  }

  predicate PhaseOk(v: Service, s: System, p: Prepared, phase: Phase)
    requires |p.digest| >= 7
  {
    match phase
    case HeadRead(head) => HeadFits(s.db, p, head)
    case ObjectAbsent(head) => HeadFits(s.db, p, head)
    case Bound(head, version) => HeadFits(s.db, p, head) && ObjectHeld(s.objects, p, version)
    case Timed(times, version) => TimesFit(s.db, p, times) && ObjectHeld(s.objects, p, version)
    case Inserting(times, version, generation, prior) =>
      TimesFit(s.db, p, times) && ObjectHeld(s.objects, p, version) && LineFits(s.db, p, generation, prior)
    case Created => p.digest in s.db.entries
    case Done(result) => result.Ok? ==> Materialize(v, s.db, s.objects, p.digest) == result
    case _ => true
  }

  predicate CallOk(v: Service, world: set<seq<Byte>>, s: System, c: Call) {
    && Request(v, c.raw).Ok? && Request(v, c.raw).value.bytes in world && |Request(v, c.raw).value.digest| >= 7
    && PhaseOk(v, s, Request(v, c.raw).value, c.phase)
  }

  ghost predicate Sound(v: Service, world: set<seq<Byte>>, s: System)
    requires ValidService(v)
  {
    && DbOk(v, s.db) && ObjectsOk(v, world, s.objects)
    && (forall d :: d in s.db.entries ==> Originated(v, world, s, d))
    && (forall pid :: pid in s.calls ==> CallOk(v, world, s, s.calls[pid]))
  }

  // ----- reading succeeds and never changes

  lemma LineageOk(v: Service, db: Db, d: Text)
    requires d in db.entries && EntryOk(v, db, d)
    ensures Lineage(db, db.entries[d]) == Ok(PriorRef(db, db.entries[d]))
  {
  }

  lemma HashesBack(v: Service, raw: seq<Byte>, custody: Custody)
    requires ValidService(v) && Request(v, raw).Ok? && CleanCustody(custody)
             && custody.supersedes == Request(v, raw).value.supersedes
    ensures var p := Request(v, raw).value;
            && Normalize(p.content).Object?
            && var fields := Normalize(p.content).fields;
               && Equal(Object(Projection(Rebuild(fields, p.digest, custody))), Normalize(p.content))
               && CanonicalBytes(Object(Projection(Rebuild(fields, p.digest, custody)))) == Ok(p.bytes)
  {
    var p := Request(v, raw).value;
    StoredContentReads(v.rules, raw, true);
    AcceptedRequest(v.rules, raw, true);
    var n := Normalize(p.content);
    AcceptsNormalForm(v.rules, p.content, p.digest, true);
    ErrorFreeIsClean(p.content, []);
    NormalizeKeepsShape(p.content);
    AcceptedIsPlaced(v.rules, n, p.digest, false);
    ProjectionOfRebuilt(n.fields, p.digest, custody);
  }

  lemma SupersedesIsClean(v: Service, raw: seq<Byte>)
    requires Request(v, raw).Ok?
    ensures var s := Request(v, raw).value.supersedes;
            s.Some? ==> NoSurrogates(s.value.uri) && NoSurrogates(s.value.digest)
  {
    var p := Request(v, raw).value;
    AcceptedRequest(v.rules, raw, true);
    AcceptedIsPlaced(v.rules, p.content, p.digest, true);
    if p.supersedes.Some? {
      HexIsClean(p.supersedes.value.uri);
      HexIsClean(p.supersedes.value.digest);
    }
  }

  lemma UrisAreClean(v: Service, digest: Text, receiptDigest: Text)
    requires ValidService(v) && IsDigest(digest) && IsDigest(receiptDigest)
    ensures NoSurrogates(RegistryUri(digest)) && NoSurrogates(ReceiptUri(v, digest, receiptDigest))
            && NoSurrogates(receiptDigest)
  {
    HexIsClean(digest);
    HexIsClean(receiptDigest);
    assert NoSurrogates(v.receiptToken(digest));
    assert forall c :: c in digest[7..] ==> c in digest;
    assert forall c :: c in receiptDigest[7..] ==> c in receiptDigest;
  }

  lemma StoredContentHeld(v: Service, world: set<seq<Byte>>, objects: Objects, e: Entry, raw: seq<Byte>)
    requires Origin(v, world, objects, e, raw)
    ensures var p := Request(v, raw).value;
            StoredContentOf(v, objects, e) == Ok(p.(content := Normalize(p.content))) && Normalize(p.content).Object?
  {
    StoredContentReads(v.rules, raw, true);
    DigestOfRequest(v, raw);
  }

  lemma DurableHolds(v: Service, e: Entry, receipt: Receipt, raw: seq<Byte>)
    requires ValidService(v) && Request(v, raw).Ok? && Request(v, raw).value.digest == e.digest
    requires CleanCustody(CustodyOf(v, e, receipt, Request(v, raw).value.supersedes))
    ensures var p := Request(v, raw).value;
            && Normalize(p.content).Object?
            && var r := Durable(v, e, receipt, Normalize(p.content).fields, p.supersedes);
               && r.Ok? && r.value.generation == e.generation && r.value.receipt == receipt
               && Equal(Object(Projection(r.value.artifact)), Normalize(p.content))
  {
    HashesBack(v, raw, CustodyOf(v, e, receipt, Request(v, raw).value.supersedes));
    DigestOfRequest(v, raw);
  }

  lemma CustodyIsCleanOf(v: Service, e: Entry, row: ReceiptRow, raw: seq<Byte>)
    requires ValidService(v) && Request(v, raw).Ok? && IsDigest(e.digest) && IsDigest(row.digest)
    requires ReceiptHolds(v, e, row, row.receipt.body.supersedes)
    ensures CleanCustody(CustodyOf(v, e, row.receipt, Request(v, raw).value.supersedes))
  {
    UrisAreClean(v, e.digest, row.digest);
    SupersedesIsClean(v, raw);
    assert NoSurrogates(v.timeText(e.persistedAt));
  }

  /**
   Everything registration writes, reading accepts: the rows pass the lineage and receipt checks,
   the object bytes read as canonical approved content, and the rebuilt durable artifact projects
   onto exactly that content.
   */
  lemma EntryReads(v: Service, world: set<seq<Byte>>, s: System, d: Text)
    requires ValidService(v) && Sound(v, world, s) && d in s.db.entries
    ensures var r, e := Materialize(v, s.db, s.objects, d), s.db.entries[d];
            var stored := StoredContentOf(v, s.objects, s.db.entries[d]);
            && r.Ok? && r.value.generation == e.generation && r.value.receipt == s.db.receipts[d].receipt
            && stored.Ok? && Equal(Object(Projection(r.value.artifact)), stored.value.content)
  {
    assert EntryOk(v, s.db, d);
    assert Originated(v, world, s, d);
    var raw :| Origin(v, world, s.objects, s.db.entries[d], raw);
    ReadsFromOrigin(v, world, s.db, s.objects, d, raw);
  }

  lemma ReadsFromOrigin(v: Service, world: set<seq<Byte>>, db: Db, objects: Objects, d: Text, raw: seq<Byte>)
    requires ValidService(v) && d in db.entries && EntryOk(v, db, d) && Origin(v, world, objects, db.entries[d], raw)
    ensures var r, e := Materialize(v, db, objects, d), db.entries[d];
            var stored := StoredContentOf(v, objects, db.entries[d]);
            && r.Ok? && r.value.generation == e.generation && r.value.receipt == db.receipts[d].receipt
            && stored.Ok? && Equal(Object(Projection(r.value.artifact)), stored.value.content)
  {
    var e, row := db.entries[d], db.receipts[d];
    LineageOk(v, db, d);
    StoredContentHeld(v, world, objects, e, raw);
    CustodyIsCleanOf(v, e, row, raw);
    DurableHolds(v, e, row.receipt, raw);
    NormalizeTwiceOf(v, raw);
    MaterializeIs(v, db, objects, d, PriorRef(db, e), StoredContentOf(v, objects, e).value);
  }

  lemma MaterializeIs(v: Service, db: Db, objects: Objects, d: Text, supersedes: Option<ArtifactRef>, p: Prepared)
    requires d in db.entries && d in db.receipts && |db.entries[d].digest| >= 7 && |db.receipts[d].digest| >= 7
    requires Lineage(db, db.entries[d]) == Ok(supersedes) && StoredContentOf(v, objects, db.entries[d]) == Ok(p)
             && p.content.Object?
    requires ReceiptHolds(v, db.entries[d], db.receipts[d], supersedes)
    ensures Materialize(v, db, objects, d) ==
            Durable(v, db.entries[d], db.receipts[d].receipt, p.content.fields, p.supersedes)
  {
  }

  lemma NormalizeTwiceOf(v: Service, raw: seq<Byte>)
    requires Request(v, raw).Ok?
    ensures Normalize(Normalize(Request(v, raw).value.content)) == Normalize(Request(v, raw).value.content)
  {
    AcceptedRequest(v.rules, raw, true);
    ErrorFreeIsClean(Request(v, raw).value.content, []);
    NormalizeTwice(Request(v, raw).value.content);
  }

  lemma StoredContentStays(v: Service, a: Objects, b: Objects, e: Entry)
    requires Extends(a.versions, b.versions) && StoredContentOf(v, a, e).Ok?
    ensures StoredContentOf(v, b, e) == StoredContentOf(v, a, e)
  {
    assert b.versions[ObjectVersion(e.objectKey, e.version)] == a.versions[ObjectVersion(e.objectKey, e.version)];
  }

  lemma LineageStays(a: Db, b: Db, e: Entry)
    requires Extends(a.entries, b.entries) && Extends(a.receipts, b.receipts) && Lineage(a, e).Ok?
    ensures Lineage(b, e) == Lineage(a, e)
  {
  }

  /** A successful read gives the same artifact, receipt and generation in every later state. */
  lemma ReadsNeverChange(v: Service, s: System, t: System, d: Text)
    requires Grows(s, t) && Materialize(v, s.db, s.objects, d).Ok?
    ensures Materialize(v, t.db, t.objects, d) == Materialize(v, s.db, s.objects, d)
  {
    var e := s.db.entries[d];
    assert t.db.entries[d] == e && t.db.receipts[d] == s.db.receipts[d];
    LineageStays(s.db, t.db, e);
    StoredContentStays(v, s.objects, t.objects, e);
    var p := StoredContentOf(v, s.objects, e).value;
    MaterializeIs(v, s.db, s.objects, d, Lineage(s.db, e).value, p);
    MaterializeIs(v, t.db, t.objects, d, Lineage(s.db, e).value, p);
  }

  /** Requests with the same canonical bytes are the same registration. */
  lemma SameBytesSameRegistration(v: Service, raw: seq<Byte>, other: seq<Byte>)
    requires Request(v, raw).Ok? && Request(v, other).Ok?
             && Request(v, raw).value.bytes == Request(v, other).value.bytes
    ensures SubjectOf(Request(v, raw).value) == SubjectOf(Request(v, other).value)
    ensures Request(v, raw).value.supersedes == Request(v, other).value.supersedes
  {
    StoredContentReads(v.rules, raw, true);
    StoredContentReads(v.rules, other, true);
    DigestOfRequest(v, raw);
    DigestOfRequest(v, other);
    var p, q := Request(v, raw).value, Request(v, other).value;
    assert p.(content := Normalize(p.content)) == q.(content := Normalize(q.content));
  }

  lemma ReuseIs(v: Service, db: Db, objects: Objects, p: Prepared)
    requires p.digest in db.entries && db.entries[p.digest].subject == SubjectOf(p)
             && db.entries[p.digest].supersedes == p.supersedes
    ensures Reuse(v, db, objects, p) == Materialize(v, db, objects, p.digest)
  {
  }

  lemma SameRegistrationAsOrigin(v: Service, world: set<seq<Byte>>, objects: Objects, e: Entry, first: seq<Byte>,
                                 raw: seq<Byte>)
    requires CollisionFree(v, world) && Origin(v, world, objects, e, first)
    requires Request(v, raw).Ok? && Request(v, raw).value.bytes in world && Request(v, raw).value.digest == e.digest
    ensures e.subject == SubjectOf(Request(v, raw).value) && e.supersedes == Request(v, raw).value.supersedes
  {
    DigestOfRequest(v, raw);
    DigestOfRequest(v, first);
    SameBytesSameRegistration(v, raw, first);
  }

  /** Registering content that is already there always answers with what reading gives, never with a conflict. */
  lemma RegisteredAgain(v: Service, world: set<seq<Byte>>, s: System, raw: seq<Byte>)
    requires ValidService(v) && Sound(v, world, s) && CollisionFree(v, world)
    requires Request(v, raw).Ok? && Request(v, raw).value.bytes in world && Request(v, raw).value.digest in s.db.entries
    ensures var p := Request(v, raw).value;
            Reuse(v, s.db, s.objects, p).Ok?
            && Reuse(v, s.db, s.objects, p) == Materialize(v, s.db, s.objects, p.digest)
  {
    var p := Request(v, raw).value;
    assert Originated(v, world, s, p.digest);
    assert EntryOk(v, s.db, p.digest);
    var first :| Origin(v, world, s.objects, s.db.entries[p.digest], first);
    SameRegistrationAsOrigin(v, world, s.objects, s.db.entries[p.digest], first, raw);
    ReuseIs(v, s.db, s.objects, p);
    EntryReads(v, world, s, p.digest);
  }

  // ----- growth keeps everything

  lemma PhaseGrows(v: Service, s: System, t: System, p: Prepared, phase: Phase)
    requires |p.digest| >= 7 && Grows(s, t) && PhaseOk(v, s, p, phase)
    ensures PhaseOk(v, t, p, phase)
  {
    if phase.Done? && phase.result.Ok? {
      ReadsNeverChange(v, s, t, p.digest);
    }
  }

  lemma EntryGrows(v: Service, a: Db, b: Db, d: Text)
    requires Extends(a.entries, b.entries) && Extends(a.receipts, b.receipts) && d in a.entries && EntryOk(v, a, d)
    ensures EntryOk(v, b, d)
  {
    assert b.entries[d] == a.entries[d] && b.receipts[d] == a.receipts[d];
    assert PriorRef(b, b.entries[d]) == PriorRef(a, a.entries[d]);
  }

  lemma OriginGrows(v: Service, world: set<seq<Byte>>, s: System, t: System, d: Text)
    requires Grows(s, t) && d in s.db.entries && Originated(v, world, s, d)
    ensures d in t.db.entries && Originated(v, world, t, d)
  {
    var e := s.db.entries[d];
    var raw :| Origin(v, world, s.objects, e, raw);
    assert t.db.entries[d] == e;
    assert Origin(v, world, t.objects, e, raw);
  }

  /** A step that leaves rows and objects alone, and its own call in order, keeps the invariant. */
  lemma QuietKeeps(v: Service, world: set<seq<Byte>>, s: System, pid: Pid, phase: Phase)
    requires ValidService(v) && Sound(v, world, s) && pid in s.calls
    requires |Request(v, s.calls[pid].raw).value.digest| >= 7
             && PhaseOk(v, s, Request(v, s.calls[pid].raw).value, phase)
    ensures Sound(v, world, Move(s, pid, phase))
  {
    var t := Move(s, pid, phase);
    forall d | d in t.db.entries
      ensures Originated(v, world, t, d)
    {
      OriginGrows(v, world, s, t, d);
    }
    forall other | other in t.calls
      ensures CallOk(v, world, t, t.calls[other])
    {
      assert CallOk(v, world, s, s.calls[other]);
      if other == pid {
        PhaseGrows(v, s, t, Request(v, s.calls[pid].raw).value, phase);
      } else {
        PhaseGrows(v, s, t, Request(v, s.calls[other].raw).value, s.calls[other].phase);
      }
    }
  }

  /** Adding an object version or rows that are in order keeps the invariant of everything else. */
  lemma GrowthKeeps(v: Service, world: set<seq<Byte>>, s: System, t: System)
    requires ValidService(v) && Sound(v, world, s) && Grows(s, t) && s.calls == t.calls
    requires DbOk(v, t.db) && ObjectsOk(v, world, t.objects)
    requires forall d :: d in t.db.entries && d !in s.db.entries ==> Originated(v, world, t, d)
    ensures Sound(v, world, t)
  {
    forall d | d in t.db.entries
      ensures Originated(v, world, t, d)
    {
      if d in s.db.entries {
        OriginGrows(v, world, s, t, d);
      }
    }
    forall pid | pid in t.calls
      ensures CallOk(v, world, t, t.calls[pid])
    {
      assert CallOk(v, world, s, s.calls[pid]);
      PhaseGrows(v, s, t, Request(v, s.calls[pid].raw).value, s.calls[pid].phase);
    }
  }

  // ----- the steps

  lemma HeadReadFits(v: Service, db: Db, p: Prepared, head: Option<Text>)
    requires DbOk(v, db) && HeadIs(db, SubjectOf(p), head) && SupersessionHolds(p, HeadEntry(db, head))
    ensures HeadFits(db, p, HeadEntry(db, head))
  {
    if head.Some? {
      assert EntryOk(v, db, head.value);
    }
  }

  lemma FoundIsHeld(v: Service, world: set<seq<Byte>>, objects: Objects, p: Prepared)
    requires ValidService(v) && ObjectsOk(v, world, objects) && CollisionFree(v, world)
    requires p.bytes in world && v.rules.hash(p.bytes) == p.digest && |p.digest| >= 7
    requires FindObject(v, objects, p.digest).Ok? && FindObject(v, objects, p.digest).value.Some?
    ensures ObjectHeld(objects, p, FindObject(v, objects, p.digest).value.value)
  {
    var at := ObjectVersion(ObjectKey(p.digest), FindObject(v, objects, p.digest).value.value);
    assert ObjectOk(v, world, at.key, objects.versions[at]);
  }

  lemma ClockFits(v: Service, db: Db, p: Prepared, head: Option<Entry>, now: int)
    requires HeadFits(db, p, head)
    ensures TimesFit(db, p, PersistenceTimeline(now, head))
  {
  }

  lemma OpenFits(v: Service, db: Db, p: Prepared, head: Option<Text>)
    requires DbOk(v, db) && HeadIs(db, SubjectOf(p), head) && SupersessionHolds(p, HeadEntry(db, head))
    requires head.Some? ==> head.value in db.receipts
    ensures LineFits(db, p, if head.None? then 1 else db.entries[head.value].generation + 1,
                     if head.None? then None else Some(db.receipts[head.value]))
  {
    if head.Some? {
      assert EntryOk(v, db, head.value);
    }
  }

  lemma BuiltReceiptHolds(v: Service, p: Prepared, times: Timeline, version: Text, generation: int,
                          prior: Option<ReceiptRow>)
    requires ValidService(v) && IsDigest(p.digest) && times.receipt == times.storage + 1
             && times.artifact == times.storage + 2
    ensures var row, receipt := BuildEntry(v, p, generation, version, times), BuildReceipt(v, p, version, times, prior);
            && IsDigest(receipt.digest) && receipt.receipt.body.storedAt == times.storage
            && ReceiptHolds(v, row, receipt, if prior.Some? then Some(RefOfRow(prior.value)) else None)
  {
    var receipt := BuildReceipt(v, p, version, times, prior);
    assert IsDigest(v.receiptHash(receipt.receipt.body));
  }

  /** The superseded entry the transaction saw is the one the times were fixed against. */
  lemma InsertedLineOk(v: Service, db: Db, after: Db, p: Prepared, times: Timeline, version: Text, generation: int,
                       prior: Option<ReceiptRow>)
    requires TimesFit(db, p, times) && LineFits(db, p, generation, prior) && |p.digest| >= 7
    requires Extends(db.entries, after.entries) && Extends(db.receipts, after.receipts)
    ensures var row := BuildEntry(v, p, generation, version, times);
            && LineOk(after, row, times.storage) && generation >= 1
            && PriorRef(after, row) == if prior.Some? then Some(RefOfRow(prior.value)) else None
  {
  }

  ghost predicate UniqueGenerations(entries: map<Text, Entry>) {
    forall a, b :: a in entries && b in entries && a != b ==>
      entries[a].subject != entries[b].subject || entries[a].generation != entries[b].generation
  }

  lemma InsertKeepsUnique(entries: map<Text, Entry>, d: Text, row: Entry)
    requires UniqueGenerations(entries) && d !in entries
    requires forall a :: a in entries ==> entries[a].subject != row.subject || entries[a].generation != row.generation
    ensures UniqueGenerations(entries[d := row])
  {
  }

  lemma EntriesGrow(v: Service, db: Db, after: Db)
    requires DbOk(v, db) && Extends(db.entries, after.entries) && Extends(db.receipts, after.receipts)
    ensures forall d :: d in db.entries ==> EntryOk(v, after, d)
  {
    forall d | d in db.entries
      ensures EntryOk(v, after, d)
    {
      EntryGrows(v, db, after, d);
    }
  }

  lemma InsertKeepsDb(v: Service, db: Db, after: Db, row: Entry, receipt: ReceiptRow)
    requires DbOk(v, db) && row.digest !in db.entries && row.digest !in db.receipts
    requires forall d :: d in db.entries ==>
               db.entries[d].subject != row.subject || db.entries[d].generation != row.generation
    requires after == Db(db.entries[row.digest := row], db.receipts[row.digest := receipt])
    requires row.digest in after.entries && EntryOk(v, after, row.digest)
    ensures DbOk(v, after)
  {
    RowsGrow(db, row, receipt);
    EntriesGrow(v, db, after);
    InsertKeepsUnique(db.entries, row.digest, row);
    EntriesCovered(v, after, db.entries, db.receipts, row.digest, row, receipt);
  }

  lemma CommittedEntryOk(v: Service, db: Db, after: Db, p: Prepared, phase: Phase)
    requires ValidService(v) && IsDigest(p.digest) && phase.Inserting? && p.digest !in db.entries
             && p.digest !in db.receipts
    requires TimesFit(db, p, phase.times) && LineFits(db, p, phase.generation, phase.prior)
    requires after == Db(db.entries[p.digest := BuildEntry(v, p, phase.generation, phase.version, phase.times)],
                         db.receipts[p.digest := BuildReceipt(v, p, phase.version, phase.times, phase.prior)])
    ensures p.digest in after.entries && EntryOk(v, after, p.digest)
  {
    var row := BuildEntry(v, p, phase.generation, phase.version, phase.times);
    var receipt := BuildReceipt(v, p, phase.version, phase.times, phase.prior);
    RowsGrow(db, row, receipt);
    InsertedLineOk(v, db, after, p, phase.times, phase.version, phase.generation, phase.prior);
    BuiltReceiptHolds(v, p, phase.times, phase.version, phase.generation, phase.prior);
    InsertedEntryOk(v, after, row, receipt);
  }

  lemma CommitKeepsDb(v: Service, db: Db, after: Db, p: Prepared, phase: Phase)
    requires ValidService(v) && DbOk(v, db) && IsDigest(p.digest) && phase.Inserting?
    requires TimesFit(db, p, phase.times) && LineFits(db, p, phase.generation, phase.prior)
    requires Insertable(db, BuildEntry(v, p, phase.generation, phase.version, phase.times),
                        BuildReceipt(v, p, phase.version, phase.times, phase.prior))
    requires after == Db(db.entries[p.digest := BuildEntry(v, p, phase.generation, phase.version, phase.times)],
                         db.receipts[p.digest := BuildReceipt(v, p, phase.version, phase.times, phase.prior)])
    ensures DbOk(v, after)
  {
    CommittedEntryOk(v, db, after, p, phase);
    InsertKeepsDb(v, db, after, BuildEntry(v, p, phase.generation, phase.version, phase.times),
                  BuildReceipt(v, p, phase.version, phase.times, phase.prior));
  }

  lemma InsertedEntryOk(v: Service, after: Db, row: Entry, receipt: ReceiptRow)
    requires IsDigest(row.digest) && Get(after.entries, row.digest) == Some(row)
             && Get(after.receipts, row.digest) == Some(receipt)
    requires row.generation >= 1 && IsDigest(receipt.digest) && LineOk(after, row, receipt.receipt.body.storedAt)
    requires ReceiptHolds(v, row, receipt, PriorRef(after, row))
    ensures EntryOk(v, after, row.digest)
  {
  }

  lemma EntriesCovered(v: Service, after: Db, entries: map<Text, Entry>, receipts: map<Text, ReceiptRow>, d: Text,
                       row: Entry, receipt: ReceiptRow)
    requires after == Db(entries[d := row], receipts[d := receipt])
    requires UniqueGenerations(after.entries) && (forall k :: k in receipts ==> k in entries)
    requires d in after.entries && EntryOk(v, after, d)
             && forall k :: k in entries ==> k in after.entries && EntryOk(v, after, k)
    ensures DbOk(v, after)
  {
  }

  lemma PutKeepsObjects(v: Service, world: set<seq<Byte>>, objects: Objects, p: Prepared, version: Text)
    requires ValidService(v) && ObjectsOk(v, world, objects) && p.bytes in world && p.digest == v.rules.hash(p.bytes)
             && |p.digest| >= 7
    ensures var at := ObjectVersion(ObjectKey(p.digest), version);
            ObjectsOk(v, world, Objects(objects.versions[at := p.bytes], objects.current[at.key := version]))
  {
    assert IsDigest(v.rules.hash(p.bytes));
  }

  /** Facts about a waiting call, with the request's contents named. */
  lemma CallFacts(v: Service, world: set<seq<Byte>>, s: System, pid: Pid, p: Prepared)
    requires ValidService(v) && Sound(v, world, s)
    requires pid in s.calls && Request(v, s.calls[pid].raw) == Ok(p) && |p.digest| >= 7
    ensures p.bytes in world && IsDigest(p.digest) && p.digest == v.rules.hash(p.bytes)
    ensures PhaseOk(v, s, p, s.calls[pid].phase)
  {
    assert CallOk(v, world, s, s.calls[pid]);
    DigestOfRequest(v, s.calls[pid].raw);
  }

  lemma StoreKeeps(v: Service, world: set<seq<Byte>>, s: System, t: System, at: ObjectVersion, p: Prepared)
    requires ValidService(v) && Sound(v, world, s) && p.bytes in world && p.digest == v.rules.hash(p.bytes)
             && |p.digest| >= 7
    requires at !in s.objects.versions && at.key == ObjectKey(p.digest)
    requires t ==
             System(s.db, Objects(s.objects.versions[at := p.bytes], s.objects.current[at.key := at.version]), s.calls)
    ensures Sound(v, world, t) && Extends(s.objects.versions, t.objects.versions)
            && ObjectHeld(t.objects, p, at.version)
  {
    assert at == ObjectVersion(ObjectKey(p.digest), at.version);
    PutKeepsObjects(v, world, s.objects, p, at.version);
    GrowthKeeps(v, world, s, t);
  }

  lemma PutObjectKeeps(v: Service, world: set<seq<Byte>>, s: System, pid: Pid, p: Prepared, version: Text)
    requires ValidService(v) && Sound(v, world, s)
    requires pid in s.calls && Request(v, s.calls[pid].raw) == Ok(p) && |p.digest| >= 7
    requires s.calls[pid].phase.ObjectAbsent?
    ensures Sound(v, world, PutObjectStep(s, pid, p, s.calls[pid].phase.head, version))
  {
    var head, at := s.calls[pid].phase.head, ObjectVersion(ObjectKey(p.digest), version);
    CallFacts(v, world, s, pid, p);
    if at !in s.objects.versions {
      var t := System(s.db, Objects(s.objects.versions[at := p.bytes], s.objects.current[at.key := version]), s.calls);
      StoreKeeps(v, world, s, t, at, p);
      if ImmutableVersion(version) {
        QuietKeeps(v, world, t, pid, Bound(head, version));
      } else {
        QuietKeeps(v, world, t, pid, Done(Err(Integrity)));
      }
    }
  }

  lemma InsertedOriginates(v: Service, world: set<seq<Byte>>, s: System, raw: seq<Byte>, p: Prepared, phase: Phase)
    requires Request(v, raw) == Ok(p) && |p.digest| >= 7 && p.bytes in world && phase.Inserting?
             && ObjectHeld(s.objects, p, phase.version)
    ensures Origin(v, world, s.objects, BuildEntry(v, p, phase.generation, phase.version, phase.times), raw)
  {
  }

  lemma RowsGrow(db: Db, row: Entry, receipt: ReceiptRow)
    requires row.digest !in db.entries && row.digest !in db.receipts
    ensures Extends(db.entries, db.entries[row.digest := row])
            && Extends(db.receipts, db.receipts[row.digest := receipt])
  {
  }

  lemma InsertKeeps(v: Service, world: set<seq<Byte>>, s: System, row: Entry, receipt: ReceiptRow, raw: seq<Byte>)
    requires ValidService(v) && Sound(v, world, s) && row.digest !in s.db.entries && row.digest !in s.db.receipts
    requires DbOk(v, Db(s.db.entries[row.digest := row], s.db.receipts[row.digest := receipt]))
    requires Origin(v, world, s.objects, row, raw)
    ensures Sound(v, world,
                  System(Db(s.db.entries[row.digest := row], s.db.receipts[row.digest := receipt]), s.objects, s.calls))
  {
    var t := System(Db(s.db.entries[row.digest := row], s.db.receipts[row.digest := receipt]), s.objects, s.calls);
    RowsGrow(s.db, row, receipt);
    assert t.db.entries[row.digest] == row;
    assert Originated(v, world, t, row.digest);
    GrowthKeeps(v, world, s, t);
  }

  lemma CommitInsertKeeps(v: Service, world: set<seq<Byte>>, s: System, pid: Pid, p: Prepared)
    requires ValidService(v) && Sound(v, world, s)
    requires pid in s.calls && Request(v, s.calls[pid].raw) == Ok(p) && |p.digest| >= 7
    requires s.calls[pid].phase.Inserting?
    ensures Sound(v, world, CommitInsertStep(v, s, pid, p, s.calls[pid].phase))
  {
    var phase := s.calls[pid].phase;
    CallFacts(v, world, s, pid, p);
    var row := BuildEntry(v, p, phase.generation, phase.version, phase.times);
    var receipt := BuildReceipt(v, p, phase.version, phase.times, phase.prior);
    if !Insertable(s.db, row, receipt) {
      QuietKeeps(v, world, s, pid, Raced);
    } else {
      CommitKeepsDb(v, s.db, Db(s.db.entries[p.digest := row], s.db.receipts[p.digest := receipt]), p, phase);
      InsertedOriginates(v, world, s, s.calls[pid].raw, p, phase);
      InsertKeeps(v, world, s, row, receipt, s.calls[pid].raw);
      QuietKeeps(v, world,
                 System(Db(s.db.entries[p.digest := row], s.db.receipts[p.digest := receipt]), s.objects, s.calls), pid,
                 Created);
    }
  }

  lemma ReadHeadKeeps(v: Service, world: set<seq<Byte>>, s: System, pid: Pid, p: Prepared, head: Option<Text>)
    requires ValidService(v) && Sound(v, world, s)
    requires pid in s.calls && Request(v, s.calls[pid].raw) == Ok(p) && |p.digest| >= 7
    requires HeadIs(s.db, SubjectOf(p), head)
    ensures Sound(v, world, ReadHeadStep(s, pid, p, head))
  {
    if SupersessionHolds(p, HeadEntry(s.db, head)) {
      HeadReadFits(v, s.db, p, head);
      QuietKeeps(v, world, s, pid, HeadRead(HeadEntry(s.db, head)));
    } else {
      QuietKeeps(v, world, s, pid, Done(Err(Conflict)));
    }
  }

  lemma ReadClockKeeps(v: Service, world: set<seq<Byte>>, s: System, pid: Pid, p: Prepared, now: int)
    requires ValidService(v) && Sound(v, world, s)
    requires pid in s.calls && Request(v, s.calls[pid].raw) == Ok(p) && |p.digest| >= 7
    requires s.calls[pid].phase.Bound?
    ensures Sound(v, world,
                  Move(s, pid, Timed(PersistenceTimeline(now, s.calls[pid].phase.head), s.calls[pid].phase.version)))
  {
    var phase := s.calls[pid].phase;
    CallFacts(v, world, s, pid, p);
    ClockFits(v, s.db, p, phase.head, now);
    QuietKeeps(v, world, s, pid, Timed(PersistenceTimeline(now, phase.head), phase.version));
  }

  lemma ReportKeeps(v: Service, world: set<seq<Byte>>, s: System, pid: Pid, p: Prepared)
    requires ValidService(v) && Sound(v, world, s)
    requires pid in s.calls && Request(v, s.calls[pid].raw) == Ok(p) && |p.digest| >= 7
    ensures Sound(v, world, Move(s, pid, Done(Materialize(v, s.db, s.objects, p.digest))))
  {
    QuietKeeps(v, world, s, pid, Done(Materialize(v, s.db, s.objects, p.digest)));
  }

  lemma NextStateKeeps(v: Service, world: set<seq<Byte>>, s: System, e: Event, p: Prepared)
    requires ValidService(v) && Sound(v, world, s) && CollisionFree(v, world)
    requires e.pid in s.calls && Request(v, s.calls[e.pid].raw) == Ok(p) && |p.digest| >= 7
    ensures Sound(v, world, NextState(v, s, e, p))
  {
    var pid, phase := e.pid, s.calls[e.pid].phase;
    match e
    case LookUp(_) => if phase.Arrived? { LookUpKeeps(v, world, s, pid, p); }
    case ReadHead(_, head) =>
      if phase.Absent? && HeadIs(s.db, SubjectOf(p), head) { ReadHeadKeeps(v, world, s, pid, p, head); }
    case GetObject(_) => if phase.HeadRead? { GetObjectKeeps(v, world, s, pid, p); }
    case PutObject(_, version) => if phase.ObjectAbsent? { PutObjectKeeps(v, world, s, pid, p, version); }
    case ReadClock(_, now) => if phase.Bound? { ReadClockKeeps(v, world, s, pid, p, now); }
    case OpenInsert(_, head) =>
      if phase.Timed? && HeadIs(s.db, SubjectOf(p), head) { OpenInsertKeeps(v, world, s, pid, p, head); }
    case CommitInsert(_) => if phase.Inserting? { CommitInsertKeeps(v, world, s, pid, p); }
    case Resolve(_) => if phase.Raced? { ResolveKeeps(v, world, s, pid, p); }
    case Report(_) => if phase.Created? { ReportKeeps(v, world, s, pid, p); }
    case Arrive(_, _) =>
  }

  lemma LookUpKeeps(v: Service, world: set<seq<Byte>>, s: System, pid: Pid, p: Prepared)
    requires ValidService(v) && Sound(v, world, s) && pid in s.calls && Request(v, s.calls[pid].raw) == Ok(p)
             && |p.digest| >= 7
    ensures Sound(v, world, LookUpStep(v, s, pid, p))
  {
    QuietKeeps(v, world, s, pid, if p.digest in s.db.entries then Done(Reuse(v, s.db, s.objects, p)) else Absent);
  }

  lemma ResolveKeeps(v: Service, world: set<seq<Byte>>, s: System, pid: Pid, p: Prepared)
    requires ValidService(v) && Sound(v, world, s) && pid in s.calls && Request(v, s.calls[pid].raw) == Ok(p)
             && |p.digest| >= 7
    ensures Sound(v, world, ResolveStep(v, s, pid, p))
  {
    QuietKeeps(v, world, s, pid,
               Done(if p.digest in s.db.entries then Reuse(v, s.db, s.objects, p) else Err(Conflict)));
  }

  lemma GetObjectKeeps(v: Service, world: set<seq<Byte>>, s: System, pid: Pid, p: Prepared)
    requires ValidService(v) && Sound(v, world, s) && CollisionFree(v, world)
    requires pid in s.calls && Request(v, s.calls[pid].raw) == Ok(p) && |p.digest| >= 7 && s.calls[pid].phase.HeadRead?
    ensures Sound(v, world, GetObjectStep(v, s, pid, p, s.calls[pid].phase.head))
  {
    var head, found := s.calls[pid].phase.head, FindObject(v, s.objects, p.digest);
    assert CallOk(v, world, s, s.calls[pid]);
    DigestOfRequest(v, s.calls[pid].raw);
    if found.Err? {
      QuietKeeps(v, world, s, pid, Done(Err(found.error)));
    } else if found.value.None? {
      QuietKeeps(v, world, s, pid, ObjectAbsent(head));
    } else {
      FoundIsHeld(v, world, s.objects, p);
      QuietKeeps(v, world, s, pid, Bound(head, found.value.value));
    }
  }

  lemma OpenInsertKeeps(v: Service, world: set<seq<Byte>>, s: System, pid: Pid, p: Prepared, head: Option<Text>)
    requires ValidService(v) && Sound(v, world, s)
    requires pid in s.calls && Request(v, s.calls[pid].raw) == Ok(p) && |p.digest| >= 7
    requires s.calls[pid].phase.Timed? && HeadIs(s.db, SubjectOf(p), head)
    ensures Sound(v, world, OpenInsertStep(s, pid, p, s.calls[pid].phase.times, s.calls[pid].phase.version, head))
  {
    var times, version := s.calls[pid].phase.times, s.calls[pid].phase.version;
    assert CallOk(v, world, s, s.calls[pid]);
    if p.digest in s.db.entries {
      QuietKeeps(v, world, s, pid, Raced);
    } else if !SupersessionHolds(p, HeadEntry(s.db, head)) {
      QuietKeeps(v, world, s, pid, Done(Err(Conflict)));
    } else if head.Some? && head.value !in s.db.receipts {
      QuietKeeps(v, world, s, pid, Done(Err(Unavailable)));
    } else {
      OpenFits(v, s.db, p, head);
      QuietKeeps(v, world, s, pid,
                 Inserting(times, version, if head.None? then 1 else s.db.entries[head.value].generation + 1,
                                             if head.None? then None else Some(s.db.receipts[head.value])));
    }
  }

  lemma ArrivedCallOk(v: Service, world: set<seq<Byte>>, s: System, pid: Pid, raw: seq<Byte>, other: Pid)
    requires ValidService(v) && Sound(v, world, s) && pid !in s.calls && (other == pid || other in s.calls)
    requires Request(v, raw).Ok? && Request(v, raw).value.bytes in world
    ensures var t := s.(calls := s.calls[pid := Call(raw, Arrived)]); CallOk(v, world, t, t.calls[other])
  {
    var t := s.(calls := s.calls[pid := Call(raw, Arrived)]);
    DigestOfRequest(v, raw);
    if other != pid {
      assert CallOk(v, world, s, s.calls[other]);
      PhaseGrows(v, s, t, Request(v, s.calls[other].raw).value, s.calls[other].phase);
    }
  }

  lemma ArriveKeeps(v: Service, world: set<seq<Byte>>, s: System, pid: Pid, raw: seq<Byte>)
    requires ValidService(v) && Sound(v, world, s) && pid !in s.calls
    requires Request(v, raw).Ok? && Request(v, raw).value.bytes in world
    ensures Sound(v, world, s.(calls := s.calls[pid := Call(raw, Arrived)]))
  {
    var t := s.(calls := s.calls[pid := Call(raw, Arrived)]);
    forall d | d in t.db.entries
      ensures Originated(v, world, t, d)
    {
      OriginGrows(v, world, s, t, d);
    }
    forall other | other in t.calls
      ensures CallOk(v, world, t, t.calls[other])
    {
      ArrivedCallOk(v, world, s, pid, raw, other);
    }
  }

  lemma {:induction false} RunSound(v: Service, world: set<seq<Byte>>, events: seq<Event>)
    requires ValidService(v) && CollisionFree(v, world) && Within(v, world, events)
    ensures Sound(v, world, Run(v, events))
    decreases |events|
  {
    if events != [] {
      var front, e := events[..|events| - 1], events[|events| - 1];
      assert Within(v, world, front) by {
        assert forall i :: 0 <= i < |front| ==> front[i] == events[i];
      }
      RunSound(v, world, front);
      var s := Run(v, front);
      if e.Arrive? {
        if e.pid !in s.calls && Request(v, e.raw).Ok? {
          ArriveKeeps(v, world, s, e.pid, e.raw);
        }
      } else if At(v, s, e.pid) {
        DigestOfRequest(v, s.calls[e.pid].raw);
        NextStateKeeps(v, world, s, e, Request(v, s.calls[e.pid].raw).value);
      }
    }
  }

  // ----- main results

  predicate IsGeneration(db: Db, subject: Subject, k: int, d: Text) {
    d in db.entries && db.entries[d].subject == subject && db.entries[d].generation == k
  }

  lemma {:induction false} EarlierGeneration(v: Service, db: Db, d: Text, k: int) returns (c: Text)
    requires DbOk(v, db) && d in db.entries && 1 <= k <= db.entries[d].generation
    ensures IsGeneration(db, db.entries[d].subject, k, c)
    decreases db.entries[d].generation - k
  {
    assert EntryOk(v, db, d);
    c := d;
    if k < db.entries[d].generation {
      c := EarlierGeneration(v, db, db.entries[d].supersedes.value.digest, k);
    }
  }

  /**
   Whatever registrations interleave and whatever the clocks say: the generations of a subject are
   1 to n, each exactly once.
   */
  lemma GenerationsAreOneToN(v: Service, world: set<seq<Byte>>, events: seq<Event>, d: Text, k: int)
    requires ValidService(v) && CollisionFree(v, world) && Within(v, world, events)
    requires d in Run(v, events).db.entries
    ensures var db := Run(v, events).db;
            && db.entries[d].generation >= 1
            && (1 <= k <= db.entries[d].generation ==> exists c :: IsGeneration(db, db.entries[d].subject, k, c))
            && (forall a, b ::
                  IsGeneration(db, db.entries[d].subject, k, a) && IsGeneration(db, db.entries[d].subject, k, b) ==>
                    a == b)
  {
    RunSound(v, world, events);
    EveryGenerationOnce(v, Run(v, events).db, d, k);
  }

  lemma EveryGenerationOnce(v: Service, db: Db, d: Text, k: int)
    requires DbOk(v, db) && d in db.entries
    ensures db.entries[d].generation >= 1
    ensures 1 <= k <= db.entries[d].generation ==> exists c :: IsGeneration(db, db.entries[d].subject, k, c)
    ensures forall a, b ::
              IsGeneration(db, db.entries[d].subject, k, a) && IsGeneration(db, db.entries[d].subject, k, b) ==> a == b
  {
    assert EntryOk(v, db, d);
    if 1 <= k <= db.entries[d].generation {
      var c := EarlierGeneration(v, db, d, k);
    }
  }

  /**
   Each generation supersedes exactly its predecessor and lies after it: predecessor's artifact time,
   storage, receipt and artifact time strictly increase.
   */
  lemma EachSupersedesItsPredecessor(v: Service, world: set<seq<Byte>>, events: seq<Event>, d: Text)
    requires ValidService(v) && CollisionFree(v, world) && Within(v, world, events)
    requires d in Run(v, events).db.entries
    ensures var db := Run(v, events).db;
            var e := db.entries[d];
            && d in db.receipts
            && var r := db.receipts[d].receipt;
               && r.body.storedAt < r.persistedAt < e.persistedAt
               && (e.generation == 1 <==> e.supersedes.None?)
               && (e.supersedes.Some? ==>
                     var prior := e.supersedes.value.digest;
                     && IsGeneration(db, e.subject, e.generation - 1, prior) && prior in db.receipts
                     && e.supersedes.value == ArtifactRef(db.entries[prior].uri, prior)
                     && r.body.supersedes == Some(ArtifactRef(db.receipts[prior].uri, db.receipts[prior].digest))
                     && db.entries[prior].persistedAt < r.body.storedAt)
  {
    RunSound(v, world, events);
    assert EntryOk(v, Run(v, events).db, d);
  }

  /** Every registered entry reads back, under the same service, as the content it was registered with. */
  lemma RegisteredReads(v: Service, world: set<seq<Byte>>, events: seq<Event>, d: Text)
    requires ValidService(v) && CollisionFree(v, world) && Within(v, world, events)
    requires d in Run(v, events).db.entries
    ensures var s := Run(v, events);
            var r, stored := Materialize(v, s.db, s.objects, d), StoredContentOf(v, s.objects, s.db.entries[d]);
            && r.Ok? && r.value.generation == s.db.entries[d].generation
            && stored.Ok? && Equal(Object(Projection(r.value.artifact)), stored.value.content)
  {
    RunSound(v, world, events);
    EntryReads(v, world, Run(v, events), d);
  }

  lemma {:induction false} RunGrows(v: Service, events: seq<Event>, n: nat)
    requires ValidService(v) && n <= |events|
    ensures Grows(Run(v, events[..n]), Run(v, events))
    decreases |events| - n
  {
    if n == |events| {
      assert events[..n] == events;
    } else {
      assert events[..n + 1][..n] == events[..n];
      StepGrows(v, Run(v, events[..n]), events[n]);
      RunGrows(v, events, n + 1);
    }
  }

  /** What a digest reads as never changes again. */
  lemma ReadsForever(v: Service, world: set<seq<Byte>>, events: seq<Event>, n: nat, d: Text)
    requires ValidService(v) && CollisionFree(v, world) && Within(v, world, events) && n <= |events|
    requires d in Run(v, events[..n]).db.entries
    ensures var s, t := Run(v, events[..n]), Run(v, events);
            Materialize(v, s.db, s.objects, d).Ok?
            && Materialize(v, t.db, t.objects, d) == Materialize(v, s.db, s.objects, d)
  {
    RunGrows(v, events, n);
    assert Within(v, world, events[..n]);
    RunSound(v, world, events[..n]);
    EntryReads(v, world, Run(v, events[..n]), d);
    ReadsNeverChange(v, Run(v, events[..n]), Run(v, events), d);
  }

  /** In every run, registering content that is already there is no conflict and answers what reading gives. */
  lemma AlreadyRegistered(v: Service, world: set<seq<Byte>>, events: seq<Event>, raw: seq<Byte>)
    requires ValidService(v) && CollisionFree(v, world) && Within(v, world, events)
    requires Request(v, raw).Ok? && Request(v, raw).value.bytes in world
    requires Request(v, raw).value.digest in Run(v, events).db.entries
    ensures var s, p := Run(v, events), Request(v, raw).value;
            Reuse(v, s.db, s.objects, p).Ok?
            && Reuse(v, s.db, s.objects, p) == Materialize(v, s.db, s.objects, p.digest)
  {
    RunSound(v, world, events);
    RegisteredAgain(v, world, Run(v, events), raw);
  }

  /** Every successful answer, created or reused, is what reading its digest gives ever after. */
  lemma AnswersAreReads(v: Service, world: set<seq<Byte>>, events: seq<Event>, pid: Pid)
    requires ValidService(v) && CollisionFree(v, world) && Within(v, world, events)
    requires pid in Run(v, events).calls && Run(v, events).calls[pid].phase.Done?
             && Run(v, events).calls[pid].phase.result.Ok?
    ensures var s := Run(v, events);
            && Request(v, s.calls[pid].raw).Ok?
            && Materialize(v, s.db, s.objects, Request(v, s.calls[pid].raw).value.digest) == s.calls[pid].phase.result
  {
    RunSound(v, world, events);
    var s := Run(v, events);
    assert CallOk(v, world, s, s.calls[pid]);
    AnswerHolds(v, s, Request(v, s.calls[pid].raw).value, s.calls[pid].phase);
  }

  lemma AnswerHolds(v: Service, s: System, p: Prepared, phase: Phase)
    requires |p.digest| >= 7 && PhaseOk(v, s, p, phase) && phase.Done? && phase.result.Ok?
    ensures Materialize(v, s.db, s.objects, p.digest) == phase.result
  {
  }
}
