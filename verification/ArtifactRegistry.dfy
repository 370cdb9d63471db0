/**
 The append-only artifact registry: rows of entries and custody receipts, an object store of
 immutable versions, and registration calls that interleave at every read and write.

 A call looks its digest up, reads the subject's head, makes sure the object is stored, fixes its
 times from the clock and the head it saw, and only then opens the transaction that inserts the
 rows. The registry URI is made from the content digest, so one map key stands for both unique
 columns. Times are whole seconds. Reading back a version just written yields the bytes written.
 */
module ArtifactRegistry {
  import opened Common
  import opened Unicode
  import opened CanonicalJson
  import opened JsonReader
  import opened JsonDictionaries
  import opened ArtifactContents

  type Pid = nat

  datatype Subject = Subject(deliveryId: Text, artifactType: Text, artifactId: Text)

  /** The receipt without its digest and generated custody fields: what its digest covers. */
  datatype ReceiptBody = ReceiptBody(receiptId: Text, subject: Subject, contentDigest: Text, registryUri: Text,
                                     identity: Text,
                                     implementation: Text, storageRef: Text, storedAt: int,
                                     supersedes: Option<ArtifactRef>)

  datatype Receipt = Receipt(body: ReceiptBody, digest: Text, uri: Text, persistedAt: int)

  datatype ReceiptRow = ReceiptRow(receipt: Receipt, persistedAt: int, digest: Text, id: Text, uri: Text)

  datatype Entry = Entry(subject: Subject, digest: Text, generation: int, uri: Text, objectKey: Text, version: Text,
                         persistedAt: int, storageRef: Text, supersedes: Option<ArtifactRef>)

  /** Receipts are found by the entry they belong to. */
  datatype Db = Db(entries: map<Text, Entry>, receipts: map<Text, ReceiptRow>)

  datatype ObjectVersion = ObjectVersion(key: Text, version: Text)

  datatype Objects = Objects(versions: map<ObjectVersion, seq<Byte>>, current: map<Text, Text>)

  /** The service identity with its derived references; the token and reference functions are arbitrary. */
  datatype Service = Service(rules: Rules, identity: Text, implementation: Text,
                             receiptToken: Text -> Text, receiptHash: ReceiptBody -> Text,
                             storageRef: (Text, Text, Text, Text) -> Text, timeText: int -> Text)

  ghost predicate ValidService(v: Service) {
    && ValidRules(v.rules)
    && (forall b :: IsDigest(v.receiptHash(b)))
    && (forall d :: NoSurrogates(v.receiptToken(d)))
    && (forall t :: NoSurrogates(v.timeText(t)))
  }

  function ObjectKey(digest: Text): Text
    requires |digest| >= 7
  {
    Ascii("delivery-art/sha256/") + digest[7..] + Ascii(".json")
  }

  function ReceiptId(v: Service, digest: Text): Text {
    Ascii("artifact-custody-receipt:") + v.receiptToken(digest)
  }

  function ReceiptUri(v: Service, digest: Text, receiptDigest: Text): Text
    requires |receiptDigest| >= 7
  {
    Ascii("wgcf://receipts/artifact-custody/") + v.receiptToken(digest) + Ascii("-") + receiptDigest[7..]
    + Ascii(".json")
  }

  predicate ImmutableVersion(version: Text) {
    version != [] && version != Ascii("null")
  }

  function SubjectOf(p: Prepared): Subject {
    Subject(p.deliveryId, p.artifactType, p.artifactId)
  }

  // ----- reading an entry back

  datatype Registered = Registered(artifact: seq<Field>, receipt: Receipt, generation: int)

  function RefOfRow(row: ReceiptRow): ArtifactRef {
    ArtifactRef(row.uri, row.digest)
  }

  /** The superseded entry's receipt reference, when generation, lineage and times fit. */
  function Lineage(db: Db, e: Entry): Result<Option<ArtifactRef>, Error> {
    if (e.generation == 1) == e.supersedes.Some? then Err(Integrity)
    else if e.supersedes.None? then Ok(None)
    else
      var ref := e.supersedes.value;
      if ref.digest !in db.entries || db.entries[ref.digest].uri != ref.uri then Err(Integrity) else
        var prior := db.entries[ref.digest];
        if prior.subject != e.subject || prior.generation + 1 != e.generation then Err(Integrity)
        else if prior.digest !in db.receipts then Err(Integrity)
        else if prior.persistedAt >= e.persistedAt then Err(Integrity)
        else Ok(Some(RefOfRow(db.receipts[prior.digest])))
  }

  /** Every claim of a stored receipt, against the rows and against the service that reads it. */
  predicate ReceiptHolds(v: Service, e: Entry, row: ReceiptRow, supersedes: Option<ArtifactRef>)
    requires |e.digest| >= 7 && |row.digest| >= 7
  {
    var r, body := row.receipt, row.receipt.body;
    && r.digest == v.receiptHash(body) && r.digest == row.digest
    && body.receiptId == row.id && row.id == ReceiptId(v, e.digest) && row.uri == ReceiptUri(v, e.digest, row.digest)
    && body.subject == e.subject && body.contentDigest == e.digest && body.registryUri == e.uri
    && body.identity == v.identity
    && r.persistedAt == row.persistedAt && body.supersedes == supersedes
    && body.storedAt < r.persistedAt < e.persistedAt
    && r.uri == row.uri && body.storageRef == e.storageRef
    && e.storageRef == v.storageRef(v.identity, e.objectKey, e.version, e.digest)
    && e.uri == RegistryUri(e.digest) && e.objectKey == ObjectKey(e.digest)
  }

  /** The content of the bound object version, checked again as approved canonical content. */
  function StoredContentOf(v: Service, objects: Objects, e: Entry): Result<Prepared, Error> {
    var at := ObjectVersion(e.objectKey, e.version);
    if at !in objects.versions || v.rules.hash(objects.versions[at]) != e.digest then Err(Integrity) else
      match StrictJsonLoads(objects.versions[at])
      case Err(_) => Err(Integrity)
      case Ok(content) =>
        if !content.Object? || CanonicalBytes(content) != Ok(objects.versions[at]) then Err(Integrity) else
          var p := PrepareStored(v.rules, content, e.digest);
          if p.Err? || SubjectOf(p.value) != e.subject then Err(Integrity) else Ok(p.value.(content := content))
  }

  function CustodyOf(v: Service, e: Entry, receipt: Receipt, supersedes: Option<ArtifactRef>): Custody {
    Custody(e.uri, ArtifactRef(receipt.uri, receipt.digest), v.timeText(e.persistedAt), supersedes)
  }

  /** The durable artifact around the content; its projection must still have the registered digest. */
  function Durable(v: Service, e: Entry, receipt: Receipt, content: seq<Field>,
                   supersedes: Option<ArtifactRef>): Result<Registered, Error>
  {
    var artifact := Rebuild(content, e.digest, CustodyOf(v, e, receipt, supersedes));
    match CanonicalBytes(Object(Projection(artifact)))
    case Err(_) => Err(Integrity)
    case Ok(bytes) =>
      if v.rules.hash(bytes) != e.digest then Err(Integrity) else Ok(Registered(artifact, receipt, e.generation))
  }

  function Materialize(v: Service, db: Db, objects: Objects, digest: Text): Result<Registered, Error> {
    if digest !in db.entries then Err(NotFound)
    else if digest !in db.receipts then Err(Unavailable)
    else
      var e, row := db.entries[digest], db.receipts[digest];
      var supersedes, stored := Lineage(db, e), StoredContentOf(v, objects, e);
      if supersedes.Err? then Err(supersedes.error)
      else if stored.Err? then Err(stored.error)
      else if |e.digest| < 7 || |row.digest| < 7 || !ReceiptHolds(v, e, row, supersedes.value) then Err(Integrity)
      else if !stored.value.content.Object? then Err(Integrity)
      else Durable(v, e, row.receipt, stored.value.content.fields, stored.value.supersedes)
  }

  /** A digest already registered answers a new request for the same subject and lineage. */
  function Reuse(v: Service, db: Db, objects: Objects, p: Prepared): Result<Registered, Error>
    requires p.digest in db.entries
  {
    var e := db.entries[p.digest];
    if e.subject != SubjectOf(p) || e.supersedes != p.supersedes then Err(Conflict)
    else Materialize(v, db, objects, p.digest)
  }

  // ----- registering

  /** What the query for the latest generation of a subject returns. */
  ghost predicate HeadIs(db: Db, subject: Subject, head: Option<Text>) {
    match head
    case None => forall d :: d in db.entries ==> db.entries[d].subject != subject
    case Some(digest) =>
      && digest in db.entries && db.entries[digest].subject == subject
      && forall d :: d in db.entries && db.entries[d].subject == subject ==>
           db.entries[d].generation <= db.entries[digest].generation
  }

  predicate SupersessionHolds(p: Prepared, head: Option<Entry>) {
    if head.None? then p.supersedes.None? else p.supersedes == Some(ArtifactRef(head.value.uri, head.value.digest))
  }

  datatype Timeline = Timeline(storage: int, receipt: int, artifact: int)

  /** Never before the superseded artifact, even when the clock runs backwards. */
  function PersistenceTimeline(now: int, head: Option<Entry>): Timeline {
    var storage := if head.Some? && head.value.persistedAt + 1 > now then head.value.persistedAt + 1 else now;
    Timeline(storage, storage + 1, storage + 2)
  }

  function BuildEntry(v: Service, p: Prepared, generation: int, version: Text, times: Timeline): Entry
    requires |p.digest| >= 7
  {
    Entry(SubjectOf(p), p.digest, generation, RegistryUri(p.digest), ObjectKey(p.digest), version, times.artifact,
          v.storageRef(v.identity, ObjectKey(p.digest), version, p.digest), p.supersedes)
  }

  function BuildReceipt(v: Service, p: Prepared, version: Text, times: Timeline, prior: Option<ReceiptRow>): ReceiptRow
    requires |p.digest| >= 7 && forall b :: IsDigest(v.receiptHash(b))
  {
    var body :=
      ReceiptBody(ReceiptId(v, p.digest), SubjectOf(p), p.digest, RegistryUri(p.digest), v.identity, v.implementation,
                            v.storageRef(v.identity, ObjectKey(p.digest), version, p.digest), times.storage,
                            if prior.Some? then Some(RefOfRow(prior.value)) else None);
    var digest := v.receiptHash(body);
    assert IsDigest(digest);
    var uri := ReceiptUri(v, p.digest, digest);
    ReceiptRow(Receipt(body, digest, uri, times.receipt), times.receipt, digest, body.receiptId, uri)
  }

  datatype Phase = Arrived
                 | Absent
                 | HeadRead(head: Option<Entry>)
                 | ObjectAbsent(head: Option<Entry>)
                 | Bound(head: Option<Entry>, version: Text)
                 | Timed(times: Timeline, version: Text)
                 | Inserting(times: Timeline, version: Text, generation: int, prior: Option<ReceiptRow>)
                 | Raced
                 | Created
                 | Done(result: Result<Registered, Error>)

  /** A call remembers the request it was made with. */
  datatype Call = Call(raw: seq<Byte>, phase: Phase)

  datatype System = System(db: Db, objects: Objects, calls: map<Pid, Call>)

  const EMPTY := System(Db(map[], map[]), Objects(map[], map[]), map[])

  function Request(v: Service, raw: seq<Byte>): Result<Prepared, Error> {
    PrepareRegistration(v.rules, raw, true)
  }

  datatype Event =
    | Arrive(pid: Pid, raw: seq<Byte>)
    | LookUp(pid: Pid)
    | ReadHead(pid: Pid, head: Option<Text>)
    | GetObject(pid: Pid)
    | PutObject(pid: Pid, version: Text)
    | ReadClock(pid: Pid, now: int)
    | OpenInsert(pid: Pid, head: Option<Text>)
    | CommitInsert(pid: Pid)
    | Resolve(pid: Pid)
    | Report(pid: Pid)

  predicate At(v: Service, s: System, pid: Pid) {
    pid in s.calls && Request(v, s.calls[pid].raw).Ok?
  }

  function Move(s: System, pid: Pid, phase: Phase): System
    requires pid in s.calls
  {
    s.(calls := s.calls[pid := s.calls[pid].(phase := phase)])
  }

  function HeadEntry(db: Db, head: Option<Text>): Option<Entry> {
    if head.Some? then Get(db.entries, head.value) else None
  }

  /** The unique keys of both tables. */
  predicate Insertable(db: Db, e: Entry, r: ReceiptRow) {
    && e.digest !in db.entries && e.digest !in db.receipts
    && (forall d :: d in db.entries ==> db.entries[d].subject != e.subject || db.entries[d].generation != e.generation)
    && (e.supersedes.Some? ==>
          forall d :: d in db.entries && db.entries[d].supersedes.Some? ==>
            db.entries[d].supersedes.value.uri != e.supersedes.value.uri)
    && (forall d :: d in db.receipts ==>
          db.receipts[d].id != r.id && db.receipts[d].digest != r.digest && db.receipts[d].uri != r.uri)
  }

  /** The version the store holds as current under the content-addressed key. */
  function FindObject(v: Service, objects: Objects, digest: Text): Result<Option<Text>, Error>
    requires |digest| >= 7
  {
    var key := ObjectKey(digest);
    if key !in objects.current then Ok(None) else
      var at := ObjectVersion(key, objects.current[key]);
      if at !in objects.versions || v.rules.hash(objects.versions[at]) != digest || !ImmutableVersion(at.version)
      then Err(Integrity)
      else Ok(Some(at.version))
  }

  function Fail(s: System, pid: Pid, e: Error): System
    requires pid in s.calls
  {
    Move(s, pid, Done(Err(e)))
  }

  // ----- the steps of a call

  function LookUpStep(v: Service, s: System, pid: Pid, p: Prepared): System
    requires pid in s.calls
  {
    Move(s, pid, if p.digest in s.db.entries then Done(Reuse(v, s.db, s.objects, p)) else Absent)
  }

  function ReadHeadStep(s: System, pid: Pid, p: Prepared, head: Option<Text>): System
    requires pid in s.calls
  {
    if !SupersessionHolds(p, HeadEntry(s.db, head)) then Fail(s, pid, Conflict)
    else Move(s, pid, HeadRead(HeadEntry(s.db, head)))
  }

  function GetObjectStep(v: Service, s: System, pid: Pid, p: Prepared, head: Option<Entry>): System
    requires pid in s.calls && |p.digest| >= 7
  {
    var found := FindObject(v, s.objects, p.digest);
    if found.Err? then Fail(s, pid, found.error)
    else Move(s, pid, if found.value.None? then ObjectAbsent(head) else Bound(head, found.value.value))
  }

  /** The store accepts a new version of its own choosing; a version that is not immutable is refused by the caller. */
  function PutObjectStep(s: System, pid: Pid, p: Prepared, head: Option<Entry>, version: Text): System
    requires pid in s.calls && |p.digest| >= 7
  {
    var at := ObjectVersion(ObjectKey(p.digest), version);
    if at in s.objects.versions then s else
      var stored :=
        System(s.db, Objects(s.objects.versions[at := p.bytes], s.objects.current[at.key := version]), s.calls);
      if ImmutableVersion(version) then Move(stored, pid, Bound(head, version)) else Fail(stored, pid, Integrity)
  }

  /** What the reading half of the insert transaction comes to. */
  function BeginInsert(db: Db, p: Prepared, times: Timeline, version: Text, head: Option<Text>): Phase
    requires head.Some? ==> head.value in db.entries
  {
    if p.digest in db.entries then Raced
    else if !SupersessionHolds(p, HeadEntry(db, head)) then Done(Err(Conflict))
    else if head.Some? && head.value !in db.receipts then Done(Err(Unavailable))
    else Inserting(times, version, if head.None? then 1 else db.entries[head.value].generation + 1,
                   if head.None? then None else Some(db.receipts[head.value]))
  }

  function OpenInsertStep(s: System, pid: Pid, p: Prepared, times: Timeline, version: Text, head: Option<Text>): System
    requires pid in s.calls && (head.Some? ==> head.value in s.db.entries)
  {
    Move(s, pid, BeginInsert(s.db, p, times, version, head))
  }

  /** The writing half: both rows, or nothing when a unique key is taken. */
  ghost function InsertRows(v: Service, db: Db, p: Prepared, phase: Phase): (Db, Phase)
    requires phase.Inserting? && |p.digest| >= 7 && ValidService(v)
  {
    var row := BuildEntry(v, p, phase.generation, phase.version, phase.times);
    var receipt := BuildReceipt(v, p, phase.version, phase.times, phase.prior);
    if !Insertable(db, row, receipt) then (db, Raced)
    else (Db(db.entries[p.digest := row], db.receipts[p.digest := receipt]), Created)
  }

  ghost function CommitInsertStep(v: Service, s: System, pid: Pid, p: Prepared, phase: Phase): System
    requires pid in s.calls && phase.Inserting? && |p.digest| >= 7 && ValidService(v)
  {
    var inserted := InsertRows(v, s.db, p, phase);
    Move(System(inserted.0, s.objects, s.calls), pid, inserted.1)
  }

  /** The insert transaction when no other overtakes it. */
  ghost function InsertAlone(v: Service, db: Db, p: Prepared, times: Timeline, version: Text,
                             head: Option<Text>): (Db, Phase)
    requires ValidService(v) && |p.digest| >= 7 && (head.Some? ==> head.value in db.entries)
  {
    var begun := BeginInsert(db, p, times, version, head);
    if begun.Inserting? then InsertRows(v, db, p, begun) else (db, begun)
  }

  function ResolveStep(v: Service, s: System, pid: Pid, p: Prepared): System
    requires pid in s.calls
  {
    Move(s, pid, Done(if p.digest in s.db.entries then Reuse(v, s.db, s.objects, p) else Err(Conflict)))
  }

  /** The next state of a call that is where the event expects it; anything else changes nothing. */
  ghost function NextState(v: Service, s: System, e: Event, p: Prepared): System
    requires ValidService(v) && e.pid in s.calls && |p.digest| >= 7
  {
    var pid, phase := e.pid, s.calls[e.pid].phase;
    match e
    case LookUp(_) => if phase.Arrived? then LookUpStep(v, s, pid, p) else s
    case ReadHead(_, head) =>
      if phase.Absent? && HeadIs(s.db, SubjectOf(p), head) then ReadHeadStep(s, pid, p, head) else s
    case GetObject(_) => if phase.HeadRead? then GetObjectStep(v, s, pid, p, phase.head) else s
    case PutObject(_, version) => if phase.ObjectAbsent? then PutObjectStep(s, pid, p, phase.head, version) else s
    case ReadClock(_, now) =>
      if phase.Bound? then Move(s, pid, Timed(PersistenceTimeline(now, phase.head), phase.version)) else s
    case OpenInsert(_, head) =>
      if phase.Timed? && HeadIs(s.db, SubjectOf(p), head)
      then OpenInsertStep(s, pid, p, phase.times, phase.version, head) else s
    case CommitInsert(_) => if phase.Inserting? then CommitInsertStep(v, s, pid, p, phase) else s
    case Resolve(_) => if phase.Raced? then ResolveStep(v, s, pid, p) else s
    case Report(_) => if phase.Created? then Move(s, pid, Done(Materialize(v, s.db, s.objects, p.digest))) else s
    case Arrive(_, _) => s
  }

  lemma DigestOfRequest(v: Service, raw: seq<Byte>)
    requires Request(v, raw).Ok?
    ensures IsDigest(Request(v, raw).value.digest)
            && Request(v, raw).value.digest == v.rules.hash(Request(v, raw).value.bytes)
  {
  }

  /** A request that is refused leaves no call behind. */
  ghost function Take(v: Service, s: System, e: Event): System
    requires ValidService(v)
  {
    if e.Arrive? then
      if e.pid in s.calls || Request(v, e.raw).Err? then s else s.(calls := s.calls[e.pid := Call(e.raw, Arrived)])
    else if !At(v, s, e.pid) then s
    else
      DigestOfRequest(v, s.calls[e.pid].raw);
      NextState(v, s, e, Request(v, s.calls[e.pid].raw).value)
  }

  ghost function Run(v: Service, events: seq<Event>): System
    requires ValidService(v)
  {
    if events == [] then EMPTY else Take(v, Run(v, events[..|events| - 1]), events[|events| - 1])
  }

  /** The two tables as an object that the insert transaction adds rows to. */
  class RegistryTables {
    var entries: map<Text, Entry>
    var receipts: map<Text, ReceiptRow>

    constructor ()
      ensures Tables() == Db(map[], map[])
    {
      entries, receipts := map[], map[];
    }

    function Tables(): Db
      reads this
    {
      Db(entries, receipts)
    }

    /**
     The insert transaction, doing in a row what the state machine does in two events; `head` is
     what its query for the subject's latest generation returned.
     */
    method InsertRegistryState(v: Service, p: Prepared, version: Text, times: Timeline, head: Option<Text>)
      returns (phase: Phase)
      requires ValidService(v) && |p.digest| >= 7 && HeadIs(Tables(), SubjectOf(p), head)
      modifies this
      ensures (Tables(), phase) == InsertAlone(v, old(Tables()), p, times, version, head)
    {
      if p.digest in entries {
        return Raced;
      }
      if !SupersessionHolds(p, HeadEntry(Tables(), head)) {
        return Done(Err(Conflict));
      }
      var generation, prior := 1, None;
      if head.Some? {
        if head.value !in receipts {
          return Done(Err(Unavailable));
        }
        generation, prior := entries[head.value].generation + 1, Some(receipts[head.value]);
      }
      var row := BuildEntry(v, p, generation, version, times);
      var receipt := BuildReceipt(v, p, version, times, prior);
      if !Insertable(Tables(), row, receipt) {
        return Raced;
      }
      entries, receipts := entries[p.digest := row], receipts[p.digest := receipt];
      return Created;
    }
  }
}
