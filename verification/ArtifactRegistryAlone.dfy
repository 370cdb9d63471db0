/**
 A registration that meets nobody: after any run, what it takes to succeed, what it stores then, and with
 what it is refused otherwise.
 */
module ArtifactRegistryAlone {
  import opened Common
  import opened Unicode
  import opened JsonDictionaries
  import opened ArtifactContents
  import opened ArtifactRegistry
  import opened ArtifactRegistryRuns
  import opened ArtifactRegistryClock

  // ----- references identify digests

  lemma SameSuffix(a: Text, b: Text)
    requires IsDigest(a) && IsDigest(b) && a[7..] == b[7..]
    ensures a == b
  {
    assert a == a[..7] + a[7..] && b == b[..7] + b[7..];
    assert a[..7] == SHA256 == b[..7];
  }

  lemma SameRegistryUri(a: Text, b: Text)
    requires IsDigest(a) && IsDigest(b) && RegistryUri(a) == RegistryUri(b)
    ensures a == b
  {
    assert RegistryUri(a)[|REGISTRY|..] == a[7..] && RegistryUri(b)[|REGISTRY|..] == b[7..];
    SameSuffix(a, b);
  }

  lemma SameObjectKey(a: Text, b: Text)
    requires IsDigest(a) && IsDigest(b) && ObjectKey(a) == ObjectKey(b)
    ensures a == b
  {
    var n := |Ascii("delivery-art/sha256/")|;
    assert ObjectKey(a)[n..n + 64] == a[7..] && ObjectKey(b)[n..n + 64] == b[7..];
    SameSuffix(a, b);
  }

  lemma SameReceiptUri(v: Service, d: Text, a: Text, e: Text, b: Text)
    requires IsDigest(a) && IsDigest(b) && ReceiptUri(v, d, a) == ReceiptUri(v, e, b)
    ensures a == b
  {
    var s, t := ReceiptUri(v, d, a), ReceiptUri(v, e, b);
    assert s[|s| - 69..|s| - 5] == a[7..] && t[|t| - 69..|t| - 5] == b[7..];
    SameSuffix(a, b);
  }

  lemma SameReceiptId(v: Service, a: Text, b: Text)
    requires ReceiptId(v, a) == ReceiptId(v, b)
    ensures v.receiptToken(a) == v.receiptToken(b)
  {
    var n := |Ascii("artifact-custody-receipt:")|;
    assert ReceiptId(v, a)[n..] == v.receiptToken(a) && ReceiptId(v, b)[n..] == v.receiptToken(b);
  }

  // ----- what success takes

  /** The request supersedes the subject's latest generation, or is its first. */
  ghost predicate SupersedesHead(db: Db, p: Prepared, head: Option<Text>) {
    match head
    case None => p.supersedes.None?
    case Some(d) => d in db.entries && p.supersedes == Some(ArtifactRef(db.entries[d].uri, d))
  }

  /** A store that does not have the object gives it a version of its own. */
  predicate VersionIsNew(objects: Objects, digest: Text, version: Text)
    requires |digest| >= 7
  {
    ObjectKey(digest) in objects.current || ObjectVersion(ObjectKey(digest), version) !in objects.versions
  }

  /** The version the store has of the object, or now gives it, is a real one: neither empty nor "null". */
  predicate StorageWorks(objects: Objects, digest: Text, version: Text)
    requires |digest| >= 7
  {
    BoundVersion(objects, digest, version) !in {[], Ascii("null")}
  }

  /** The version under which the object is bound. */
  function BoundVersion(objects: Objects, digest: Text, version: Text): Text
    requires |digest| >= 7
  {
    if ObjectKey(digest) in objects.current then objects.current[ObjectKey(digest)] else version
  }

  /** No receipt made for this digest has the token or the hash of a stored one. */
  ghost predicate ReceiptIsNew(v: Service, db: Db, digest: Text) {
    && (forall d :: d in db.receipts ==> v.receiptToken(d) != v.receiptToken(digest))
    && (forall d, body: ReceiptBody ::
          d in db.receipts && body.contentDigest == digest ==> v.receiptHash(body) != db.receipts[d].digest)
  }

  lemma HoldsExactly(v: Service, db: Db, p: Prepared, head: Option<Text>)
    requires DbOk(v, db) && HeadIs(db, SubjectOf(p), head)
    ensures SupersedesHead(db, p, head) <==> SupersessionHolds(p, HeadEntry(db, head))
  {
    if head.Some? {
      assert EntryOk(v, db, head.value);
    }
  }

  /** Nobody else supersedes the head. */
  lemma HeadIsFree(v: Service, db: Db, p: Prepared, head: Text, d: Text)
    requires DbOk(v, db) && HeadIs(db, SubjectOf(p), Some(head)) && d in db.entries && db.entries[d].supersedes.Some?
    ensures db.entries[d].supersedes.value.uri != db.entries[head].uri
  {
    var ref := db.entries[d].supersedes.value;
    assert EntryOk(v, db, d) && EntryOk(v, db, head) && EntryOk(v, db, ref.digest);
    if ref.uri == db.entries[head].uri {
      SameRegistryUri(ref.digest, head);
    }
  }

  lemma ReceiptFits(v: Service, db: Db, p: Prepared, version: Text, times: Timeline, prior: Option<ReceiptRow>, d: Text)
    requires ValidService(v) && DbOk(v, db) && IsDigest(p.digest) && ReceiptIsNew(v, db, p.digest) && d in db.receipts
    ensures var r := BuildReceipt(v, p, version, times, prior);
            db.receipts[d].id != r.id && db.receipts[d].digest != r.digest && db.receipts[d].uri != r.uri
  {
    var r := BuildReceipt(v, p, version, times, prior);
    assert EntryOk(v, db, d);
    assert r.digest == v.receiptHash(r.receipt.body) && r.receipt.body.contentDigest == p.digest;
    if db.receipts[d].id == r.id {
      SameReceiptId(v, d, p.digest);
    }
    if db.receipts[d].uri == r.uri {
      SameReceiptUri(v, d, db.receipts[d].digest, p.digest, r.digest);
    }
  }

  lemma RowsFit(v: Service, db: Db, p: Prepared, head: Option<Text>, version: Text, times: Timeline,
                prior: Option<ReceiptRow>)
    requires ValidService(v) && DbOk(v, db) && IsDigest(p.digest) && p.digest !in db.entries
    requires HeadIs(db, SubjectOf(p), head) && SupersedesHead(db, p, head) && ReceiptIsNew(v, db, p.digest)
    ensures var generation := if head.None? then 1 else db.entries[head.value].generation + 1;
            Insertable(db, BuildEntry(v, p, generation, version, times), BuildReceipt(v, p, version, times, prior))
  {
    forall d | d in db.receipts
      ensures var r := BuildReceipt(v, p, version, times, prior);
              db.receipts[d].id != r.id && db.receipts[d].digest != r.digest && db.receipts[d].uri != r.uri
    {
      ReceiptFits(v, db, p, version, times, prior, d);
    }
    if head.Some? {
      forall d | d in db.entries && db.entries[d].supersedes.Some?
        ensures db.entries[d].supersedes.value.uri != db.entries[head.value].uri
      {
        HeadIsFree(v, db, p, head.value, d);
      }
    }
  }

  lemma FindsHeld(v: Service, world: set<seq<Byte>>, objects: Objects, p: Prepared)
    requires ValidService(v) && ObjectsOk(v, world, objects) && IsDigest(p.digest)
    requires ObjectKey(p.digest) in objects.current && ImmutableVersion(objects.current[ObjectKey(p.digest)])
    ensures FindObject(v, objects, p.digest) == Ok(Some(objects.current[ObjectKey(p.digest)]))
  {
    var key := ObjectKey(p.digest);
    var at := ObjectVersion(key, objects.current[key]);
    assert ObjectOk(v, world, at.key, objects.versions[at]);
    SameObjectKey(v.rules.hash(objects.versions[at]), p.digest);
  }

  // ----- the steps of the call, with nothing in between

  /** The call in a phase, next to everything else. */
  function Standing(s: System, pid: Pid, raw: seq<Byte>, phase: Phase): System {
    System(s.db, s.objects, s.calls[pid := Call(raw, phase)])
  }

  lemma LooksUp(v: Service, s: System, pid: Pid, raw: seq<Byte>, p: Prepared)
    requires ValidService(v) && |p.digest| >= 7 && p.digest !in s.db.entries
    ensures NextState(v, Standing(s, pid, raw, Arrived), Event.LookUp(pid), p) == Standing(s, pid, raw, Absent)
  {
  }

  lemma ReadsHead(v: Service, s: System, pid: Pid, raw: seq<Byte>, p: Prepared, head: Option<Text>)
    requires ValidService(v) && |p.digest| >= 7 && HeadIs(s.db, SubjectOf(p), head)
    ensures NextState(v, Standing(s, pid, raw, Absent), Event.ReadHead(pid, head), p) ==
            Standing(s, pid, raw, AfterHead(p, HeadEntry(s.db, head)))
  {
  }

  lemma GetsObject(v: Service, s: System, pid: Pid, raw: seq<Byte>, p: Prepared, head: Option<Entry>)
    requires ValidService(v) && |p.digest| >= 7 && FindObject(v, s.objects, p.digest).Ok?
    ensures var found := FindObject(v, s.objects, p.digest).value;
            NextState(v, Standing(s, pid, raw, HeadRead(head)), Event.GetObject(pid), p) ==
            Standing(s, pid, raw, if found.None? then ObjectAbsent(head) else Bound(head, found.value))
  {
  }

  /** The store with the content under its key. */
  function WithObject(s: System, p: Prepared, version: Text): System
    requires |p.digest| >= 7
  {
    var key := ObjectKey(p.digest);
    s.(objects := Objects(s.objects.versions[ObjectVersion(key, version) := p.bytes],
                          s.objects.current[key := version]))
  }

  lemma PutsObject(v: Service, s: System, pid: Pid, raw: seq<Byte>, p: Prepared, head: Option<Entry>, version: Text)
    requires ValidService(v) && |p.digest| >= 7 && ImmutableVersion(version)
    requires ObjectVersion(ObjectKey(p.digest), version) !in s.objects.versions
    ensures NextState(v, Standing(s, pid, raw, ObjectAbsent(head)), Event.PutObject(pid, version), p) ==
            Standing(WithObject(s, p, version), pid, raw, Bound(head, version))
  {
  }

  lemma ReadsTime(v: Service, s: System, pid: Pid, raw: seq<Byte>, p: Prepared, head: Option<Entry>, version: Text,
                  now: int)
    requires ValidService(v) && |p.digest| >= 7
    ensures NextState(v, Standing(s, pid, raw, Bound(head, version)), Event.ReadClock(pid, now), p) ==
            Standing(s, pid, raw, Timed(PersistenceTimeline(now, head), version))
  {
  }

  lemma OpensInsert(v: Service, s: System, pid: Pid, raw: seq<Byte>, p: Prepared, head: Option<Text>, times: Timeline,
                    version: Text)
    requires ValidService(v) && |p.digest| >= 7 && HeadIs(s.db, SubjectOf(p), head)
    ensures NextState(v, Standing(s, pid, raw, Timed(times, version)), Event.OpenInsert(pid, head), p) ==
            Standing(s, pid, raw, BeginInsert(s.db, p, times, version, head))
  {
  }

  lemma CommitsInsert(v: Service, s: System, pid: Pid, raw: seq<Byte>, p: Prepared, phase: Phase)
    requires ValidService(v) && |p.digest| >= 7 && phase.Inserting?
    requires Insertable(s.db, BuildEntry(v, p, phase.generation, phase.version, phase.times),
                        BuildReceipt(v, p, phase.version, phase.times, phase.prior))
    ensures NextState(v, Standing(s, pid, raw, phase), Event.CommitInsert(pid), p) ==
            Standing(s.(db := InsertRows(v, s.db, p, phase).0), pid, raw, Created)
  {
  }

  lemma Reports(v: Service, s: System, pid: Pid, raw: seq<Byte>, p: Prepared)
    requires ValidService(v) && |p.digest| >= 7
    ensures NextState(v, Standing(s, pid, raw, Created), Event.Report(pid), p) ==
            Standing(s, pid, raw, Done(Materialize(v, s.db, s.objects, p.digest)))
  {
  }

  // ----- the events of one call

  /** The call arrives and takes its steps, with nothing in between. */
  predicate Alone(pid: Pid, raw: seq<Byte>, events: seq<Event>) {
    && events != [] && events[0] == Event.Arrive(pid, raw)
    && forall i :: 1 <= i < |events| ==> events[i].pid == pid && !events[i].Arrive?
  }

  ghost predicate AloneTo(v: Service, earlier: seq<Event>, pid: Pid, raw: seq<Byte>, events: seq<Event>, s: System,
                          phase: Phase)
    requires ValidService(v)
  {
    Alone(pid, raw, events) && Run(v, earlier + events) == Standing(s, pid, raw, phase)
  }

  lemma AloneArrives(v: Service, earlier: seq<Event>, pid: Pid, raw: seq<Byte>)
    requires ValidService(v) && pid !in Run(v, earlier).calls && Request(v, raw).Ok?
    ensures AloneTo(v, earlier, pid, raw, [Event.Arrive(pid, raw)], Run(v, earlier), Arrived)
  {
    RunNext(v, earlier, Event.Arrive(pid, raw));
  }

  lemma TakesStep(v: Service, s: System, pid: Pid, raw: seq<Byte>, phase: Phase, p: Prepared, e: Event)
    requires ValidService(v) && Request(v, raw) == Ok(p) && |p.digest| >= 7 && e.pid == pid && !e.Arrive?
    ensures Take(v, Standing(s, pid, raw, phase), e) == NextState(v, Standing(s, pid, raw, phase), e, p)
  {
  }

  lemma AloneNext(v: Service, earlier: seq<Event>, pid: Pid, raw: seq<Byte>, events: seq<Event>, s: System,
                  phase: Phase, e: Event, t: System, next: Phase)
    requires ValidService(v) && AloneTo(v, earlier, pid, raw, events, s, phase) && e.pid == pid && !e.Arrive?
    requires Take(v, Standing(s, pid, raw, phase), e) == Standing(t, pid, raw, next)
    ensures AloneTo(v, earlier, pid, raw, events + [e], t, next)
  {
    RunNext(v, earlier + events, e);
    assert earlier + (events + [e]) == earlier + events + [e];
  }

  lemma AloneLooksUp(v: Service, earlier: seq<Event>, pid: Pid, raw: seq<Byte>, p: Prepared)
    returns (events: seq<Event>)
    requires ValidService(v) && pid !in Run(v, earlier).calls && Request(v, raw) == Ok(p) && |p.digest| >= 7
    requires p.digest !in Run(v, earlier).db.entries
    ensures |events| == 2 && AloneTo(v, earlier, pid, raw, events, Run(v, earlier), Absent)
  {
    var s := Run(v, earlier);
    events := [Event.Arrive(pid, raw)];
    AloneArrives(v, earlier, pid, raw);
    LooksUp(v, s, pid, raw, p);
    TakesStep(v, s, pid, raw, Arrived, p, Event.LookUp(pid));
    AloneNext(v, earlier, pid, raw, events, s, Arrived, Event.LookUp(pid), s, Absent);
    events := events + [Event.LookUp(pid)];
  }

  /** What a call knows once it has read the head. */
  function AfterHead(p: Prepared, head: Option<Entry>): Phase {
    if SupersessionHolds(p, head) then HeadRead(head) else Done(Err(Conflict))
  }

  /** Up to the head. */
  lemma AloneLooks(v: Service, earlier: seq<Event>, pid: Pid, raw: seq<Byte>, p: Prepared, head: Option<Text>)
    returns (events: seq<Event>)
    requires ValidService(v) && pid !in Run(v, earlier).calls && Request(v, raw) == Ok(p) && |p.digest| >= 7
    requires p.digest !in Run(v, earlier).db.entries && HeadIs(Run(v, earlier).db, SubjectOf(p), head)
    ensures |events| == 3
    ensures AloneTo(v, earlier, pid, raw, events, Run(v, earlier), AfterHead(p, HeadEntry(Run(v, earlier).db, head)))
  {
    var s := Run(v, earlier);
    events := AloneLooksUp(v, earlier, pid, raw, p);
    ReadsHead(v, s, pid, raw, p, head);
    TakesStep(v, s, pid, raw, Absent, p, Event.ReadHead(pid, head));
    AloneNext(v, earlier, pid, raw, events, s, Absent, Event.ReadHead(pid, head), s,
              AfterHead(p, HeadEntry(s.db, head)));
    events := events + [Event.ReadHead(pid, head)];
  }

  function Stored(s: System, p: Prepared, version: Text): System
    requires |p.digest| >= 7
  {
    if ObjectKey(p.digest) in s.objects.current then s else WithObject(s, p, version)
  }

  /** With the object bound, stored before or now. */
  lemma AloneStores(v: Service, world: set<seq<Byte>>, earlier: seq<Event>, pid: Pid, raw: seq<Byte>, p: Prepared,
                    given: seq<Event>, s: System, head: Option<Entry>, version: Text) returns (events: seq<Event>)
    requires ValidService(v) && ObjectsOk(v, world, s.objects) && Request(v, raw) == Ok(p) && IsDigest(p.digest)
    requires StorageWorks(s.objects, p.digest, version) && VersionIsNew(s.objects, p.digest, version)
    requires AloneTo(v, earlier, pid, raw, given, s, HeadRead(head))
    ensures |events| <= |given| + 2
    ensures AloneTo(v, earlier, pid, raw, events, Stored(s, p, version),
                    Bound(head, BoundVersion(s.objects, p.digest, version)))
  {
    var get, put := Event.GetObject(pid), Event.PutObject(pid, version);
    if ObjectKey(p.digest) in s.objects.current {
      FindsHeld(v, world, s.objects, p);
    }
    GetsObject(v, s, pid, raw, p, head);
    TakesStep(v, s, pid, raw, HeadRead(head), p, get);
    events := given + [get];
    if ObjectKey(p.digest) in s.objects.current {
      AloneNext(v, earlier, pid, raw, given, s, HeadRead(head), get, s,
                Bound(head, s.objects.current[ObjectKey(p.digest)]));
    } else {
      AloneNext(v, earlier, pid, raw, given, s, HeadRead(head), get, s, ObjectAbsent(head));
      PutsObject(v, s, pid, raw, p, head, version);
      TakesStep(v, s, pid, raw, ObjectAbsent(head), p, put);
      AloneNext(v, earlier, pid, raw, events, s, ObjectAbsent(head), put, WithObject(s, p, version),
                Bound(head, version));
      events := events + [put];
    }
  }

  /** What a version that is not a real one comes to. */
  lemma RefusesVersion(v: Service, s: System, pid: Pid, raw: seq<Byte>, p: Prepared, head: Option<Entry>, version: Text)
    requires ValidService(v) && |p.digest| >= 7 && !StorageWorks(s.objects, p.digest, version)
    requires VersionIsNew(s.objects, p.digest, version)
    ensures ObjectKey(p.digest) in s.objects.current ==>
              NextState(v, Standing(s, pid, raw, HeadRead(head)), Event.GetObject(pid), p) ==
              Standing(s, pid, raw, Done(Err(Integrity)))
    ensures ObjectKey(p.digest) !in s.objects.current ==>
              && NextState(v, Standing(s, pid, raw, HeadRead(head)), Event.GetObject(pid), p) ==
                 Standing(s, pid, raw, ObjectAbsent(head))
              && NextState(v, Standing(s, pid, raw, ObjectAbsent(head)), Event.PutObject(pid, version), p) ==
                 Standing(WithObject(s, p, version), pid, raw, Done(Err(Integrity)))
  {
  }

  lemma AloneRefused(v: Service, earlier: seq<Event>, pid: Pid, raw: seq<Byte>, p: Prepared, given: seq<Event>,
                     s: System, head: Option<Entry>, version: Text) returns (events: seq<Event>)
    requires ValidService(v) && Request(v, raw) == Ok(p) && |p.digest| >= 7
    requires !StorageWorks(s.objects, p.digest, version) && VersionIsNew(s.objects, p.digest, version)
    requires AloneTo(v, earlier, pid, raw, given, s, HeadRead(head))
    ensures |events| <= |given| + 2
    ensures AloneTo(v, earlier, pid, raw, events, Stored(s, p, version), Done(Err(Integrity)))
  {
    var get, put := Event.GetObject(pid), Event.PutObject(pid, version);
    RefusesVersion(v, s, pid, raw, p, head, version);
    TakesStep(v, s, pid, raw, HeadRead(head), p, get);
    events := given + [get];
    if ObjectKey(p.digest) in s.objects.current {
      AloneNext(v, earlier, pid, raw, given, s, HeadRead(head), get, s, Done(Err(Integrity)));
    } else {
      AloneNext(v, earlier, pid, raw, given, s, HeadRead(head), get, s, ObjectAbsent(head));
      TakesStep(v, s, pid, raw, ObjectAbsent(head), p, put);
      AloneNext(v, earlier, pid, raw, events, s, ObjectAbsent(head), put, WithObject(s, p, version),
                Done(Err(Integrity)));
      events := events + [put];
    }
  }

  /** The phase in which the transaction writes. */
  function Writing(db: Db, head: Option<Text>, now: int, version: Text): Phase
    requires head.Some? ==> head.value in db.entries && head.value in db.receipts
  {
    Inserting(PersistenceTimeline(now, HeadEntry(db, head)), version,
              if head.None? then 1 else db.entries[head.value].generation + 1,
              if head.None? then None else Some(db.receipts[head.value]))
  }

  lemma AloneOpens(v: Service, earlier: seq<Event>, pid: Pid, raw: seq<Byte>, p: Prepared, given: seq<Event>,
                   s: System, head: Option<Text>, version: Text, now: int) returns (events: seq<Event>)
    requires ValidService(v) && Request(v, raw) == Ok(p) && |p.digest| >= 7 && p.digest !in s.db.entries
    requires HeadIs(s.db, SubjectOf(p), head) && SupersessionHolds(p, HeadEntry(s.db, head))
    requires head.Some? ==> head.value in s.db.receipts
    requires AloneTo(v, earlier, pid, raw, given, s, Bound(HeadEntry(s.db, head), version))
    ensures |events| == |given| + 2 && events[|given|] == Event.ReadClock(pid, now)
    ensures AloneTo(v, earlier, pid, raw, events, s, Writing(s.db, head, now, version))
  {
    var entry, times := HeadEntry(s.db, head), PersistenceTimeline(now, HeadEntry(s.db, head));
    ReadsTime(v, s, pid, raw, p, entry, version, now);
    TakesStep(v, s, pid, raw, Bound(entry, version), p, Event.ReadClock(pid, now));
    AloneNext(v, earlier, pid, raw, given, s, Bound(entry, version), Event.ReadClock(pid, now), s,
              Timed(times, version));
    events := given + [Event.ReadClock(pid, now)];
    OpensInsert(v, s, pid, raw, p, head, times, version);
    TakesStep(v, s, pid, raw, Timed(times, version), p, Event.OpenInsert(pid, head));
    AloneNext(v, earlier, pid, raw, events, s, Timed(times, version), Event.OpenInsert(pid, head), s,
              Writing(s.db, head, now, version));
    events := events + [Event.OpenInsert(pid, head)];
  }

  lemma AloneWrites(v: Service, earlier: seq<Event>, pid: Pid, raw: seq<Byte>, p: Prepared, given: seq<Event>,
                    s: System, phase: Phase) returns (events: seq<Event>)
    requires ValidService(v) && Request(v, raw) == Ok(p) && |p.digest| >= 7 && phase.Inserting?
    requires Insertable(s.db, BuildEntry(v, p, phase.generation, phase.version, phase.times),
                        BuildReceipt(v, p, phase.version, phase.times, phase.prior))
    requires AloneTo(v, earlier, pid, raw, given, s, phase)
    ensures |events| == |given| + 2 && events[..|given|] == given
    ensures var t := s.(db := InsertRows(v, s.db, p, phase).0);
            AloneTo(v, earlier, pid, raw, events, t, Done(Materialize(v, t.db, t.objects, p.digest)))
  {
    var t := s.(db := InsertRows(v, s.db, p, phase).0);
    CommitsInsert(v, s, pid, raw, p, phase);
    TakesStep(v, s, pid, raw, phase, p, Event.CommitInsert(pid));
    AloneNext(v, earlier, pid, raw, given, s, phase, Event.CommitInsert(pid), t, Created);
    events := given + [Event.CommitInsert(pid)];
    Reports(v, t, pid, raw, p);
    TakesStep(v, t, pid, raw, Created, p, Event.Report(pid));
    AloneNext(v, earlier, pid, raw, events, t, Created, Event.Report(pid), t,
              Done(Materialize(v, t.db, t.objects, p.digest)));
    events := events + [Event.Report(pid)];
  }

  // ----- main result

  /** What a successful registration adds: one entry with its receipt, and the content among the objects. */
  ghost predicate Adds(v: Service, before: Db, after: System, p: Prepared, head: Option<Text>, now: int, r: Registered)
    requires head.Some? ==> head.value in before.entries
  {
    && p.digest in after.db.entries && p.digest in after.db.receipts
    && var e, storedAt := after.db.entries[p.digest], after.db.receipts[p.digest].receipt.body.storedAt;
    && after.db == Db(before.entries[p.digest := e], before.receipts[p.digest := after.db.receipts[p.digest]])
    && e.subject == SubjectOf(p) && e.digest == p.digest && e.supersedes == p.supersedes
    && e.generation == r.generation == (if head.None? then 1 else before.entries[head.value].generation + 1)
    && ByClock(before.entries, p.supersedes, storedAt, now) && e.persistedAt == storedAt + 2
    && after.db.receipts[p.digest].persistedAt == storedAt + 1
    && var body := after.db.receipts[p.digest].receipt.body;
    && body.identity == v.identity && body.implementation == v.implementation
    && body.subject == e.subject && body.contentDigest == p.digest && body.storageRef == e.storageRef
    && Get(after.objects.versions, ObjectVersion(e.objectKey, e.version)) == Some(p.bytes)
  }

  lemma InsertAdds(v: Service, s: System, p: Prepared, head: Option<Text>, version: Text, now: int)
    requires ValidService(v) && |p.digest| >= 7 && HeadFits(s.db, p, HeadEntry(s.db, head))
    requires head.Some? ==> head.value in s.db.entries && head.value in s.db.receipts
    requires ObjectHeld(s.objects, p, version)
    requires var phase := Writing(s.db, head, now, version);
             Insertable(s.db, BuildEntry(v, p, phase.generation, phase.version, phase.times),
                        BuildReceipt(v, p, phase.version, phase.times, phase.prior))
    ensures var t := s.(db := InsertRows(v, s.db, p, Writing(s.db, head, now, version)).0);
            forall r: Registered :: p.digest in t.db.entries && r.generation == t.db.entries[p.digest].generation ==>
              Adds(v, s.db, t, p, head, now, r)
  {
    HeadIsSuperseded(s.db.entries, p, HeadEntry(s.db, head), now, s.db.receipts);
  }

  /** The stored object stays in order, and holds the content. */
  lemma StoredHolds(v: Service, world: set<seq<Byte>>, s: System, p: Prepared, version: Text)
    requires ValidService(v) && ObjectsOk(v, world, s.objects) && CollisionFree(v, world)
    requires p.bytes in world && IsDigest(p.digest) && p.digest == v.rules.hash(p.bytes)
    requires StorageWorks(s.objects, p.digest, version)
    ensures ObjectHeld(Stored(s, p, version).objects, p, BoundVersion(s.objects, p.digest, version))
  {
    if ObjectKey(p.digest) in s.objects.current {
      FindsHeld(v, world, s.objects, p);
      FoundIsHeld(v, world, s.objects, p);
    }
  }

  /** Up to the bound object. */
  lemma AloneBinds(v: Service, world: set<seq<Byte>>, earlier: seq<Event>, pid: Pid, raw: seq<Byte>, p: Prepared,
                   head: Option<Text>, version: Text) returns (events: seq<Event>)
    requires ValidService(v) && ObjectsOk(v, world, Run(v, earlier).objects)
    requires pid !in Run(v, earlier).calls && Request(v, raw) == Ok(p) && IsDigest(p.digest)
    requires p.digest !in Run(v, earlier).db.entries && HeadIs(Run(v, earlier).db, SubjectOf(p), head)
    requires StorageWorks(Run(v, earlier).objects, p.digest, version)
    requires VersionIsNew(Run(v, earlier).objects, p.digest, version)
    requires SupersessionHolds(p, HeadEntry(Run(v, earlier).db, head))
    ensures |events| <= 5
    ensures var s := Run(v, earlier);
            AloneTo(v, earlier, pid, raw, events, Stored(s, p, version),
                    Bound(HeadEntry(s.db, head), BoundVersion(s.objects, p.digest, version)))
  {
    var s := Run(v, earlier);
    events := AloneLooks(v, earlier, pid, raw, p, head);
    events := AloneStores(v, world, earlier, pid, raw, p, events, s, HeadEntry(s.db, head), version);
  }

  /** A request that supersedes the head meets no taken key. */
  lemma ReadyToWrite(v: Service, db: Db, p: Prepared, head: Option<Text>, version: Text, now: int)
    requires ValidService(v) && DbOk(v, db) && IsDigest(p.digest) && p.digest !in db.entries
    requires HeadIs(db, SubjectOf(p), head) && ReceiptIsNew(v, db, p.digest) && SupersedesHead(db, p, head)
    ensures SupersessionHolds(p, HeadEntry(db, head)) && HeadFits(db, p, HeadEntry(db, head))
    ensures head.Some? ==> head.value in db.entries && head.value in db.receipts
    ensures var phase := Writing(db, head, now, version);
            Insertable(db, BuildEntry(v, p, phase.generation, phase.version, phase.times),
                       BuildReceipt(v, p, phase.version, phase.times, phase.prior))
  {
    HoldsExactly(v, db, p, head);
    HeadReadFits(v, db, p, head);
    if head.Some? {
      assert EntryOk(v, db, head.value);
    }
    var phase := Writing(db, head, now, version);
    RowsFit(v, db, p, head, version, phase.times, phase.prior);
  }

  /** And from there to the end. */
  lemma AloneInserts(v: Service, earlier: seq<Event>, pid: Pid, raw: seq<Byte>, p: Prepared, given: seq<Event>,
                     o: System, head: Option<Text>, version: Text, now: int) returns (events: seq<Event>, t: System)
    requires ValidService(v) && DbOk(v, o.db) && Request(v, raw) == Ok(p) && IsDigest(p.digest)
    requires p.digest !in o.db.entries && HeadIs(o.db, SubjectOf(p), head) && ReceiptIsNew(v, o.db, p.digest)
    requires SupersedesHead(o.db, p, head) && ObjectHeld(o.objects, p, version)
    requires AloneTo(v, earlier, pid, raw, given, o, Bound(HeadEntry(o.db, head), version))
    ensures |events| <= |given| + 4 && p.digest in t.db.entries && t.calls == o.calls
    ensures AloneTo(v, earlier, pid, raw, events, t, Done(Materialize(v, t.db, t.objects, p.digest)))
    ensures forall r: Registered :: r.generation == t.db.entries[p.digest].generation ==>
              Adds(v, o.db, t, p, head, now, r)
  {
    ReadyToWrite(v, o.db, p, head, version, now);
    events := AloneOpens(v, earlier, pid, raw, p, given, o, head, version, now);
    events, t := AloneEnds(v, earlier, pid, raw, p, events, o, head, version, now);
  }

  lemma AloneEnds(v: Service, earlier: seq<Event>, pid: Pid, raw: seq<Byte>, p: Prepared, given: seq<Event>,
                  o: System, head: Option<Text>, version: Text, now: int) returns (events: seq<Event>, t: System)
    requires ValidService(v) && Request(v, raw) == Ok(p) && |p.digest| >= 7
    requires HeadFits(o.db, p, HeadEntry(o.db, head)) && ObjectHeld(o.objects, p, version)
    requires head.Some? ==> head.value in o.db.entries && head.value in o.db.receipts
    requires var phase := Writing(o.db, head, now, version);
             Insertable(o.db, BuildEntry(v, p, phase.generation, phase.version, phase.times),
                        BuildReceipt(v, p, phase.version, phase.times, phase.prior))
    requires AloneTo(v, earlier, pid, raw, given, o, Writing(o.db, head, now, version))
    ensures |events| <= |given| + 2 && p.digest in t.db.entries && t.calls == o.calls
    ensures AloneTo(v, earlier, pid, raw, events, t, Done(Materialize(v, t.db, t.objects, p.digest)))
    ensures forall r: Registered :: r.generation == t.db.entries[p.digest].generation ==>
              Adds(v, o.db, t, p, head, now, r)
  {
    var phase := Writing(o.db, head, now, version);
    events := AloneWrites(v, earlier, pid, raw, p, given, o, phase);
    t := o.(db := InsertRows(v, o.db, p, phase).0);
    InsertAdds(v, o, p, head, version, now);
  }

  lemma AloneRegisters(v: Service, world: set<seq<Byte>>, earlier: seq<Event>, pid: Pid, raw: seq<Byte>, p: Prepared,
                       head: Option<Text>, version: Text, now: int) returns (events: seq<Event>, t: System)
    requires ValidService(v) && CollisionFree(v, world) && Sound(v, world, Run(v, earlier))
    requires pid !in Run(v, earlier).calls && Request(v, raw) == Ok(p) && p.bytes in world && IsDigest(p.digest)
    requires p.digest == v.rules.hash(p.bytes)
    requires p.digest !in Run(v, earlier).db.entries && HeadIs(Run(v, earlier).db, SubjectOf(p), head)
    requires StorageWorks(Run(v, earlier).objects, p.digest, version)
    requires VersionIsNew(Run(v, earlier).objects, p.digest, version) && ReceiptIsNew(v, Run(v, earlier).db, p.digest)
    requires SupersedesHead(Run(v, earlier).db, p, head)
    ensures |events| <= 9 && p.digest in t.db.entries && t.calls == Run(v, earlier).calls
    ensures AloneTo(v, earlier, pid, raw, events, t, Done(Materialize(v, t.db, t.objects, p.digest)))
    ensures forall r: Registered :: r.generation == t.db.entries[p.digest].generation ==>
              Adds(v, Run(v, earlier).db, t, p, head, now, r)
  {
    var s := Run(v, earlier);
    HoldsExactly(v, s.db, p, head);
    events := AloneBinds(v, world, earlier, pid, raw, p, head, version);
    StoredHolds(v, world, s, p, version);
    var o := Stored(s, p, version);
    events, t :=
      AloneInserts(v, earlier, pid, raw, p, events, o, head, BoundVersion(s.objects, p.digest, version), now);
  }

  ghost predicate EventWithin(v: Service, world: set<seq<Byte>>, e: Event) {
    e.Arrive? && Request(v, e.raw).Ok? ==> Request(v, e.raw).value.bytes in world
  }

  lemma WithinIs(v: Service, world: set<seq<Byte>>, events: seq<Event>)
    ensures Within(v, world, events) <==> forall i :: 0 <= i < |events| ==> EventWithin(v, world, events[i])
  {
  }

  lemma WithinJoined(v: Service, world: set<seq<Byte>>, a: seq<Event>, b: seq<Event>)
    requires forall i :: 0 <= i < |a| ==> EventWithin(v, world, a[i])
    requires forall i :: 0 <= i < |b| ==> EventWithin(v, world, b[i])
    ensures forall i :: 0 <= i < |a + b| ==> EventWithin(v, world, (a + b)[i])
  {
  }

  lemma AloneWithin(v: Service, world: set<seq<Byte>>, pid: Pid, raw: seq<Byte>, events: seq<Event>)
    requires Alone(pid, raw, events) && (Request(v, raw).Ok? ==> Request(v, raw).value.bytes in world)
    ensures forall i :: 0 <= i < |events| ==> EventWithin(v, world, events[i])
  {
    assert events[0].raw == raw;
  }

  lemma WithinMore(v: Service, world: set<seq<Byte>>, earlier: seq<Event>, pid: Pid, raw: seq<Byte>, events: seq<Event>)
    requires Within(v, world, earlier) && Alone(pid, raw, events)
    requires Request(v, raw).Ok? ==> Request(v, raw).value.bytes in world
    ensures Within(v, world, earlier + events)
  {
    WithinIs(v, world, earlier);
    AloneWithin(v, world, pid, raw, events);
    WithinJoined(v, world, earlier, events);
    WithinIs(v, world, earlier + events);
  }

  lemma AloneReads(v: Service, world: set<seq<Byte>>, earlier: seq<Event>, pid: Pid, raw: seq<Byte>, p: Prepared,
                   events: seq<Event>)
    requires ValidService(v) && CollisionFree(v, world) && Within(v, world, earlier) && Alone(pid, raw, events)
    requires Request(v, raw) == Ok(p) && p.bytes in world && p.digest in Run(v, earlier + events).db.entries
    ensures var t := Run(v, earlier + events);
            var r := Materialize(v, t.db, t.objects, p.digest);
            r.Ok? && r.value.generation == t.db.entries[p.digest].generation
  {
    WithinMore(v, world, earlier, pid, raw, events);
    RunSound(v, world, earlier + events);
    EntryReads(v, world, Run(v, earlier + events), p.digest);
  }

  /** Up to a conflict with the head or a version that is refused. */
  lemma AloneFails(v: Service, earlier: seq<Event>, pid: Pid, raw: seq<Byte>, p: Prepared, head: Option<Text>,
                   version: Text) returns (events: seq<Event>)
    requires ValidService(v) && DbOk(v, Run(v, earlier).db)
    requires pid !in Run(v, earlier).calls && Request(v, raw) == Ok(p) && |p.digest| >= 7
    requires p.digest !in Run(v, earlier).db.entries && HeadIs(Run(v, earlier).db, SubjectOf(p), head)
    requires VersionIsNew(Run(v, earlier).objects, p.digest, version)
    requires !(SupersedesHead(Run(v, earlier).db, p, head) && StorageWorks(Run(v, earlier).objects, p.digest, version))
    ensures |events| <= 5
    ensures var s := Run(v, earlier);
            if SupersedesHead(s.db, p, head)
            then AloneTo(v, earlier, pid, raw, events, Stored(s, p, version), Done(Err(Integrity)))
            else AloneTo(v, earlier, pid, raw, events, s, Done(Err(Conflict)))
  {
    var s := Run(v, earlier);
    HoldsExactly(v, s.db, p, head);
    events := AloneLooks(v, earlier, pid, raw, p, head);
    if SupersedesHead(s.db, p, head) {
      events := AloneRefused(v, earlier, pid, raw, p, events, s, HeadEntry(s.db, head), version);
    }
  }

  /**
   After any run, a call with an accepted request for a digest not yet registered, which meets nobody, ends in
   at most eight steps. It registers the next generation exactly when the request supersedes the subject's head
   and the object has a real version. Otherwise it ends in a conflict or an integrity error and adds no row.
   */
  lemma RegistersExactly(v: Service, world: set<seq<Byte>>, earlier: seq<Event>, pid: Pid, raw: seq<Byte>, p: Prepared,
                         head: Option<Text>, version: Text, now: int) returns (events: seq<Event>)
    requires ValidService(v) && CollisionFree(v, world) && Within(v, world, earlier)
    requires pid !in Run(v, earlier).calls && Request(v, raw) == Ok(p) && p.bytes in world && |p.digest| >= 7
    requires p.digest !in Run(v, earlier).db.entries && HeadIs(Run(v, earlier).db, SubjectOf(p), head)
    requires VersionIsNew(Run(v, earlier).objects, p.digest, version) && ReceiptIsNew(v, Run(v, earlier).db, p.digest)
    ensures |events| <= 9 && Alone(pid, raw, events)
    ensures var s, t := Run(v, earlier), Run(v, earlier + events);
            && pid in t.calls && t.calls[pid].phase.Done? && t.calls == s.calls[pid := t.calls[pid]]
            && if !SupersedesHead(s.db, p, head) then
                 t.calls[pid].phase.result == Err(Conflict) && t.db == s.db && t.objects == s.objects
               else if !StorageWorks(s.objects, p.digest, version) then
                 t.calls[pid].phase.result == Err(Integrity) && t.db == s.db
               else t.calls[pid].phase.result.Ok? && Adds(v, s.db, t, p, head, now, t.calls[pid].phase.result.value)
  {
    var s := Run(v, earlier);
    RunSound(v, world, earlier);
    DigestOfRequest(v, raw);
    if SupersedesHead(s.db, p, head) && StorageWorks(s.objects, p.digest, version) {
      var t;
      events, t := AloneRegisters(v, world, earlier, pid, raw, p, head, version, now);
      AloneReads(v, world, earlier, pid, raw, p, events);
    } else {
      events := AloneFails(v, earlier, pid, raw, p, head, version);
    }
  }

  lemma FindsRow(v: Service, s: System, pid: Pid, raw: seq<Byte>, p: Prepared)
    requires ValidService(v) && |p.digest| >= 7 && p.digest in s.db.entries
    ensures NextState(v, Standing(s, pid, raw, Arrived), Event.LookUp(pid), p) ==
            Standing(s, pid, raw, Done(Reuse(v, s.db, s.objects, p)))
  {
  }

  /** After any run, a request for a registered digest is answered at its lookup with what is registered. */
  lemma AnswersAgain(v: Service, world: set<seq<Byte>>, earlier: seq<Event>, pid: Pid, raw: seq<Byte>, p: Prepared)
    requires ValidService(v) && CollisionFree(v, world) && Within(v, world, earlier)
    requires pid !in Run(v, earlier).calls && Request(v, raw) == Ok(p) && p.bytes in world && |p.digest| >= 7
    requires p.digest in Run(v, earlier).db.entries
    ensures var s := Run(v, earlier);
            var t := Run(v, earlier + [Event.Arrive(pid, raw), Event.LookUp(pid)]);
            && Materialize(v, s.db, s.objects, p.digest).Ok?
            && t == Standing(s, pid, raw, Done(Materialize(v, s.db, s.objects, p.digest)))
  {
    var s, arrive, look := Run(v, earlier), Event.Arrive(pid, raw), Event.LookUp(pid);
    AloneArrives(v, earlier, pid, raw);
    FindsRow(v, s, pid, raw, p);
    TakesStep(v, s, pid, raw, Arrived, p, look);
    AlreadyRegistered(v, world, earlier, raw);
    AloneNext(v, earlier, pid, raw, [arrive], s, Arrived, look, s, Done(Reuse(v, s.db, s.objects, p)));
    assert [arrive] + [look] == [arrive, look];
  }
}
