/** Every interleaving of commits: what each reachable database satisfies and what never changes. */
module InstanceRecordRuns {
  import opened Common
  import opened InstanceRecords

  /**
   A commit looks up its operation, then reads the row and prepares, then writes or is abandoned, with
   any number of others at work in between. The policy's answer is whatever the step says it was.
   */
  datatype Step =
    | StartCommit(flight: nat, command: Command, actor: Name)
    | PrepareCommit(flight: nat, answer: Result<Evidence, Error>, now: int)
    | FinishCommit(flight: nat)
    | Abandon(flight: nat)

  /** A commit that has found its key free, or has its write ready. */
  datatype Flight = Looked(command: Command, actor: Name) | Prepared(write: Write)

  datatype System = System(db: Db, flights: map<nat, Flight>)

  const EMPTY: System := System(Db(map[], map[], map[]), map[])

  function PrepareWith(db: Db, c: Command, actor: Name, answer: Result<Evidence, Error>, now: int): Begun {
    Prepare(db, c, actor, (_, _, _) => answer, now)
  }

  /** The flight goes on with what it prepared, or is over. */
  function Proceed(s: System, flight: nat, begun: Begun): System {
    match begun
    case Ready(w) => System(s.db, s.flights[flight := Prepared(w)])
    case Finished(_) => s.(flights := s.flights - {flight})
  }

  function Take(s: System, step: Step): System {
    match step
    case StartCommit(flight, c, actor) =>
      if flight in s.flights || KnownOutcome(s.db, c, actor).Some? then s
      else System(s.db, s.flights[flight := Looked(c, actor)])
    case PrepareCommit(flight, answer, now) =>
      if flight !in s.flights || !s.flights[flight].Looked? then s else
        Proceed(s, flight, PrepareWith(s.db, s.flights[flight].command, s.flights[flight].actor, answer, now))
    case FinishCommit(flight) =>
      if flight !in s.flights || !s.flights[flight].Prepared? then s else
        (match Finish(s.db, s.flights[flight].write)
         case Committed(db) => System(db, s.flights - {flight})
         case _ => s.(flights := s.flights - {flight}))
    case Abandon(flight) => s.(flights := s.flights - {flight})
  }

  function Run(s: System, steps: seq<Step>): System {
    if steps == [] then s else Take(Run(s, steps[..|steps| - 1]), steps[|steps| - 1])
  }

  // ----- the invariant

  ghost predicate RowIntact(db: Db, key: RecordKey)
    requires key in db.records
  {
    var row := db.records[key];
    && row.version >= 1
    && (forall v :: 1 <= v <= row.version ==> RevisionKey(key, v) in db.revisions)
    && row.value == db.revisions[RevisionKey(key, row.version)].value
    && row.digest == OfValue(row.value)
  }

  function OperationOf(db: Db, key: RevisionKey): OperationKey
    requires key in db.revisions
  {
    OperationKey(key.record.instance, db.revisions[key].receipt.body.key)
  }

  function RevisionOf(db: Db, key: OperationKey): RevisionKey
    requires key in db.operations
  {
    var op := db.operations[key];
    RevisionKey(RecordKey(key.instance, op.command.record), op.outcome.receipt.body.version)
  }

  /** What the preceding version left behind. */
  function Preceding(db: Db, key: RevisionKey): Option<Stamp> {
    var before := RevisionKey(key.record, key.version - 1);
    if before in db.revisions then Some(Stamp(before.version, OfValue(db.revisions[before].value))) else None
  }

  ghost predicate RevisionIntact(db: Db, key: RevisionKey)
    requires key in db.revisions
  {
    var revision := db.revisions[key];
    && key.record in db.records
    && 1 <= key.version <= db.records[key.record].version
    && ReadRevision(key, revision) == Ok(Outcome(revision.value, revision.receipt))
    && revision.receipt.body.previous == Preceding(db, key)
    && ProviderOf(revision.value) == Ok(db.records[key.record].provider)
    && OperationOf(db, key) in db.operations
    && db.operations[OperationOf(db, key)].outcome == Outcome(revision.value, revision.receipt)
    && db.operations[OperationOf(db, key)].command.record == key.record.record
  }

  /** An operation carries its own command, caller and outcome, and its outcome is the revision it names. */
  ghost predicate OperationIntact(db: Db, key: OperationKey)
    requires key in db.operations
  {
    var op := db.operations[key];
    var body := op.outcome.receipt.body;
    && op.commandDigest == OfCommand(op.command) == body.commandDigest
    && op.command.instance == key.instance && op.command.key == key.key == body.key
    && op.actor == body.actor && op.aiDecision == body.evidence.aiDecision
    && op.outcome.value == op.command.value && body.previous == op.command.expected
    && RevisionOf(db, key) in db.revisions
    && db.revisions[RevisionOf(db, key)] == Revision(op.outcome.value, op.outcome.receipt)
  }

  ghost predicate ProvidersUnshared(db: Db) {
    forall a, b ::
      a in db.records && b in db.records && a != b && a.instance == b.instance && db.records[a].provider.Some? ==>
      db.records[a].provider != db.records[b].provider
  }

  ghost predicate Intact(db: Db) {
    && (forall key :: key in db.records ==> RowIntact(db, key))
    && (forall key :: key in db.revisions ==> RevisionIntact(db, key))
    && (forall key :: key in db.operations ==> OperationIntact(db, key))
    && ProvidersUnshared(db)
  }

  /** A prepared write is consistent in itself, and its base row may only have moved forward since. */
  ghost predicate WriteIntact(db: Db, w: Write) {
    var c := w.operation.command;
    && w ==
    BuildWrite(c, w.operation.actor, w.version, w.provider, w.revision.receipt.body.acceptedAt,
               w.revision.receipt.body.evidence)
    && ProviderOf(c.value) == Ok(w.provider)
    && match w.expected
       case None => w.version == 1
       case Some(stamp) =>
         && w.version == stamp.version + 1 && stamp.version >= 1
         && w.key in db.records && db.records[w.key].provider == w.provider
  }

  ghost predicate FlightIntact(db: Db, f: Flight) {
    match f
    case Looked(c, _) => ValidCommand(c)
    case Prepared(w) => WriteIntact(db, w)
  }

  ghost predicate SystemIntact(s: System) {
    Intact(s.db) && forall flight :: flight in s.flights ==> FlightIntact(s.db, s.flights[flight])
  }

  /** Nothing stored is ever lost or altered; rows only move to higher versions and keep their provider. */
  ghost predicate Grows(before: Db, after: Db) {
    && (forall key :: key in before.revisions ==>
          key in after.revisions && after.revisions[key] == before.revisions[key])
    && (forall key :: key in before.operations ==>
          key in after.operations && after.operations[key] == before.operations[key])
    && (forall key :: key in before.records ==>
          && key in after.records
          && after.records[key].version >= before.records[key].version
          && after.records[key].provider == before.records[key].provider)
  }

  // ----- one write

  /** What a prepared write carries, whatever the database. */
  ghost predicate WriteShape(w: Write) {
    var body, op := w.revision.receipt.body, w.operation;
    && ReadRevision(RevisionKey(w.key, w.version), w.revision) == Ok(Outcome(w.revision.value, w.revision.receipt))
    && ProviderOf(w.revision.value) == Ok(w.provider)
    && body.previous == w.expected == op.command.expected && body.key == w.opKey.key
    && w.opKey.instance == w.key.instance
    && op.outcome == Outcome(w.revision.value, w.revision.receipt) && op.command.value == w.revision.value
    && op.commandDigest == OfCommand(op.command) == body.commandDigest
    && op.command.instance == w.opKey.instance && op.command.key == w.opKey.key && op.command.record == w.key.record
    && op.actor == body.actor && op.aiDecision == body.evidence.aiDecision
  }

  /** The write appends the next version of its record. */
  ghost predicate Appends(db: Db, w: Write, after: Db) {
    && WriteShape(w)
    && after.records == db.records[w.key := Row(w.version, OfValue(w.revision.value), w.provider, w.revision.value)]
    && after.revisions == db.revisions[RevisionKey(w.key, w.version) := w.revision]
    && after.operations == db.operations[w.opKey := w.operation]
    && RevisionKey(w.key, w.version) !in db.revisions && w.opKey !in db.operations
    && if w.expected == None then w.key !in db.records && w.version == 1 else
         && w.key in db.records && w.version == db.records[w.key].version + 1
         && db.records[w.key].provider == w.provider
         && w.expected == Some(Stamp(db.records[w.key].version, db.records[w.key].digest))
  }

  /** A write that passes its checks appends the next version of its record. */
  lemma FinishAppends(db: Db, w: Write, after: Db)
    requires WriteIntact(db, w) && Finish(db, w) == Committed(after)
    ensures Appends(db, w, after)
    ensures w.expected == None ==> ProviderFree(db, w.key, w.provider)
  {
  }

  lemma WriteGrows(db: Db, w: Write, after: Db)
    requires Appends(db, w, after)
    ensures Grows(db, after)
  {
  }

  lemma NewRevisionIntact(db: Db, w: Write, after: Db)
    requires Appends(db, w, after)
    requires w.key in db.records ==> RowIntact(db, w.key)
    requires RevisionKey(w.key, w.version - 1) in db.revisions ==> RevisionIntact(db, RevisionKey(w.key, w.version - 1))
    ensures RevisionIntact(after, RevisionKey(w.key, w.version))
  {
    var before := RevisionKey(w.key, w.version - 1);
    assert before in db.revisions <==> w.expected != None;
  }

  lemma OldRevisionIntact(db: Db, w: Write, after: Db, key: RevisionKey)
    requires Appends(db, w, after) && key in db.revisions && RevisionIntact(db, key)
    ensures RevisionIntact(after, key)
  {
    var before := RevisionKey(key.record, key.version - 1);
    assert before != RevisionKey(w.key, w.version);
    assert Preceding(after, key) == Preceding(db, key);
    assert OperationOf(after, key) == OperationOf(db, key) != w.opKey;
  }

  lemma WriteKeepsRow(db: Db, w: Write, after: Db, key: RecordKey)
    requires Appends(db, w, after) && key in after.records
    requires key in db.records ==> RowIntact(db, key)
    ensures RowIntact(after, key)
  {
    var row := after.records[key];
    forall v | 1 <= v <= row.version
      ensures RevisionKey(key, v) in after.revisions
    {
      if key in db.records && v <= db.records[key].version {
        assert RevisionKey(key, v) in db.revisions;
      }
    }
  }

  lemma WriteKeepsOperation(db: Db, w: Write, after: Db, key: OperationKey)
    requires Appends(db, w, after) && key in after.operations
    requires key in db.operations ==> OperationIntact(db, key)
    ensures OperationIntact(after, key)
  {
  }

  lemma WriteKeepsProviders(db: Db, w: Write, after: Db)
    requires Appends(db, w, after) && ProvidersUnshared(db)
    requires w.expected == None ==> ProviderFree(db, w.key, w.provider)
    ensures ProvidersUnshared(after)
  {
    forall a, b | a in after.records && b in after.records && a != b && a.instance == b.instance
                  && after.records[a].provider.Some?
      ensures after.records[a].provider != after.records[b].provider
    {
      if a != w.key && b != w.key {
        assert a in db.records && b in db.records;
      } else {
        var other := if a == w.key then b else a;
        assert other in db.records;
        if after.records[other].provider == w.provider {
          assert w.expected != None && db.records[w.key].provider == w.provider;
        }
      }
    }
  }

  lemma WriteKeepsIntact(db: Db, w: Write, after: Db)
    requires Intact(db) && Appends(db, w, after)
    requires w.expected == None ==> ProviderFree(db, w.key, w.provider)
    ensures Intact(after)
  {
    forall key | key in after.records
      ensures RowIntact(after, key)
    {
      WriteKeepsRow(db, w, after, key);
    }
    forall key | key in after.revisions
      ensures RevisionIntact(after, key)
    {
      if key in db.revisions {
        OldRevisionIntact(db, w, after, key);
      } else {
        NewRevisionIntact(db, w, after);
      }
    }
    forall key | key in after.operations
      ensures OperationIntact(after, key)
    {
      WriteKeepsOperation(db, w, after, key);
    }
    WriteKeepsProviders(db, w, after);
  }

  // ----- one step, any run

  /** What a commit has established when it comes to write. */
  lemma PrepareEstablishes(db: Db, c: Command, actor: Name,
                           validate: (Command, Option<Outcome>, Name) -> Result<Evidence, Error>, now: int)
    returns (version: int, provider: Option<Provider>, evidence: Evidence)
    requires Prepare(db, c, actor, validate, now).Ready?
    ensures Prepare(db, c, actor, validate, now).write == BuildWrite(c, actor, version, provider, now, evidence)
    ensures c.expected == Observed(db, RecordKey(c.instance, c.record)) && ProviderOf(c.value) == Ok(provider)
    ensures var key := RecordKey(c.instance, c.record);
            if key in db.records
            then version == db.records[key].version + 1 && provider == db.records[key].provider
            else version == 1
    ensures Current(db, RecordKey(c.instance, c.record)).Ok?
    ensures validate(c, Current(db, RecordKey(c.instance, c.record)).value, actor) == Ok(evidence)
  {
    var key := RecordKey(c.instance, c.record);
    version := if key in db.records then db.records[key].version + 1 else 1;
    provider := ProviderOf(c.value).value;
    evidence := validate(c, Current(db, key).value, actor).value;
  }

  lemma BuiltIsIntact(db: Db, c: Command, actor: Name, version: int, provider: Option<Provider>, now: int,
                      evidence: Evidence)
    requires c.expected == Observed(db, RecordKey(c.instance, c.record)) && ProviderOf(c.value) == Ok(provider)
    requires var key := RecordKey(c.instance, c.record);
             if key in db.records
             then version == db.records[key].version + 1 >= 2 && provider == db.records[key].provider else version == 1
    ensures WriteIntact(db, BuildWrite(c, actor, version, provider, now, evidence))
  {
  }

  lemma PreparedIsIntact(db: Db, c: Command, actor: Name, answer: Result<Evidence, Error>, now: int)
    requires Intact(db) && PrepareWith(db, c, actor, answer, now).Ready?
    ensures WriteIntact(db, PrepareWith(db, c, actor, answer, now).write)
  {
    var key := RecordKey(c.instance, c.record);
    if key in db.records {
      assert RowIntact(db, key);
    }
    var version, provider, evidence := PrepareEstablishes(db, c, actor, (_, _, _) => answer, now);
    BuiltIsIntact(db, c, actor, version, provider, now, evidence);
  }

  lemma FlightsSurviveGrowth(before: Db, after: Db, f: Flight)
    requires FlightIntact(before, f) && Grows(before, after)
    ensures FlightIntact(after, f)
  {
  }

  lemma FinishKeeps(s: System, flight: nat)
    requires SystemIntact(s)
    ensures SystemIntact(Take(s, FinishCommit(flight))) && Grows(s.db, Take(s, FinishCommit(flight)).db)
  {
    if flight in s.flights && s.flights[flight].Prepared? && Finish(s.db, s.flights[flight].write).Committed? {
      var w := s.flights[flight].write;
      var after := Finish(s.db, w).db;
      FinishAppends(s.db, w, after);
      WriteKeepsIntact(s.db, w, after);
      WriteGrows(s.db, w, after);
      forall other | other in s.flights - {flight}
        ensures FlightIntact(after, s.flights[other])
      {
        FlightsSurviveGrowth(s.db, after, s.flights[other]);
      }
    }
  }

  lemma AddFlight(s: System, flight: nat, f: Flight)
    requires SystemIntact(s) && FlightIntact(s.db, f)
    ensures SystemIntact(System(s.db, s.flights[flight := f]))
  {
  }

  lemma PrepareKeeps(s: System, flight: nat, c: Command, actor: Name, answer: Result<Evidence, Error>, now: int)
    requires SystemIntact(s)
    ensures SystemIntact(Proceed(s, flight, PrepareWith(s.db, c, actor, answer, now)))
  {
    var begun := PrepareWith(s.db, c, actor, answer, now);
    if begun.Ready? {
      PreparedIsIntact(s.db, c, actor, answer, now);
      AddFlight(s, flight, Prepared(begun.write));
    }
  }

  /** Each step keeps the invariant and loses nothing. */
  lemma StepKeeps(s: System, step: Step)
    requires SystemIntact(s)
    ensures SystemIntact(Take(s, step)) && Grows(s.db, Take(s, step).db)
  {
    match step {
      case StartCommit(flight, c, actor) =>
      case PrepareCommit(flight, answer, now) =>
        if flight in s.flights && s.flights[flight].Looked? {
          PrepareKeeps(s, flight, s.flights[flight].command, s.flights[flight].actor, answer, now);
        }
      case FinishCommit(flight) => FinishKeeps(s, flight);
      case Abandon(flight) =>
    }
  }

  lemma {:induction false} RunKeeps(s: System, steps: seq<Step>)
    requires SystemIntact(s)
    ensures SystemIntact(Run(s, steps)) && Grows(s.db, Run(s, steps).db)
    decreases |steps|
  {
    if steps != [] {
      RunKeeps(s, steps[..|steps| - 1]);
      StepKeeps(Run(s, steps[..|steps| - 1]), steps[|steps| - 1]);
    }
  }

  /** Some run of the store ends in `s`. */
  ghost predicate Occurs(s: System) {
    exists steps :: Run(EMPTY, steps) == s
  }

  /** Some run leads from `s` to `t`. */
  ghost predicate LeadsTo(s: System, t: System) {
    exists steps :: Run(s, steps) == t
  }

  ghost predicate Reachable(db: Db) {
    exists s :: Occurs(s) && s.db == db
  }

  lemma OccursIntact(s: System)
    requires Occurs(s)
    ensures SystemIntact(s)
  {
    var steps :| Run(EMPTY, steps) == s;
    RunKeeps(EMPTY, steps);
  }

  lemma ReachableIsIntact(db: Db)
    requires Reachable(db)
    ensures Intact(db)
  {
    var s :| Occurs(s) && s.db == db;
    OccursIntact(s);
  }

  lemma {:induction false} RunAppend(s: System, earlier: seq<Step>, later: seq<Step>)
    ensures Run(s, earlier + later) == Run(Run(s, earlier), later)
    decreases |later|
  {
    if later == [] {
      assert earlier + later == earlier;
    } else {
      RunAppend(s, earlier, later[..|later| - 1]);
      assert (earlier + later)[..|earlier + later| - 1] == earlier + later[..|later| - 1];
    }
  }

  /** Whatever follows a reachable state is reachable and has lost nothing. */
  lemma LeadsToGrows(s: System, t: System)
    requires Occurs(s) && LeadsTo(s, t)
    ensures Occurs(t) && Reachable(s.db) && Reachable(t.db) && Grows(s.db, t.db)
  {
    var earlier :| Run(EMPTY, earlier) == s;
    var later :| Run(s, later) == t;
    RunAppend(EMPTY, earlier, later);
    OccursIntact(s);
    RunKeeps(s, later);
  }

  lemma OneStepOccurs(s: System, step: Step)
    requires Occurs(s)
    ensures Occurs(Take(s, step)) && LeadsTo(s, Take(s, step))
  {
    var steps :| Run(EMPTY, steps) == s;
    assert (steps + [step])[..|steps|] == steps;
    assert Run(EMPTY, steps + [step]) == Take(s, step);
    assert [step][..0] == [];
    assert Run(s, [step]) == Take(Run(s, [step][..0]), step);
  }

  // ----- main results

  lemma ChainBounds(db: Db, key: RecordKey, v: int)
    requires Intact(db) && key in db.records
    ensures RevisionKey(key, v) in db.revisions <==> 1 <= v <= db.records[key].version
  {
    assert RowIntact(db, key);
    if RevisionKey(key, v) in db.revisions {
      assert RevisionIntact(db, RevisionKey(key, v));
    }
  }

  /** A receipt's predecessor, given both revisions. */
  lemma LinkOf(db: Db, later: RevisionKey, earlier: RevisionKey)
    requires later in db.revisions && RevisionIntact(db, later)
    requires earlier == RevisionKey(later.record, later.version - 1)
    requires earlier in db.revisions ==> RevisionIntact(db, earlier)
    ensures db.revisions[later].receipt.body.previous ==
            if earlier in db.revisions
            then Some(Stamp(earlier.version, db.revisions[earlier].receipt.body.recordDigest)) else None
  {
  }

  lemma ChainLink(db: Db, key: RecordKey, later: RevisionKey, earlier: RevisionKey)
    requires Intact(db) && key in db.records && 1 <= later.version <= db.records[key].version
    requires later.record == key && earlier == RevisionKey(key, later.version - 1)
    ensures later in db.revisions && (earlier in db.revisions <==> later.version > 1)
    ensures db.revisions[later].receipt.body.previous ==
            if earlier in db.revisions
            then Some(Stamp(earlier.version, db.revisions[earlier].receipt.body.recordDigest)) else None
  {
    ChainBounds(db, key, later.version);
    ChainBounds(db, key, earlier.version);
    LinkOf(db, later, earlier);
  }

  /**
   In every reachable database a record's revisions are exactly versions 1 to its row's version, each
   receipt names the preceding version and digest, and the row is its head revision.
   */
  lemma RevisionChains(db: Db, key: RecordKey)
    requires Reachable(db) && key in db.records
    ensures forall v :: RevisionKey(key, v) in db.revisions <==> 1 <= v <= db.records[key].version
    ensures forall v :: 2 <= v <= db.records[key].version ==>
              db.revisions[RevisionKey(key, v)].receipt.body.previous ==
              Some(Stamp(v - 1, db.revisions[RevisionKey(key, v - 1)].receipt.body.recordDigest))
    ensures RevisionKey(key, 1) in db.revisions && db.revisions[RevisionKey(key, 1)].receipt.body.previous == None
    ensures RevisionKey(key, db.records[key].version) in db.revisions
    ensures var head := db.revisions[RevisionKey(key, db.records[key].version)];
            db.records[key].value == head.value && db.records[key].digest == head.receipt.body.recordDigest
  {
    ReachableIsIntact(db);
    forall v
      ensures RevisionKey(key, v) in db.revisions <==> 1 <= v <= db.records[key].version
    {
      ChainBounds(db, key, v);
    }
    assert RowIntact(db, key);
    forall v | 2 <= v <= db.records[key].version
      ensures db.revisions[RevisionKey(key, v)].receipt.body.previous ==
              Some(Stamp(v - 1, db.revisions[RevisionKey(key, v - 1)].receipt.body.recordDigest))
    {
      ChainLink(db, key, RevisionKey(key, v), RevisionKey(key, v - 1));
    }
    ChainLink(db, key, RevisionKey(key, 1), RevisionKey(key, 0));
    assert RevisionIntact(db, RevisionKey(key, db.records[key].version));
  }

  /** Revisions and operations are in bijection: each names the other. */
  lemma RevisionsMatchOperations(db: Db)
    requires Reachable(db)
    ensures forall key :: key in db.revisions ==>
              OperationOf(db, key) in db.operations && RevisionOf(db, OperationOf(db, key)) == key
    ensures forall key :: key in db.operations ==>
              RevisionOf(db, key) in db.revisions && OperationOf(db, RevisionOf(db, key)) == key
  {
    ReachableIsIntact(db);
    forall key | key in db.revisions
      ensures OperationOf(db, key) in db.operations && RevisionOf(db, OperationOf(db, key)) == key
    {
      assert RevisionIntact(db, key);
    }
    forall key | key in db.operations
      ensures RevisionOf(db, key) in db.revisions && OperationOf(db, RevisionOf(db, key)) == key
    {
      assert OperationIntact(db, key);
    }
  }

  /** A provider identity never changes, is never dropped, and is never shared within an installation. */
  lemma ProviderNeverChanges(s: System, t: System, key: RecordKey, other: RecordKey)
    requires Occurs(s) && LeadsTo(s, t)
    requires key in s.db.records && s.db.records[key].provider.Some?
    ensures key in t.db.records && t.db.records[key].provider == s.db.records[key].provider
    ensures other in t.db.records && other != key && other.instance == key.instance ==>
              t.db.records[other].provider != t.db.records[key].provider
  {
    LeadsToGrows(s, t);
    ReachableIsIntact(t.db);
  }

  /** In a reachable database no integrity check fails: the current record reads back. */
  lemma CurrentReads(db: Db, key: RecordKey)
    requires Reachable(db)
    ensures Current(db, key) ==
            if key in db.records then
              var head := RevisionKey(key, db.records[key].version);
              if head in db.revisions then Ok(Some(Outcome(db.revisions[head].value, db.revisions[head].receipt)))
              else Err(Unavailable)
            else Ok(None)
    ensures Current(db, key).Ok?
  {
    ReachableIsIntact(db);
    if key in db.records {
      assert RowIntact(db, key);
      var head := RevisionKey(key, db.records[key].version);
      assert RevisionIntact(db, head);
      assert OperationIntact(db, OperationOf(db, head));
    }
  }

  /** A stored operation replays to its caller exactly, and conflicts for anyone and anything else. */
  lemma ReplayAnswers(db: Db, opKey: OperationKey, c: Command, actor: Name)
    requires Reachable(db) && opKey in db.operations
    requires c.instance == opKey.instance && c.key == opKey.key
    ensures var op := db.operations[opKey];
            Replay(db, opKey, op, c, actor) ==
            if op.command == c && op.actor == actor then Ok(op.outcome) else Err(Conflict)
  {
    ReachableIsIntact(db);
    assert OperationIntact(db, opKey);
    var op := db.operations[opKey];
    if op.command == c && op.actor == actor {
      assert RevisionIntact(db, RevisionOf(db, opKey));
    }
  }

  /** A stored command was valid: it expected nothing, or the revision before its own. */
  lemma StoredCommandIsValid(db: Db, opKey: OperationKey)
    requires Intact(db) && opKey in db.operations
    ensures ValidCommand(db.operations[opKey].command)
    ensures var op, rk := db.operations[opKey], RevisionOf(db, opKey);
            rk in db.revisions && op.command.expected == Preceding(db, rk)
            && rk.version <= db.records[rk.record].version
  {
    assert OperationIntact(db, opKey);
    var rk := RevisionOf(db, opKey);
    assert RevisionIntact(db, rk);
    var before := RevisionKey(rk.record, rk.version - 1);
    assert before in db.revisions ==> RevisionIntact(db, before);
  }

  /** An exact retry of an accepted command gets the first outcome however much was committed since. */
  lemma RetryReturnsFirstOutcome(s: System, t: System, opKey: OperationKey,
                                 validate: (Command, Option<Outcome>, Name) -> Result<Evidence, Error>, now: int)
    requires Occurs(s) && LeadsTo(s, t) && opKey in s.db.operations
    ensures var op := s.db.operations[opKey];
            CommitAlone(t.db, op.command, op.actor, validate, now) == (t.db, Ok(op.outcome))
  {
    LeadsToGrows(s, t);
    ReachableIsIntact(t.db);
    var op := t.db.operations[opKey];
    assert OperationIntact(t.db, opKey);
    StoredCommandIsValid(t.db, opKey);
    ReplayAnswers(t.db, opKey, op.command, op.actor);
  }

  /** The row has moved on from what a stored command expected. */
  lemma StoredCommandIsLate(db: Db, opKey: OperationKey)
    requires Reachable(db) && opKey in db.operations
    ensures var c := db.operations[opKey].command; Observed(db, RecordKey(c.instance, c.record)) != c.expected
  {
    ReachableIsIntact(db);
    StoredCommandIsValid(db, opKey);
    assert OperationIntact(db, opKey);
    assert RevisionIntact(db, RevisionOf(db, opKey));
  }

  /** A taken key lets no write through. */
  lemma TakenKeyRefuses(db: Db, w: Write)
    requires w.opKey in db.operations
    ensures Finish(db, w) ==
            if w.expected.Some? && Observed(db, w.key) != w.expected then LostUpdate else UniqueViolation
  {
  }

  /** A write that meets its own key taken is refused, or answered by a replay. */
  lemma AnswerOnTakenKey(db: Db, later: Db, w: Write)
    requires WriteIntact(db, w) && w.opKey in db.operations && w.opKey in later.operations
    ensures AnswerOf(db, later, w) ==
            if w.expected.Some? && Observed(db, w.key) != w.expected then Err(Conflict)
            else Replay(later, w.opKey, later.operations[w.opKey], w.operation.command, w.operation.actor)
    ensures w.opKey == CommandKey(w.operation.command)
  {
    TakenKeyRefuses(db, w);
  }

  lemma WriteStands(s: System, flight: nat)
    requires Occurs(s) && flight in s.flights && s.flights[flight].Prepared?
    ensures Reachable(s.db) && WriteIntact(s.db, s.flights[flight].write)
  {
    OccursIntact(s);
  }

  /**
   Two commits under one idempotency key that had both prepared their write before either was stored:
   the second to write gets the first one's outcome when both create the record by the same command and
   caller, and a conflict otherwise, however much is committed before its recovery read. An identical
   update conflicts, too, and only its next retry is a replay.
   */
  lemma RacingCommitAnswers(s: System, t: System, flight: nat)
    requires Occurs(s) && LeadsTo(s, t) && flight in s.flights && s.flights[flight].Prepared?
    requires s.flights[flight].write.opKey in s.db.operations
    ensures !Finish(s.db, s.flights[flight].write).Committed?
    ensures var w := s.flights[flight].write;
            var op := s.db.operations[w.opKey];
            AnswerOf(s.db, t.db, w) ==
            if w.expected.None? && op.command == w.operation.command && op.actor == w.operation.actor
            then Ok(op.outcome)
            else Err(Conflict)
  {
    var w := s.flights[flight].write;
    WriteStands(s, flight);
    LeadsToGrows(s, t);
    TakenKeyRefuses(s.db, w);
    AnswerOnTakenKey(s.db, t.db, w);
    ReplayAnswers(t.db, w.opKey, w.operation.command, w.operation.actor);
    if w.operation.command == s.db.operations[w.opKey].command {
      StoredCommandIsLate(s.db, w.opKey);
    }
  }

  /** A different command that is ready to write meets its key taken. */
  lemma ReadyOnTakenKey(db: Db, c: Command, actor: Name, answer: Result<Evidence, Error>, now: int)
    requires Reachable(db) && CommandKey(c) in db.operations && PrepareWith(db, c, actor, answer, now).Ready?
    ensures db.operations[CommandKey(c)].command != c
    ensures AnswerOf(db, db, PrepareWith(db, c, actor, answer, now).write) == Err(Conflict)
  {
    var w := PrepareWith(db, c, actor, answer, now).write;
    var version, provider, evidence := PrepareEstablishes(db, c, actor, (_, _, _) => answer, now);
    assert w == BuildWrite(c, actor, version, provider, now, evidence);
    StoredCommandIsLate(db, CommandKey(c));
    TakenKeyRefuses(db, w);
    ReplayAnswers(db, CommandKey(c), c, actor);
  }

  /**
   And one that had looked up its key before the first was stored, but reads the row after: the same
   command conflicts, whoever sends it and whatever the policy says, even when it creates the record. A
   different command that the row and the policy let through conflicts when it comes to write.
   */
  lemma LateReaderConflicts(s: System, flight: nat, answer: Result<Evidence, Error>, now: int)
    requires Occurs(s) && flight in s.flights && s.flights[flight].Looked?
    requires CommandKey(s.flights[flight].command) in s.db.operations
    ensures var f := s.flights[flight];
            var begun := PrepareWith(s.db, f.command, f.actor, answer, now);
            && (s.db.operations[CommandKey(f.command)].command == f.command ==> begun == Finished(Err(Conflict)))
            && (begun.Ready? ==> AnswerOf(s.db, s.db, begun.write) == Err(Conflict))
  {
    var f := s.flights[flight];
    CurrentReads(s.db, RecordKey(f.command.instance, f.command.record));
    StoredCommandIsLate(s.db, CommandKey(f.command));
    if PrepareWith(s.db, f.command, f.actor, answer, now).Ready? {
      ReadyOnTakenKey(s.db, f.command, f.actor, answer, now);
    }
  }

  // ----- when a commit succeeds

  /** The stored head of a record: its highest revision. */
  ghost function HeadOutcome(db: Db, key: RecordKey): Option<Outcome> {
    if key in db.records && RevisionKey(key, db.records[key].version) in db.revisions then
      var head := db.revisions[RevisionKey(key, db.records[key].version)];
      Some(Outcome(head.value, head.receipt))
    else None
  }

  /** The command was made for the head as it is, or for a record that is not there. */
  ghost predicate ExpectsHead(db: Db, c: Command) {
    var head := HeadOutcome(db, RecordKey(c.instance, c.record));
    match c.expected
    case None => head.None?
    case Some(stamp) =>
      head.Some? && stamp == Stamp(head.value.receipt.body.version, head.value.receipt.body.recordDigest)
  }

  function BindingOf(provider: Option<Provider>): Binding {
    match provider
    case None => Unbound
    case Some(p) => Bound(p)
  }

  /** A known record keeps its provider binding; a new one may not claim another's. */
  ghost predicate BindingAllowed(db: Db, c: Command) {
    var key := RecordKey(c.instance, c.record);
    if key in db.records then c.value.binding == BindingOf(db.records[key].provider) else
      match c.value.binding
      case Malformed => false
      case Unbound => true
      case Bound(p) =>
        forall other :: other in db.records && other.instance == c.instance ==> db.records[other].provider != Some(p)
  }

  /** No operation of the installation was accepted on the same AI decision. */
  ghost predicate DecisionUnused(db: Db, instance: Name, ai: Option<Name>) {
    ai.Some? ==>
      forall other :: other in db.operations && other.instance == instance ==> db.operations[other].aiDecision != ai
  }

  /** The receipt of an accepted command. */
  ghost predicate ReceiptFor(receipt: Receipt, c: Command, actor: Name, version: int, now: int, evidence: Evidence) {
    var body := receipt.body;
    && receipt.digest == OfReceipt(body)
    && body.instance == c.instance && body.record == c.record && body.version == version
    && body.recordDigest == OfValue(c.value) && body.commandDigest == OfCommand(c)
    && body.previous == c.expected && body.key == c.key && body.actor == actor && body.action == c.action
    && body.acceptedAt == now && body.evidence == evidence
  }

  /** The three new rows of an accepted command, and nothing else. */
  ghost predicate Stores(db: Db, after: Db, c: Command, actor: Name, version: int, evidence: Evidence,
                         outcome: Outcome)
  {
    var key := RecordKey(c.instance, c.record);
    && key in after.records && after.records[key].value == c.value && after.records[key].version == version
    && after.records[key].digest == OfValue(c.value) && c.value.binding == BindingOf(after.records[key].provider)
    && after.records == db.records[key := after.records[key]]
    && after.revisions == db.revisions[RevisionKey(key, version) := Revision(c.value, outcome.receipt)]
    && after.operations ==
       db.operations[OperationKey(c.instance, c.key) := Operation(actor, evidence.aiDecision, OfCommand(c), c, outcome)]
  }

  lemma HeadReads(db: Db, key: RecordKey)
    requires Reachable(db)
    ensures Current(db, key) == Ok(HeadOutcome(db, key))
    ensures HeadOutcome(db, key).Some? <==> key in db.records
    ensures key in db.records ==>
              var body := HeadOutcome(db, key).value.receipt.body;
              && Observed(db, key) == Some(Stamp(body.version, body.recordDigest))
              && db.records[key].version == body.version >= 1
              && RevisionKey(key, body.version + 1) !in db.revisions
    ensures key !in db.records ==> RevisionKey(key, 1) !in db.revisions
  {
    ReachableIsIntact(db);
    CurrentReads(db, key);
    if key in db.records {
      assert RowIntact(db, key);
      assert RevisionIntact(db, RevisionKey(key, db.records[key].version));
      ChainBounds(db, key, db.records[key].version + 1);
    } else {
      assert RevisionKey(key, 1) in db.revisions ==> RevisionIntact(db, RevisionKey(key, 1));
    }
  }

  lemma ExpectsObserved(db: Db, c: Command)
    requires Reachable(db)
    ensures ExpectsHead(db, c) <==> c.expected == Observed(db, RecordKey(c.instance, c.record))
  {
    HeadReads(db, RecordKey(c.instance, c.record));
  }

  /** Reading alone settles all but the unique keys. */
  lemma PreparesExactly(db: Db, c: Command, actor: Name,
                        validate: (Command, Option<Outcome>, Name) -> Result<Evidence, Error>, now: int)
    requires Reachable(db)
    ensures var key, head := RecordKey(c.instance, c.record), HeadOutcome(db, RecordKey(c.instance, c.record));
            Prepare(db, c, actor, validate, now).Ready? <==>
            && ExpectsHead(db, c) && validate(c, head, actor).Ok? && c.value.binding != Malformed
            && (key in db.records ==> c.value.binding == BindingOf(db.records[key].provider))
  {
    HeadReads(db, RecordKey(c.instance, c.record));
    ExpectsObserved(db, c);
  }

  /** Of a prepared write, the unique keys that matter are the provider's, the AI decision's and its own. */
  lemma WritesExactly(db: Db, w: Write)
    requires Reachable(db) && WriteIntact(db, w)
    ensures Finish(db, w).Committed? <==>
            && Observed(db, w.key) == w.expected && w.opKey !in db.operations
            && DecisionUnused(db, w.opKey.instance, w.operation.aiDecision)
            && (w.expected.None? ==> ProviderFree(db, w.key, w.provider))
  {
    HeadReads(db, w.key);
  }

  /**
   In a reachable database a valid command with a free key is accepted exactly when it expects the head as it
   is, the policy grants evidence for that head, its provider binding is well formed, kept and unshared, and
   its AI decision is unused. It then stores the next version with its receipt; otherwise it stores nothing,
   and the answer says which of these failed first.
   */
  lemma CommitsExactly(db: Db, c: Command, actor: Name,
                       validate: (Command, Option<Outcome>, Name) -> Result<Evidence, Error>, now: int)
    requires Reachable(db) && ValidCommand(c) && OperationKey(c.instance, c.key) !in db.operations
    ensures var (after, result) := CommitAlone(db, c, actor, validate, now);
            var head := HeadOutcome(db, RecordKey(c.instance, c.record));
            var granted := validate(c, head, actor);
            && (result.Ok? <==>
                && ExpectsHead(db, c) && granted.Ok? && BindingAllowed(db, c)
                && DecisionUnused(db, c.instance, granted.value.aiDecision))
            && (result.Ok? ==>
                  var version := if head.Some? then head.value.receipt.body.version + 1 else 1;
                  && result.value.value == c.value
                  && ReceiptFor(result.value.receipt, c, actor, version, now, granted.value)
                  && Stores(db, after, c, actor, version, granted.value, result.value))
            && (result.Err? ==>
                  && after == db
                  && result.error ==
                     if !ExpectsHead(db, c) then Conflict else if granted.Err? then granted.error
                     else if c.value.binding == Malformed then Invalid else Conflict)
  {
    var key := RecordKey(c.instance, c.record);
    HeadReads(db, key);
    PreparesExactly(db, c, actor, validate, now);
    if Prepare(db, c, actor, validate, now).Ready? {
      var w := Prepare(db, c, actor, validate, now).write;
      var version, provider, evidence := PrepareEstablishes(db, c, actor, validate, now);
      BuiltIsIntact(db, c, actor, version, provider, now, evidence);
      WritesExactly(db, w);
    }
  }

  // ----- what a read accepts

  /** The stored revision and the operation its receipt names agree on the outcome; nothing in them was exchanged. */
  ghost predicate RevisionReads(db: Db, rk: RevisionKey, o: Outcome) {
    var key, body := rk.record, o.receipt.body;
    var opKey := OperationKey(key.instance, body.key);
    && rk in db.revisions && db.revisions[rk] == Revision(o.value, o.receipt)
    && o.receipt.digest == OfReceipt(body) && body.recordDigest == OfValue(o.value)
    && body.instance == key.instance && body.record == key.record && body.version == rk.version
    && opKey in db.operations
    && var op := db.operations[opKey];
    && op.outcome == o && op.actor == body.actor && op.aiDecision == body.evidence.aiDecision
    && op.commandDigest == OfCommand(op.command) && body.commandDigest == OfCommand(op.command)
    && op.command.instance == key.instance && op.command.record == key.record && op.command.key == body.key
  }

  /** And the row of the record agrees with them. */
  ghost predicate ReadsAs(db: Db, key: RecordKey, o: Outcome) {
    && key in db.records && RevisionReads(db, RevisionKey(key, db.records[key].version), o)
    && db.records[key].value == o.value && db.records[key].digest == OfValue(o.value)
    && o.value.binding == BindingOf(db.records[key].provider)
  }

  lemma RevisionReadsExactly(db: Db, rk: RevisionKey, o: Outcome)
    requires rk in db.revisions
    ensures OperationOutcome(rk, db.revisions[rk], OperationOf(db, rk), Get(db.operations, OperationOf(db, rk))) ==
            Ok(o)
            <==> RevisionReads(db, rk, o)
  {
    assert o == Outcome(db.revisions[rk].value, db.revisions[rk].receipt) || !RevisionReads(db, rk, o);
  }

  /** Whatever the tables hold, a row is read only when its record's three rows agree; else the read is refused. */
  lemma ReadsExactly(db: Db, key: RecordKey)
    ensures forall o :: Current(db, key) == Ok(Some(o)) <==> ReadsAs(db, key, o)
    ensures Current(db, key) == Ok(None) <==> key !in db.records
    ensures Current(db, key).Err? ==> Current(db, key) == Err(Unavailable)
  {
    forall o
      ensures Current(db, key) == Ok(Some(o)) <==> ReadsAs(db, key, o)
    {
      if key in db.records && RevisionKey(key, db.records[key].version) in db.revisions {
        var revision := db.revisions[RevisionKey(key, db.records[key].version)];
        assert o == Outcome(revision.value, revision.receipt) || !ReadsAs(db, key, o);
      }
    }
  }
}
