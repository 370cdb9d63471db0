/**
 The transactional store of operational records: rows, immutable revisions with receipts, and
 operations keyed by idempotency key.

 A commit has two points of contact with the database. It reads (an earlier operation, the current
 row) and prepares its writes; later it writes, and the unique keys and the compare-and-set clause
 are checked against the state at that moment. Other commits may write in between.

 Digests are modelled by their preimages, so equal digests mean equal contents; `Foreign` stands
 for text that is nobody's digest.
 */
module InstanceRecords {
  import opened Common

  type Name = string

  datatype Digest = OfValue(value: RecordValue) | OfCommand(command: Command) | OfReceipt(body: ReceiptBody)
                  | Foreign(text: Name)

  datatype Provider = Provider(provider: Name, repositoryId: Name)

  /** The provider binding inside a record: none, well formed, or refused. */
  datatype Binding = Unbound | Bound(provider: Provider) | Malformed

  datatype RecordValue = RecordValue(binding: Binding, body: Name)

  datatype Stamp = Stamp(version: int, digest: Digest)

  /** The accepted operator input an operation is later recognised by. */
  datatype Input = Input(instance: Name, record: Name, key: Name, expected: Option<Stamp>, action: Name, body: Name)

  datatype Decision = Decision(operatorInput: Input, attestation: Name, readiness: Name)

  datatype Command = Command(instance: Name, record: Name, key: Name, expected: Option<Stamp>, action: Name,
                             value: RecordValue, decision: Decision)

  datatype Evidence = Evidence(policyRef: Name, decisionDigest: Name, readinessDigest: Name, operatorRef: Name,
                               aiDecision: Option<Name>)

  datatype ReceiptBody = ReceiptBody(instance: Name, record: Name, version: int, recordDigest: Digest,
                                     previous: Option<Stamp>, key: Name, commandDigest: Digest, actor: Name,
                                     action: Name, acceptedAt: int, evidence: Evidence)

  datatype Receipt = Receipt(body: ReceiptBody, digest: Digest)

  /** What a commit returns and an operation retains. */
  datatype Outcome = Outcome(value: RecordValue, receipt: Receipt)

  datatype Row = Row(version: int, digest: Digest, provider: Option<Provider>, value: RecordValue)

  datatype Revision = Revision(value: RecordValue, receipt: Receipt)

  datatype Operation = Operation(actor: Name, aiDecision: Option<Name>, commandDigest: Digest, command: Command,
                                 outcome: Outcome)

  datatype RecordKey = RecordKey(instance: Name, record: Name)
  datatype RevisionKey = RevisionKey(record: RecordKey, version: int)
  datatype OperationKey = OperationKey(instance: Name, key: Name)

  datatype Db = Db(records: map<RecordKey, Row>, revisions: map<RevisionKey, Revision>,
                   operations: map<OperationKey, Operation>)

  datatype Error = Invalid | Conflict | Unavailable

  // ----- reading with integrity checks

  function ProviderOf(value: RecordValue): Result<Option<Provider>, Error> {
    match value.binding
    case Unbound => Ok(None)
    case Bound(p) => Ok(Some(p))
    case Malformed => Err(Invalid)
  }

  function ReadRevision(key: RevisionKey, revision: Revision): Result<Outcome, Error> {
    var body := revision.receipt.body;
    if && revision.receipt.digest == OfReceipt(body)
       && body.recordDigest == OfValue(revision.value)
       && body.record == key.record.record && body.instance == key.record.instance && body.version == key.version
    then Ok(Outcome(revision.value, revision.receipt))
    else Err(Unavailable)
  }

  /** A revision together with the operation that its receipt names. */
  function OperationOutcome(key: RevisionKey, revision: Revision, opKey: OperationKey,
                            operation: Option<Operation>): Result<Outcome, Error>
  {
    match ReadRevision(key, revision)
    case Err(e) => Err(e)
    case Ok(outcome) =>
      var body := outcome.receipt.body;
      if operation.None? then Err(Unavailable) else
        var op := operation.value;
        if && OfCommand(op.command) == op.commandDigest
           && opKey.instance == key.record.instance && op.command.instance == key.record.instance
           && op.command.record == key.record.record
           && op.command.key == opKey.key && opKey.key == body.key
           && op.actor == body.actor && op.aiDecision == body.evidence.aiDecision
           && op.commandDigest == body.commandDigest && op.outcome == outcome
        then Ok(outcome)
        else Err(Unavailable)
  }

  /** The current record with its revision and operation; Ok(None) when there is no row. */
  function Current(db: Db, key: RecordKey): Result<Option<Outcome>, Error> {
    if key !in db.records then Ok(None) else
      var row := db.records[key];
      var revisionKey := RevisionKey(key, row.version);
      if revisionKey !in db.revisions then Err(Unavailable) else
        var revision := db.revisions[revisionKey];
        var opKey := OperationKey(key.instance, revision.receipt.body.key);
        match OperationOutcome(revisionKey, revision, opKey, Get(db.operations, opKey))
        case Err(e) => Err(e)
        case Ok(outcome) =>
          if OfValue(row.value) == row.digest == outcome.receipt.body.recordDigest
             && ProviderOf(row.value) == Ok(row.provider)
          then Ok(Some(outcome))
          else Err(Unavailable)
  }

  /** An operation already stored under the key answers only its own caller and command. */
  function Replay(db: Db, opKey: OperationKey, op: Operation, command: Command, actor: Name): Result<Outcome, Error> {
    if OfCommand(op.command) != op.commandDigest then Err(Unavailable)
    else if op.actor != actor || op.commandDigest != OfCommand(command) then Err(Conflict)
    else
      var revisionKey := RevisionKey(RecordKey(command.instance, command.record), op.outcome.receipt.body.version);
      if revisionKey !in db.revisions then Err(Unavailable)
      else OperationOutcome(revisionKey, db.revisions[revisionKey], opKey, Some(op))
  }

  /** The internal recovery read: the retained command and its outcome, for its own caller. */
  function StoredOperation(db: Db, opKey: OperationKey,
                           actor: Option<Name>): Result<Option<(Command, Outcome)>, Error>
  {
    if opKey !in db.operations then Ok(None) else
      var op := db.operations[opKey];
      if actor.Some? && op.actor != actor.value then Err(Conflict) else
        match Replay(db, opKey, op, op.command, op.actor)
        case Err(e) => Err(e)
        case Ok(outcome) => Ok(Some((op.command, outcome)))
  }

  // ----- committing

  predicate ValidCommand(c: Command) {
    c.expected.Some? ==> c.expected.value.version > 0
  }

  /** Everything a commit will write, fixed before it writes. */
  datatype Write = Write(key: RecordKey, opKey: OperationKey, expected: Option<Stamp>, provider: Option<Provider>,
                         version: int, revision: Revision, operation: Operation)

  datatype Begun = Finished(outcome: Result<Outcome, Error>) | Ready(write: Write)

  function Observed(db: Db, key: RecordKey): Option<Stamp> {
    if key in db.records then Some(Stamp(db.records[key].version, db.records[key].digest)) else None
  }

  function BuildReceipt(c: Command, actor: Name, version: int, previous: Option<Stamp>, now: int,
                        evidence: Evidence): Receipt
  {
    var body :=
      ReceiptBody(c.instance, c.record, version, OfValue(c.value), previous, c.key, OfCommand(c), actor, c.action, now,
                  evidence);
    Receipt(body, OfReceipt(body))
  }

  function BuildWrite(c: Command, actor: Name, version: int, provider: Option<Provider>, now: int,
                      evidence: Evidence): Write
  {
    var receipt := BuildReceipt(c, actor, version, c.expected, now, evidence);
    Write(RecordKey(c.instance, c.record), OperationKey(c.instance, c.key), c.expected, provider, version,
          Revision(c.value, receipt),
          Operation(actor, evidence.aiDecision, OfCommand(c), c, Outcome(c.value, receipt)))
  }

  function CommandKey(c: Command): OperationKey {
    OperationKey(c.instance, c.key)
  }

  /** The first read of a commit settles a command that is not valid or whose key is taken. */
  function KnownOutcome(db: Db, c: Command, actor: Name): Option<Result<Outcome, Error>> {
    if !ValidCommand(c) then Some(Err(Invalid))
    else if CommandKey(c) in db.operations then Some(Replay(db, CommandKey(c), db.operations[CommandKey(c)], c, actor))
    else None
  }

  /**
   The second: the row with its revision and operation, the policy's answer, and the write they lead
   to. `validate` is the server-side policy: it sees the command, the current record and the caller,
   and grants evidence or refuses.
   */
  function Prepare(db: Db, c: Command, actor: Name,
                   validate: (Command, Option<Outcome>, Name) -> Result<Evidence, Error>, now: int): Begun
  {
    var key := RecordKey(c.instance, c.record);
    match Current(db, key)
    case Err(e) => Finished(Err(e))
    case Ok(current) =>
      if c.expected != Observed(db, key) then Finished(Err(Conflict)) else
        match validate(c, current, actor)
        case Err(e) => Finished(Err(e))
        case Ok(evidence) =>
          match ProviderOf(c.value)
          case Err(e) => Finished(Err(e))
          case Ok(provider) =>
            if key in db.records && db.records[key].provider != provider then Finished(Err(Conflict)) else
              var version := if key in db.records then db.records[key].version + 1 else 1;
              Ready(BuildWrite(c, actor, version, provider, now, evidence))
  }

  /** Both reads with nothing in between. */
  function Begin(db: Db, c: Command, actor: Name,
                 validate: (Command, Option<Outcome>, Name) -> Result<Evidence, Error>, now: int): Begun
  {
    match KnownOutcome(db, c, actor)
    case Some(outcome) => Finished(outcome)
    case None => Prepare(db, c, actor, validate, now)
  }

  datatype Written = Committed(db: Db) | LostUpdate | UniqueViolation

  /** No other record of the installation holds the provider identity. */
  predicate ProviderFree(db: Db, key: RecordKey, provider: Option<Provider>) {
    provider.Some? ==>
      forall other :: other in db.records && other.instance == key.instance ==> db.records[other].provider != provider
  }

  predicate AiDecisionFree(db: Db, opKey: OperationKey, ai: Option<Name>) {
    ai.Some? ==>
      forall other :: other in db.operations && other.instance == opKey.instance ==>
        db.operations[other].aiDecision != ai
  }

  /** The writing half: compare-and-set or insert the row, insert revision and operation, all or nothing. */
  function Finish(db: Db, w: Write): Written {
    if w.expected.Some? && Observed(db, w.key) != w.expected then LostUpdate
    else if || (w.expected.None? && (w.key in db.records || !ProviderFree(db, w.key, w.provider)))
            || RevisionKey(w.key, w.version) in db.revisions
            || w.opKey in db.operations || !AiDecisionFree(db, w.opKey, w.operation.aiDecision)
    then UniqueViolation
    else
      var provider := if w.expected.Some? && w.key in db.records then db.records[w.key].provider else w.provider;
      Committed(Db(db.records[w.key := Row(w.version, OfValue(w.revision.value), provider, w.revision.value)],
                   db.revisions[RevisionKey(w.key, w.version) := w.revision],
                   db.operations[w.opKey := w.operation]))
  }

  /** After a unique violation only an exact durable replay counts as success. */
  function Recover(db: Db, c: Command, actor: Name): Result<Outcome, Error> {
    var opKey := OperationKey(c.instance, c.key);
    if opKey in db.operations then Replay(db, opKey, db.operations[opKey], c, actor) else Err(Conflict)
  }

  /** What the caller of a prepared commit hears when it writes to `db` and, if it must, recovers from `later`. */
  function AnswerOf(db: Db, later: Db, w: Write): Result<Outcome, Error> {
    match Finish(db, w)
    case Committed(_) => Ok(w.operation.outcome)
    case LostUpdate => Err(Conflict)
    case UniqueViolation => Recover(later, w.operation.command, w.operation.actor)
  }

  /** A commit that nothing overtakes. */
  function CommitAlone(db: Db, c: Command, actor: Name,
                       validate: (Command, Option<Outcome>, Name) -> Result<Evidence, Error>, now: int)
    : (Db, Result<Outcome, Error>)
  {
    match Begin(db, c, actor, validate, now)
    case Finished(outcome) => (db, outcome)
    case Ready(w) =>
      (if Finish(db, w).Committed? then Finish(db, w).db else db, AnswerOf(db, db, w))
  }

  /** The store as an object whose tables a commit updates. */
  class InstanceRecordStore {
    var records: map<RecordKey, Row>
    var revisions: map<RevisionKey, Revision>
    var operations: map<OperationKey, Operation>

    constructor ()
      ensures Tables() == Db(map[], map[], map[])
    {
      records, revisions, operations := map[], map[], map[];
    }

    function Tables(): Db
      reads this
    {
      Db(records, revisions, operations)
    }

    method Commit(c: Command, actor: Name, validate: (Command, Option<Outcome>, Name) -> Result<Evidence, Error>,
                  now: int)
      returns (result: Result<Outcome, Error>)
      modifies this
      ensures (Tables(), result) == CommitAlone(old(Tables()), c, actor, validate, now)
    {
      var begun := Begin(Tables(), c, actor, validate, now);
      if begun.Finished? {
        return begun.outcome;
      }
      var w := begun.write;
      var taken := || RevisionKey(w.key, w.version) in revisions || w.opKey in operations
                   || !AiDecisionFree(Tables(), w.opKey, w.operation.aiDecision);
      if w.expected.Some? {
        if Observed(Tables(), w.key) != w.expected {
          return Err(Conflict);
        }
      } else {
        taken := taken || w.key in records || !ProviderFree(Tables(), w.key, w.provider);
      }
      if taken {
        result := Recover(Tables(), c, actor);
        return;
      }
      var provider := if w.expected.Some? && w.key in records then records[w.key].provider else w.provider;
      records := records[w.key := Row(w.version, OfValue(w.revision.value), provider, w.revision.value)];
      revisions := revisions[RevisionKey(w.key, w.version) := w.revision];
      operations := operations[w.opKey := w.operation];
      result := Ok(w.operation.outcome);
    }
  }
}
