/**
 The owner receipt of a controlled proof: activity result, observation and receipt are three files
 under one key, written in that order under the key's lock. The process may die between any two
 writes; a later attempt finds what was left.
 */
module OwnerReceipts {
  import opened Common
  import opened ProofRequests

  datatype Digest = OfContext(context: OwnerContext) | OfObservation(observation: Observation)
                  | OfResult(result: ActivityResult)
                  | OfReceipt(body: ReceiptBody) | Stated(text: Name)

  datatype Validation = Validation(receiptId: Name, digest: Name)

  /**
   A compact activity result. `status` is None when the status code is not an identifier,
   `validation` is None when the receipt reference is not an object with an identifier and a digest.
   */
  datatype ActivityResult = ActivityResult(status: Option<Name>, validation: Option<Validation>, body: Name)

  datatype Subject = Subject(authorizationId: Name, authorizationDigest: Name, sessionId: Name, scenarioId: Name,
                             scenarioExecutionId: Name, activityId: Name)

  datatype BoundResult = BoundResult(digest: Digest, status: Name)

  datatype Observation = Observation(subject: Subject, workflowId: Name, workflowRunId: Name, kind: Name,
                                     ownerResult: Name,
                                     recordedAt: int, bound: Option<BoundResult>)

  datatype Target = Named(ref: Name) | ObservationFile(key: ReceiptKey) | ResultFile(key: ReceiptKey)
                  | ValidationReceipt(receiptId: Name)

  datatype Ref = Ref(target: Target, digest: Digest)

  datatype ReceiptBody = ReceiptBody(subject: Subject, ownerResult: Name, evidence: seq<Ref>, receiptRef: ReceiptKey,
                                     recordedAt: int)

  datatype Receipt = Receipt(body: ReceiptBody, digest: Digest)

  datatype Files = Files(results: map<ReceiptKey, ActivityResult>, observations: map<ReceiptKey, Observation>,
                         receipts: map<ReceiptKey, Receipt>)

  datatype Error = Contract | Authorization | Mismatch

  const OWNER_RESULTS := {"passed", "failed", "blocked", "cancelled", "denied", "unavailable"}

  /** Stored times keep milliseconds only. */
  function Trunc(t: int): int {
    t - t % 1000
  }

  function SubjectOf(q: Request): Subject {
    Subject(q.context.authorizationId, q.context.authorizationDigest, q.context.sessionId, q.payload.scenarioId,
            q.payload.scenarioExecutionId, q.activityId)
  }

  // ----- what an attempt writes

  datatype Attempt = Attempt(request: Request, ownerResult: Name, kind: Option<Name>, fenced: bool,
                             result: Option<ActivityResult>, now: int)

  datatype Write = PutResult(key: ReceiptKey, result: ActivityResult)
                 | PutObservation(key: ReceiptKey, observation: Observation)
                 | PutReceipt(key: ReceiptKey, receipt: Receipt)

  /** The writes an attempt makes, in order, and what it then returns. */
  datatype Plan = Plan(writes: seq<Write>, outcome: Result<Receipt, Error>)

  function EvidenceRefs(q: Request, observation: Digest, result: Option<ActivityResult>): Result<seq<Ref>, Error> {
    var c, key := q.context, ReceiptKeyOf(q);
    var refs := [Ref(Named(c.contextId), OfContext(c)),
                 Ref(Named(c.orchestration.ref), Stated(c.orchestration.digest)),
                 Ref(Named(c.authorizationId), Stated(c.authorizationDigest)),
                 Ref(Named(c.approval.ref), Stated(c.approval.digest)),
                 Ref(Named(c.security.ref), Stated(c.security.digest)),
                 Ref(Named(c.consumption.ref), Stated(c.consumption.digest)),
                 Ref(ObservationFile(key), observation)];
    if result.None? then Ok(refs)
    else if result.value.validation.None? then Err(Contract)
    else Ok(refs + [Ref(ResultFile(key), OfResult(result.value)),
                    Ref(ValidationReceipt(result.value.validation.value.receiptId),
                        Stated(result.value.validation.value.digest))])
  }

  function Observe(a: Attempt): Observation
    requires a.kind.Some?
    requires a.result.Some? ==> a.result.value.status.Some?
  {
    Observation(SubjectOf(a.request), a.request.payload.workflowId, a.request.payload.workflowRunId, a.kind.value,
                a.ownerResult,
                Trunc(a.now),
                if a.result.Some? then Some(BoundResult(OfResult(a.result.value), a.result.value.status.value))
                else None)
  }

  function BuildReceipt(q: Request, observation: Observation, evidence: seq<Ref>): Receipt {
    var body := ReceiptBody(SubjectOf(q), observation.ownerResult, evidence, ReceiptKeyOf(q), observation.recordedAt);
    Receipt(body, OfReceipt(body))
  }

  /** The recorded time lies in the session, and a pass lies before expiry. */
  predicate InWindow(q: Request, ownerResult: Name, recordedAt: int) {
    q.context.sessionStartedAt <= recordedAt && (ownerResult == "passed" ==> recordedAt < q.context.expiresAt)
  }

  function CheckPending(files: Files, a: Attempt, o: Observation): Option<Error> {
    var q, key := a.request, ReceiptKeyOf(a.request);
    if a.result.Some? != o.bound.Some? then Some(Contract)
    else if && o.subject == SubjectOf(q) && o.workflowId == q.payload.workflowId
            && o.workflowRunId == q.payload.workflowRunId
            && Some(o.kind) == a.kind && o.ownerResult == a.ownerResult && InWindow(q, a.ownerResult, o.recordedAt)
            && Get(files.results, key) == a.result
            && (a.result.Some? ==>
                  o.bound.value.digest == OfResult(a.result.value)
                  && Some(o.bound.value.status) == a.result.value.status)
    then None
    else Some(Mismatch)
  }

  /** Checks a stored receipt against the request and the files beside it. */
  function CheckStored(files: Files, q: Request, receipt: Receipt): Option<Error> {
    var key, body := ReceiptKeyOf(q), receipt.body;
    var stored := Get(files.results, key);
    if key !in files.observations then Some(Mismatch) else
      var o := files.observations[key];
      var evidence := EvidenceRefs(q, OfObservation(o), stored);
      if evidence.Err? then Some(evidence.error)
      else if && body.subject == SubjectOf(q) && body.ownerResult in OWNER_RESULTS
              && InWindow(q, body.ownerResult, body.recordedAt)
              && body.receiptRef == key && receipt.digest == OfReceipt(body)
              && stored.Some? == o.bound.Some?
              && o.subject == SubjectOf(q) && o.workflowId == q.payload.workflowId
              && o.workflowRunId == q.payload.workflowRunId
              && o.ownerResult == body.ownerResult && o.recordedAt == body.recordedAt
              && (stored.Some? ==>
                    o.bound.value.digest == OfResult(stored.value) && Some(o.bound.value.status) == stored.value.status)
              && body.evidence == evidence.value
      then None
      else Some(Mismatch)
  }

  function AnswerExisting(files: Files, a: Attempt, receipt: Receipt): Result<Receipt, Error> {
    var key := ReceiptKeyOf(a.request);
    match CheckStored(files, a.request, receipt)
    case Some(e) => Err(e)
    case None =>
      if receipt.body.ownerResult == a.ownerResult && Some(files.observations[key].kind) == a.kind
         && Get(files.results, key) == a.result
      then Ok(receipt)
      else Err(Mismatch)
  }

  function Complete(a: Attempt, writes: seq<Write>, o: Observation): Plan {
    match EvidenceRefs(a.request, OfObservation(o), a.result)
    case Err(e) => Plan(writes, Err(e))
    case Ok(evidence) =>
      var receipt := BuildReceipt(a.request, o, evidence);
      Plan(writes + [PutReceipt(ReceiptKeyOf(a.request), receipt)], Ok(receipt))
  }

  /** The attempt's arguments are acceptable before any file is read. */
  predicate WellFormed(a: Attempt) {
    a.ownerResult in OWNER_RESULTS && a.fenced && a.kind.Some? && (a.result.Some? ==> a.result.value.status.Some?)
  }

  /** A first attempt leaves the activity result, unless it is there already, and then the observation. */
  function ObservationWrites(files: Files, a: Attempt): seq<Write>
    requires WellFormed(a)
  {
    var key := ReceiptKeyOf(a.request);
    (if a.result.Some? && key !in files.results then [PutResult(key, a.result.value)] else [])
    + [PutObservation(key, Observe(a))]
  }

  function Commit(files: Files, a: Attempt): Plan {
    var key := ReceiptKeyOf(a.request);
    if a.ownerResult !in OWNER_RESULTS then Plan([], Err(Contract))
    else if !a.fenced then Plan([], Err(Authorization))
    else if !WellFormed(a) then Plan([], Err(Contract))
    else if key in files.receipts then Plan([], AnswerExisting(files, a, files.receipts[key]))
    else if key in files.observations then
      match CheckPending(files, a, files.observations[key])
      case Some(e) => Plan([], Err(e))
      case None => Complete(a, [], files.observations[key])
    else if a.now < a.request.startedAt || (a.ownerResult == "passed" && a.now >= a.request.context.expiresAt) then
      Plan([], Err(Authorization))
    else if key in files.results && Some(files.results[key]) != a.result then Plan([], Err(Mismatch))
    else Complete(a, ObservationWrites(files, a), Observe(a))
  }

  function Load(files: Files, q: Request): Result<Option<Receipt>, Error> {
    var key := ReceiptKeyOf(q);
    if key !in files.receipts then Ok(None) else
      match CheckStored(files, q, files.receipts[key])
      case Some(e) => Err(e)
      case None => Ok(Some(files.receipts[key]))
  }

  // ----- crashes and runs

  function Apply(files: Files, w: Write): Files {
    match w
    case PutResult(key, result) => files.(results := files.results[key := result])
    case PutObservation(key, observation) => files.(observations := files.observations[key := observation])
    case PutReceipt(key, receipt) => files.(receipts := files.receipts[key := receipt])
  }

  function ApplyAll(files: Files, writes: seq<Write>): Files {
    if writes == [] then files else Apply(ApplyAll(files, writes[..|writes| - 1]), writes[|writes| - 1])
  }

  lemma ApplyOne(files: Files, w: Write)
    ensures ApplyAll(files, [w]) == Apply(files, w)
  {
    assert [w][..0] == [];
  }

  lemma ApplyNext(files: Files, writes: seq<Write>, w: Write)
    ensures ApplyAll(files, writes + [w]) == Apply(ApplyAll(files, writes), w)
  {
    assert (writes + [w])[..|writes|] == writes;
  }

  /** An attempt that dies once it has made `crash` writes, or, with None, runs to its end. */
  datatype Step = Step(attempt: Attempt, crash: Option<nat>)

  /** The writes that reach the disk. */
  function Durable(files: Files, s: Step): seq<Write> {
    var writes := Commit(files, s.attempt).writes;
    if s.crash.Some? && s.crash.value < |writes| then writes[..s.crash.value] else writes
  }

  function Take(files: Files, s: Step): Files {
    ApplyAll(files, Durable(files, s))
  }

  lemma StopsWithin(files: Files, a: Attempt, done: seq<Write>, crash: nat)
    requires done <= Commit(files, a).writes && crash < |done|
    ensures Take(files, Step(a, Some(crash))) == ApplyAll(files, done[..crash])
  {
    var whole := Commit(files, a).writes;
    assert whole[..|done|] == done;
    assert whole[..crash] == whole[..|done|][..crash];
  }

  lemma SealedWrites(files: Files, done: seq<Write>, last: seq<Write>, crash: Option<nat>)
    requires |last| <= 1 && (crash.Some? ==> crash.value >= |done|)
    ensures var whole := done + last;
            ApplyAll(files, if crash.Some? && crash.value < |whole| then whole[..crash.value] else whole)
            == if crash == Some(|done|) then ApplyAll(files, done) else ApplyAll(ApplyAll(files, done), last)
  {
    var whole := done + last;
    if last == [] {
      assert whole == done;
    } else {
      ApplyNext(files, done, last[0]);
      ApplyOne(ApplyAll(files, done), last[0]);
      assert last == [last[0]];
      assert whole[..|done|] == done;
    }
  }

  /** The end of an attempt: its earlier writes are `done`, what is left is the receipt. */
  lemma Sealed(files: Files, a: Attempt, done: seq<Write>, o: Observation, crash: Option<nat>)
    requires Commit(files, a) == Complete(a, done, o)
    requires crash.Some? ==> crash.value >= |done|
    ensures var plan := Complete(a, [], o);
            && plan.outcome == Commit(files, a).outcome
            && Take(files, Step(a, crash)) ==
               if crash == Some(|done|) then ApplyAll(files, done) else ApplyAll(ApplyAll(files, done), plan.writes)
  {
    var last := Complete(a, [], o).writes;
    assert Complete(a, done, o).writes == done + last;
    SealedWrites(files, done, last, crash);
  }

  /** What the caller hears: nothing from a process that died. */
  function Answer(files: Files, s: Step): Option<Result<Receipt, Error>> {
    if s.crash.Some? then None else Some(Commit(files, s.attempt).outcome)
  }

  const EMPTY := Files(map[], map[], map[])

  function Run(files: Files, steps: seq<Step>): Files {
    if steps == [] then files else Take(Run(files, steps[..|steps| - 1]), steps[|steps| - 1])
  }

  /** The evidence directory as an object whose files an attempt writes one by one. */
  class EvidenceStore {
    var results: map<ReceiptKey, ActivityResult>
    var observations: map<ReceiptKey, Observation>
    var receipts: map<ReceiptKey, Receipt>

    constructor ()
      ensures Contents() == EMPTY
    {
      results, observations, receipts := map[], map[], map[];
    }

    function Contents(): Files
      reads this
    {
      Files(results, observations, receipts)
    }

    /** Writes the activity result and the observation, dying after `crash` writes if that comes first. */
    method RecordObservation(a: Attempt, crash: Option<nat>) returns (alive: bool)
      requires WellFormed(a)
      modifies this
      ensures alive == (crash.None? || crash.value >= |ObservationWrites(old(Contents()), a)|)
      ensures var writes := ObservationWrites(old(Contents()), a);
              Contents() == ApplyAll(old(Contents()), if alive then writes else writes[..crash.value])
    {
      ghost var files := Contents();
      var key, written := ReceiptKeyOf(a.request), 0;
      ghost var done: seq<Write> := [];
      if a.result.Some? && key !in results {
        if crash == Some(0) {
          return false;
        }
        results, written := results[key := a.result.value], 1;
        ApplyNext(files, done, PutResult(key, a.result.value));
        done := done + [PutResult(key, a.result.value)];
      }
      assert ObservationWrites(files, a) == done + [PutObservation(key, Observe(a))];
      if crash == Some(written) {
        assert (done + [PutObservation(key, Observe(a))])[..written] == done;
        return false;
      }
      observations := observations[key := Observe(a)];
      ApplyNext(files, done, PutObservation(key, Observe(a)));
      return true;
    }

    /** `crash` names the number of writes after which the process dies. */
    method CommitOwnerReceipt(a: Attempt, crash: Option<nat>) returns (answer: Option<Result<Receipt, Error>>)
      modifies this
      ensures Contents() == Take(old(Contents()), Step(a, crash))
      ensures answer == Answer(old(Contents()), Step(a, crash))
    {
      ghost var files := Contents();
      var lives, key := crash.None?, ReceiptKeyOf(a.request);
      if a.ownerResult !in OWNER_RESULTS {
        return if lives then Some(Err(Contract)) else None;
      }
      if !a.fenced {
        return if lives then Some(Err(Authorization)) else None;
      }
      if !WellFormed(a) {
        return if lives then Some(Err(Contract)) else None;
      }
      if key in receipts {
        return if lives then Some(AnswerExisting(Contents(), a, receipts[key])) else None;
      }
      var left := crash;
      var observation;
      ghost var done: seq<Write> := [];
      if key in observations {
        observation := observations[key];
        var refusal := CheckPending(Contents(), a, observation);
        if refusal.Some? {
          return if lives then Some(Err(refusal.value)) else None;
        }
      } else {
        if a.now < a.request.startedAt || (a.ownerResult == "passed" && a.now >= a.request.context.expiresAt) {
          return if lives then Some(Err(Authorization)) else None;
        }
        if key in results && Some(results[key]) != a.result {
          return if lives then Some(Err(Mismatch)) else None;
        }
        var writes := |ObservationWrites(Contents(), a)|;
        observation, done := Observe(a), ObservationWrites(Contents(), a);
        var alive := RecordObservation(a, crash);
        if !alive {
          StopsWithin(files, a, done, crash.value);
          return None;
        }
        left := if crash.Some? then Some(crash.value - writes) else None;
      }
      assert Commit(files, a) == Complete(a, done, observation);
      answer := Seal(a, observation, left);
      Sealed(files, a, done, observation, crash);
    }

    /** The last write, or the refusal when the evidence references cannot be built. */
    method Seal(a: Attempt, observation: Observation, left: Option<nat>)
      returns (answer: Option<Result<Receipt, Error>>)
      modifies this
      ensures var plan := Complete(a, [], observation);
              && answer == (if left.None? then Some(plan.outcome) else None)
              && Contents() == if left == Some(0) then old(Contents()) else ApplyAll(old(Contents()), plan.writes)
    {
      ghost var files := Contents();
      var evidence := EvidenceRefs(a.request, OfObservation(observation), a.result);
      if evidence.Err? {
        return if left.None? then Some(Err(evidence.error)) else None;
      }
      if left == Some(0) {
        return None;
      }
      var receipt := BuildReceipt(a.request, observation, evidence.value);
      receipts := receipts[ReceiptKeyOf(a.request) := receipt];
      ApplyNext(files, [], PutReceipt(ReceiptKeyOf(a.request), receipt));
      assert [] + [PutReceipt(ReceiptKeyOf(a.request), receipt)] == Complete(a, [], observation).writes;
      answer := if left.None? then Some(Ok(receipt)) else None;
    }
  }
}
