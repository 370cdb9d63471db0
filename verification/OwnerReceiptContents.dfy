/** What a stored owner receipt says, field by field, after any run of attempts. */
module OwnerReceiptContents {
  import opened Common
  import opened ProofRequests
  import opened OwnerReceipts
  import opened OwnerReceiptRuns

  predicate Cites(body: ReceiptBody, target: Target, digest: Digest) {
    Ref(target, digest) in body.evidence
  }

  predicate CitesSource(body: ReceiptBody, source: Source) {
    Cites(body, Named(source.ref), Stated(source.digest))
  }

  /** The six parts of the owner context, each with its own digest. */
  predicate CitesContext(body: ReceiptBody, c: OwnerContext) {
    && Cites(body, Named(c.contextId), OfContext(c))
    && Cites(body, Named(c.authorizationId), Stated(c.authorizationDigest))
    && CitesSource(body, c.orchestration) && CitesSource(body, c.approval)
    && CitesSource(body, c.security) && CitesSource(body, c.consumption)
  }

  /** The files beside the receipt, with the digests of what they hold, and nothing besides. */
  predicate CitesFiles(body: ReceiptBody, files: Files, key: ReceiptKey)
    requires key in files.observations
  {
    && Cites(body, ObservationFile(key), OfObservation(files.observations[key]))
    && |body.evidence| == (if key in files.results then 9 else 7)
    && (key in files.results ==>
          var result := files.results[key];
          && Cites(body, ResultFile(key), OfResult(result))
          && result.validation.Some?
          && Cites(body, ValidationReceipt(result.validation.value.receiptId), Stated(result.validation.value.digest)))
  }

  predicate IsAbout(subject: Subject, q: Request) {
    && subject.authorizationId == q.context.authorizationId
    && subject.authorizationDigest == q.context.authorizationDigest
    && subject.sessionId == q.context.sessionId
    && subject.scenarioId == q.payload.scenarioId
    && subject.scenarioExecutionId == q.payload.scenarioExecutionId
    && subject.activityId == q.activityId
  }

  /** The observation records this attempt: what it brought and, to the millisecond, when. */
  predicate Records(o: Observation, a: Attempt) {
    && IsAbout(o.subject, a.request)
    && o.workflowId == a.request.payload.workflowId && o.workflowRunId == a.request.payload.workflowRunId
    && Some(o.kind) == a.kind && o.ownerResult == a.ownerResult
    && o.recordedAt <= a.now < o.recordedAt + 1000 && o.recordedAt % 1000 == 0
    && a.fenced && a.request.startedAt <= a.now && (a.ownerResult == "passed" ==> a.now < a.request.context.expiresAt)
    && o.bound == (if a.result.Some? && a.result.value.status.Some?
                   then Some(BoundResult(OfResult(a.result.value), a.result.value.status.value)) else None)
  }

  /** Some attempt of the run, under this key, made the observation. */
  ghost predicate Observed(steps: seq<Step>, key: ReceiptKey, o: Observation) {
    exists i :: 0 <= i < |steps| && ReceiptKeyOf(steps[i].attempt.request) == key && Records(o, steps[i].attempt)
  }

  lemma ObserveRecords(a: Attempt)
    requires WellFormed(a) && a.request.startedAt <= a.now
    requires a.ownerResult == "passed" ==> a.now < a.request.context.expiresAt
    ensures Records(Observe(a), a)
  {
  }

  /** A step leaves the observation under a key alone, or it puts there what it observed. */
  lemma StepObserves(files: Files, s: Step, key: ReceiptKey)
    requires Ordered(files) && key in Take(files, s).observations
    ensures || (key in files.observations && files.observations[key] == Take(files, s).observations[key])
            || (ReceiptKeyOf(s.attempt.request) == key && Records(Take(files, s).observations[key], s.attempt))
  {
    StepExtends(files, s);
    if ReceiptKeyOf(s.attempt.request) != key {
      WritesUnderKey(files, s.attempt);
      OtherWrites(files, Durable(files, s), key);
      assert Get(Take(files, s).observations, key) == Get(files.observations, key);
    } else if key !in files.observations {
      FirstAttemptLeaves(files, s);
      ObserveRecords(s.attempt);
    }
  }

  lemma {:induction false} EachObservationIsRecorded(steps: seq<Step>, key: ReceiptKey)
    requires key in Run(EMPTY, steps).observations
    ensures Observed(steps, key, Run(EMPTY, steps).observations[key])
    decreases |steps|
  {
    if steps != [] {
      var front, last := steps[..|steps| - 1], steps[|steps| - 1];
      RunExtends(EMPTY, front);
      StepObserves(Run(EMPTY, front), last, key);
      if key in Run(EMPTY, front).observations {
        EachObservationIsRecorded(front, key);
        var o := Run(EMPTY, front).observations[key];
        var i :| 0 <= i < |front| && ReceiptKeyOf(front[i].attempt.request) == key && Records(o, front[i].attempt);
        assert steps[i] == front[i];
      } else {
        assert steps[|steps| - 1] == last;
      }
    }
  }

  lemma BuiltReceiptCites(files: Files, owner: Request)
    requires Coherent(files, owner) && ReceiptKeyOf(owner) in files.receipts
    ensures var key := ReceiptKeyOf(owner);
            var body := files.receipts[key].body;
            && key in files.observations
            && CitesContext(body, owner.context) && CitesFiles(body, files, key)
            && IsAbout(body.subject, owner) && body.receiptRef == key
            && body.ownerResult == files.observations[key].ownerResult
            && body.recordedAt == files.observations[key].recordedAt
            && files.receipts[key].digest == OfReceipt(body)
  {
  }

  /**
   A receipt stored in any run is about its own request and cites each source of the owner context with
   that source's own digest, the files beside it with the digests of what they hold, and nothing else. Its
   verdict and time are those of the attempt that made the stored observation.
   */
  lemma ReceiptSaysWhatHappened(steps: seq<Step>, owner: Request)
    requires SharedOwner(steps, owner) && ReceiptKeyOf(owner) in Run(EMPTY, steps).receipts
    ensures var files, key := Run(EMPTY, steps), ReceiptKeyOf(owner);
            var body := files.receipts[key].body;
            && key in files.observations
            && CitesContext(body, owner.context) && CitesFiles(body, files, key)
            && IsAbout(body.subject, owner) && body.receiptRef == key && files.receipts[key].digest == OfReceipt(body)
            && body.ownerResult == files.observations[key].ownerResult
            && body.recordedAt == files.observations[key].recordedAt
            && Observed(steps, key, files.observations[key])
  {
    RunKeeps(EMPTY, steps, owner);
    BuiltReceiptCites(Run(EMPTY, steps), owner);
    EachObservationIsRecorded(steps, ReceiptKeyOf(owner));
  }

  /**
   Whatever the files hold, a receipt is loaded only when it is about this request, cites the context and the
   files beside it and nothing else, lies in the session's window, and agrees with an observation of the same
   activity, workflow, verdict, time and result.
   */
  lemma LoadedIsGenuine(files: Files, q: Request, receipt: Receipt)
    requires Load(files, q) == Ok(Some(receipt))
    ensures var key, body := ReceiptKeyOf(q), receipt.body;
            && key in files.receipts && files.receipts[key] == receipt && receipt.digest == OfReceipt(body)
            && body.receiptRef == key && IsAbout(body.subject, q)
            && body.ownerResult in {"passed", "failed", "blocked", "cancelled", "denied", "unavailable"}
            && q.context.sessionStartedAt <= body.recordedAt
            && (body.ownerResult == "passed" ==> body.recordedAt < q.context.expiresAt)
            && key in files.observations && CitesContext(body, q.context) && CitesFiles(body, files, key)
    ensures var key, body := ReceiptKeyOf(q), receipt.body;
            var o := files.observations[key];
            && IsAbout(o.subject, q) && o.workflowId == q.payload.workflowId
            && o.workflowRunId == q.payload.workflowRunId
            && o.ownerResult == body.ownerResult && o.recordedAt == body.recordedAt
            && ResultMatches(o, Get(files.results, key))
  {
  }
}
