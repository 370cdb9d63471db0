/**
 Controlled-proof requests: a payload authorised against one mounted owner context.

 Digests are modelled by their preimages. Instants are microseconds; identifiers, digests and
 timestamps are taken as already checked for shape.
 */
module ProofRequests {
  import opened Common

  type Name = string

  datatype Source = Source(ref: Name, digest: Name)

  /** The mounted, digest-pinned owner context. */
  datatype OwnerContext = OwnerContext(contextId: Name, authorizationId: Name, authorizationDigest: Name,
                                       sessionId: Name, sessionStartedAt: int, expiresAt: int,
                                       orchestration: Source, approval: Source, security: Source, consumption: Source,
                                       scenarios: map<Name, Name>)

  datatype Payload = Payload(idempotencyKey: Name, workflowId: Name, workflowRunId: Name, scenarioId: Name,
                             scenarioExecutionId: Name, rest: Name)

  /** A request with the activity that carries it; every attempt of an activity has its own start. */
  datatype Request = Request(context: OwnerContext, payload: Payload, activityId: Name, startedAt: int)

  predicate Authorized(q: Request) {
    && q.context.sessionStartedAt <= q.startedAt < q.context.expiresAt
    && q.payload.scenarioExecutionId in q.context.scenarios
    && q.context.scenarios[q.payload.scenarioExecutionId] == q.payload.scenarioId
  }

  datatype ScenarioKey = ScenarioKey(authorizationDigest: Name, sessionId: Name, executionId: Name)
  datatype ReceiptKey = ReceiptKey(scenario: ScenarioKey, activityId: Name)

  function ScenarioKeyOf(q: Request): ScenarioKey {
    ScenarioKey(q.context.authorizationDigest, q.context.sessionId, q.payload.scenarioExecutionId)
  }

  function ReceiptKeyOf(q: Request): ReceiptKey {
    ReceiptKey(ScenarioKeyOf(q), q.activityId)
  }

  /** What the scenario binding file holds. */
  datatype ScenarioRecord = ScenarioRecord(context: OwnerContext, executionId: Name, workflowId: Name,
                                           workflowRunId: Name)

  function ScenarioRecordOf(q: Request): ScenarioRecord {
    ScenarioRecord(q.context, q.payload.scenarioExecutionId, q.payload.workflowId, q.payload.workflowRunId)
  }
}
