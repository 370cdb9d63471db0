/**
 The registration services over the record store: one lock per idempotency key for the whole
 decision, recovery of an earlier outcome, planning, and planning again inside the commit.

 Intake and inventory share this protocol. The native policy is an arbitrary function of its
 context, the accepted input, owner readiness, the current record and the time.
 */
module InstanceIntake {
  import opened Common
  import opened InstanceRecords
  import opened InstanceRecordRuns

  datatype Plan = Plan(value: RecordValue, readiness: Name, readinessDigest: Name, decisionDigest: Name,
                       aiDecision: Option<Name>)

  type Policy = (Name, Input, Name, Option<Outcome>, int) -> Result<Plan, Error>

  /** A call that holds its key's lock, and how far it has come. */
  datatype Phase = Locked | Free | Planned(plan: Plan, now: int) | Opened(plan: Plan, now: int) | Drafted(write: Write)

  datatype Call = Call(accepting: bool, input: Input, actor: Name, attestation: Name, readiness: Name, phase: Phase)

  datatype Service = Service(db: Db, calls: map<nat, Call>, locks: map<OperationKey, nat>)

  datatype Answer = Found(outcome: Outcome) | NotFound

  function KeyOf(input: Input): OperationKey {
    OperationKey(input.instance, input.key)
  }

  /** What the lookup under the lock settles; None means an accept goes on to plan. */
  function Lookup(db: Db, call: Call): Option<Result<Answer, Error>> {
    match StoredOperation(db, KeyOf(call.input), if call.accepting then Some(call.actor) else None)
    case Err(e) => Some(Err(e))
    case Ok(None) => if call.accepting then None else Some(Ok(NotFound))
    case Ok(Some((command, outcome))) =>
      if command.decision.operatorInput != call.input then Some(Err(Conflict)) else Some(Ok(Found(outcome)))
  }

  function CommandFor(call: Call, plan: Plan): Command {
    Command(call.input.instance, call.input.record, call.input.key, call.input.expected, call.input.action, plan.value,
            Decision(call.input, call.attestation, plan.readiness))
  }

  /** The same command and caller, and the same plan again for the time of the first. */
  function Rechecked(policy: Policy, call: Call, plan: Plan, context: Name, now: int,
                     candidate: Command, actual: Option<Outcome>, caller: Name): Result<Evidence, Error>
  {
    if caller != call.actor || candidate != CommandFor(call, plan) then Err(Conflict) else
      match policy(context, call.input, call.readiness, actual, now)
      case Err(e) => Err(e)
      case Ok(checked) =>
        if checked != plan then Err(Conflict)
        else Ok(Evidence(context, checked.decisionDigest, checked.readinessDigest, call.input.body, checked.aiDecision))
  }

  /** The check the store runs inside the commit. */
  function Recheck(policy: Policy, call: Call, plan: Plan, context: Name,
                   now: int): (Command, Option<Outcome>, Name) -> Result<Evidence, Error>
  {
    (candidate: Command, actual: Option<Outcome>, caller: Name) =>
      Rechecked(policy, call, plan, context, now, candidate, actual, caller)
  }

  datatype Step =
    | Acquire(id: nat, call: Call)
    | LookUp(id: nat)
    | MakePlan(id: nat, context: Name, now: int)
    | OpenCommit(id: nat)
    | PrepareWrite(id: nat, context: Name, now: int)
    | EndCommit(id: nat)
    | Crash(id: nat)

  /** The call ends: its transaction is over and its lock is released. */
  function End(s: Service, id: nat): Service
    requires id in s.calls
  {
    s.(calls := s.calls - {id}, locks := s.locks - {KeyOf(s.calls[id].input)})
  }

  function Advance(s: Service, id: nat, phase: Phase): Service
    requires id in s.calls
  {
    s.(calls := s.calls[id := s.calls[id].(phase := phase)])
  }

  function TakeLocked(policy: Policy, s: Service, step: Step): Service
    requires !step.Acquire? && step.id in s.calls
  {
    var id, call := step.id, s.calls[step.id];
    match step
    case Crash(_) => End(s, id)
    case LookUp(_) =>
      if call.phase != Locked then s
      else if Lookup(s.db, call).None? then Advance(s, id, Free) else End(s, id)
    case MakePlan(_, context, now) =>
      if call.phase != Free then s else
        (match Current(s.db, RecordKey(call.input.instance, call.input.record))
         case Err(_) => End(s, id)
         case Ok(current) =>
           match policy(context, call.input, call.readiness, current, now)
           case Err(_) => End(s, id)
           case Ok(plan) => Advance(s, id, Planned(plan, now)))
    case OpenCommit(_) =>
      if !call.phase.Planned? then s
      else if KnownOutcome(s.db, CommandFor(call, call.phase.plan), call.actor).Some? then End(s, id)
      else Advance(s, id, Opened(call.phase.plan, call.phase.now))
    case PrepareWrite(_, context, now) =>
      if !call.phase.Opened? then s else
        var validate := Recheck(policy, call, call.phase.plan, context, call.phase.now);
        (match Prepare(s.db, CommandFor(call, call.phase.plan), call.actor, validate, now)
         case Finished(_) => End(s, id)
         case Ready(w) => Advance(s, id, Drafted(w)))
    case EndCommit(_) =>
      if !call.phase.Drafted? then s else
        (match Finish(s.db, call.phase.write)
         case Committed(db) => End(s, id).(db := db)
         case _ => End(s, id))
  }

  function Take(policy: Policy, s: Service, step: Step): Service {
    match step
    case Acquire(id, call) =>
      if id in s.calls || KeyOf(call.input) in s.locks || call.phase != Locked then s
      else Service(s.db, s.calls[id := call], s.locks[KeyOf(call.input) := id])
    case _ => if step.id in s.calls then TakeLocked(policy, s, step) else s
  }

  function Run(policy: Policy, s: Service, steps: seq<Step>): Service {
    if steps == [] then s else Take(policy, Run(policy, s, steps[..|steps| - 1]), steps[|steps| - 1])
  }

  const IDLE: Service := Service(Db(map[], map[], map[]), map[], map[])

  // ----- refinement: every service run is a run of the store

  predicate InCommit(phase: Phase) {
    phase.Opened? || phase.Drafted?
  }

  /** The store's view of a call whose commit has begun. */
  function FlightOf(call: Call): Flight
    requires InCommit(call.phase)
  {
    if call.phase.Opened? then InstanceRecordRuns.Looked(CommandFor(call, call.phase.plan), call.actor)
    else InstanceRecordRuns.Prepared(call.phase.write)
  }

  function Flights(s: Service): map<nat, Flight> {
    map id | id in s.calls && InCommit(s.calls[id].phase) :: FlightOf(s.calls[id])
  }

  function StoreView(s: Service): System {
    System(s.db, Flights(s))
  }

  /** Only the policy's answer to the actual current record matters to a commit. */
  lemma PrepareWithAnswer(db: Db, c: Command, actor: Name,
                          validate: (Command, Option<Outcome>, Name) -> Result<Evidence, Error>, now: int)
    returns (answer: Result<Evidence, Error>)
    ensures Prepare(db, c, actor, validate, now) == PrepareWith(db, c, actor, answer, now)
    ensures Current(db, RecordKey(c.instance, c.record)).Ok? ==>
              answer == validate(c, Current(db, RecordKey(c.instance, c.record)).value, actor)
  {
    var current := Current(db, RecordKey(c.instance, c.record));
    answer := if current.Ok? then validate(c, current.value, actor) else Err(Invalid);
  }

  /** The store after the move, if there is one. */
  function Moved(s: System, move: Option<InstanceRecordRuns.Step>): System {
    match move case None => s case Some(m) => InstanceRecordRuns.Take(s, m)
  }

  /** The store step a service step amounts to; None when the store does not notice. */
  lemma StoreStep(policy: Policy, s: Service, step: Step) returns (move: Option<InstanceRecordRuns.Step>)
    ensures StoreView(Take(policy, s, step)) == Moved(StoreView(s), move)
  {
    match step {
      case Acquire(_, _) =>
        move := None;
        QuietStep(policy, s, step);
      case LookUp(_) =>
        move := None;
        QuietStep(policy, s, step);
      case MakePlan(_, _, _) =>
        move := None;
        QuietStep(policy, s, step);
      case Crash(id) =>
        move := Some(InstanceRecordRuns.Abandon(id));
        CrashStep(policy, s, id);
      case OpenCommit(id) => move := OpenStep(policy, s, id);
      case PrepareWrite(id, context, now) => move := PrepareStep(policy, s, id, context, now);
      case EndCommit(id) => move := EndStep(policy, s, id);
    }
  }

  lemma FlightsAdvance(s: Service, id: nat, phase: Phase)
    requires id in s.calls
    ensures InCommit(phase) ==>
              Flights(Advance(s, id, phase)) == Flights(s)[id := FlightOf(s.calls[id].(phase := phase))]
    ensures !InCommit(s.calls[id].phase) && !InCommit(phase) ==> Flights(Advance(s, id, phase)) == Flights(s)
  {
  }

  lemma FlightsEnd(s: Service, id: nat)
    requires id in s.calls
    ensures Flights(End(s, id)) == Flights(s) - {id}
    ensures !InCommit(s.calls[id].phase) ==> Flights(End(s, id)) == Flights(s)
  {
  }

  /** Before its commit a call does not touch the store. */
  lemma QuietStep(policy: Policy, s: Service, step: Step)
    requires step.Acquire? || step.LookUp? || step.MakePlan?
    ensures StoreView(Take(policy, s, step)) == StoreView(s)
  {
    var t := Take(policy, s, step);
    if step.Acquire? {
      assert Flights(t) == Flights(s);
    } else if t != s {
      FlightsEnd(s, step.id);
      if step.id in t.calls {
        FlightsAdvance(s, step.id, t.calls[step.id].phase);
      }
    }
  }

  lemma CrashStep(policy: Policy, s: Service, id: nat)
    ensures StoreView(Take(policy, s, Crash(id))) ==
            InstanceRecordRuns.Take(StoreView(s), InstanceRecordRuns.Abandon(id))
  {
    if id in s.calls {
      FlightsEnd(s, id);
    } else {
      assert Flights(s) == Flights(s) - {id};
    }
  }

  lemma EndStep(policy: Policy, s: Service, id: nat) returns (move: Option<InstanceRecordRuns.Step>)
    ensures StoreView(Take(policy, s, EndCommit(id))) == Moved(StoreView(s), move)
  {
    move := None;
    if id in s.calls && s.calls[id].phase.Drafted? {
      move := Some(InstanceRecordRuns.FinishCommit(id));
      assert Flights(s)[id] == InstanceRecordRuns.Prepared(s.calls[id].phase.write);
      FlightsEnd(s, id);
      assert Flights(Take(policy, s, EndCommit(id))) == Flights(End(s, id));
    }
  }

  lemma OpenStep(policy: Policy, s: Service, id: nat) returns (move: Option<InstanceRecordRuns.Step>)
    ensures StoreView(Take(policy, s, OpenCommit(id))) == Moved(StoreView(s), move)
  {
    move := None;
    if id in s.calls && s.calls[id].phase.Planned? {
      var call := s.calls[id];
      var c := CommandFor(call, call.phase.plan);
      FlightsEnd(s, id);
      if KnownOutcome(s.db, c, call.actor).None? {
        move := Some(InstanceRecordRuns.StartCommit(id, c, call.actor));
        FlightsAdvance(s, id, Opened(call.phase.plan, call.phase.now));
      }
    }
  }

  lemma PrepareStep(policy: Policy, s: Service, id: nat, context: Name, now: int)
    returns (move: Option<InstanceRecordRuns.Step>)
    ensures StoreView(Take(policy, s, PrepareWrite(id, context, now))) == Moved(StoreView(s), move)
  {
    move := None;
    if id in s.calls && s.calls[id].phase.Opened? {
      var call := s.calls[id];
      var c := CommandFor(call, call.phase.plan);
      var validate := Recheck(policy, call, call.phase.plan, context, call.phase.now);
      var answer := PrepareWithAnswer(s.db, c, call.actor, validate, now);
      var begun := Prepare(s.db, c, call.actor, validate, now);
      move := Some(InstanceRecordRuns.PrepareCommit(id, answer, now));
      assert Flights(s)[id] == InstanceRecordRuns.Looked(c, call.actor);
      if begun.Ready? {
        FlightsAdvance(s, id, Drafted(begun.write));
      } else {
        FlightsEnd(s, id);
      }
    }
  }

  // ----- the service invariant

  /** The record a version replaced: nothing for version 1, else the revision before it. */
  ghost function Replaced(db: Db, key: RecordKey, version: int): Option<Outcome> {
    var before := RevisionKey(key, version - 1);
    if before in db.revisions then Some(Outcome(db.revisions[before].value, db.revisions[before].receipt)) else None
  }

  /** The policy, in some context and at some time, planned exactly this value for exactly that state. */
  ghost predicate PlannedFor(policy: Policy, input: Input, replaced: Option<Outcome>, value: RecordValue) {
    exists context, readiness, now ::
      && policy(context, input, readiness, replaced, now).Ok?
      && policy(context, input, readiness, replaced, now).value.value == value
  }

  ghost predicate WritePlanned(policy: Policy, db: Db, w: Write) {
    && w.version >= 1
    && (w.version > 1 ==> RevisionKey(w.key, w.version - 1) in db.revisions)
    && (w.version == 1 ==> RevisionKey(w.key, 0) !in db.revisions)
    && PlannedFor(policy, w.operation.command.decision.operatorInput, Replaced(db, w.key, w.version), w.revision.value)
  }

  ghost predicate OperationPlanned(policy: Policy, db: Db, key: OperationKey)
    requires key in db.operations
  {
    var op := db.operations[key];
    PlannedFor(policy, op.command.decision.operatorInput,
               Replaced(db, RecordKey(op.command.instance, op.command.record), op.outcome.receipt.body.version),
               op.outcome.value)
  }

  /** Every running call holds its own key's lock, and past the lookup no operation holds the key. */
  ghost predicate Serialized(s: Service) {
    && (forall id :: id in s.calls ==> KeyOf(s.calls[id].input) in s.locks && s.locks[KeyOf(s.calls[id].input)] == id)
    && (forall key :: key in s.locks ==> s.locks[key] in s.calls && KeyOf(s.calls[s.locks[key]].input) == key)
    && (forall id :: id in s.calls && s.calls[id].phase != Locked ==>
          s.calls[id].accepting && KeyOf(s.calls[id].input) !in s.db.operations)
    && (forall id :: id in s.calls && s.calls[id].phase.Drafted? ==>
          && s.calls[id].phase.write.opKey == KeyOf(s.calls[id].input)
          && s.calls[id].phase.write.operation.actor == s.calls[id].actor
          && s.calls[id].phase.write.operation.command.decision.operatorInput == s.calls[id].input)
  }

  ghost predicate ServiceIntact(policy: Policy, s: Service) {
    && Serialized(s) && Occurs(StoreView(s))
    && (forall id :: id in s.calls && s.calls[id].phase.Drafted? ==>
          WritePlanned(policy, s.db, s.calls[id].phase.write))
    && (forall key :: key in s.db.operations ==> OperationPlanned(policy, s.db, key))
  }

  // ----- steps keep it

  lemma PlannedStays(policy: Policy, before: Db, after: Db, w: Write)
    requires WritePlanned(policy, before, w) && Grows(before, after)
    requires RevisionKey(w.key, 0) !in after.revisions
    ensures WritePlanned(policy, after, w)
  {
  }

  lemma OperationPlannedStays(policy: Policy, before: Db, after: Db, key: OperationKey)
    requires Intact(before) && Intact(after) && Grows(before, after)
    requires key in before.operations && OperationPlanned(policy, before, key)
    ensures OperationPlanned(policy, after, key)
  {
    assert OperationIntact(before, key);
    var rk := RevisionOf(before, key);
    assert RevisionIntact(before, rk);
    NoVersionZero(after, rk.record);
    if rk.version > 1 {
      assert RowIntact(before, rk.record);
      assert RevisionKey(rk.record, rk.version - 1) in before.revisions;
    }
    assert Replaced(after, rk.record, rk.version) == Replaced(before, rk.record, rk.version);
  }

  lemma NoVersionZero(db: Db, key: RecordKey)
    requires Intact(db)
    ensures RevisionKey(key, 0) !in db.revisions
  {
    var rk := RevisionKey(key, 0);
    assert rk in db.revisions ==> RevisionIntact(db, rk);
  }

  /** A write prepared for a call was planned, twice, for the state it will replace. */
  lemma PreparedWasPlanned(policy: Policy, db: Db, call: Call, plan: Plan, context: Name, planned: int, now: int)
    requires Reachable(db)
    requires Prepare(db, CommandFor(call, plan), call.actor, Recheck(policy, call, plan, context, planned), now).Ready?
    ensures var w := Prepare(db, CommandFor(call, plan), call.actor, Recheck(policy, call, plan, context, planned),
                             now).write;
            && WritePlanned(policy, db, w)
            && w.opKey == KeyOf(call.input) && w.operation.actor == call.actor
            && w.operation.command.decision.operatorInput == call.input
  {
    var c := CommandFor(call, plan);
    var key := RecordKey(c.instance, c.record);
    var version, provider, evidence :=
      PrepareEstablishes(db, c, call.actor, Recheck(policy, call, plan, context, planned), now);
    CurrentIsReplaced(db, key);
    assert policy(context, call.input, call.readiness, Replaced(db, key, version), planned) == Ok(plan);
    BuiltIsPlanned(policy, db, call, plan, version, provider, context, planned, now, evidence);
  }

  lemma HeadStands(db: Db, key: RecordKey)
    requires Reachable(db)
    ensures RevisionKey(key, 0) !in db.revisions
    ensures key in db.records ==>
              db.records[key].version >= 1 && RevisionKey(key, db.records[key].version) in db.revisions
  {
    ReachableIsIntact(db);
    NoVersionZero(db, key);
    if key in db.records {
      assert RowIntact(db, key);
    }
  }

  /** The current record is the revision that the next version replaces. */
  lemma CurrentIsReplaced(db: Db, key: RecordKey)
    requires Reachable(db)
    ensures RevisionKey(key, 0) !in db.revisions
    ensures Current(db, key) == Ok(Replaced(db, key, if key in db.records then db.records[key].version + 1 else 1))
    ensures key in db.records ==>
              db.records[key].version >= 1 && RevisionKey(key, db.records[key].version) in db.revisions
  {
    HeadStands(db, key);
    CurrentReads(db, key);
  }

  lemma BuiltIsPlanned(policy: Policy, db: Db, call: Call, plan: Plan, version: int, provider: Option<Provider>,
                       context: Name,
                       planned: int, now: int, evidence: Evidence)
    requires var c := CommandFor(call, plan);
             var key := RecordKey(c.instance, c.record);
             && policy(context, call.input, call.readiness, Replaced(db, key, version), planned) == Ok(plan)
             && RevisionKey(key, 0) !in db.revisions
             && if key in db.records
                then version == db.records[key].version + 1 >= 2 && RevisionKey(key, version - 1) in db.revisions
                else version == 1
    ensures var w := BuildWrite(CommandFor(call, plan), call.actor, version, provider, now, evidence);
            && WritePlanned(policy, db, w)
            && w.opKey == KeyOf(call.input) && w.operation.actor == call.actor
            && w.operation.command.decision.operatorInput == call.input
  {
  }

  lemma SerializedEnd(s: Service, id: nat)
    requires Serialized(s) && id in s.calls
    ensures Serialized(End(s, id))
  {
  }

  lemma SerializedAdvance(s: Service, id: nat, phase: Phase)
    requires Serialized(s) && id in s.calls
    requires s.calls[id].accepting && KeyOf(s.calls[id].input) !in s.db.operations
    requires phase.Drafted? ==>
               && phase.write.opKey == KeyOf(s.calls[id].input) && phase.write.operation.actor == s.calls[id].actor
               && phase.write.operation.command.decision.operatorInput == s.calls[id].input
    ensures Serialized(Advance(s, id, phase))
  {
  }

  lemma SerializedAcquire(s: Service, id: nat, call: Call)
    requires Serialized(s) && id !in s.calls && KeyOf(call.input) !in s.locks && call.phase == Locked
    ensures Serialized(Service(s.db, s.calls[id := call], s.locks[KeyOf(call.input) := id]))
  {
  }

  /** A commit under its own lock leaves the keys of all other running calls unused. */
  lemma SerializedCommit(s: Service, id: nat, db: Db)
    requires Serialized(s) && id in s.calls
    requires forall key :: key in db.operations ==> key in s.db.operations || key == KeyOf(s.calls[id].input)
    ensures Serialized(End(s, id).(db := db))
  {
    var t := End(s, id).(db := db);
    forall other | other in t.calls && t.calls[other].phase != Locked
      ensures KeyOf(t.calls[other].input) !in t.db.operations
    {
      assert KeyOf(s.calls[other].input) != KeyOf(s.calls[id].input);
    }
  }

  lemma SerializedStep(policy: Policy, s: Service, step: Step)
    requires Serialized(s) && Reachable(s.db)
    ensures Serialized(Take(policy, s, step))
  {
    match step {
      case Acquire(id, call) =>
        if id !in s.calls && KeyOf(call.input) !in s.locks && call.phase == Locked {
          SerializedAcquire(s, id, call);
        }
      case _ =>
        if step.id in s.calls {
          SerializedLocked(policy, s, step);
        }
    }
  }

  lemma SerializedLocked(policy: Policy, s: Service, step: Step)
    requires Serialized(s) && Reachable(s.db) && !step.Acquire? && step.id in s.calls
    ensures Serialized(TakeLocked(policy, s, step))
  {
    var id, call := step.id, s.calls[step.id];
    SerializedEnd(s, id);
    match step {
      case Crash(_) =>
      case LookUp(_) =>
        if call.phase == Locked && Lookup(s.db, call).None? {
          assert KeyOf(call.input) !in s.db.operations;
          SerializedAdvance(s, id, Free);
        }
      case MakePlan(_, context, now) =>
        var t := TakeLocked(policy, s, step);
        if call.phase == Free && id in t.calls {
          SerializedAdvance(s, id, t.calls[id].phase);
        }
      case OpenCommit(_) =>
        if call.phase.Planned? && KnownOutcome(s.db, CommandFor(call, call.phase.plan), call.actor).None? {
          SerializedAdvance(s, id, Opened(call.phase.plan, call.phase.now));
        }
      case PrepareWrite(_, context, now) =>
        if call.phase.Opened? && Prepare(s.db, CommandFor(call, call.phase.plan), call.actor,
                                         Recheck(policy, call, call.phase.plan, context, call.phase.now), now).Ready? {
          PreparedWasPlanned(policy, s.db, call, call.phase.plan, context, call.phase.now, now);
          SerializedAdvance(s, id, TakeLocked(policy, s, step).calls[id].phase);
        }
      case EndCommit(_) =>
        if call.phase.Drafted? && Finish(s.db, call.phase.write).Committed? {
          SerializedCommit(s, id, Finish(s.db, call.phase.write).db);
        }
    }
  }

  /** The step's store move, as reachability and growth. */
  lemma StepOccurs(policy: Policy, s: Service, step: Step)
    requires Occurs(StoreView(s))
    ensures Occurs(StoreView(Take(policy, s, step)))
    ensures Reachable(s.db) && Reachable(Take(policy, s, step).db) && Grows(s.db, Take(policy, s, step).db)
  {
    var t := Take(policy, s, step);
    var move := StoreStep(policy, s, step);
    if move.Some? {
      OneStepOccurs(StoreView(s), move.value);
      LeadsToGrows(StoreView(s), StoreView(t));
    }
    assert StoreView(s).db == s.db && StoreView(t).db == t.db;
  }

  /** A prepared call was prepared before, or is being prepared by this very step. */
  lemma PreparedCalls(policy: Policy, s: Service, step: Step, id: nat)
    requires id in Take(policy, s, step).calls && Take(policy, s, step).calls[id].phase.Drafted?
    ensures id in s.calls
    ensures s.calls[id].phase == Take(policy, s, step).calls[id].phase ||
            (&& step.PrepareWrite? && step.id == id && s.calls[id].phase.Opened?
             && var call := s.calls[id];
             && Prepare(s.db, CommandFor(call, call.phase.plan), call.actor,
                      Recheck(policy, call, call.phase.plan, step.context, call.phase.now), step.now)
                == Ready(Take(policy, s, step).calls[id].phase.write))
  {
  }

  /** Only the end of a prepared call's commit stores an operation: that call's. */
  lemma NewOperations(policy: Policy, s: Service, step: Step, key: OperationKey)
    requires Serialized(s) && key in Take(policy, s, step).db.operations && key !in s.db.operations
    ensures && step.EndCommit? && step.id in s.calls && s.calls[step.id].phase.Drafted?
            && Finish(s.db, s.calls[step.id].phase.write) == Committed(Take(policy, s, step).db)
            && key == s.calls[step.id].phase.write.opKey
  {
  }

  lemma WritesStayPlanned(policy: Policy, s: Service, step: Step, id: nat)
    requires ServiceIntact(policy, s)
    requires id in Take(policy, s, step).calls && Take(policy, s, step).calls[id].phase.Drafted?
    ensures WritePlanned(policy, Take(policy, s, step).db, Take(policy, s, step).calls[id].phase.write)
  {
    var t := Take(policy, s, step);
    StepOccurs(policy, s, step);
    var w := t.calls[id].phase.write;
    ReachableIsIntact(t.db);
    NoVersionZero(t.db, w.key);
    PreparedCalls(policy, s, step, id);
    if s.calls[id].phase != t.calls[id].phase {
      PreparedWasPlanned(policy, s.db, s.calls[id], s.calls[id].phase.plan, step.context, s.calls[id].phase.now,
                         step.now);
    }
    PlannedStays(policy, s.db, t.db, w);
  }

  /** What a commit stores is what its write had planned for the state it replaced. */
  lemma CommittedWasPlanned(policy: Policy, db: Db, w: Write, after: Db)
    requires WriteIntact(db, w) && Finish(db, w) == Committed(after) && WritePlanned(policy, db, w)
    requires Grows(db, after) && RevisionKey(w.key, 0) !in after.revisions
    ensures w.opKey in after.operations && OperationPlanned(policy, after, w.opKey)
  {
    FinishAppends(db, w, after);
    PlannedStays(policy, db, after, w);
  }

  lemma OperationsStayPlanned(policy: Policy, s: Service, step: Step, key: OperationKey)
    requires ServiceIntact(policy, s) && key in Take(policy, s, step).db.operations
    ensures OperationPlanned(policy, Take(policy, s, step).db, key)
  {
    var t := Take(policy, s, step);
    StepOccurs(policy, s, step);
    ReachableIsIntact(t.db);
    if key in s.db.operations {
      ReachableIsIntact(s.db);
      OperationPlannedStays(policy, s.db, t.db, key);
    } else {
      NewOperations(policy, s, step, key);
      var w := s.calls[step.id].phase.write;
      PreparedFlight(s, step.id);
      NoVersionZero(t.db, w.key);
      CommittedWasPlanned(policy, s.db, w, t.db);
    }
  }

  lemma PreparedFlight(s: Service, id: nat)
    requires Occurs(StoreView(s)) && id in s.calls && s.calls[id].phase.Drafted?
    ensures WriteIntact(s.db, s.calls[id].phase.write)
  {
    OccursIntact(StoreView(s));
    assert Flights(s)[id] == InstanceRecordRuns.Prepared(s.calls[id].phase.write);
  }

  lemma StepKeeps(policy: Policy, s: Service, step: Step)
    requires ServiceIntact(policy, s)
    ensures ServiceIntact(policy, Take(policy, s, step))
  {
    var t := Take(policy, s, step);
    StepOccurs(policy, s, step);
    SerializedStep(policy, s, step);
    forall id | id in t.calls && t.calls[id].phase.Drafted?
      ensures WritePlanned(policy, t.db, t.calls[id].phase.write)
    {
      WritesStayPlanned(policy, s, step, id);
    }
    forall key | key in t.db.operations
      ensures OperationPlanned(policy, t.db, key)
    {
      OperationsStayPlanned(policy, s, step, key);
    }
  }

  lemma {:induction false} RunKeeps(policy: Policy, s: Service, steps: seq<Step>)
    requires ServiceIntact(policy, s)
    ensures ServiceIntact(policy, Run(policy, s, steps)) && Reachable(s.db)
    ensures Reachable(Run(policy, s, steps).db) && Grows(s.db, Run(policy, s, steps).db)
    decreases |steps|
  {
    assert StoreView(s).db == s.db;
    if steps != [] {
      var before := Run(policy, s, steps[..|steps| - 1]);
      RunKeeps(policy, s, steps[..|steps| - 1]);
      StepKeeps(policy, before, steps[|steps| - 1]);
      StepOccurs(policy, before, steps[|steps| - 1]);
    }
  }

  lemma IdleIsIntact(policy: Policy)
    ensures ServiceIntact(policy, IDLE)
  {
    assert Flights(IDLE) == map[];
    assert InstanceRecordRuns.Run(EMPTY, []) == StoreView(IDLE);
  }

  // ----- main results

  /** Some run of the service leads to `s`. */
  ghost predicate Arises(policy: Policy, s: Service) {
    exists steps :: Run(policy, IDLE, steps) == s
  }

  lemma ArisesIntact(policy: Policy, s: Service)
    requires Arises(policy, s)
    ensures ServiceIntact(policy, s) && Reachable(s.db)
  {
    var steps :| Run(policy, IDLE, steps) == s;
    IdleIsIntact(policy);
    RunKeeps(policy, IDLE, steps);
  }

  /**
   Once an operation is stored, every later lookup under its key gives its first outcome to an
   exact retry or readback, and a conflict to any other input or caller, without changing state.
   */
  lemma RetriesGetFirstOutcome(policy: Policy, s: Service, steps: seq<Step>, key: OperationKey, call: Call)
    requires Arises(policy, s) && key in s.db.operations && KeyOf(call.input) == key
    ensures var op := s.db.operations[key];
            Lookup(Run(policy, s, steps).db, call) ==
            if (call.accepting ==> call.actor == op.actor) && call.input == op.command.decision.operatorInput
            then Some(Ok(Found(op.outcome))) else Some(Err(Conflict))
  {
    ArisesIntact(policy, s);
    RunKeeps(policy, s, steps);
    LookupStored(Run(policy, s, steps).db, key, call);
  }

  /** A stored operation answers its own caller and input, and conflicts for anyone and anything else. */
  lemma LookupStored(db: Db, key: OperationKey, call: Call)
    requires Reachable(db) && key in db.operations && KeyOf(call.input) == key
    ensures var op := db.operations[key];
            Lookup(db, call) ==
            if (call.accepting ==> call.actor == op.actor) && call.input == op.command.decision.operatorInput
            then Some(Ok(Found(op.outcome))) else Some(Err(Conflict))
  {
    var op := db.operations[key];
    ReachableIsIntact(db);
    assert OperationIntact(db, key);
    ReplayAnswers(db, key, op.command, op.actor);
  }

  /** A lookup that settles the call ends it and leaves the database as it was. */
  lemma SettledLookupKeepsState(policy: Policy, s: Service, id: nat)
    requires id in s.calls && s.calls[id].phase == Locked
    ensures Take(policy, s, LookUp(id)).db == s.db
    ensures Lookup(s.db, s.calls[id]).Some? ==> id !in Take(policy, s, LookUp(id)).calls
  {
  }

  /** Every stored record is the policy's plan for exactly the revision it replaced. */
  lemma StoredRecordWasPlanned(policy: Policy, s: Service, key: OperationKey)
    requires Arises(policy, s) && key in s.db.operations
    ensures RevisionOf(s.db, key) in s.db.revisions
    ensures PlannedFor(policy, s.db.operations[key].command.decision.operatorInput,
                       Replaced(s.db, RevisionOf(s.db, key).record, RevisionOf(s.db, key).version),
                       s.db.revisions[RevisionOf(s.db, key)].value)
  {
    ArisesIntact(policy, s);
    ReachableIsIntact(s.db);
    assert OperationIntact(s.db, key);
    assert OperationPlanned(policy, s.db, key);
  }

  /**
   While a call holds its key's lock no other call on the key is running, so a readback that finds
   nothing cannot be overtaken by an earlier accept, and a prepared accept still finds its key free.
   */
  lemma OneCallPerKey(policy: Policy, s: Service, id: nat, other: nat)
    requires Arises(policy, s) && id in s.calls && other in s.calls
    ensures KeyOf(s.calls[id].input) == KeyOf(s.calls[other].input) ==> id == other
    ensures s.calls[id].phase.Drafted? ==> s.calls[id].phase.write.opKey !in s.db.operations
  {
    ArisesIntact(policy, s);
  }

  // ----- an accept that runs alone

  /** The three steps of its commit. */
  function CommitSteps(policy: Policy, s: Service, id: nat, later: Name, at: int): Service {
    Take(policy, Take(policy, Take(policy, s, OpenCommit(id)), PrepareWrite(id, later, at)), EndCommit(id))
  }

  /** All its steps, in `context` and again in `later`, with nothing in between. */
  function AcceptAlone(policy: Policy, s: Service, id: nat, call: Call, context: Name, now: int, later: Name,
                       at: int): Service
  {
    var held := Take(policy, s, Acquire(id, call));
    var looked := Take(policy, held, LookUp(id));
    CommitSteps(policy, Take(policy, looked, MakePlan(id, context, now)), id, later, at)
  }

  /** An ended call takes no more steps. */
  lemma NoSuchCall(policy: Policy, s: Service, id: nat, later: Name, at: int)
    requires id !in s.calls
    ensures CommitSteps(policy, s, id, later, at) == s
  {
  }

  lemma EndedStays(policy: Policy, s: Service, id: nat)
    requires id !in s.calls
    ensures Take(policy, s, EndCommit(id)) == s
  {
  }

  /** Two policies that answer alike for the current record prepare alike. */
  lemma PrepareAgrees(db: Db, c: Command, actor: Name,
                      validate: (Command, Option<Outcome>, Name) -> Result<Evidence, Error>,
                      other: (Command, Option<Outcome>, Name) -> Result<Evidence, Error>, at: int)
    requires forall current :: validate(c, current, actor) == other(c, current, actor)
    ensures Prepare(db, c, actor, validate, at) == Prepare(db, c, actor, other, at)
  {
  }

  lemma RecheckIgnoresPhase(policy: Policy, call: Call, phase: Phase, plan: Plan, context: Name, now: int, c: Command,
                            current: Option<Outcome>, actor: Name)
    ensures Recheck(policy, call.(phase := phase), plan, context, now)(c, current, actor) ==
            Recheck(policy, call, plan, context, now)(c, current, actor)
  {
  }

  /** Preparing inside the steps is preparing for the call as it was. */
  lemma StepsPrepare(policy: Policy, s: Service, call: Call, plan: Plan, later: Name, now: int, at: int)
    ensures var c, mid := CommandFor(call, plan), call.(phase := Opened(plan, now));
            Prepare(s.db, c, call.actor, Recheck(policy, mid, plan, later, now), at) ==
            Prepare(s.db, c, call.actor, Recheck(policy, call, plan, later, now), at)
  {
    var c, mid := CommandFor(call, plan), call.(phase := Opened(plan, now));
    var validate, again := Recheck(policy, call, plan, later, now), Recheck(policy, mid, plan, later, now);
    forall current
      ensures validate(c, current, call.actor) == again(c, current, call.actor)
    {
      RecheckIgnoresPhase(policy, call, Opened(plan, now), plan, later, now, c, current, call.actor);
    }
    PrepareAgrees(s.db, c, call.actor, validate, again, at);
  }

  lemma OpenEffect(policy: Policy, s: Service, id: nat)
    requires id in s.calls && s.calls[id].phase.Planned?
    ensures var call := s.calls[id];
            Take(policy, s, OpenCommit(id)) ==
            if KnownOutcome(s.db, CommandFor(call, call.phase.plan), call.actor).Some? then End(s, id)
            else Advance(s, id, Opened(call.phase.plan, call.phase.now))
  {
  }

  lemma PrepareEffect(policy: Policy, s: Service, id: nat, later: Name, at: int)
    requires id in s.calls && s.calls[id].phase.Opened?
    ensures var call := s.calls[id];
            var validate := Recheck(policy, call, call.phase.plan, later, call.phase.now);
            var begun := Prepare(s.db, CommandFor(call, call.phase.plan), call.actor, validate, at);
            Take(policy, s, PrepareWrite(id, later, at)) ==
            if begun.Ready? then Advance(s, id, Drafted(begun.write)) else End(s, id)
  {
  }

  lemma EndEffect(policy: Policy, s: Service, id: nat)
    requires id in s.calls && s.calls[id].phase.Drafted?
    ensures var written := Finish(s.db, s.calls[id].phase.write);
            Take(policy, s, EndCommit(id)) == End(s, id).(db := if written.Committed? then written.db else s.db)
  {
  }

  lemma EndAdvanced(s: Service, id: nat, phase: Phase)
    requires id in s.calls
    ensures End(Advance(s, id, phase), id) == End(s, id)
  {
    assert s.calls[id := s.calls[id].(phase := phase)] - {id} == s.calls - {id};
  }

  lemma CommitStepsCommit(policy: Policy, s: Service, id: nat, later: Name, at: int)
    requires id in s.calls && s.calls[id].phase.Planned?
    ensures var call := s.calls[id];
            var plan := call.phase.plan;
            var validate := Recheck(policy, call, plan, later, call.phase.now);
            CommitSteps(policy, s, id, later, at) ==
            End(s, id).(db := CommitAlone(s.db, CommandFor(call, plan), call.actor, validate, at).0)
  {
    var call := s.calls[id];
    var plan, now := call.phase.plan, call.phase.now;
    OpenEffect(policy, s, id);
    if KnownOutcome(s.db, CommandFor(call, plan), call.actor).Some? {
      NoSuchCall(policy, End(s, id), id, later, at);
    } else {
      var started := Advance(s, id, Opened(plan, now));
      PrepareEffect(policy, started, id, later, at);
      StepsPrepare(policy, s, call, plan, later, now, at);
      EndAdvanced(s, id, Opened(plan, now));
      var begun := Prepare(s.db, CommandFor(call, plan), call.actor, Recheck(policy, call, plan, later, now), at);
      if begun.Ready? {
        var drafted := Advance(started, id, Drafted(begun.write));
        EndEffect(policy, drafted, id);
        EndAdvanced(started, id, Drafted(begun.write));
      } else {
        EndedStays(policy, End(s, id), id);
      }
    }
  }

  /** The call in a phase, holding its lock, next to everything else. */
  function Holding(s: Service, id: nat, call: Call, phase: Phase): Service {
    Service(s.db, s.calls[id := call.(phase := phase)], s.locks[KeyOf(call.input) := id])
  }

  lemma HoldingEnds(s: Service, id: nat, call: Call, phase: Phase)
    requires id !in s.calls && KeyOf(call.input) !in s.locks
    ensures End(Holding(s, id, call, phase), id) == s
  {
    assert s.calls[id := call.(phase := phase)] - {id} == s.calls;
    assert s.locks[KeyOf(call.input) := id] - {KeyOf(call.input)} == s.locks;
  }

  lemma AcceptLooks(policy: Policy, s: Service, id: nat, call: Call)
    requires id !in s.calls && KeyOf(call.input) !in s.locks
    requires call.phase == Locked && call.accepting && KeyOf(call.input) !in s.db.operations
    ensures Take(policy, Take(policy, s, Acquire(id, call)), LookUp(id)) == Holding(s, id, call, Free)
  {
    var held := Take(policy, s, Acquire(id, call));
    assert held == Holding(s, id, call, Locked) && held.calls[id] == call;
    assert Lookup(s.db, call).None?;
  }

  lemma PlanEffect(policy: Policy, s: Service, id: nat, context: Name, now: int)
    requires Reachable(s.db) && id in s.calls && s.calls[id].phase == Free
    ensures var call := s.calls[id];
            var head := HeadOutcome(s.db, RecordKey(call.input.instance, call.input.record));
            var planned := policy(context, call.input, call.readiness, head, now);
            Take(policy, s, MakePlan(id, context, now)) ==
            if planned.Ok? then Advance(s, id, Planned(planned.value, now)) else End(s, id)
  {
    HeadReads(s.db, RecordKey(s.calls[id].input.instance, s.calls[id].input.record));
  }

  lemma AcceptPlans(policy: Policy, s: Service, id: nat, call: Call, context: Name, now: int)
    requires Reachable(s.db) && id !in s.calls && KeyOf(call.input) !in s.locks
    ensures var head := HeadOutcome(s.db, RecordKey(call.input.instance, call.input.record));
            var planned := policy(context, call.input, call.readiness, head, now);
            Take(policy, Holding(s, id, call, Free), MakePlan(id, context, now)) ==
            if planned.Ok? then Holding(s, id, call, Planned(planned.value, now)) else s
  {
    PlanEffect(policy, Holding(s, id, call, Free), id, context, now);
    HoldingEnds(s, id, call, Free);
  }

  /** The command says what the operator accepted, what was planned for it and what attests it. */
  predicate Carries(c: Command, call: Call, plan: Plan) {
    && c.instance == call.input.instance && c.record == call.input.record && c.key == call.input.key
    && c.expected == call.input.expected && c.action == call.input.action && c.value == plan.value
    && c.decision.operatorInput == call.input && c.decision.attestation == call.attestation
    && c.decision.readiness == plan.readiness
  }

  /** What an accepted call stores: the policy's plan as the next version, with the evidence of the second planning. */
  ghost predicate StoresPlan(db: Db, after: Db, call: Call, plan: Plan, later: Name, at: int) {
    var head := HeadOutcome(db, RecordKey(call.input.instance, call.input.record));
    var version := if head.Some? then head.value.receipt.body.version + 1 else 1;
    var evidence := Evidence(later, plan.decisionDigest, plan.readinessDigest, call.input.body, plan.aiDecision);
    && KeyOf(call.input) in after.operations
    && var c := after.operations[KeyOf(call.input)].command;
    && var outcome := after.operations[KeyOf(call.input)].outcome;
    && Carries(c, call, plan)
    && outcome.value == plan.value && ReceiptFor(outcome.receipt, c, call.actor, version, at, evidence)
    && Stores(db, after, c, call.actor, version, evidence, outcome)
  }

  /** The plan stands: it is made again, for the head the operator saw, and the store has room for it. */
  ghost predicate PlanStands(policy: Policy, db: Db, call: Call, plan: Plan, later: Name, now: int) {
    var c := CommandFor(call, plan);
    && policy(later, call.input, call.readiness, HeadOutcome(db, RecordKey(c.instance, c.record)), now) == Ok(plan)
    && ExpectsHead(db, c) && BindingAllowed(db, c) && DecisionUnused(db, c.instance, plan.aiDecision)
  }

  lemma PlanCommits(policy: Policy, db: Db, call: Call, plan: Plan, later: Name, now: int, at: int)
    requires Reachable(db) && KeyOf(call.input) !in db.operations
    ensures var after := CommitAlone(db, CommandFor(call, plan), call.actor, Recheck(policy, call, plan, later, now),
                                     at).0;
            if PlanStands(policy, db, call, plan, later, now) then StoresPlan(db, after, call, plan, later, at)
            else after == db
  {
    var c, validate := CommandFor(call, plan), Recheck(policy, call, plan, later, now);
    HeadReads(db, RecordKey(c.instance, c.record));
    if ValidCommand(c) {
      CommitsExactly(db, c, call.actor, validate, at);
    }
  }

  /**
   An accept that finds its key free and unlocked and meets nobody stores its plan exactly when the policy
   plans for the current head, plans the same again inside the commit, the operator saw that head, and the
   provider binding and AI decision are free for it. Otherwise nothing is stored, and either way its lock is
   released and other calls are as before.
   */
  lemma AcceptsExactly(policy: Policy, s: Service, id: nat, call: Call, context: Name, now: int, later: Name, at: int)
    requires Arises(policy, s) && id !in s.calls && KeyOf(call.input) !in s.locks
    requires call.phase == Locked && call.accepting && KeyOf(call.input) !in s.db.operations
    ensures var t := AcceptAlone(policy, s, id, call, context, now, later, at);
            var key := RecordKey(call.input.instance, call.input.record);
            var planned := policy(context, call.input, call.readiness, HeadOutcome(s.db, key), now);
            && t.calls == s.calls && t.locks == s.locks
            && if planned.Ok? && PlanStands(policy, s.db, call, planned.value, later, now)
               then StoresPlan(s.db, t.db, call, planned.value, later, at)
               else t.db == s.db
  {
    var key := RecordKey(call.input.instance, call.input.record);
    var planned := policy(context, call.input, call.readiness, HeadOutcome(s.db, key), now);
    ArisesIntact(policy, s);
    AcceptLooks(policy, s, id, call);
    AcceptPlans(policy, s, id, call, context, now);
    if planned.Ok? {
      CommitStepsCommit(policy, Holding(s, id, call, Planned(planned.value, now)), id, later, at);
      HoldingEnds(s, id, call, Planned(planned.value, now));
      PlanOfPlanned(policy, s.db, call, planned.value, later, now, at);
    } else {
      NoSuchCall(policy, s, id, later, at);
    }
  }

  /** The same for the call as it stands after planning. */
  lemma PlanOfPlanned(policy: Policy, db: Db, call: Call, plan: Plan, later: Name, now: int, at: int)
    requires Reachable(db) && KeyOf(call.input) !in db.operations
    ensures var mid := call.(phase := Planned(plan, now));
            var after :=
              CommitAlone(db, CommandFor(mid, plan), mid.actor, Recheck(policy, mid, plan, later, now), at).0;
            if PlanStands(policy, db, call, plan, later, now) then StoresPlan(db, after, call, plan, later, at)
            else after == db
  {
    var mid := call.(phase := Planned(plan, now));
    PlanCommits(policy, db, mid, plan, later, now, at);
    assert CommandFor(mid, plan) == CommandFor(call, plan);
  }
}
