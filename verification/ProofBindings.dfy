/**
 Binding a controlled-proof request: two files, each under its own advisory lock. A call takes the
 scenario lock, then the binding lock, reads both files, and writes what is missing, the scenario
 file first. Calls run interleaved and may die anywhere; the system then frees their locks.
 */
module ProofBindings {
  import opened Common
  import opened ProofRequests
  import OwnerReceipts
  import OwnerReceiptRuns

  type Pid = nat

  /** Equal digests mean equal contents, so the record holds the context and the payload themselves. */
  datatype BindingRecord = BindingRecord(context: OwnerContext, payload: Payload)

  datatype Phase = Arrived | HoldsScenario | HoldsBoth
                 | ScenarioRead(scenarioMissing: bool)
                 | BothRead(scenarioMissing: bool, bindingMissing: bool)
                 | ScenarioWritten(bindingMissing: bool)
                 | Finished(bound: bool) | Crashed

  datatype Call = Call(request: Request, phase: Phase)

  datatype System = System(scenarios: map<ScenarioKey, ScenarioRecord>, bindings: map<Name, BindingRecord>,
                           scenarioLocks: map<ScenarioKey, Pid>, bindingLocks: map<Name, Pid>, calls: map<Pid, Call>)

  const EMPTY := System(map[], map[], map[], map[], map[])

  function BindingRecordOf(q: Request): BindingRecord {
    BindingRecord(q.context, q.payload)
  }

  predicate Live(p: Phase) {
    !p.Finished? && !p.Crashed?
  }

  predicate HasScenarioLock(p: Phase) {
    Live(p) && !p.Arrived?
  }

  predicate HasBindingLock(p: Phase) {
    HasScenarioLock(p) && !p.HoldsScenario?
  }

  /** What a call does next; it waits while the lock it wants is taken. */
  predicate CanAdvance(s: System, pid: Pid) {
    && pid in s.calls && Live(s.calls[pid].phase)
    && (s.calls[pid].phase.Arrived? ==> ScenarioKeyOf(s.calls[pid].request) !in s.scenarioLocks)
    && (s.calls[pid].phase.HoldsScenario? ==> s.calls[pid].request.payload.idempotencyKey !in s.bindingLocks)
  }

  function NextPhase(s: System, c: Call): Phase {
    var scenario, key := ScenarioKeyOf(c.request), c.request.payload.idempotencyKey;
    match c.phase
    case Arrived => HoldsScenario
    case HoldsScenario => HoldsBoth
    case HoldsBoth =>
      if scenario in s.scenarios && s.scenarios[scenario] != ScenarioRecordOf(c.request) then Finished(false)
      else ScenarioRead(scenario !in s.scenarios)
    case ScenarioRead(scenarioMissing) =>
      if key in s.bindings && s.bindings[key] != BindingRecordOf(c.request) then Finished(false)
      else BothRead(scenarioMissing, key !in s.bindings)
    case BothRead(_, bindingMissing) => ScenarioWritten(bindingMissing)
    case ScenarioWritten(_) => Finished(true)
    case ended => ended
  }

  function NextScenarios(s: System, c: Call): map<ScenarioKey, ScenarioRecord> {
    if c.phase.BothRead? && c.phase.scenarioMissing
    then s.scenarios[ScenarioKeyOf(c.request) := ScenarioRecordOf(c.request)]
    else s.scenarios
  }

  function NextBindings(s: System, c: Call): map<Name, BindingRecord> {
    if c.phase == ScenarioWritten(true) then s.bindings[c.request.payload.idempotencyKey := BindingRecordOf(c.request)]
    else s.bindings
  }

  /** A lock changes hands when a call's phase gains or loses it. */
  function Relock<K>(locks: map<K, Pid>, key: K, pid: Pid, before: bool, after: bool): map<K, Pid> {
    if !before && after then locks[key := pid]
    else if before && !after then locks - {key}
    else locks
  }

  /** The call moves to `phase`, taking or giving back the locks that go with it. */
  function Move(s: System, pid: Pid, phase: Phase): System
    requires pid in s.calls
  {
    var c := s.calls[pid];
    System(s.scenarios, s.bindings,
           Relock(s.scenarioLocks, ScenarioKeyOf(c.request), pid, HasScenarioLock(c.phase), HasScenarioLock(phase)),
           Relock(s.bindingLocks, c.request.payload.idempotencyKey, pid, HasBindingLock(c.phase),
                  HasBindingLock(phase)),
           s.calls[pid := Call(c.request, phase)])
  }

  function Advance(s: System, pid: Pid): System
    requires CanAdvance(s, pid)
  {
    var c := s.calls[pid];
    Move(s, pid, NextPhase(s, c)).(scenarios := NextScenarios(s, c), bindings := NextBindings(s, c))
  }

  function WithCall(s: System, pid: Pid, c: Call): System {
    System(s.scenarios, s.bindings, s.scenarioLocks, s.bindingLocks, s.calls[pid := c])
  }

  datatype Event = Arrive(pid: Pid, request: Request) | Proceed(pid: Pid) | Die(pid: Pid)

  /** An event that is not possible changes nothing. */
  function Take(s: System, e: Event): System {
    match e
    case Arrive(pid, request) =>
      if pid in s.calls || !Authorized(request) then s else WithCall(s, pid, Call(request, Arrived))
    case Proceed(pid) => if CanAdvance(s, pid) then Advance(s, pid) else s
    case Die(pid) => if pid in s.calls && Live(s.calls[pid].phase) then Move(s, pid, Crashed) else s
  }

  function Run(s: System, events: seq<Event>): System {
    if events == [] then s else Take(Run(s, events[..|events| - 1]), events[|events| - 1])
  }

  // ----- what every step keeps

  /** Each lock belongs to exactly the call whose phase says so. */
  predicate LockKept(s: System, pid: Pid)
    requires pid in s.calls
  {
    var c := s.calls[pid];
    && (HasScenarioLock(c.phase) <==> Get(s.scenarioLocks, ScenarioKeyOf(c.request)) == Some(pid))
    && (HasBindingLock(c.phase) <==> Get(s.bindingLocks, c.request.payload.idempotencyKey) == Some(pid))
  }

  predicate ScenarioOk(s: System, q: Request) {
    Get(s.scenarios, ScenarioKeyOf(q)) == Some(ScenarioRecordOf(q))
  }

  predicate BindingOk(s: System, q: Request) {
    Get(s.bindings, q.payload.idempotencyKey) == Some(BindingRecordOf(q))
  }

  /** One of the two files of a request holds another record than its own. */
  predicate Conflicts(s: System, q: Request) {
    || (ScenarioKeyOf(q) in s.scenarios && !ScenarioOk(s, q))
    || (q.payload.idempotencyKey in s.bindings && !BindingOk(s, q))
  }

  /** What a call has read is still so, a bound call finds both its files, and a refused one another's record. */
  predicate ReadingKept(s: System, c: Call) {
    var scenario, key := ScenarioKeyOf(c.request), c.request.payload.idempotencyKey;
    match c.phase
    case ScenarioRead(missing) => if missing then scenario !in s.scenarios else ScenarioOk(s, c.request)
    case BothRead(scenarioMissing, bindingMissing) =>
      && (if scenarioMissing then scenario !in s.scenarios else ScenarioOk(s, c.request))
      && (if bindingMissing then key !in s.bindings else BindingOk(s, c.request))
    case ScenarioWritten(bindingMissing) =>
      && ScenarioOk(s, c.request)
      && (if bindingMissing then key !in s.bindings else BindingOk(s, c.request))
    case Finished(bound) =>
      if bound then ScenarioOk(s, c.request) && BindingOk(s, c.request) else Conflicts(s, c.request)
    case _ => true
  }

  ghost predicate Sound(s: System) {
    && (forall pid :: pid in s.calls ==> LockKept(s, pid))
    && (forall pid :: pid in s.calls ==> ReadingKept(s, s.calls[pid]) && Authorized(s.calls[pid].request))
    && LocksNameCalls(s)
  }

  /** No file changes once written. */
  ghost predicate FilesExtend(s: System, t: System) {
    && (forall k :: k in s.scenarios ==> k in t.scenarios && t.scenarios[k] == s.scenarios[k])
    && (forall k :: k in s.bindings ==> k in t.bindings && t.bindings[k] == s.bindings[k])
  }

  lemma StepExtends(s: System, e: Event)
    requires Sound(s)
    ensures FilesExtend(s, Take(s, e))
  {
    if e.Proceed? && CanAdvance(s, e.pid) {
      ReadingExtends(s, s.calls[e.pid]);
    }
  }

  lemma ReadingExtends(s: System, c: Call)
    requires ReadingKept(s, c)
    ensures forall k :: k in s.scenarios ==> k in NextScenarios(s, c) && NextScenarios(s, c)[k] == s.scenarios[k]
    ensures forall k :: k in s.bindings ==> k in NextBindings(s, c) && NextBindings(s, c)[k] == s.bindings[k]
  {
  }

  lemma RelockGets<K>(locks: map<K, Pid>, key: K, pid: Pid, before: bool, after: bool, other: K)
    ensures Get(Relock(locks, key, pid, before, after), other) ==
            if other != key || before == after then Get(locks, other) else if after then Some(pid) else None
  {
  }

  /** A move that takes only free locks leaves every lock with the call whose phase says so. */
  lemma MoveLocks(s: System, pid: Pid, phase: Phase, other: Pid)
    requires pid in s.calls && other in s.calls && LockKept(s, pid) && LockKept(s, other)
    requires !HasScenarioLock(s.calls[pid].phase) && HasScenarioLock(phase) ==>
               ScenarioKeyOf(s.calls[pid].request) !in s.scenarioLocks
    requires !HasBindingLock(s.calls[pid].phase) && HasBindingLock(phase) ==>
               s.calls[pid].request.payload.idempotencyKey !in s.bindingLocks
    ensures LockKept(Move(s, pid, phase), other)
  {
    var c, d := s.calls[pid], s.calls[other];
    RelockGets(s.scenarioLocks, ScenarioKeyOf(c.request), pid, HasScenarioLock(c.phase), HasScenarioLock(phase),
               ScenarioKeyOf(d.request));
    RelockGets(s.bindingLocks, c.request.payload.idempotencyKey, pid, HasBindingLock(c.phase), HasBindingLock(phase),
               d.request.payload.idempotencyKey);
  }

  predicate LocksNameCalls(s: System) {
    && (forall k :: k in s.scenarioLocks ==>
          s.scenarioLocks[k] in s.calls && ScenarioKeyOf(s.calls[s.scenarioLocks[k]].request) == k)
    && (forall k :: k in s.bindingLocks ==>
          s.bindingLocks[k] in s.calls && s.calls[s.bindingLocks[k]].request.payload.idempotencyKey == k)
  }

  lemma MoveNames(s: System, pid: Pid, phase: Phase)
    requires pid in s.calls && LocksNameCalls(s)
    ensures LocksNameCalls(Move(s, pid, phase))
  {
  }

  /** Two calls that hold the lock of one file are one call. */
  lemma Exclusive(s: System, a: Pid, b: Pid)
    requires a in s.calls && b in s.calls && LockKept(s, a) && LockKept(s, b)
    ensures (&& HasScenarioLock(s.calls[a].phase) && HasScenarioLock(s.calls[b].phase)
             && ScenarioKeyOf(s.calls[a].request) == ScenarioKeyOf(s.calls[b].request)) ==> a == b
    ensures (&& HasBindingLock(s.calls[a].phase) && HasBindingLock(s.calls[b].phase)
             && s.calls[a].request.payload.idempotencyKey == s.calls[b].request.payload.idempotencyKey) ==> a == b
  {
  }

  /** Only the holder of a lock touches the file it guards. */
  lemma OthersUndisturbed(s: System, c: Call, d: Call)
    requires ReadingKept(s, c) && ReadingKept(s, d)
    requires HasScenarioLock(c.phase) && HasScenarioLock(d.phase) ==>
               ScenarioKeyOf(c.request) != ScenarioKeyOf(d.request)
    requires HasBindingLock(c.phase) && HasBindingLock(d.phase) ==>
               c.request.payload.idempotencyKey != d.request.payload.idempotencyKey
    ensures ReadingKept(s.(scenarios := NextScenarios(s, c), bindings := NextBindings(s, c)), d)
  {
    ReadingExtends(s, c);
  }

  lemma OwnReadingKept(s: System, c: Call)
    requires ReadingKept(s, c) && Live(c.phase)
    ensures ReadingKept(s.(scenarios := NextScenarios(s, c), bindings := NextBindings(s, c)),
                        Call(c.request, NextPhase(s, c)))
  {
  }

  lemma ReadingNeedsFilesOnly(s: System, t: System, c: Call)
    requires s.scenarios == t.scenarios && s.bindings == t.bindings
    ensures ReadingKept(s, c) == ReadingKept(t, c)
  {
  }

  lemma AdvanceKeeps(s: System, pid: Pid)
    requires Sound(s) && CanAdvance(s, pid)
    ensures Sound(Advance(s, pid))
  {
    var t, c, phase := Advance(s, pid), s.calls[pid], NextPhase(s, s.calls[pid]);
    var written := s.(scenarios := NextScenarios(s, c), bindings := NextBindings(s, c));
    forall other | other in t.calls
      ensures LockKept(t, other) && ReadingKept(t, t.calls[other]) && Authorized(t.calls[other].request)
    {
      MoveLocks(s, pid, phase, other);
      assert LockKept(Move(s, pid, phase), other) ==> LockKept(t, other);
      ReadingNeedsFilesOnly(written, t, t.calls[other]);
      if other == pid {
        OwnReadingKept(s, c);
      } else {
        Exclusive(s, pid, other);
        OthersUndisturbed(s, c, s.calls[other]);
      }
    }
    MoveNames(s, pid, phase);
  }

  lemma DeathKeeps(s: System, pid: Pid)
    requires Sound(s) && pid in s.calls && Live(s.calls[pid].phase)
    ensures Sound(Move(s, pid, Crashed))
  {
    var t := Move(s, pid, Crashed);
    forall other | other in t.calls
      ensures LockKept(t, other) && ReadingKept(t, t.calls[other]) && Authorized(t.calls[other].request)
    {
      MoveLocks(s, pid, Crashed, other);
      ReadingNeedsFilesOnly(s, t, t.calls[other]);
    }
    MoveNames(s, pid, Crashed);
  }

  lemma NewcomerHoldsNothing(s: System, pid: Pid, q: Request)
    requires LocksNameCalls(s) && pid !in s.calls
    ensures LockKept(WithCall(s, pid, Call(q, Arrived)), pid) && LocksNameCalls(WithCall(s, pid, Call(q, Arrived)))
  {
  }

  lemma ArriveKeeps(s: System, pid: Pid, q: Request)
    requires Sound(s) && pid !in s.calls && Authorized(q)
    ensures Sound(WithCall(s, pid, Call(q, Arrived)))
  {
    var t := WithCall(s, pid, Call(q, Arrived));
    NewcomerHoldsNothing(s, pid, q);
    forall other | other in t.calls
      ensures LockKept(t, other) && ReadingKept(t, t.calls[other]) && Authorized(t.calls[other].request)
    {
      ReadingNeedsFilesOnly(s, t, t.calls[other]);
      assert other in s.calls ==> LockKept(s, other) == LockKept(t, other);
    }
  }

  lemma StepKeeps(s: System, e: Event)
    requires Sound(s)
    ensures Sound(Take(s, e))
  {
    match e
    case Arrive(pid, q) => if pid !in s.calls && Authorized(q) { ArriveKeeps(s, pid, q); }
    case Proceed(pid) => if CanAdvance(s, pid) { AdvanceKeeps(s, pid); }
    case Die(pid) => if pid in s.calls && Live(s.calls[pid].phase) { DeathKeeps(s, pid); }
  }

  lemma {:induction false} RunKeeps(s: System, events: seq<Event>)
    requires Sound(s)
    ensures Sound(Run(s, events))
    decreases |events|
  {
    if events != [] {
      RunKeeps(s, events[..|events| - 1]);
      StepKeeps(Run(s, events[..|events| - 1]), events[|events| - 1]);
    }
  }

  // ----- main results

  lemma {:induction false} RunSplit(s: System, first: seq<Event>, second: seq<Event>)
    ensures Run(s, first + second) == Run(Run(s, first), second)
    decreases |second|
  {
    if second == [] {
      assert first + second == first;
    } else {
      RunSplit(s, first, second[..|second| - 1]);
      assert (first + second)[..|first + second| - 1] == first + second[..|second| - 1];
    }
  }

  /** Both binding files are write-once over every run, whatever interleaves and wherever calls die. */
  lemma {:induction false} WriteOnce(events: seq<Event>, n: nat)
    requires n <= |events|
    ensures FilesExtend(Run(EMPTY, events[..n]), Run(EMPTY, events))
    decreases |events| - n
  {
    if n == |events| {
      assert events[..n] == events;
    } else {
      RunKeeps(EMPTY, events[..n]);
      assert events[..n + 1][..n] == events[..n];
      StepExtends(Run(EMPTY, events[..n]), events[n]);
      WriteOnce(events, n + 1);
    }
  }

  /**
   In every run, whatever interleaves and wherever calls die: a call that has ended by itself is bound
   exactly when its two files hold its own records, and refused exactly when one holds another record.
   */
  lemma EndedExactly(events: seq<Event>, pid: Pid)
    requires var s := Run(EMPTY, events); pid in s.calls && s.calls[pid].phase.Finished?
    ensures var s := Run(EMPTY, events);
            var q := s.calls[pid].request;
            && (s.calls[pid].phase.bound <==> ScenarioOk(s, q) && BindingOk(s, q))
            && (s.calls[pid].phase.bound <==> !Conflicts(s, q))
  {
    RunKeeps(EMPTY, events);
    assert ReadingKept(Run(EMPTY, events), Run(EMPTY, events).calls[pid]);
  }

  predicate Bound(s: System, pid: Pid) {
    pid in s.calls && s.calls[pid].phase == Finished(true)
  }

  /**
   Successful binds that share an idempotency key agree on context and full payload; those that
   share a scenario execution agree on context, workflow and workflow run.
   */
  lemma BoundCallsAgree(events: seq<Event>, a: Pid, b: Pid)
    requires Bound(Run(EMPTY, events), a) && Bound(Run(EMPTY, events), b)
    ensures var s := Run(EMPTY, events);
            var q, r := s.calls[a].request, s.calls[b].request;
            && (q.payload.idempotencyKey == r.payload.idempotencyKey ==>
                  q.context == r.context && q.payload == r.payload)
            && (ScenarioKeyOf(q) == ScenarioKeyOf(r) ==>
                  q.context == r.context && q.payload.workflowId == r.payload.workflowId
                  && q.payload.workflowRunId == r.payload.workflowRunId)
  {
    RunKeeps(EMPTY, events);
    var s := Run(EMPTY, events);
    assert ReadingKept(s, s.calls[a]) && ReadingKept(s, s.calls[b]);
  }

  // ----- a call that runs alone

  predicate LocksFree(s: System, q: Request) {
    ScenarioKeyOf(q) !in s.scenarioLocks && q.payload.idempotencyKey !in s.bindingLocks
  }

  /** A state with the files as given, and the call in a phase with the locks that go with it. */
  function Placed(s: System, pid: Pid, q: Request, phase: Phase, scenarios: map<ScenarioKey, ScenarioRecord>,
                  bindings: map<Name, BindingRecord>): System
  {
    System(scenarios, bindings,
           if HasScenarioLock(phase) then s.scenarioLocks[ScenarioKeyOf(q) := pid] else s.scenarioLocks,
           if HasBindingLock(phase) then s.bindingLocks[q.payload.idempotencyKey := pid] else s.bindingLocks,
           s.calls[pid := Call(q, phase)])
  }

  /** One step of a call that meets nobody. */
  lemma PlacedStep(s: System, pid: Pid, q: Request, phase: Phase, scenarios: map<ScenarioKey, ScenarioRecord>,
                   bindings: map<Name, BindingRecord>)
    requires LocksFree(s, q) && Live(phase)
    ensures var t := Placed(s, pid, q, phase, scenarios, bindings);
            Take(t, Proceed(pid)) ==
            Placed(s, pid, q, NextPhase(t, Call(q, phase)), NextScenarios(t, Call(q, phase)),
                   NextBindings(t, Call(q, phase)))
  {
    var t := Placed(s, pid, q, phase, scenarios, bindings);
    var next := NextPhase(t, Call(q, phase));
    assert CanAdvance(t, pid);
    assert t.calls[pid := Call(q, next)] == s.calls[pid := Call(q, next)];
    assert s.scenarioLocks[ScenarioKeyOf(q) := pid] - {ScenarioKeyOf(q)} == s.scenarioLocks;
    assert s.bindingLocks[q.payload.idempotencyKey := pid] - {q.payload.idempotencyKey} == s.bindingLocks;
  }

  /** The call arrives and proceeds, with nothing in between. */
  predicate Alone(pid: Pid, q: Request, events: seq<Event>) {
    events != [] && events[0] == Arrive(pid, q) && forall i :: 1 <= i < |events| ==> events[i] == Proceed(pid)
  }

  /** Such events lead to that place. */
  predicate AloneTo(s: System, pid: Pid, q: Request, events: seq<Event>, phase: Phase,
                    scenarios: map<ScenarioKey, ScenarioRecord>, bindings: map<Name, BindingRecord>)
  {
    Alone(pid, q, events) && Run(s, events) == Placed(s, pid, q, phase, scenarios, bindings)
  }

  lemma AloneNext(s: System, pid: Pid, q: Request, events: seq<Event>, phase: Phase,
                  scenarios: map<ScenarioKey, ScenarioRecord>, bindings: map<Name, BindingRecord>)
    requires LocksFree(s, q) && Live(phase) && AloneTo(s, pid, q, events, phase, scenarios, bindings)
    ensures var t := Placed(s, pid, q, phase, scenarios, bindings);
            AloneTo(s, pid, q, events + [Proceed(pid)], NextPhase(t, Call(q, phase)),
                    NextScenarios(t, Call(q, phase)), NextBindings(t, Call(q, phase)))
  {
    PlacedStep(s, pid, q, phase, scenarios, bindings);
    assert (events + [Proceed(pid)])[..|events|] == events;
  }

  /** Up to its first read. */
  lemma AloneLocks(s: System, pid: Pid, q: Request) returns (events: seq<Event>)
    requires pid !in s.calls && Authorized(q) && LocksFree(s, q)
    ensures |events| == 3 && AloneTo(s, pid, q, events, HoldsBoth, s.scenarios, s.bindings)
  {
    events := [Arrive(pid, q)];
    assert events[..0] == [];
    AloneNext(s, pid, q, events, Arrived, s.scenarios, s.bindings);
    events := events + [Proceed(pid)];
    AloneNext(s, pid, q, events, HoldsScenario, s.scenarios, s.bindings);
    events := events + [Proceed(pid)];
  }

  lemma AloneRefused(s: System, pid: Pid, q: Request) returns (events: seq<Event>)
    requires pid !in s.calls && Authorized(q) && LocksFree(s, q) && Conflicts(s, q)
    ensures |events| <= 7 && AloneTo(s, pid, q, events, Finished(false), s.scenarios, s.bindings)
  {
    events := AloneLocks(s, pid, q);
    AloneNext(s, pid, q, events, HoldsBoth, s.scenarios, s.bindings);
    events := events + [Proceed(pid)];
    if !(ScenarioKeyOf(q) in s.scenarios && !ScenarioOk(s, q)) {
      AloneNext(s, pid, q, events, ScenarioRead(ScenarioKeyOf(q) !in s.scenarios), s.scenarios, s.bindings);
      events := events + [Proceed(pid)];
    }
  }

  function Scenarios(s: System, q: Request): map<ScenarioKey, ScenarioRecord> {
    s.scenarios[ScenarioKeyOf(q) := ScenarioRecordOf(q)]
  }

  function Bindings(s: System, q: Request): map<Name, BindingRecord> {
    s.bindings[q.payload.idempotencyKey := BindingRecordOf(q)]
  }

  lemma AloneReads(s: System, pid: Pid, q: Request) returns (events: seq<Event>)
    requires pid !in s.calls && Authorized(q) && LocksFree(s, q) && !Conflicts(s, q)
    ensures var missing, unbound := ScenarioKeyOf(q) !in s.scenarios, q.payload.idempotencyKey !in s.bindings;
            |events| == 5 && AloneTo(s, pid, q, events, BothRead(missing, unbound), s.scenarios, s.bindings)
  {
    events := AloneLocks(s, pid, q);
    AloneNext(s, pid, q, events, HoldsBoth, s.scenarios, s.bindings);
    events := events + [Proceed(pid)];
    AloneNext(s, pid, q, events, ScenarioRead(ScenarioKeyOf(q) !in s.scenarios), s.scenarios, s.bindings);
    events := events + [Proceed(pid)];
  }

  /** The scenario file then holds the request's record, whether it did before or not. */
  lemma AloneScenario(s: System, pid: Pid, q: Request, events: seq<Event>, unbound: bool)
    requires LocksFree(s, q) && !Conflicts(s, q)
    requires AloneTo(s, pid, q, events, BothRead(ScenarioKeyOf(q) !in s.scenarios, unbound), s.scenarios, s.bindings)
    ensures AloneTo(s, pid, q, events + [Proceed(pid)], ScenarioWritten(unbound), Scenarios(s, q), s.bindings)
  {
    var phase := BothRead(ScenarioKeyOf(q) !in s.scenarios, unbound);
    assert NextScenarios(Placed(s, pid, q, phase, s.scenarios, s.bindings), Call(q, phase)) == Scenarios(s, q);
    AloneNext(s, pid, q, events, phase, s.scenarios, s.bindings);
  }

  /** And so does the binding file. */
  lemma AloneBinding(s: System, pid: Pid, q: Request, events: seq<Event>)
    requires LocksFree(s, q) && !Conflicts(s, q)
    requires AloneTo(s, pid, q, events, ScenarioWritten(q.payload.idempotencyKey !in s.bindings), Scenarios(s, q),
                     s.bindings)
    ensures AloneTo(s, pid, q, events + [Proceed(pid)], Finished(true), Scenarios(s, q), Bindings(s, q))
  {
    var phase := ScenarioWritten(q.payload.idempotencyKey !in s.bindings);
    assert NextBindings(Placed(s, pid, q, phase, Scenarios(s, q), s.bindings), Call(q, phase)) == Bindings(s, q);
    AloneNext(s, pid, q, events, phase, Scenarios(s, q), s.bindings);
  }

  lemma AloneWrites(s: System, pid: Pid, q: Request) returns (events: seq<Event>)
    requires pid !in s.calls && Authorized(q) && LocksFree(s, q) && !Conflicts(s, q)
    ensures |events| == 7 && AloneTo(s, pid, q, events, Finished(true), Scenarios(s, q), Bindings(s, q))
  {
    events := AloneReads(s, pid, q);
    AloneScenario(s, pid, q, events, q.payload.idempotencyKey !in s.bindings);
    events := events + [Proceed(pid)];
    AloneBinding(s, pid, q, events);
    events := events + [Proceed(pid)];
  }

  /**
   A call that finds its locks free and meets nobody ends in at most six steps: it binds exactly when each of
   its two files is absent or holds its own record already, and then both hold it; otherwise no file changes.
   Locks and other calls are as before.
   */
  lemma BindAlone(s: System, pid: Pid, q: Request) returns (events: seq<Event>)
    requires pid !in s.calls && Authorized(q) && LocksFree(s, q)
    ensures |events| <= 7 && Alone(pid, q, events)
    ensures var t, bound := Run(s, events), !Conflicts(s, q);
            var scenario := ScenarioKey(q.context.authorizationDigest, q.context.sessionId,
                                        q.payload.scenarioExecutionId);
            var record := ScenarioRecord(q.context, q.payload.scenarioExecutionId, q.payload.workflowId,
                                         q.payload.workflowRunId);
            && t.calls == s.calls[pid := Call(q, Finished(bound))]
            && t.scenarioLocks == s.scenarioLocks && t.bindingLocks == s.bindingLocks
            && t.scenarios == (if bound then s.scenarios[scenario := record] else s.scenarios)
            && t.bindings == if bound then s.bindings[q.payload.idempotencyKey := BindingRecord(q.context, q.payload)]
                             else s.bindings
  {
    if Conflicts(s, q) {
      events := AloneRefused(s, pid, q);
    } else {
      events := AloneWrites(s, pid, q);
    }
  }

  /** A repeat of a bound request, as an activity's next attempt makes it, binds again and changes no file. */
  lemma RepeatBinds(earlier: seq<Event>, first: Pid, pid: Pid, q: Request) returns (events: seq<Event>)
    requires var s := Run(EMPTY, earlier);
             && Bound(s, first) && pid !in s.calls && Authorized(q) && LocksFree(s, q)
             && q.context == s.calls[first].request.context && q.payload == s.calls[first].request.payload
    ensures |events| <= 7 && Alone(pid, q, events)
    ensures var s, t := Run(EMPTY, earlier), Run(EMPTY, earlier + events);
            Bound(t, pid) && t.scenarios == s.scenarios && t.bindings == s.bindings
  {
    var s := Run(EMPTY, earlier);
    RunKeeps(EMPTY, earlier);
    assert ReadingKept(s, s.calls[first]);
    events := BindAlone(s, pid, q);
    RunSplit(EMPTY, earlier, events);
    assert s.scenarios == Scenarios(s, q) && s.bindings == Bindings(s, q);
  }

  lemma ScenarioReleased(s: System, pid: Pid)
    requires Sound(s) && pid in s.calls && Live(s.calls[pid].phase)
    ensures var locks := Move(s, pid, Crashed).scenarioLocks;
            && (forall key :: key in locks <==> key in s.scenarioLocks && s.scenarioLocks[key] != pid)
            && (forall key :: key in locks ==> locks[key] == s.scenarioLocks[key])
  {
    assert LockKept(s, pid);
  }

  lemma BindingReleased(s: System, pid: Pid)
    requires Sound(s) && pid in s.calls && Live(s.calls[pid].phase)
    ensures var locks := Move(s, pid, Crashed).bindingLocks;
            && (forall key :: key in locks <==> key in s.bindingLocks && s.bindingLocks[key] != pid)
            && (forall key :: key in locks ==> locks[key] == s.bindingLocks[key])
  {
    assert LockKept(s, pid);
  }

  /** A live call may die at any point: it then holds no lock, and files, other locks and other calls are as before. */
  lemma DeathReleases(events: seq<Event>, pid: Pid)
    requires pid in Run(EMPTY, events).calls && Live(Run(EMPTY, events).calls[pid].phase)
    ensures var s, t := Run(EMPTY, events), Run(EMPTY, events + [Die(pid)]);
            && t.calls == s.calls[pid := Call(s.calls[pid].request, Crashed)]
            && t.scenarios == s.scenarios && t.bindings == s.bindings
            && (forall key :: key in t.scenarioLocks <==> key in s.scenarioLocks && s.scenarioLocks[key] != pid)
            && (forall key :: key in t.scenarioLocks ==> t.scenarioLocks[key] == s.scenarioLocks[key])
            && (forall key :: key in t.bindingLocks <==> key in s.bindingLocks && s.bindingLocks[key] != pid)
            && (forall key :: key in t.bindingLocks ==> t.bindingLocks[key] == s.bindingLocks[key])
  {
    var s := Run(EMPTY, events);
    RunKeeps(EMPTY, events);
    assert (events + [Die(pid)])[..|events|] == events;
    assert Run(EMPTY, events + [Die(pid)]) == Move(s, pid, Crashed);
    ScenarioReleased(s, pid);
    BindingReleased(s, pid);
  }

  /**
   A request is admitted exactly when it starts within the session, before the context expires, and names a
   scenario execution with the scenario that the context gives it.
   */
  lemma AdmitsExactly(events: seq<Event>, pid: Pid, q: Request)
    requires pid !in Run(EMPTY, events).calls
    ensures pid in Run(EMPTY, events + [Arrive(pid, q)]).calls <==>
            && q.context.sessionStartedAt <= q.startedAt && q.startedAt < q.context.expiresAt
            && q.payload.scenarioExecutionId in q.context.scenarios
            && q.context.scenarios[q.payload.scenarioExecutionId] == q.payload.scenarioId
  {
    assert (events + [Arrive(pid, q)])[..|events|] == events;
  }

  /** Attempts made only by bound requests satisfy what the receipt theorems ask of a run. */
  lemma BoundAttemptsShareOwner(events: seq<Event>, attempts: seq<OwnerReceipts.Step>, callers: seq<Pid>, owner: Pid)
    requires |callers| == |attempts| && Bound(Run(EMPTY, events), owner)
    requires forall i :: 0 <= i < |attempts| ==>
               Bound(Run(EMPTY, events), callers[i])
               && Run(EMPTY, events).calls[callers[i]].request == attempts[i].attempt.request
    ensures OwnerReceiptRuns.SharedOwner(attempts, Run(EMPTY, events).calls[owner].request)
  {
    RunKeeps(EMPTY, events);
    var s := Run(EMPTY, events);
    forall i | 0 <= i < |attempts| && ReceiptKeyOf(attempts[i].attempt.request) == ReceiptKeyOf(s.calls[owner].request)
      ensures OwnerReceiptRuns.SameExecution(attempts[i].attempt.request, s.calls[owner].request)
    {
      BoundCallsAgree(events, callers[i], owner);
    }
  }

  /** A call holding both locks never waits. */
  lemma HolderAdvances(s: System, pid: Pid)
    requires Sound(s) && pid in s.calls && HasBindingLock(s.calls[pid].phase)
    ensures CanAdvance(s, pid)
  {
  }

  /** The fixed lock order leaves no cycle of waiting: while any call is live, some call can proceed. */
  lemma NoDeadlock(events: seq<Event>, pid: Pid)
    requires var s := Run(EMPTY, events); pid in s.calls && Live(s.calls[pid].phase)
    ensures exists other: Pid :: CanAdvance(Run(EMPTY, events), other)
  {
    RunKeeps(EMPTY, events);
    var s := Run(EMPTY, events);
    var mover := Unblocked(s, pid);
  }

  lemma Unblocked(s: System, pid: Pid) returns (mover: Pid)
    requires Sound(s) && pid in s.calls && Live(s.calls[pid].phase)
    ensures CanAdvance(s, mover)
  {
    mover := pid;
    if s.calls[mover].phase.Arrived? && ScenarioKeyOf(s.calls[mover].request) in s.scenarioLocks {
      mover := s.scenarioLocks[ScenarioKeyOf(s.calls[mover].request)];
      assert LockKept(s, mover);
    }
    if s.calls[mover].phase.HoldsScenario? && s.calls[mover].request.payload.idempotencyKey in s.bindingLocks {
      mover := s.bindingLocks[s.calls[mover].request.payload.idempotencyKey];
      assert LockKept(s, mover);
      HolderAdvances(s, mover);
    }
  }

  /** Steps a live call still has before it. */
  function Left(p: Phase): nat {
    match p
    case Arrived => 6
    case HoldsScenario => 5
    case HoldsBoth => 4
    case ScenarioRead(_) => 3
    case BothRead(_, _) => 2
    case ScenarioWritten(_) => 1
    case _ => 0
  }

  function LeftOver(s: System, pids: seq<Pid>): nat {
    if pids == [] then 0 else
      LeftOver(s, pids[1..]) + if pids[0] in s.calls then Left(s.calls[pids[0]].phase) else 0
  }

  lemma {:induction false} AdvanceLeaves(s: System, pid: Pid, pids: seq<Pid>)
    requires CanAdvance(s, pid) && pid in s.calls
    ensures LeftOver(Advance(s, pid), pids) <= LeftOver(s, pids)
    ensures pid in pids ==> LeftOver(Advance(s, pid), pids) < LeftOver(s, pids)
    decreases |pids|
  {
    if pids != [] {
      AdvanceLeaves(s, pid, pids[1..]);
    }
  }

  /** The calls can always be brought to their end by proceeding alone, in as many steps as they have left. */
  lemma {:induction false} AllCanFinish(s: System, pids: seq<Pid>) returns (events: seq<Event>)
    requires Sound(s) && forall pid :: pid in s.calls ==> pid in pids
    ensures |events| <= LeftOver(s, pids)
    ensures forall e :: e in events ==> e.Proceed?
    ensures Run(s, events).calls.Keys == s.calls.Keys
    ensures forall pid :: pid in s.calls ==> !Live(Run(s, events).calls[pid].phase)
    decreases LeftOver(s, pids)
  {
    if pid :| pid in s.calls && Live(s.calls[pid].phase) {
      var mover := Unblocked(s, pid);
      AdvanceKeeps(s, mover);
      AdvanceLeaves(s, mover, pids);
      var rest := AllCanFinish(Advance(s, mover), pids);
      events := [Proceed(mover)] + rest;
      RunSplit(s, [Proceed(mover)], rest);
      assert [Proceed(mover)][..0] == [];
      assert Run(s, [Proceed(mover)]) == Advance(s, mover);
    } else {
      events := [];
    }
  }
}
