/**
 Runs of owner-receipt attempts, each of which may die between two writes.

 The attempts of one receipt key come from requests bound to one scenario record (`ProofBindings`
 shows that successful binds guarantee this); attempts under other keys are arbitrary.
 */
module OwnerReceiptRuns {
  import opened Common
  import opened ProofRequests
  import opened OwnerReceipts

  // ----- files are written once

  datatype File = ResultAt(key: ReceiptKey) | ObservationAt(key: ReceiptKey) | ReceiptAt(key: ReceiptKey)

  function FileOf(w: Write): File {
    match w
    case PutResult(key, _) => ResultAt(key)
    case PutObservation(key, _) => ObservationAt(key)
    case PutReceipt(key, _) => ReceiptAt(key)
  }

  predicate Exists(files: Files, f: File) {
    match f
    case ResultAt(key) => key in files.results
    case ObservationAt(key) => key in files.observations
    case ReceiptAt(key) => key in files.receipts
  }

  /** `later` holds every file of `earlier`, unchanged. */
  ghost predicate Extends(earlier: Files, later: Files) {
    && (forall k :: k in earlier.results ==> k in later.results && later.results[k] == earlier.results[k])
    && (forall k :: k in earlier.observations ==>
          k in later.observations && later.observations[k] == earlier.observations[k])
    && (forall k :: k in earlier.receipts ==> k in later.receipts && later.receipts[k] == earlier.receipts[k])
  }

  /** Each write is of a file that is neither there nor written before it. */
  ghost predicate Fresh(files: Files, writes: seq<Write>) {
    && (forall i :: 0 <= i < |writes| ==> !Exists(files, FileOf(writes[i])))
    && (forall i, j :: 0 <= i < j < |writes| ==> FileOf(writes[i]) != FileOf(writes[j]))
  }

  lemma AttemptIsFresh(files: Files, a: Attempt)
    requires ReceiptKeyOf(a.request) in files.receipts ==> ReceiptKeyOf(a.request) in files.observations
    ensures Fresh(files, Commit(files, a).writes)
  {
    var key := ReceiptKeyOf(a.request);
    if WellFormed(a) {
      var before := ObservationWrites(files, a);
      assert Fresh(files, []);
      if key !in files.observations {
        assert forall w :: w in before ==>
                 w == PutObservation(key, Observe(a))
                 || (a.result.Some? && key !in files.results && w == PutResult(key, a.result.value));
      }
    }
  }

  lemma {:induction false} FreshExtends(files: Files, writes: seq<Write>)
    requires Fresh(files, writes)
    ensures Extends(files, ApplyAll(files, writes))
    ensures forall f :: Exists(ApplyAll(files, writes), f) <==>
            Exists(files, f) || exists i :: 0 <= i < |writes| && FileOf(writes[i]) == f
    decreases |writes|
  {
    if writes != [] {
      var front, last := writes[..|writes| - 1], writes[|writes| - 1];
      FreshExtends(files, front);
      var mid, after := ApplyAll(files, front), ApplyAll(files, writes);
      assert forall i :: 0 <= i < |front| ==>
               FileOf(front[i]) == FileOf(writes[i]) && FileOf(writes[i]) != FileOf(last);
      assert !Exists(mid, FileOf(last));
      forall f
        ensures Exists(after, f) <==> Exists(files, f) || exists i :: 0 <= i < |writes| && FileOf(writes[i]) == f
      {
        assert Exists(after, f) <==> Exists(mid, f) || f == FileOf(last);
        if i :| 0 <= i < |front| && FileOf(front[i]) == f {
          assert FileOf(writes[i]) == f;
        }
        if i :| 0 <= i < |writes| && FileOf(writes[i]) == f {
          assert i == |front| || FileOf(front[i]) == f;
        }
      }
    }
  }

  /** A receipt never stands without its observation. */
  ghost predicate Ordered(files: Files) {
    forall k :: k in files.receipts ==> k in files.observations
  }

  lemma StepIsFresh(files: Files, s: Step)
    requires Ordered(files)
    ensures Fresh(files, Durable(files, s))
  {
    AttemptIsFresh(files, s.attempt);
  }

  lemma StepExtends(files: Files, s: Step)
    requires Ordered(files)
    ensures Extends(files, Take(files, s)) && Ordered(Take(files, s))
  {
    StepIsFresh(files, s);
    var writes := Durable(files, s);
    FreshExtends(files, writes);
    var after := ApplyAll(files, writes);
    forall k | k in after.receipts
      ensures k in after.observations
    {
      assert Exists(after, ReceiptAt(k));
      if k !in files.receipts {
        var i :| 0 <= i < |writes| && FileOf(writes[i]) == ReceiptAt(k);
        ReceiptComesLast(files, s.attempt, i, k);
        if k !in files.observations {
          assert writes[i - 1] == Commit(files, s.attempt).writes[i - 1];
          assert Exists(after, ObservationAt(k));
        }
      }
    }
  }

  lemma ReceiptComesLast(files: Files, a: Attempt, i: nat, k: ReceiptKey)
    requires i < |Commit(files, a).writes| && FileOf(Commit(files, a).writes[i]) == ReceiptAt(k)
    ensures k == ReceiptKeyOf(a.request)
    ensures k in files.observations || (i > 0 && FileOf(Commit(files, a).writes[i - 1]) == ObservationAt(k))
  {
  }

  lemma {:induction false} RunExtends(files: Files, steps: seq<Step>)
    requires Ordered(files)
    ensures Extends(files, Run(files, steps)) && Ordered(Run(files, steps))
    decreases |steps|
  {
    if steps != [] {
      RunExtends(files, steps[..|steps| - 1]);
      StepExtends(Run(files, steps[..|steps| - 1]), steps[|steps| - 1]);
    }
  }

  /** Every write of a run, in order. */
  function Trace(files: Files, steps: seq<Step>): seq<Write> {
    if steps == [] then [] else
      Trace(files, steps[..|steps| - 1]) + Durable(Run(files, steps[..|steps| - 1]), steps[|steps| - 1])
  }

  function FilesOf(writes: seq<Write>): seq<File> {
    seq(|writes|, i requires 0 <= i < |writes| => FileOf(writes[i]))
  }

  lemma AppendFresh(files: Files, earlier: seq<File>, writes: seq<Write>)
    requires NoRepeats(earlier) && (forall f :: f in earlier ==> Exists(files, f))
    requires Fresh(files, writes)
    ensures NoRepeats(earlier + FilesOf(writes))
    ensures forall f :: f in earlier + FilesOf(writes) ==> Exists(ApplyAll(files, writes), f)
  {
    FreshExtends(files, writes);
    var all := earlier + FilesOf(writes);
    forall i, j | 0 <= i < j < |all|
      ensures all[i] != all[j]
    {
      if i < |earlier| {
        assert all[i] in earlier;
      }
    }
    forall f | f in all
      ensures Exists(ApplyAll(files, writes), f)
    {
      var i :| 0 <= i < |all| && all[i] == f;
      if i >= |earlier| {
        assert FileOf(writes[i - |earlier|]) == f;
      }
    }
  }

  lemma LastStepTraced(files: Files, steps: seq<Step>)
    requires steps != []
    ensures var front, last := steps[..|steps| - 1], steps[|steps| - 1];
            FilesOf(Trace(files, steps)) == FilesOf(Trace(files, front)) + FilesOf(Durable(Run(files, front), last))
  {
  }

  /** Whatever crashes, no file is written twice in a run: a receipt is written at most once and never changes. */
  lemma {:induction false} WrittenOnce(steps: seq<Step>)
    ensures NoRepeats(FilesOf(Trace(EMPTY, steps)))
    ensures forall f :: f in FilesOf(Trace(EMPTY, steps)) ==> Exists(Run(EMPTY, steps), f)
    decreases |steps|
  {
    if steps != [] {
      var front, last := steps[..|steps| - 1], steps[|steps| - 1];
      WrittenOnce(front);
      RunExtends(EMPTY, front);
      StepIsFresh(Run(EMPTY, front), last);
      AppendFresh(Run(EMPTY, front), FilesOf(Trace(EMPTY, front)), Durable(Run(EMPTY, front), last));
      LastStepTraced(EMPTY, steps);
    }
  }

  // ----- what the files say

  /** The request belongs to the execution `owner` was bound for. */
  predicate SameExecution(q: Request, owner: Request) {
    && ReceiptKeyOf(q) == ReceiptKeyOf(owner) && ScenarioRecordOf(q) == ScenarioRecordOf(owner)
    && Authorized(q) && Authorized(owner)
  }

  ghost predicate SharedOwner(steps: seq<Step>, owner: Request) {
    forall i :: 0 <= i < |steps| && ReceiptKeyOf(steps[i].attempt.request) == ReceiptKeyOf(owner)
      ==> SameExecution(steps[i].attempt.request, owner)
  }

  predicate ResultMatches(o: Observation, result: Option<ActivityResult>) {
    && o.bound.Some? == result.Some?
    && (result.Some? ==>
          o.bound.value.digest == OfResult(result.value) && Some(o.bound.value.status) == result.value.status)
  }

  /** The three files of the owner's key fit together. */
  predicate Coherent(files: Files, owner: Request) {
    var key := ReceiptKeyOf(owner);
    var result := Get(files.results, key);
    && (result.Some? ==> result.value.status.Some?)
    && (key in files.observations ==>
          var o := files.observations[key];
          && o.subject == SubjectOf(owner) && o.workflowId == owner.payload.workflowId
          && o.workflowRunId == owner.payload.workflowRunId
          && o.ownerResult in OWNER_RESULTS && ResultMatches(o, result))
    && (key in files.receipts ==>
          && key in files.observations
          && var o := files.observations[key];
             var evidence := EvidenceRefs(owner, OfObservation(o), result);
             evidence.Ok? && files.receipts[key] == BuildReceipt(owner, o, evidence.value))
  }

  lemma OtherKeysUntouched(files: Files, s: Step, owner: Request)
    requires ReceiptKeyOf(s.attempt.request) != ReceiptKeyOf(owner)
    ensures var key, after := ReceiptKeyOf(owner), Take(files, s);
            && Get(after.results, key) == Get(files.results, key)
            && Get(after.observations, key) == Get(files.observations, key)
            && Get(after.receipts, key) == Get(files.receipts, key)
  {
    WritesUnderKey(files, s.attempt);
    OtherWrites(files, Durable(files, s), ReceiptKeyOf(owner));
  }

  lemma WritesUnderKey(files: Files, a: Attempt)
    ensures forall w :: w in Commit(files, a).writes ==> w.key == ReceiptKeyOf(a.request)
  {
  }

  lemma {:induction false} OtherWrites(files: Files, writes: seq<Write>, key: ReceiptKey)
    requires forall w :: w in writes ==> w.key != key
    ensures var after := ApplyAll(files, writes);
            && Get(after.results, key) == Get(files.results, key)
            && Get(after.observations, key) == Get(files.observations, key)
            && Get(after.receipts, key) == Get(files.receipts, key)
    decreases |writes|
  {
    if writes != [] {
      OtherWrites(files, writes[..|writes| - 1], key);
      assert writes[|writes| - 1] in writes;
    }
  }

  /** Requests of one execution write and check the same things. */
  lemma SameExecutionAgrees(q: Request, owner: Request)
    requires SameExecution(q, owner)
    ensures SubjectOf(q) == SubjectOf(owner) && q.context == owner.context
    ensures q.payload.workflowId == owner.payload.workflowId && q.payload.workflowRunId == owner.payload.workflowRunId
    ensures forall d, r :: EvidenceRefs(q, d, r) == EvidenceRefs(owner, d, r)
  {
  }

  function Parts(key: ReceiptKey, result: Option<ActivityResult>, o: Observation,
                 receipt: Option<Receipt>): seq<Write>
  {
    (if result.Some? then [PutResult(key, result.value)] else []) + [PutObservation(key, o)]
    + if receipt.Some? then [PutReceipt(key, receipt.value)] else []
  }

  /** The write at an index of such a list: results first, then the observation, then the receipt. */
  function PartAt(key: ReceiptKey, result: Option<ActivityResult>, o: Observation, receipt: Option<Receipt>,
                  i: nat): Write
  {
    if result.Some? && i == 0 then PutResult(key, result.value)
    else if i == (if result.Some? then 1 else 0) || receipt.None? then PutObservation(key, o)
    else PutReceipt(key, receipt.value)
  }

  lemma PartsAre(key: ReceiptKey, result: Option<ActivityResult>, o: Observation, receipt: Option<Receipt>)
    ensures var writes := Parts(key, result, o, receipt);
            && |writes| == (if result.Some? then 1 else 0) + 1 + (if receipt.Some? then 1 else 0)
            && forall i :: 0 <= i < |writes| ==> writes[i] == PartAt(key, result, o, receipt, i)
  {
  }

  lemma {:induction false} WritesLeave(files: Files, writes: seq<Write>, key: ReceiptKey,
                                       result: Option<ActivityResult>, o: Observation,
                                       receipt: Option<Receipt>)
    requires |writes| <= (if result.Some? then 1 else 0) + 1 + (if receipt.Some? then 1 else 0)
    requires forall i :: 0 <= i < |writes| ==> writes[i] == PartAt(key, result, o, receipt, i)
    ensures var after := ApplyAll(files, writes);
            var at := if result.Some? then 1 else 0;
            && Get(after.results, key) == (if at == 1 && |writes| > 0 then result else Get(files.results, key))
            && Get(after.observations, key) == (if |writes| > at then Some(o) else Get(files.observations, key))
            && Get(after.receipts, key) == (if |writes| > at + 1 then receipt else Get(files.receipts, key))
    decreases |writes|
  {
    if writes != [] {
      var n := |writes| - 1;
      WritesLeave(files, writes[..n], key, result, o, receipt);
      ApplyAt(ApplyAll(files, writes[..n]), writes[n]);
    }
  }

  /** What a first attempt leaves when it dies after `n` of its writes. */
  lemma PartsLeave(files: Files, key: ReceiptKey, result: Option<ActivityResult>, o: Observation,
                   receipt: Option<Receipt>, n: nat)
    requires n <= |Parts(key, result, o, receipt)|
    ensures var after := ApplyAll(files, Parts(key, result, o, receipt)[..n]);
            var at := if result.Some? then 1 else 0;
            && Get(after.results, key) == (if at == 1 && n > 0 then result else Get(files.results, key))
            && Get(after.observations, key) == (if n > at then Some(o) else Get(files.observations, key))
            && Get(after.receipts, key) == (if n > at + 1 then receipt else Get(files.receipts, key))
  {
    PartsAre(key, result, o, receipt);
    WritesLeave(files, Parts(key, result, o, receipt)[..n], key, result, o, receipt);
  }

  lemma ApplyAt(files: Files, w: Write)
    ensures Get(Apply(files, w).results, w.key) == (if w.PutResult? then Some(w.result) else Get(files.results, w.key))
    ensures Get(Apply(files, w).observations, w.key) ==
            (if w.PutObservation? then Some(w.observation) else Get(files.observations, w.key))
    ensures Get(Apply(files, w).receipts, w.key) ==
            (if w.PutReceipt? then Some(w.receipt) else Get(files.receipts, w.key))
  {
  }

  function NewResult(files: Files, a: Attempt): Option<ActivityResult> {
    if ReceiptKeyOf(a.request) in files.results then None else a.result
  }

  function NewReceipt(a: Attempt): Option<Receipt>
    requires WellFormed(a)
  {
    var evidence := EvidenceRefs(a.request, OfObservation(Observe(a)), a.result);
    if evidence.Ok? then Some(BuildReceipt(a.request, Observe(a), evidence.value)) else None
  }

  lemma FirstAttemptParts(files: Files, a: Attempt)
    requires ReceiptKeyOf(a.request) !in files.observations && ReceiptKeyOf(a.request) !in files.receipts
    requires Commit(files, a).writes != []
    ensures WellFormed(a)
    ensures Commit(files, a).writes == Parts(ReceiptKeyOf(a.request), NewResult(files, a), Observe(a), NewReceipt(a))
    ensures a.request.startedAt <= a.now && (a.ownerResult == "passed" ==> a.now < a.request.context.expiresAt)
    ensures ReceiptKeyOf(a.request) in files.results ==> Some(files.results[ReceiptKeyOf(a.request)]) == a.result
  {
  }

  /** Everything a first attempt can leave under its key. */
  lemma FirstAttemptLeaves(files: Files, s: Step)
    requires ReceiptKeyOf(s.attempt.request) !in files.observations
             && ReceiptKeyOf(s.attempt.request) !in files.receipts
    ensures var a, key, after := s.attempt, ReceiptKeyOf(s.attempt.request), Take(files, s);
            || (Get(after.results, key) == Get(files.results, key) && key !in after.observations
                && key !in after.receipts)
            || (&& WellFormed(a) && a.request.startedAt <= a.now
                && (a.ownerResult == "passed" ==> a.now < a.request.context.expiresAt)
                && Get(after.results, key) == a.result
                && (key in after.observations ==> after.observations[key] == Observe(a))
                && (key in after.receipts ==> key in after.observations && Some(after.receipts[key]) == NewReceipt(a)))
  {
    var a, key := s.attempt, ReceiptKeyOf(s.attempt.request);
    var writes := Commit(files, a).writes;
    if writes != [] {
      FirstAttemptParts(files, a);
      var n := if s.crash.Some? && s.crash.value < |writes| then s.crash.value else |writes|;
      assert writes[..|writes|] == writes;
      assert Durable(files, s) == writes[..n];
      PartsLeave(files, key, NewResult(files, a), Observe(a), NewReceipt(a), n);
      GetMembers(Take(files, s), key);
    }
  }

  lemma GetMembers(files: Files, key: ReceiptKey)
    ensures key in files.observations <==> Get(files.observations, key).Some?
    ensures key in files.receipts <==> Get(files.receipts, key).Some?
  {
  }

  lemma FirstAttemptKeeps(files: Files, s: Step, owner: Request)
    requires SameExecution(s.attempt.request, owner) && Coherent(files, owner)
    requires ReceiptKeyOf(owner) !in files.observations
    ensures Coherent(Take(files, s), owner)
  {
    FirstAttemptLeaves(files, s);
    SameExecutionAgrees(s.attempt.request, owner);
    GetMembers(Take(files, s), ReceiptKeyOf(owner));
  }

  lemma LaterWrites(files: Files, a: Attempt)
    requires ReceiptKeyOf(a.request) in files.observations
    ensures var o := files.observations[ReceiptKeyOf(a.request)];
            var writes := Commit(files, a).writes;
            writes != [] ==>
              && ReceiptKeyOf(a.request) !in files.receipts && o.ownerResult == a.ownerResult
              && a.result == Get(files.results, ReceiptKeyOf(a.request))
              && EvidenceRefs(a.request, OfObservation(o), a.result).Ok?
              && writes == [PutReceipt(ReceiptKeyOf(a.request),
                                       BuildReceipt(a.request, o,
                                                    EvidenceRefs(a.request, OfObservation(o), a.result).value))]
  {
  }

  lemma LaterAttemptKeeps(files: Files, s: Step, owner: Request)
    requires SameExecution(s.attempt.request, owner) && Coherent(files, owner)
    requires ReceiptKeyOf(owner) in files.observations
    ensures Coherent(Take(files, s), owner)
  {
    LaterWrites(files, s.attempt);
    var durable := Durable(files, s);
    if durable != [] {
      assert durable == Commit(files, s.attempt).writes;
      ApplyOne(files, durable[0]);
      SameExecutionAgrees(s.attempt.request, owner);
    }
  }

  lemma StepKeeps(files: Files, s: Step, owner: Request)
    requires ReceiptKeyOf(s.attempt.request) == ReceiptKeyOf(owner) ==> SameExecution(s.attempt.request, owner)
    requires Coherent(files, owner)
    ensures Coherent(Take(files, s), owner)
  {
    if ReceiptKeyOf(s.attempt.request) != ReceiptKeyOf(owner) {
      OtherKeysUntouched(files, s, owner);
      GetsDecide(files, Take(files, s), owner);
    } else if ReceiptKeyOf(owner) in files.observations {
      LaterAttemptKeeps(files, s, owner);
    } else {
      FirstAttemptKeeps(files, s, owner);
    }
  }

  lemma GetsDecide(files: Files, after: Files, owner: Request)
    requires var key := ReceiptKeyOf(owner);
             && Get(after.results, key) == Get(files.results, key)
             && Get(after.observations, key) == Get(files.observations, key)
             && Get(after.receipts, key) == Get(files.receipts, key)
    requires Coherent(files, owner)
    ensures Coherent(after, owner)
  {
    var key := ReceiptKeyOf(owner);
    assert key in after.observations <==> Get(after.observations, key).Some?;
    assert key in after.receipts <==> Get(after.receipts, key).Some?;
  }

  lemma {:induction false} RunKeeps(files: Files, steps: seq<Step>, owner: Request)
    requires SharedOwner(steps, owner) && Coherent(files, owner)
    ensures Coherent(Run(files, steps), owner)
    decreases |steps|
  {
    if steps != [] {
      var front := steps[..|steps| - 1];
      assert SharedOwner(front, owner) by {
        assert forall i :: 0 <= i < |front| ==> front[i] == steps[i];
      }
      RunKeeps(files, front, owner);
      StepKeeps(Run(files, front), steps[|steps| - 1], owner);
    }
  }

  // ----- retries

  /** The attempt brings what the stored observation was made from; its clock and start may differ. */
  predicate SameInputs(files: Files, a: Attempt)
    requires ReceiptKeyOf(a.request) in files.observations
  {
    var key := ReceiptKeyOf(a.request);
    var o := files.observations[key];
    WellFormed(a) && a.kind == Some(o.kind) && a.ownerResult == o.ownerResult && a.result == Get(files.results, key)
  }

  predicate ValidationNamed(result: Option<ActivityResult>) {
    result.Some? ==> result.value.validation.Some?
  }

  /**
   Once an observation is stored, an uncrashed attempt succeeds exactly when it brings the same
   inputs, the stored time lies in the session's window and the activity result names its
   validation receipt. Success is always the same receipt, whatever the attempt's clock says.
   */
  lemma RetryIsExact(files: Files, a: Attempt)
    requires Coherent(files, a.request) && Authorized(a.request)
    requires ReceiptKeyOf(a.request) in files.observations
    ensures var o := files.observations[ReceiptKeyOf(a.request)];
            var outcome := Commit(files, a).outcome;
            && (outcome.Ok? <==>
                && SameInputs(files, a) && ValidationNamed(a.result)
                && a.request.context.sessionStartedAt <= o.recordedAt
                && (o.ownerResult == "passed" ==> o.recordedAt < a.request.context.expiresAt))
            && (outcome.Ok? ==>
                  && EvidenceRefs(a.request, OfObservation(o), a.result).Ok?
                  && outcome.value ==
                  BuildReceipt(a.request, o, EvidenceRefs(a.request, OfObservation(o), a.result).value))
  {
  }

  /** The stored-receipt check passes exactly when the recorded time lies in the window. */
  lemma LoadIsExact(files: Files, q: Request)
    requires Coherent(files, q) && Authorized(q) && ReceiptKeyOf(q) in files.receipts
    ensures var receipt := files.receipts[ReceiptKeyOf(q)];
            Load(files, q) ==
            if q.context.sessionStartedAt <= receipt.body.recordedAt
               && (receipt.body.ownerResult == "passed" ==> receipt.body.recordedAt < q.context.expiresAt)
            then Ok(Some(receipt)) else Err(Mismatch)
  {
  }

  lemma SuccessIsStored(files: Files, a: Attempt)
    requires Commit(files, a).outcome.Ok?
    ensures Get(Take(files, Step(a, None)).receipts, ReceiptKeyOf(a.request)) == Some(Commit(files, a).outcome.value)
  {
    var plan, key := Commit(files, a), ReceiptKeyOf(a.request);
    if key in files.receipts {
      assert plan.writes == [];
    } else {
      var last := plan.writes[|plan.writes| - 1];
      assert last == PutReceipt(key, plan.outcome.value);
    }
  }

  lemma StaysStored(steps: seq<Step>, i: nat, j: nat, key: ReceiptKey)
    requires i <= j <= |steps| && key in Run(EMPTY, steps[..i]).receipts
    ensures Get(Run(EMPTY, steps[..j]).receipts, key) == Some(Run(EMPTY, steps[..i]).receipts[key])
  {
    assert steps[..j] == steps[..i] + steps[i..j];
    RunSplit(EMPTY, steps[..i], steps[i..j]);
    RunExtends(EMPTY, steps[..i]);
    RunExtends(Run(EMPTY, steps[..i]), steps[i..j]);
  }

  lemma StoredAnswers(files: Files, a: Attempt)
    requires ReceiptKeyOf(a.request) in files.receipts && Commit(files, a).outcome.Ok?
    ensures Commit(files, a).outcome.value == files.receipts[ReceiptKeyOf(a.request)]
  {
  }

  predicate Succeeds(steps: seq<Step>, i: nat)
    requires i < |steps|
  {
    steps[i].crash.None? && Commit(Run(EMPTY, steps[..i]), steps[i].attempt).outcome.Ok?
  }

  function ReceiptAtStep(steps: seq<Step>, i: nat): Receipt
    requires i < |steps| && Succeeds(steps, i)
  {
    Commit(Run(EMPTY, steps[..i]), steps[i].attempt).outcome.value
  }

  /** All successes under one key return one and the same receipt, in any run, whoever asks and whatever crashed. */
  lemma OneReceipt(steps: seq<Step>, i: nat, j: nat)
    requires i <= j < |steps| && Succeeds(steps, i) && Succeeds(steps, j)
    requires ReceiptKeyOf(steps[i].attempt.request) == ReceiptKeyOf(steps[j].attempt.request)
    ensures ReceiptAtStep(steps, i) == ReceiptAtStep(steps, j)
  {
    if i < j {
      var key := ReceiptKeyOf(steps[i].attempt.request);
      assert steps[i] == Step(steps[i].attempt, None);
      SuccessIsStored(Run(EMPTY, steps[..i]), steps[i].attempt);
      assert steps[..i + 1][..i] == steps[..i];
      assert Run(EMPTY, steps[..i + 1]) == Take(Run(EMPTY, steps[..i]), steps[i]);
      StaysStored(steps, i + 1, j, key);
      StoredAnswers(Run(EMPTY, steps[..j]), steps[j].attempt);
    }
  }

  lemma {:induction false} RunSplit(files: Files, first: seq<Step>, second: seq<Step>)
    ensures Run(files, first + second) == Run(Run(files, first), second)
    decreases |second|
  {
    if second == [] {
      assert first + second == first;
    } else {
      var front := second[..|second| - 1];
      RunSplit(files, first, front);
      assert (first + second)[..|first + second| - 1] == first + front;
    }
  }

  /** `first` is the step that left the observation of the owner's execution. */
  ghost predicate Observes(earlier: seq<Step>, first: Step, owner: Request) {
    && SameExecution(first.attempt.request, owner)
    && ReceiptKeyOf(owner) !in Run(EMPTY, earlier).observations
    && ReceiptKeyOf(owner) in Run(EMPTY, earlier + [first]).observations
  }

  lemma SharedOwnerPrefix(front: seq<Step>, rest: seq<Step>, owner: Request)
    requires SharedOwner(front + rest, owner)
    ensures SharedOwner(front, owner)
  {
    assert forall i :: 0 <= i < |front| ==> front[i] == (front + rest)[i];
  }

  /** What the first observation says is still there after any further attempts. */
  lemma ObservationStays(earlier: seq<Step>, first: Step, later: seq<Step>, owner: Request)
    requires SharedOwner(earlier + [first] + later, owner) && Observes(earlier, first, owner)
    ensures var files, key := Run(EMPTY, earlier + [first] + later), ReceiptKeyOf(owner);
            && Coherent(files, owner)
            && WellFormed(first.attempt) && Get(files.observations, key) == Some(Observe(first.attempt))
            && Get(files.results, key) == first.attempt.result
    ensures first.attempt.now >= owner.context.sessionStartedAt
    ensures first.attempt.ownerResult == "passed" ==> first.attempt.now < owner.context.expiresAt
  {
    var key, steps := ReceiptKeyOf(owner), earlier + [first] + later;
    var before, left, files := Run(EMPTY, earlier), Run(EMPTY, earlier + [first]), Run(EMPTY, steps);
    assert (earlier + [first])[..|earlier|] == earlier;
    assert left == Take(before, first);
    RunExtends(EMPTY, earlier);
    FirstAttemptLeaves(before, first);
    RunSplit(EMPTY, earlier + [first], later);
    RunExtends(EMPTY, earlier + [first]);
    RunExtends(left, later);
    RunKeeps(EMPTY, steps, owner);
    assert files.observations[key] == Observe(first.attempt);
    assert Get(files.results, key) == first.attempt.result by {
      SharedOwnerPrefix(earlier + [first], later, owner);
      RunKeeps(EMPTY, earlier + [first], owner);
      assert first.attempt.result.None? ==> files.observations[key].bound.None?;
    }
  }

  /**
   Crash recovery over whole runs. `first` is the attempt that left the observation, dying or not.
   After any further attempts, an uncrashed retry with its inputs, at any time, completes with the
   first recorded time and a receipt that the stored-receipt check accepts, exactly when the
   truncated time is not before the session and the activity result names its validation receipt.
   */
  lemma RetryCompletes(earlier: seq<Step>, first: Step, later: seq<Step>, retry: Attempt)
    requires SharedOwner(earlier + [first] + later, retry.request) && Observes(earlier, first, retry.request)
    requires && retry.ownerResult == first.attempt.ownerResult && retry.kind == first.attempt.kind
             && retry.fenced && retry.result == first.attempt.result
    ensures var files := Run(EMPTY, earlier + [first] + later);
            var outcome := Commit(files, retry).outcome;
            && (outcome.Ok? <==>
                Trunc(first.attempt.now) >= retry.request.context.sessionStartedAt
                && ValidationNamed(first.attempt.result))
            && (outcome.Ok? ==>
                  && outcome.value.body.recordedAt == Trunc(first.attempt.now)
                  && outcome.value.body.ownerResult == first.attempt.ownerResult
                  && Load(Take(files, Step(retry, None)), retry.request) == Ok(Some(outcome.value)))
  {
    var files := Run(EMPTY, earlier + [first] + later);
    ObservationStays(earlier, first, later, retry.request);
    RetryIsExact(files, retry);
    assert Trunc(first.attempt.now) <= first.attempt.now;
    if Commit(files, retry).outcome.Ok? {
      SuccessIsStored(files, retry);
      StepKeeps(files, Step(retry, None), retry.request);
      LoadIsExact(Take(files, Step(retry, None)), retry.request);
    }
  }

  /** Truncation keeps every admissible time in the session exactly when the session starts on a whole millisecond. */
  lemma AlignmentIsExact(start: int)
    ensures (forall t :: t >= start ==> Trunc(t) >= start) <==> start % 1000 == 0
  {
    if start % 1000 == 0 {
      forall t | t >= start
        ensures Trunc(t) >= start
      {
      }
    } else {
      assert Trunc(start) < start;
    }
  }

  /**
   What a caller can check beforehand: when the session starts on a whole millisecond and the result
   names its validation receipt, every uncrashed retry with the first inputs completes, whenever the
   observation was made and whatever was attempted since.
   */
  lemma AlignedSessionCompletes(earlier: seq<Step>, first: Step, later: seq<Step>, retry: Attempt)
    requires SharedOwner(earlier + [first] + later, retry.request) && Observes(earlier, first, retry.request)
    requires && retry.ownerResult == first.attempt.ownerResult && retry.kind == first.attempt.kind
             && retry.fenced && retry.result == first.attempt.result
    requires retry.request.context.sessionStartedAt % 1000 == 0 && ValidationNamed(retry.result)
    ensures var files := Run(EMPTY, earlier + [first] + later);
            var outcome := Commit(files, retry).outcome;
            && outcome.Ok? && outcome.value.body.recordedAt == Trunc(first.attempt.now)
            && Load(Take(files, Step(retry, None)), retry.request) == Ok(Some(outcome.value))
  {
    ObservationStays(earlier, first, later, retry.request);
    AlignmentIsExact(retry.request.context.sessionStartedAt);
    RetryCompletes(earlier, first, later, retry);
  }

  // ----- stranded receipts

  /**
   The other side: once an observation is stored whose time was cut below the session start, or whose
   result names no validation receipt, no attempt of that execution succeeds any more, whatever it
   brings, and no receipt of it ever passes its check.
   */
  lemma Stranded(earlier: seq<Step>, first: Step, later: seq<Step>, retry: Attempt)
    requires SharedOwner(earlier + [first] + later, retry.request) && Observes(earlier, first, retry.request)
    requires Trunc(first.attempt.now) < retry.request.context.sessionStartedAt || !ValidationNamed(first.attempt.result)
    ensures var files := Run(EMPTY, earlier + [first] + later);
            && Commit(files, retry).outcome.Err?
            && Load(files, retry.request) ==
            if ReceiptKeyOf(retry.request) in files.receipts then Err(Mismatch) else Ok(None)
  {
    var files := Run(EMPTY, earlier + [first] + later);
    ObservationStays(earlier, first, later, retry.request);
    RetryIsExact(files, retry);
    if ReceiptKeyOf(retry.request) in files.receipts {
      LoadIsExact(files, retry.request);
    }
  }

  /** A request for an activity that starts at 500 microseconds. */
  function SampleRequest(sessionStartedAt: int): Request {
    var source := Source("source", "digest");
    Request(OwnerContext("context", "authorization", "digest", "session", sessionStartedAt, 1_000_000, source, source,
                         source, source,
                         map["execution" := "scenario"]),
            Payload("key", "workflow", "run", "scenario", "execution", ""), "activity", 500)
  }

  function FirstAttempt(sessionStartedAt: int, result: Option<ActivityResult>): Attempt {
    Attempt(SampleRequest(sessionStartedAt), "passed", Some("proof"), true, result, 700)
  }

  /** Nothing is stored yet: the attempt leaves its observation unless it dies before that write. */
  lemma FirstObserves(sessionStartedAt: int, result: Option<ActivityResult>, crash: Option<nat>)
    requires sessionStartedAt <= 500 && (result.Some? ==> result.value.status.Some?)
    requires crash.Some? ==> crash.value > if result.Some? then 1 else 0
    ensures Observes([], Step(FirstAttempt(sessionStartedAt, result), crash), SampleRequest(sessionStartedAt))
  {
    var a, key := FirstAttempt(sessionStartedAt, result), ReceiptKeyOf(SampleRequest(sessionStartedAt));
    var s := Step(a, crash);
    FirstAttemptParts(EMPTY, a);
    var writes := Commit(EMPTY, a).writes;
    var n := if crash.Some? && crash.value < |writes| then crash.value else |writes|;
    assert writes[..|writes|] == writes;
    PartsLeave(EMPTY, key, NewResult(EMPTY, a), Observe(a), NewReceipt(a), n);
    GetMembers(Take(EMPTY, s), key);
    assert ([] + [s])[..0] == [];
    assert Run(EMPTY, [] + [s]) == Take(EMPTY, s);
  }

  /**
   A session start at 500 and an observation at 700 microseconds, which is stored as 0. The first
   attempt may even answer with a receipt; from then on every attempt fails, with or without a crash
   in the first one, and what was stored never loads.
   */
  lemma MisalignedSessionWitness(crash: Option<nat>, later: seq<Step>, retry: Attempt)
    requires crash.Some? ==> crash.value > 0
    requires SameExecution(SampleRequest(500), retry.request)
    requires SharedOwner([Step(FirstAttempt(500, None), crash)] + later, retry.request)
    ensures Commit(EMPTY, FirstAttempt(500, None)).outcome.Ok?
    ensures var files := Run(EMPTY, [Step(FirstAttempt(500, None), crash)] + later);
            && ReceiptKeyOf(retry.request) in files.observations
            && Commit(files, retry).outcome.Err?
            && (crash.None? ==> Load(files, retry.request) == Err(Mismatch))
  {
    var first := Step(FirstAttempt(500, None), crash);
    FirstObserves(500, None, crash);
    assert [] + [first] + later == [first] + later;
    Stranded([], first, later, retry);
    ObservationStays([], first, later, retry.request);
    if crash.None? {
      SuccessIsStored(EMPTY, first.attempt);
      assert [first][..0] == [] && Run(EMPTY, [first]) == Take(EMPTY, first);
      RunSplit(EMPTY, [first], later);
      RunExtends(EMPTY, [first]);
      RunExtends(Run(EMPTY, [first]), later);
    }
  }

  /**
   A result that names no validation receipt is refused after its observation is stored, now and on every
   retry, in an aligned session too.
   */
  lemma UnnamedValidationWitness(later: seq<Step>, retry: Attempt)
    requires SameExecution(SampleRequest(0), retry.request)
    requires SharedOwner([Step(FirstAttempt(0, Some(ActivityResult(Some("done"), None, ""))), None)] + later,
                         retry.request)
    ensures var a := FirstAttempt(0, Some(ActivityResult(Some("done"), None, "")));
            var files := Run(EMPTY, [Step(a, None)] + later);
            && Commit(EMPTY, a).outcome == Err(Contract)
            && ReceiptKeyOf(retry.request) in files.observations
            && Commit(files, retry).outcome.Err?
  {
    var first := Step(FirstAttempt(0, Some(ActivityResult(Some("done"), None, ""))), None);
    FirstObserves(0, first.attempt.result, None);
    assert [] + [first] + later == [first] + later;
    Stranded([], first, later, retry);
    ObservationStays([], first, later, retry.request);
  }
}
