/**
 Running owner work in a process group of its own. Each await of the activity takes the next
 happening of a script: what the event loop delivers there. A result may leave only after the whole
 group is seen to be gone, and staged evidence is promoted only with such a result.

 Signals and clocks are not modelled: a happening says whether a wait ended by time, and a cleanup
 is the list of its checks for the group. An exhausted script reads as "time is up".
 */
module OwnerExecution {
  import opened Common

  type Name = string

  datatype Failure = Failure(errorType: Name, retryable: bool)

  /** The owner process's answer: exit code zero and an envelope, or nothing usable. */
  datatype Response = Finished(result: Name) | Refused(failure: Failure) | Garbled

  datatype Error = SpawnFailed | NotConfirmed | SignalFailed | TimedOut | Broken | Unusable | Owner(failure: Failure)
                 | Evidence

  datatype Outcome = Completed(result: Name) | Cancelled | Failed(error: Error)

  /** A cleanup ends with its checks for the group, until it gave up, or because signalling the group was refused. */
  datatype CleanupEnd = Checked(groupSeen: seq<bool>) | SignalRefused

  /**
   `Break` is any other error while output is awaited; it closes the communication with the process
   when it comes from there. `Closed` is the end of that communication.
   */
  datatype Happening =
    | Spawned
    | Heartbeat
    | Late
    | Output(response: Response)
    | Cancel
    | Break(closes: bool)
    | Closed
    | Ended(how: CleanupEnd)
    | CancelAtEnd(how: CleanupEnd)

  // ----- the cleanup of the process group

  /** Some check of the cleanup found no group. */
  predicate Gone(groupSeen: seq<bool>) {
    false in groupSeen
  }

  predicate EndsCleanup(h: Happening) {
    h.Ended? || h.CancelAtEnd?
  }

  /** How many happenings pass until the cleanup has ended, counting the one that ends it. */
  function CleanupLength(script: seq<Happening>): (n: nat)
    ensures n <= |script|
    ensures forall i :: 0 <= i < n - 1 ==> !EndsCleanup(script[i])
    ensures n < |script| ==> n > 0 && EndsCleanup(script[n - 1])
  {
    if script == [] then 0 else if EndsCleanup(script[0]) then 1 else 1 + CleanupLength(script[1..])
  }

  /** How the cleanup ended; an exhausted script ends it without a check. */
  function CleanupResult(script: seq<Happening>): CleanupEnd {
    var n := CleanupLength(script);
    if n > 0 && EndsCleanup(script[n - 1]) then script[n - 1].how else Checked([])
  }

  /** The cleanup confirmed that the group is gone. */
  predicate Fenced(script: seq<Happening>) {
    CleanupResult(script).Checked? && Gone(CleanupResult(script).groupSeen)
  }

  predicate IsCancellation(h: Happening) {
    h.Cancel? || h.CancelAtEnd?
  }

  /** A cancellation arrived while the cleanup was awaited. */
  predicate CancelledMeanwhile(script: seq<Happening>) {
    exists i :: 0 <= i < CleanupLength(script) && IsCancellation(script[i])
  }

  function AfterCleanup(script: seq<Happening>): seq<Happening> {
    script[CleanupLength(script)..]
  }

  // ----- draining the communication

  datatype Drained = Drained(cancelled: bool, rest: seq<Happening>, closed: bool)

  /**
   One drain. It returns at once when the communication is closed. While it waits it swallows a
   cancellation. When its time is up it cancels the communication and waits for that to take effect,
   and a cancellation arriving there leaves the drain.
   */
  function Drain(script: seq<Happening>, closed: bool): Drained {
    if closed then Drained(false, script, true)
    else if script == [] then Drained(false, [], true)
    else if IsCancellation(script[0]) then Drained(false, script[1..], false)
    else if !script[0].Late? then Drained(false, script[1..], true)
    else if |script| == 1 then Drained(false, [], true)
    else Drained(IsCancellation(script[1]), script[2..], true)
  }

  /** After `k` drains that swallowed a cancellation each, the next one's time is up and one more arrives. */
  predicate DrainCancelledAt(script: seq<Happening>, k: nat) {
    && k + 1 < |script| && script[k].Late? && IsCancellation(script[k + 1])
    && forall i :: 0 <= i < k ==> IsCancellation(script[i])
  }

  /** A cancellation leaves some of `drains` drains in a row. */
  predicate DrainCancelled(script: seq<Happening>, closed: bool, drains: nat) {
    !closed && exists k: nat :: k < drains && DrainCancelledAt(script, k)
  }

  lemma NextDrain(script: seq<Happening>, closed: bool, drains: nat)
    ensures var d := Drain(script, closed);
            DrainCancelled(script, closed, drains + 1) <==> d.cancelled || DrainCancelled(d.rest, d.closed, drains)
  {
    if !closed && script != [] {
      if IsCancellation(script[0]) {
        SwallowedDrain(script, drains);
      } else if Drain(script, closed).cancelled {
        assert DrainCancelledAt(script, 0);
      }
    }
  }

  lemma SwallowedDrain(script: seq<Happening>, drains: nat)
    requires script != [] && IsCancellation(script[0])
    ensures DrainCancelled(script, false, drains + 1) <==> DrainCancelled(script[1..], false, drains)
  {
    var rest := script[1..];
    assert forall i :: 0 <= i < |rest| ==> rest[i] == script[i + 1];
    if k: nat :| k < drains + 1 && DrainCancelledAt(script, k) {
      assert DrainCancelledAt(rest, k - 1);
    }
    if k: nat :| k < drains && DrainCancelledAt(rest, k) {
      assert forall i :: 0 < i < k + 1 ==> script[i] == rest[i - 1];
      assert DrainCancelledAt(script, k + 1);
    }
  }

  // ----- what the activity must answer

  /** Heartbeats pass until something else happens. */
  function Quiet(script: seq<Happening>): (n: nat)
    ensures n <= |script|
    ensures forall i :: 0 <= i < n ==> Passes(script[i])
    ensures n < |script| ==> !Passes(script[n])
  {
    if script == [] || !Passes(script[0]) then 0 else 1 + Quiet(script[1..])
  }

  /** Happenings that mean nothing to the wait for output are a heartbeat. */
  predicate Passes(h: Happening) {
    !h.Late? && !h.Output? && !IsCancellation(h) && !h.Break?
  }

  function Decode(r: Response): Outcome {
    match r
    case Finished(result) => Completed(result)
    case Refused(failure) => Failed(Owner(failure))
    case Garbled => Failed(Unusable)
  }

  /** The happening that decides the wait for output, after `Quiet` heartbeats; nothing left means late. */
  function Decisive(script: seq<Happening>): Happening {
    if Quiet(script) < |script| then script[Quiet(script)] else Late
  }

  function AfterDecisive(script: seq<Happening>): seq<Happening> {
    if Quiet(script) < |script| then script[Quiet(script) + 1..] else []
  }

  /** The communication is closed once it gave output or broke itself. */
  predicate Closes(h: Happening) {
    h.Output? || (h.Break? && h.closes)
  }

  /** The answer that the deciding happening and the one cleanup after it call for. */
  function Plain(decisive: Happening, cleanup: seq<Happening>): Outcome {
    if CleanupResult(cleanup).SignalRefused? then Failed(SignalFailed)
    else
      match decisive
      case Output(response) =>
        if !Fenced(cleanup) then Failed(NotConfirmed)
        else if CancelledMeanwhile(cleanup) then Cancelled
        else Decode(response)
      case Late =>
        if !Fenced(cleanup) then Failed(NotConfirmed)
        else if CancelledMeanwhile(cleanup) then Cancelled
        else Failed(TimedOut)
      case Break(_) => if CancelledMeanwhile(cleanup) then Cancelled else Failed(Broken)
      case _ => if !Fenced(cleanup) then Failed(NotConfirmed) else Cancelled
  }

  /** How many drains follow the cleanup on the way out. */
  function Drains(decisive: Happening, cleanup: seq<Happening>): nat {
    var refused := CleanupResult(cleanup).SignalRefused?;
    match decisive
    case Output(_) => 2
    case Late => if Fenced(cleanup) && !CancelledMeanwhile(cleanup) then 3 else 2
    case Break(_) => if refused || CancelledMeanwhile(cleanup) then 1 else 2
    case _ => if refused then 1 else 2
  }

  /** A cancellation leaves one of the drains and takes the place of whatever was to be answered. */
  predicate LostInDrain(decisive: Happening, cleanup: seq<Happening>) {
    DrainCancelled(AfterCleanup(cleanup), Closes(decisive), Drains(decisive, cleanup))
  }

  function Decided(decisive: Happening, cleanup: seq<Happening>): Outcome {
    if LostInDrain(decisive, cleanup) then Cancelled else Plain(decisive, cleanup)
  }

  /** The answer once a process runs. */
  function Verdict(script: seq<Happening>): Outcome {
    Decided(Decisive(script), AfterDecisive(script))
  }

  /** The answer including the start of the process. */
  function Answer(script: seq<Happening>): Outcome {
    if script == [] then Failed(SpawnFailed)
    else if IsCancellation(script[0]) then Cancelled
    else if script[0].Spawned? then Verdict(script[1..])
    else Failed(SpawnFailed)
  }

  /** The happenings the activity awaits, in order. */
  class EventLoop {
    var script: seq<Happening>

    constructor (script: seq<Happening>)
      ensures this.script == script
    {
      this.script := script;
    }

    /** The next happening; once the script is over, `last`. */
    method Await(last: Happening) returns (h: Happening)
      modifies this
      ensures old(script) == [] ==> h == last && script == []
      ensures old(script) != [] ==> h == old(script)[0] && script == old(script)[1..]
    {
      if script == [] {
        return last;
      }
      h, script := script[0], script[1..];
    }
  }

  method WaitForProcessGroupExit(groupSeen: seq<bool>) returns (gone: bool)
    ensures gone == Gone(groupSeen)
  {
    for i := 0 to |groupSeen|
      invariant false !in groupSeen[..i]
    {
      if !groupSeen[i] {
        return true;
      }
    }
    return false;
  }

  /** The cleanup itself: it raises when a signal is refused. */
  method StopOwnerProcess(how: CleanupEnd) returns (fenced: Option<bool>)
    ensures fenced == if how.SignalRefused? then None else Some(Gone(how.groupSeen))
  {
    if how.SignalRefused? {
      return None;
    }
    var gone := WaitForProcessGroupExit(how.groupSeen);
    return Some(gone);
  }

  /** What the stop helper hands back: its finding with the cancellation flag, or the cleanup's error. */
  datatype Stop = Stopped(fenced: bool, cancellationRequested: bool) | Raising

  function StopOf(script: seq<Happening>): Stop {
    if CleanupResult(script).SignalRefused? then Raising else Stopped(Fenced(script), CancelledMeanwhile(script))
  }

  /**
   Awaits the cleanup through any number of cancellations: it comes back only when the cleanup has
   ended, with its finding, and then reports a cancellation exactly when one arrived.
   */
  method StopBeforeAcknowledgement(loop: EventLoop) returns (stop: Stop)
    modifies loop
    ensures loop.script == AfterCleanup(old(loop.script))
    ensures stop == StopOf(old(loop.script))
  {
    ghost var before := loop.script;
    ghost var n := 0;
    var cancellationRequested := false;
    while true
      invariant n <= |before| && loop.script == before[n..]
      invariant CleanupLength(before) == n + CleanupLength(loop.script)
      invariant CleanupResult(before) == CleanupResult(loop.script)
      invariant cancellationRequested == exists i :: 0 <= i < n && IsCancellation(before[i])
      decreases |loop.script|
    {
      ghost var rest := loop.script;
      if loop.script == [] {
        return Stopped(false, cancellationRequested);
      }
      var h := loop.Await(Ended(Checked([])));
      assert rest[1..] == before[n + 1..];
      n := n + 1;
      assert IsCancellation(h) ==> IsCancellation(before[n - 1]);
      if EndsCleanup(h) {
        var fenced := StopOwnerProcess(h.how);
        return if fenced.None? then Raising else Stopped(fenced.value, cancellationRequested || h.CancelAtEnd?);
      }
      if h.Cancel? {
        cancellationRequested := true;
      }
    }
  }

  method DrainCommunication(loop: EventLoop, closed: bool) returns (cancelled: bool, closedNow: bool)
    modifies loop
    ensures Drained(cancelled, loop.script, closedNow) == Drain(old(loop.script), closed)
  {
    if closed {
      return false, true;
    }
    var h := loop.Await(Closed);
    if IsCancellation(h) {
      return false, false;
    }
    if !h.Late? {
      return false, true;
    }
    h := loop.Await(Closed);
    return IsCancellation(h), true;
  }

  /** How the guarded body of the execution is left. */
  datatype Exit = Returned(outcome: Outcome) | RaisedCancel | Raised(error: Error)

  function ExitOf(response: Response): Exit {
    match Decode(response)
    case Failed(error) => Raised(error)
    case outcome => Returned(outcome)
  }

  /** The end of the body after a stop: a raising cleanup, then cancellation, then an unconfirmed group come first. */
  function AfterStop(stop: Stop, answer: Exit): Exit {
    if stop.Raising? then Raised(SignalFailed)
    else if stop.cancellationRequested then RaisedCancel
    else if !stop.fenced then Raised(NotConfirmed)
    else answer
  }

  /** Body, handlers' knowledge and what is left of the script when the body is left. */
  datatype Left = Left(exit: Exit, groupFenced: bool, stopAttempted: bool, closed: bool, script: seq<Happening>)

  function LeftAfter(decisive: Happening, cleanup: seq<Happening>): Left {
    var stop, rest := StopOf(cleanup), AfterCleanup(cleanup);
    var fenced := stop.Stopped? && stop.fenced;
    match decisive
    case Output(response) => Left(AfterStop(stop, ExitOf(response)), fenced, true, true, rest)
    case Late =>
      var drained := Drain(rest, false);
      if stop.Raising? || stop.cancellationRequested || !stop.fenced
      then Left(AfterStop(stop, RaisedCancel), fenced, true, false, rest)
      else Left(if drained.cancelled then RaisedCancel else Raised(TimedOut), fenced, true, drained.closed,
                drained.rest)
    case Break(closes) => Left(Raised(Broken), false, false, closes, cleanup)
    case _ => Left(RaisedCancel, false, false, false, cleanup)
  }

  /** Waits with heartbeats until output, deadline, cancellation or breakage; stops the group on the first two. */
  method AwaitOwner(loop: EventLoop) returns (exit: Exit, groupFenced: bool, stopAttempted: bool, closed: bool)
    modifies loop
    ensures Left(exit, groupFenced, stopAttempted, closed, loop.script) ==
            LeftAfter(Decisive(old(loop.script)), AfterDecisive(old(loop.script)))
  {
    ghost var before := loop.script;
    ghost var n := 0;
    groupFenced, stopAttempted, closed := false, false, false;
    while true
      invariant n <= |before| && loop.script == before[n..]
      invariant Quiet(before) == n + Quiet(loop.script)
      decreases |loop.script|
    {
      ghost var rest := loop.script;
      assert rest != [] ==> rest[1..] == before[n + 1..];
      var over := loop.script == [];
      var h := loop.Await(Late);
      assert !Passes(h) ==> Decisive(before) == h && loop.script == AfterDecisive(before);
      if h.Output? {
        stopAttempted, closed := true, true;
        var stop := StopBeforeAcknowledgement(loop);
        groupFenced := stop.Stopped? && stop.fenced;
        exit := AfterStop(stop, ExitOf(h.response));
        return;
      }
      if h.Late? {
        stopAttempted := true;
        var stop := StopBeforeAcknowledgement(loop);
        groupFenced := stop.Stopped? && stop.fenced;
        if stop.Raising? || stop.cancellationRequested || !stop.fenced {
          exit := AfterStop(stop, RaisedCancel);
          return;
        }
        var cancelled;
        cancelled, closed := DrainCommunication(loop, false);
        exit := if cancelled then RaisedCancel else Raised(TimedOut);
        return;
      }
      if h.Break? {
        closed := h.closes;
        exit := Raised(Broken);
        return;
      }
      if IsCancellation(h) {
        exit := RaisedCancel;
        return;
      }
      n := n + 1;
    }
  }

  /** What a handler decides, before the last drain. */
  datatype Handling = Handling(outcome: Outcome, closed: bool, script: seq<Happening>)

  function CancellationHandled(l: Left): Handling {
    var stop := if l.stopAttempted then Stopped(l.groupFenced, false) else StopOf(l.script);
    var rest := if l.stopAttempted then l.script else AfterCleanup(l.script);
    var d := Drain(rest, l.closed);
    if stop.Raising? then Handling(Failed(SignalFailed), l.closed, rest)
    else Handling(if !d.cancelled && !stop.fenced then Failed(NotConfirmed) else Cancelled, d.closed, d.rest)
  }

  function ErrorHandled(l: Left): Handling
    requires l.exit.Raised?
  {
    var stop := if l.stopAttempted then Stopped(false, false) else StopOf(l.script);
    var rest := if l.stopAttempted then l.script else AfterCleanup(l.script);
    var d := Drain(rest, l.closed);
    if stop.Raising? then Handling(Failed(SignalFailed), l.closed, rest)
    else if stop.cancellationRequested then Handling(Cancelled, l.closed, rest)
    else Handling(if d.cancelled then Cancelled else Failed(l.exit.error), d.closed, d.rest)
  }

  function Handled(l: Left): Handling {
    match l.exit
    case Returned(answer) => Handling(answer, l.closed, l.script)
    case RaisedCancel => CancellationHandled(l)
    case Raised(_) => ErrorHandled(l)
  }

  /** The last drain, on every way out. */
  function Closing(h: Handling): Outcome {
    if Drain(h.script, h.closed).cancelled then Cancelled else h.outcome
  }

  lemma NoDrain(script: seq<Happening>, closed: bool)
    ensures !DrainCancelled(script, closed, 0)
    ensures !DrainCancelled(script, true, 1) && !DrainCancelled(script, true, 2)
  {
  }

  /** A cancelled drain has closed the communication, so it is the only one. */
  lemma TwoDrains(script: seq<Happening>, closed: bool)
    ensures var d := Drain(script, closed);
            && (DrainCancelled(script, closed, 1) <==> d.cancelled)
            && (DrainCancelled(script, closed, 2) <==> d.cancelled || Drain(d.rest, d.closed).cancelled)
            && (d.cancelled ==> d.closed)
  {
    var d := Drain(script, closed);
    NextDrain(script, closed, 0);
    NextDrain(script, closed, 1);
    NextDrain(d.rest, d.closed, 0);
    NoDrain(d.rest, d.closed);
    NoDrain(Drain(d.rest, d.closed).rest, Drain(d.rest, d.closed).closed);
  }

  lemma ThreeDrains(script: seq<Happening>)
    ensures var d := Drain(script, false);
            DrainCancelled(script, false, 3) <==> d.cancelled || DrainCancelled(d.rest, d.closed, 2)
  {
    NextDrain(script, false, 2);
  }

  lemma LeavesOnOutput(response: Response, cleanup: seq<Happening>)
    ensures Closing(Handled(LeftAfter(Output(response), cleanup))) == Decided(Output(response), cleanup)
  {
  }

  lemma LeavesOnLateUnfenced(cleanup: seq<Happening>)
    requires var stop := StopOf(cleanup); stop.Raising? || stop.cancellationRequested || !stop.fenced
    ensures Closing(Handled(LeftAfter(Late, cleanup))) == Decided(Late, cleanup)
  {
    TwoDrains(AfterCleanup(cleanup), false);
  }

  lemma LeavesOnLateFenced(cleanup: seq<Happening>)
    requires StopOf(cleanup) == Stopped(true, false)
    ensures Closing(Handled(LeftAfter(Late, cleanup))) == Decided(Late, cleanup)
  {
    var rest := AfterCleanup(cleanup);
    var d := Drain(rest, false);
    ThreeDrains(rest);
    TwoDrains(d.rest, d.closed);
  }

  lemma LeavesOnBreak(closes: bool, cleanup: seq<Happening>)
    ensures Closing(Handled(LeftAfter(Break(closes), cleanup))) == Decided(Break(closes), cleanup)
  {
    TwoDrains(AfterCleanup(cleanup), closes);
  }

  lemma LeavesOnCancel(decisive: Happening, cleanup: seq<Happening>)
    requires IsCancellation(decisive)
    ensures Closing(Handled(LeftAfter(decisive, cleanup))) == Decided(decisive, cleanup)
  {
    TwoDrains(AfterCleanup(cleanup), false);
  }

  /** Body, handlers and last drain together answer what the verdict says. */
  lemma LeavesWithVerdict(decisive: Happening, cleanup: seq<Happening>)
    requires !Passes(decisive)
    ensures Closing(Handled(LeftAfter(decisive, cleanup))) == Decided(decisive, cleanup)
  {
    match decisive
    case Output(response) => LeavesOnOutput(response, cleanup);
    case Late =>
      if StopOf(cleanup) == Stopped(true, false) { LeavesOnLateFenced(cleanup); }
      else { LeavesOnLateUnfenced(cleanup); }
    case Break(closes) => LeavesOnBreak(closes, cleanup);
    case _ => LeavesOnCancel(decisive, cleanup);
  }

  /** The handler of a cancellation: stop the group if nobody did, drain, and insist on the fence. */
  method HandleCancellation(loop: EventLoop, groupFenced: bool, stopAttempted: bool, closed: bool)
    returns (outcome: Outcome, closedNow: bool)
    modifies loop
    ensures Handling(outcome, closedNow, loop.script) ==
            CancellationHandled(Left(RaisedCancel, groupFenced, stopAttempted, closed, old(loop.script)))
  {
    var fenced := groupFenced;
    if !stopAttempted {
      var stop := StopBeforeAcknowledgement(loop);
      if stop.Raising? {
        return Failed(SignalFailed), closed;
      }
      fenced := stop.fenced;
    }
    var cancelled;
    cancelled, closedNow := DrainCommunication(loop, closed);
    outcome := if !cancelled && !fenced then Failed(NotConfirmed) else Cancelled;
  }

  /** The handler of any other error; it does not ask whether the group is fenced. */
  method HandleError(loop: EventLoop, error: Error, ghost groupFenced: bool, stopAttempted: bool, closed: bool)
    returns (outcome: Outcome, closedNow: bool)
    modifies loop
    ensures Handling(outcome, closedNow, loop.script) ==
            ErrorHandled(Left(Raised(error), groupFenced, stopAttempted, closed, old(loop.script)))
  {
    if !stopAttempted {
      var stop := StopBeforeAcknowledgement(loop);
      if stop.Raising? {
        return Failed(SignalFailed), closed;
      }
      if stop.cancellationRequested {
        return Cancelled, closed;
      }
    }
    var cancelled;
    cancelled, closedNow := DrainCommunication(loop, closed);
    outcome := if cancelled then Cancelled else Failed(error);
  }

  /** The handlers and the last drain. */
  method LeaveExecution(loop: EventLoop, exit: Exit, groupFenced: bool, stopAttempted: bool, closed: bool)
    returns (outcome: Outcome)
    modifies loop
    ensures outcome == Closing(Handled(Left(exit, groupFenced, stopAttempted, closed, old(loop.script))))
  {
    var closedNow := closed;
    match exit {
      case Returned(answer) => outcome := answer;
      case RaisedCancel => outcome, closedNow := HandleCancellation(loop, groupFenced, stopAttempted, closed);
      case Raised(error) => outcome, closedNow := HandleError(loop, error, groupFenced, stopAttempted, closed);
    }
    var cancelled;
    cancelled, closedNow := DrainCommunication(loop, closedNow);
    if cancelled {
      outcome := Cancelled;
    }
  }

  method RunOwnerExecution(loop: EventLoop) returns (outcome: Outcome)
    modifies loop
    ensures outcome == Answer(old(loop.script))
  {
    if loop.script == [] {
      return Failed(SpawnFailed);
    }
    var start := loop.Await(Late);
    if IsCancellation(start) {
      return Cancelled;
    }
    if !start.Spawned? {
      return Failed(SpawnFailed);
    }
    LeavesWithVerdict(Decisive(loop.script), AfterDecisive(loop.script));
    var exit, groupFenced, stopAttempted, closed := AwaitOwner(loop);
    outcome := LeaveExecution(loop, exit, groupFenced, stopAttempted, closed);
  }

  // ----- what the answers mean

  /** A result leaves only after the group was seen to be gone, with no cancellation since the output. */
  lemma ResultMeansFenced(script: seq<Happening>)
    requires Answer(script).Completed?
    ensures script != [] && script[0].Spawned?
    ensures var i := Quiet(script[1..]);
            && i < |script[1..]| && script[1..][i] == Output(Finished(Answer(script).result))
            && Fenced(script[1..][i + 1..]) && !CancelledMeanwhile(script[1..][i + 1..])
  {
    var decisive := Decisive(script[1..]);
    assert decisive.Output?;
    assert Decode(decisive.response).Completed?;
  }

  predicate FirstEnd(script: seq<Happening>, i: nat) {
    i < |script| && EndsCleanup(script[i]) && forall j :: 0 <= j < i ==> !EndsCleanup(script[j])
  }

  /** A fence is a check that found no group, made by the first cleanup to end. */
  lemma FenceIsACheck(script: seq<Happening>)
    ensures Fenced(script) <==>
            exists i: nat :: FirstEnd(script, i) && script[i].how.Checked? && Gone(script[i].how.groupSeen)
  {
    if i: nat :| FirstEnd(script, i) && script[i].how.Checked? && Gone(script[i].how.groupSeen) {
      CleanupEndsAt(script, i);
    }
    if Fenced(script) {
      assert FirstEnd(script, CleanupLength(script) - 1);
    }
  }

  lemma {:induction false} CleanupEndsAt(script: seq<Happening>, i: nat)
    requires FirstEnd(script, i)
    ensures CleanupLength(script) == i + 1
    decreases i
  {
    if i > 0 {
      assert forall j :: 0 <= j < |script[1..]| ==> script[1..][j] == script[j + 1];
      CleanupEndsAt(script[1..], i - 1);
    }
  }

  /**
   The answer that the group was not confirmed is given exactly when the cleanup ended without
   confirming it, unless the execution itself broke or a cancellation left a drain.
   */
  lemma UnfencedIsReported(script: seq<Happening>)
    ensures var decisive, cleanup := Decisive(script), AfterDecisive(script);
            Verdict(script) == Failed(NotConfirmed) <==>
            && !Fenced(cleanup) && !CleanupResult(cleanup).SignalRefused?
            && !decisive.Break? && !LostInDrain(decisive, cleanup)
  {
    var decisive := Decisive(script);
    assert decisive.Output? ==> Decode(decisive.response) != Failed(NotConfirmed);
  }

  /**
   Cancellation does not imply a fenced group. With a process running and the group not confirmed,
   the answer is Cancelled exactly when a cancellation left a drain whose time was up, or the
   execution broke and a cancellation arrived in the cleanup that followed.
   */
  lemma CancelledUnfencedExactly(script: seq<Happening>)
    ensures var decisive, cleanup := Decisive(script), AfterDecisive(script);
            Verdict(script) == Cancelled && !Fenced(cleanup) <==>
            && !Fenced(cleanup)
            && (|| LostInDrain(decisive, cleanup)
                || (decisive.Break? && CancelledMeanwhile(cleanup) && !CleanupResult(cleanup).SignalRefused?))
  {
    assert Decisive(script).Output? ==> Decode(Decisive(script).response) != Cancelled;
  }

  /**
   A cancellation that arrives during the cleanup is answered by Cancelled, or by the report of an
   unconfirmed group, exactly unless the cleanup's signal was refused and no drain was left.
   */
  lemma CancellationIsHeard(script: seq<Happening>)
    requires CancelledMeanwhile(AfterDecisive(script))
    ensures var decisive, cleanup := Decisive(script), AfterDecisive(script);
            Verdict(script) == Cancelled || Verdict(script) == Failed(NotConfirmed) <==>
            !CleanupResult(cleanup).SignalRefused? || LostInDrain(decisive, cleanup)
  {
    assert Decisive(script).Output? || Decisive(script).Late? || Decisive(script).Break?
           || IsCancellation(Decisive(script));
  }

  // ----- inputs on which the fence is missed

  lemma DecidesFirst(running: seq<Happening>, first: Happening, cleanup: seq<Happening>)
    requires running == [first] + cleanup && !Passes(first)
    ensures Decisive(running) == first && AfterDecisive(running) == cleanup
  {
    assert Quiet(running) == 0;
    assert running[1..] == cleanup;
  }

  lemma EndsFirst(cleanup: seq<Happening>, how: CleanupEnd, rest: seq<Happening>)
    requires cleanup == [Ended(how)] + rest
    ensures CleanupResult(cleanup) == how && !CancelledMeanwhile(cleanup) && AfterCleanup(cleanup) == rest
  {
    assert CleanupLength(cleanup) == 1;
    assert cleanup[1..] == rest;
  }

  /** The execution breaks, a cancellation arrives in the cleanup, and the group is still there. */
  lemma CancelledUnfencedWitness()
    ensures var script := [Spawned, Break(false), Cancel, Ended(Checked([true]))];
            Answer(script) == Cancelled && !Fenced(AfterDecisive(script[1..]))
  {
    var script := [Spawned, Break(false), Cancel, Ended(Checked([true]))];
    var cleanup := [Cancel, Ended(Checked([true]))];
    assert script[1..] == [Break(false)] + cleanup;
    DecidesFirst(script[1..], Break(false), cleanup);
    assert cleanup[1..] == [Ended(Checked([true]))];
    assert CleanupLength(cleanup) == 2;
    assert IsCancellation(cleanup[0]);
  }

  /**
   Without any breakage: a cancellation or the deadline decides, the group is still there, the drain's
   time is up, and one more cancellation takes the place of the report.
   */
  lemma CancelledInDrainWitness(decisive: Happening)
    requires decisive == Cancel || decisive == Late
    ensures var script := [Spawned, decisive, Ended(Checked([true])), Late, Cancel];
            Answer(script) == Cancelled && !Fenced(AfterDecisive(script[1..]))
    ensures Answer([Spawned, decisive, Ended(Checked([true]))]) == Failed(NotConfirmed)
  {
    var script := [Spawned, decisive, Ended(Checked([true])), Late, Cancel];
    var rest := [Late, Cancel];
    var cleanup := [Ended(Checked([true]))] + rest;
    assert script[1..] == [decisive] + cleanup;
    DecidesFirst(script[1..], decisive, cleanup);
    EndsFirst(cleanup, Checked([true]), rest);
    assert DrainCancelledAt(rest, 0);
    var short := [Spawned, decisive, Ended(Checked([true]))];
    var shortCleanup := [Ended(Checked([true]))] + [];
    assert short[1..] == [decisive] + shortCleanup;
    DecidesFirst(short[1..], decisive, shortCleanup);
    EndsFirst(shortCleanup, Checked([true]), []);
  }

  /** The same drain turns a fenced deadline into a cancellation. */
  lemma TimeoutLostInDrain()
    ensures Answer([Spawned, Late, Ended(Checked([false])), Late, Cancel]) == Cancelled
    ensures Answer([Spawned, Late, Ended(Checked([false]))]) == Failed(TimedOut)
  {
    var script := [Spawned, Late, Ended(Checked([false])), Late, Cancel];
    var rest := [Late, Cancel];
    var cleanup := [Ended(Checked([false]))] + rest;
    assert script[1..] == [Late] + cleanup;
    DecidesFirst(script[1..], Late, cleanup);
    EndsFirst(cleanup, Checked([false]), rest);
    assert DrainCancelledAt(rest, 0);
    var short := [Spawned, Late, Ended(Checked([false]))];
    var shortCleanup := [Ended(Checked([false]))] + [];
    assert short[1..] == [Late] + shortCleanup;
    DecidesFirst(short[1..], Late, shortCleanup);
    EndsFirst(shortCleanup, Checked([false]), []);
  }
}
