/**
 Retention of an evidence workspace: one run with what others append meanwhile and where it may fail,
 and the deletion of files that are too old or too many.

 Exports, artifacts and receipts lie in directories of their own.
 */
module LedgerRetention {
  import opened Common
  import opened LedgerExports
  import opened LedgerRuns

  // ----- one retention run

  /** Where a compaction fails: before its export is written, or between the export and the ledger. */
  datatype Fault = NoFault | AtExport | AtRewrite

  /** A compaction that reads the ledger while others append `during` before it writes the ledger back. */
  function CompactOver(l: Ledger, plan: CompactionPlan, during: seq<Line>, fault: Fault): Ledger {
    var n, busy := AtMost(plan.compacted, |l.live|), l.live + during;
    var exports := WriteExport(l.exports, Export(plan.name, l.live[..n]));
    match fault
    case AtExport => Ledger(l.exports, busy)
    case AtRewrite => Ledger(exports, busy)
    case NoFault => Ledger(exports, l.live[n..])
  }

  /** One run; others append `before` between its plan and its read, and `during` between read and write-back. */
  function Retained(l: Ledger, maxEvents: nat, now: int, before: seq<Line>, during: seq<Line>, fault: Fault,
                    event: Line): Ledger
    requires maxEvents >= 1
  {
    var plan, busy := PlanCompaction(l.live, maxEvents, now), Ledger(l.exports, l.live + before);
    Append(if plan.required then CompactOver(busy, plan, during, fault) else Ledger(busy.exports, busy.live + during),
           event)
  }

  /** What a compaction leaves, its event included, when its export has a name of its own. */
  lemma CompactionLeaves(l: Ledger, plan: CompactionPlan, during: seq<Line>, fault: Fault, event: Line)
    requires LinesUnder(l.exports, plan.name) == []
    ensures History(Append(CompactOver(l, plan, during, fault), event)) ==
            match fault
            case AtExport => History(l) + during + [event]
            case AtRewrite =>
              Flatten(l.exports) + l.live[..AtMost(plan.compacted, |l.live|)] + l.live + during + [event]
            case NoFault => History(l) + [event]
  {
    var n, exported := AtMost(plan.compacted, |l.live|), Flatten(l.exports);
    var e := Export(plan.name, l.live[..n]);
    WithoutSplits(l.exports, plan.name);
    FlattenNext(Without(l.exports, plan.name), e);
    assert Flatten(WriteExport(l.exports, e)) == exported + l.live[..n];
    Joined(exported, l.live, n, during, event);
  }

  lemma Joined(exported: seq<Line>, lines: seq<Line>, n: nat, during: seq<Line>, event: Line)
    requires n <= |lines|
    ensures exported + (lines + during + [event]) == exported + lines + during + [event]
    ensures exported + lines[..n] + (lines + during + [event]) == exported + lines[..n] + lines + during + [event]
    ensures exported + lines[..n] + (lines[n..] + [event]) == exported + lines + [event]
  {
    assert lines == lines[..n] + lines[n..];
    Associated(exported, lines, during + [event]);
    Associated(exported + lines[..n], lines, during + [event]);
    assert lines + during + [event] == lines + (during + [event]);
  }

  lemma Associated(a: seq<Line>, b: seq<Line>, c: seq<Line>)
    ensures a + (b + c) == a + b + c
  {
  }

  /** The lines that a run moves into its export. */
  function MovedBy(l: Ledger, maxEvents: nat, before: seq<Line>): seq<Line>
    requires maxEvents >= 1
  {
    var lines := l.live + before;
    lines[..AtMost(PlanCompaction(l.live, maxEvents, 0).compacted, |lines|)]
  }

  /**
   A run whose export has a name of its own leaves everything exported or in the ledger, once and in order,
   exactly when it had nothing to compact, failed before its export, or compacted with no append between
   its read and its write-back. Such appends are gone otherwise; and a run that fails after its export
   leaves the exported lines in the ledger as well.
   */
  lemma OneRunExactly(l: Ledger, maxEvents: nat, now: int, before: seq<Line>, during: seq<Line>, fault: Fault,
                      event: Line)
    requires maxEvents >= 1 && LinesUnder(l.exports, Name(now, l.live)) == []
    ensures var after := History(Retained(l, maxEvents, now, before, during, fault, event));
            && (after == History(l) + before + during + [event] <==>
                (|l.live| > maxEvents ==> fault == AtExport || (fault == NoFault && during == [])))
            && (|l.live| > maxEvents && fault == NoFault ==> after == History(l) + before + [event])
            && (|l.live| > maxEvents && fault == AtRewrite ==>
                  var moved := MovedBy(l, maxEvents, before);
                  moved != [] && after == Flatten(l.exports) + moved + (l.live + before) + during + [event])
  {
    var plan, busy := PlanCompaction(l.live, maxEvents, now), Ledger(l.exports, l.live + before);
    var after := History(Retained(l, maxEvents, now, before, during, fault, event));
    assert History(busy) == History(l) + before;
    if plan.required {
      CompactionLeaves(busy, plan, during, fault, event);
      if fault == AtRewrite {
        assert |after| == |History(l) + before + during + [event]| + |MovedBy(l, maxEvents, before)|;
      } else if fault == NoFault {
        assert |after| == |History(l) + before + during + [event]| - |during|;
      }
    } else {
      assert after == Flatten(l.exports) + (l.live + before + during + [event]);
    }
  }

  function Writes(lines: seq<Line>): seq<Step> {
    seq(|lines|, i requires 0 <= i < |lines| => Write(lines[i]))
  }

  lemma {:induction false} WritesAppend(s: State, earlier: seq<Step>, lines: seq<Line>)
    requires ValidSteps(earlier)
    ensures ValidSteps(earlier + Writes(lines))
    ensures var before := Run(s, earlier);
            Run(s, earlier + Writes(lines)) ==
            before.(ledger := Ledger(before.ledger.exports, before.ledger.live + lines))
    decreases |lines|
  {
    if lines == [] {
      assert earlier + Writes(lines) == earlier;
    } else {
      var n := |lines| - 1;
      WritesAppend(s, earlier, lines[..n]);
      assert earlier + Writes(lines) == (earlier + Writes(lines[..n])) + [Write(lines[n])];
      RunNext(s, earlier + Writes(lines[..n]), Write(lines[n]));
      assert lines == lines[..n] + [lines[n]];
    }
  }

  /** What a run does after its read, by where it fails. */
  function Ending(run: nat, fault: Fault): seq<Step> {
    match fault
    case NoFault => [Save(run)] + [Rewrite(run)]
    case AtRewrite => [Save(run)] + [Stop(run)]
    case AtExport => [Stop(run)]
  }

  lemma EndingIsCompaction(s: State, early: seq<Step>, run: nat, l: Ledger, plan: CompactionPlan, during: seq<Line>,
                           fault: Fault)
    requires ValidSteps(early) && run in Run(s, early).runs && Run(s, early).runs[run] == Loaded(plan, l.live)
    requires Run(s, early).ledger == Ledger(l.exports, l.live + during)
    ensures ValidSteps(early + Ending(run, fault))
    ensures Run(s, early + Ending(run, fault)).ledger == CompactOver(l, plan, during, fault)
  {
    RunNext(s, early, if fault == AtExport then Stop(run) else Save(run));
    if fault != AtExport {
      var last := if fault == NoFault then Rewrite(run) else Stop(run);
      RunNext(s, early + [Save(run)], last);
      assert early + Ending(run, fault) == early + [Save(run)] + [last];
    }
  }

  /** A run that planned nothing changes nothing. */
  lemma EndingOfNothing(s: State, early: seq<Step>, run: nat, fault: Fault)
    requires ValidSteps(early) && run in Run(s, early).runs && Run(s, early).runs[run].Planned?
    ensures ValidSteps(early + Ending(run, fault))
    ensures Run(s, early + Ending(run, fault)).ledger == Run(s, early).ledger
  {
    RunNext(s, early, if fault == AtExport then Stop(run) else Save(run));
    if fault != AtExport {
      var last := if fault == NoFault then Rewrite(run) else Stop(run);
      RunNext(s, early + [Save(run)], last);
      assert early + Ending(run, fault) == early + [Save(run)] + [last];
    }
  }

  /** Such a run is the interleaving of its own operations with the appends of others. */
  lemma RetainedIsRun(s: State, run: nat, maxEvents: nat, now: int, before: seq<Line>, during: seq<Line>, fault: Fault,
                      event: Line)
    requires maxEvents >= 1 && run !in s.runs
    ensures var steps := [] + [Prepare(run, maxEvents, now)] + Writes(before) + [Load(run)] + Writes(during)
                         + Ending(run, fault) + [Write(event)];
            && ValidSteps(steps)
            && Run(s, steps).ledger == Retained(s.ledger, maxEvents, now, before, during, fault, event)
  {
    var plan := PlanCompaction(s.ledger.live, maxEvents, now);
    var busy := Ledger(s.ledger.exports, s.ledger.live + before);
    RunNext(s, [], Prepare(run, maxEvents, now));
    var early := [] + [Prepare(run, maxEvents, now)];
    WritesAppend(s, early, before);
    early := early + Writes(before);
    RunNext(s, early, Load(run));
    early := early + [Load(run)];
    WritesAppend(s, early, during);
    early := early + Writes(during);
    if plan.required {
      EndingIsCompaction(s, early, run, busy, plan, during, fault);
    } else {
      EndingOfNothing(s, early, run, fault);
    }
    RunNext(s, early + Ending(run, fault), Write(event));
  }

  /**
   A compaction with no append since its plan leaves exactly the event budget, its own event included; each
   line appended between plan and read comes on top, those between read and write-back are gone. Without
   compaction, or when it fails, everything appended is just added, so a full ledger ends above the budget.
   */
  lemma BudgetAfterRetention(l: Ledger, maxEvents: nat, now: int, before: seq<Line>, during: seq<Line>, fault: Fault,
                             event: Line)
    requires maxEvents >= 1
    ensures var after := Retained(l, maxEvents, now, before, during, fault, event).live;
            && |after| == (if |l.live| > maxEvents && fault == NoFault then maxEvents + |before|
                           else |l.live| + |before| + |during| + 1)
            && |after| > 0 && after[|after| - 1] == event
  {
  }

  // ----- old and surplus files

  datatype File = File(modified: int, path: nat)

  predicate Older(a: File, b: File) {
    a.modified < b.modified || (a.modified == b.modified && a.path < b.path)
  }

  datatype Reason = TooOld | TooMany

  function Newer(files: set<File>, f: File): set<File> {
    set g | g in files && Older(f, g)
  }

  predicate IsTooOld(f: File, cutoff: Option<int>) {
    cutoff.Some? && f.modified < cutoff.value
  }

  /** As many files as may be kept are newer. */
  predicate IsSurplus(files: set<File>, maxCount: nat, f: File) {
    |Newer(files, f)| >= maxCount
  }

  ghost predicate OldestFirst(s: seq<File>) {
    forall i, j :: 0 <= i < j < |s| ==> Older(s[i], s[j])
  }

  function InsertFile(f: File, sorted: seq<File>): seq<File> {
    if sorted == [] || Older(f, sorted[0]) then [f] + sorted else [sorted[0]] + InsertFile(f, sorted[1..])
  }

  function SortFiles(files: seq<File>): seq<File> {
    if files == [] then [] else InsertFile(files[|files| - 1], SortFiles(files[..|files| - 1]))
  }

  lemma {:induction false} InsertFileMembers(f: File, sorted: seq<File>, x: File)
    ensures x in InsertFile(f, sorted) <==> x == f || x in sorted
    ensures |InsertFile(f, sorted)| == |sorted| + 1
    decreases |sorted|
  {
    if sorted != [] && !Older(f, sorted[0]) {
      InsertFileMembers(f, sorted[1..], x);
      assert sorted == [sorted[0]] + sorted[1..];
    }
  }

  lemma OldestCons(f: File, s: seq<File>)
    requires OldestFirst(s) && (s != [] ==> Older(f, s[0]))
    ensures OldestFirst([f] + s)
  {
  }

  lemma {:induction false} InsertFileSorts(f: File, sorted: seq<File>)
    requires OldestFirst(sorted) && f !in sorted
    ensures OldestFirst(InsertFile(f, sorted))
    decreases |sorted|
  {
    if sorted == [] || Older(f, sorted[0]) {
      OldestCons(f, sorted);
    } else {
      InsertFileSorts(f, sorted[1..]);
      var rest := InsertFile(f, sorted[1..]);
      InsertFileMembers(f, sorted[1..], rest[0]);
      assert sorted[0] in sorted && (rest[0] == f || rest[0] in sorted[1..]);
      OldestCons(sorted[0], rest);
    }
  }

  lemma {:induction false} SortFilesOk(files: seq<File>)
    requires NoRepeats(files)
    ensures OldestFirst(SortFiles(files)) && |SortFiles(files)| == |files|
    ensures forall f :: f in SortFiles(files) <==> f in files
    decreases |files|
  {
    if files != [] {
      var front, last := files[..|files| - 1], files[|files| - 1];
      SortFilesOk(front);
      forall f
        ensures f in SortFiles(files) <==> f in files
      {
        InsertFileMembers(last, SortFiles(front), f);
        assert files == front + [last];
      }
      InsertFileMembers(last, SortFiles(front), last);
      assert last !in front;
      InsertFileSorts(last, SortFiles(front));
    }
  }

  /** In a sorted listing the files behind an index are the newer ones. */
  lemma NewerAtIndex(sorted: seq<File>, i: nat)
    requires OldestFirst(sorted) && i < |sorted|
    ensures |Newer(Elements(sorted), sorted[i])| == |sorted| - 1 - i
  {
    var tail := sorted[i + 1..];
    assert Newer(Elements(sorted), sorted[i]) == Elements(tail) by {
      forall g
        ensures g in Newer(Elements(sorted), sorted[i]) <==> g in tail
      {
        if g in Newer(Elements(sorted), sorted[i]) {
          var j :| 0 <= j < |sorted| && sorted[j] == g;
          assert j > i;
          assert tail[j - i - 1] == g;
        }
        if g in tail {
          var j :| 0 <= j < |tail| && tail[j] == g;
          assert sorted[j + i + 1] == g;
        }
      }
    }
    DistinctSize(tail);
  }

  lemma {:induction false} DistinctSize(s: seq<File>)
    requires OldestFirst(s)
    ensures |Elements(s)| == |s|
    decreases |s|
  {
    if s == [] {
      assert Elements(s) == {};
    } else {
      var front, last := s[..|s| - 1], s[|s| - 1];
      DistinctSize(front);
      assert last !in front;
      assert s == front + [last];
      assert Elements(s) == Elements(front) + {last};
    }
  }

  /** The reasons collected for a listing: exactly the files too old or surplus, with exactly their reasons. */
  ghost predicate ReasonsOk(files: set<File>, cutoff: Option<int>, maxCount: nat, reasons: map<File, set<Reason>>) {
    && (forall f :: f in reasons <==> f in files && (IsTooOld(f, cutoff) || IsSurplus(files, maxCount, f)))
    && (forall f :: f in reasons ==>
          && (TooOld in reasons[f] <==> IsTooOld(f, cutoff))
          && (TooMany in reasons[f] <==> IsSurplus(files, maxCount, f)))
  }

  method AgeReasons(sorted: seq<File>, cutoff: Option<int>) returns (reasons: map<File, set<Reason>>)
    ensures forall f :: f in reasons <==> f in sorted && IsTooOld(f, cutoff)
    ensures forall f :: f in reasons ==> reasons[f] == {TooOld}
  {
    reasons := map[];
    if cutoff.Some? {
      for i := 0 to |sorted|
        invariant forall f :: f in reasons <==> f in sorted[..i] && IsTooOld(f, cutoff)
        invariant forall f :: f in reasons ==> reasons[f] == {TooOld}
      {
        assert sorted[..i + 1] == sorted[..i] + [sorted[i]];
        if sorted[i].modified < cutoff.value {
          reasons := reasons[sorted[i] := {TooOld}];
        }
      }
      assert sorted[..|sorted|] == sorted;
    }
  }

  /** Adds the second reason to the oldest files of a listing. */
  method CountReasons(oldest: seq<File>, aged: map<File, set<Reason>>) returns (reasons: map<File, set<Reason>>)
    requires forall f :: f in aged ==> aged[f] == {TooOld}
    ensures forall f :: f in reasons <==> f in aged || f in oldest
    ensures forall f :: f in reasons ==>
              (TooOld in reasons[f] <==> f in aged) && (TooMany in reasons[f] <==> f in oldest)
  {
    reasons := aged;
    for i := 0 to |oldest|
      invariant forall f :: f in reasons <==> f in aged || f in oldest[..i]
      invariant forall f :: f in reasons ==>
                  (TooOld in reasons[f] <==> f in aged) && (TooMany in reasons[f] <==> f in oldest[..i])
    {
      var f := oldest[i];
      assert oldest[..i + 1] == oldest[..i] + [f];
      reasons := reasons[f := (if f in reasons then reasons[f] else {}) + {TooMany}];
    }
    assert oldest[..|oldest|] == oldest;
  }

  method RetentionCandidates(files: seq<File>, cutoff: Option<int>, maxCount: nat)
    returns (reasons: map<File, set<Reason>>)
    requires NoRepeats(files)
    ensures ReasonsOk(Elements(files), cutoff, maxCount, reasons)
  {
    var sorted := SortFiles(files);
    SortFilesOk(files);
    var aged := AgeReasons(sorted, cutoff);
    reasons := CountReasons(sorted[..Surplus(|sorted|, maxCount)], aged);
    SurplusIsPrefix(sorted, maxCount);
    assert Elements(sorted) == Elements(files);
  }

  lemma SurplusIsPrefix(sorted: seq<File>, maxCount: nat)
    requires OldestFirst(sorted)
    ensures forall f :: f in sorted ==>
              (IsSurplus(Elements(sorted), maxCount, f) <==> f in sorted[..Surplus(|sorted|, maxCount)])
  {
    forall f | f in sorted
      ensures IsSurplus(Elements(sorted), maxCount, f) <==> f in sorted[..Surplus(|sorted|, maxCount)]
    {
      var i :| 0 <= i < |sorted| && sorted[i] == f;
      NewerAtIndex(sorted, i);
      var prefix := sorted[..Surplus(|sorted|, maxCount)];
      if f in prefix {
        var k :| 0 <= k < |prefix| && prefix[k] == f;
        assert sorted[k] == sorted[i];
      }
    }
  }

  lemma PrefixHolds(sorted: seq<File>, n: nat, i: nat)
    requires n <= |sorted| && i < |sorted|
    ensures i < n ==> sorted[i] in sorted[..n]
  {
    if i < n {
      assert sorted[..n][i] == sorted[i];
    }
  }

  function Surplus(count: nat, maxCount: nat): nat {
    if count > maxCount then count - maxCount else 0
  }

  /** A file stays exactly when it is young enough and fewer than `maxCount` files are newer. */
  function KeptFiles(files: set<File>, cutoff: Option<int>, maxCount: nat): set<File> {
    set f | f in files && !IsTooOld(f, cutoff) && !IsSurplus(files, maxCount, f)
  }

  function Dropped(files: set<File>, cutoff: Option<int>, maxCount: nat): set<File> {
    files - KeptFiles(files, cutoff, maxCount)
  }

  /** At most `maxCount` files stay, none of them too old, and a young file goes only for `maxCount` newer ones. */
  lemma RetentionBounds(files: seq<File>, cutoff: Option<int>, maxCount: nat)
    requires NoRepeats(files)
    ensures |KeptFiles(Elements(files), cutoff, maxCount)| <= maxCount
  {
    var sorted := SortFiles(files);
    SortFilesOk(files);
    assert Elements(sorted) == Elements(files);
    SurplusIsPrefix(sorted, maxCount);
    var n := Surplus(|sorted|, maxCount);
    var tail := sorted[n..];
    forall f | f in KeptFiles(Elements(files), cutoff, maxCount)
      ensures f in Elements(tail)
    {
      var i :| 0 <= i < |sorted| && sorted[i] == f;
      PrefixHolds(sorted, n, i);
      assert i >= n;
      assert tail[i - n] == f;
    }
    DistinctSize(tail);
    SubsetSize(KeptFiles(Elements(files), cutoff, maxCount), Elements(tail));
  }

  lemma {:induction false} SubsetSize(a: set<File>, b: set<File>)
    requires a <= b
    ensures |a| <= |b|
    decreases |a|
  {
    if a != {} {
      var x :| x in a;
      SubsetSize(a - {x}, b - {x});
    }
  }

  // ----- applying a plan

  datatype Profile = Profile(maxEvents: nat, artifactCutoff: Option<int>, maxArtifacts: nat, receiptCutoff: Option<int>,
                             maxReceipts: nat)

  datatype Outcome = Blocked | Success | Failure

  /** Deletes the candidates of a listing; the files in `stuck` cannot be deleted. */
  method DeleteCandidates(files: seq<File>, reasons: map<File, set<Reason>>, stuck: set<File>)
    returns (left: seq<File>, errors: nat)
    requires NoRepeats(files)
    ensures NoRepeats(left) && forall f :: f in left <==> f in files && (f !in reasons || f in stuck)
    ensures errors == 0 <==> forall f :: f in files && f in reasons ==> f !in stuck
  {
    left, errors := [], 0;
    for i := 0 to |files|
      invariant NoRepeats(left) && forall f :: f in left <==> f in files[..i] && (f !in reasons || f in stuck)
      invariant errors == 0 <==> forall f :: f in files[..i] && f in reasons ==> f !in stuck
    {
      var f := files[i];
      assert f !in files[..i];
      assert files[..i + 1] == files[..i] + [f];
      if f in reasons && f !in stuck {
      } else {
        left := left + [f];
        if f in reasons {
          errors := errors + 1;
        }
      }
    }
    assert files[..|files|] == files;
  }

  /** The ledger with its exports, and the two directories that retention scans. */
  class Workspace {
    var exports: seq<Export>
    var live: seq<Line>
    var artifacts: seq<File>
    var receipts: seq<File>

    constructor ()
      ensures CurrentLedger() == Ledger([], []) && artifacts == [] && receipts == []
    {
      exports, live, artifacts, receipts := [], [], [], [];
    }

    function CurrentLedger(): Ledger
      reads this
    {
      Ledger(exports, live)
    }

    method AppendEvent(line: Line)
      modifies this`live
      ensures CurrentLedger() == Append(old(CurrentLedger()), line)
    {
      live := live + [line];
    }

    /** The compaction itself, with what others append between its read and its write-back. */
    method CompactLedger(plan: CompactionPlan, during: seq<Line>, fault: Fault) returns (done: bool)
      modifies this`live, this`exports
      ensures done <==> fault == NoFault
      ensures CurrentLedger() == CompactOver(old(CurrentLedger()), plan, during, fault)
    {
      var lines := live;
      var n := AtMost(plan.compacted, |lines|);
      live := live + during;
      if fault == AtExport {
        return false;
      }
      exports := WriteExport(exports, Export(plan.name, lines[..n]));
      if fault == AtRewrite {
        return false;
      }
      live := lines[n..];
      return true;
    }

    /**
     Applies a confirmed plan: the ledger step of this module, then the deletions, which a failed
     compaction prevents. Without confirmation nothing changes. What is left in a directory are the
     files to keep and those that could not be deleted; it is a success exactly when there are none
     of the latter and no required compaction failed.
     */
    method ApplyRetentionPlan(confirm: bool, profile: Profile, now: int, before: seq<Line>, during: seq<Line>,
                              fault: Fault, stuck: set<File>, event: Line)
      returns (outcome: Outcome)
      requires profile.maxEvents >= 1 && NoRepeats(artifacts) && NoRepeats(receipts)
      modifies this
      ensures outcome == Blocked <==> !confirm
      ensures !confirm ==>
                CurrentLedger() == old(CurrentLedger()) && artifacts == old(artifacts) && receipts == old(receipts)
      ensures confirm ==>
                CurrentLedger() ==
                Retained(old(CurrentLedger()), profile.maxEvents, now, before, during, fault, event)
      ensures var failed := |old(live)| > profile.maxEvents && fault != NoFault;
              var artifactsBefore, receiptsBefore := Elements(old(artifacts)), Elements(old(receipts));
              var oldArtifacts := Dropped(artifactsBefore, profile.artifactCutoff, profile.maxArtifacts);
              var oldReceipts := Dropped(receiptsBefore, profile.receiptCutoff, profile.maxReceipts);
              && (confirm && failed ==> artifacts == old(artifacts) && receipts == old(receipts))
              && (confirm && !failed ==>
                    && Elements(artifacts) ==
                    KeptFiles(artifactsBefore, profile.artifactCutoff, profile.maxArtifacts) + stuck * oldArtifacts
                    && Elements(receipts) ==
                    KeptFiles(receiptsBefore, profile.receiptCutoff, profile.maxReceipts) + stuck * oldReceipts)
              && (confirm ==> (outcome == Success <==> !failed && stuck !! oldArtifacts + oldReceipts))
    {
      var plan := PlanCompaction(live, profile.maxEvents, now);
      var oldArtifacts := RetentionCandidates(artifacts, profile.artifactCutoff, profile.maxArtifacts);
      var oldReceipts := RetentionCandidates(receipts, profile.receiptCutoff, profile.maxReceipts);
      if !confirm {
        return Blocked;
      }
      live := live + before;
      var errors := 0;
      if plan.required {
        var done := CompactLedger(plan, during, fault);
        if !done {
          errors := 1;
        }
      } else {
        live := live + during;
      }
      if errors == 0 {
        var artifactErrors, receiptErrors;
        artifacts, artifactErrors := DeleteCandidates(artifacts, oldArtifacts, stuck);
        receipts, receiptErrors := DeleteCandidates(receipts, oldReceipts, stuck);
        errors := artifactErrors + receiptErrors;
      }
      outcome := if errors == 0 then Success else Failure;
      AppendEvent(event);
    }
  }
}
