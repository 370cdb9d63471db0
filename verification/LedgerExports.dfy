/**
 The ledger of an evidence workspace and the exports that its oldest lines are moved into.

 A ledger is the sequence of its lines; every append writes one whole line.
 */
module LedgerExports {
  type Line = string

  /** An export is named after the time of its plan and the digest of the ledger it was planned for. */
  datatype Name = Name(generatedAt: int, source: seq<Line>)

  datatype Export = Export(name: Name, lines: seq<Line>)

  function Flatten(exports: seq<Export>): seq<Line> {
    if exports == [] then [] else Flatten(exports[..|exports| - 1]) + exports[|exports| - 1].lines
  }

  // ----- the ledger

  datatype CompactionPlan = CompactionPlan(required: bool, compacted: nat, name: Name)

  /** Above the budget everything but the newest budget - 1 lines goes, leaving room for the retention event. */
  function PlanCompaction(ledger: seq<Line>, maxEvents: nat, generatedAt: int): CompactionPlan
    requires maxEvents >= 1
  {
    var name := Name(generatedAt, ledger);
    if |ledger| <= maxEvents then CompactionPlan(false, 0, name)
    else CompactionPlan(true, |ledger| - (maxEvents - 1), name)
  }

  datatype Ledger = Ledger(exports: seq<Export>, live: seq<Line>)

  /** Every line still held: the exports in the order they were last written, then the live ledger. */
  function History(l: Ledger): seq<Line> {
    Flatten(l.exports) + l.live
  }

  function Without(exports: seq<Export>, name: Name): seq<Export> {
    if exports == [] then [] else
      var front, last := exports[..|exports| - 1], exports[|exports| - 1];
      if last.name == name then Without(front, name) else Without(front, name) + [last]
  }

  /** The lines that exports of this name hold. */
  function LinesUnder(exports: seq<Export>, name: Name): seq<Line> {
    if exports == [] then [] else
      var front, last := exports[..|exports| - 1], exports[|exports| - 1];
      LinesUnder(front, name) + if last.name == name then last.lines else []
  }

  /** Writing an export replaces a file of the same name. */
  function WriteExport(exports: seq<Export>, e: Export): seq<Export> {
    Without(exports, e.name) + [e]
  }

  function AtMost(n: nat, size: nat): nat {
    if n <= size then n else size
  }

  /** One compaction in one go: the planned number of lines, or all there are, move into an export. */
  function Compact(l: Ledger, count: nat, name: Name): Ledger {
    var n := AtMost(count, |l.live|);
    Ledger(WriteExport(l.exports, Export(name, l.live[..n])), l.live[n..])
  }

  function Append(l: Ledger, line: Line): Ledger {
    Ledger(l.exports, l.live + [line])
  }

  /** A compaction keeps every line in order, except those of an export that had its name. */
  lemma OverwriteLoses(l: Ledger, count: nat, name: Name)
    ensures History(Compact(l, count, name)) == Flatten(Without(l.exports, name)) + l.live
    ensures multiset(Flatten(l.exports)) ==
            multiset(Flatten(Without(l.exports, name))) + multiset(LinesUnder(l.exports, name))
    ensures LinesUnder(l.exports, name) == [] <==> History(Compact(l, count, name)) == History(l)
  {
    var n := AtMost(count, |l.live|);
    var kept := Without(l.exports, name);
    assert (kept + [Export(name, l.live[..n])])[..|kept|] == kept;
    assert Flatten(kept) + l.live[..n] + l.live[n..] == Flatten(kept) + (l.live[..n] + l.live[n..]);
    assert l.live[..n] + l.live[n..] == l.live;
    WithoutSplits(l.exports, name);
    if LinesUnder(l.exports, name) != [] {
      assert |multiset(Flatten(kept))| == |Flatten(kept)| < |Flatten(l.exports)|;
    }
  }

  lemma {:induction false} WithoutSplits(exports: seq<Export>, name: Name)
    ensures multiset(Flatten(exports)) ==
            multiset(Flatten(Without(exports, name))) + multiset(LinesUnder(exports, name))
    ensures |Flatten(exports)| == |Flatten(Without(exports, name))| + |LinesUnder(exports, name)|
    ensures LinesUnder(exports, name) == [] ==> Flatten(Without(exports, name)) == Flatten(exports)
    decreases |exports|
  {
    if exports != [] {
      var front, last := exports[..|exports| - 1], exports[|exports| - 1];
      WithoutSplits(front, name);
      AddLines(Flatten(front), Flatten(Without(front, name)), LinesUnder(front, name), last.lines);
      LastSplits(exports, name);
    }
  }

  lemma LastSplits(exports: seq<Export>, name: Name)
    requires exports != []
    ensures var front, last := exports[..|exports| - 1], exports[|exports| - 1];
            if last.name == name then
              Flatten(Without(exports, name)) == Flatten(Without(front, name))
              && LinesUnder(exports, name) == LinesUnder(front, name) + last.lines
            else
              Flatten(Without(exports, name)) == Flatten(Without(front, name)) + last.lines
              && LinesUnder(exports, name) == LinesUnder(front, name)
  {
    var front, last := exports[..|exports| - 1], exports[|exports| - 1];
    var kept := Without(front, name);
    assert (kept + [last])[..|kept|] == kept;
  }

  lemma AddLines(all: seq<Line>, kept: seq<Line>, lost: seq<Line>, more: seq<Line>)
    requires multiset(all) == multiset(kept) + multiset(lost)
    ensures multiset(all + more) == multiset(kept + more) + multiset(lost)
    ensures multiset(all + more) == multiset(kept) + multiset(lost + more)
  {
  }

  lemma {:induction false} NothingUnder(exports: seq<Export>, name: Name)
    requires forall e :: e in exports ==> e.name != name
    ensures LinesUnder(exports, name) == []
    decreases |exports|
  {
    if exports != [] {
      NothingUnder(exports[..|exports| - 1], name);
    }
  }

  lemma {:induction false} WithoutNothing(exports: seq<Export>, name: Name)
    requires forall e :: e in exports ==> e.name != name
    ensures Without(exports, name) == exports
    decreases |exports|
  {
    if exports != [] {
      WithoutNothing(exports[..|exports| - 1], name);
      assert exports == exports[..|exports| - 1] + [exports[|exports| - 1]];
    }
  }

  lemma FlattenNext(exports: seq<Export>, e: Export)
    ensures Flatten(exports + [e]) == Flatten(exports) + e.lines
  {
    assert (exports + [e])[..|exports|] == exports;
  }
}
