/**
 Any number of retention runs interleaved with each other and with appends, at every file operation.

 A run plans, later reads the ledger again, then writes the export, then writes the ledger back without
 the exported lines; it holds no lock, and it may stop in between. Whatever reaches the ledger between
 the second read and the last write is overwritten.
 */
module LedgerRuns {
  import opened Common
  import opened LedgerExports

  /** How far a run has come; `lines` is the ledger it read. */
  datatype Phase = Planned(plan: CompactionPlan) | Loaded(plan: CompactionPlan, lines: seq<Line>)
                 | Exported(plan: CompactionPlan, lines: seq<Line>)

  datatype State = State(ledger: Ledger, runs: map<nat, Phase>)

  /** An append, the event of a retention run included, or one operation of a run. */
  datatype Step = Write(line: Line) | Prepare(run: nat, maxEvents: nat, now: int) | Load(run: nat) | Save(run: nat)
                | Rewrite(run: nat) | Stop(run: nat)

  predicate ValidStep(step: Step) {
    step.Prepare? ==> step.maxEvents >= 1
  }

  function Count(p: Phase): (n: nat)
    requires !p.Planned?
    ensures n <= |p.lines|
  {
    AtMost(p.plan.compacted, |p.lines|)
  }

  /** The lines that a run moves into its export. */
  function Moved(p: Phase): seq<Line>
    requires !p.Planned?
  {
    p.lines[..Count(p)]
  }

  /** The lines that it leaves in the ledger. */
  function Kept(p: Phase): seq<Line>
    requires !p.Planned?
  {
    p.lines[Count(p)..]
  }

  predicate Saves(s: State, step: Step) {
    step.Save? && step.run in s.runs && s.runs[step.run].Loaded?
  }

  predicate Rewrites(s: State, step: Step) {
    step.Rewrite? && step.run in s.runs && s.runs[step.run].Exported?
  }

  /** The run stops when its export is written and the ledger is not. */
  predicate Strands(s: State, step: Step) {
    step.Stop? && step.run in s.runs && s.runs[step.run].Exported?
  }

  function SaveExport(l: Ledger, p: Phase): Ledger
    requires !p.Planned?
  {
    Ledger(WriteExport(l.exports, Export(p.plan.name, Moved(p))), l.live)
  }

  function Take(s: State, step: Step): State
    requires ValidStep(step)
  {
    match step
    case Write(line) => s.(ledger := Append(s.ledger, line))
    case Prepare(run, maxEvents, now) =>
      if run in s.runs then s else s.(runs := s.runs[run := Planned(PlanCompaction(s.ledger.live, maxEvents, now))])
    case Load(run) =>
      if run in s.runs && s.runs[run].Planned? && s.runs[run].plan.required
      then s.(runs := s.runs[run := Loaded(s.runs[run].plan, s.ledger.live)]) else s
    case Save(run) =>
      if !Saves(s, step) then s
      else State(SaveExport(s.ledger, s.runs[run]), s.runs[run := Exported(s.runs[run].plan, s.runs[run].lines)])
    case Rewrite(run) =>
      if !Rewrites(s, step) then s else State(Ledger(s.ledger.exports, Kept(s.runs[run])), s.runs - {run})
    case Stop(run) => s.(runs := s.runs - {run})
  }

  ghost predicate ValidSteps(steps: seq<Step>) {
    forall i :: 0 <= i < |steps| ==> ValidStep(steps[i])
  }

  ghost function Run(s: State, steps: seq<Step>): State
    requires ValidSteps(steps)
  {
    if steps == [] then s else Take(Run(s, steps[..|steps| - 1]), steps[|steps| - 1])
  }

  lemma RunNext(s: State, steps: seq<Step>, step: Step)
    requires ValidSteps(steps) && ValidStep(step)
    ensures ValidSteps(steps + [step]) && Run(s, steps + [step]) == Take(Run(s, steps), step)
  {
    assert (steps + [step])[..|steps|] == steps;
  }

  // ----- what the steps add and take away

  /** What `part` yields over a run, step by step. */
  ghost function Total(part: (State, Step) -> seq<Line>, s: State, steps: seq<Step>): seq<Line>
    requires ValidSteps(steps)
  {
    if steps == [] then [] else
      Total(part, s, steps[..|steps| - 1]) + part(Run(s, steps[..|steps| - 1]), steps[|steps| - 1])
  }

  function Appended(s: State, step: Step): seq<Line> {
    if step.Write? then [step.line] else []
  }

  /** The lines of an export that another one writes over. */
  function Replaced(s: State, step: Step): seq<Line> {
    if Saves(s, step) then LinesUnder(s.ledger.exports, s.runs[step.run].plan.name) else []
  }

  /** The ledger that a run writes over. */
  function Found(s: State, step: Step): seq<Line> {
    if Rewrites(s, step) then s.ledger.live else []
  }

  /** The ledger that this run had read. */
  function HadRead(s: State, step: Step): seq<Line> {
    if Rewrites(s, step) then s.runs[step.run].lines else []
  }

  /** What a run that stops after its export leaves both exported and in the ledger. */
  function Stranded(s: State, step: Step): seq<Line> {
    if Strands(s, step) then Moved(s.runs[step.run]) else []
  }

  function Written(steps: seq<Step>): seq<Line> {
    if steps == [] then [] else
      Written(steps[..|steps| - 1]) + if steps[|steps| - 1].Write? then [steps[|steps| - 1].line] else []
  }

  /** What run `r` has exported and not yet taken out of the ledger. */
  function DoubledBy(runs: map<nat, Phase>, r: nat): multiset<Line> {
    if r in runs && runs[r].Exported? then multiset(Moved(runs[r])) else multiset{}
  }

  function Sum(part: nat -> multiset<Line>, n: nat): multiset<Line> {
    if n == 0 then multiset{} else Sum(part, n - 1) + part(n - 1)
  }

  /** And what the runs below `n` have. */
  function Doubled(runs: map<nat, Phase>, n: nat): multiset<Line> {
    Sum((r: nat) => DoubledBy(runs, r), n)
  }

  lemma {:induction false} SumSame(f: nat -> multiset<Line>, g: nat -> multiset<Line>, n: nat)
    requires forall r: nat :: r < n ==> f(r) == g(r)
    ensures Sum(f, n) == Sum(g, n)
    decreases n
  {
    if n > 0 {
      SumSame(f, g, n - 1);
    }
  }

  /** Exchanging one summand for another. */
  lemma Exchange(a: multiset<Line>, b: multiset<Line>, x: multiset<Line>, y: multiset<Line>, z: multiset<Line>)
    requires a + x == b + y
    ensures (a + z) + x == (b + z) + y
  {
    assert (a + z) + x == (a + x) + z;
    assert (b + z) + y == (b + y) + z;
  }

  lemma Swap(d: multiset<Line>, x: multiset<Line>, y: multiset<Line>)
    ensures (d + y) + x == (d + x) + y
  {
  }

  lemma {:induction false} SumChange(f: nat -> multiset<Line>, g: nat -> multiset<Line>, n: nat, at: nat)
    requires at < n && forall r: nat :: r != at ==> f(r) == g(r)
    ensures Sum(g, n) + f(at) == Sum(f, n) + g(at)
    decreases n
  {
    if at == n - 1 {
      SumSame(f, g, n - 1);
      Swap(Sum(f, n - 1), f(at), g(at));
    } else {
      SumChange(f, g, n - 1, at);
      Exchange(Sum(g, n - 1), Sum(f, n - 1), f(at), g(at), f(n - 1));
    }
  }

  lemma DoubledChange(before: map<nat, Phase>, after: map<nat, Phase>, n: nat, run: nat)
    requires run < n && forall r: nat :: r != run ==> DoubledBy(before, r) == DoubledBy(after, r)
    ensures Doubled(after, n) + DoubledBy(before, run) == Doubled(before, n) + DoubledBy(after, run)
  {
    SumChange((r: nat) => DoubledBy(before, r), (r: nat) => DoubledBy(after, r), n, run);
  }

  predicate Below(step: Step, n: nat) {
    step.Write? || step.run < n
  }

  /** The balance of one step. */
  ghost predicate Balanced(s: State, step: Step, n: nat)
    requires ValidStep(step)
  {
    var t := Take(s, step);
    multiset(History(t.ledger)) + multiset(Replaced(s, step)) + multiset(Found(s, step)) + Doubled(s.runs, n)
    == multiset(History(s.ledger)) + multiset(Appended(s, step)) + Doubled(t.runs, n)
       + multiset(Stranded(s, step)) + multiset(HadRead(s, step))
  }

  lemma SaveEffect(s: State, step: Step)
    requires Saves(s, step)
    ensures var p, t := s.runs[step.run], Take(s, step);
            && History(t.ledger) == Flatten(Without(s.ledger.exports, p.plan.name)) + Moved(p) + s.ledger.live
            && DoubledBy(s.runs, step.run) == multiset{} && DoubledBy(t.runs, step.run) == multiset(Moved(p))
            && Appended(s, step) == [] && Found(s, step) == [] && HadRead(s, step) == [] && Stranded(s, step) == []
    ensures forall r: nat :: r != step.run ==> DoubledBy(s.runs, r) == DoubledBy(Take(s, step).runs, r)
  {
    var p := s.runs[step.run];
    FlattenNext(Without(s.ledger.exports, p.plan.name), Export(p.plan.name, Moved(p)));
  }

  lemma SaveBalances(s: State, step: Step, n: nat)
    requires Saves(s, step) && step.run < n
    ensures Balanced(s, step, n)
  {
    var p, t := s.runs[step.run], Take(s, step);
    var name := p.plan.name;
    SaveEffect(s, step);
    WithoutSplits(s.ledger.exports, name);
    DoubledChange(s.runs, t.runs, n, step.run);
    SaveArithmetic(Flatten(s.ledger.exports), Flatten(Without(s.ledger.exports, name)),
                   LinesUnder(s.ledger.exports, name), Moved(p),
                   s.ledger.live, Doubled(s.runs, n), Doubled(t.runs, n));
  }

  lemma SaveArithmetic(before: seq<Line>, kept: seq<Line>, replaced: seq<Line>, moved: seq<Line>, live: seq<Line>,
                       doubled: multiset<Line>, doubledNow: multiset<Line>)
    requires multiset(before) == multiset(kept) + multiset(replaced) && doubledNow == doubled + multiset(moved)
    ensures multiset(kept + moved + live) + multiset(replaced) + doubled == multiset(before + live) + doubledNow
  {
    assert multiset(kept + moved + live) == multiset(kept) + multiset(moved) + multiset(live);
    assert multiset(before + live) == multiset(before) + multiset(live);
  }

  lemma RewriteBalances(s: State, step: Step, n: nat)
    requires Rewrites(s, step) && step.run < n
    ensures Balanced(s, step, n)
  {
    var p, t := s.runs[step.run], Take(s, step);
    DoubledChange(s.runs, t.runs, n, step.run);
    assert p.lines == Moved(p) + Kept(p);
    RewriteArithmetic(Flatten(s.ledger.exports), s.ledger.live, p.lines, Moved(p), Kept(p), Doubled(s.runs, n),
                      Doubled(t.runs, n));
  }

  lemma RewriteArithmetic(exported: seq<Line>, live: seq<Line>, lines: seq<Line>, moved: seq<Line>, kept: seq<Line>,
                          doubled: multiset<Line>, doubledNow: multiset<Line>)
    requires lines == moved + kept && doubled == doubledNow + multiset(moved)
    ensures multiset(exported + kept) + multiset(live) + doubled ==
            multiset(exported + live) + doubledNow + multiset(lines)
  {
    assert multiset(exported + kept) == multiset(exported) + multiset(kept);
    assert multiset(exported + live) == multiset(exported) + multiset(live);
    assert multiset(lines) == multiset(moved) + multiset(kept);
  }

  lemma WriteBalances(s: State, step: Step, n: nat)
    requires step.Write?
    ensures Balanced(s, step, n)
  {
    assert History(Append(s.ledger, step.line)) == History(s.ledger) + [step.line];
    assert multiset(History(s.ledger) + [step.line]) == multiset(History(s.ledger)) + multiset([step.line]);
  }

  lemma OtherStays(s: State, step: Step)
    requires ValidStep(step) && !step.Write? && !Saves(s, step) && !Rewrites(s, step)
    ensures Take(s, step).ledger == s.ledger
    ensures Appended(s, step) == [] && Replaced(s, step) == [] && Found(s, step) == [] && HadRead(s, step) == []
    ensures DoubledBy(s.runs, step.run) == DoubledBy(Take(s, step).runs, step.run) + multiset(Stranded(s, step))
    ensures forall r: nat :: r != step.run ==> DoubledBy(s.runs, r) == DoubledBy(Take(s, step).runs, r)
  {
  }

  /** A plan, a read or a stop leaves the files alone. */
  lemma OtherBalances(s: State, step: Step, n: nat)
    requires ValidStep(step) && !step.Write? && step.run < n && !Saves(s, step) && !Rewrites(s, step)
    ensures Balanced(s, step, n)
  {
    var t := Take(s, step);
    OtherStays(s, step);
    DoubledChange(s.runs, t.runs, n, step.run);
    OtherArithmetic(multiset(History(s.ledger)), multiset([]), Doubled(s.runs, n), Doubled(t.runs, n),
                    DoubledBy(t.runs, step.run), multiset(Stranded(s, step)));
  }

  lemma OtherArithmetic(h: multiset<Line>, none: multiset<Line>, doubled: multiset<Line>, doubledNow: multiset<Line>,
                        own: multiset<Line>, stranded: multiset<Line>)
    requires doubledNow + (own + stranded) == doubled + own && none == multiset{}
    ensures h + none + none + doubled == h + none + doubledNow + stranded + none
  {
    forall x
      ensures (h + none + none + doubled)[x] == (h + none + doubledNow + stranded + none)[x]
    {
      assert (doubledNow + (own + stranded))[x] == (doubled + own)[x];
    }
  }

  lemma StepBalances(s: State, step: Step, n: nat)
    requires ValidStep(step) && Below(step, n)
    ensures Balanced(s, step, n)
  {
    if Saves(s, step) {
      SaveBalances(s, step, n);
    } else if Rewrites(s, step) {
      RewriteBalances(s, step, n);
    } else if step.Write? {
      WriteBalances(s, step, n);
    } else {
      OtherBalances(s, step, n);
    }
  }

  lemma SumUp(h: multiset<Line>, out: multiset<Line>, d: multiset<Line>, h0: multiset<Line>, back: multiset<Line>,
              hNow: multiset<Line>, outNow: multiset<Line>, dNow: multiset<Line>, backNow: multiset<Line>)
    requires h + out == h0 + d + back && hNow + outNow + d == h + dNow + backNow
    ensures hNow + (out + outNow) == h0 + dNow + (back + backNow)
  {
    forall x
      ensures (hNow + (out + outNow))[x] == (h0 + dNow + (back + backNow))[x]
    {
      assert (h + out)[x] == (h0 + d + back)[x] && (hNow + outNow + d)[x] == (h + dNow + backNow)[x];
    }
  }

  /** What was taken out of the files over a run, and what came back into them. */
  ghost function Out(s: State, steps: seq<Step>): multiset<Line>
    requires ValidSteps(steps)
  {
    multiset(Total(Replaced, s, steps)) + multiset(Total(Found, s, steps))
  }

  ghost function Back(s: State, steps: seq<Step>): multiset<Line>
    requires ValidSteps(steps)
  {
    multiset(Written(steps)) + multiset(Total(Stranded, s, steps)) + multiset(Total(HadRead, s, steps))
  }

  lemma NextTotals(s: State, steps: seq<Step>)
    requires ValidSteps(steps) && steps != []
    ensures var front, last := steps[..|steps| - 1], steps[|steps| - 1];
            var before := Run(s, front);
            && Out(s, steps) == Out(s, front) + (multiset(Replaced(before, last)) + multiset(Found(before, last)))
            && Back(s, steps) == Back(s, front) +
                                 (multiset(Appended(before, last)) + multiset(Stranded(before, last))
                                  + multiset(HadRead(before, last)))
  {
    var front, last := steps[..|steps| - 1], steps[|steps| - 1];
    var before := Run(s, front);
    TotalNext(Replaced, s, steps);
    TotalNext(Found, s, steps);
    TotalNext(Stranded, s, steps);
    TotalNext(HadRead, s, steps);
    assert multiset(Written(steps)) == multiset(Written(front)) + multiset(Appended(before, last));
  }

  lemma TotalNext(part: (State, Step) -> seq<Line>, s: State, steps: seq<Step>)
    requires ValidSteps(steps) && steps != []
    ensures var front, last := steps[..|steps| - 1], steps[|steps| - 1];
            multiset(Total(part, s, steps)) == multiset(Total(part, s, front)) + multiset(part(Run(s, front), last))
  {
  }

  /**
   The books of any interleaving, stops and overlaps included: what is held, what exports were written over
   and what ledgers were written over are together what was appended, what is held twice because a run has
   only exported it yet or stopped there, and what the rewriting runs had read.
   */
  lemma {:induction false} Conservation(s: State, steps: seq<Step>, n: nat)
    requires ValidSteps(steps) && s.runs == map[] && forall i :: 0 <= i < |steps| ==> Below(steps[i], n)
    ensures multiset(History(Run(s, steps).ledger)) + Out(s, steps)
            == multiset(History(s.ledger)) + Doubled(Run(s, steps).runs, n) + Back(s, steps)
    decreases |steps|
  {
    if steps == [] {
      NoneDoubled(n);
    } else {
      var front, last := steps[..|steps| - 1], steps[|steps| - 1];
      Conservation(s, front, n);
      var before, t := Run(s, front), Run(s, steps);
      StepBalances(before, last, n);
      NextTotals(s, steps);
      var outNow := multiset(Replaced(before, last)) + multiset(Found(before, last));
      var backNow :=
        multiset(Appended(before, last)) + multiset(Stranded(before, last)) + multiset(HadRead(before, last));
      BalanceRegrouped(before, last, n, outNow, backNow);
      SumUp(multiset(History(before.ledger)), Out(s, front), Doubled(before.runs, n), multiset(History(s.ledger)),
            Back(s, front),
            multiset(History(t.ledger)), outNow, Doubled(t.runs, n), backNow);
    }
  }

  lemma BalanceRegrouped(s: State, step: Step, n: nat, out: multiset<Line>, back: multiset<Line>)
    requires ValidStep(step) && Balanced(s, step, n)
    requires out == multiset(Replaced(s, step)) + multiset(Found(s, step))
    requires back == multiset(Appended(s, step)) + multiset(Stranded(s, step)) + multiset(HadRead(s, step))
    ensures var t := Take(s, step);
            multiset(History(t.ledger)) + out + Doubled(s.runs, n) ==
            multiset(History(s.ledger)) + Doubled(t.runs, n) + back
  {
    var t := Take(s, step);
    Regroup(multiset(History(t.ledger)), multiset(Replaced(s, step)), multiset(Found(s, step)), Doubled(s.runs, n),
            multiset(History(s.ledger)), multiset(Appended(s, step)), Doubled(t.runs, n), multiset(Stranded(s, step)),
            multiset(HadRead(s, step)));
  }

  lemma Regroup(h: multiset<Line>, replaced: multiset<Line>, found: multiset<Line>, d: multiset<Line>,
                h0: multiset<Line>, appended: multiset<Line>, dNow: multiset<Line>, stranded: multiset<Line>,
                read: multiset<Line>)
    requires h + replaced + found + d == h0 + appended + dNow + stranded + read
    ensures h + (replaced + found) + d == h0 + dNow + (appended + stranded + read)
  {
    assert h + (replaced + found) + d == h + replaced + found + d;
    assert h0 + dNow + (appended + stranded + read) == h0 + appended + dNow + stranded + read;
  }

  lemma {:induction false} NoneDoubled(n: nat)
    ensures Doubled(map[], n) == multiset{}
    decreases n
  {
    if n > 0 {
      NoneDoubled(n - 1);
    }
  }

  // ----- names

  /** The name a step plans an export under. */
  function NewNames(s: State, step: Step): seq<Name>
    requires ValidStep(step)
  {
    if && step.Prepare? && step.run !in s.runs
       && PlanCompaction(s.ledger.live, step.maxEvents, step.now).required
    then [Name(step.now, s.ledger.live)] else []
  }

  ghost function PlannedNames(s: State, steps: seq<Step>): seq<Name>
    requires ValidSteps(steps)
  {
    if steps == [] then [] else
      PlannedNames(s, steps[..|steps| - 1]) + NewNames(Run(s, steps[..|steps| - 1]), steps[|steps| - 1])
  }

  /** No two required plans share their time and the ledger they were made for. */
  ghost predicate FreshNames(s: State, steps: seq<Step>)
    requires ValidSteps(steps)
  {
    NoRepeats(PlannedNames(s, steps)) && forall e :: e in s.ledger.exports ==> e.name !in PlannedNames(s, steps)
  }

  /** The run will still write an export. */
  predicate Waits(runs: map<nat, Phase>, r: nat) {
    r in runs && !runs[r].Exported? && runs[r].plan.required
  }

  /** Exports and waiting runs use different names, all of them among `used`. */
  ghost predicate Separate(s: State, used: set<Name>) {
    && (forall e :: e in s.ledger.exports ==> e.name in used)
    && (forall r :: Waits(s.runs, r) ==> s.runs[r].plan.name in used)
    && (forall r :: r in s.runs && s.runs[r].Loaded? ==> s.runs[r].plan.required)
    && (forall r, e :: Waits(s.runs, r) && e in s.ledger.exports ==> s.runs[r].plan.name != e.name)
    && (forall r, t :: Waits(s.runs, r) && Waits(s.runs, t) && r != t ==> s.runs[r].plan.name != s.runs[t].plan.name)
  }

  /** The export that the step writes has a name of its own. */
  ghost predicate NameIsFree(s: State, step: Step) {
    Saves(s, step) ==> forall e :: e in s.ledger.exports ==> e.name != s.runs[step.run].plan.name
  }

  lemma FreeReplacesNothing(s: State, step: Step)
    requires NameIsFree(s, step)
    ensures Replaced(s, step) == []
    ensures Saves(s, step) ==>
              var p := s.runs[step.run];
              WriteExport(s.ledger.exports, Export(p.plan.name, Moved(p))) ==
              s.ledger.exports + [Export(p.plan.name, Moved(p))]
  {
    if Saves(s, step) {
      NothingUnder(s.ledger.exports, s.runs[step.run].plan.name);
      WithoutNothing(s.ledger.exports, s.runs[step.run].plan.name);
    }
  }

  lemma StepSeparates(s: State, step: Step, used: set<Name>)
    requires ValidStep(step) && Separate(s, used)
    requires forall name :: name in NewNames(s, step) ==> name !in used
    ensures Separate(Take(s, step), used + Elements(NewNames(s, step))) && NameIsFree(s, step)
  {
    if Saves(s, step) {
      FreeReplacesNothing(s, step);
    } else if step.Prepare? && NewNames(s, step) != [] {
      assert Name(step.now, s.ledger.live) in NewNames(s, step);
    }
  }

  /** A property of every step of a run. */
  ghost predicate AllSteps(holds: (State, Step) -> bool, s: State, steps: seq<Step>)
    requires ValidSteps(steps)
  {
    steps == [] || (AllSteps(holds, s, steps[..|steps| - 1]) && holds(Run(s, steps[..|steps| - 1]), steps[|steps| - 1]))
  }

  ghost function NamesUsed(s: State, steps: seq<Step>): set<Name>
    requires ValidSteps(steps)
  {
    (set e | e in s.ledger.exports :: e.name) + Elements(PlannedNames(s, steps))
  }

  lemma FreshPrefix(s: State, steps: seq<Step>)
    requires ValidSteps(steps) && steps != [] && FreshNames(s, steps)
    ensures var front, last := steps[..|steps| - 1], steps[|steps| - 1];
            FreshNames(s, front)
            && forall name :: name in NewNames(Run(s, front), last) ==> name !in NamesUsed(s, front)
  {
    var front, last := steps[..|steps| - 1], steps[|steps| - 1];
    var early, all := PlannedNames(s, front), PlannedNames(s, steps);
    assert forall i :: 0 <= i < |early| ==> all[i] == early[i];
    forall name | name in NewNames(Run(s, front), last)
      ensures name !in NamesUsed(s, front)
    {
      assert all[|early|] == name && name in all;
    }
  }

  lemma {:induction false} FreshIsFree(s: State, steps: seq<Step>)
    requires ValidSteps(steps) && s.runs == map[] && FreshNames(s, steps)
    ensures Separate(Run(s, steps), NamesUsed(s, steps)) && AllSteps((s, step) => NameIsFree(s, step), s, steps)
    ensures Total(Replaced, s, steps) == []
    decreases |steps|
  {
    if steps != [] {
      var front, last := steps[..|steps| - 1], steps[|steps| - 1];
      var now := NewNames(Run(s, front), last);
      FreshPrefix(s, steps);
      FreshIsFree(s, front);
      StepSeparates(Run(s, front), last, NamesUsed(s, front));
      FreeReplacesNothing(Run(s, front), last);
      assert NamesUsed(s, front) + Elements(now) == NamesUsed(s, steps);
    }
  }

  // ----- what is lost, and what is held twice

  /** Every line ever appended. */
  function Everything(s: State, steps: seq<Step>): seq<Line> {
    History(s.ledger) + Written(steps)
  }

  lemma Excess(h: multiset<Line>, found: multiset<Line>, all: multiset<Line>, more: multiset<Line>)
    requires h + found == all + more
    ensures all <= h <==> found <= more
    ensures found == more ==> h == all
  {
    forall x
      ensures all[x] <= h[x] <==> found[x] <= more[x]
      ensures found == more ==> h[x] == all[x]
    {
      assert (h + found)[x] == (all + more)[x];
    }
  }

  /** The books without overwritten exports. */
  lemma FreshBooks(s: State, steps: seq<Step>, n: nat)
    requires ValidSteps(steps) && s.runs == map[] && FreshNames(s, steps)
             && forall i :: 0 <= i < |steps| ==> Below(steps[i], n)
    ensures var t := Run(s, steps);
            multiset(History(t.ledger)) + multiset(Total(Found, s, steps))
            == multiset(Everything(s, steps))
               + (Doubled(t.runs, n) + multiset(Total(Stranded, s, steps)) + multiset(Total(HadRead, s, steps)))
  {
    Conservation(s, steps, n);
    FreshIsFree(s, steps);
    FreshArithmetic(multiset(History(Run(s, steps).ledger)), multiset(Total(Found, s, steps)),
                    multiset(History(s.ledger)),
                    multiset(Written(steps)), Doubled(Run(s, steps).runs, n), multiset(Total(Stranded, s, steps)),
                    multiset(Total(HadRead, s, steps)));
  }

  lemma FreshArithmetic(h: multiset<Line>, found: multiset<Line>, h0: multiset<Line>, written: multiset<Line>,
                        doubled: multiset<Line>,
                        stranded: multiset<Line>, read: multiset<Line>)
    requires h + (multiset([]) + found) == h0 + doubled + (written + stranded + read)
    ensures h + found == (h0 + written) + (doubled + stranded + read)
  {
    assert multiset([]) + found == found;
    assert h0 + doubled + (written + stranded + read) == (h0 + written) + (doubled + stranded + read);
  }

  /**
   With names of their own, in any interleaving: nothing is lost exactly when what the runs found when they
   wrote the ledger back is what they had read, or still held twice.
   */
  lemma LossIsExact(s: State, steps: seq<Step>, n: nat)
    requires ValidSteps(steps) && s.runs == map[] && FreshNames(s, steps)
             && forall i :: 0 <= i < |steps| ==> Below(steps[i], n)
    ensures var t := Run(s, steps);
            multiset(Everything(s, steps)) <= multiset(History(t.ledger)) <==>
            multiset(Total(Found, s, steps)) <=
            Doubled(t.runs, n) + multiset(Total(Stranded, s, steps)) + multiset(Total(HadRead, s, steps))
  {
    FreshBooks(s, steps, n);
    Excess(multiset(History(Run(s, steps).ledger)), multiset(Total(Found, s, steps)), multiset(Everything(s, steps)),
           Doubled(Run(s, steps).runs, n) + multiset(Total(Stranded, s, steps)) + multiset(Total(HadRead, s, steps)));
  }

  /** A run writes the ledger back only over what it had read. */
  ghost predicate FindsItsLedger(s: State, step: Step) {
    Rewrites(s, step) ==> s.ledger.live == s.runs[step.run].lines
  }

  ghost predicate Undisturbed(s: State, steps: seq<Step>)
    requires ValidSteps(steps)
  {
    AllSteps((s, step) => FindsItsLedger(s, step), s, steps)
  }

  lemma {:induction false} UndisturbedFinds(s: State, steps: seq<Step>)
    requires ValidSteps(steps) && Undisturbed(s, steps)
    ensures Total(Found, s, steps) == Total(HadRead, s, steps)
    decreases |steps|
  {
    if steps != [] {
      UndisturbedFinds(s, steps[..|steps| - 1]);
    }
  }

  /**
   When nothing reaches the ledger between a run's reading it and writing it back, nothing is lost, and
   what is held twice are exactly the exported lines of runs that stopped, or still stand, between their
   two writes.
   */
  lemma NothingIsLost(s: State, steps: seq<Step>, n: nat)
    requires ValidSteps(steps) && s.runs == map[] && FreshNames(s, steps)
             && forall i :: 0 <= i < |steps| ==> Below(steps[i], n)
    requires Undisturbed(s, steps)
    ensures multiset(History(Run(s, steps).ledger)) ==
            multiset(Everything(s, steps)) + (Doubled(Run(s, steps).runs, n) + multiset(Total(Stranded, s, steps)))
  {
    FreshBooks(s, steps, n);
    UndisturbedFinds(s, steps);
    Cancel(multiset(History(Run(s, steps).ledger)), multiset(Total(Found, s, steps)), multiset(Everything(s, steps)),
           Doubled(Run(s, steps).runs, n) + multiset(Total(Stranded, s, steps)));
  }

  lemma Cancel(h: multiset<Line>, found: multiset<Line>, all: multiset<Line>, twice: multiset<Line>)
    requires h + found == all + (twice + found)
    ensures h == all + twice
  {
    forall x
      ensures h[x] == (all + twice)[x]
    {
      assert (h + found)[x] == (all + (twice + found))[x];
    }
  }

  // ----- plans at different times

  ghost predicate DistinctTimes(steps: seq<Step>) {
    forall i, j :: 0 <= i < j < |steps| && steps[i].Prepare? && steps[j].Prepare? ==> steps[i].now != steps[j].now
  }

  lemma {:induction false} TimesOfNames(s: State, steps: seq<Step>)
    requires ValidSteps(steps) && DistinctTimes(steps)
    ensures NoRepeats(PlannedNames(s, steps))
    ensures forall name :: name in PlannedNames(s, steps) ==>
              exists i :: 0 <= i < |steps| && steps[i].Prepare? && steps[i].now == name.generatedAt
    decreases |steps|
  {
    if steps != [] {
      var front, last := steps[..|steps| - 1], steps[|steps| - 1];
      assert steps[|front|] == last && forall i :: 0 <= i < |front| ==> front[i] == steps[i];
      TimesOfNames(s, front);
      forall name | name in PlannedNames(s, steps)
        ensures exists i :: 0 <= i < |steps| && steps[i].Prepare? && steps[i].now == name.generatedAt
      {
        if name in PlannedNames(s, front) {
          var i :| 0 <= i < |front| && front[i].Prepare? && front[i].now == name.generatedAt;
          assert steps[i] == front[i];
        } else {
          assert name in NewNames(Run(s, front), last) && steps[|front|] == last;
        }
      }
    }
  }

  /**
   What an operator can see to: from an empty export directory, runs that plan at different times have names
   of their own.
   */
  lemma DistinctTimesAreFresh(live: seq<Line>, steps: seq<Step>)
    requires ValidSteps(steps) && DistinctTimes(steps)
    ensures FreshNames(State(Ledger([], live), map[]), steps)
  {
    TimesOfNames(State(Ledger([], live), map[]), steps);
  }
}
