/**
 Interleavings of retention runs in which lines are lost or held twice.
 */
module LedgerLosses {
  import opened Common
  import opened LedgerExports
  import opened LedgerRuns
  import opened LedgerExactness

  /** The state after one more step of a script. */
  lemma Then(s: State, early: seq<Step>, before: State, step: Step, after: State)
    requires ValidSteps(early) && Run(s, early) == before && ValidStep(step) && Take(before, step) == after
    ensures ValidSteps(early + [step]) && Run(s, early + [step]) == after
  {
    RunNext(s, early, step);
  }

  /** Exports of other names stay where they are. */
  lemma Unreplaced(exports: seq<Export>, e: Export)
    requires forall f :: f in exports ==> f.name != e.name
    ensures WriteExport(exports, e) == exports + [e]
  {
    WithoutNothing(exports, e.name);
  }

  /** Writing a lone export again under its name leaves only the new lines. */
  lemma Replacing(e: Export, lines: seq<Line>)
    ensures WriteExport([e], Export(e.name, lines)) == [Export(e.name, lines)]
  {
    assert [e][..0] == [] && Without([], e.name) == [];
  }

  lemma OneExport(e: Export)
    ensures Flatten([e]) == e.lines
  {
    assert [e][..0] == [];
  }

  // ----- names

  function TwoPlans(now: int, later: int): seq<Step> {
    [] + [Prepare(0, 2, now)] + [Prepare(1, 2, later)]
  }

  lemma BothPlanned(live: seq<Line>, now: int, later: int)
    requires |live| == 3
    ensures ValidSteps(TwoPlans(now, later))
    ensures Run(State(Ledger([], live), map[]), TwoPlans(now, later)) ==
            State(Ledger([], live), map[0 := Planned(CompactionPlan(true, 2, Name(now, live))),
                                        1 := Planned(CompactionPlan(true, 2, Name(later, live)))])
  {
    var s := State(Ledger([], live), map[]);
    RunNext(s, [], Prepare(0, 2, now));
    RunNext(s, [] + [Prepare(0, 2, now)], Prepare(1, 2, later));
  }

  /** Two runs that plan at one time for one ledger: the second export replaces the first, whose lines are gone. */
  lemma SameTimeLoses(live: seq<Line>, event: Line, other: Line, now: int)
    requires |live| == 3
    ensures var steps := TwoPlans(now, now) + [Load(0)] + [Save(0)] + [Rewrite(0)] + [Write(event)]
                         + [Load(1)] + [Save(1)] + [Rewrite(1)] + [Write(other)];
            && ValidSteps(steps)
            && History(Run(State(Ledger([], live), map[]), steps).ledger) == [live[2], event, other]
  {
    var s, plan := State(Ledger([], live), map[]), CompactionPlan(true, 2, Name(now, live));
    var p, first := Planned(plan), Export(plan.name, live[..2]);
    var early := TwoPlans(now, now);
    BothPlanned(live, now, now);
    Then(s, early, Run(s, early), Load(0), State(Ledger([], live), map[0 := Loaded(plan, live), 1 := p]));
    early := early + [Load(0)];
    Unreplaced([], first);
    Then(s, early, Run(s, early), Save(0), State(Ledger([first], live), map[0 := Exported(plan, live), 1 := p]));
    early := early + [Save(0)];
    assert map[0 := Exported(plan, live), 1 := p] - {0} == map[1 := p];
    Then(s, early, Run(s, early), Rewrite(0), State(Ledger([first], live[2..]), map[1 := p]));
    early := early + [Rewrite(0)];
    SecondOfTwo(s, early, plan, first, live[2], event, other);
  }

  /** The second run moves everything it finds into the file that the first one wrote. */
  lemma SecondOfTwo(s: State, early: seq<Step>, plan: CompactionPlan, first: Export, left: Line, event: Line,
                    other: Line)
    requires ValidSteps(early) && first.name == plan.name && plan.required && plan.compacted == 2
    requires Run(s, early) == State(Ledger([first], [left]), map[1 := Planned(plan)])
    ensures var steps := early + [Write(event)] + [Load(1)] + [Save(1)] + [Rewrite(1)] + [Write(other)];
            ValidSteps(steps) && History(Run(s, steps).ledger) == [left, event, other]
  {
    var now, lines, second := early, [left, event], Export(plan.name, [left, event]);
    assert lines[..2] == lines;
    Then(s, now, Run(s, now), Write(event), State(Ledger([first], lines), map[1 := Planned(plan)]));
    now := now + [Write(event)];
    Then(s, now, Run(s, now), Load(1), State(Ledger([first], lines), map[1 := Loaded(plan, lines)]));
    now := now + [Load(1)];
    Replacing(first, lines);
    Then(s, now, Run(s, now), Save(1), State(Ledger([second], lines), map[1 := Exported(plan, lines)]));
    now := now + [Save(1)];
    Then(s, now, Run(s, now), Rewrite(1), State(Ledger([second], []), map[]));
    now := now + [Rewrite(1)];
    Then(s, now, Run(s, now), Write(other), State(Ledger([second], [other]), map[]));
    OneExport(second);
  }

  // ----- overlapping runs

  /** The second run compacts while the first holds what it read. */
  lemma OverlapBegins(live: seq<Line>, now: int, later: int)
    requires |live| == 3
    ensures var steps := TwoPlans(now, later) + [Load(0)] + [Load(1)] + [Save(1)] + [Rewrite(1)];
            && ValidSteps(steps)
            && Run(State(Ledger([], live), map[]), steps) ==
               State(Ledger([Export(Name(later, live), live[..2])], live[2..]),
                     map[0 := Loaded(CompactionPlan(true, 2, Name(now, live)), live)])
  {
    var s, early := State(Ledger([], live), map[]), TwoPlans(now, later);
    var plan, next := CompactionPlan(true, 2, Name(now, live)), CompactionPlan(true, 2, Name(later, live));
    var e := Export(next.name, live[..2]);
    BothPlanned(live, now, later);
    Then(s, early, Run(s, early), Load(0), State(Ledger([], live), map[0 := Loaded(plan, live), 1 := Planned(next)]));
    early := early + [Load(0)];
    Then(s, early, Run(s, early), Load(1),
         State(Ledger([], live), map[0 := Loaded(plan, live), 1 := Loaded(next, live)]));
    early := early + [Load(1)];
    Unreplaced([], e);
    Then(s, early, Run(s, early), Save(1),
         State(Ledger([e], live), map[0 := Loaded(plan, live), 1 := Exported(next, live)]));
    early := early + [Save(1)];
    assert map[0 := Loaded(plan, live), 1 := Exported(next, live)] - {1} == map[0 := Loaded(plan, live)];
    Then(s, early, Run(s, early), Rewrite(1), State(Ledger([e], live[2..]), map[0 := Loaded(plan, live)]));
  }

  /**
   Two runs that plan at different times and overlap: the first reads, the second compacts and appends its
   event, the first writes the ledger back. The second run's event is gone and two lines are held twice.
   */
  lemma OverlapLoses(live: seq<Line>, event: Line, other: Line, now: int, later: int)
    requires |live| == 3 && now != later
    ensures var steps := TwoPlans(now, later) + [Load(0)] + [Load(1)] + [Save(1)] + [Rewrite(1)] + [Write(event)]
                         + [Save(0)] + [Rewrite(0)] + [Write(other)];
            && ValidSteps(steps) && FreshNames(State(Ledger([], live), map[]), steps)
            && History(Run(State(Ledger([], live), map[]), steps).ledger) == live[..2] + live[..2] + [live[2], other]
  {
    var s, early :=
      State(Ledger([], live), map[]), TwoPlans(now, later) + [Load(0)] + [Load(1)] + [Save(1)] + [Rewrite(1)];
    var plan, e := CompactionPlan(true, 2, Name(now, live)), Export(Name(later, live), live[..2]);
    OverlapBegins(live, now, later);
    OverlapEnds(s, early, plan, live, e, event, other);
    OverlapIsFresh(live, event, other, now, later);
  }

  lemma OverlapIsFresh(live: seq<Line>, event: Line, other: Line, now: int, later: int)
    requires now != later
    ensures var steps := TwoPlans(now, later) + [Load(0)] + [Load(1)] + [Save(1)] + [Rewrite(1)] + [Write(event)]
                         + [Save(0)] + [Rewrite(0)] + [Write(other)];
            ValidSteps(steps) && FreshNames(State(Ledger([], live), map[]), steps)
  {
    var rest := [Load(0), Load(1), Save(1), Rewrite(1), Write(event), Save(0), Rewrite(0), Write(other)];
    var steps := TwoPlans(now, later) + [Load(0)] + [Load(1)] + [Save(1)] + [Rewrite(1)] + [Write(event)]
                 + [Save(0)] + [Rewrite(0)] + [Write(other)];
    assert steps == TwoPlans(now, later) + rest;
    forall i | 2 <= i < |steps|
      ensures !steps[i].Prepare?
    {
      assert steps[i] == rest[i - 2];
    }
    DistinctTimesAreFresh(live, steps);
  }

  /** The run that read first writes back what it had read. */
  lemma OverlapEnds(s: State, early: seq<Step>, plan: CompactionPlan, live: seq<Line>, e: Export, event: Line,
                    other: Line)
    requires ValidSteps(early) && |live| == 3 && plan.required && plan.compacted == 2
    requires e.name != plan.name && e.lines == live[..2]
    requires Run(s, early) == State(Ledger([e], live[2..]), map[0 := Loaded(plan, live)])
    ensures var steps := early + [Write(event)] + [Save(0)] + [Rewrite(0)] + [Write(other)];
            ValidSteps(steps) && History(Run(s, steps).ledger) == live[..2] + live[..2] + [live[2], other]
  {
    var now, own := early, Export(plan.name, live[..2]);
    Then(s, now, Run(s, now), Write(event), State(Ledger([e], live[2..] + [event]), map[0 := Loaded(plan, live)]));
    now := now + [Write(event)];
    Unreplaced([e], own);
    Then(s, now, Run(s, now), Save(0), State(Ledger([e] + [own], live[2..] + [event]), map[0 := Exported(plan, live)]));
    now := now + [Save(0)];
    Then(s, now, Run(s, now), Rewrite(0), State(Ledger([e] + [own], live[2..]), map[]));
    now := now + [Rewrite(0)];
    Then(s, now, Run(s, now), Write(other), State(Ledger([e] + [own], live[2..] + [other]), map[]));
    OneExport(e);
    FlattenNext([e], own);
  }

  // ----- a run that reads an empty ledger

  lemma {:induction false} AllStepsBefore(holds: (State, Step) -> bool, s: State, a: seq<Step>, b: seq<Step>)
    requires ValidSteps(a) && ValidSteps(a + b) && AllSteps(holds, s, a + b)
    ensures AllSteps(holds, s, a)
    decreases |b|
  {
    if b == [] {
      assert a + b == a;
    } else {
      assert (a + b)[..|a + b| - 1] == a + b[..|b| - 1];
      AllStepsBefore(holds, s, a, b[..|b| - 1]);
    }
  }

  lemma BadStepShows(s: State, a: seq<Step>, step: Step, b: seq<Step>)
    requires ValidSteps(a) && ValidSteps(a + [step]) && ValidSteps(a + [step] + b) && !KeepsOrder(Run(s, a), step)
    ensures !Orderly(s, a + [step] + b)
  {
    assert (a + [step])[..|a|] == a;
    if StepsKeepOrder(s, a + [step] + b) {
      AllStepsBefore((s, step) => KeepsOrder(s, step), s, a + [step], b);
    }
  }

  function ThreePlans(): seq<Step> {
    [] + [Prepare(0, 1, 0)] + [Prepare(1, 1, 1)] + [Prepare(2, 1, 2)]
  }

  lemma AllPlanned(a: Line, b: Line)
    ensures ValidSteps(ThreePlans())
    ensures Run(State(Ledger([], [a, b]), map[]), ThreePlans()) ==
            State(Ledger([], [a, b]),
                  map[0 := Planned(PlanOf(0, a, b)), 1 := Planned(PlanOf(1, a, b)), 2 := Planned(PlanOf(2, a, b))])
  {
    var s := State(Ledger([], [a, b]), map[]);
    RunNext(s, [], Prepare(0, 1, 0));
    RunNext(s, [] + [Prepare(0, 1, 0)], Prepare(1, 1, 1));
    RunNext(s, [] + [Prepare(0, 1, 0)] + [Prepare(1, 1, 1)], Prepare(2, 1, 2));
  }

  function PlanOf(now: int, a: Line, b: Line): CompactionPlan {
    CompactionPlan(true, 2, Name(now, [a, b]))
  }

  /** The first run empties the ledger. */
  function Emptying(): seq<Step> {
    ThreePlans() + [Load(0)] + [Save(0)] + [Rewrite(0)]
  }

  lemma EmptyingRun(a: Line, b: Line)
    ensures ValidSteps(Emptying())
    ensures Run(State(Ledger([], [a, b]), map[]), Emptying()) ==
            State(Ledger([Export(Name(0, [a, b]), [a, b])], []),
                  map[1 := Planned(PlanOf(1, a, b)), 2 := Planned(PlanOf(2, a, b))])
  {
    var s, now := State(Ledger([], [a, b]), map[]), ThreePlans();
    var p0, p1, p2 := PlanOf(0, a, b), Planned(PlanOf(1, a, b)), Planned(PlanOf(2, a, b));
    var e := Export(p0.name, [a, b]);
    AllPlanned(a, b);
    Then(s, now, Run(s, now), Load(0), State(Ledger([], [a, b]), map[0 := Loaded(p0, [a, b]), 1 := p1, 2 := p2]));
    now := now + [Load(0)];
    Unreplaced([], e);
    assert [a, b][..2] == [a, b];
    Then(s, now, Run(s, now), Save(0), State(Ledger([e], [a, b]), map[0 := Exported(p0, [a, b]), 1 := p1, 2 := p2]));
    now := now + [Save(0)];
    assert map[0 := Exported(p0, [a, b]), 1 := p1, 2 := p2] - {0} == map[1 := p1, 2 := p2];
    Then(s, now, Run(s, now), Rewrite(0), State(Ledger([e], []), map[1 := p1, 2 := p2]));
  }

  /** The second run reads it empty, the third with a new line. */
  function EmptyReads(x: Line): seq<Step> {
    Emptying() + [Load(1)] + [Write(x)] + [Load(2)] + [Save(1)]
  }

  lemma EmptyReadsRun(a: Line, b: Line, x: Line)
    ensures ValidSteps(EmptyReads(x))
    ensures Run(State(Ledger([], [a, b]), map[]), EmptyReads(x)) ==
            State(Ledger([Export(Name(0, [a, b]), [a, b])] + [Export(Name(1, [a, b]), [])], [x]),
                  map[1 := Exported(PlanOf(1, a, b), []), 2 := Loaded(PlanOf(2, a, b), [x])])
  {
    var s, now := State(Ledger([], [a, b]), map[]), Emptying();
    var p1, p2 := PlanOf(1, a, b), PlanOf(2, a, b);
    var e, f := Export(Name(0, [a, b]), [a, b]), Export(p1.name, []);
    EmptyingRun(a, b);
    Then(s, now, Run(s, now), Load(1), State(Ledger([e], []), map[1 := Loaded(p1, []), 2 := Planned(p2)]));
    now := now + [Load(1)];
    Then(s, now, Run(s, now), Write(x), State(Ledger([e], [x]), map[1 := Loaded(p1, []), 2 := Planned(p2)]));
    now := now + [Write(x)];
    Then(s, now, Run(s, now), Load(2), State(Ledger([e], [x]), map[1 := Loaded(p1, []), 2 := Loaded(p2, [x])]));
    now := now + [Load(2)];
    Unreplaced([e], f);
    Then(s, now, Run(s, now), Save(1), State(Ledger([e] + [f], [x]), map[1 := Exported(p1, []), 2 := Loaded(p2, [x])]));
  }

  /** The second run then writes the empty ledger back over the line. */
  lemma EmptyWriteBack(a: Line, b: Line, x: Line)
    ensures var s, now := State(Ledger([], [a, b]), map[]), EmptyReads(x);
            && ValidSteps(now) && ValidSteps(now + [Rewrite(1)]) && !KeepsOrder(Run(s, now), Rewrite(1))
            && Run(s, now + [Rewrite(1)]) ==
               State(Ledger([Export(Name(0, [a, b]), [a, b])] + [Export(Name(1, [a, b]), [])], []),
                     map[2 := Loaded(PlanOf(2, a, b), [x])])
  {
    EmptyReadsRun(a, b, x);
    assert map[1 := Exported(PlanOf(1, a, b), []), 2 := Loaded(PlanOf(2, a, b), [x])] - {1} ==
           map[2 := Loaded(PlanOf(2, a, b), [x])];
    RunNext(State(Ledger([], [a, b]), map[]), EmptyReads(x), Rewrite(1));
  }

  lemma ThreeExports(e: Export, f: Export, g: Export)
    ensures Flatten([e] + [f] + [g]) == e.lines + f.lines + g.lines
  {
    OneExport(e);
    FlattenNext([e], f);
    FlattenNext([e] + [f], g);
  }

  /**
   Why the exact condition asks that runs read something: the second run writes an empty ledger over a line
   that the third has read, and the third exports it after all. Everything is there once and in order.
   */
  lemma EmptyReadWitness(a: Line, b: Line, x: Line)
    ensures var s, steps := State(Ledger([], [a, b]), map[]), EmptyReads(x) + [Rewrite(1)] + ([Save(2)] + [Rewrite(2)]);
            ValidSteps(steps) && !Orderly(s, steps) && History(Run(s, steps).ledger) == [a, b, x]
  {
    var s, now := State(Ledger([], [a, b]), map[]), EmptyReads(x);
    var e, f := Export(Name(0, [a, b]), [a, b]), Export(Name(1, [a, b]), []);
    EmptyWriteBack(a, b, x);
    LastSave(s, now + [Rewrite(1)], [e] + [f], PlanOf(2, a, b), x);
    assert now + [Rewrite(1)] + [Save(2)] + [Rewrite(2)] == now + [Rewrite(1)] + ([Save(2)] + [Rewrite(2)]);
    BadStepShows(s, now, Rewrite(1), [Save(2)] + [Rewrite(2)]);
    ThreeExports(e, f, Export(Name(2, [a, b]), [x]));
  }

  lemma LastSave(s: State, early: seq<Step>, exports: seq<Export>, plan: CompactionPlan, x: Line)
    requires ValidSteps(early) && plan.compacted == 2 && forall e :: e in exports ==> e.name != plan.name
    requires Run(s, early) == State(Ledger(exports, []), map[2 := Loaded(plan, [x])])
    ensures ValidSteps(early + [Save(2)] + [Rewrite(2)])
    ensures Run(s, early + [Save(2)] + [Rewrite(2)]).ledger == Ledger(exports + [Export(plan.name, [x])], [])
  {
    var g := Export(plan.name, [x]);
    assert [x][..1] == [x];
    Unreplaced(exports, g);
    Then(s, early, Run(s, early), Save(2), State(Ledger(exports + [g], []), map[2 := Exported(plan, [x])]));
    Then(s, early + [Save(2)], Run(s, early + [Save(2)]), Rewrite(2), State(Ledger(exports + [g], []), map[]));
  }
}
