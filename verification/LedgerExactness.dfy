/**
 Exactly when retention keeps every line once and in order: when every run writes the ledger back over
 what it had read, and none stops or stands between its two writes.

 Lines are taken to be distinct here, as events with identifiers of their own are, and a run to find at
 least one line when it reads; `LedgerLosses.EmptyReadWitness` is what that leaves out.
 */
module LedgerExactness {
  import opened Common
  import opened LedgerExports
  import opened LedgerRuns

  /** The step neither strands an export nor writes over a ledger it had not read. */
  ghost predicate KeepsOrder(s: State, step: Step) {
    FindsItsLedger(s, step) && !Strands(s, step)
  }

  ghost predicate ReadsSomething(s: State, step: Step) {
    step.Load? ==> s.ledger.live != []
  }

  predicate NoneStands(s: State) {
    forall r :: r in s.runs ==> !s.runs[r].Exported?
  }

  ghost predicate StepsKeepOrder(s: State, steps: seq<Step>)
    requires ValidSteps(steps)
  {
    AllSteps((s, step) => KeepsOrder(s, step), s, steps)
  }

  ghost predicate AllReadSomething(s: State, steps: seq<Step>)
    requires ValidSteps(steps)
  {
    AllSteps((s, step) => ReadsSomething(s, step), s, steps)
  }

  /** Every run keeps to its order throughout, and no export waits for its ledger at the end. */
  ghost predicate Orderly(s: State, steps: seq<Step>)
    requires ValidSteps(steps)
  {
    StepsKeepOrder(s, steps) && NoneStands(Run(s, steps))
  }

  function Exports(s: State): seq<Line> {
    Flatten(s.ledger.exports)
  }

  /** Plans move something, and so do the runs that have read. */
  ghost predicate PlansMove(s: State) {
    forall r :: r in s.runs ==>
      && (s.runs[r].plan.required ==> s.runs[r].plan.compacted >= 1)
      && (!s.runs[r].Planned? ==> s.runs[r].plan.required && s.runs[r].lines != [])
  }

  lemma StepPlansMove(s: State, step: Step)
    requires ValidStep(step) && PlansMove(s) && ReadsSomething(s, step)
    ensures PlansMove(Take(s, step))
  {
  }

  /** The first line that a run read. */
  function Head(s: State, r: nat): Line
    requires r in s.runs && !s.runs[r].Planned?
  {
    if s.runs[r].lines == [] then "" else s.runs[r].lines[0]
  }

  /** What a run still to export begins with has been exported by another. */
  predicate Stale(s: State, r: nat)
    requires r in s.runs && s.runs[r].Loaded?
  {
    Head(s, r) in Exports(s)
  }

  lemma MovesItsHead(s: State, r: nat)
    requires PlansMove(s) && r in s.runs && !s.runs[r].Planned?
    ensures Moved(s.runs[r]) != [] && Moved(s.runs[r])[0] == Head(s, r)
  {
  }

  // ----- orderly states

  /** Nothing is exported and not yet taken out of the ledger: exports and ledger are all there is, in order. */
  ghost predicate Settled(s: State, all: seq<Line>) {
    NoneStands(s) && Exports(s) + s.ledger.live == all
  }

  /** One run has exported the head of the ledger, and not yet taken it out. */
  ghost predicate Standing(s: State, all: seq<Line>, r: nat, before: seq<Line>) {
    && r in s.runs && s.runs[r].Exported? && (forall t :: t in s.runs && s.runs[t].Exported? ==> t == r)
    && s.runs[r].lines <= s.ledger.live
    && Exports(s) == before + Moved(s.runs[r]) && before + s.ledger.live == all
  }

  ghost predicate Fine(s: State, all: seq<Line>) {
    && (forall r :: r in s.runs && s.runs[r].Loaded? ==> s.runs[r].lines <= s.ledger.live || Stale(s, r))
    && (Settled(s, all) || exists r, before :: Standing(s, all, r, before))
  }

  // ----- damage that stays

  ghost predicate Twice(s: State) {
    !NoRepeats(Exports(s))
  }

  /** A line is nowhere, and a run that has read it begins with a line that is exported already. */
  ghost predicate Gone(s: State, z: Line) {
    && z !in Exports(s) && z !in s.ledger.live
    && (forall r :: r in s.runs && s.runs[r].Loaded? && z in s.runs[r].lines ==> Stale(s, r))
    && (forall r :: r in s.runs && s.runs[r].Exported? ==> z !in Kept(s.runs[r]))
  }

  /** The head of the ledger is exported, and no run is about to take it out. */
  ghost predicate Lingers(s: State) {
    && s.ledger.live != [] && s.ledger.live[0] in Exports(s) && NoneStands(s)
    && (forall r :: r in s.runs && s.runs[r].Loaded? ==> Stale(s, r))
  }

  ghost predicate Damaged(s: State, all: seq<Line>) {
    Twice(s) || Lingers(s) || exists z :: z in all && Gone(s, z)
  }

  // ----- exports only grow

  lemma SaveAppends(s: State, step: Step)
    requires Saves(s, step) && NameIsFree(s, step)
    ensures Exports(Take(s, step)) == Exports(s) + Moved(s.runs[step.run])
  {
    FreeReplacesNothing(s, step);
    var p := s.runs[step.run];
    FlattenNext(s.ledger.exports, Export(p.plan.name, Moved(p)));
  }

  lemma ExportsGrow(s: State, step: Step)
    requires ValidStep(step) && NameIsFree(s, step)
    ensures Exports(s) <= Exports(Take(s, step))
  {
    if Saves(s, step) {
      SaveAppends(s, step);
    }
  }

  lemma RepeatsStay(s: seq<Line>, t: seq<Line>)
    requires s <= t && NoRepeats(t)
    ensures NoRepeats(s)
  {
    assert forall i :: 0 <= i < |s| ==> s[i] == t[i];
  }

  lemma AppendsOnce(s: seq<Line>, t: seq<Line>, x: Line)
    requires x in s && x in t
    ensures !NoRepeats(s + t)
  {
    var i :| 0 <= i < |s| && s[i] == x;
    var j :| 0 <= j < |t| && t[j] == x;
    assert (s + t)[i] == (s + t)[|s| + j];
  }

  /** A run that begins with an exported line exports it again. */
  lemma StaleSaveRepeats(s: State, step: Step)
    requires Saves(s, step) && NameIsFree(s, step) && PlansMove(s) && Stale(s, step.run)
    ensures Twice(Take(s, step))
  {
    SaveAppends(s, step);
    MovesItsHead(s, step.run);
    AppendsOnce(Exports(s), Moved(s.runs[step.run]), Head(s, step.run));
  }

  /** What a step appends to everything. */
  function With(all: seq<Line>, step: Step): seq<Line> {
    if step.Write? then all + [step.line] else all
  }

  lemma GoneStays(s: State, step: Step, all: seq<Line>, z: Line)
    requires ValidStep(step) && PlansMove(s) && NameIsFree(s, step)
    requires NoRepeats(With(all, step)) && z in all && Gone(s, z)
    ensures Twice(Take(s, step)) || Gone(Take(s, step), z)
  {
    var t := Take(s, step);
    ExportsGrow(s, step);
    if Saves(s, step) {
      SaveAppends(s, step);
      if Stale(s, step.run) {
        StaleSaveRepeats(s, step);
      }
    } else if step.Write? && step.line == z {
      AppendsOnce(all, [step.line], z);
    }
  }

  lemma LingersStays(s: State, step: Step)
    requires ValidStep(step) && PlansMove(s) && NameIsFree(s, step) && Lingers(s)
    ensures Twice(Take(s, step)) || Lingers(Take(s, step))
  {
    ExportsGrow(s, step);
    if Saves(s, step) {
      StaleSaveRepeats(s, step);
    }
  }

  lemma TwiceStays(s: State, step: Step)
    requires ValidStep(step) && NameIsFree(s, step) && Twice(s)
    ensures Twice(Take(s, step))
  {
    ExportsGrow(s, step);
    if !Twice(Take(s, step)) {
      RepeatsStay(Exports(s), Exports(Take(s, step)));
    }
  }

  lemma DamageStays(s: State, step: Step, all: seq<Line>)
    requires ValidStep(step) && PlansMove(s) && NameIsFree(s, step)
    requires NoRepeats(With(all, step)) && Damaged(s, all)
    ensures Damaged(Take(s, step), With(all, step))
  {
    if Twice(s) {
      TwiceStays(s, step);
    } else if Lingers(s) {
      LingersStays(s, step);
    } else {
      var z :| z in all && Gone(s, z);
      GoneStays(s, step, all, z);
      assert z in With(all, step);
    }
  }

  // ----- an orderly state stays orderly, or the step does damage

  lemma SettledSave(s: State, step: Step, all: seq<Line>)
    requires PlansMove(s) && NameIsFree(s, step) && Saves(s, step) && Fine(s, all) && Settled(s, all)
    ensures Twice(Take(s, step)) || Fine(Take(s, step), all)
  {
    var t, p := Take(s, step), s.runs[step.run];
    SaveAppends(s, step);
    if Stale(s, step.run) {
      StaleSaveRepeats(s, step);
    } else {
      assert Standing(t, all, step.run, Exports(s));
      MovesItsHead(s, step.run);
      assert Moved(p)[0] == s.ledger.live[0];
      forall r | r in t.runs && t.runs[r].Loaded?
        ensures t.runs[r].lines <= t.ledger.live || Stale(t, r)
      {
        assert s.runs[r] == t.runs[r];
      }
    }
  }

  /** While one run stands, every run still to export begins with an exported line. */
  lemma StandingMakesStale(s: State, all: seq<Line>, r: nat, before: seq<Line>)
    requires PlansMove(s) && Fine(s, all) && Standing(s, all, r, before)
    ensures forall t :: t in s.runs && s.runs[t].Loaded? ==> Stale(s, t)
    ensures s.ledger.live != [] && s.ledger.live[0] in Exports(s)
  {
    MovesItsHead(s, r);
    assert Moved(s.runs[r])[0] == s.ledger.live[0];
    assert Exports(s)[|before|] == s.ledger.live[0];
  }

  /** A run that finds what it had read takes out of the ledger what it has exported. */
  lemma OrderlyRewrite(s: State, step: Step, all: seq<Line>, before: seq<Line>)
    requires PlansMove(s) && Rewrites(s, step) && Fine(s, all) && Standing(s, all, step.run, before)
    requires s.ledger.live == s.runs[step.run].lines
    ensures Fine(Take(s, step), all)
  {
    var t, p := Take(s, step), s.runs[step.run];
    StandingMakesStale(s, all, step.run, before);
    assert p.lines == Moved(p) + Kept(p);
    assert Exports(t) + t.ledger.live == before + Moved(p) + Kept(p) == before + p.lines;
    assert Settled(t, all);
  }

  /** A run that finds more writes the rest away. */
  lemma OverwritingRewrite(s: State, step: Step, all: seq<Line>, before: seq<Line>)
    requires PlansMove(s) && Rewrites(s, step) && Fine(s, all) && Standing(s, all, step.run, before) && NoRepeats(all)
    requires s.ledger.live != s.runs[step.run].lines
    ensures Damaged(Take(s, step), all)
  {
    var t, p, live := Take(s, step), s.runs[step.run], s.ledger.live;
    StandingMakesStale(s, all, step.run, before);
    var z := live[|live| - 1];
    LastIsGone(before, live, p.lines, Count(p), z);
    assert all[|all| - 1] == z && z in all;
    assert Gone(t, z);
  }

  lemma LastIsGone(before: seq<Line>, live: seq<Line>, lines: seq<Line>, n: nat, z: Line)
    requires NoRepeats(before + live) && lines < live && n <= |lines| && z == live[|live| - 1]
    ensures z !in before + lines[..n] && z !in lines[n..]
  {
    var all := before + live;
    assert all[|all| - 1] == z;
    forall i | 0 <= i < |before| + n
      ensures (before + lines[..n])[i] != z
    {
      assert (before + lines[..n])[i] == all[i];
    }
    forall i | 0 <= i < |lines| - n
      ensures lines[n..][i] != z
    {
      assert lines[n..][i] == live[n + i] == all[|before| + n + i];
    }
  }

  lemma StandingStep(s: State, step: Step, all: seq<Line>, r: nat, before: seq<Line>)
    requires ValidStep(step) && PlansMove(s) && NameIsFree(s, step)
    requires Fine(s, all) && Standing(s, all, r, before) && NoRepeats(With(all, step))
    ensures var t := Take(s, step);
            Twice(t) || if KeepsOrder(s, step) then Fine(t, With(all, step)) else Damaged(t, With(all, step))
  {
    var t := Take(s, step);
    StandingMakesStale(s, all, r, before);
    ExportsGrow(s, step);
    if Saves(s, step) {
      StaleSaveRepeats(s, step);
    } else if Rewrites(s, step) {
      if s.ledger.live == s.runs[r].lines {
        OrderlyRewrite(s, step, all, before);
      } else {
        OverwritingRewrite(s, step, all, before);
      }
    } else if Strands(s, step) {
      assert Lingers(t);
    } else {
      assert before + t.ledger.live == With(all, step);
      assert Standing(t, With(all, step), r, before);
    }
  }

  lemma SettledStep(s: State, step: Step, all: seq<Line>)
    requires ValidStep(step) && PlansMove(s) && NameIsFree(s, step) && Fine(s, all) && Settled(s, all)
    ensures KeepsOrder(s, step) && (Twice(Take(s, step)) || Fine(Take(s, step), With(all, step)))
  {
    var t := Take(s, step);
    if Saves(s, step) {
      SettledSave(s, step, all);
    } else {
      assert Exports(t) + t.ledger.live == With(all, step);
    }
  }

  // ----- whole runs

  /** After a run: orderly so far, or beyond repair. */
  ghost predicate Judged(s: State, steps: seq<Step>)
    requires ValidSteps(steps)
  {
    var t, all := Run(s, steps), Everything(s, steps);
    PlansMove(t) && (Twice(t) || if StepsKeepOrder(s, steps) then Fine(t, all) else Damaged(t, all))
  }

  lemma JudgedNext(s: State, steps: seq<Step>)
    requires ValidSteps(steps) && steps != [] && Judged(s, steps[..|steps| - 1])
    requires NameIsFree(Run(s, steps[..|steps| - 1]), steps[|steps| - 1])
    requires ReadsSomething(Run(s, steps[..|steps| - 1]), steps[|steps| - 1])
    requires NoRepeats(Everything(s, steps))
    ensures Judged(s, steps)
  {
    var front, last := steps[..|steps| - 1], steps[|steps| - 1];
    var before, all := Run(s, front), Everything(s, front);
    StepPlansMove(before, last);
    assert Everything(s, steps) == With(all, last);
    if Twice(before) {
      TwiceStays(before, last);
    } else if StepsKeepOrder(s, front) {
      if Settled(before, all) {
        SettledStep(before, last, all);
      } else {
        var r, had :| Standing(before, all, r, had);
        StandingStep(before, last, all, r, had);
      }
    } else {
      DamageStays(before, last, all);
    }
  }

  lemma {:induction false} AllJudged(s: State, steps: seq<Step>)
    requires ValidSteps(steps) && s.runs == map[] && NoRepeats(Everything(s, steps))
    requires AllSteps((s, step) => NameIsFree(s, step), s, steps) && AllReadSomething(s, steps)
    ensures Judged(s, steps)
    decreases |steps|
  {
    if steps == [] {
      assert Settled(s, Everything(s, steps));
    } else {
      assert Everything(s, steps[..|steps| - 1]) <= Everything(s, steps);
      RepeatsStay(Everything(s, steps[..|steps| - 1]), Everything(s, steps));
      AllJudged(s, steps[..|steps| - 1]);
      JudgedNext(s, steps);
    }
  }

  /** Exports and ledger without a repeated line are all there is exactly when no damage was done. */
  lemma DamageShows(s: State, all: seq<Line>)
    requires NoRepeats(all) && Damaged(s, all)
    ensures History(s.ledger) != all
  {
    if History(s.ledger) == all {
      if Twice(s) {
        RepeatsStay(Exports(s), all);
      } else if Lingers(s) {
        AppendsOnce(Exports(s), s.ledger.live, s.ledger.live[0]);
      }
    }
  }

  lemma FineShows(s: State, all: seq<Line>)
    requires NoRepeats(all) && PlansMove(s) && Fine(s, all)
    ensures History(s.ledger) == all <==> NoneStands(s)
  {
    if !Settled(s, all) {
      var r, before :| Standing(s, all, r, before);
      StandingMakesStale(s, all, r, before);
      AppendsOnce(Exports(s), s.ledger.live, s.ledger.live[0]);
    }
  }

  lemma {:induction false} NothingStranded(s: State, steps: seq<Step>)
    requires ValidSteps(steps) && StepsKeepOrder(s, steps)
    ensures Undisturbed(s, steps) && Total(Stranded, s, steps) == []
    decreases |steps|
  {
    if steps != [] {
      NothingStranded(s, steps[..|steps| - 1]);
    }
  }

  lemma {:induction false} NothingDoubled(s: State, n: nat)
    requires NoneStands(s)
    ensures Doubled(s.runs, n) == multiset{}
    decreases n
  {
    if n > 0 {
      NothingDoubled(s, n - 1);
    }
  }

  lemma SameLinesOnce(s: seq<Line>, t: seq<Line>)
    requires multiset(s) == multiset(t) && NoRepeats(t)
    ensures NoRepeats(s)
  {
    forall i, j | 0 <= i < j < |s|
      ensures s[i] != s[j]
    {
      if s[i] == s[j] {
        CountsTwice(s, i, j);
        CountsOnce(t, s[i]);
      }
    }
  }

  lemma CountsTwice(s: seq<Line>, i: nat, j: nat)
    requires i < j < |s| && s[i] == s[j]
    ensures multiset(s)[s[i]] >= 2
  {
    assert s == s[..j] + s[j..];
    assert s[..j][i] == s[i] && s[j..][0] == s[i];
    assert multiset(s) == multiset(s[..j]) + multiset(s[j..]);
  }

  lemma {:induction false} CountsOnce(t: seq<Line>, x: Line)
    requires NoRepeats(t)
    ensures multiset(t)[x] <= 1
    decreases |t|
  {
    if t != [] {
      var front, last := t[..|t| - 1], t[|t| - 1];
      CountsOnce(front, x);
      assert t == front + [last] && last !in front;
      assert multiset(t) == multiset(front) + multiset{last};
    }
  }

  /**
   Over any interleaving in which exports have names of their own: the exports in order followed by the
   ledger are everything ever appended, each line once and in order, if and only if nothing reached the
   ledger between a run's read and its write-back, and no run stopped or stands between its two writes.
   */
  lemma ExactlyOnce(s: State, steps: seq<Step>, n: nat)
    requires ValidSteps(steps) && s.runs == map[] && FreshNames(s, steps)
    requires forall i :: 0 <= i < |steps| ==> Below(steps[i], n)
    requires NoRepeats(Everything(s, steps)) && AllReadSomething(s, steps)
    ensures History(Run(s, steps).ledger) == Everything(s, steps) <==> Orderly(s, steps)
  {
    var t, all := Run(s, steps), Everything(s, steps);
    FreshIsFree(s, steps);
    AllJudged(s, steps);
    if Orderly(s, steps) {
      OrderlyHasNoRepeats(s, steps, n);
      FineShows(t, all);
    } else if StepsKeepOrder(s, steps) && Fine(t, all) {
      FineShows(t, all);
    } else {
      DamageShows(t, all);
    }
  }

  lemma OrderlyHasNoRepeats(s: State, steps: seq<Step>, n: nat)
    requires ValidSteps(steps) && s.runs == map[] && FreshNames(s, steps)
    requires forall i :: 0 <= i < |steps| ==> Below(steps[i], n)
    requires NoRepeats(Everything(s, steps)) && Orderly(s, steps)
    ensures !Twice(Run(s, steps))
  {
    var t := Run(s, steps);
    NothingStranded(s, steps);
    NothingIsLost(s, steps, n);
    NothingDoubled(t, n);
    assert multiset(History(t.ledger)) == multiset(Everything(s, steps));
    SameLinesOnce(History(t.ledger), Everything(s, steps));
    RepeatsStay(Exports(t), History(t.ledger));
  }
}
