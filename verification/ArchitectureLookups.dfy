/** The validator's dictionaries, edge lists and walks, read off a packet's own entries. */
module ArchitectureLookups {
  import opened Common
  import opened Graphs
  import opened ArchitecturePacket
  import opened ArchitectureConditions
  import opened ArchitectureTheorems
  import opened ParentChains

  // ----- collected findings

  lemma InFour<T>(a: seq<T>, b: seq<T>, c: seq<T>, d: seq<T>, x: T)
    ensures x in a + b + c + d <==> x in a || x in b || x in c || x in d
  {
  }

  lemma InFive<T>(a: seq<T>, b: seq<T>, c: seq<T>, d: seq<T>, e: seq<T>, x: T)
    ensures x in a + b + c + d + e <==> x in a || x in b || x in c || x in d || x in e
  {
  }

  lemma InSix<T>(a: seq<T>, b: seq<T>, c: seq<T>, d: seq<T>, e: seq<T>, f: seq<T>, x: T)
    ensures x in a + b + c + d + e + f <==> x in a || x in b || x in c || x in d || x in e || x in f
  {
  }

  lemma InSeven<T>(a: seq<T>, b: seq<T>, c: seq<T>, d: seq<T>, e: seq<T>, f: seq<T>, g: seq<T>, x: T)
    ensures x in a + b + c + d + e + f + g <==>
            x in a || x in b || x in c || x in d || x in e || x in f || x in g
  {
    InSix(a, b, c, d, e, f, x);
  }

  lemma InTen<T>(a: seq<T>, b: seq<T>, c: seq<T>, d: seq<T>, e: seq<T>,
                 f: seq<T>, g: seq<T>, h: seq<T>, i: seq<T>, j: seq<T>, x: T)
    ensures x in a + b + c + d + e + f + g + h + i + j <==>
            x in a || x in b || x in c || x in d || x in e || x in f || x in g || x in h || x in i || x in j
  {
    InSeven(a, b, c, d, e, f, g, x);
  }

  lemma SixWhens(a: bool, b: bool, c: bool, d: bool, e: bool, g: bool,
                 fa: Finding, fb: Finding, fc: Finding, fd: Finding, fe: Finding, fg: Finding, f: Finding)
    ensures f in When(a, fa) + When(b, fb) + When(c, fc) + When(d, fd) + When(e, fe) + When(g, fg) <==>
            || (f == fa && a) || (f == fb && b) || (f == fc && c)
            || (f == fd && d) || (f == fe && e) || (f == fg && g)
  {
    InSix(When(a, fa), When(b, fb), When(c, fc), When(d, fd), When(e, fe), When(g, fg), f);
  }

  lemma Among<T, U>(xs: seq<T>, f: T -> seq<U>, u: U)
    ensures u in FlatMap(xs, f) <==> exists x :: x in xs && u in f(x)
  {
    FlatMapMembers(xs, f, u);
    if x :| x in xs && u in f(x) {
      var i :| 0 <= i < |xs| && xs[i] == x;
      assert u in f(xs[i]);
    }
  }

  lemma {:induction false} CountOfDistinct<T(!new)>(xs: seq<T>)
    requires NoRepeats(xs)
    ensures |Elements(xs)| == |xs|
    decreases |xs|
  {
    if xs != [] {
      var front, last := xs[..|xs| - 1], xs[|xs| - 1];
      CountOfDistinct(front);
      assert xs == front + [last];
      assert Elements(xs) == Elements(front) + {last};
    }
  }

  /** A list is longer than its set of elements exactly when something occurs in it twice. */
  lemma RepeatsExactly<T(!new)>(xs: seq<T>)
    ensures |xs| != |Elements(xs)| <==> exists i, j :: 0 <= i < j < |xs| && xs[i] == xs[j]
  {
    ElementCount(xs);
    if NoRepeats(xs) {
      CountOfDistinct(xs);
    }
  }

  ghost predicate LastPair<K, V>(pairs: seq<(K, V)>, i: int, key: K, value: V) {
    0 <= i < |pairs| && pairs[i] == (key, value) && forall j :: i < j < |pairs| ==> pairs[j].0 != key
  }

  /** A dictionary built in order holds the last pair of each key. */
  lemma {:induction false} LastPairWins<K, V>(pairs: seq<(K, V)>, key: K, value: V)
    ensures Get(LastWins(pairs), key) == Some(value) <==> exists i :: LastPair(pairs, i, key, value)
    decreases |pairs|
  {
    if pairs != [] {
      var front, last := pairs[..|pairs| - 1], pairs[|pairs| - 1];
      LastPairWins(front, key, value);
      if last.0 == key {
        if last.1 == value {
          assert LastPair(pairs, |pairs| - 1, key, value);
        }
      } else {
        if i :| LastPair(front, i, key, value) {
          assert LastPair(pairs, i, key, value);
        }
        if i :| LastPair(pairs, i, key, value) {
          assert LastPair(front, i, key, value);
        }
      }
    }
  }

  // ----- dictionaries

  lemma OwnersExactly(p: Packet, item: Id, owner: Id)
    ensures Get(OwnerOf(p), item) == Some(owner) <==> Owns(p, owner, item)
  {
    var pairs := seq(|p.owners|, i requires 0 <= i < |p.owners| => (p.owners[i].item, p.owners[i].owner));
    LastPairWins(pairs, item, owner);
    assert forall j :: 0 <= j < |p.owners| ==> pairs[j].0 == p.owners[j].item;
    if i :| LastPair(pairs, i, item, owner) {
      assert LastOwner(p, i);
    }
    if i :| LastOwner(p, i) && p.owners[i].item == item && p.owners[i].owner == owner {
      assert LastPair(pairs, i, item, owner);
    }
  }

  lemma ParentsExactly(p: Packet, item: Id, parent: Option<Id>)
    ensures Get(ParentOf(p), item) == Some(parent) <==> Under(p, item, parent)
  {
    var pairs := seq(|p.owners|, i requires 0 <= i < |p.owners| => (p.owners[i].item, p.owners[i].parent));
    LastPairWins(pairs, item, parent);
    assert forall j :: 0 <= j < |p.owners| ==> pairs[j].0 == p.owners[j].item;
    if i :| LastPair(pairs, i, item, parent) {
      assert LastOwner(p, i);
    }
    if i :| LastOwner(p, i) && p.owners[i].item == item && p.owners[i].parent == parent {
      assert LastPair(pairs, i, item, parent);
    }
  }

  lemma PlansExactly(p: Packet, item: Id, entry: PlanEntry)
    ensures Get(PlanOf(p), item) == Some(entry) <==> Planned(p, item, entry)
  {
    LastPairWins(PlanPairs(p), item, entry);
    assert forall j :: 0 <= j < |p.plan| ==> PlanPairs(p)[j].0 == p.plan[j].item;
    if i :| LastPair(PlanPairs(p), i, item, entry) {
      assert LastPlan(p, i);
    }
    if i :| LastPlan(p, i) && p.plan[i] == entry && entry.item == item {
      assert LastPair(PlanPairs(p), i, item, entry);
    }
  }

  lemma UnitsExactly(p: Packet, unitId: Id, u: LandingUnit)
    ensures Get(UnitById(p), unitId) == Some(u) <==> Declared(p, unitId, u)
  {
    LastPairWins(UnitPairs(p), unitId, u);
    assert forall j :: 0 <= j < |p.units| ==> UnitPairs(p)[j].0 == p.units[j].id;
    if i :| LastPair(UnitPairs(p), i, unitId, u) {
      assert LastUnit(p, i);
    }
    if i :| LastUnit(p, i) && p.units[i] == u && u.id == unitId {
      assert LastPair(UnitPairs(p), i, unitId, u);
    }
  }

  lemma GatesExactly(p: Packet, gateId: Id, g: Gate)
    ensures Get(GateById(p), gateId) == Some(g) <==> Guarded(p, gateId, g)
  {
    LastPairWins(GatePairs(p), gateId, g);
    assert forall j :: 0 <= j < |p.gates| ==> GatePairs(p)[j].0 == p.gates[j].id;
    if i :| LastPair(GatePairs(p), i, gateId, g) {
      assert LastGate(p, i);
    }
    if i :| LastGate(p, i) && p.gates[i] == g && g.id == gateId {
      assert LastPair(GatePairs(p), i, gateId, g);
    }
  }

  lemma RevisionsExactly(p: Packet, repo: Id, revision: Id)
    ensures Get(LastWins(p.revisions), repo) == Some(revision) <==> Revised(p, repo, revision)
  {
    LastPairWins(p.revisions, repo, revision);
    if i :| LastPair(p.revisions, i, repo, revision) {
      assert LastRevision(p, i);
    }
    if i :| LastRevision(p, i) && p.revisions[i] == (repo, revision) {
      assert LastPair(p.revisions, i, repo, revision);
    }
  }

  lemma AllowedExactly(p: Packet, owner: Id, capability: Id)
    ensures capability in CapabilitiesOf(AllowedPairs(p), owner) <==> May(p, owner, capability)
  {
    var pairs := AllowedPairs(p);
    assert forall j :: 0 <= j < |p.boundaries| ==> pairs[j].0 == p.boundaries[j].owner;
    if capability in CapabilitiesOf(pairs, owner) {
      LastPairWins(pairs, owner, LastWins(pairs)[owner]);
      var i :| LastPair(pairs, i, owner, LastWins(pairs)[owner]);
      assert LastBoundary(p, i);
    }
    if i :| LastBoundary(p, i) && p.boundaries[i].owner == owner
            && p.boundaries[i].allowed.Some? && capability in p.boundaries[i].allowed.value {
      assert LastPair(pairs, i, owner, Listed(p.boundaries[i].allowed));
      LastPairWins(pairs, owner, Listed(p.boundaries[i].allowed));
    }
  }

  lemma ProhibitedExactly(p: Packet, owner: Id, capability: Id)
    ensures capability in CapabilitiesOf(ProhibitedPairs(p), owner) <==> MustNot(p, owner, capability)
  {
    var pairs := ProhibitedPairs(p);
    assert forall j :: 0 <= j < |p.boundaries| ==> pairs[j].0 == p.boundaries[j].owner;
    if capability in CapabilitiesOf(pairs, owner) {
      LastPairWins(pairs, owner, LastWins(pairs)[owner]);
      var i :| LastPair(pairs, i, owner, LastWins(pairs)[owner]);
      assert LastBoundary(p, i);
    }
    if i :| LastBoundary(p, i) && p.boundaries[i].owner == owner
            && p.boundaries[i].prohibited.Some? && capability in p.boundaries[i].prohibited.value {
      assert LastPair(pairs, i, owner, Listed(p.boundaries[i].prohibited));
      LastPairWins(pairs, owner, Listed(p.boundaries[i].prohibited));
    }
  }

  // ----- the unit an item is placed in

  lemma {:induction false} LastWinsConcat<K, V>(a: seq<(K, V)>, b: seq<(K, V)>, key: K)
    ensures Get(LastWins(a + b), key) == if key in LastWins(b) then Some(LastWins(b)[key]) else Get(LastWins(a), key)
    decreases |b|
  {
    if b == [] {
      assert a + b == a;
    } else {
      LastWinsConcat(a, b[..|b| - 1], key);
      assert (a + b)[..|a + b| - 1] == a + b[..|b| - 1];
    }
  }

  lemma OneUnitAssigns(u: LandingUnit, item: Id)
    ensures Get(LastWins(UnitAssignments(u)), item) == if item in u.covered then Some(u.id) else None
  {
    var pairs := UnitAssignments(u);
    LastWinsKeys(pairs, item);
    if item in u.covered {
      var k :| 0 <= k < |u.covered| && u.covered[k] == item;
      assert pairs[k].0 == item;
    }
  }

  lemma {:induction false} AssignedExactly(units: seq<LandingUnit>, item: Id, unitId: Id)
    ensures Get(LastWins(FlatMap(units, PerUnitAssignments)), item) == Some(unitId) <==> PlacedIn(units, item, unitId)
    decreases |units|
  {
    if units != [] {
      var front, last := units[..|units| - 1], units[|units| - 1];
      AssignedExactly(front, item, unitId);
      LastWinsConcat(FlatMap(front, PerUnitAssignments), UnitAssignments(last), item);
      OneUnitAssigns(last, item);
      if item in last.covered {
        assert LastCover(units, |units| - 1, item);
      } else {
        PlacedBefore(units, item, unitId);
      }
    }
  }

  lemma PlacedBefore(units: seq<LandingUnit>, item: Id, unitId: Id)
    requires units != [] && item !in units[|units| - 1].covered
    ensures PlacedIn(units, item, unitId) <==> PlacedIn(units[..|units| - 1], item, unitId)
  {
    var front := units[..|units| - 1];
    if i :| LastCover(front, i, item) && front[i].id == unitId {
      assert forall j :: i < j < |units| ==> j == |units| - 1 || units[j] == front[j];
      assert LastCover(units, i, item);
    }
    if i :| LastCover(units, i, item) && units[i].id == unitId {
      assert units[i] == front[i];
      assert forall j :: i < j < |front| ==> units[j] == front[j];
      assert LastCover(front, i, item);
    }
  }

  lemma PlacesExactly(p: Packet, item: Id, unitId: Id)
    ensures Get(UnitOf(p), item) == Some(unitId) <==> Placed(p, item, unitId)
  {
    AssignedExactly(p.units, item, unitId);
  }

  // ----- repeated mentions

  function Joint(lists: seq<seq<Id>>): seq<Id> {
    if lists == [] then [] else Joint(lists[..|lists| - 1]) + lists[|lists| - 1]
  }

  lemma {:induction false} JointMembers(lists: seq<seq<Id>>, x: Id)
    ensures x in Joint(lists) <==> exists i :: 0 <= i < |lists| && x in lists[i]
    decreases |lists|
  {
    if lists != [] {
      var front, last := lists[..|lists| - 1], lists[|lists| - 1];
      JointMembers(front, x);
      if i :| 0 <= i < |front| && x in front[i] {
        assert x in lists[i];
      }
      if i :| 0 <= i < |lists| && x in lists[i] {
        if i < |front| {
          assert x in front[i];
        }
      }
    }
  }

  lemma {:induction false} TwiceInOne(xs: seq<Id>, x: Id)
    ensures multiset(xs)[x] >= 1 <==> x in xs
    ensures multiset(xs)[x] >= 2 <==> exists k, m :: 0 <= k < m < |xs| && xs[k] == x && xs[m] == x
    decreases |xs|
  {
    if xs != [] {
      var front, last := xs[..|xs| - 1], xs[|xs| - 1];
      TwiceInOne(front, x);
      assert xs == front + [last];
      if k, m :| 0 <= k < m < |front| && front[k] == x && front[m] == x {
        assert xs[k] == x && xs[m] == x;
      }
      if last == x && x in front {
        var k :| 0 <= k < |front| && front[k] == x;
        assert xs[k] == x && xs[|xs| - 1] == x;
      }
      if k, m :| 0 <= k < m < |xs| && xs[k] == x && xs[m] == x {
        assert front[k] == x;
        if m < |front| {
          assert front[m] == x;
        }
      }
    }
  }

  lemma TwiceSnoc(front: seq<seq<Id>>, last: seq<Id>, x: Id)
    ensures Twice(front + [last], x) <==>
            || Twice(front, x)
            || (exists k, m :: 0 <= k < m < |last| && last[k] == x && last[m] == x)
            || (x in last && exists i :: 0 <= i < |front| && x in front[i])
  {
    var lists := front + [last];
    if Twice(front, x) {
      if i, k, m :| 0 <= i < |front| && 0 <= k < m < |front[i]| && front[i][k] == x && front[i][m] == x {
        assert lists[i][k] == x && lists[i][m] == x;
      } else {
        var i, j :| 0 <= i < j < |front| && x in front[i] && x in front[j];
        assert x in lists[i] && x in lists[j];
      }
    }
    if k, m :| 0 <= k < m < |last| && last[k] == x && last[m] == x {
      assert lists[|front|][k] == x && lists[|front|][m] == x;
    }
    if i :| 0 <= i < |front| && x in front[i] {
      assert x in lists[i] && lists[|front|] == last;
    }
    if i, k, m :| 0 <= i < |lists| && 0 <= k < m < |lists[i]| && lists[i][k] == x && lists[i][m] == x {
      assert i < |front| ==> lists[i] == front[i];
    }
    if i, j :| 0 <= i < j < |lists| && x in lists[i] && x in lists[j] {
      assert lists[i] == front[i] && (j < |front| ==> lists[j] == front[j]);
    }
  }

  lemma {:induction false} TwiceExactly(lists: seq<seq<Id>>, x: Id)
    ensures multiset(Joint(lists))[x] >= 2 <==> Twice(lists, x)
    decreases |lists|
  {
    if lists != [] {
      var front, last := lists[..|lists| - 1], lists[|lists| - 1];
      TwiceExactly(front, x);
      TwiceSnoc(front, last, x);
      assert lists == front + [last];
      TwiceInOne(last, x);
      TwiceInOne(Joint(front), x);
      JointMembers(front, x);
    }
  }

  // ----- walks and orders

  lemma JoinedExactly(steps: iset<Edge>, edges: seq<Edge>, a: Id, b: Id)
    requires forall e :: e in steps <==> e in edges
    ensures Joined(steps, a, b) <==> Reaches(edges, a, b)
  {
    if Joined(steps, a, b) {
      var walk :| Follows(steps, walk) && walk[0] == a && walk[|walk| - 1] == b;
      assert WalkBetween(edges, walk, a, b);
    }
    if Reaches(edges, a, b) {
      var walk :| WalkBetween(edges, walk, a, b);
      assert Follows(steps, walk);
    }
  }

  lemma OrderableExactly(nodes: set<Id>, steps: iset<Edge>, edges: seq<Edge>)
    requires forall e :: e in steps <==> e in edges
    ensures HasCycle(Inside(nodes, edges)) <==> !Orderable(nodes, steps)
  {
    CycleIffUnorderable(nodes, edges);
    forall order
      ensures TopologicalOrder(nodes, Inside(nodes, edges), order) <==>
              Lists(nodes, order) && Ordered(nodes, steps, order)
    {
    }
  }
}
