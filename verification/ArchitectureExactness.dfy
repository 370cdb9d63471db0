/** The validator reports a finding exactly when the packet's entries make it due. */
module ArchitectureExactness {
  import opened Common
  import opened Graphs
  import opened ArchitecturePacket
  import opened ArchitectureConditions
  import opened ArchitectureLookups
  import opened ArchitectureTheorems
  import opened ParentChains

  // ----- runtime boundaries

  /** The capabilities an owner must have and be barred from. */
  lemma RequiredExactly(p: Packet)
    ensures PERSIST !in CapabilitiesOf(AllowedPairs(p), CUSTODY_OWNER) <==> !May(p, CUSTODY_OWNER, PERSIST)
    ensures ORCHESTRATION_CAPABILITIES - CapabilitiesOf(AllowedPairs(p), ORCHESTRATION_OWNER) != {} <==>
            OrchestrationLacks(p)
    ensures {PERSIST, PROJECT_CONTENT} - CapabilitiesOf(ProhibitedPairs(p), ORCHESTRATION_OWNER) != {} <==>
            !OrchestrationBarred(p)
  {
    AllowedExactly(p, CUSTODY_OWNER, PERSIST);
    ProhibitedExactly(p, ORCHESTRATION_OWNER, PERSIST);
    ProhibitedExactly(p, ORCHESTRATION_OWNER, PROJECT_CONTENT);
    MissingExactly(ORCHESTRATION_CAPABILITIES, CapabilitiesOf(AllowedPairs(p), ORCHESTRATION_OWNER));
    MissingExactly({PERSIST, PROJECT_CONTENT}, CapabilitiesOf(ProhibitedPairs(p), ORCHESTRATION_OWNER));
    forall c
      ensures c in CapabilitiesOf(AllowedPairs(p), ORCHESTRATION_OWNER) <==> May(p, ORCHESTRATION_OWNER, c)
    {
      AllowedExactly(p, ORCHESTRATION_OWNER, c);
    }
  }

  lemma AllowedHaveBoundary(p: Packet, owner: Id, capability: Id)
    requires May(p, owner, capability)
    ensures owner in Dedup(BoundaryOwners(p))
  {
    var i :| 0 <= i < |p.boundaries| && p.boundaries[i].owner == owner;
    assert BoundaryOwners(p)[i] == owner;
  }

  /** What some owner is allowed against the rules. */
  /** What some owner is allowed against the rules. */
  lemma AllowedFindings(p: Packet, f: Finding)
    ensures f in FlatMap(Dedup(BoundaryOwners(p)), PerBoundaryOwner(p)) <==>
            || (f == PersistenceElsewhere && exists owner :: owner != CUSTODY_OWNER && May(p, owner, PERSIST))
            || (f == ContentProjected && exists owner :: May(p, owner, PROJECT_CONTENT))
  {
    Among(Dedup(BoundaryOwners(p)), PerBoundaryOwner(p), f);
    OwnersFindings(p, f);
    forall owner, capability | May(p, owner, capability)
      ensures owner in Dedup(BoundaryOwners(p))
    {
      AllowedHaveBoundary(p, owner, capability);
    }
  }

  lemma CapabilityParts(p: Packet, f: Finding)
    ensures f in CapabilityFindings(p) <==>
            || (f == PersistenceUnassigned && PERSIST !in CapabilitiesOf(AllowedPairs(p), CUSTODY_OWNER))
            || (f == OrchestrationIncomplete
                && ORCHESTRATION_CAPABILITIES - CapabilitiesOf(AllowedPairs(p), ORCHESTRATION_OWNER) != {})
            || (f == OrchestrationUnlimited
                && {PERSIST, PROJECT_CONTENT} - CapabilitiesOf(ProhibitedPairs(p), ORCHESTRATION_OWNER) != {})
            || f in FlatMap(Dedup(BoundaryOwners(p)), PerBoundaryOwner(p))
  {
    var a := When(PERSIST !in CapabilitiesOf(AllowedPairs(p), CUSTODY_OWNER), PersistenceUnassigned);
    var b := When(ORCHESTRATION_CAPABILITIES - CapabilitiesOf(AllowedPairs(p), ORCHESTRATION_OWNER) != {},
                  OrchestrationIncomplete);
    var c := When({PERSIST, PROJECT_CONTENT} - CapabilitiesOf(ProhibitedPairs(p), ORCHESTRATION_OWNER) != {},
                  OrchestrationUnlimited);
    InFour(a, b, c, FlatMap(Dedup(BoundaryOwners(p)), PerBoundaryOwner(p)), f);
  }

  lemma CapabilitiesExactly(p: Packet, f: Finding)
    ensures f in CapabilityFindings(p) <==> CapabilityDue(p, f)
  {
    CapabilityParts(p, f);
    RequiredExactly(p);
    AllowedFindings(p, f);
  }

  lemma MissingExactly<T>(a: set<T>, b: set<T>)
    ensures a - b != {} <==> exists x :: x in a && x !in b
  {
    if x :| x in a && x !in b {
      assert x in a - b;
    }
    if a - b != {} {
      var x :| x in a - b;
    }
  }

  lemma OwnersFindings(p: Packet, f: Finding)
    ensures forall owner :: f in PerBoundaryOwner(p)(owner) <==>
              || (f == PersistenceElsewhere && owner != CUSTODY_OWNER && May(p, owner, PERSIST))
              || (f == ContentProjected && May(p, owner, PROJECT_CONTENT))
  {
    forall owner
      ensures f in PerBoundaryOwner(p)(owner) <==>
              || (f == PersistenceElsewhere && owner != CUSTODY_OWNER && May(p, owner, PERSIST))
              || (f == ContentProjected && May(p, owner, PROJECT_CONTENT))
    {
      AllowedExactly(p, owner, PERSIST);
      AllowedExactly(p, owner, PROJECT_CONTENT);
    }
  }

  lemma BoundariesRepeatExactly(p: Packet)
    ensures |BoundaryOwners(p)| != |Elements(BoundaryOwners(p))| <==> BoundsTwice(p)
  {
    RepeatsExactly(BoundaryOwners(p));
    assert forall i :: 0 <= i < |p.boundaries| ==> BoundaryOwners(p)[i] == p.boundaries[i].owner;
  }

  lemma BoundariesExactly(p: Packet, f: Finding)
    ensures f in BoundaryFindings(p) <==> BoundaryDue(p, f)
  {
    BoundariesRepeatExactly(p);
    CapabilitiesExactly(p, f);
  }

  // ----- the owner map

  /** The parent links are the steps of the chain. */
  lemma {:induction false} ChainIsWalk(p: Packet, start: Id, n: nat) returns (walk: seq<Id>)
    requires ChainAt(ParentOf(p), start, n).Some?
    ensures |walk| == n + 1 && walk[0] == start && Some(walk[n]) == ChainAt(ParentOf(p), start, n)
    ensures forall i :: 0 <= i < n ==> Edge(walk[i], walk[i + 1]) in ParentSteps(p)
    decreases n
  {
    if n == 0 {
      walk := [start];
    } else {
      var front := ChainIsWalk(p, start, n - 1);
      var next := ChainAt(ParentOf(p), start, n).value;
      ParentsExactly(p, front[n - 1], Some(next));
      walk := front + [next];
      forall i | 0 <= i < n
        ensures Edge(walk[i], walk[i + 1]) in ParentSteps(p)
      {
        assert i < n - 1 ==> walk[i] == front[i] && walk[i + 1] == front[i + 1];
      }
    }
  }

  lemma {:induction false} WalkIsChain(p: Packet, walk: seq<Id>, n: nat)
    requires n < |walk| && forall i :: 0 <= i < |walk| - 1 ==> Edge(walk[i], walk[i + 1]) in ParentSteps(p)
    ensures ChainAt(ParentOf(p), walk[0], n) == Some(walk[n])
    decreases n
  {
    if n > 0 {
      WalkIsChain(p, walk, n - 1);
      assert Edge(walk[n - 1], walk[n - 1 + 1]) in ParentSteps(p);
      ParentsExactly(p, walk[n - 1], Some(walk[n]));
    }
  }

  lemma AncestorsExactly(p: Packet, item: Id, ancestor: Id)
    ensures Ancestor(ParentOf(p), item, ancestor) <==> Joined(ParentSteps(p), item, ancestor)
  {
    if Ancestor(ParentOf(p), item, ancestor) {
      var n: nat :| n >= 1 && ChainAt(ParentOf(p), item, n) == Some(ancestor);
      var walk := ChainIsWalk(p, item, n);
      assert Follows(ParentSteps(p), walk);
    }
    if Joined(ParentSteps(p), item, ancestor) {
      var walk :| Follows(ParentSteps(p), walk) && walk[0] == item && walk[|walk| - 1] == ancestor;
      WalkIsChain(p, walk, |walk| - 1);
    }
  }

  lemma {:induction false} ChainOnwards(parentOf: Parents, start: Id, i: nat, n: nat)
    requires ChainAt(parentOf, start, i).Some?
    ensures ChainAt(parentOf, start, i + n) == ChainAt(parentOf, ChainAt(parentOf, start, i).value, n)
    decreases n
  {
    if n > 0 {
      ChainOnwards(parentOf, start, i, n - 1);
      assert ChainAt(parentOf, start, i + n - 1) == ChainAt(parentOf, ChainAt(parentOf, start, i).value, n - 1);
    }
  }

  /** A chain inside a finite map comes back to some item. */
  lemma EndlessComesBack(p: Packet, start: Id)
    requires Endless(ParentOf(p), start)
    ensures exists item :: Joined(ParentSteps(p), item, item)
  {
    var parents := ParentOf(p);
    assert forall n: nat :: InMapAt(parents, start, n);
    var count := |parents.Keys| + 1;
    var visited := seq(count, n requires 0 <= n < count => NodeAt(p, start, n));
    forall n | 0 <= n < count
      ensures visited[n] in parents.Keys && ChainAt(parents, start, n) == Some(visited[n])
    {
      assert InMapAt(parents, start, n);
    }
    Pigeonhole(parents.Keys, visited);
    var i, j :| 0 <= i < j < count && visited[i] == visited[j];
    ChainOnwards(parents, start, i, j - i);
    assert Ancestor(parents, visited[i], visited[i]);
    AncestorsExactly(p, visited[i], visited[i]);
  }

  ghost function NodeAt(p: Packet, start: Id, n: nat): Id
    requires Endless(ParentOf(p), start)
  {
    assert InMapAt(ParentOf(p), start, n);
    ChainAt(ParentOf(p), start, n).value
  }

  lemma RoundIsEndless(p: Packet, item: Id)
    requires Joined(ParentSteps(p), item, item)
    ensures item in ParentOf(p) && Endless(ParentOf(p), item)
  {
    AncestorsExactly(p, item, item);
    var n: nat :| n >= 1 && ChainAt(ParentOf(p), item, n) == Some(item);
    forall k: nat | k < n
      ensures InMapAt(ParentOf(p), item, k)
    {
      if !InMapAt(ParentOf(p), item, k) {
        LeftForGood(ParentOf(p), item, k, n);
      }
    }
    assert InMapAt(ParentOf(p), item, 0);
    forall k: nat
      ensures InMapAt(ParentOf(p), item, k)
    {
      RepeatIsEndless(ParentOf(p), item, 0, n, k);
    }
  }

  lemma CyclesExactly(p: Packet)
    ensures (exists item :: item in OwnerItems(p) && Endless(ParentOf(p), item)) <==>
            exists item :: Joined(ParentSteps(p), item, item)
  {
    if item :| item in OwnerItems(p) && Endless(ParentOf(p), item) {
      EndlessComesBack(p, item);
    }
    if item :| Joined(ParentSteps(p), item, item) {
      RoundIsEndless(p, item);
      OwnerLookup(p, item);
    }
  }

  lemma RootsExactly(p: Packet)
    ensures ParentOf(p) != map[] && None !in ParentOf(p).Values <==> !Rooted(p)
  {
    if p.owners != [] {
      assert OwnerItems(p)[0] in OwnerItems(p);
      OwnerLookup(p, OwnerItems(p)[0]);
    }
    forall item
      ensures Get(ParentOf(p), item) == Some(None) <==> Under(p, item, None)
      ensures item in ParentOf(p) <==> item in OwnerItems(p)
    {
      ParentsExactly(p, item, None);
      OwnerLookup(p, item);
    }
    if None in ParentOf(p).Values {
      var item :| item in ParentOf(p) && ParentOf(p)[item] == None;
      assert Under(p, item, None);
    }
    if item :| Under(p, item, None) {
      assert ParentOf(p)[item] in ParentOf(p).Values;
    }
  }

  lemma OwnedItemsExactly(p: Packet, f: Finding)
    ensures f in FlatMap(Dedup(OwnerItems(p)), PerOwnedItem(p)) <==> f.UnknownParent? && UnderUnknown(p, f.item)
  {
    Among(Dedup(OwnerItems(p)), PerOwnedItem(p), f);
    if f.UnknownParent? {
      OwnerLookup(p, f.item);
      forall parent
        ensures Get(ParentOf(p), f.item) == Some(Some(parent)) <==> Under(p, f.item, Some(parent))
      {
        ParentsExactly(p, f.item, Some(parent));
      }
      assert f in PerOwnedItem(p)(f.item) <==>
             f.item in ParentOf(p) && ParentOf(p)[f.item].Some? && ParentOf(p)[f.item].value !in Covered(p);
    }
  }

  lemma OwnerCoverage(p: Packet)
    ensures Elements(OwnerItems(p)) != Covered(p) <==> !OwnersCovered(p)
  {
    forall item
      ensures item in Elements(OwnerItems(p)) <==> HasOwner(p, item)
    {
      if o :| o in p.owners && o.item == item {
        var i :| 0 <= i < |p.owners| && p.owners[i] == o;
        assert OwnerItems(p)[i] == item;
      }
    }
    SameSet(p.covered, Elements(OwnerItems(p)));
  }

  lemma SameSet<T>(listed: seq<T>, found: set<T>)
    ensures found != Elements(listed) <==> !forall x :: x in listed <==> x in found
  {
    if forall x :: x in listed <==> x in found {
      assert found == Elements(listed);
    }
  }

  lemma WalksExactly(p: Packet, f: Finding)
    ensures f in FlatMap(Dedup(OwnerItems(p)), PerWalkStart(p)) <==>
            f == ParentCycle && exists item :: Joined(ParentSteps(p), item, item)
  {
    Among(Dedup(OwnerItems(p)), PerWalkStart(p), f);
    CyclesExactly(p);
    if item :| item in OwnerItems(p) && Endless(ParentOf(p), item) {
      assert ParentCycle in PerWalkStart(p)(item);
    }
  }

  lemma OwnerMapParts(p: Packet, f: Finding)
    ensures f in OwnerMapFindings(p) <==>
            || (f == OwnerMapRepeats && |OwnerItems(p)| != |Elements(OwnerItems(p))|)
            || (f == OwnerMapCoverage && Elements(OwnerItems(p)) != Covered(p))
            || (f == NoRoot && ParentOf(p) != map[] && None !in ParentOf(p).Values)
            || f in FlatMap(Dedup(OwnerItems(p)), PerOwnedItem(p))
            || f in FlatMap(Dedup(OwnerItems(p)), PerWalkStart(p))
  {
    var ids := OwnerItems(p);
    InFive(When(|ids| != |Elements(ids)|, OwnerMapRepeats), When(Elements(ids) != Covered(p), OwnerMapCoverage),
           When(ParentOf(p) != map[] && None !in ParentOf(p).Values, NoRoot),
           FlatMap(Dedup(ids), PerOwnedItem(p)), FlatMap(Dedup(ids), PerWalkStart(p)), f);
  }

  lemma OwnersRepeat(p: Packet)
    ensures |OwnerItems(p)| != |Elements(OwnerItems(p))| <==> OwnsTwice(p)
  {
    RepeatsExactly(OwnerItems(p));
    assert forall i :: 0 <= i < |p.owners| ==> OwnerItems(p)[i] == p.owners[i].item;
  }

  lemma OwnerMapExactly(p: Packet, f: Finding)
    ensures f in OwnerMapFindings(p) <==> OwnerMapDue(p, f)
  {
    OwnerMapParts(p, f);
    OwnersRepeat(p);
    OwnerCoverage(p);
    RootsExactly(p);
    OwnedItemsExactly(p, f);
    WalksExactly(p, f);
  }

  // ----- the plan

  lemma StartMembers(p: Packet, e: Edge)
    ensures e in StartSteps(p) <==> e in StartEdges(p)
  {
    Among(p.plan, PerEntryStart(Covered(p)), e);
    forall entry
      ensures e in PerEntryStart(Covered(p))(entry) <==>
              e.target == entry.item && e.source in entry.startAfter && e.source in p.covered && e.source != entry.item
    {
      PrerequisiteEdgeMembers(Covered(p), entry.startAfter, entry.item, e);
    }
  }

  lemma ScheduleMembers(p: Packet, e: Edge)
    ensures e in ScheduleSteps(p) <==> e in ScheduleEdges(p)
  {
    Among(p.plan, PerEntrySchedule(Covered(p)), e);
    forall entry
      ensures e in PerEntrySchedule(Covered(p))(entry) <==>
              e.target == entry.item && Requires(entry, e.source) && e.source in p.covered && e.source != entry.item
    {
      PrerequisiteEdgeMembers(Covered(p), entry.startAfter + entry.closeAfter, entry.item, e);
    }
  }

  lemma StartCycles(p: Packet)
    ensures HasCycle(Inside(Covered(p), StartEdges(p))) <==> !Orderable(Covered(p), StartSteps(p))
  {
    forall e
      ensures e in StartSteps(p) <==> e in StartEdges(p)
    {
      StartMembers(p, e);
    }
    OrderableExactly(Covered(p), StartSteps(p), StartEdges(p));
  }

  lemma ScheduleCycles(p: Packet)
    ensures HasCycle(Inside(Covered(p), ScheduleEdges(p))) <==> !Orderable(Covered(p), ScheduleSteps(p))
  {
    forall e
      ensures e in ScheduleSteps(p) <==> e in ScheduleEdges(p)
    {
      ScheduleMembers(p, e);
    }
    OrderableExactly(Covered(p), ScheduleSteps(p), ScheduleEdges(p));
  }

  lemma PlanRepeatsExactly(p: Packet)
    ensures |PlanItems(p)| != |Elements(PlanItems(p))| <==> PlansTwice(p)
  {
    RepeatsExactly(PlanItems(p));
    assert forall i :: 0 <= i < |p.plan| ==> PlanItems(p)[i] == p.plan[i].item;
  }

  lemma PlanCovers(p: Packet)
    ensures Elements(PlanItems(p)) != Covered(p) <==> !PlansCovered(p)
  {
    forall item
      ensures item in Elements(PlanItems(p)) <==> HasPlan(p, item)
    {
      if entry :| entry in p.plan && entry.item == item {
        var i :| 0 <= i < |p.plan| && p.plan[i] == entry;
        assert PlanItems(p)[i] == item;
      }
    }
    SameSet(p.covered, Elements(PlanItems(p)));
  }

  lemma EntryPrerequisites(p: Packet, entry: PlanEntry)
    ensures Elements(entry.startAfter) * Elements(entry.closeAfter) != {} <==> RepeatsPrerequisite(entry)
    ensures (Elements(entry.startAfter) + Elements(entry.closeAfter)) - Covered(p) != {} <==> AwaitsUnknown(p, entry)
  {
    var starts, closes := Elements(entry.startAfter), Elements(entry.closeAfter);
    CommonExactly(starts, closes);
    MissingExactly(starts + closes, Covered(p));
    if x :| x in entry.startAfter && x in entry.closeAfter {
      assert x in starts && x in closes;
    }
    if x :| Requires(entry, x) && x !in p.covered {
      assert x in starts + closes && x !in Covered(p);
    }
  }

  lemma EntryExactly(p: Packet, entry: PlanEntry, f: Finding)
    ensures f in PerPlanEntry(p)(entry) <==> EntryOwes(p, entry, f)
  {
    EntryPrerequisites(p, entry);
  }

  lemma CommonExactly<T>(a: set<T>, b: set<T>)
    ensures a * b != {} <==> exists x :: x in a && x in b
  {
    if x :| x in a && x in b {
      assert x in a * b;
    }
    if a * b != {} {
      var x :| x in a * b;
    }
  }

  lemma EntriesExactly(p: Packet, f: Finding)
    ensures f in FlatMap(p.plan, PerPlanEntry(p)) <==> SomeEntryOwes(p, f)
  {
    Among(p.plan, PerPlanEntry(p), f);
    if entry :| entry in p.plan && f in PerPlanEntry(p)(entry) {
      EntryExactly(p, entry, f);
    }
    if entry :| entry in p.plan && EntryOwes(p, entry, f) {
      EntryExactly(p, entry, f);
    }
  }

  lemma PlanParts(p: Packet, f: Finding)
    ensures f in PlanFindings(p) <==>
            || (f == PlanRepeats && |PlanItems(p)| != |Elements(PlanItems(p))|)
            || (f == PlanCoverage && Elements(PlanItems(p)) != Covered(p))
            || f in FlatMap(p.plan, PerPlanEntry(p))
            || (f == StartCycle && HasCycle(Inside(Covered(p), StartEdges(p))))
            || (f == ScheduleCycle && HasCycle(Inside(Covered(p), ScheduleEdges(p))))
  {
    var ids := PlanItems(p);
    InFive(When(|ids| != |Elements(ids)|, PlanRepeats), When(Elements(ids) != Covered(p), PlanCoverage),
           FlatMap(p.plan, PerPlanEntry(p)),
           if HasCycle(Inside(Covered(p), StartEdges(p))) then [StartCycle] else [],
           if HasCycle(Inside(Covered(p), ScheduleEdges(p))) then [ScheduleCycle] else [], f);
  }

  lemma PlanExactly(p: Packet, f: Finding)
    ensures f in PlanFindings(p) <==> PlanDue(p, f)
  {
    PlanParts(p, f);
    PlanRepeatsExactly(p);
    PlanCovers(p);
    StartCycles(p);
    ScheduleCycles(p);
    EntriesExactly(p, f);
  }

  // ----- Landing Units

  lemma UnitKnown(p: Packet, unitId: Id)
    ensures unitId in UnitById(p) <==> IsUnit(p, unitId)
    ensures unitId in UnitIds(p) <==> IsUnit(p, unitId)
  {
    UnitLookup(p, unitId);
    if u :| u in p.units && u.id == unitId {
      var i :| 0 <= i < |p.units| && p.units[i] == u;
      assert UnitIds(p)[i] == unitId;
    }
  }

  lemma {:induction false} AssignedIsJoint(units: seq<LandingUnit>)
    ensures |FlatMap(units, PerUnitAssignments)| == |Joint(Covers(units))|
    ensures forall k :: 0 <= k < |Joint(Covers(units))| ==>
              FlatMap(units, PerUnitAssignments)[k].0 == Joint(Covers(units))[k]
    decreases |units|
  {
    if units != [] {
      AssignedIsJoint(units[..|units| - 1]);
      assert Covers(units)[..|units| - 1] == Covers(units[..|units| - 1]);
    }
  }

  lemma RepeatedExactly(lists: seq<seq<Id>>)
    ensures |Joint(lists)| != |Elements(Joint(lists))| <==> exists x :: Twice(lists, x)
  {
    RepeatsExactly(Joint(lists));
    forall x
      ensures Twice(lists, x) <==>
              exists k, m :: 0 <= k < m < |Joint(lists)| && Joint(lists)[k] == x && Joint(lists)[m] == x
    {
      TwiceExactly(lists, x);
      TwiceInOne(Joint(lists), x);
    }
    if i, j :| 0 <= i < j < |Joint(lists)| && Joint(lists)[i] == Joint(lists)[j] {
      assert Twice(lists, Joint(lists)[i]);
    }
  }

  lemma UnitsRepeat(p: Packet)
    ensures |UnitIds(p)| != |Elements(UnitIds(p))| <==> DeclaresTwice(p)
  {
    RepeatsExactly(UnitIds(p));
    assert forall i :: 0 <= i < |p.units| ==> UnitIds(p)[i] == p.units[i].id;
  }

  lemma AssignedItemsAreJoint(p: Packet)
    ensures AssignedItems(p) == Joint(Covers(p.units))
  {
    AssignedIsJoint(p.units);
  }

  lemma ItemsRepeat(p: Packet)
    ensures |AssignedItems(p)| != |Elements(AssignedItems(p))| <==> exists item :: Twice(Covers(p.units), item)
  {
    AssignedItemsAreJoint(p);
    RepeatedExactly(Covers(p.units));
  }

  lemma AssignedHaveUnit(p: Packet, item: Id)
    ensures item in AssignedItems(p) <==> HasUnit(p, item)
  {
    AssignedItemsAreJoint(p);
    JointMembers(Covers(p.units), item);
    if u :| u in p.units && item in u.covered {
      var i :| 0 <= i < |p.units| && p.units[i] == u;
      assert item in Covers(p.units)[i];
    }
  }

  lemma UnitCoverage(p: Packet)
    ensures Elements(AssignedItems(p)) != Covered(p) <==> !PlacesCovered(p)
  {
    forall item
      ensures item in Elements(AssignedItems(p)) <==> HasUnit(p, item)
    {
      AssignedHaveUnit(p, item);
    }
    SameSet(p.covered, Elements(AssignedItems(p)));
  }

  lemma SourceCoverage(p: Packet)
    ensures Elements(p.sourceNodes) != SourceBacked(p) <==> !SourcesListed(p)
  {
    assert forall unitId :: unitId in SourceBacked(p) <==> IsSource(p, unitId);
    SameSet(p.sourceNodes, SourceBacked(p));
  }

  lemma UnitItemExactly(p: Packet, u: LandingUnit, item: Id, f: Finding)
    ensures f in PerUnitItem(p, u)(item) <==>
            || (f == UnitItemUnknown(u.id, item) && item !in p.covered)
            || (f == UnitOwnerMismatch(u.id, item) && OwnedElsewhere(p, item, u.owner))
  {
    forall owner
      ensures Get(OwnerOf(p), item) == Some(owner) <==> Owns(p, owner, item)
    {
      OwnersExactly(p, item, owner);
    }
    if item in OwnerOf(p) {
      assert Owns(p, OwnerOf(p)[item], item);
    }
  }

  lemma UnitItemsExactly(p: Packet, u: LandingUnit, f: Finding)
    ensures f in PerUnit(p)(u) <==> UnitOwes(p, u, f)
  {
    Among(u.covered, PerUnitItem(p, u), f);
    forall item
      ensures f in PerUnitItem(p, u)(item) <==>
              || (f == UnitItemUnknown(u.id, item) && item !in p.covered)
              || (f == UnitOwnerMismatch(u.id, item) && OwnedElsewhere(p, item, u.owner))
    {
      UnitItemExactly(p, u, item, f);
    }
  }

  lemma EachUnitExactly(p: Packet, f: Finding)
    ensures f in FlatMap(p.units, PerUnit(p)) <==> SomeUnitOwes(p, f)
  {
    Among(p.units, PerUnit(p), f);
    if u :| u in p.units && f in PerUnit(p)(u) {
      UnitItemsExactly(p, u, f);
    }
    if u :| u in p.units && UnitOwes(p, u, f) {
      UnitItemsExactly(p, u, f);
    }
  }

  lemma LandingMembers(p: Packet)
    ensures forall e :: e in LandingSteps(p) <==> e in SourceOrder(p)
  {
  }

  lemma SourceEdgesExactly(p: Packet, f: Finding)
    ensures f in FlatMap(p.sourceEdges, PerSourceEdge(p)) <==> f == SourceEdgeUnknown && EdgeOutside(p)
  {
    Among(p.sourceEdges, PerSourceEdge(p), f);
    if e :| e in p.sourceEdges && (e.source !in p.sourceNodes || e.target !in p.sourceNodes) {
      assert SourceEdgeUnknown in PerSourceEdge(p)(e);
    }
  }

  lemma SourceCycles(p: Packet)
    ensures HasCycle(Inside(Elements(p.sourceNodes), SourceOrder(p))) <==>
            !Orderable(Elements(p.sourceNodes), LandingSteps(p))
  {
    LandingMembers(p);
    OrderableExactly(Elements(p.sourceNodes), LandingSteps(p), SourceOrder(p));
  }

  lemma UnitParts(p: Packet, f: Finding)
    ensures f in UnitFindings(p) <==>
            || (f == UnitIdsRepeat && |UnitIds(p)| != |Elements(UnitIds(p))|)
            || f in FlatMap(p.units, PerUnit(p))
            || (f == UnitsCoverage && Elements(AssignedItems(p)) != Covered(p))
            || (f == ItemAssignedTwice && |AssignedItems(p)| != |Elements(AssignedItems(p))|)
            || (f == SourceNodesCoverage && Elements(p.sourceNodes) != SourceBacked(p))
            || f in FlatMap(p.sourceEdges, PerSourceEdge(p))
            || (f == SourceCycle && HasCycle(Inside(Elements(p.sourceNodes), SourceOrder(p))))
  {
    var ids, items := UnitIds(p), AssignedItems(p);
    InSeven(When(|ids| != |Elements(ids)|, UnitIdsRepeat), FlatMap(p.units, PerUnit(p)),
            When(Elements(items) != Covered(p), UnitsCoverage), When(|items| != |Elements(items)|, ItemAssignedTwice),
            When(Elements(p.sourceNodes) != SourceBacked(p), SourceNodesCoverage),
            FlatMap(p.sourceEdges, PerSourceEdge(p)),
            if HasCycle(Inside(Elements(p.sourceNodes), SourceOrder(p))) then [SourceCycle] else [], f);
  }

  lemma LandingUnitsExactly(p: Packet, f: Finding)
    ensures f in UnitFindings(p) <==> UnitDue(p, f)
  {
    UnitParts(p, f);
    UnitsRepeat(p);
    ItemsRepeat(p);
    UnitCoverage(p);
    SourceCoverage(p);
    EachUnitExactly(p, f);
    SourceEdgesExactly(p, f);
    SourceCycles(p);
  }

  // ----- handoffs

  lemma UnorderedExactly(p: Packet, before: Id, after: Id)
    ensures SourceUnordered(p, before, after) <==> Unordered(p, before, after)
  {
    LandingMembers(p);
    JoinedExactly(LandingSteps(p), SourceOrder(p), before, after);
  }

  lemma HandoffUnitExactly(p: Packet, h: Handoff, producing: bool, f: Finding)
    ensures f in HandoffUnit(p, h, producing) <==>
            (f == HandoffUnitUnknown(h.id, producing) || f == HandoffUnitOwner(h.id, producing)) && HandoffOwes(p, h, f)
  {
    var unitId := if producing then h.producerUnit else h.consumerUnit;
    UnitKnown(p, unitId);
    forall u
      ensures Get(UnitById(p), unitId) == Some(u) <==> Declared(p, unitId, u)
    {
      UnitsExactly(p, unitId, u);
    }
    if unitId in UnitById(p) {
      assert Declared(p, unitId, UnitById(p)[unitId]);
    }
  }

  lemma HandoffItemExactly(p: Packet, h: Handoff, producing: bool, f: Finding)
    ensures f in HandoffItem(p, h, producing) <==>
            (f == HandoffItemUnknown(h.id, producing) || f == HandoffItemElsewhere(h.id, producing))
            && HandoffOwes(p, h, f)
  {
    var unitId := if producing then h.producerUnit else h.consumerUnit;
    var item := if producing then h.producerItem else h.consumerItem;
    PlacesExactly(p, item, unitId);
  }

  lemma HandoffParts(p: Packet, h: Handoff, f: Finding)
    ensures f in PerHandoff(p)(h) <==>
            || (f == HandoffSameOwner(h.id) && h.producer == h.consumer)
            || f in HandoffUnit(p, h, true) || f in HandoffUnit(p, h, false)
            || f in HandoffItem(p, h, true) || f in HandoffItem(p, h, false)
            || (f == HandoffUnordered(h.id) && SourceUnordered(p, h.producerUnit, h.consumerUnit))
  {
    InSix(When(h.producer == h.consumer, HandoffSameOwner(h.id)), HandoffUnit(p, h, true), HandoffUnit(p, h, false),
          HandoffItem(p, h, true), HandoffItem(p, h, false),
          if SourceUnordered(p, h.producerUnit, h.consumerUnit) then [HandoffUnordered(h.id)] else [], f);
  }

  lemma HandoffExactly(p: Packet, h: Handoff, f: Finding)
    ensures f in PerHandoff(p)(h) <==> HandoffOwes(p, h, f)
  {
    HandoffParts(p, h, f);
    HandoffUnitExactly(p, h, true, f);
    HandoffUnitExactly(p, h, false, f);
    HandoffItemExactly(p, h, true, f);
    HandoffItemExactly(p, h, false, f);
    UnorderedExactly(p, h.producerUnit, h.consumerUnit);
  }

  lemma HandoffsRepeat(p: Packet)
    ensures |HandoffIds(p)| != |Elements(HandoffIds(p))| <==> HandsOverTwice(p)
  {
    RepeatsExactly(HandoffIds(p));
    assert forall i :: 0 <= i < |p.handoffs| ==> HandoffIds(p)[i] == p.handoffs[i].id;
  }

  lemma EachHandoffExactly(p: Packet, f: Finding)
    ensures f in FlatMap(p.handoffs, PerHandoff(p)) <==> exists h :: h in p.handoffs && HandoffOwes(p, h, f)
  {
    Among(p.handoffs, PerHandoff(p), f);
    if h :| h in p.handoffs && f in PerHandoff(p)(h) {
      HandoffExactly(p, h, f);
    }
    if h :| h in p.handoffs && HandoffOwes(p, h, f) {
      HandoffExactly(p, h, f);
    }
  }

  lemma HandoffsExactly(p: Packet, f: Finding)
    ensures f in HandoffFindings(p) <==> HandoffDue(p, f)
  {
    EachHandoffExactly(p, f);
    HandoffsRepeat(p);
  }
}
